/** `isExternalLink`: a link counts as external exactly when it starts with `http://` or
    `https://`, case-sensitively. */
module ExternalLink {
  import opened JsStrings

  /** `/^https?:\/\//.test(link)` */
  predicate IsExternalLink(link: string) {
    StartsWith(link, "http://") || StartsWith(link, "https://")
  }

  /** The pattern spelt out character by character: `http`, an optional `s`, then `://`. */
  lemma IsExternalLinkChars(link: string)
    ensures IsExternalLink(link) <==>
      (|link| >= 7 && link[..4] == "http" && link[4..7] == "://") ||
      (|link| >= 8 && link[..4] == "http" && link[4] == 's' && link[5..8] == "://")
  {
    if |link| >= 7 && link[..4] == "http" && link[4..7] == "://" {
      assert link[..7] == link[..4] + link[4..7];
    }
    if |link| >= 8 && link[..4] == "http" && link[4] == 's' && link[5..8] == "://" {
      assert link[..8] == link[..4] + [link[4]] + link[5..8];
    }
  }

  /** Anything may follow the scheme: extending an external link keeps it external. */
  lemma ExternalLinkExtends(link: string, rest: string)
    requires IsExternalLink(link)
    ensures IsExternalLink(link + rest)
  {
    var p := if StartsWith(link, "http://") then "http://" else "https://";
    assert (link + rest)[..|p|] == link[..|p|];
  }

  /** A link that does not start with `h` is internal. */
  lemma InternalUnlessH(link: string)
    requires link == [] || link[0] != 'h'
    ensures !IsExternalLink(link)
  {
    if |link| >= 7 {
      assert link[..7][0] == link[0];
    }
    if |link| >= 8 {
      assert link[..8][0] == link[0];
    }
  }

  /** Relative paths, fragments, other schemes, an upper-case scheme and a protocol-relative
      URL are all internal. */
  lemma InternalLinks()
    ensures !IsExternalLink("/about")
    ensures !IsExternalLink("#top")
    ensures !IsExternalLink("")
    ensures !IsExternalLink("ftp://example.com")
    ensures !IsExternalLink("HTTP://example.com")
    ensures !IsExternalLink("//example.com")
    ensures !IsExternalLink("mailto:a@example.com")
    ensures IsExternalLink("https://example.com") && IsExternalLink("http://")
  {
    InternalUnlessH("/about");
    InternalUnlessH("#top");
    InternalUnlessH("");
    InternalUnlessH("ftp://example.com");
    InternalUnlessH("HTTP://example.com");
    InternalUnlessH("//example.com");
    InternalUnlessH("mailto:a@example.com");
    assert "https://example.com"[..8] == "https://";
  }
}
