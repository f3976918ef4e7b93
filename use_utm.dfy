/** `useUtm`: the helpers that carry the current campaign parameters onto links. External URLs
    get the missing parameters added to their query; internal paths get every present parameter
    appended; a URL is external when it resolves to another origin. */
module UseUtm {
  import opened Wrappers
  import opened JsStrings
  import opened UtmParams
  import InitUtm

  /** What `withUtm` returns: the URL as given, or the parsed URL serialised again with the
      query it ends up with. */
  datatype Link = AsGiven(url: string) | Serialized(query: Query)

  /** `withUtm(url)`. `parsed` is the query of `new URL(url)`, `None` where the constructor
      throws. */
  function WithUtm(utmParams: Params, url: string, parsed: Option<Query>): Link {
    if url == "" || |InitUtm.FilterEmptyValues(utmParams)| == 0 then AsGiven(url)
    else if parsed == None then AsGiven(url)
    else Serialized(AppendMissing(parsed.value, utmParams))
  }

  /** `withUtm`, with its `forEach` appending to the parsed URL's query in place. */
  method ApplyWithUtm(utmParams: Params, url: string, parsed: Option<Query>) returns (r: Link)
    ensures r == WithUtm(utmParams, url, parsed)
  {
    if url == "" || |InitUtm.FilterEmptyValues(utmParams)| == 0 {
      return AsGiven(url);
    }
    if parsed == None {
      return AsGiven(url);
    }
    var searchParams := parsed.value;
    var i := 0;
    while i < |utmParams|
      invariant 0 <= i <= |utmParams|
      invariant AppendMissing(parsed.value, utmParams) == AppendMissing(searchParams, utmParams[i..])
    {
      assert utmParams[i..][0] == utmParams[i] && utmParams[i..][1..] == utmParams[i + 1..];
      var (key, value) := utmParams[i];
      if Present(value) && !QueryHas(searchParams, key) {
        searchParams := searchParams + [(key, value.value)];
      }
      i := i + 1;
    }
    assert utmParams[i..] == [];
    return Serialized(searchParams);
  }

  /** An external link keeps every pair of its query, gains a pair exactly for each present
      parameter whose name it lacks, and never has an existing value replaced. */
  lemma WithUtmKeepsExisting(utmParams: Params, url: string, q: Query, k: string, v: string)
    requires DistinctKeys(utmParams)
    requires url != "" && |InitUtm.FilterEmptyValues(utmParams)| > 0
    ensures var r := WithUtm(utmParams, url, Some(q));
      r.Serialized? && |q| <= |r.query| && r.query[..|q|] == q &&
      ((k, v) in r.query[|q|..] <==> !QueryHas(q, k) && v != "" && (k, Some(v)) in utmParams)
  {
    AppendMissingSpec(q, utmParams);
    MissingFromContents(q, utmParams, k, v);
    var r := AppendMissing(q, utmParams);
    assert r[|q|..] == MissingFrom(q, utmParams);
  }

  /** An empty URL, no present parameter or an unparsable URL leave the link as given. */
  lemma WithUtmAsGiven(utmParams: Params, url: string, parsed: Option<Query>)
    ensures WithUtm(utmParams, url, parsed).AsGiven? <==>
      url == "" || InitUtm.FilterEmptyValues(utmParams) == [] || parsed == None
    ensures WithUtm(utmParams, url, parsed).AsGiven? ==> WithUtm(utmParams, url, parsed).url == url
  {
  }

  /** The `key=value` pieces of `preserveUtm`, for the present parameters in order; `encode`
      is `encodeURIComponent`. */
  function UtmQueryParts(utmParams: Params, encode: string -> string): (parts: seq<string>)
    ensures |parts| == |InitUtm.FilterEmptyValues(utmParams)|
    ensures forall i :: 0 <= i < |parts| ==> parts[i] != ""
  {
    if utmParams == [] then []
    else
      var (k, v) := utmParams[0];
      (if Present(v) then [k + "=" + encode(v.value)] else []) + UtmQueryParts(utmParams[1..], encode)
  }

  /** `preserveUtm(path)` */
  function PreserveUtm(utmParams: Params, path: string, encode: string -> string): string {
    if path == "" || |InitUtm.FilterEmptyValues(utmParams)| == 0 then path
    else
      var hasQueryParams := Includes(path, "?");
      var utmQueryParams := JoinWith(UtmQueryParts(utmParams, encode), "&");
      if utmQueryParams != "" then path + (if hasQueryParams then "&" else "?") + utmQueryParams
      else path
  }

  lemma {:induction false} JoinWithNonEmpty(parts: seq<string>, sep: string)
    requires parts != [] && parts[0] != ""
    ensures JoinWith(parts, sep) != ""
  {
    if |parts| > 1 {
      assert |JoinWith(parts, sep)| >= |parts[0]|;
    }
  }

  /** A non-empty path with some present parameter always gets a query appended, after `&` when
      it already has a `?` and after `?` otherwise; the path itself is kept as its prefix. The
      `if (utmQueryParams)` test never fails once the guard has passed. */
  lemma PreserveUtmAppends(utmParams: Params, path: string, encode: string -> string)
    requires path != "" && |InitUtm.FilterEmptyValues(utmParams)| > 0
    ensures var r := PreserveUtm(utmParams, path, encode);
      var query := JoinWith(UtmQueryParts(utmParams, encode), "&");
      query != "" && r == path + (if Includes(path, "?") then "&" else "?") + query
  {
    JoinWithNonEmpty(UtmQueryParts(utmParams, encode), "&");
  }

  /** The path comes back unchanged exactly when it is empty or no parameter is present. */
  lemma PreserveUtmUnchangedIff(utmParams: Params, path: string, encode: string -> string)
    ensures PreserveUtm(utmParams, path, encode) == path <==>
      path == "" || InitUtm.FilterEmptyValues(utmParams) == []
  {
    if path != "" && |InitUtm.FilterEmptyValues(utmParams)| > 0 {
      PreserveUtmAppends(utmParams, path, encode);
    }
  }

  /** `isExternalUrl(url)` as written. `resolved` is the origin of `new URL(url, origin)`,
      `None` where the constructor throws. Every URL starting with `/`, including a
      protocol-relative `//host/...`, is taken as internal before any origin is compared. */
  predicate IsExternalUrlAsWritten(url: string, origin: string, resolved: Option<string>) {
    if url == "" then false
    else if StartsWith(url, "/") || StartsWith(url, "#") || StartsWith(url, ".") then false
    else resolved.Some? && resolved.value != origin
  }

  /** `isExternalUrl` with protocol-relative URLs left to the origin comparison, as the comment
      before that comparison says they are. */
  predicate IsExternalUrl(url: string, origin: string, resolved: Option<string>) {
    if url == "" then false
    else if (StartsWith(url, "/") && !StartsWith(url, "//")) || StartsWith(url, "#") || StartsWith(url, ".") then false
    else resolved.Some? && resolved.value != origin
  }

  /** The two agree on every URL that is not protocol-relative. */
  lemma IsExternalUrlAgrees(url: string, origin: string, resolved: Option<string>)
    requires !StartsWith(url, "//")
    ensures IsExternalUrl(url, origin, resolved) == IsExternalUrlAsWritten(url, origin, resolved)
  {
  }

  /** The corrected test: a URL is external exactly when it is neither empty nor a relative
      reference and resolves to another origin; in particular a protocol-relative URL to another
      host is external. */
  lemma IsExternalUrlSpec(url: string, origin: string, resolved: Option<string>)
    ensures IsExternalUrl(url, origin, resolved) <==>
      url != "" && url[0] != '#' && url[0] != '.' && (url[0] != '/' || StartsWith(url, "//")) &&
      resolved.Some? && resolved.value != origin
  {
    if url != "" {
      assert StartsWith(url, "/") <==> url[0] == '/';
      assert StartsWith(url, "#") <==> url[0] == '#';
      assert StartsWith(url, ".") <==> url[0] == '.';
    }
  }

  /** The discrepancy: `//other.example/page`, which resolves to another origin, is internal as
      written and external once corrected. */
  lemma ProtocolRelativeCounterexample()
    ensures !IsExternalUrlAsWritten("//other.example/page", "https://site.example", Some("https://other.example"))
    ensures IsExternalUrl("//other.example/page", "https://site.example", Some("https://other.example"))
  {
    var u := "//other.example/page";
    assert u[..1] == "/" && u[..2] == "//";
    assert u[..1] != "#" && u[..1] != ".";
  }
}
