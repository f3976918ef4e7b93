/** `detectReferrer`: the campaign parameters implied by the page's referrer. A referrer from
    Google (`.co.jp` or `.com`), Yahoo Japan or Bing/MSN, compared on the lower-cased host name,
    gives organic search parameters naming the engine; anything else gives none. */
module Referrer {
  import opened Wrappers
  import opened JsStrings
  import opened UtmParams

  predicate IsGoogleHost(h: string) {
    h == "google.co.jp" || EndsWith(h, ".google.co.jp") || h == "google.com" || EndsWith(h, ".google.com")
  }

  predicate IsYahooHost(h: string) {
    h == "yahoo.co.jp" || EndsWith(h, ".yahoo.co.jp") || h == "search.yahoo.co.jp"
  }

  predicate IsBingHost(h: string) {
    h == "bing.com" || EndsWith(h, ".bing.com") || h == "search.msn.com"
  }

  /** The rules on a lower-cased host name, in the order the code tries them. */
  function EngineParams(h: string): Params {
    if IsGoogleHost(h) then Campaign("google", "organic", "search")
    else if IsYahooHost(h) then Campaign("yahoo", "organic", "search")
    else if IsBingHost(h) then Campaign("msa", "organic", "search")
    else []
  }

  /** `detectReferrer()`. `referrer` is `document.referrer`, `None` where there is no
      `document`; `hostname` is the host name `new URL(referrer)` parses, `None` where the
      constructor throws. */
  function DetectReferrer(referrer: Option<string>, hostname: Option<string>): (r: Params)
    ensures r != [] ==> r[0].1.Some? && r == Campaign(r[0].1.value, "organic", "search")
    ensures referrer == None || referrer == Some("") || hostname == None ==> r == []
  {
    if referrer == None || referrer.value == "" then []
    else if hostname == None then []
    else EngineParams(ToLower(hostname.value))
  }

  /** The engine named, for each rule, exactly when its host test passes on the lower-cased
      host name. */
  lemma DetectReferrerEngines(referrer: string, hostname: string)
    requires referrer != ""
    ensures var h := ToLower(hostname);
      DetectReferrer(Some(referrer), Some(hostname)) == EngineParams(h)
  {
  }

  lemma EngineParamsSource(h: string)
    ensures var r := EngineParams(h);
      (Get(r, UtmSource) == Some("google") <==> IsGoogleHost(h)) &&
      (Get(r, UtmSource) == Some("yahoo") <==> IsYahooHost(h) && !IsGoogleHost(h)) &&
      (Get(r, UtmSource) == Some("msa") <==> IsBingHost(h) && !IsGoogleHost(h) && !IsYahooHost(h)) &&
      (r == [] <==> !IsGoogleHost(h) && !IsYahooHost(h) && !IsBingHost(h))
  {
    GetAt(Campaign("google", "organic", "search"), 0);
    GetAt(Campaign("yahoo", "organic", "search"), 0);
    GetAt(Campaign("msa", "organic", "search"), 0);
  }

  /** The literal `search.yahoo.co.jp` test adds nothing: that host already ends with
      `.yahoo.co.jp`. */
  lemma YahooSearchHostRedundant(h: string)
    ensures IsYahooHost(h) <==> h == "yahoo.co.jp" || EndsWith(h, ".yahoo.co.jp")
  {
    if h == "search.yahoo.co.jp" {
      assert h[|h| - |".yahoo.co.jp"|..] == ".yahoo.co.jp";
    }
  }

  /** A domain's test also accepts its sub-domains ... */
  lemma SubdomainsMatch()
    ensures IsGoogleHost("www.google.co.jp") && IsGoogleHost("news.google.com") && IsBingHost("www.bing.com")
  {
    assert "www.google.co.jp"[3..] == ".google.co.jp";
    assert "news.google.com"[4..] == ".google.com";
    assert "www.bing.com"[3..] == ".bing.com";
  }

  /** ... but not a name that merely ends with the same letters ... */
  lemma LookalikeNotGoogle()
    ensures !IsGoogleHost("notgoogle.com")
  {
    var h := "notgoogle.com";
    assert h[|h| - 11..][0] == 't';
    assert h[|h| - 13..][0] == 'n';
  }

  /** ... nor one that only starts with it. */
  lemma PrefixNotGoogle()
    ensures !IsGoogleHost("google.com.evil")
  {
    var h := "google.com.evil";
    assert h[|h| - 11..][0] == 'l';
    assert h[|h| - 13..][0] == 'o';
  }

  lemma EndsWithAt(h: string, suffix: string, k: nat)
    requires EndsWith(h, suffix) && 0 < k <= |suffix|
    ensures h[|h| - k] == suffix[|suffix| - k]
  {
    assert h[|h| - |suffix|..][|suffix| - k] == h[|h| - k];
  }

  /** Where the engines' host names differ: their last letter and the letter of the second-level
      name just before the public suffix. */
  lemma GoogleTail(h: string)
    requires IsGoogleHost(h)
    ensures |h| >= 10
    ensures (h[|h| - 1] == 'p' && h[|h| - 7] == 'e') || (h[|h| - 1] == 'm' && h[|h| - 5] == 'e')
  {
    if EndsWith(h, ".google.co.jp") {
      EndsWithAt(h, ".google.co.jp", 1);
      EndsWithAt(h, ".google.co.jp", 7);
    } else if EndsWith(h, ".google.com") {
      EndsWithAt(h, ".google.com", 1);
      EndsWithAt(h, ".google.com", 5);
    }
  }

  lemma YahooTail(h: string)
    requires IsYahooHost(h)
    ensures |h| >= 11 && h[|h| - 1] == 'p' && h[|h| - 7] == 'o'
  {
    if EndsWith(h, ".yahoo.co.jp") {
      EndsWithAt(h, ".yahoo.co.jp", 1);
      EndsWithAt(h, ".yahoo.co.jp", 7);
    }
  }

  lemma BingTail(h: string)
    requires IsBingHost(h)
    ensures |h| >= 8 && h[|h| - 1] == 'm' && (h[|h| - 5] == 'g' || h[|h| - 5] == 'n')
  {
    if EndsWith(h, ".bing.com") {
      EndsWithAt(h, ".bing.com", 1);
      EndsWithAt(h, ".bing.com", 5);
    }
  }

  /** No host name passes two engines' tests, so the order in which they are tried does not
      matter. */
  lemma EnginesExclusive(h: string)
    ensures !(IsGoogleHost(h) && IsYahooHost(h))
    ensures !(IsGoogleHost(h) && IsBingHost(h))
    ensures !(IsYahooHost(h) && IsBingHost(h))
  {
    if IsGoogleHost(h) { GoogleTail(h); }
    if IsYahooHost(h) { YahooTail(h); }
    if IsBingHost(h) { BingTail(h); }
  }

  lemma LowerCharIdempotent(c: char)
    ensures LowerChar(LowerChar(c)) == LowerChar(c)
  {
  }

  /** The host name's case makes no difference. */
  lemma DetectReferrerIgnoresCase(referrer: Option<string>, hostname: string)
    ensures DetectReferrer(referrer, Some(ToLower(hostname))) == DetectReferrer(referrer, Some(hostname))
  {
    var h := ToLower(hostname);
    forall i | 0 <= i < |h|
      ensures ToLower(h)[i] == h[i]
    {
      LowerCharIdempotent(hostname[i]);
    }
    assert ToLower(h) == h;
  }
}
