/** The image component's helpers: the site base path applied to root-relative paths, the
    optimised file name chosen by the supported formats, the browser gates that decide AVIF
    support from the user agent, and the page-wide format detection with its queue of waiting
    callbacks. */
module ImgOptUtils {
  import opened Wrappers
  import opened JsStrings
  import ExternalLink

  /** `isSafari()` on the user agent. */
  predicate IsSafari(ua: string) {
    Includes(ua, "Safari") && !Includes(ua, "Chrome") && !Includes(ua, "Edg")
  }

  /** `isChrome()` on the user agent. */
  predicate IsChrome(ua: string) {
    Includes(ua, "Chrome") && !Includes(ua, "Edg")
  }

  /** The regular expression `<prefix>(\d+)\.(\d+)` matches at `i`. Both digit runs are greedy
      and a digit run cannot end in `.`, so the capture groups are the whole runs. */
  predicate VersionAt(s: string, prefix: string, i: nat) {
    OccursAt(s, prefix, i) &&
    var j := i + |prefix|;
    var n := DigitRun(s, j);
    n > 0 && j + n < |s| && s[j + n] == '.' && DigitRun(s, j + n + 1) > 0
  }

  /** The two capture groups of a match at `i`. */
  function VersionGroups(s: string, prefix: string, i: nat): (string, string)
    requires VersionAt(s, prefix, i)
  {
    var j := i + |prefix|;
    var n := DigitRun(s, j);
    var m := DigitRun(s, j + n + 1);
    (s[j..j + n], s[j + n + 1..j + n + 1 + m])
  }

  /** `s.match(/<prefix>(\d+)\.(\d+)/)` from position `from`: the groups of the first match. */
  function MatchVersion(s: string, prefix: string, from: nat): Option<(string, string)>
    decreases |s| - from
  {
    if from > |s| then None
    else if VersionAt(s, prefix, from) then Some(VersionGroups(s, prefix, from))
    else MatchVersion(s, prefix, from + 1)
  }

  /** A match found is the leftmost one. */
  lemma {:induction false} MatchVersionLeftmost(s: string, prefix: string, from: nat) returns (i: nat)
    requires MatchVersion(s, prefix, from).Some?
    ensures from <= i && VersionAt(s, prefix, i) && MatchVersion(s, prefix, from) == Some(VersionGroups(s, prefix, i))
    ensures forall j :: from <= j < i ==> !VersionAt(s, prefix, j)
    decreases |s| - from
  {
    if VersionAt(s, prefix, from) {
      i := from;
    } else {
      i := MatchVersionLeftmost(s, prefix, from + 1);
    }
  }

  /** No match found means there is none. */
  lemma {:induction false} MatchVersionNone(s: string, prefix: string, from: nat)
    requires MatchVersion(s, prefix, from).None?
    ensures forall i :: from <= i ==> !VersionAt(s, prefix, i)
    decreases |s| - from
  {
    if from <= |s| {
      MatchVersionNone(s, prefix, from + 1);
    }
  }

  /** Both groups of a match are non-empty digit strings. */
  lemma MatchVersionDigits(s: string, prefix: string, from: nat)
    requires MatchVersion(s, prefix, from).Some?
    ensures var g := MatchVersion(s, prefix, from).value;
      g.0 != [] && g.1 != [] && AllDigits(g.0) && AllDigits(g.1)
  {
    var i := MatchVersionLeftmost(s, prefix, from);
    var j := i + |prefix|;
    DigitRunDigits(s, j);
    DigitRunDigits(s, j + DigitRun(s, j) + 1);
  }

  /** `parseInt` of both groups of the first match, if there is one. */
  function ParsedVersion(s: string, prefix: string): Option<(nat, nat)> {
    var g := MatchVersion(s, prefix, 0);
    if g.None? then None
    else
      MatchVersionDigits(s, prefix, 0);
      Some((DigitsValue(g.value.0), DigitsValue(g.value.1)))
  }

  /** `getSafariVersionDetailed()`: `(0, 0)` for another browser or without a version. */
  function SafariVersion(ua: string): (nat, nat) {
    if !IsSafari(ua) then (0, 0) else ParsedVersion(ua, "Version/").GetOr((0, 0))
  }

  /** `getChromeVersion()`: the major number, `0` for another browser or without a version. */
  function ChromeVersion(ua: string): nat {
    if !IsChrome(ua) then 0
    else
      var m := ParsedVersion(ua, "Chrome/");
      if m.Some? then m.value.0 else 0
  }

  /** Safari supports AVIF from 16.4 on. */
  predicate SafariSupportsAvif(major: nat, minor: nat) {
    major > 16 || (major == 16 && minor >= 4)
  }

  /** The user-agent gate of `checkImageTypeSupport('image/avif')`: `Some` when the browser and
      its version decide, `None` when the probes have to. */
  function AvifGate(ua: string): Option<bool> {
    var (major, minor) := SafariVersion(ua);
    if IsSafari(ua) && SafariSupportsAvif(major, minor) then Some(true)
    else if IsSafari(ua) && major > 0 then Some(false)
    else if IsChrome(ua) && ChromeVersion(ua) >= 85 then Some(true)
    else None
  }

  /** `checkImageTypeSupport(type)`. `ua` is `None` outside a browser; `canvasEncodes` says
      whether a canvas's data URL for `type` starts with `data:<type>` (false where there is no
      document or the canvas throws); `imageLoads` whether the one-pixel probe image loads with
      width 1. */
  function CheckImageTypeSupport(mime: string, ua: Option<string>, canvasEncodes: bool, imageLoads: bool): bool {
    if ua == None then false
    else if mime == "image/avif" && AvifGate(ua.value).Some? then AvifGate(ua.value).value
    else if mime == "image/avif" && canvasEncodes then true
    else imageLoads
  }

  /** A Safari version that supports AVIF is followed by later ones that also do. */
  lemma SafariGateMonotone(major: nat, minor: nat, major': nat, minor': nat)
    requires SafariSupportsAvif(major, minor)
    requires major < major' || (major == major' && minor <= minor')
    ensures SafariSupportsAvif(major', minor')
  {
  }

  /** Safari with a version decides by the version alone and never probes; Chrome from 85 on
      supports AVIF; Edge, which names itself `Edg`, is never gated and always probes. */
  lemma AvifGateCases(ua: string)
    ensures IsSafari(ua) && SafariVersion(ua).0 > 0 ==>
      AvifGate(ua) == Some(SafariSupportsAvif(SafariVersion(ua).0, SafariVersion(ua).1))
    ensures IsChrome(ua) && ChromeVersion(ua) >= 85 ==> AvifGate(ua) == Some(true)
    ensures IsChrome(ua) && ChromeVersion(ua) < 85 ==> AvifGate(ua) == None
    ensures Includes(ua, "Edg") ==> AvifGate(ua) == None
    ensures AvifGate(ua) == Some(false) ==> IsSafari(ua)
  {
  }

  /** A Safari user agent that starts with `Version/M.m` is gated by that version as soon as
      `M` is not 0. */
  lemma SafariGateFromUserAgent(major: nat, minor: nat, rest: string)
    requires rest == [] || !IsDigit(rest[0])
    requires IsSafari("Version/" + NatToString(major) + "." + NatToString(minor) + rest)
    requires major > 0
    ensures AvifGate("Version/" + NatToString(major) + "." + NatToString(minor) + rest) ==
      Some(SafariSupportsAvif(major, minor))
  {
    ParsedVersionRoundTrip("Version/", major, minor, rest);
  }

  /** A Chrome user agent that starts with `Chrome/M.m` supports AVIF from 85 on and is left
      to the probes below. */
  lemma ChromeGateFromUserAgent(major: nat, minor: nat, rest: string)
    requires rest == [] || !IsDigit(rest[0])
    requires IsChrome("Chrome/" + NatToString(major) + "." + NatToString(minor) + rest)
    ensures AvifGate("Chrome/" + NatToString(major) + "." + NatToString(minor) + rest) ==
      if major >= 85 then Some(true) else None
  {
    ParsedVersionRoundTrip("Chrome/", major, minor, rest);
  }

  /** Only AVIF is gated; every other type is decided by the probe image, and nothing is
      supported outside a browser. */
  lemma CheckImageTypeSupportCases(mime: string, ua: Option<string>, canvasEncodes: bool, imageLoads: bool)
    ensures ua == None ==> !CheckImageTypeSupport(mime, ua, canvasEncodes, imageLoads)
    ensures ua.Some? && mime != "image/avif" ==> CheckImageTypeSupport(mime, ua, canvasEncodes, imageLoads) == imageLoads
    ensures ua.Some? && mime == "image/avif" && AvifGate(ua.value) == None ==>
      CheckImageTypeSupport(mime, ua, canvasEncodes, imageLoads) == (canvasEncodes || imageLoads)
  {
  }

  /** The digits `a`, a `.` and the digits `b` after the prefix, then a non-digit or the end: a
      match whose groups are `a` and `b`. */
  lemma VersionAtParts(s: string, prefix: string, i: nat, j: nat, a: string, b: string)
    requires j == i + |prefix| && OccursAt(s, prefix, i) && a != [] && b != []
    requires j + |a| + 1 + |b| <= |s|
    requires DigitsBetween(s, j, j + |a|) && s[j + |a|] == '.' && DigitsBetween(s, j + |a| + 1, j + |a| + 1 + |b|)
    requires j + |a| + 1 + |b| == |s| || !IsDigit(s[j + |a| + 1 + |b|])
    requires s[j..j + |a|] == a && s[j + |a| + 1..j + |a| + 1 + |b|] == b
    ensures VersionAt(s, prefix, i)
    ensures VersionGroups(s, prefix, i) == (a, b)
  {
    DigitRunOf(s, j, |a|);
    DigitRunOf(s, j + |a| + 1, |b|);
    assert VersionAt(s, prefix, i);
    var n, m := DigitRun(s, j), DigitRun(s, j + |a| + 1);
    assert (s[j..j + n], s[j + n + 1..j + n + 1 + m]) == (a, b);
  }

  /** A match at the starting position is the one found. */
  lemma MatchVersionHere(s: string, prefix: string, i: nat, g: (string, string))
    requires VersionAt(s, prefix, i) && VersionGroups(s, prefix, i) == g
    ensures MatchVersion(s, prefix, i) == Some(g)
  {
  }

  /** Where the pieces of `s == <prefix>a.b<rest>` lie. */
  lemma VersionLayout(s: string, prefix: string, a: string, b: string, rest: string)
    requires s == prefix + a + "." + b + rest
    requires AllDigits(a) && AllDigits(b) && (rest == [] || !IsDigit(rest[0]))
    ensures OccursAt(s, prefix, 0) && |prefix| + |a| + 1 + |b| <= |s|
    ensures DigitsBetween(s, |prefix|, |prefix| + |a|) && s[|prefix| + |a|] == '.'
    ensures DigitsBetween(s, |prefix| + |a| + 1, |prefix| + |a| + 1 + |b|)
    ensures |prefix| + |a| + 1 + |b| == |s| || !IsDigit(s[|prefix| + |a| + 1 + |b|])
    ensures s[|prefix|..|prefix| + |a|] == a && s[|prefix| + |a| + 1..|prefix| + |a| + 1 + |b|] == b
  {
    var j := |prefix|;
    var j' := j + |a| + 1;
    assert s[..|prefix|] == prefix;
    assert s[j..j + |a|] == a;
    assert s[j'..j' + |b|] == b;
    forall k | j <= k < j + |a| ensures IsDigit(s[k]) {
      assert s[k] == a[k - j];
    }
    forall k | j' <= k < j' + |b| ensures IsDigit(s[k]) {
      assert s[k] == b[k - j'];
    }
    if rest != [] {
      assert s[j' + |b|] == rest[0];
    }
  }

  /** Reading back a rendered version: the groups of `<prefix>a.b<rest>` are `a` and `b`. */
  lemma MatchVersionRoundTrip(prefix: string, a: string, b: string, rest: string)
    requires a != [] && b != [] && AllDigits(a) && AllDigits(b) && (rest == [] || !IsDigit(rest[0]))
    ensures MatchVersion(prefix + a + "." + b + rest, prefix, 0) == Some((a, b))
  {
    var s := prefix + a + "." + b + rest;
    VersionLayout(s, prefix, a, b, rest);
    VersionAtParts(s, prefix, 0, |prefix|, a, b);
    MatchVersionHere(s, prefix, 0, (a, b));
  }

  /** The numbers read back are the numbers rendered. */
  lemma ParsedVersionRoundTrip(prefix: string, major: nat, minor: nat, rest: string)
    requires rest == [] || !IsDigit(rest[0])
    ensures ParsedVersion(prefix + NatToString(major) + "." + NatToString(minor) + rest, prefix) == Some((major, minor))
  {
    MatchVersionRoundTrip(prefix, NatToString(major), NatToString(minor), rest);
    NatToStringRoundTrip(major);
    NatToStringRoundTrip(minor);
  }

  /** `applyBasePath(path)`; `baseUrl` is the configured `BASE_URL`, replaced by `/` when
      empty. */
  function ApplyBasePath(path: string, baseUrl: string): string {
    if ExternalLink.IsExternalLink(path) then path
    else
      var b := if baseUrl == "" then "/" else baseUrl;
      if StartsWith(path, "/") then
        var base := if EndsWith(b, "/") then b[..|b| - 1] else b;
        base + path
      else path
  }

  /** Absolute URLs and relative paths are left alone; a root-relative path is put under the
      base with exactly the base's own slashes, so a base ending in `/` does not double it. */
  lemma ApplyBasePathCases(path: string, baseUrl: string)
    ensures ExternalLink.IsExternalLink(path) || !StartsWith(path, "/") ==> ApplyBasePath(path, baseUrl) == path
    ensures StartsWith(path, "/") && EndsWith(baseUrl, "/") ==>
      ApplyBasePath(path, baseUrl) == baseUrl + path[1..]
    ensures StartsWith(path, "/") && baseUrl != "" && !EndsWith(baseUrl, "/") ==>
      ApplyBasePath(path, baseUrl) == baseUrl + path
  {
    if StartsWith(path, "/") {
      assert !ExternalLink.IsExternalLink(path) by {
        assert path[0] == '/';
        assert |path| < 7 || path[..4][0] == '/';
        ExternalLink.IsExternalLinkChars(path);
      }
      if EndsWith(baseUrl, "/") {
        assert baseUrl == baseUrl[..|baseUrl| - 1] + "/";
        assert path == "/" + path[1..];
      }
    }
  }

  /** With the default base every path is left as it is. */
  lemma ApplyBasePathDefault(path: string)
    ensures ApplyBasePath(path, "") == path && ApplyBasePath(path, "/") == path
  {
    ApplyBasePathCases(path, "/");
  }

  /** The extension written for the formats: AVIF when supported, otherwise WebP whatever
      `webp` says. */
  function OptimalExtension(avif: bool): string {
    if avif then ".avif" else ".webp"
  }

  /** The last occurrence of `c` is the one with no `c` after it. */
  lemma LastIndexOfIs(p: string, c: char, k: nat)
    requires k < |p| && p[k] == c && forall j :: k < j < |p| ==> p[j] != c
    ensures LastIndexOf(p, c) == k
  {
  }

  /** `getOptimalImagePath(imagePath, formats)` as written: the extension is cut at the last
      `.` anywhere in the path. */
  function OptimalImagePathAsWritten(imagePath: string, avif: bool, webp: bool, baseUrl: string): string {
    var p := ApplyBasePath(imagePath, baseUrl);
    if EndsWith(ToLower(p), ".svg") then p
    else
      var dot := LastIndexOf(p, '.');
      if dot == -1 then p else p[..dot] + OptimalExtension(avif)
  }

  /** The name's extension as the comments describe it: the last `.` of the last path segment,
      none when that segment has no `.`. */
  function ExtensionDot(p: string): (dot: int)
    ensures -1 <= dot < |p|
    ensures dot != -1 ==> p[dot] == '.' && forall j :: dot < j < |p| ==> p[j] != '.' && p[j] != '/'
    ensures dot == -1 ==> forall j :: LastIndexOf(p, '/') < j < |p| ==> p[j] != '.'
  {
    var dot := LastIndexOf(p, '.');
    var slash := LastIndexOf(p, '/');
    if dot > slash then dot else -1
  }

  /** `getOptimalImagePath` with the extension taken from the last path segment only. */
  function OptimalImagePath(imagePath: string, avif: bool, webp: bool, baseUrl: string): string {
    var p := ApplyBasePath(imagePath, baseUrl);
    if EndsWith(ToLower(p), ".svg") then p
    else
      var dot := ExtensionDot(p);
      if dot == -1 then p else p[..dot] + OptimalExtension(avif)
  }

  /** The corrected name: an SVG (in any letter case) and a name without extension stay as they
      are; otherwise exactly the extension is replaced, and `webp` plays no part. */
  lemma OptimalImagePathSpec(imagePath: string, avif: bool, webp: bool, baseUrl: string)
    ensures var p := ApplyBasePath(imagePath, baseUrl);
      var r := OptimalImagePath(imagePath, avif, webp, baseUrl);
      r == OptimalImagePath(imagePath, avif, !webp, baseUrl) &&
      (EndsWith(ToLower(p), ".svg") || ExtensionDot(p) == -1 ==> r == p) &&
      (!EndsWith(ToLower(p), ".svg") && ExtensionDot(p) != -1 ==>
        r == p[..ExtensionDot(p)] + OptimalExtension(avif) && EndsWith(r, OptimalExtension(avif)))
  {
    var p := ApplyBasePath(imagePath, baseUrl);
    if !EndsWith(ToLower(p), ".svg") && ExtensionDot(p) != -1 {
      var r := p[..ExtensionDot(p)] + OptimalExtension(avif);
      assert r[|r| - |OptimalExtension(avif)|..] == OptimalExtension(avif);
    }
  }

  /** The extension's dot is at `k` when nothing after it is a `.` or a `/`. */
  lemma ExtensionDotAt(p: string, k: nat)
    requires k < |p| && p[k] == '.' && forall j :: k < j < |p| ==> p[j] != '.' && p[j] != '/'
    ensures ExtensionDot(p) == k
  {
    LastIndexOfIs(p, '.', k);
  }

  /** A name with a `/` among its last four characters does not end in `.svg`. */
  lemma NotSvgBySlash(p: string, k: nat)
    requires k < |p| && |p| <= k + 4 && p[k] == '/'
    ensures !EndsWith(ToLower(p), ".svg")
  {
    if |p| >= 4 {
      var t := ToLower(p);
      var tail := t[|t| - 4..];
      assert tail[k - (|t| - 4)] == LowerChar(p[k]) == '/';
      assert '/' in tail && '/' !in ".svg";
    }
  }

  /** A name whose fourth character from the end is not `.` does not end in `.svg`. */
  lemma NotSvgByDot(p: string)
    requires |p| >= 4 && p[|p| - 4] != '.'
    ensures !EndsWith(ToLower(p), ".svg")
  {
    assert ToLower(p)[|p| - 4..][0] == LowerChar(p[|p| - 4]);
  }

  /** With the default base, a name that is not an SVG is cut at its extension's dot. */
  lemma OptimalImagePathAtDot(p: string, head: string, avif: bool, webp: bool)
    requires !EndsWith(ToLower(p), ".svg") && ExtensionDot(p) == |head| && p[..|head|] == head
    ensures OptimalImagePath(p, avif, webp, "") == head + OptimalExtension(avif)
  {
    ApplyBasePathDefault(p);
  }

  /** A file `head.ext` (with no `.` or `/` in `ext`) is renamed `head.avif` or `head.webp`,
      whatever dots the directories or the stem in `head` hold. */
  lemma OptimalImagePathRenames(head: string, ext: string, avif: bool, webp: bool)
    requires '.' !in ext && '/' !in ext
    requires !EndsWith(ToLower(head + "." + ext), ".svg")
    ensures OptimalImagePath(head + "." + ext, avif, webp, "") == head + OptimalExtension(avif)
  {
    ExtensionDotOfSuffix(head, ext);
    OptimalImagePathAtDot(head + "." + ext, head, avif, webp);
  }

  /** The extension's dot of `head.ext` is the one before `ext` when `ext` has no `.` or `/`. */
  lemma ExtensionDotOfSuffix(head: string, ext: string)
    requires '.' !in ext && '/' !in ext
    ensures ExtensionDot(head + "." + ext) == |head|
    ensures (head + "." + ext)[..|head|] == head
  {
    var p := head + "." + ext;
    assert p[..|head|] == head;
    var k := |head|;
    forall j | k < j < |p| ensures p[j] != '.' && p[j] != '/' {
      assert p[j] == ext[j - k - 1];
    }
    ExtensionDotAt(p, k);
  }

  /** The code as written, for every base: an SVG (in any letter case) and a based path without
      any `.` stay as they are; otherwise the path is cut at its last `.` wherever it is, the
      new extension appended, and `webp` plays no part. */
  lemma OptimalImagePathAsWrittenSpec(imagePath: string, avif: bool, webp: bool, baseUrl: string)
    ensures var p := ApplyBasePath(imagePath, baseUrl);
      var r := OptimalImagePathAsWritten(imagePath, avif, webp, baseUrl);
      r == OptimalImagePathAsWritten(imagePath, avif, !webp, baseUrl) &&
      (EndsWith(ToLower(p), ".svg") || LastIndexOf(p, '.') == -1 ==> r == p) &&
      (!EndsWith(ToLower(p), ".svg") && LastIndexOf(p, '.') != -1 ==>
        r == p[..LastIndexOf(p, '.')] + OptimalExtension(avif) && EndsWith(r, OptimalExtension(avif)) &&
        '.' !in p[LastIndexOf(p, '.') + 1..])
  {
    var p := ApplyBasePath(imagePath, baseUrl);
    var dot := LastIndexOf(p, '.');
    if !EndsWith(ToLower(p), ".svg") && dot != -1 {
      var r := p[..dot] + OptimalExtension(avif);
      assert r[|r| - |OptimalExtension(avif)|..] == OptimalExtension(avif);
      var tail := p[dot + 1..];
      forall j | 0 <= j < |tail| ensures tail[j] != '.' {
        assert tail[j] == p[dot + 1 + j];
      }
    }
  }

  /** As written, with the default base, a name that is not an SVG is cut at its last dot. */
  lemma OptimalImagePathAsWrittenAtDot(p: string, k: nat, avif: bool, webp: bool)
    requires !EndsWith(ToLower(p), ".svg") && LastIndexOf(p, '.') == k
    ensures OptimalImagePathAsWritten(p, avif, webp, "") == p[..k] + OptimalExtension(avif)
  {
    ApplyBasePathDefault(p);
  }

  /** With the default base, a name that is not an SVG and has no extension stays as it is. */
  lemma OptimalImagePathNoDot(p: string, avif: bool, webp: bool)
    requires !EndsWith(ToLower(p), ".svg") && ExtensionDot(p) == -1
    ensures OptimalImagePath(p, avif, webp, "") == p
  {
    ApplyBasePathDefault(p);
  }

  /** As written, a file without extension in a directory whose name has a `.` is cut at that
      directory's dot; the corrected version leaves it alone. */
  lemma DirectoryDotDiscrepancy(dir: string, ext: string, name: string, avif: bool, webp: bool)
    requires '.' !in ext && '/' !in ext && '.' !in name && '/' !in name
    ensures OptimalImagePathAsWritten(dir + "." + ext + "/" + name, avif, webp, "") == dir + OptimalExtension(avif)
    ensures OptimalImagePath(dir + "." + ext + "/" + name, avif, webp, "") == dir + "." + ext + "/" + name
  {
    var p := dir + "." + ext + "/" + name;
    var k := |dir|;
    var sl := k + 1 + |ext|;
    assert p[k] == '.' && p[sl] == '/';
    assert p[..k] == dir;
    forall j | k < j < sl ensures p[j] != '.' && p[j] != '/' {
      assert p[j] == ext[j - k - 1];
    }
    forall j | sl < j < |p| ensures p[j] != '.' && p[j] != '/' {
      assert p[j] == name[j - sl - 1];
    }
    LastIndexOfIs(p, '.', k);
    LastIndexOfIs(p, '/', sl);
    if |name| < 4 {
      NotSvgBySlash(p, sl);
    } else {
      assert p[|p| - 4] == name[|name| - 4];
      NotSvgByDot(p);
    }
    OptimalImagePathAsWrittenAtDot(p, k, avif, webp);
    OptimalImagePathNoDot(p, avif, webp);
  }

  /** The callback `logSupportedFormats()` registers. */
  const LogCallback: nat := 0

  /** `{ avif, webp }` */
  datatype SupportedFormats = SupportedFormats(avif: bool, webp: bool)

  /** The page-wide detection state (`state` and `callbacks`). Callbacks are named by the
      number they were registered under. */
  class FormatDetection {
    /** Whether the code runs in a browser (`window` is defined). */
    const inBrowser: bool
    var isChecking: bool
    var formats: Option<SupportedFormats>
    var failed: bool
    /** The registered callbacks; the list is never emptied. */
    var callbacks: seq<nat>
    /** Every callback call so far, with the formats it received. */
    var delivered: seq<(nat, SupportedFormats)>
    /** Checks started and not yet finished. */
    var pending: nat

    ghost predicate Valid()
      reads this
    {
      (isChecking ==> pending > 0) &&
      (!inBrowser ==> pending == 0 && !isChecking) &&
      (formats.Some? ==> formats.value.webp)
    }

    /** The module's initialisation: the empty state, a first `getSupportedFormats()` and, in a
        browser, `logSupportedFormats()`. */
    constructor(inBrowser: bool)
      ensures Valid() && this.inBrowser == inBrowser && !failed && delivered == []
      ensures inBrowser ==> isChecking && pending == 1 && formats == None && callbacks == [LogCallback]
      ensures !inBrowser ==>
        !isChecking && pending == 0 && formats == Some(SupportedFormats(false, true)) && callbacks == []
    {
      this.inBrowser := inBrowser;
      isChecking := false;
      formats := None;
      failed := false;
      callbacks := [];
      delivered := [];
      pending := 0;
      new;
      var _ := GetSupportedFormats(None);
      if inBrowser {
        LogSupportedFormats();
      }
    }

    /** `getSupportedFormats(callback)`. Known formats are returned and handed to the callback
        at once; otherwise the callback is queued, a check is started unless one is running,
        and `null` is returned. Outside a browser the check finishes before the call returns,
        with AVIF off and WebP on. */
    method GetSupportedFormats(callback: Option<nat>) returns (r: Option<SupportedFormats>)
      requires Valid()
      modifies this
      ensures Valid()
      ensures old(formats).Some? ==>
        r == old(formats) && formats == old(formats) &&
        callbacks == old(callbacks) && pending == old(pending) && isChecking == old(isChecking) &&
        delivered == old(delivered) + (if callback.Some? then [(callback.value, old(formats).value)] else [])
      ensures old(formats).None? ==>
        r == None && delivered == old(delivered) &&
        callbacks == old(callbacks) + (if callback.Some? then [callback.value] else [])
      ensures old(formats).None? && old(isChecking) ==> isChecking && pending == old(pending) && formats == None
      ensures old(formats).None? && !old(isChecking) && inBrowser ==>
        isChecking && pending == old(pending) + 1 && formats == None
      ensures old(formats).None? && !old(isChecking) && !inBrowser ==>
        !isChecking && pending == old(pending) && formats == Some(SupportedFormats(false, true))
      ensures failed == old(failed)
    {
      if formats.Some? {
        if callback.Some? {
          delivered := delivered + [(callback.value, formats.value)];
        }
        return formats;
      }
      if callback.Some? {
        callbacks := callbacks + [callback.value];
      }
      if !isChecking {
        isChecking := true;
        if inBrowser {
          pending := pending + 1;
        } else {
          formats := Some(SupportedFormats(false, true));
          isChecking := false;
        }
      }
      return None;
    }

    /** The completion of a started `checkFormats()` in a browser, with the result of
        `checkImageTypeSupport('image/avif')`: the formats are recorded and every registered
        callback, in order, receives them. */
    method FinishCheck(avifSupported: bool)
      requires Valid() && pending > 0
      modifies this
      ensures Valid()
      ensures formats == Some(SupportedFormats(avifSupported, true)) && !isChecking && pending == old(pending) - 1
      ensures callbacks == old(callbacks) && failed == old(failed)
      ensures |delivered| == |old(delivered)| + |callbacks|
      ensures delivered[..|old(delivered)|] == old(delivered)
      ensures forall i :: 0 <= i < |callbacks| ==>
        delivered[|old(delivered)| + i] == (callbacks[i], SupportedFormats(avifSupported, true))
    {
      var result := SupportedFormats(avifSupported, true);
      formats := Some(result);
      isChecking := false;
      pending := pending - 1;
      var d := delivered;
      var i := 0;
      while i < |callbacks|
        invariant 0 <= i <= |callbacks|
        invariant |d| == |delivered| + i && d[..|delivered|] == delivered
        invariant forall j :: 0 <= j < i ==> d[|delivered| + j] == (callbacks[j], result)
      {
        d := d + [(callbacks[i], result)];
        i := i + 1;
      }
      delivered := d;
    }

    /** A check that throws: the error is kept and checking stops, the formats stay unknown. */
    method FailCheck()
      requires Valid() && pending > 0
      modifies this
      ensures Valid()
      ensures failed && !isChecking && pending == old(pending) - 1
      ensures formats == old(formats) && callbacks == old(callbacks) && delivered == old(delivered)
    {
      failed := true;
      isChecking := false;
      pending := pending - 1;
    }

    /** `logSupportedFormats()`: the formats go to the logging callback, now or once known. */
    method LogSupportedFormats()
      requires Valid()
      modifies this
      ensures Valid() && failed == old(failed)
      ensures old(formats).Some? ==>
        formats == old(formats) && callbacks == old(callbacks) &&
        pending == old(pending) && delivered == old(delivered) + [(LogCallback, old(formats).value)]
      ensures old(formats).None? ==> callbacks == old(callbacks) + [LogCallback] && delivered == old(delivered)
      ensures old(formats).None? && inBrowser ==>
        formats == None && isChecking && pending == (if old(isChecking) then old(pending) else old(pending) + 1)
    {
      var _ := GetSupportedFormats(Some(LogCallback));
    }

    /** `resetFormatDetection()`: forget the formats and the error, then start a new check. */
    method ResetFormatDetection()
      requires Valid()
      modifies this
      ensures Valid()
      ensures !failed && callbacks == old(callbacks) && delivered == old(delivered)
      ensures inBrowser ==> formats == None && isChecking && pending == old(pending) + 1
      ensures !inBrowser ==> formats == Some(SupportedFormats(false, true)) && !isChecking
    {
      formats := None;
      isChecking := false;
      failed := false;
      var _ := GetSupportedFormats(None);
    }
  }
}
