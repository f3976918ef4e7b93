/** The user-agent classification behind the browser-information state: the operating system,
    whether the page runs in an in-app web view, the browser, the application name and the
    device type, each decided by the first of a list of substring or pattern tests. */
module BrowserInfo {
  import opened Wrappers
  import opened JsStrings

  /** `OS` */
  datatype Os = IOS | AndroidOs | MacOS | WindowsOs | NoOs {
    function Name(): string {
      match this
      case IOS => "iOS"
      case AndroidOs => "Android"
      case MacOS => "MacOS"
      case WindowsOs => "Windows"
      case NoOs => ""
    }
  }

  /** `BROWSER` */
  datatype Browser = Chrome | Edge | Firefox | Safari | WebView | NoBrowser {
    function Name(): string {
      match this
      case Chrome => "Chrome"
      case Edge => "Edge"
      case Firefox => "Firefox"
      case Safari => "Safari"
      case WebView => "WebView"
      case NoBrowser => ""
    }
  }

  /** `APP_NAME` */
  datatype App = ChromeApp | EdgeApp | FirefoxApp | SafariApp | X | Line | Facebook | Instagram | Slack | DefaultApp {
    function Name(): string {
      match this
      case ChromeApp => "Chrome"
      case EdgeApp => "Edge"
      case FirefoxApp => "Firefox"
      case SafariApp => "Safari"
      case X => "X"
      case Line => "LINE"
      case Facebook => "Facebook"
      case Instagram => "Instagram"
      case Slack => "Slack"
      case DefaultApp => "お使いのアプリ"
    }
  }

  /** `DEVICE_TYPE` */
  datatype DeviceType = PC | SP | Tablet | NoDevice {
    function Name(): string {
      match this
      case PC => "PC"
      case SP => "SP"
      case Tablet => "TABLET"
      case NoDevice => ""
    }
  }

  datatype Info = Info(os: Os, isWebView: bool, browser: Browser, appName: App, webViewVersion: string,
                       deviceType: DeviceType, iosVersion: string)

  /** `initialState.info` */
  const InitialInfo := Info(NoOs, false, NoBrowser, DefaultApp, "", NoDevice, "")

  /** `/(iPhone|iPad|iPod)/` */
  predicate AppleDevice(ua: string) {
    Includes(ua, "iPhone") || Includes(ua, "iPad") || Includes(ua, "iPod")
  }

  /** One of `iPhone`, `iPad`, `iPod`, `Android` occupies `ua[i..e]`. */
  predicate DeviceTokenAt(ua: string, i: nat, e: nat) {
    (e == i + 6 && OccursAt(ua, "iPhone", i)) ||
    (e == i + 4 && (OccursAt(ua, "iPad", i) || OccursAt(ua, "iPod", i))) ||
    (e == i + 7 && OccursAt(ua, "Android", i))
  }

  /** `.*` between `e` and `j`: no line terminator in between. */
  predicate SameLine(ua: string, e: nat, j: nat)
    requires e <= j <= |ua|
  {
    NoLineTerminator(ua[e..j])
  }

  /** `(?!.*Safari)` at `p`: no `Safari` later on the same line. */
  predicate NoSafariAhead(ua: string, p: nat)
    requires p <= |ua|
  {
    forall k | p <= k <= |ua| :: SameLine(ua, p, k) ==> !OccursAt(ua, "Safari", k)
  }

  /** `/(iPhone|iPad|iPod|Android).*AppleWebKit(?!.*Safari)/.test(ua)` */
  predicate WebViewPattern(ua: string) {
    exists i, e, j | 0 <= i <= e <= j <= |ua| ::
      DeviceTokenAt(ua, i, e) && SameLine(ua, e, j) && OccursAt(ua, "AppleWebKit", j) && NoSafariAhead(ua, j + 11)
  }

  /** `/iPhone|Android.*Mobile|Mobile/.test(ua)` */
  predicate PhonePattern(ua: string) {
    Includes(ua, "iPhone") ||
    (exists i, j | 0 <= i <= j <= |ua| && i + 7 <= j :: OccursAt(ua, "Android", i) && SameLine(ua, i + 7, j) && OccursAt(ua, "Mobile", j)) ||
    Includes(ua, "Mobile")
  }

  /** `/OS (\d+)_(\d+)/i` matches at `i` (the optional third group never changes whether or
      where it matches). */
  predicate IosVersionAt(ua: string, i: nat) {
    i + 3 <= |ua| && (ua[i] == 'O' || ua[i] == 'o') && (ua[i + 1] == 'S' || ua[i + 1] == 's') && ua[i + 2] == ' ' &&
    var n := DigitRun(ua, i + 3);
    n > 0 && i + 3 + n < |ua| && ua[i + 3 + n] == '_' && DigitRun(ua, i + 4 + n) > 0
  }

  /** The first capture group of a match at `i`: the major version. */
  function IosMajorAt(ua: string, i: nat): string
    requires IosVersionAt(ua, i)
  {
    ua[i + 3..i + 3 + DigitRun(ua, i + 3)]
  }

  /** `ua.match(/OS (\d+)_(\d+)(?:_(\d+))?/i)?.[1]` from `from` on. */
  function MatchIosMajor(ua: string, from: nat): Option<string>
    decreases |ua| - from
  {
    if from >= |ua| then None
    else if IosVersionAt(ua, from) then Some(IosMajorAt(ua, from))
    else MatchIosMajor(ua, from + 1)
  }

  /** The major version found is that of the leftmost match, and is a non-empty digit string. */
  lemma {:induction false} MatchIosMajorLeftmost(ua: string, from: nat) returns (i: nat)
    requires MatchIosMajor(ua, from).Some?
    ensures from <= i && IosVersionAt(ua, i) && MatchIosMajor(ua, from) == Some(IosMajorAt(ua, i))
    ensures forall j :: from <= j < i ==> !IosVersionAt(ua, j)
    ensures var v := MatchIosMajor(ua, from).value; v != [] && AllDigits(v)
    decreases |ua| - from
  {
    if IosVersionAt(ua, from) {
      i := from;
      DigitRunDigits(ua, from + 3);
    } else {
      i := MatchIosMajorLeftmost(ua, from + 1);
    }
  }

  /** No major version found means no match at all. */
  lemma {:induction false} MatchIosMajorNone(ua: string, from: nat)
    requires MatchIosMajor(ua, from).None?
    ensures forall i :: from <= i ==> !IosVersionAt(ua, i)
    decreases |ua| - from
  {
    if from < |ua| {
      MatchIosMajorNone(ua, from + 1);
    }
  }

  /** Positions without a match are skipped. */
  lemma {:induction false} MatchIosMajorSkip(ua: string, from: nat, to: nat)
    requires from <= to <= |ua|
    requires forall i :: from <= i < to ==> !IosVersionAt(ua, i)
    ensures MatchIosMajor(ua, from) == MatchIosMajor(ua, to)
    decreases (to as int) - (from as int)
  {
    if from < to {
      MatchIosMajorSkip(ua, from + 1, to);
    }
  }

  /** The major version is read back from `OS a_b`, the first match of the user agent. */
  lemma IosMajorRoundTrip(pre: string, a: string, b: string, rest: string)
    requires a != [] && AllDigits(a) && b != [] && AllDigits(b)
    requires forall i :: 0 <= i < |pre| ==> !IosVersionAt(pre + "OS " + a + "_" + b + rest, i)
    ensures MatchIosMajor(pre + "OS " + a + "_" + b + rest, 0) == Some(a)
  {
    var ua := pre + "OS " + a + "_" + b + rest;
    var p := |pre|;
    assert ua[p..p + 3] == "OS ";
    assert ua[p + 3..p + 3 + |a|] == a;
    assert ua[p + 3 + |a|] == '_';
    assert ua[p + 4 + |a|] == b[0];
    assert DigitsBetween(ua, p + 3, p + 3 + |a|) by {
      forall k | p + 3 <= k < p + 3 + |a| ensures IsDigit(ua[k]) {
        assert ua[k] == a[k - (p + 3)];
      }
    }
    DigitRunOf(ua, p + 3, |a|);
    assert IosVersionAt(ua, p);
    MatchIosMajorSkip(ua, 0, p);
  }

  /** `detectTouchDevice()`: `maxTouchPoints` is `None` outside a browser. */
  function DetectTouchDevice(maxTouchPoints: Option<int>): (r: bool)
    ensures r <==> maxTouchPoints.Some? && maxTouchPoints.value > 1
  {
    match maxTouchPoints
    case None => false
    case Some(n) => n > 1
  }

  /** The operating-system chain of `detectBrowser`, with the iOS major version read only for
      an Apple device. */
  method DetectOs(ua: string) returns (os: Os, iosVersion: string)
    ensures os == IOS <==> AppleDevice(ua)
    ensures os == AndroidOs <==> !AppleDevice(ua) && Includes(ua, "Android")
    ensures os == MacOS <==> !AppleDevice(ua) && !Includes(ua, "Android") && Includes(ua, "Macintosh")
    ensures os == WindowsOs <==>
      !AppleDevice(ua) && !Includes(ua, "Android") && !Includes(ua, "Macintosh") && Includes(ua, "Windows")
    ensures iosVersion == if os == IOS then MatchIosMajor(ua, 0).GetOr("") else ""
  {
    os := NoOs;
    iosVersion := "";
    if AppleDevice(ua) {
      os := IOS;
      var iosVersionMatch := MatchIosMajor(ua, 0);
      if iosVersionMatch.Some? {
        iosVersion := iosVersionMatch.value;
      }
    } else if Includes(ua, "Android") {
      os := AndroidOs;
    } else if Includes(ua, "Macintosh") {
      os := MacOS;
    } else if Includes(ua, "Windows") {
      os := WindowsOs;
    }
  }

  /** The two web-view tests of `detectBrowser`; either one sets the flag. */
  method DetectWebView(ua: string, uaLower: string) returns (isWebView: bool)
    ensures isWebView <==> WebViewPattern(ua) || Includes(uaLower, "wv")
  {
    isWebView := false;
    if WebViewPattern(ua) {
      isWebView := true;
    }
    if Includes(uaLower, "wv") {
      isWebView := true;
    }
  }

  /** The application a browser stands for when no in-app token overrides it. */
  function BrowserApp(browser: Browser): App {
    match browser
    case Chrome => ChromeApp
    case Edge => EdgeApp
    case Firefox => FirefoxApp
    case Safari => SafariApp
    case _ => DefaultApp
  }

  /** The browser chain of `detectBrowser`, which also sets the application of the browser it
      finds. */
  method DetectBrowserName(ua: string, isWebView: bool) returns (browser: Browser, appName: App)
    ensures browser == Chrome <==> Includes(ua, "Chrome") || Includes(ua, "CriOS")
    ensures browser == Edge <==> !Includes(ua, "Chrome") && !Includes(ua, "CriOS") && Includes(ua, "Edge")
    ensures browser == Firefox <==>
      !Includes(ua, "Chrome") && !Includes(ua, "CriOS") && !Includes(ua, "Edge") && Includes(ua, "Firefox")
    ensures browser == Safari <==>
      !Includes(ua, "Chrome") && !Includes(ua, "CriOS") && !Includes(ua, "Edge") && !Includes(ua, "Firefox") &&
      Includes(ua, "Safari")
    ensures browser == WebView <==>
      !Includes(ua, "Chrome") && !Includes(ua, "CriOS") && !Includes(ua, "Edge") && !Includes(ua, "Firefox") &&
      !Includes(ua, "Safari") && isWebView
    ensures appName == BrowserApp(browser)
  {
    browser := NoBrowser;
    appName := DefaultApp;
    if Includes(ua, "Chrome") || Includes(ua, "CriOS") {
      browser := Chrome;
      appName := ChromeApp;
    } else if Includes(ua, "Edge") {
      browser := Edge;
      appName := EdgeApp;
    } else if Includes(ua, "Firefox") {
      browser := Firefox;
      appName := FirefoxApp;
    } else if Includes(ua, "Safari") {
      browser := Safari;
      appName := SafariApp;
    } else if isWebView {
      browser := WebView;
    }
  }

  /** The in-app chain of `detectBrowser`: the first token found overrides `appName`, which is
      otherwise kept. */
  method OverrideAppName(uaLower: string, appName: App) returns (r: App)
    ensures r == InAppName(uaLower).GetOr(appName)
  {
    r := appName;
    if Includes(uaLower, "line") {
      r := Line;
    } else if Includes(uaLower, "fbav") {
      r := Facebook;
    } else if Includes(uaLower, "instagram") {
      r := Instagram;
    } else if Includes(uaLower, "slack") {
      r := Slack;
    } else if Includes(uaLower, "twitter") || Includes(uaLower, "x-twitter") {
      r := X;
    }
    XTwitterRedundant(uaLower);
  }

  /** The device chain of `detectBrowser`, which starts from `PC`. */
  method DetectDeviceType(ua: string, hasMultiTouch: bool) returns (deviceType: DeviceType)
    ensures deviceType != NoDevice
    ensures deviceType == Tablet <==>
      Includes(ua, "iPad") || (Includes(ua, "Macintosh") && hasMultiTouch) ||
      (Includes(ua, "Android") && !Includes(ua, "Mobile"))
    ensures deviceType == SP <==> deviceType != Tablet && (Includes(ua, "iPhone") || Includes(ua, "Mobile"))
  {
    deviceType := PC;
    if Includes(ua, "iPad") {
      deviceType := Tablet;
    } else if Includes(ua, "Macintosh") && hasMultiTouch {
      deviceType := Tablet;
    } else if Includes(ua, "Android") && !Includes(ua, "Mobile") {
      deviceType := Tablet;
    } else if PhonePattern(ua) {
      deviceType := SP;
    }
    PhonePatternIff(ua);
  }

  /** What `detectBrowser(ua, hasMultiTouch)` reports: each field is decided by the first matching
      case of its if-chain, and a field no case sets keeps its default. */
  predicate Classifies(ua: string, hasMultiTouch: bool, info: Info) {
    (info.os == IOS <==> AppleDevice(ua)) &&
    (info.os == AndroidOs <==> !AppleDevice(ua) && Includes(ua, "Android")) &&
    (info.os == MacOS <==> !AppleDevice(ua) && !Includes(ua, "Android") && Includes(ua, "Macintosh")) &&
    (info.os == WindowsOs <==>
       !AppleDevice(ua) && !Includes(ua, "Android") && !Includes(ua, "Macintosh") && Includes(ua, "Windows")) &&
    (info.iosVersion == if info.os == IOS then MatchIosMajor(ua, 0).GetOr("") else "") &&
    (info.webViewVersion == "") &&
    (info.isWebView <==> WebViewPattern(ua) || Includes(ToLower(ua), "wv")) &&
    (info.browser == Chrome <==> Includes(ua, "Chrome") || Includes(ua, "CriOS")) &&
    (info.browser == Edge <==> !Includes(ua, "Chrome") && !Includes(ua, "CriOS") && Includes(ua, "Edge")) &&
    (info.browser == Firefox <==>
       !Includes(ua, "Chrome") && !Includes(ua, "CriOS") && !Includes(ua, "Edge") && Includes(ua, "Firefox")) &&
    (info.browser == Safari <==>
       !Includes(ua, "Chrome") && !Includes(ua, "CriOS") && !Includes(ua, "Edge") && !Includes(ua, "Firefox") &&
       Includes(ua, "Safari")) &&
    (info.browser == WebView <==>
       !Includes(ua, "Chrome") && !Includes(ua, "CriOS") && !Includes(ua, "Edge") && !Includes(ua, "Firefox") &&
       !Includes(ua, "Safari") && info.isWebView) &&
    (info.appName == InAppName(ToLower(ua)).GetOr(BrowserApp(info.browser))) &&
    (info.deviceType != NoDevice) &&
    (info.deviceType == Tablet <==>
       Includes(ua, "iPad") || (Includes(ua, "Macintosh") && hasMultiTouch) ||
       (Includes(ua, "Android") && !Includes(ua, "Mobile"))) &&
    (info.deviceType == SP <==> info.deviceType != Tablet && (Includes(ua, "iPhone") || Includes(ua, "Mobile")))
  }

  /** `detectBrowser(ua, hasMultiTouch)`: the locals start at their defaults and each if-chain
      overwrites some of them with its first matching case. */
  method DetectBrowser(ua: string, hasMultiTouch: bool) returns (info: Info)
    ensures Classifies(ua, hasMultiTouch, info)
  {
    var webViewVersion := "";
    var uaLower := ToLower(ua);
    var os, iosVersion := DetectOs(ua);
    var isWebView := DetectWebView(ua, uaLower);
    var browser, appName := DetectBrowserName(ua, isWebView);
    appName := OverrideAppName(uaLower, appName);
    var deviceType := DetectDeviceType(ua, hasMultiTouch);
    info := Info(os, isWebView, browser, appName, webViewVersion, deviceType, iosVersion);
  }

  /** The classification leaves no choice: two reports of the same agent and touch flag are
      equal, so `getBrowserInfo` returns exactly what `detectBrowser` would. */
  lemma ClassifiesUnique(ua: string, hasMultiTouch: bool, a: Info, b: Info)
    requires Classifies(ua, hasMultiTouch, a) && Classifies(ua, hasMultiTouch, b)
    ensures a == b
  {
  }

  /** The application named by the first in-app token of the lower-cased user agent, in the
      order `line`, `fbav`, `instagram`, `slack`, `twitter`. */
  function InAppName(uaLower: string): (r: Option<App>)
    ensures r.Some? <==>
      Includes(uaLower, "line") || Includes(uaLower, "fbav") || Includes(uaLower, "instagram") ||
      Includes(uaLower, "slack") || Includes(uaLower, "twitter")
    ensures r.Some? ==> r.value in {Line, Facebook, Instagram, Slack, X}
  {
    if Includes(uaLower, "line") then Some(Line)
    else if Includes(uaLower, "fbav") then Some(Facebook)
    else if Includes(uaLower, "instagram") then Some(Instagram)
    else if Includes(uaLower, "slack") then Some(Slack)
    else if Includes(uaLower, "twitter") then Some(X)
    else None
  }

  /** `getBrowserInfo(ua)` */
  method GetBrowserInfo(ua: string, maxTouchPoints: Option<int>) returns (info: Info)
    ensures Classifies(ua, DetectTouchDevice(maxTouchPoints), info)
  {
    info := DetectBrowser(ua, DetectTouchDevice(maxTouchPoints));
  }

  /** `p` inside `q` at `off`: every string containing `q` contains `p`. */
  lemma IncludesLonger(s: string, p: string, q: string, off: nat)
    requires off + |p| <= |q| && q[off..off + |p|] == p && Includes(s, q)
    ensures Includes(s, p)
  {
    var i :| 0 <= i <= |s| - |q| && OccursAt(s, q, i);
    forall k | 0 <= k < |p| ensures s[i + off + k] == p[k] {
      assert q[off..off + |p|][k] == q[off + k];
      assert s[i..i + |q|][off + k] == s[i + off + k];
    }
    assert s[i + off..i + off + |p|] == p;
    assert OccursAt(s, p, i + off);
  }

  /** The `x-twitter` test adds nothing to the `twitter` test before it. */
  lemma XTwitterRedundant(uaLower: string)
    ensures Includes(uaLower, "twitter") || Includes(uaLower, "x-twitter") <==> Includes(uaLower, "twitter")
  {
    if Includes(uaLower, "x-twitter") {
      IncludesLonger(uaLower, "twitter", "x-twitter", 2);
    }
  }

  /** An in-app token wins over the browser, `line` over every other token; the default name
      remains only without a token and without a named browser. */
  lemma AppNamePriority(uaLower: string, browser: Browser)
    ensures Includes(uaLower, "line") ==> InAppName(uaLower).GetOr(BrowserApp(browser)) == Line
    ensures InAppName(uaLower).GetOr(BrowserApp(browser)) == DefaultApp <==>
      InAppName(uaLower).None? && browser in {WebView, NoBrowser}
  {
  }

  /** `Android.*Mobile` adds nothing to `Mobile`: the phone pattern is `iPhone` or `Mobile`. */
  lemma PhonePatternIff(ua: string)
    ensures PhonePattern(ua) <==> Includes(ua, "iPhone") || Includes(ua, "Mobile")
  {
    if exists i, j | 0 <= i <= j <= |ua| && i + 7 <= j :: OccursAt(ua, "Android", i) && SameLine(ua, i + 7, j) && OccursAt(ua, "Mobile", j) {
      var i, j :| 0 <= i <= j <= |ua| && i + 7 <= j && OccursAt(ua, "Android", i) && SameLine(ua, i + 7, j) && OccursAt(ua, "Mobile", j);
      assert OccursAt(ua, "Mobile", j);
    }
  }

  /** A device token followed on the same line by `AppleWebKit` and then by no `Safari` at all
      is a web view. */
  lemma WebViewWithoutSafari(pre: string, token: string, mid: string, post: string)
    requires token in ["iPhone", "iPad", "iPod", "Android"]
    requires NoLineTerminator(mid) && !Includes(post, "Safari")
    ensures WebViewPattern(pre + token + mid + "AppleWebKit" + post)
  {
    var head := pre + token + mid + "AppleWebKit";
    var ua := head + post;
    var i := |pre|;
    var e := i + |token|;
    var j := e + |mid|;
    assert ua[i..e] == token;
    assert DeviceTokenAt(ua, i, e);
    assert ua[e..j] == mid;
    assert SameLine(ua, e, j);
    assert ua[j..j + 11] == "AppleWebKit";
    forall k | j + 11 <= k <= |ua| && SameLine(ua, j + 11, k) ensures !OccursAt(ua, "Safari", k) {
      if OccursAt(ua, "Safari", k) {
        var o := k - |head|;
        assert ua[k..k + 6] == post[o..o + 6];
        assert OccursAt(post, "Safari", o);
      }
    }
    assert NoSafariAhead(ua, j + 11);
  }
}
