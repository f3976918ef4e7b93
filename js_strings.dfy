/** The JavaScript string operations the modelled code relies on, over `string` (a sequence of
    Unicode scalar values). Case mapping covers ASCII letters only. */
module JsStrings {

  /** `s.startsWith(p)` */
  predicate StartsWith(s: string, p: string) {
    |p| <= |s| && s[..|p|] == p
  }

  /** `s.endsWith(p)` */
  predicate EndsWith(s: string, p: string) {
    |p| <= |s| && s[|s| - |p|..] == p
  }

  /** `p` occurs in `s` starting at index `i`. */
  predicate OccursAt(s: string, p: string, i: int) {
    0 <= i && i + |p| <= |s| && s[i..i + |p|] == p
  }

  /** `s.includes(p)`, equivalently `/p/.test(s)` for a literal `p`. */
  predicate Includes(s: string, p: string) {
    exists i | 0 <= i <= |s| - |p| :: OccursAt(s, p, i)
  }

  /** `s.indexOf(p, from)`: the first occurrence at or after `from`, or -1. */
  function IndexOfFrom(s: string, p: string, from: nat): (r: int)
    ensures r == -1 || (from <= r && OccursAt(s, p, r))
    ensures r == -1 ==> forall j :: from <= j ==> !OccursAt(s, p, j)
    ensures r != -1 ==> forall j :: from <= j < r ==> !OccursAt(s, p, j)
    decreases |s| - from
  {
    if from + |p| > |s| then -1
    else if s[from..from + |p|] == p then from
    else IndexOfFrom(s, p, from + 1)
  }

  /** `s.indexOf(p)` */
  function IndexOf(s: string, p: string): (r: int)
    ensures r == -1 <==> !Includes(s, p)
    ensures r != -1 ==> OccursAt(s, p, r) && forall j :: 0 <= j < r ==> !OccursAt(s, p, j)
  {
    var r := IndexOfFrom(s, p, 0);
    assert r != -1 ==> OccursAt(s, p, r) && r <= |s| - |p|;
    r
  }

  /** `s.replace(pat, rep)` with a string pattern: only the FIRST occurrence is replaced
      (`rep` is taken literally; the `$` patterns of a replacement string are not modelled). */
  function ReplaceFirst(s: string, pat: string, rep: string): (r: string)
    ensures !Includes(s, pat) ==> r == s
    ensures Includes(s, pat) ==> |r| == |s| - |pat| + |rep|
  {
    var k := IndexOf(s, pat);
    if k == -1 then s else s[..k] + rep + s[k + |pat|..]
  }

  lemma {:induction false} ReplaceFirstAt(s: string, pat: string, rep: string, k: nat)
    requires OccursAt(s, pat, k)
    requires forall j :: 0 <= j < k ==> !OccursAt(s, pat, j)
    ensures ReplaceFirst(s, pat, rep) == s[..k] + rep + s[k + |pat|..]
  {
    var i := IndexOf(s, pat);
    assert Includes(s, pat) by { assert 0 <= k <= |s| - |pat|; }
    assert i != -1;
    assert i == k;
  }

  /** An occurrence of `pat` in `a + b` that starts inside `a` lies inside `a`, when `b` starts
      with a character that occurs in `pat` only at its front (if at all). */
  lemma NoOccurrenceFromPrefix(a: string, b: string, pat: string)
    requires !Includes(a, pat) && b != [] && |pat| >= 1 && b[0] !in pat[1..]
    ensures forall i :: 0 <= i < |a| ==> !OccursAt(a + b, pat, i)
  {
    var s := a + b;
    forall i | 0 <= i < |a| ensures !OccursAt(s, pat, i) {
      if i + |pat| <= |a| {
        assert s[i..i + |pat|] == a[i..i + |pat|];
        assert !OccursAt(a, pat, i);
      } else if i + |pat| <= |s| {
        assert s[i..i + |pat|][|a| - i] == b[0];
        assert pat[|a| - i] == pat[1..][|a| - i - 1];
      }
    }
  }

  /** Occurrences at or after the end of `a` are the occurrences in `b`, shifted. */
  lemma OccurrenceInSuffix(a: string, b: string, pat: string, j: nat)
    ensures OccursAt(a + b, pat, |a| + j) <==> OccursAt(b, pat, j)
  {
    if |a| + j + |pat| <= |a + b| {
      assert (a + b)[|a| + j..|a| + j + |pat|] == b[j..j + |pat|];
    }
  }

  lemma SplitAfterPrefix(a: string, b: string, mid: string, k: nat, m: nat)
    requires k <= m <= |b|
    ensures (a + b)[..|a| + k] + mid + (a + b)[|a| + m..] == a + (b[..k] + mid + b[m..])
  {
    assert (a + b)[..|a| + k] == a + b[..k];
    assert (a + b)[|a| + m..] == b[m..];
  }

  lemma ReplaceFirstAcross(a: string, b: string, pat: string, rep: string, k: nat)
    requires OccursAt(a + b, pat, |a| + k) && forall j :: 0 <= j < |a| + k ==> !OccursAt(a + b, pat, j)
    requires OccursAt(b, pat, k) && ReplaceFirst(b, pat, rep) == b[..k] + rep + b[k + |pat|..]
    ensures ReplaceFirst(a + b, pat, rep) == a + ReplaceFirst(b, pat, rep)
  {
    ReplaceFirstAt(a + b, pat, rep, |a| + k);
    SplitAfterPrefix(a, b, rep, k, k + |pat|);
  }

  /** Under the conditions of `NoOccurrenceFromPrefix`, replacing the first occurrence in
      `a + b` replaces it in `b`. */
  lemma {:induction false} ReplaceFirstInSuffix(a: string, b: string, pat: string, rep: string)
    requires !Includes(a, pat) && b != [] && |pat| >= 1 && b[0] !in pat[1..]
    ensures ReplaceFirst(a + b, pat, rep) == a + ReplaceFirst(b, pat, rep)
  {
    var s := a + b;
    NoOccurrenceFromPrefix(a, b, pat);
    var k := IndexOf(b, pat);
    if k == -1 {
      assert !Includes(s, pat) by {
        forall j | 0 <= j <= |s| - |pat| ensures !OccursAt(s, pat, j) {
          if j >= |a| {
            OccurrenceInSuffix(a, b, pat, j - |a|);
          }
        }
      }
    } else {
      forall j | 0 <= j < |a| + k ensures !OccursAt(s, pat, j) {
        if j >= |a| {
          OccurrenceInSuffix(a, b, pat, j - |a|);
        }
      }
      OccurrenceInSuffix(a, b, pat, k);
      ReplaceFirstAt(b, pat, rep, k);
      ReplaceFirstAcross(a, b, pat, rep, k);
    }
  }

  /** `s.lastIndexOf(c)` for a one-character pattern. */
  function LastIndexOf(s: string, c: char): (r: int)
    ensures -1 <= r < |s|
    ensures r == -1 <==> c !in s
    ensures r != -1 ==> s[r] == c
    ensures forall j :: r < j < |s| ==> s[j] != c
  {
    if s == [] then -1
    else if s[|s| - 1] == c then |s| - 1
    else
      var r := LastIndexOf(s[..|s| - 1], c);
      assert forall j :: 0 <= j < |s| - 1 ==> s[..|s| - 1][j] == s[j];
      r
  }

  function LowerChar(c: char): char {
    if 'A' <= c <= 'Z' then (c as int + 32) as char else c
  }

  function UpperChar(c: char): char {
    if 'a' <= c <= 'z' then (c as int - 32) as char else c
  }

  /** `s.toLowerCase()` on ASCII letters. */
  function ToLower(s: string): (r: string)
    ensures |r| == |s|
    ensures forall i :: 0 <= i < |s| ==> r[i] == LowerChar(s[i])
  {
    if s == [] then [] else [LowerChar(s[0])] + ToLower(s[1..])
  }

  /** `s.toUpperCase()` on ASCII letters. */
  function ToUpper(s: string): (r: string)
    ensures |r| == |s|
    ensures forall i :: 0 <= i < |s| ==> r[i] == UpperChar(s[i])
  {
    if s == [] then [] else [UpperChar(s[0])] + ToUpper(s[1..])
  }

  /** The characters a regular expression's `.` does not match. */
  predicate IsLineTerminator(c: char) {
    c == '\n' || c == '\r' || c == '\U{2028}' || c == '\U{2029}'
  }

  predicate NoLineTerminator(s: string) {
    forall i :: 0 <= i < |s| ==> !IsLineTerminator(s[i])
  }

  /** `\d` in a regular expression. */
  predicate IsDigit(c: char) {
    '0' <= c <= '9'
  }

  predicate AllDigits(s: string) {
    forall i :: 0 <= i < |s| ==> IsDigit(s[i])
  }

  /** Length of the run of digits that starts at `i` (what a greedy `\d+` consumes). */
  function DigitRun(s: string, i: nat): (n: nat)
    requires i <= |s|
    ensures i + n <= |s|
    ensures i + n < |s| ==> !IsDigit(s[i + n])
    decreases |s| - i
  {
    if i < |s| && IsDigit(s[i]) then 1 + DigitRun(s, i + 1) else 0
  }

  /** What a digit run consumes is digits only. */
  lemma DigitRunDigits(s: string, i: nat)
    requires i <= |s|
    ensures AllDigits(s[i..i + DigitRun(s, i)])
  {
    DigitRunBetween(s, i);
    var run := s[i..i + DigitRun(s, i)];
    forall k | 0 <= k < |run| ensures IsDigit(run[k]) {
      assert run[k] == s[i + k];
    }
  }

  lemma {:induction false} DigitRunBetween(s: string, i: nat)
    requires i <= |s|
    ensures DigitsBetween(s, i, i + DigitRun(s, i))
    decreases |s| - i
  {
    if i < |s| && IsDigit(s[i]) {
      DigitRunBetween(s, i + 1);
    }
  }

  /** Every character of `s[lo..hi]` is a digit. */
  predicate DigitsBetween(s: string, lo: nat, hi: nat)
    requires lo <= hi <= |s|
  {
    forall k :: lo <= k < hi ==> IsDigit(s[k])
  }

  /** `n` digits followed by a non-digit (or the end) are one whole digit run. */
  lemma {:induction false} DigitRunOf(s: string, i: nat, n: nat)
    requires i + n <= |s| && DigitsBetween(s, i, i + n)
    requires i + n == |s| || !IsDigit(s[i + n])
    ensures DigitRun(s, i) == n
    decreases n
  {
    if n > 0 {
      DigitRunOf(s, i + 1, n - 1);
    }
  }

  function DigitValue(c: char): nat
    requires IsDigit(c)
  {
    c as int - '0' as int
  }

  /** `parseInt(d, 10)` for a string of decimal digits. */
  function DigitsValue(d: string): nat
    requires AllDigits(d)
  {
    if d == [] then 0 else DigitsValue(d[..|d| - 1]) * 10 + DigitValue(d[|d| - 1])
  }

  function DigitChar(n: nat): (c: char)
    requires n < 10
    ensures IsDigit(c) && DigitValue(c) == n
  {
    ('0' as int + n) as char
  }

  /** Decimal rendering of a natural number, as `String(n)` gives it. */
  function NatToString(n: nat): (r: string)
    ensures |r| > 0 && AllDigits(r)
  {
    if n < 10 then [DigitChar(n)] else NatToString(n / 10) + [DigitChar(n % 10)]
  }

  /** The rendering has as many digits as the number has decimal places. */
  lemma {:induction false} NatToStringLength(n: nat)
    ensures n < 10 ==> |NatToString(n)| == 1
    ensures 10 <= n < 100 ==> |NatToString(n)| == 2
    ensures 100 <= n < 1000 ==> |NatToString(n)| == 3
    ensures 1000 <= n < 10000 ==> |NatToString(n)| == 4
  {
    if n >= 10 {
      NatToStringLength(n / 10);
    }
  }

  /** `String(n)` for an integer. */
  function IntToString(n: int): string {
    if n < 0 then "-" + NatToString(-n) else NatToString(n)
  }

  /** Reading back a rendered number gives the number: `parseInt(String(n)) == n`. */
  lemma {:induction false} NatToStringRoundTrip(n: nat)
    ensures DigitsValue(NatToString(n)) == n
  {
    if n >= 10 {
      var s := NatToString(n);
      assert s[..|s| - 1] == NatToString(n / 10);
      NatToStringRoundTrip(n / 10);
    }
  }

  /** `parts.join(sep)` */
  function JoinWith(parts: seq<string>, sep: string): (r: string)
    ensures parts == [] ==> r == ""
    ensures |parts| == 1 ==> r == parts[0]
  {
    if parts == [] then ""
    else if |parts| == 1 then parts[0]
    else parts[0] + sep + JoinWith(parts[1..], sep)
  }
}
