/** The wildcard patterns that select per-file bitrate overrides for the video tool: a pattern is
    turned into an anchored regular expression in which `*` becomes `.*` and `?` becomes `.`.
    Every other character keeps its regular-expression meaning; of those only `.` (any one
    character) is modelled, all others are taken literally. */
module Wildcard {
  import opened JsStrings

  /** One element of the translated regular expression. */
  datatype Token =
    | Star      // `.*`
    | AnyChar   // `.`
    | Lit(c: char)

  function TokenOf(c: char): Token {
    if c == '*' then Star else if c == '?' || c == '.' then AnyChar else Lit(c)
  }

  /** The regular expression built from `pattern`, one token per pattern character. */
  function Translate(pattern: string): (p: seq<Token>)
    ensures |p| == |pattern|
    ensures forall i :: 0 <= i < |pattern| ==> p[i] == TokenOf(pattern[i])
  {
    if pattern == [] then [] else [TokenOf(pattern[0])] + Translate(pattern[1..])
  }

  /** `^p$` matches the whole of `s`; `.` never matches a line terminator. */
  function Matches(s: string, p: seq<Token>): bool
    decreases |s| + |p|
  {
    if p == [] then s == []
    else match p[0]
      case Star =>
        Matches(s, p[1..]) || (s != [] && !IsLineTerminator(s[0]) && Matches(s[1..], p))
      case AnyChar =>
        s != [] && !IsLineTerminator(s[0]) && Matches(s[1..], p[1..])
      case Lit(c) =>
        s != [] && s[0] == c && Matches(s[1..], p[1..])
  }

  /** `matchWildcardPattern(str, pattern)` */
  predicate MatchWildcardPattern(str: string, pattern: string) {
    Matches(str, Translate(pattern))
  }

  /** `*` followed by `q` matches exactly the strings that split into a line of any length
      (without line terminators) followed by a match of `q`. */
  lemma {:induction false} StarSplits(s: string, q: seq<Token>)
    ensures Matches(s, [Star] + q) <==>
      exists k :: 0 <= k <= |s| && NoLineTerminator(s[..k]) && Matches(s[k..], q)
    decreases |s|
  {
    var p := [Star] + q;
    assert p[1..] == q;
    if Matches(s, p) {
      if Matches(s, q) {
        assert s[..0] == [] && s[0..] == s;
      } else {
        StarSplits(s[1..], q);
        var k :| 0 <= k <= |s[1..]| && NoLineTerminator(s[1..][..k]) && Matches(s[1..][k..], q);
        assert s[k + 1..] == s[1..][k..];
        assert s[..k + 1] == [s[0]] + s[1..][..k];
      }
    }
    if exists k :: 0 <= k <= |s| && NoLineTerminator(s[..k]) && Matches(s[k..], q) {
      var k :| 0 <= k <= |s| && NoLineTerminator(s[..k]) && Matches(s[k..], q);
      if k == 0 {
        assert s[k..] == s;
      } else {
        assert s[..k][0] == s[0];
        var t := s[1..][..k - 1];
        assert NoLineTerminator(t) by {
          forall i | 0 <= i < |t| ensures !IsLineTerminator(t[i]) {
            assert t[i] == s[..k][i + 1];
          }
        }
        assert s[1..][k - 1..] == s[k..];
        StarSplits(s[1..], q);
      }
    }
  }

  /** A pattern without `*` matches only strings of its own length: `?` stands for exactly one
      character. */
  lemma {:induction false} StarFreeLength(s: string, p: seq<Token>)
    requires Star !in p
    requires Matches(s, p)
    ensures |s| == |p|
  {
    if p != [] {
      assert p[0] != Star;
      assert Star !in p[1..] by {
        forall i | 0 <= i < |p| - 1 ensures p[1..][i] != Star { assert p[1..][i] == p[i + 1]; }
      }
      StarFreeLength(s[1..], p[1..]);
    }
  }

  /** No character of `u` is special in a pattern. */
  predicate Plain(u: string) {
    forall i :: 0 <= i < |u| ==> u[i] != '*' && u[i] != '?' && u[i] != '.'
  }

  lemma {:induction false} TranslateConcat(a: string, b: string)
    ensures Translate(a + b) == Translate(a) + Translate(b)
  {
    var l := Translate(a + b);
    var r := Translate(a) + Translate(b);
    assert |l| == |r|;
    forall i | 0 <= i < |l| ensures l[i] == r[i] {
      if i < |a| { assert (a + b)[i] == a[i]; } else { assert (a + b)[i] == b[i - |a|]; }
    }
  }

  /** A plain prefix of the pattern consumes exactly itself. */
  lemma {:induction false} PlainPrefix(u: string, s: string, q: seq<Token>)
    requires Plain(u)
    ensures Matches(u + s, Translate(u) + q) <==> Matches(s, q)
  {
    if u != [] {
      var p := Translate(u) + q;
      assert p[0] == Lit(u[0]);
      assert p[1..] == Translate(u[1..]) + q;
      assert (u + s)[0] == u[0] && (u + s)[1..] == u[1..] + s;
      assert Plain(u[1..]) by {
        forall i | 0 <= i < |u| - 1 ensures u[1..][i] != '*' && u[1..][i] != '?' && u[1..][i] != '.' {
          assert u[1..][i] == u[i + 1];
        }
      }
      PlainPrefix(u[1..], s, q);
    } else {
      assert u + s == s && Translate(u) + q == q;
    }
  }

  /** A pattern free of `*`, `?` and `.` matches itself and nothing else. */
  lemma LiteralPatternMatchesOnlyItself(s: string, pattern: string)
    requires Plain(pattern)
    ensures MatchWildcardPattern(s, pattern) <==> s == pattern
  {
    var p := Translate(pattern);
    if Matches(s, p) {
      assert Star !in p by {
        forall i | 0 <= i < |p| ensures p[i] != Star { assert p[i] == TokenOf(pattern[i]); }
      }
      StarFreeLength(s, p);
      if s != pattern {
        PlainPrefixMismatch(pattern, s);
      }
    }
    if s == pattern {
      assert p + [] == p && pattern + [] == pattern;
      PlainPrefix(pattern, [], []);
    }
  }

  /** A plain pattern does not match a string of its length that differs from it. */
  lemma {:induction false} PlainPrefixMismatch(u: string, s: string)
    requires Plain(u) && |s| == |u| && s != u
    ensures !Matches(s, Translate(u))
  {
    var p := Translate(u);
    assert p[0] == Lit(u[0]);
    if s[0] == u[0] {
      assert s[1..] != u[1..] by { assert s == [s[0]] + s[1..]; assert u == [u[0]] + u[1..]; }
      assert p[1..] == Translate(u[1..]);
      assert Plain(u[1..]) by {
        forall i | 0 <= i < |u| - 1 ensures u[1..][i] != '*' && u[1..][i] != '?' && u[1..][i] != '.' {
          assert u[1..][i] == u[i + 1];
        }
      }
      PlainPrefixMismatch(u[1..], s[1..]);
    }
  }

  /** The pattern `*` matches exactly the strings without a line terminator. */
  lemma StarAlone(s: string)
    ensures MatchWildcardPattern(s, "*") <==> NoLineTerminator(s)
  {
    var p := Translate("*");
    assert p == [Star] + [];
    StarSplits(s, []);
    if NoLineTerminator(s) {
      assert s[..|s|] == s && s[|s|..] == [];
    }
  }

  /** Every pattern without line terminators matches its own text (`*`, `?` and `.` each
      match themselves). */
  lemma {:induction false} PatternMatchesItself(pattern: string)
    requires NoLineTerminator(pattern)
    ensures MatchWildcardPattern(pattern, pattern)
  {
    if pattern != [] {
      var p := Translate(pattern);
      var r := pattern[1..];
      assert p[1..] == Translate(r);
      assert NoLineTerminator(r) by {
        forall i | 0 <= i < |r| ensures !IsLineTerminator(r[i]) { assert r[i] == pattern[i + 1]; }
      }
      PatternMatchesItself(r);
      if p[0] == Star {
        assert Matches(r, p);
      }
    }
  }

  /** `*` may absorb any line in front of a match of the rest. */
  lemma StarThen(u: string, v: string, q: seq<Token>)
    requires NoLineTerminator(u) && Matches(v, q)
    ensures Matches(u + v, [Star] + q)
  {
    StarSplits(u + v, q);
    assert (u + v)[..|u|] == u && (u + v)[|u|..] == v;
  }

  // `*` stands for any run of characters, across `/` too: the pattern a/*/c.mp4 matches
  // a/<any segment>/c.mp4 and also a/x/y/c.mp4.
  lemma {:induction false} StarMatchesAnyRun(pre: string, run: string, post: string)
    requires Plain(pre) && NoLineTerminator(run) && NoLineTerminator(post)
    ensures MatchWildcardPattern(pre + run + post, pre + "*" + post)
  {
    var tail := Translate(post);
    var star := Translate("*");
    assert star == [Star];
    TranslateConcat("*", post);
    var q := Translate("*" + post);
    assert q == [Star] + tail;
    TranslateConcat(pre, "*" + post);
    assert pre + "*" + post == pre + ("*" + post);
    assert Translate(pre + "*" + post) == Translate(pre) + q;
    PatternMatchesItself(post);
    StarThen(run, post, tail);
    PlainPrefix(pre, run + post, q);
    assert pre + run + post == pre + (run + post);
  }

  /** A `.` in a pattern is the regular-expression wildcard, not a literal dot: `clip.mp4` also
      matches `clipXmp4`. */
  lemma {:induction false} DotMatchesAnyCharacter(pre: string, c: char, post: string)
    requires Plain(pre) && !IsLineTerminator(c) && NoLineTerminator(post)
    ensures MatchWildcardPattern(pre + [c] + post, pre + "." + post)
  {
    TranslateConcat(pre, "." + post);
    TranslateConcat(".", post);
    assert pre + "." + post == pre + ("." + post);
    PatternMatchesItself(post);
    assert ([c] + post)[1..] == post;
    PlainPrefix(pre, [c] + post, [AnyChar] + Translate(post));
    assert pre + [c] + post == pre + ([c] + post);
  }
}
