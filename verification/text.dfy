/**
 * The Python `str` operations that the codecs and the exporter rely on:
 * `strip`, `split` on one separator character, `join`, `replace` and the
 * substring test `in`. Each is defined the way CPython behaves, and the
 * lemmas below are the facts about them that the round trips need.
 */
module Text {

  /** `c.isspace()`: the code points Python treats as whitespace. */
  predicate IsSpace(c: char) {
    var n := c as int;
    (0x09 <= n <= 0x0D) || (0x1C <= n <= 0x20) || n == 0x85 || n == 0xA0 || n == 0x1680
    || (0x2000 <= n <= 0x200A) || n == 0x2028 || n == 0x2029 || n == 0x202F
    || n == 0x205F || n == 0x3000
  }

  predicate AllSpace(s: string) {
    forall i :: 0 <= i < |s| ==> IsSpace(s[i])
  }

  /** True when `strip()` leaves `s` alone: empty, or no whitespace at either end. */
  predicate Trimmed(s: string) {
    s == [] || (!IsSpace(s[0]) && !IsSpace(s[|s| - 1]))
  }

  /** `s.lstrip()`: the suffix left after dropping the leading whitespace (see StripLeftShape). */
  function StripLeft(s: string): (r: string)
    ensures |r| <= |s|
    ensures r == [] || !IsSpace(r[0])
    ensures r != [] ==> r[|r| - 1] == s[|s| - 1]
  {
    if |s| > 0 && IsSpace(s[0]) then StripLeft(s[1..]) else s
  }

  /** `s.rstrip()`: the prefix left after dropping the trailing whitespace (see StripRightShape). */
  function StripRight(s: string): (r: string)
    ensures |r| <= |s|
    ensures r == [] || !IsSpace(r[|r| - 1])
    ensures r != [] ==> r[0] == s[0]
  {
    if |s| > 0 && IsSpace(s[|s| - 1]) then StripRight(s[..|s| - 1]) else s
  }

  /** `lstrip()` removes exactly a whitespace prefix. */
  lemma {:induction false} StripLeftShape(s: string)
    ensures StripLeft(s) == s[|s| - |StripLeft(s)|..]
    ensures AllSpace(s[..|s| - |StripLeft(s)|])
  {
    if |s| > 0 && IsSpace(s[0]) {
      StripLeftShape(s[1..]);
      var r := StripLeft(s);
      assert s[1..][|s| - 1 - |r|..] == s[|s| - |r|..];
      var w := s[..|s| - |r|];
      assert forall i :: 1 <= i < |w| ==> w[i] == s[1..][..|s| - 1 - |r|][i - 1];
    }
  }

  /** `rstrip()` removes exactly a whitespace suffix. */
  lemma {:induction false} StripRightShape(s: string)
    ensures StripRight(s) == s[..|StripRight(s)|]
    ensures AllSpace(s[|StripRight(s)|..])
  {
    if |s| > 0 && IsSpace(s[|s| - 1]) {
      StripRightShape(s[..|s| - 1]);
      var r := StripRight(s);
      assert s[..|s| - 1][..|r|] == s[..|r|];
      var w := s[|r|..];
      assert forall i :: 0 <= i < |w| - 1 ==> w[i] == s[..|s| - 1][|r|..][i];
    }
  }

  /** `s.strip()` */
  function Strip(s: string): (r: string)
    ensures Trimmed(r)
  {
    StripRight(StripLeft(s))
  }

  /** `strip()` leaves nothing exactly when the text is all whitespace. */
  lemma {:induction false} StripBlank(s: string)
    ensures Strip(s) == [] <==> AllSpace(s)
  {
    var l := StripLeft(s);
    var r := StripRight(l);
    StripLeftShape(s);
    StripRightShape(l);
    if r == [] {
      assert AllSpace(l);
      assert s == s[..|s| - |l|] + l;
    }
    assert l != [] ==> l[0] == s[|s| - |l|];
  }

  lemma {:induction false} StripTrimmed(s: string)
    requires Trimmed(s)
    ensures Strip(s) == s
  {
  }

  /** Whitespace around a trimmed text is exactly what `strip()` removes. */
  lemma {:induction false} StripPadded(w1: string, s: string, w2: string)
    requires AllSpace(w1) && AllSpace(w2) && Trimmed(s)
    ensures Strip(w1 + s + w2) == s
  {
    if s == [] {
      assert w1 + s + w2 == w1 + w2;
      StripBlankPair(w1, w2);
    } else {
      StripAroundText(w1, s, w2);
    }
  }

  lemma {:induction false} StripBlankPair(w1: string, w2: string)
    requires AllSpace(w1) && AllSpace(w2)
    ensures Strip(w1 + w2) == []
  {
    AllSpaceAppend(w1, w2);
    StripBlank(w1 + w2);
  }

  lemma {:induction false} StripAroundText(w1: string, s: string, w2: string)
    requires AllSpace(w1) && AllSpace(w2) && s != [] && Trimmed(s)
    ensures Strip(w1 + s + w2) == s
  {
    assert StripLeft(w1 + s + w2) == s + w2 by {
      assert (s + w2)[0] == s[0];
      LeadingSpaceDropped(w1, s + w2);
      assert w1 + s + w2 == w1 + (s + w2);
    }
    TrailingSpaceDropped(s, w2);
  }

  lemma {:induction false} AllSpaceAppend(w1: string, w2: string)
    requires AllSpace(w1) && AllSpace(w2)
    ensures AllSpace(w1 + w2)
  {
    var t := w1 + w2;
    forall i | 0 <= i < |t| ensures IsSpace(t[i]) {
      if i < |w1| { assert t[i] == w1[i]; } else { assert t[i] == w2[i - |w1|]; }
    }
  }

  lemma {:induction false} LeadingSpaceDropped(w: string, s: string)
    requires AllSpace(w) && s != [] && !IsSpace(s[0])
    ensures StripLeft(w + s) == s
  {
    if w == [] {
      assert w + s == s;
    } else {
      assert (w + s)[1..] == w[1..] + s;
      LeadingSpaceDropped(w[1..], s);
    }
  }

  lemma {:induction false} TrailingSpaceDropped(s: string, w: string)
    requires AllSpace(w) && s != [] && !IsSpace(s[|s| - 1])
    ensures StripRight(s + w) == s
  {
    if w == [] {
      assert s + w == s;
    } else {
      var w' := w[..|w| - 1];
      assert (s + w)[..|s + w| - 1] == s + w';
      TrailingSpaceDropped(s, w');
    }
  }

  /**
   * `s.split(sep)` for a one-character separator: never empty, and the
   * parts hold no separator. Built from the end so that a loop reading the
   * text from left to right extends it one character at a time.
   */
  function Split(s: string, sep: char): (parts: seq<string>)
    ensures |parts| >= 1
  {
    if s == [] then [""] else Extend(Split(s[..|s| - 1], sep), s[|s| - 1], sep)
  }

  /** The parts after reading one more character: a separator starts a new part, anything else extends the last. */
  function Extend(parts: seq<string>, c: char, sep: char): (r: seq<string>)
    requires |parts| >= 1
    ensures |r| >= 1
  {
    if c == sep then parts + [""] else parts[..|parts| - 1] + [parts[|parts| - 1] + [c]]
  }

  /** Splitting a text with one more character at its end. */
  lemma {:induction false} SplitSnoc(s: string, c: char, sep: char)
    ensures Split(s + [c], sep) == Extend(Split(s, sep), c, sep)
  {
    assert (s + [c])[..|s|] == s;
  }

  /** Extending acts on the last part only. */
  lemma {:induction false} ExtendAppend(x: seq<string>, y: seq<string>, c: char, sep: char)
    requires |y| >= 1
    ensures Extend(x + y, c, sep) == x + Extend(y, c, sep)
  {
    if c != sep {
      var xy := x + y;
      assert xy[..|xy| - 1] == x + y[..|y| - 1];
      assert xy[|xy| - 1] == y[|y| - 1];
    }
  }

  /** `sep.join(parts)` */
  function Join(parts: seq<string>, sep: string): string {
    if |parts| == 0 then ""
    else if |parts| == 1 then parts[0]
    else Join(parts[..|parts| - 1], sep) + sep + parts[|parts| - 1]
  }

  /** Joining one more part: the join so far, the separator, then the part. */
  lemma {:induction false} JoinSnoc(parts: seq<string>, p: string, sep: string)
    requires |parts| >= 1
    ensures Join(parts + [p], sep) == Join(parts, sep) + sep + p
  {
    assert (parts + [p])[..|parts|] == parts;
  }

  /** Joining after one more character: the join so far followed by that character. */
  lemma {:induction false} JoinExtend(parts: seq<string>, c: char, sep: char)
    requires |parts| >= 1
    ensures Join(Extend(parts, c, sep), [sep]) == Join(parts, [sep]) + [c]
  {
    if c == sep {
      JoinSnoc(parts, "", [sep]);
    } else if |parts| > 1 {
      var front, last := parts[..|parts| - 1], parts[|parts| - 1];
      assert Join(parts, [sep]) == Join(front, [sep]) + [sep] + last by {
        assert parts == front + [last];
        JoinSnoc(front, last, [sep]);
      }
      assert Extend(parts, c, sep) == front + [last + [c]];
      JoinSnoc(front, last + [c], [sep]);
    }
  }

  /** Joining the parts of a split with the same separator gives the text back. */
  lemma {:induction false} JoinSplit(s: string, sep: char)
    ensures Join(Split(s, sep), [sep]) == s
  {
    if s != [] {
      var s', c := s[..|s| - 1], s[|s| - 1];
      JoinSplit(s', sep);
      assert s == s' + [c];
      SplitSnoc(s', c, sep);
      JoinExtend(Split(s', sep), c, sep);
    }
  }

  /** No part of a split holds the separator. */
  lemma {:induction false} SplitAvoids(s: string, sep: char)
    ensures forall i :: 0 <= i < |Split(s, sep)| ==> sep !in Split(s, sep)[i]
  {
    if s != [] {
      var s', c := s[..|s| - 1], s[|s| - 1];
      SplitAvoids(s', sep);
      var init := Split(s', sep);
      if c != sep {
        var last := init[|init| - 1];
        assert sep !in last;
        assert sep !in last + [c];
      }
    }
  }

  /** A text without the separator splits into itself. */
  lemma {:induction false} SplitNoSep(a: string, sep: char)
    requires sep !in a
    ensures Split(a, sep) == [a]
  {
    if a != [] {
      SplitNoSep(a[..|a| - 1], sep);
      assert a == a[..|a| - 1] + [a[|a| - 1]];
    }
  }

  /** Splitting distributes over a separator occurrence. */
  lemma {:induction false} SplitAppend(a: string, b: string, sep: char)
    ensures Split(a + [sep] + b, sep) == Split(a, sep) + Split(b, sep)
  {
    if b == [] {
      assert a + [sep] + b == a + [sep];
      SplitSnoc(a, sep, sep);
    } else {
      var b', c := b[..|b| - 1], b[|b| - 1];
      var sa, sb := Split(a, sep), Split(b', sep);
      calc {
        Split(a + [sep] + b, sep);
        { assert a + [sep] + b == (a + [sep] + b') + [c]; }
        Split((a + [sep] + b') + [c], sep);
        { SplitSnoc(a + [sep] + b', c, sep); }
        Extend(Split(a + [sep] + b', sep), c, sep);
        { SplitAppend(a, b', sep); }
        Extend(sa + sb, c, sep);
        { ExtendAppend(sa, sb, c, sep); }
        sa + Extend(sb, c, sep);
        { assert b == b' + [c]; SplitSnoc(b', c, sep); }
        sa + Split(b, sep);
      }
    }
  }

  /** Splitting a join of separator-free parts gives the parts back. */
  lemma {:induction false} SplitJoin(parts: seq<string>, sep: char)
    requires |parts| >= 1
    requires forall i :: 0 <= i < |parts| ==> sep !in parts[i]
    ensures Split(Join(parts, [sep]), sep) == parts
  {
    var n := |parts|;
    if n == 1 {
      SplitNoSep(parts[0], sep);
    } else {
      var init, last := parts[..n - 1], parts[n - 1];
      assert forall i :: 0 <= i < |init| ==> sep !in init[i] by {
        forall i | 0 <= i < |init| ensures sep !in init[i] {
          assert init[i] == parts[i];
        }
      }
      SplitJoin(init, sep);
      SplitNoSep(last, sep);
      calc {
        Split(Join(parts, [sep]), sep);
        Split(Join(init, [sep]) + [sep] + last, sep);
        { SplitAppend(Join(init, [sep]), last, sep); }
        init + [last];
        parts;
      }
    }
  }

  /**
   * `s.split(sep)[0]`: the text before the first separator, or all of it
   * when there is none.
   */
  lemma {:induction false} SplitFirst(s: string, sep: char)
    ensures var p := Split(s, sep)[0];
      && |p| <= |s| && p == s[..|p|]
      && (sep in s ==> |p| < |s| && s[|p|] == sep)
      && (sep !in s ==> p == s)
  {
    if s != [] {
      var s' := s[..|s| - 1];
      SplitFirst(s', sep);
      var c := s[|s| - 1];
      assert s == s' + [c];
      var init := Split(s', sep);
      if sep in s' {
        assert |init| > 1 by {
          if |init| == 1 {
            assert init[0] == s' by { JoinSplit(s', sep); }
          }
        }
      } else if c != sep {
        SplitNoSep(s, sep);
      }
    }
  }

  /** A join of non-empty parts begins with its first part. */
  lemma {:induction false} JoinPrefix(parts: seq<string>, sep: string)
    requires |parts| >= 1
    ensures |parts[0]| <= |Join(parts, sep)| && Join(parts, sep)[..|parts[0]|] == parts[0]
  {
    if |parts| > 1 {
      JoinPrefix(parts[..|parts| - 1], sep);
    }
  }

  /** Joining a first part in front: the part, the separator, then the join of the rest. */
  lemma {:induction false} JoinCons(a: string, parts: seq<string>, sep: string)
    requires |parts| >= 1
    ensures Join([a] + parts, sep) == a + sep + Join(parts, sep)
  {
    var n := |parts|;
    if n == 1 {
      assert Join([a] + parts, sep) == a + sep + Join(parts, sep) by {
        assert [a] + parts == [a] + [parts[0]];
        JoinSnoc([a], parts[0], sep);
      }
    } else {
      var init, last := parts[..n - 1], parts[n - 1];
      assert parts == init + [last];
      assert Join([a] + parts, sep) == a + sep + Join(parts, sep) by {
        JoinCons(a, init, sep);
        JoinConsStep(a, init, last, sep);
      }
    }
  }

  /** One more part at the end of a join that starts with `a`. */
  lemma {:induction false} JoinConsStep(a: string, init: seq<string>, last: string, sep: string)
    requires |init| >= 1 && Join([a] + init, sep) == a + sep + Join(init, sep)
    ensures Join([a] + (init + [last]), sep) == a + sep + Join(init + [last], sep)
  {
    var j := Join(init, sep);
    calc {
      Join([a] + (init + [last]), sep);
      { assert [a] + (init + [last]) == ([a] + init) + [last]; }
      Join(([a] + init) + [last], sep);
      { JoinSnoc([a] + init, last, sep); }
      Join([a] + init, sep) + sep + last;
      (a + sep + j) + sep + last;
      a + sep + (j + sep + last);
      { JoinSnoc(init, last, sep); }
      a + sep + Join(init + [last], sep);
    }
  }

  /** A join holds only characters of its parts and of its separator. */
  lemma {:induction false} JoinAvoids(parts: seq<string>, sep: string, c: char)
    requires c !in sep
    requires forall i :: 0 <= i < |parts| ==> c !in parts[i]
    ensures c !in Join(parts, sep)
  {
    if |parts| > 1 {
      JoinAvoids(parts[..|parts| - 1], sep, c);
    }
  }

  predicate StartsWith(s: string, prefix: string) {
    |prefix| <= |s| && s[..|prefix|] == prefix
  }

  /** `sub in s` */
  predicate Contains(s: string, sub: string)
    decreases |s|
  {
    StartsWith(s, sub) || (|s| > 0 && Contains(s[1..], sub))
  }

  /** `s.replace(pat, rep)`: every non-overlapping occurrence, scanned left to right. */
  function Replace(s: string, pat: string, rep: string): string
    requires |pat| > 0
    decreases |s|
  {
    if |s| < |pat| then s
    else if s[..|pat|] == pat then rep + Replace(s[|pat|..], pat, rep)
    else [s[0]] + Replace(s[1..], pat, rep)
  }

  /** A prefix without the pattern's first character is copied as it is. */
  lemma {:induction false} ReplaceSkips(a: string, b: string, pat: string, rep: string)
    requires |pat| > 0 && pat[0] !in a
    ensures Replace(a + b, pat, rep) == a + Replace(b, pat, rep)
    decreases |a|
  {
    if a != [] {
      var s := a + b;
      ReplaceSkips(a[1..], b, pat, rep);
      assert s[1..] == a[1..] + b;
      if |s| >= |pat| {
        assert s[..|pat|] != pat by {
          assert s[..|pat|][0] == a[0];
        }
        assert Replace(s, pat, rep) == [a[0]] + (a[1..] + Replace(b, pat, rep));
      } else {
        assert Replace(b, pat, rep) == b;
      }
      assert a == [a[0]] + a[1..];
    } else {
      assert a + b == b;
    }
  }

  /** Replacing a pattern that does not occur changes nothing. */
  lemma {:induction false} ReplaceAbsent(s: string, pat: string, rep: string)
    requires |pat| > 0 && !Contains(s, pat)
    ensures Replace(s, pat, rep) == s
  {
    if |s| >= |pat| {
      ReplaceAbsent(s[1..], pat, rep);
      assert s == [s[0]] + s[1..];
    }
  }

  /** Replacing never brings in a character that neither the text nor the replacement has. */
  lemma {:induction false} ReplaceAvoids(s: string, pat: string, rep: string, c: char)
    requires |pat| > 0 && c !in s && c !in rep
    ensures c !in Replace(s, pat, rep)
  {
    if |s| >= |pat| {
      if s[..|pat|] == pat {
        ReplaceAvoids(s[|pat|..], pat, rep, c);
      } else {
        ReplaceAvoids(s[1..], pat, rep, c);
      }
    }
  }

  /** A text holding `a + b` also holds `b`. */
  lemma {:induction false} ContainsSuffix(s: string, a: string, b: string)
    requires Contains(s, a + b)
    ensures Contains(s, b)
  {
    if StartsWith(s, a + b) {
      var t := s[|a|..];
      assert t[..|b|] == (a + b)[|a|..];
      if a != [] {
        ContainsShift(s, |a|, b);
      }
    } else {
      ContainsSuffix(s[1..], a, b);
    }
  }

  /** An occurrence that starts `k` characters in is an occurrence. */
  lemma {:induction false} ContainsShift(s: string, k: nat, b: string)
    requires k <= |s| && StartsWith(s[k..], b)
    ensures Contains(s, b)
    decreases k
  {
    if k > 0 {
      assert s[1..][k - 1..] == s[k..];
      ContainsShift(s[1..], k - 1, b);
    }
  }
}
