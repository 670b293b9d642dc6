/*
 * The parts of the .NET string library that the bot relies on, stated on
 * Dafny strings: ordinal String.Replace, String.Trim, Split(' ').First() and
 * the ignore-case comparison used to match command tokens.
 */
module Text {

  datatype Option<+T> = None | Some(value: T)

  // ---------------------------------------------------------------------
  // Ignore-case comparison (ASCII folding)
  // ---------------------------------------------------------------------

  /** Maps an ASCII upper-case letter to its lower-case form; every other character is kept. */
  function FoldCase(c: char): char
  {
    if 'A' <= c <= 'Z' then (c as int + 32) as char else c
  }

  /** String.Equals(a, b, InvariantCultureIgnoreCase), restricted to ASCII case folding. */
  predicate EqualsIgnoreCase(a: string, b: string)
  {
    |a| == |b| && forall i :: 0 <= i < |a| ==> FoldCase(a[i]) == FoldCase(b[i])
  }

  /** The string with every ASCII letter folded to lower case. */
  function Folded(s: string): (r: string)
    ensures |r| == |s|
    ensures forall i :: 0 <= i < |s| ==> r[i] == FoldCase(s[i])
  {
    seq(|s|, i requires 0 <= i < |s| => FoldCase(s[i]))
  }

  /** Ignore-case equality is equality of the folded forms. */
  lemma EqualsIgnoreCaseIffFoldedEqual(a: string, b: string)
    ensures EqualsIgnoreCase(a, b) <==> Folded(a) == Folded(b)
  {
    if Folded(a) == Folded(b) {
      assert |a| == |Folded(a)| == |Folded(b)| == |b|;
      forall i | 0 <= i < |a| ensures FoldCase(a[i]) == FoldCase(b[i]) {
        assert Folded(a)[i] == Folded(b)[i];
      }
    }
  }

  /** Ignore-case equality is an equivalence relation. */
  lemma EqualsIgnoreCaseEquivalence(a: string, b: string, c: string)
    ensures EqualsIgnoreCase(a, a)
    ensures EqualsIgnoreCase(a, b) ==> EqualsIgnoreCase(b, a)
    ensures EqualsIgnoreCase(a, b) && EqualsIgnoreCase(b, c) ==> EqualsIgnoreCase(a, c)
  {
  }

  // ---------------------------------------------------------------------
  // Ordinal String.Replace
  // ---------------------------------------------------------------------

  /** `pat` occurs in `s` starting at index `i`. */
  predicate OccursAt(s: string, pat: string, i: int)
  {
    0 <= i && i + |pat| <= |s| && s[i..i + |pat|] == pat
  }

  ghost predicate Occurs(s: string, pat: string)
  {
    exists i :: 0 <= i <= |s| && OccursAt(s, pat, i)
  }

  /** A pattern whose first character is absent from `s` does not occur in `s`. */
  lemma NotOccursWhenHeadAbsent(s: string, pat: string)
    requires pat != [] && pat[0] !in s
    ensures !Occurs(s, pat)
  {
    forall i | 0 <= i && i + |pat| <= |s| ensures !OccursAt(s, pat, i) {
      assert s[i..i + |pat|][0] == s[i] != pat[0];
    }
  }

  /**
   * String.Replace(oldValue, newValue) with ordinal comparison: scans left to
   * right and replaces every non-overlapping occurrence of `oldValue`.  The
   * library throws on an empty `oldValue`; callers model that case themselves.
   */
  function Replace(s: string, oldValue: string, newValue: string): (r: string)
    requires oldValue != []
    ensures newValue == [] ==> |r| <= |s|
    decreases |s|
  {
    if |s| < |oldValue| then s
    else if oldValue <= s then newValue + Replace(s[|oldValue|..], oldValue, newValue)
    else [s[0]] + Replace(s[1..], oldValue, newValue)
  }

  /** String.IndexOf(value) with ordinal comparison: where `value` first occurs in `s`, or -1. */
  function IndexOf(s: string, value: string): (r: int)
    requires value != []
    ensures r == -1 || 0 <= r <= |s| - |value|
    decreases |s|
  {
    if |s| < |value| then -1
    else if value <= s then 0
    else
      var k := IndexOf(s[1..], value);
      if k < 0 then -1 else k + 1
  }

  /** `value` occurs in `s` at `i` and nowhere before. */
  predicate FirstOccurrence(s: string, value: string, i: int)
  {
    OccursAt(s, value, i) && forall j :: 0 <= j < i ==> !OccursAt(s, value, j)
  }

  /** An occurrence in the string without its first character is one place further right in the string. */
  lemma OccursAtShift(s: string, value: string, j: int)
    requires s != [] && 0 <= j
    ensures OccursAt(s[1..], value, j) <==> OccursAt(s, value, j + 1)
  {
    if j + |value| <= |s| - 1 {
      assert s[1..][j..j + |value|] == s[j + 1..j + 1 + |value|];
    }
  }

  /** IndexOf finds the first occurrence, and -1 means there is none. */
  lemma {:induction false} IndexOfSpec(s: string, value: string)
    requires value != []
    ensures var i := IndexOf(s, value);
            && (i >= 0 ==> FirstOccurrence(s, value, i))
            && (i < 0 <==> !Occurs(s, value))
    decreases |s|
  {
    var i := IndexOf(s, value);
    if |s| < |value| {
      assert !Occurs(s, value);
    } else if value <= s {
      assert OccursAt(s, value, 0);
    } else {
      var t := s[1..];
      IndexOfSpec(t, value);
      var k := IndexOf(t, value);
      assert !OccursAt(s, value, 0);
      if k >= 0 {
        assert i == k + 1;
        OccursAtShift(s, value, k);
        forall j | 0 <= j < i ensures !OccursAt(s, value, j) {
          if j > 0 {
            OccursAtShift(s, value, j - 1);
          }
        }
      } else {
        assert i == -1;
        forall j | 0 <= j <= |s| ensures !OccursAt(s, value, j) {
          if j > 0 {
            OccursAtShift(s, value, j - 1);
            assert !OccursAt(t, value, j - 1);
          }
        }
      }
    }
  }

  /**
   * The first occurrence law: Replace keeps the text before the first
   * occurrence, puts `newValue` in its place and carries on after it.
   * ReplaceWithoutIndex below covers the case with no occurrence.
   */
  lemma ReplaceFirstOccurrence(s: string, oldValue: string, newValue: string)
    requires oldValue != []
    ensures var i := IndexOf(s, oldValue);
            i >= 0 ==> Replace(s, oldValue, newValue) == s[..i] + newValue + Replace(s[i + |oldValue|..], oldValue, newValue)
  {
    var i := IndexOf(s, oldValue);
    if i >= 0 {
      assert FirstOccurrence(s, oldValue, i) by { IndexOfSpec(s, oldValue); }
      ReplaceAtFirst(s, oldValue, newValue, i);
    }
  }

  /** Replace copies what precedes the first occurrence, substitutes it, and goes on after it. */
  lemma ReplaceAtFirst(s: string, oldValue: string, newValue: string, i: int)
    requires oldValue != [] && FirstOccurrence(s, oldValue, i)
    ensures Replace(s, oldValue, newValue) == s[..i] + newValue + Replace(s[i + |oldValue|..], oldValue, newValue)
  {
    ReplaceUpToFirst(s, oldValue, newValue, i, 0, s);
    FromStart(s, i, newValue, Replace(s[i + |oldValue|..], oldValue, newValue), Replace(s, oldValue, newValue));
  }

  /** `p` occurs at `i` exactly when the suffix from `i` starts with `p`. */
  lemma OccursAtPrefix(s: string, p: string, i: int)
    requires 0 <= i <= |s|
    ensures OccursAt(s, p, i) <==> p <= s[i..]
  {
    if i + |p| <= |s| {
      assert s[i..][..|p|] == s[i..i + |p|];
    }
  }

  /**
   * From any position up to the first occurrence, replacing the rest of the
   * string keeps the characters before the occurrence and replaces it.
   */
  lemma {:induction false} ReplaceUpToFirst(s: string, oldValue: string, newValue: string, i: int, m: int, u: string)
    requires oldValue != [] && FirstOccurrence(s, oldValue, i) && 0 <= m <= i && u == s[m..]
    ensures Replace(u, oldValue, newValue) == s[m..i] + newValue + Replace(s[i + |oldValue|..], oldValue, newValue)
    decreases i - m
  {
    OccursAtPrefix(s, oldValue, m);
    if m == i {
      assert u[|oldValue|..] == s[i + |oldValue|..];
      assert s[i..i] == [];
    } else {
      assert !OccursAt(s, oldValue, m);
      ReplaceUpToFirst(s, oldValue, newValue, i, m + 1, s[m + 1..]);
      assert u[1..] == s[m + 1..];
      assert Replace(u, oldValue, newValue) == [s[m]] + Replace(s[m + 1..], oldValue, newValue);
      ConsSlice(s, m, i, newValue, Replace(s[i + |oldValue|..], oldValue, newValue));
    }
  }

  lemma FromStart(s: string, i: int, a: string, b: string, x: string)
    requires 0 <= i <= |s| && x == s[0..i] + a + b
    ensures x == s[..i] + a + b
  {
    assert s[0..i] == s[..i];
  }

  lemma ConsSlice(s: string, m: int, i: int, a: string, b: string)
    requires 0 <= m < i <= |s|
    ensures [s[m]] + (s[m + 1..i] + a + b) == s[m..i] + a + b
  {
    assert [s[m]] + s[m + 1..i] == s[m..i];
  }

  /** Where IndexOf finds nothing, Replace changes nothing. */
  lemma {:induction false} ReplaceWithoutIndex(s: string, oldValue: string, newValue: string)
    requires oldValue != [] && IndexOf(s, oldValue) < 0
    ensures Replace(s, oldValue, newValue) == s
    decreases |s|
  {
    if |s| >= |oldValue| {
      var t := s[1..];
      assert !(oldValue <= s) && IndexOf(t, oldValue) < 0;
      ReplaceWithoutIndex(t, oldValue, newValue);
      assert Replace(s, oldValue, newValue) == [s[0]] + t;
      ConsTail(s);
    }
  }

  lemma ConsTail(s: string)
    requires s != []
    ensures [s[0]] + s[1..] == s
  {
  }

  /** A string in which the old value does not occur is returned unchanged. */
  lemma ReplaceAbsent(s: string, oldValue: string, newValue: string)
    requires oldValue != [] && !Occurs(s, oldValue)
    ensures Replace(s, oldValue, newValue) == s
  {
    assert IndexOf(s, oldValue) < 0 by { IndexOfSpec(s, oldValue); }
    ReplaceWithoutIndex(s, oldValue, newValue);
  }

  /** Removing a pattern that heads the string removes exactly that prefix, then continues. */
  lemma ReplaceAtHead(pat: string, rest: string, newValue: string)
    requires pat != []
    ensures Replace(pat + rest, pat, newValue) == newValue + Replace(rest, pat, newValue)
  {
    assert (pat + rest)[..|pat|] == pat;
    assert (pat + rest)[|pat|..] == rest;
  }

  /** A prefix that lacks the pattern's first character is kept as it is, and replacing goes on after it. */
  lemma {:induction false} ReplaceSkipsHeadFree(a: string, b: string, oldValue: string, newValue: string)
    requires oldValue != [] && oldValue[0] !in a
    ensures Replace(a + b, oldValue, newValue) == a + Replace(b, oldValue, newValue)
    decreases |a|
  {
    if a == [] {
      assert a + b == b;
    } else {
      var s := a + b;
      assert s[0] == a[0] != oldValue[0];
      if |s| >= |oldValue| {
        assert s[..|oldValue|][0] == s[0];
      }
      assert Replace(s, oldValue, newValue) == [s[0]] + Replace(s[1..], oldValue, newValue);
      assert s[1..] == a[1..] + b;
      ReplaceSkipsHeadFree(a[1..], b, oldValue, newValue);
      assert [a[0]] + a[1..] == a;
    }
  }

  /** Removing a pattern that follows a string lacking its first character leaves that string. */
  lemma RemoveTrailing(s: string, p: string)
    requires p != [] && p[0] !in s
    ensures Replace(s + p, p, "") == s
  {
    ReplaceSkipsHeadFree(s, p, p, "");
    ReplaceAtHead(p, [], "");
    assert p + [] == p && s + [] == s;
  }

  /** Removing a pattern that heads the string, and does not occur in the rest, leaves the rest. */
  lemma RemoveLeading(p: string, t: string)
    requires p != [] && !Occurs(t, p)
    ensures Replace(p + t, p, "") == t
  {
    ReplaceAtHead(p, t, "");
    ReplaceAbsent(t, p, "");
  }

  /** `n` copies of `p`, one after the other. */
  function Copies(p: string, n: nat): (r: string)
    ensures |r| == n * |p|
  {
    if n == 0 then [] else p + Copies(p, n - 1)
  }

  /** `s` is made of copies of `p` and nothing else. */
  ghost predicate OnlyCopies(s: string, p: string)
  {
    exists n: nat :: s == Copies(p, n)
  }

  /** Removing a pattern leaves nothing exactly when the string is made of copies of the pattern. */
  lemma {:induction false} RemoveAllEmptyIffCopies(s: string, p: string)
    requires p != []
    ensures Replace(s, p, "") == [] <==> OnlyCopies(s, p)
    decreases |s|
  {
    if OnlyCopies(s, p) {
      var n: nat :| s == Copies(p, n);
      CopiesRemoved(p, n);
    }
    if Replace(s, p, "") == [] {
      if |s| < |p| {
        assert s == Copies(p, 0);
      } else if p <= s {
        RemoveAllEmptyIffCopies(s[|p|..], p);
        var n: nat :| s[|p|..] == Copies(p, n);
        assert s == p + s[|p|..] == Copies(p, n + 1);
      }
    }
  }

  lemma {:induction false} CopiesRemoved(p: string, n: nat)
    requires p != []
    ensures Replace(Copies(p, n), p, "") == []
  {
    if n > 0 {
      ReplaceAtHead(p, Copies(p, n - 1), "");
      CopiesRemoved(p, n - 1);
    }
  }

  /** With a one-character pattern, Replace works character by character. */
  lemma {:induction false} ReplaceCharAppend(a: string, b: string, c: char, newValue: string)
    ensures Replace(a + b, [c], newValue) == Replace(a, [c], newValue) + Replace(b, [c], newValue)
    decreases |a|
  {
    if a == [] {
      assert a + b == b;
    } else {
      assert (a + b)[1..] == a[1..] + b;
      assert (a + b)[..1] == a[..1];
      ReplaceCharAppend(a[1..], b, c, newValue);
    }
  }

  // ---------------------------------------------------------------------
  // String.Trim
  // ---------------------------------------------------------------------

  /** Char.IsWhiteSpace: the Unicode space, line and paragraph separators, U+0009..U+000D, U+0085 and U+00A0. */
  predicate IsWhiteSpace(c: char)
  {
    || c == ' ' || ('\t' <= c <= '\r') || c == '\U{0085}' || c == '\U{00A0}'
    || c == '\U{1680}' || ('\U{2000}' <= c <= '\U{200A}') || c == '\U{2028}' || c == '\U{2029}'
    || c == '\U{202F}' || c == '\U{205F}' || c == '\U{3000}'
  }

  /** Every character of `w` is white space. */
  predicate AllWhiteSpace(w: string)
  {
    forall k :: 0 <= k < |w| ==> IsWhiteSpace(w[k])
  }

  lemma AllWhiteSpaceAppend(a: string, b: string)
    requires AllWhiteSpace(a) && AllWhiteSpace(b)
    ensures AllWhiteSpace(a + b)
  {
    forall k | 0 <= k < |a + b| ensures IsWhiteSpace((a + b)[k]) {
      if k < |a| {
        assert (a + b)[k] == a[k];
      } else {
        assert (a + b)[k] == b[k - |a|];
      }
    }
  }

  /** String.TrimStart(): white space removed from the start, so the result is a suffix. */
  function TrimStart(s: string): (r: string)
    ensures |r| <= |s| && r == s[|s| - |r|..]
  {
    if s != [] && IsWhiteSpace(s[0]) then
      var r := TrimStart(s[1..]);
      assert s[1..][|s| - 1 - |r|..] == s[|s| - |r|..];
      r
    else s
  }

  /** String.TrimEnd(): white space removed from the end, so the result is a prefix. */
  function TrimEnd(s: string): (r: string)
    ensures |r| <= |s| && r == s[..|r|]
  {
    if s != [] && IsWhiteSpace(s[|s| - 1]) then
      var r := TrimEnd(s[..|s| - 1]);
      assert s[..|s| - 1][..|r|] == s[..|r|];
      r
    else s
  }

  /** TrimStart removes white space only, and all of it: the result does not start with white space. */
  lemma {:induction false} TrimStartSpec(s: string)
    ensures var r := TrimStart(s);
            && AllWhiteSpace(s[..|s| - |r|])
            && (r == [] || !IsWhiteSpace(r[0]))
  {
    if s != [] && IsWhiteSpace(s[0]) {
      var r := TrimStart(s[1..]);
      assert TrimStart(s) == r;
      TrimStartSpec(s[1..]);
      var w := s[1..][..|s| - 1 - |r|];
      assert AllWhiteSpace([s[0]]);
      AllWhiteSpaceAppend([s[0]], w);
      SplitHead(s, |s| - |r|);
    } else {
      assert TrimStart(s) == s;
      assert AllWhiteSpace(s[..0]);
    }
  }

  /** TrimEnd removes white space only, and all of it: the result does not end with white space. */
  lemma {:induction false} TrimEndSpec(s: string)
    ensures var r := TrimEnd(s);
            && AllWhiteSpace(s[|r|..])
            && (r == [] || !IsWhiteSpace(r[|r| - 1]))
  {
    if s != [] && IsWhiteSpace(s[|s| - 1]) {
      var r := TrimEnd(s[..|s| - 1]);
      assert TrimEnd(s) == r;
      TrimEndSpec(s[..|s| - 1]);
      var w := s[..|s| - 1][|r|..];
      assert AllWhiteSpace([s[|s| - 1]]);
      AllWhiteSpaceAppend(w, [s[|s| - 1]]);
      SplitLast(s, |r|);
    } else {
      assert TrimEnd(s) == s;
      assert AllWhiteSpace(s[|s|..]);
    }
  }

  /** String.Trim(): white space removed from both ends, nothing else changed. */
  function Trim(s: string): (r: string)
    ensures |r| <= |s|
  {
    TrimEnd(TrimStart(s))
  }

  /**
   * Trim keeps a middle part of the string and removes only white space around
   * it: before the result and after it there is nothing but white space.
   */
  lemma TrimSpec(s: string)
    ensures var r, i := Trim(s), |s| - |TrimStart(s)|;
            && i + |r| <= |s| && r == s[i..i + |r|]
            && AllWhiteSpace(s[..i]) && AllWhiteSpace(s[i + |r|..])
  {
    TrimSlice(s);
    TrimStartSpec(s);
    TrimStripsEnd(s);
  }

  /** Trim's result is the slice of `s` that starts where TrimStart's result starts. */
  lemma TrimSlice(s: string)
    ensures var r, i := Trim(s), |s| - |TrimStart(s)|;
            i + |r| <= |s| && r == s[i..i + |r|]
  {
    var t := TrimStart(s);
    var r := TrimEnd(t);
    assert Trim(s) == r;
    KeptSlice(s, t, r, |s| - |t|);
  }

  /** What Trim removes after its result is white space. */
  lemma TrimStripsEnd(s: string)
    ensures var r, i := Trim(s), |s| - |TrimStart(s)|;
            i + |r| <= |s| && AllWhiteSpace(s[i + |r|..])
  {
    var t := TrimStart(s);
    assert Trim(s) == TrimEnd(t);
    TrimEndOfSuffix(s, t, |s| - |t|);
  }

  /** TrimEnd of the suffix of `s` that starts at `i` leaves only white space of `s` after its result. */
  lemma TrimEndOfSuffix(s: string, t: string, i: int)
    requires 0 <= i <= |s| && t == s[i..]
    ensures i + |TrimEnd(t)| <= |s| && AllWhiteSpace(s[i + |TrimEnd(t)|..])
  {
    TrimEndSpec(t);
    WhiteSpaceAfter(s, t, TrimEnd(t), i);
  }

  /** White space after a prefix `r` of the suffix `t` of `s` that starts at `i` is white space of `s`. */
  lemma WhiteSpaceAfter(s: string, t: string, r: string, i: int)
    requires 0 <= i <= |s| && t == s[i..] && |r| <= |t| && AllWhiteSpace(t[|r|..])
    ensures i + |r| <= |s| && AllWhiteSpace(s[i + |r|..])
  {
    assert t[|r|..] == s[i + |r|..];
  }

  /** All of that white space goes: the trimmed string neither starts nor ends with white space. */
  lemma TrimEnds(s: string)
    ensures var r := Trim(s); r == [] || (!IsWhiteSpace(r[0]) && !IsWhiteSpace(r[|r| - 1]))
  {
    var t := TrimStart(s);
    TrimStartSpec(s);
    TrimEndSpec(t);
    var r := TrimEnd(t);
    if r != [] {
      assert r[0] == t[0];
    }
  }

  lemma SplitHead(s: string, n: int)
    requires 1 <= n <= |s|
    ensures s[..n] == [s[0]] + s[1..][..n - 1]
  {
  }

  lemma SplitLast(s: string, n: int)
    requires 0 <= n < |s|
    ensures s[n..] == s[..|s| - 1][n..] + [s[|s| - 1]]
  {
  }

  /** A prefix `r` of the suffix `t` of `s` that starts at `i` is the slice of `s` from `i`. */
  lemma KeptSlice(s: string, t: string, r: string, i: int)
    requires 0 <= i <= |s| && t == s[i..] && |r| <= |t| && r == t[..|r|]
    ensures i + |r| <= |s| && r == s[i..i + |r|]
  {
  }

  /** A string that neither starts nor ends with white space is its own trimmed form. */
  lemma TrimUnchanged(s: string)
    requires s == [] || (!IsWhiteSpace(s[0]) && !IsWhiteSpace(s[|s| - 1]))
    ensures Trim(s) == s
  {
    assert TrimStart(s) == s;
  }

  /** Leading white space makes no difference to the trimmed string. */
  lemma {:induction false} TrimSkipsLeadingWhiteSpace(w: string, s: string)
    requires AllWhiteSpace(w)
    ensures Trim(w + s) == Trim(s)
    decreases |w|
  {
    if w != [] {
      assert IsWhiteSpace(w[0]);
      assert (w + s)[0] == w[0];
      assert (w + s)[1..] == w[1..] + s;
      assert AllWhiteSpace(w[1..]) by {
        forall k | 0 <= k < |w| - 1 ensures IsWhiteSpace(w[1..][k]) {
          assert w[1..][k] == w[k + 1];
        }
      }
      TrimSkipsLeadingWhiteSpace(w[1..], s);
    } else {
      assert w + s == s;
    }
  }

  // ---------------------------------------------------------------------
  // Split(' ').First()
  // ---------------------------------------------------------------------

  /** The first element of s.Split(' '): everything before the first space, or all of `s`. */
  function UpToFirstSpace(s: string): (r: string)
    ensures r <= s
    ensures ' ' !in r
    ensures |r| == |s| || s[|r|] == ' '
  {
    if s == [] || s[0] == ' ' then [] else [s[0]] + UpToFirstSpace(s[1..])
  }
}
