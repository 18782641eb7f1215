/**
 * String operations the handlers rely on, written out over `seq<char>`:
 * first-occurrence search and replacement (JavaScript's `indexOf` and
 * `replace` with a string pattern), decimal rendering of numbers (what a
 * template literal does with a number) and splitting on a separator.
 */
module Text {
  import opened Wrappers

  // ---------------------------------------------------------------------
  // Search and first-occurrence replacement
  // ---------------------------------------------------------------------

  /** `pat` occurs in `s` starting at index `i`. */
  predicate MatchesAt(s: string, pat: string, i: nat)
  {
    i + |pat| <= |s| && s[i..i + |pat|] == pat
  }

  ghost predicate Contains(s: string, pat: string)
  {
    exists i: nat :: MatchesAt(s, pat, i)
  }

  /** The first index at or after `from` where `pat` occurs. */
  function IndexFrom(s: string, pat: string, from: nat): (r: Option<nat>)
    ensures r.Some? ==> from <= r.value && MatchesAt(s, pat, r.value)
    ensures r.Some? ==> forall j: nat :: from <= j < r.value ==> !MatchesAt(s, pat, j)
    ensures r.None? ==> forall j: nat :: from <= j ==> !MatchesAt(s, pat, j)
    decreases |s| - from
  {
    if from + |pat| > |s| then None
    else if MatchesAt(s, pat, from) then Some(from)
    else IndexFrom(s, pat, from + 1)
  }

  /** The first occurrence of `pat` in `s`, as `String.prototype.indexOf` finds it. */
  function IndexOf(s: string, pat: string): (r: Option<nat>)
    ensures r.None? <==> !Contains(s, pat)
    ensures r.Some? ==> MatchesAt(s, pat, r.value)
    ensures r.Some? ==> forall j: nat :: j < r.value ==> !MatchesAt(s, pat, j)
  {
    IndexFrom(s, pat, 0)
  }

  /**
   * `s.replace(pat, rep)` for a string pattern: only the first occurrence
   * is replaced, and `s` is returned unchanged when `pat` does not occur.
   */
  function ReplaceFirst(s: string, pat: string, rep: string): (r: string)
    ensures !Contains(s, pat) ==> r == s
  {
    match IndexOf(s, pat)
    case None => s
    case Some(i) => s[..i] + rep + s[i + |pat|..]
  }

  /**
   * When the first character of `pat` does not occur before it, the
   * occurrence right after `p` is the first one, and replacing it leaves
   * `p` and everything after the occurrence (later occurrences included)
   * exactly as they were.
   */
  lemma ReplaceFirstAfter(p: string, pat: string, q: string, rep: string)
    requires pat != [] && pat[0] !in p
    ensures IndexOf(p + pat + q, pat) == Some(|p|)
    ensures ReplaceFirst(p + pat + q, pat, rep) == p + rep + q
  {
    var s := p + pat + q;
    assert s[|p|..|p| + |pat|] == pat;
    assert MatchesAt(s, pat, |p|);
    forall j: nat | j < |p|
      ensures !MatchesAt(s, pat, j)
    {
      assert s[j] == p[j];
      if j + |pat| <= |s| {
        assert s[j..j + |pat|][0] == s[j];
      }
    }
    var r := IndexOf(s, pat);
    assert r.Some?;
    assert r.value == |p|;
    assert s[..|p|] == p;
    assert s[|p| + |pat|..] == q;
  }

  /** No occurrence can start at a character that `pat` does not begin with. */
  lemma NoMatchWithoutFirst(x: string, pat: string)
    requires pat != [] && pat[0] !in x
    ensures !Contains(x, pat)
  {
    forall i: nat
      ensures !MatchesAt(x, pat, i)
    {
      if i + |pat| <= |x| {
        assert x[i..i + |pat|][0] == x[i];
      }
    }
  }

  /** A string shorter than `pat` cannot contain it. */
  lemma NoMatchShorter(x: string, pat: string)
    requires |x| < |pat|
    ensures !Contains(x, pat)
  {
  }

  /**
   * Joining two strings free of `pat` at a character that does not occur
   * in `pat` creates no occurrence across the seam.
   */
  lemma NoMatchJoin(x: string, y: string, pat: string)
    requires !Contains(x, pat) && !Contains(y, pat)
    requires x != [] && x[|x| - 1] !in pat
    ensures !Contains(x + y, pat)
  {
    var s := x + y;
    forall i: nat | i + |pat| <= |s|
      ensures !MatchesAt(s, pat, i)
    {
      var e := i + |pat|;
      if e <= |x| {
        assert s[i..e] == x[i..e];
        assert !MatchesAt(x, pat, i);
      } else if i < |x| {
        assert s[i..e][|x| - 1 - i] == s[|x| - 1] == x[|x| - 1];
      } else {
        assert s[|x|..] == y;
        assert s[i..e] == s[|x|..][i - |x|..e - |x|];
        assert !MatchesAt(y, pat, i - |x|);
      }
    }
  }

  /** The mirror image of `NoMatchJoin`: the seam is at a character of `y`. */
  lemma NoMatchJoinRight(x: string, y: string, pat: string)
    requires !Contains(x, pat) && !Contains(y, pat)
    requires y != [] && y[0] !in pat
    ensures !Contains(x + y, pat)
  {
    var s := x + y;
    forall i: nat | i + |pat| <= |s|
      ensures !MatchesAt(s, pat, i)
    {
      var e := i + |pat|;
      if e <= |x| {
        assert s[i..e] == x[i..e];
        assert !MatchesAt(x, pat, i);
      } else if i <= |x| {
        assert s[i..e][|x| - i] == s[|x|] == y[0];
      } else {
        assert s[|x|..] == y;
        assert s[i..e] == s[|x|..][i - |x|..e - |x|];
        assert !MatchesAt(y, pat, i - |x|);
      }
    }
  }

  /**
   * Splicing `a` between two strings free of `pat`, whose facing ends are
   * characters that do not occur in `pat`, yields a string that contains
   * `a` and contains `pat` only if `a` itself does.
   */
  lemma SpliceContains(p: string, a: string, q: string, pat: string)
    requires !Contains(p, pat) && !Contains(q, pat)
    requires p == [] || p[|p| - 1] !in pat
    requires q == [] || q[0] !in pat
    ensures Contains(p + a + q, a)
    ensures Contains(p + a + q, pat) ==> Contains(a, pat)
  {
    assert (p + a + q)[|p|..|p| + |a|] == a;
    assert MatchesAt(p + a + q, a, |p|);
    if !Contains(a, pat) {
      if p == [] {
        assert p + a == a;
      } else {
        NoMatchJoin(p, a, pat);
      }
      if q == [] {
        assert p + a + q == p + a;
      } else {
        NoMatchJoinRight(p + a, q, pat);
      }
    }
  }

  /**
   * Replacing the first `pat` of `p + pat + q` by `a`, when `p` holds no
   * character `pat` starts with and the seams are characters outside
   * `pat`, gives `p + a + q`: it contains `a`, and `pat` only if `a` does.
   */
  lemma ReplaceFirstSplice(p: string, q: string, pat: string, a: string)
    requires pat != [] && pat[0] !in p && !Contains(q, pat)
    requires p == [] || p[|p| - 1] !in pat
    requires q == [] || q[0] !in pat
    ensures Contains(p + pat + q, pat)
    ensures ReplaceFirst(p + pat + q, pat, a) == p + a + q
    ensures Contains(p + a + q, a)
    ensures Contains(p + a + q, pat) ==> Contains(a, pat)
  {
    ReplaceFirstAfter(p, pat, q, a);
    NoMatchWithoutFirst(p, pat);
    SpliceContains(p, a, q, pat);
  }

  // ---------------------------------------------------------------------
  // Decimal rendering of numbers
  // ---------------------------------------------------------------------

  predicate IsDigit(c: char)
  {
    '0' <= c <= '9'
  }

  predicate IsDigits(s: string)
  {
    forall k :: 0 <= k < |s| ==> IsDigit(s[k])
  }

  function DigitChar(d: nat): (c: char)
    requires d < 10
    ensures IsDigit(c)
  {
    (48 + d) as char
  }

  function DigitValue(c: char): (d: nat)
    requires IsDigit(c)
    ensures d < 10 && DigitChar(d) == c
  {
    (c as int - 48) as nat
  }

  /** The decimal numeral of `n`, without leading zeros, as `${n}` renders it. */
  function NatToString(n: nat): (s: string)
    ensures |s| >= 1 && IsDigits(s)
    ensures s[0] == '0' ==> n == 0
    ensures |s| == 1 <==> n < 10
    decreases n
  {
    if n < 10 then [DigitChar(n)] else NatToString(n / 10) + [DigitChar(n % 10)]
  }

  /** Reads a run of decimal digits back as a number. */
  function DigitsValue(s: string): nat
    requires IsDigits(s)
  {
    if s == [] then 0 else 10 * DigitsValue(s[..|s| - 1]) + DigitValue(s[|s| - 1])
  }

  lemma {:induction false} NatToStringRoundTrip(n: nat)
    ensures DigitsValue(NatToString(n)) == n
    decreases n
  {
    var s := NatToString(n);
    if n >= 10 {
      NatToStringRoundTrip(n / 10);
      assert s[..|s| - 1] == NatToString(n / 10);
    }
  }

  /** `${i}` for an integer: a minus sign before the numeral of its magnitude. */
  function IntToString(i: int): (s: string)
    ensures |s| >= 1 && (s[0] == '-' <==> i < 0)
    ensures IsDigits(if i < 0 then s[1..] else s)
  {
    if i < 0 then
      assert ("-" + NatToString(-i))[1..] == NatToString(-i);
      "-" + NatToString(-i)
    else NatToString(i)
  }

  /** Reads an optionally signed decimal numeral; anything else has no value. */
  function ParseInt(s: string): Option<int>
  {
    if |s| >= 2 && s[0] == '-' && IsDigits(s[1..]) then Some(0 - DigitsValue(s[1..]))
    else if |s| >= 1 && IsDigits(s) then Some(DigitsValue(s))
    else None
  }

  lemma IntToStringRoundTrip(i: int)
    ensures ParseInt(IntToString(i)) == Some(i)
  {
    if i < 0 {
      NegativeRoundTrip(-i);
    } else {
      var s := NatToString(i);
      assert IsDigit(s[0]);
      NatToStringRoundTrip(i);
    }
  }

  /** The numeral of a positive number after a minus sign reads back as its negation. */
  lemma NegativeRoundTrip(n: nat)
    ensures ParseInt("-" + NatToString(n)) == Some(0 - n)
  {
    var d := NatToString(n);
    var s := "-" + d;
    assert s[1..] == d;
    assert |s| >= 2 && s[0] == '-' && IsDigits(s[1..]);
    NatToStringRoundTrip(n);
  }

  // ---------------------------------------------------------------------
  // Splitting on a separator
  // ---------------------------------------------------------------------

  /** `s.split(sep)` for a one-character separator. */
  function Split(s: string, sep: char): (parts: seq<string>)
    ensures |parts| >= 1
    decreases |s|
  {
    if s == [] then [""]
    else
      var rest := Split(s[1..], sep);
      if s[0] == sep then [""] + rest else [[s[0]] + rest[0]] + rest[1..]
  }

  /** A piece without the separator, followed by the separator, is the first part. */
  lemma {:induction false} SplitAfter(a: string, sep: char, b: string)
    requires sep !in a
    ensures Split(a + [sep] + b, sep) == [a] + Split(b, sep)
    decreases |a|
  {
    var s := a + [sep] + b;
    if a != [] {
      assert s[1..] == a[1..] + [sep] + b;
      SplitAfter(a[1..], sep, b);
      assert [a[0]] + a[1..] == a;
    } else {
      assert s[1..] == b;
    }
  }

  /** A string without the separator splits into itself. */
  lemma {:induction false} SplitWhole(a: string, sep: char)
    requires sep !in a
    ensures Split(a, sep) == [a]
    decreases |a|
  {
    if a != [] {
      SplitWhole(a[1..], sep);
      assert [a[0]] + a[1..] == a;
    }
  }
}
