/**
 * Character classes and string operations with the meaning Python gives them
 * on `str`: whitespace as `str.isspace()` (which is also what `\s`, `strip()`
 * use), ASCII digits, ASCII lower-casing, `split('\n')`, `'\n'.join`, and
 * regex-style leftmost / rightmost search.
 */
module Text {
  import opened Common

  /** The characters Python's `str.isspace()` accepts. */
  predicate IsSpace(c: char) {
    || ('\t' <= c <= '\r')
    || ('\U{1C}' <= c <= '\U{1F}')
    || c == ' '
    || c == '\U{85}'
    || c == '\U{A0}'
    || c == '\U{1680}'
    || ('\U{2000}' <= c <= '\U{200A}')
    || c == '\U{2028}'
    || c == '\U{2029}'
    || c == '\U{202F}'
    || c == '\U{205F}'
    || c == '\U{3000}'
  }

  predicate IsDigit(c: char) {
    '0' <= c <= '9'
  }

  predicate IsNotNewline(c: char) {
    c != '\n'
  }

  function DigitValue(c: char): (v: nat)
    requires IsDigit(c)
    ensures v <= 9
  {
    (c as int) - ('0' as int)
  }

  predicate AllDigits(s: string) {
    forall k :: 0 <= k < |s| ==> IsDigit(s[k])
  }

  /** A string made of whitespace only (possibly empty). */
  predicate Blank(s: string) {
    forall k :: 0 <= k < |s| ==> IsSpace(s[k])
  }

  function Pow10(k: nat): (p: nat)
    ensures p >= 1
  {
    if k == 0 then 1 else 10 * Pow10(k - 1)
  }

  /** Python's `int(ds)` on a string of ASCII digits. */
  function NumberOf(ds: string): nat
    requires AllDigits(ds)
    decreases |ds|
  {
    if |ds| == 0 then 0 else 10 * NumberOf(ds[..|ds| - 1]) + DigitValue(ds[|ds| - 1])
  }

  /** Reading the digits of `a` then `b` is reading `a` shifted left by `|b|` places, plus `b`. */
  lemma {:induction false} NumberOfAppend(a: string, b: string)
    requires AllDigits(a) && AllDigits(b)
    ensures AllDigits(a + b)
    ensures NumberOf(a + b) == NumberOf(a) * Pow10(|b|) + NumberOf(b)
    decreases |b|
  {
    if |b| == 0 {
      assert a + b == a;
    } else {
      var b' := b[..|b| - 1];
      var ab := a + b;
      assert ab[..|ab| - 1] == a + b';
      assert ab[|ab| - 1] == b[|b| - 1];
      NumberOfAppend(a, b');
      ShiftStep(NumberOf(a), Pow10(|b'|), NumberOf(b'), DigitValue(b[|b| - 1]));
    }
  }

  lemma ShiftStep(x: int, p: int, y: int, d: int)
    ensures 10 * (x * p + y) + d == x * (10 * p) + (10 * y + d)
  {
  }

  /** A number written with `k` digits is below `10^k`. */
  lemma {:induction false} NumberOfBound(ds: string)
    requires AllDigits(ds)
    ensures NumberOf(ds) < Pow10(|ds|)
    decreases |ds|
  {
    if |ds| > 0 {
      NumberOfBound(ds[..|ds| - 1]);
    }
  }

  /** ASCII lower-casing of one character. */
  function Lower(c: char): (d: char)
    ensures 'A' <= c <= 'Z' ==> d as int == c as int + 32
    ensures !('A' <= c <= 'Z') ==> d == c
  {
    if 'A' <= c <= 'Z' then (c as int + 32) as char else c
  }

  /** `s.lower()`, restricted to ASCII letters; it keeps the length. */
  function LowerStr(s: string): (r: string)
    ensures |r| == |s|
    ensures forall k :: 0 <= k < |s| ==> r[k] == Lower(s[k])
  {
    seq(|s|, k requires 0 <= k < |s| => Lower(s[k]))
  }

  /** `w` occurs in `s` starting at index `i`. */
  predicate HasAt(s: string, i: nat, w: string) {
    i + |w| <= |s| && s[i..i + |w|] == w
  }

  /** Python's `w in s`. */
  predicate Occurs(s: string, w: string) {
    exists i: nat :: i <= |s| && HasAt(s, i, w)
  }

  /** Length of the longest run of characters satisfying `p` that starts at `i`. */
  function Run(s: string, i: nat, p: char -> bool): (n: nat)
    ensures i <= |s| ==> i + n <= |s|
    ensures i > |s| ==> n == 0
    ensures forall k :: i <= k < i + n ==> p(s[k])
    ensures i + n < |s| ==> !p(s[i + n])
    decreases |s| - i
  {
    if i < |s| && p(s[i]) then 1 + Run(s, i + 1, p) else 0
  }

  /** Index of the end of the line that contains position `i` (a `'\n'` or the end of `s`). */
  function LineEnd(s: string, i: nat): (e: nat)
    requires i <= |s|
    ensures i <= e <= |s|
    ensures e < |s| ==> s[e] == '\n'
    ensures forall k :: i <= k < e ==> s[k] != '\n'
  {
    i + Run(s, i, IsNotNewline)
  }

  /**
   * Leftmost search, as `re.search` performs it: the first position `p >= i`
   * (up to `|t|`) where the matcher `at` succeeds, with what it matched.
   */
  function SearchFrom<T>(t: string, i: nat, at: nat -> Option<T>): (r: Option<(nat, T)>)
    ensures r.Some? ==> i <= r.value.0 <= |t| && at(r.value.0) == Some(r.value.1)
    ensures r.Some? ==> forall q :: i <= q < r.value.0 ==> at(q).None?
    ensures r.None? ==> forall q :: i <= q <= |t| ==> at(q).None?
    decreases |t| + 1 - i
  {
    if i > |t| then None
    else match at(i)
      case Some(v) => Some((i, v))
      case None => SearchFrom(t, i + 1, at)
  }

  /** Rightmost search in `lo..hi`: what a greedy `.*` before a sub-pattern selects. */
  function SearchBack<T>(lo: nat, hi: nat, at: nat -> Option<T>): (r: Option<(nat, T)>)
    ensures r.Some? ==> lo <= r.value.0 <= hi && at(r.value.0) == Some(r.value.1)
    ensures r.Some? ==> forall q :: r.value.0 < q <= hi ==> at(q).None?
    ensures r.None? ==> forall q :: lo <= q <= hi ==> at(q).None?
    decreases hi
  {
    if hi < lo then None
    else match at(hi)
      case Some(v) => Some((hi, v))
      case None => if hi == 0 then None else SearchBack(lo, hi - 1, at)
  }

  /** The elements of `s` that satisfy `p`, in their original order. */
  function Keep<T>(s: seq<T>, p: T -> bool): (r: seq<T>)
    ensures |r| <= |s|
    ensures |s| == 0 ==> r == []
    ensures |s| == 1 ==> r == (if p(s[0]) then s else [])
    ensures forall x :: x in r ==> x in s && p(x)
    ensures forall x :: x in s && p(x) ==> x in r
    decreases |s|
  {
    if |s| == 0 then []
    else if p(s[0]) then [s[0]] + Keep(s[1..], p)
    else Keep(s[1..], p)
  }

  /** Filtering commutes with concatenation, so it keeps relative order. */
  lemma {:induction false} KeepAppend<T>(a: seq<T>, b: seq<T>, p: T -> bool)
    ensures Keep(a + b, p) == Keep(a, p) + Keep(b, p)
    decreases |a|
  {
    if |a| > 0 {
      assert (a + b)[1..] == a[1..] + b;
      KeepAppend(a[1..], b, p);
    } else {
      assert a + b == b;
    }
  }

  function IsComma(c: char): bool {
    c == ','
  }

  function IsNotComma(c: char): bool {
    c != ','
  }

  /** `s.replace(",", "")`. */
  function RemoveCommas(s: string): (r: string)
    ensures ',' !in r
  {
    Keep(s, IsNotComma)
  }

  /** Python's `s.split('\n')`: always at least one piece, none holding a newline. */
  function SplitLines(s: string): (lines: seq<string>)
    ensures |lines| >= 1
    ensures forall k :: 0 <= k < |lines| ==> '\n' !in lines[k]
    decreases |s|
  {
    if |s| == 0 then [""]
    else
      var rest := SplitLines(s[1..]);
      if s[0] == '\n' then [""] + rest
      else [[s[0]] + rest[0]] + rest[1..]
  }

  /** Python's `'\n'.join(lines)`. */
  function JoinLines(lines: seq<string>): string
    decreases |lines|
  {
    if |lines| == 0 then ""
    else if |lines| == 1 then lines[0]
    else lines[0] + "\n" + JoinLines(lines[1..])
  }

  /** Joining the pieces of a split gives the text back. */
  lemma {:induction false} JoinSplit(s: string)
    ensures JoinLines(SplitLines(s)) == s
    decreases |s|
  {
    if |s| > 0 {
      var rest := SplitLines(s[1..]);
      JoinSplit(s[1..]);
      if s[0] == '\n' {
        assert SplitLines(s) == [""] + rest;
        assert ([""] + rest)[1..] == rest;
        assert s == [s[0]] + s[1..];
      } else {
        var lines := [[s[0]] + rest[0]] + rest[1..];
        assert SplitLines(s) == lines;
        assert lines[1..] == rest[1..];
        if |rest| == 1 {
          assert s == [s[0]] + s[1..];
        } else {
          assert rest == [rest[0]] + rest[1..];
          assert JoinLines(rest) == rest[0] + "\n" + JoinLines(rest[1..]);
          assert s == [s[0]] + s[1..];
        }
      }
    }
  }

  /** Splitting a newline-free prefix glued to `s` extends the first piece of `s`. */
  lemma {:induction false} SplitPrefix(a: string, s: string)
    requires '\n' !in a
    ensures SplitLines(a + s) == [a + SplitLines(s)[0]] + SplitLines(s)[1..]
    decreases |a|
  {
    if |a| == 0 {
      assert a + s == s;
      assert a + SplitLines(s)[0] == SplitLines(s)[0];
      assert SplitLines(s) == [SplitLines(s)[0]] + SplitLines(s)[1..];
    } else {
      assert (a + s)[0] == a[0];
      assert (a + s)[1..] == a[1..] + s;
      assert a[0] in a;
      SplitPrefix(a[1..], s);
      assert [a[0]] + (a[1..] + SplitLines(s)[0]) == a + SplitLines(s)[0];
    }
  }

  /** Splitting the join of newline-free lines gives the lines back. */
  lemma {:induction false} SplitJoin(lines: seq<string>)
    requires |lines| >= 1
    requires forall k :: 0 <= k < |lines| ==> '\n' !in lines[k]
    ensures SplitLines(JoinLines(lines)) == lines
    decreases |lines|
  {
    if |lines| == 1 {
      SplitPrefix(lines[0], "");
      assert lines[0] + "" == lines[0];
    } else {
      var rest := JoinLines(lines[1..]);
      SplitJoin(lines[1..]);
      assert ("\n" + rest)[0] == '\n';
      assert ("\n" + rest)[1..] == rest;
      assert SplitLines("\n" + rest) == [""] + lines[1..];
      assert lines[0] + "\n" + rest == lines[0] + ("\n" + rest);
      SplitPrefix(lines[0], "\n" + rest);
      assert lines[0] + "" == lines[0];
      assert ([""] + lines[1..])[1..] == lines[1..];
    }
  }

  /** Drops trailing whitespace. */
  function StripRight(s: string): (r: string)
    ensures |r| <= |s|
    ensures r == s[..|r|]
    ensures forall k :: |r| <= k < |s| ==> IsSpace(s[k])
    ensures |r| > 0 ==> !IsSpace(r[|r| - 1])
    decreases |s|
  {
    if |s| > 0 && IsSpace(s[|s| - 1]) then StripRight(s[..|s| - 1]) else s
  }

  /** Python's `s.strip()`: drops leading and trailing whitespace. */
  function Strip(s: string): (r: string)
    ensures |r| <= |s|
    ensures |r| == 0 <==> Blank(s)
    ensures |r| > 0 ==> !IsSpace(r[0]) && !IsSpace(r[|r| - 1])
    ensures (|s| == 0 || (!IsSpace(s[0]) && !IsSpace(s[|s| - 1]))) ==> r == s
    ensures exists i, j :: 0 <= i <= j <= |s| && r == s[i..j] && Blank(s[..i]) && Blank(s[j..])
  {
    var n := Run(s, 0, IsSpace);
    var left := s[n..];
    var r := StripRight(left);
    assert r == s[n..n + |r|];
    assert Blank(s[..n]);
    var tail := s[n + |r|..];
    assert Blank(tail) by {
      forall k | 0 <= k < |tail| ensures IsSpace(tail[k]) {
        assert tail[k] == left[|r| + k];
      }
    }
    assert n < |s| ==> |r| > 0 by {
      if n < |s| {
        assert left[0] == s[n];
        assert !IsSpace(left[0]);
      }
    }
    assert Blank(s) ==> n == |s|;
    r
  }

  /** Stripping twice is stripping once. */
  lemma StripIdempotent(s: string)
    ensures Strip(Strip(s)) == Strip(s)
  {
  }
}
