/** Python string built-ins that the add-on relies on, over `seq<char>`:
    `str(int)` / `"%d"`, slices (`s[lo:hi]`, `s[:-k]`, `s[-k:]`),
    `str.endswith`, `posixpath.join` of two parts and `sorted` on a list of
    strings (code-point lexicographic order). */
module PyStr {

  type Str = seq<char>

  // ---------------------------------------------------------------------
  // Decimal rendering of integers: str(i) and "%d" % i

  predicate IsDigit(c: char) {
    '0' <= c <= '9'
  }

  predicate AllDigits(s: Str) {
    forall k :: 0 <= k < |s| ==> IsDigit(s[k])
  }

  /** The strings `int()` reads as a decimal integer: an optional minus
      sign, then at least one digit. */
  predicate IsIntStr(s: Str) {
    |s| >= 1 && (if s[0] == '-' then |s| >= 2 && AllDigits(s[1..]) else AllDigits(s))
  }

  function DigitChar(d: nat): (c: char)
    requires d < 10
    ensures IsDigit(c)
  {
    ('0' as int + d) as char
  }

  function DigitValue(c: char): (d: nat)
    requires IsDigit(c)
    ensures d < 10
  {
    c as int - '0' as int
  }

  /** The decimal digits of `n`, most significant first, with no leading zero. */
  function NatToStr(n: nat): (s: Str)
    ensures |s| >= 1 && AllDigits(s)
    ensures |s| > 1 ==> s[0] != '0'
    decreases n
  {
    if n < 10 then [DigitChar(n)] else NatToStr(n / 10) + [DigitChar(n % 10)]
  }

  /** Python's `str(i)` (and `"%d" % i`) for an int. */
  function IntToStr(i: int): (s: Str)
    ensures IsIntStr(s)
  {
    if i < 0 then "-" + NatToStr(-i) else NatToStr(i)
  }

  /** The rendering starts with a minus sign exactly for negative numbers,
      holds nothing but digits after it, and ends with a digit. */
  lemma IntToStrShape(i: int)
    ensures IntToStr(i)[0] == '-' <==> i < 0
    ensures i >= 0 ==> AllDigits(IntToStr(i))
    ensures IsDigit(IntToStr(i)[|IntToStr(i)| - 1])
  {
    if i < 0 {
      var t := NatToStr(-i);
      assert IntToStr(i)[|IntToStr(i)| - 1] == t[|t| - 1];
    } else {
      assert IsDigit(NatToStr(i)[0]);
    }
  }

  /** Reads a string of decimal digits back as a number. */
  function ParseNat(s: Str): nat
    requires AllDigits(s)
  {
    if s == [] then 0 else ParseNat(s[..|s| - 1]) * 10 + DigitValue(s[|s| - 1])
  }

  /** Python's `int(s)` on a decimal string. */
  function ParseInt(s: Str): int
    requires IsIntStr(s)
  {
    if s[0] == '-' then -(ParseNat(s[1..]) as int) else ParseNat(s)
  }

  lemma {:induction false} NatToStrRoundTrip(n: nat)
    ensures ParseNat(NatToStr(n)) == n
    decreases n
  {
    if n >= 10 {
      var init := NatToStr(n / 10);
      var s := init + [DigitChar(n % 10)];
      assert s[..|s| - 1] == init;
      NatToStrRoundTrip(n / 10);
    }
  }

  /** `int(str(i)) == i`: the decimal rendering loses nothing. */
  lemma IntToStrRoundTrip(i: int)
    ensures ParseInt(IntToStr(i)) == i
  {
    IntToStrShape(i);
    if i < 0 {
      assert IntToStr(i)[1..] == NatToStr(-i);
      NatToStrRoundTrip(-i);
    } else {
      NatToStrRoundTrip(i);
    }
  }

  /** An integer rendered after a fixed prefix reads back from the rest. */
  lemma PrefixedIntReadsBack(p: Str, i: int)
    ensures |p + IntToStr(i)| > |p| && (p + IntToStr(i))[..|p|] == p
    ensures IsIntStr((p + IntToStr(i))[|p|..]) && ParseInt((p + IntToStr(i))[|p|..]) == i
  {
    var t := IntToStr(i);
    assert (p + t)[..|p|] == p;
    assert (p + t)[|p|..] == t;
    IntToStrRoundTrip(i);
  }

  /** Distinct integers render as distinct strings. */
  lemma IntToStrInjective(i: int, j: int)
    requires IntToStr(i) == IntToStr(j)
    ensures i == j
  {
    IntToStrRoundTrip(i);
    IntToStrRoundTrip(j);
  }

  // ---------------------------------------------------------------------
  // Slices, str.endswith, posixpath.join

  function Min(a: int, b: int): int {
    if a <= b then a else b
  }

  /** Python's `s[lo:hi]` for non-negative bounds: both are clamped to
      `len(s)`, and a slice whose end is not after its start is empty. */
  function Slice<T>(s: seq<T>, lo: nat, hi: nat): (r: seq<T>)
    ensures lo <= |s| && lo <= hi ==> r == s[lo..Min(hi, |s|)]
    ensures lo >= |s| || hi <= lo ==> r == []
  {
    var a := if lo <= |s| then lo else |s|;
    var b := if hi <= |s| then hi else |s|;
    if a <= b then s[a..b] else []
  }

  /** Python's `s[:-k]` for a positive constant `k`: everything but the last
      `k` characters, and the empty string when `s` is shorter than `k`. */
  function DropLast(s: Str, k: nat): (r: Str)
    requires k >= 1
    ensures |r| == if |s| >= k then |s| - k else 0
    ensures r == s[..|r|]
  {
    if |s| >= k then s[..|s| - k] else []
  }

  /** Python's `s[-k:]` for a positive constant `k`: the last `k` characters,
      and all of `s` when it is shorter than `k`. */
  function TakeLast(s: Str, k: nat): (r: Str)
    requires k >= 1
    ensures |r| == if |s| >= k then k else |s|
    ensures r == s[|s| - |r|..]
  {
    if |s| >= k then s[|s| - k..] else s
  }

  /** `s[:-k] + s[-k:] == s` for every string, short ones included. */
  lemma DropTakeLast(s: Str, k: nat)
    requires k >= 1
    ensures DropLast(s, k) + TakeLast(s, k) == s
  {
  }

  /** Python's `s.endswith(p)`. */
  predicate EndsWith(s: Str, p: Str) {
    |p| <= |s| && s[|s| - |p|..] == p
  }

  /** A string ends with anything that ends its last part. */
  lemma EndsWithAppend(a: Str, b: Str, p: Str)
    requires EndsWith(b, p)
    ensures EndsWith(a + b, p)
  {
    assert (a + b)[|a + b| - |p|..] == b[|b| - |p|..];
  }

  lemma EndsWithTransitive(s: Str, t: Str, p: Str)
    requires EndsWith(s, t) && EndsWith(t, p)
    ensures EndsWith(s, p)
  {
    assert s[|s| - |p|..] == t[|t| - |p|..];
  }

  /** `posixpath.join(a, b)`: an absolute `b` replaces `a`; otherwise `b` is
      appended, with a `/` between unless `a` is empty or already ends in one. */
  function PathJoin(a: Str, b: Str): Str {
    if |b| > 0 && b[0] == '/' then b
    else if a == [] || a[|a| - 1] == '/' then a + b
    else a + "/" + b
  }

  /** A joined path ends with its last part, so it keeps that part's
      extension. */
  lemma PathJoinEndsWith(a: Str, b: Str)
    ensures EndsWith(PathJoin(a, b), b)
  {
    assert EndsWith(b, b);
    if !(|b| > 0 && b[0] == '/') {
      if a == [] || a[|a| - 1] == '/' {
        EndsWithAppend(a, b, b);
      } else {
        EndsWithAppend(a + "/", b, b);
      }
    }
  }

  // ---------------------------------------------------------------------
  // sorted() on a list of str: lexicographic order of code points

  /** `a <= b` between Python strings. */
  predicate StrLe(a: Str, b: Str)
    decreases |a|
  {
    |a| == 0 || (|b| > 0 && (a[0] < b[0] || (a[0] == b[0] && StrLe(a[1..], b[1..]))))
  }

  lemma {:induction false} StrLeTotal(a: Str, b: Str)
    ensures StrLe(a, b) || StrLe(b, a)
    decreases |a|
  {
    if |a| > 0 && |b| > 0 && a[0] == b[0] {
      StrLeTotal(a[1..], b[1..]);
    }
  }

  lemma {:induction false} StrLeReflexive(a: Str)
    ensures StrLe(a, a)
    decreases |a|
  {
    if |a| > 0 { StrLeReflexive(a[1..]); }
  }

  lemma {:induction false} StrLeTransitive(a: Str, b: Str, c: Str)
    requires StrLe(a, b) && StrLe(b, c)
    ensures StrLe(a, c)
    decreases |a|
  {
    if |a| > 0 && a[0] == b[0] && b[0] == c[0] {
      StrLeTransitive(a[1..], b[1..], c[1..]);
    }
  }

  lemma {:induction false} StrLeAntisymmetric(a: Str, b: Str)
    requires StrLe(a, b) && StrLe(b, a)
    ensures a == b
    decreases |a|
  {
    if |a| > 0 {
      StrLeAntisymmetric(a[1..], b[1..]);
      assert a == [a[0]] + a[1..] && b == [b[0]] + b[1..];
    }
  }

  predicate Sorted(s: seq<Str>) {
    forall i, j :: 0 <= i < j < |s| ==> StrLe(s[i], s[j])
  }

  /** Inserts `x` into a sorted list before the first element it does not
      exceed. */
  function Insert(x: Str, s: seq<Str>): seq<Str> {
    if s == [] then [x]
    else if StrLe(x, s[0]) then [x] + s
    else [s[0]] + Insert(x, s[1..])
  }

  lemma {:induction false} InsertSpec(x: Str, s: seq<Str>)
    requires Sorted(s)
    ensures multiset(Insert(x, s)) == multiset(s) + multiset{x}
    ensures Sorted(Insert(x, s))
  {
    if s == [] {
    } else if StrLe(x, s[0]) {
      ConsSorted(x, s);
    } else {
      StrLeTotal(x, s[0]);
      assert s == [s[0]] + s[1..];
      SortedTail(s);
      InsertSpec(x, s[1..]);
      var rest := Insert(x, s[1..]);
      forall y | y in rest ensures StrLe(s[0], y) {
        assert y in multiset(rest);
        if y != x {
          SortedHeadLeast(s, y);
        }
      }
      ConsSortedBelow(s[0], rest);
    }
  }

  lemma SortedTail(s: seq<Str>)
    requires Sorted(s) && s != []
    ensures Sorted(s[1..])
  {
    forall i, j | 0 <= i < j < |s| - 1 ensures StrLe(s[1..][i], s[1..][j]) {
      assert s[1..][i] == s[i + 1] && s[1..][j] == s[j + 1];
    }
  }

  /** Putting an element no greater than the head in front keeps a list
      sorted. */
  lemma ConsSorted(x: Str, s: seq<Str>)
    requires Sorted(s) && s != [] && StrLe(x, s[0])
    ensures Sorted([x] + s)
  {
    forall y | y in s ensures StrLe(x, y) {
      SortedHeadLeast(s, y);
      StrLeTransitive(x, s[0], y);
    }
    ConsSortedBelow(x, s);
  }

  lemma ConsSortedBelow(x: Str, s: seq<Str>)
    requires Sorted(s) && forall y :: y in s ==> StrLe(x, y)
    ensures Sorted([x] + s)
  {
    var r := [x] + s;
    forall i, j | 0 <= i < j < |r| ensures StrLe(r[i], r[j]) {
      if i == 0 {
        assert r[j] == s[j - 1];
      } else {
        assert r[i] == s[i - 1] && r[j] == s[j - 1];
      }
    }
  }

  /** Python's `sorted(names)`, by insertion. */
  function SortStrs(names: seq<Str>): seq<Str> {
    if names == [] then []
    else Insert(names[|names| - 1], SortStrs(names[..|names| - 1]))
  }

  /** `sorted` returns an ascending permutation of its argument. */
  lemma {:induction false} SortStrsSpec(names: seq<Str>)
    ensures multiset(SortStrs(names)) == multiset(names)
    ensures Sorted(SortStrs(names))
  {
    if names != [] {
      var init := names[..|names| - 1];
      assert names == init + [names[|names| - 1]];
      SortStrsSpec(init);
      InsertSpec(names[|names| - 1], SortStrs(init));
    }
  }

  /** The head of a sorted list is at most any of its elements. */
  lemma SortedHeadLeast(a: seq<Str>, x: Str)
    requires Sorted(a) && x in a
    ensures StrLe(a[0], x)
  {
    var i :| 0 <= i < |a| && a[i] == x;
    if i == 0 { StrLeReflexive(x); }
  }

  /** A list of strings has exactly one ascending arrangement, so the
      insertion sort above is the order Python's `sorted` produces. */
  lemma {:induction false} SortedUnique(a: seq<Str>, b: seq<Str>)
    requires Sorted(a) && Sorted(b) && multiset(a) == multiset(b)
    ensures a == b
    decreases |a|
  {
    assert |b| == |a| by { assert |multiset(a)| == |multiset(b)|; }
    if a != [] {
      assert a[0] in multiset(b) && b[0] in multiset(a);
      SortedHeadLeast(b, a[0]);
      SortedHeadLeast(a, b[0]);
      StrLeAntisymmetric(a[0], b[0]);
      SameHeadTails(a, b);
      SortedTail(a);
      SortedTail(b);
      SortedUnique(a[1..], b[1..]);
      assert a == [a[0]] + a[1..] && b == [b[0]] + b[1..];
    }
  }

  lemma SameHeadTails(a: seq<Str>, b: seq<Str>)
    requires a != [] && b != [] && a[0] == b[0] && multiset(a) == multiset(b)
    ensures multiset(a[1..]) == multiset(b[1..])
  {
    assert a == [a[0]] + a[1..] && b == [b[0]] + b[1..];
    assert multiset(a[1..]) == multiset(a) - multiset{a[0]};
    assert multiset(b[1..]) == multiset(b) - multiset{b[0]};
  }
}
