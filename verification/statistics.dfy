/** The per-group measures of the bias score question: pandas' `median`, `mean` and `count`
    over the non-missing scores of a group. */
module Statistics {

  function Min(xs: seq<real>): (r: real)
    requires |xs| > 0
    ensures r in xs && forall i :: 0 <= i < |xs| ==> r <= xs[i]
  {
    if |xs| == 1 then xs[0]
    else
      var rest := Min(xs[1..]);
      assert forall i :: 1 <= i < |xs| ==> xs[i] == xs[1..][i - 1];
      if xs[0] <= rest then xs[0] else rest
  }

  function Max(xs: seq<real>): (r: real)
    requires |xs| > 0
    ensures r in xs && forall i :: 0 <= i < |xs| ==> r >= xs[i]
  {
    if |xs| == 1 then xs[0]
    else
      var rest := Max(xs[1..]);
      assert forall i :: 1 <= i < |xs| ==> xs[i] == xs[1..][i - 1];
      if xs[0] >= rest then xs[0] else rest
  }

  function Sum(xs: seq<real>): (total: real) {
    if xs == [] then 0.0 else xs[0] + Sum(xs[1..])
  }

  /** Bounds on every value give bounds on the sum. */
  lemma {:induction false} SumBounds(xs: seq<real>, lo: real, hi: real)
    requires forall i :: 0 <= i < |xs| ==> lo <= xs[i] <= hi
    ensures (|xs| as real) * lo <= Sum(xs) <= (|xs| as real) * hi
  {
    if xs != [] {
      assert forall i :: 0 <= i < |xs[1..]| ==> xs[1..][i] == xs[i + 1];
      SumBounds(xs[1..], lo, hi);
      assert (|xs| as real) * lo == (|xs[1..]| as real) * lo + lo;
      assert (|xs| as real) * hi == (|xs[1..]| as real) * hi + hi;
    }
  }

  lemma QuotientBounds(total: real, n: real, lo: real, hi: real)
    requires n > 0.0 && n * lo <= total <= n * hi
    ensures lo <= total / n <= hi
  {
    var q := total / n;
    assert q * n == total;
    assert (q - lo) * n == total - n * lo;
    assert (hi - q) * n == n * hi - total;
  }

  /** The arithmetic mean (`mean`); it lies between the smallest and the largest value. */
  function Mean(xs: seq<real>): (r: real)
    requires |xs| > 0
    ensures Min(xs) <= r <= Max(xs)
  {
    MeanBounds(xs);
    Sum(xs) / (|xs| as real)
  }

  lemma MeanBounds(xs: seq<real>)
    requires |xs| > 0
    ensures Min(xs) <= Sum(xs) / (|xs| as real) <= Max(xs)
  {
    AverageBounds(xs, Min(xs), Max(xs));
  }

  /** Bounds on every value bound the average. */
  lemma AverageBounds(xs: seq<real>, lo: real, hi: real)
    requires |xs| > 0 && forall i :: 0 <= i < |xs| ==> lo <= xs[i] <= hi
    ensures lo <= Sum(xs) / (|xs| as real) <= hi
  {
    SumBounds(xs, lo, hi);
    QuotientBounds(Sum(xs), |xs| as real, lo, hi);
  }

  predicate Ascending(s: seq<real>) {
    forall i, j :: 0 <= i < j < |s| ==> s[i] <= s[j]
  }

  lemma ConsAscending(h: real, rest: seq<real>)
    requires Ascending(rest) && forall y :: y in rest ==> h <= y
    ensures Ascending([h] + rest)
  {
    forall i, j | 0 <= i < j < |[h] + rest| ensures ([h] + rest)[i] <= ([h] + rest)[j] {
      assert ([h] + rest)[j] == rest[j - 1] && rest[j - 1] in rest;
      if i > 0 {
        assert ([h] + rest)[i] == rest[i - 1];
      } else {
        assert ([h] + rest)[i] == h;
      }
    }
  }

  function Insert(x: real, s: seq<real>): (r: seq<real>)
    requires Ascending(s)
    ensures multiset(r) == multiset(s) + multiset{x}
    ensures Ascending(r)
  {
    if s == [] || x <= s[0] then
      ConsAscending(x, s);
      [x] + s
    else
      assert s == [s[0]] + s[1..];
      assert Ascending(s[1..]) by {
        forall i, j | 0 <= i < j < |s[1..]| ensures s[1..][i] <= s[1..][j] {
          assert s[1..][i] == s[i + 1] && s[1..][j] == s[j + 1];
        }
      }
      var rest := Insert(x, s[1..]);
      forall y | y in rest ensures s[0] <= y {
        assert y in multiset(rest);
        if y != x {
          assert y in s[1..];
        }
      }
      ConsAscending(s[0], rest);
      [s[0]] + rest
  }

  /** The values in ascending order. This sort is kept apart from the descending sort of the
      ranking module: the median is defined on plain reals in ascending order, as numpy sorts
      them, not on table rows ranked by a measure. */
  function SortAsc(xs: seq<real>): (r: seq<real>)
    ensures multiset(r) == multiset(xs) && |r| == |xs|
    ensures Ascending(r)
  {
    if xs == [] then []
    else
      assert xs == [xs[0]] + xs[1..];
      var r := Insert(xs[0], SortAsc(xs[1..]));
      assert |multiset(r)| == |multiset(xs)|;
      r
  }

  /** The middle of ascending values: the middle one for an odd count, the mean of the two
      middle ones for an even count. It lies between the first and the last value. */
  function Middle(s: seq<real>): (r: real)
    requires |s| > 0 && Ascending(s)
    ensures s[0] <= r <= s[|s| - 1]
  {
    var n := |s|;
    if n % 2 == 1 then s[n / 2]
    else
      assert s[0] <= s[n / 2 - 1] <= s[n / 2] <= s[n - 1];
      (s[n / 2 - 1] + s[n / 2]) / 2.0
  }

  /** `median`: the middle of the values in ascending order. It lies between the smallest and
      the largest value. */
  function Median(xs: seq<real>): (med: real)
    requires |xs| > 0
    ensures Min(xs) <= med <= Max(xs)
  {
    var s := SortAsc(xs);
    assert s[0] in multiset(xs) && s[|s| - 1] in multiset(xs);
    Middle(s)
  }

  /** How many values satisfy `p`. */
  function CountIf(xs: seq<real>, p: real -> bool): (c: nat)
    ensures c <= |xs|
  {
    if xs == [] then 0 else (if p(xs[0]) then 1 else 0) + CountIf(xs[1..], p)
  }

  lemma {:induction false} CountIfInsert(x: real, s: seq<real>, p: real -> bool)
    requires Ascending(s)
    ensures CountIf(Insert(x, s), p) == CountIf(s, p) + (if p(x) then 1 else 0)
  {
    if s != [] && x > s[0] {
      CountIfInsert(x, s[1..], p);
    }
  }

  /** Sorting does not change how many values satisfy a condition. */
  lemma {:induction false} CountIfSortAsc(xs: seq<real>, p: real -> bool)
    ensures CountIf(SortAsc(xs), p) == CountIf(xs, p)
  {
    if xs != [] {
      CountIfSortAsc(xs[1..], p);
      CountIfInsert(xs[0], SortAsc(xs[1..]), p);
    }
  }

  /** Values at positions lo .. hi - 1 that all satisfy `p` are counted. */
  lemma {:induction false} CountIfAtLeast(s: seq<real>, lo: nat, hi: nat, p: real -> bool)
    requires lo <= hi <= |s|
    requires forall i :: lo <= i < hi ==> p(s[i])
    ensures CountIf(s, p) >= hi - lo
  {
    if lo < hi {
      if lo > 0 {
        assert forall i :: lo - 1 <= i < hi - 1 ==> s[1..][i] == s[i + 1];
        CountIfAtLeast(s[1..], lo - 1, hi - 1, p);
      } else {
        assert forall i :: 0 <= i < hi - 1 ==> s[1..][i] == s[i + 1];
        CountIfAtLeast(s[1..], 0, hi - 1, p);
      }
    }
  }

  /** The condition "at most `m`" and "at least `m`" on a value. */
  function AtMost(m: real): (p: real -> bool) {
    x => x <= m
  }

  function AtLeast(m: real): (p: real -> bool) {
    x => x >= m
  }

  /** The median in the statistical sense: at least half of the values are at most the median,
      and at least half are at least the median. */
  lemma MedianSplitsInHalves(xs: seq<real>)
    requires |xs| > 0
    ensures 2 * CountIf(xs, AtMost(Median(xs))) >= |xs|
    ensures 2 * CountIf(xs, AtLeast(Median(xs))) >= |xs|
  {
    LowerHalf(xs);
    UpperHalf(xs);
  }

  lemma LowerHalf(xs: seq<real>)
    requires |xs| > 0
    ensures 2 * CountIf(xs, AtMost(Median(xs))) >= |xs|
  {
    var s := SortAsc(xs);
    var med := Median(xs);
    assert med == Middle(s);
    LowerMiddle(s);
    CountIfSortAsc(xs, AtMost(med));
  }

  lemma UpperHalf(xs: seq<real>)
    requires |xs| > 0
    ensures 2 * CountIf(xs, AtLeast(Median(xs))) >= |xs|
  {
    var s := SortAsc(xs);
    var med := Median(xs);
    assert med == Middle(s);
    UpperMiddle(s);
    CountIfSortAsc(xs, AtLeast(med));
  }

  /** At least half of ascending values are at most their middle. */
  lemma LowerMiddle(s: seq<real>)
    requires |s| > 0 && Ascending(s)
    ensures 2 * CountIf(s, AtMost(Middle(s))) >= |s|
  {
    var n := |s|;
    var k := if n % 2 == 1 then n / 2 else n / 2 - 1;
    assert s[k] <= Middle(s);
    CountBelow(s, k, Middle(s));
  }

  /** At least half of ascending values are at least their middle. */
  lemma UpperMiddle(s: seq<real>)
    requires |s| > 0 && Ascending(s)
    ensures 2 * CountIf(s, AtLeast(Middle(s))) >= |s|
  {
    var n := |s|;
    assert Middle(s) <= s[n / 2];
    CountAbove(s, n / 2, Middle(s));
  }

  /** In ascending values, a value at most `v` at position k makes k + 1 values at most `v`. */
  lemma CountBelow(s: seq<real>, k: nat, v: real)
    requires Ascending(s) && k < |s| && s[k] <= v
    ensures CountIf(s, AtMost(v)) >= k + 1
  {
    BelowPrefix(s, k, v);
    assert forall i :: 0 <= i < k + 1 ==> AtMost(v)(s[i]);
    CountIfAtLeast(s, 0, k + 1, AtMost(v));
  }

  /** In ascending values, a value at least `v` at position k makes |s| - k values at least `v`. */
  lemma CountAbove(s: seq<real>, k: nat, v: real)
    requires Ascending(s) && k < |s| && v <= s[k]
    ensures CountIf(s, AtLeast(v)) >= |s| - k
  {
    AboveSuffix(s, k, v);
    assert forall i :: k <= i < |s| ==> AtLeast(v)(s[i]);
    CountIfAtLeast(s, k, |s|, AtLeast(v));
  }

  lemma BelowPrefix(s: seq<real>, k: nat, v: real)
    requires Ascending(s) && k < |s| && s[k] <= v
    ensures forall i :: 0 <= i <= k ==> s[i] <= v
  {
  }

  lemma AboveSuffix(s: seq<real>, k: nat, v: real)
    requires Ascending(s) && k < |s| && v <= s[k]
    ensures forall i :: k <= i < |s| ==> v <= s[i]
  {
  }

  /** Two ascending orders of the same values are the same sequence. */
  lemma {:induction false} AscendingUnique(a: seq<real>, b: seq<real>)
    requires multiset(a) == multiset(b) && Ascending(a) && Ascending(b)
    ensures a == b
  {
    assert |multiset(a)| == |multiset(b)|;
    if |a| > 0 {
      SameSmallest(a, b);
      AscendingTail(a);
      AscendingTail(b);
      AscendingUnique(a[1..], b[1..]);
      assert a == [a[0]] + a[1..] && b == [b[0]] + b[1..];
    }
  }

  /** Two ascending orders of the same values start with the same value, and what follows
      holds the same values. */
  lemma SameSmallest(a: seq<real>, b: seq<real>)
    requires multiset(a) == multiset(b) && Ascending(a) && Ascending(b) && |a| > 0
    ensures |b| > 0 && a[0] == b[0] && multiset(a[1..]) == multiset(b[1..])
  {
    assert |multiset(a)| == |multiset(b)|;
    SmallestFirst(a, b);
    assert multiset(a[1..]) == multiset(a) - multiset{a[0]} by {
      assert a == [a[0]] + a[1..];
    }
    assert multiset(b[1..]) == multiset(b) - multiset{b[0]} by {
      assert b == [b[0]] + b[1..];
    }
  }

  lemma SmallestFirst(a: seq<real>, b: seq<real>)
    requires multiset(a) == multiset(b) && Ascending(a) && Ascending(b) && |a| > 0 && |b| > 0
    ensures a[0] == b[0]
  {
    assert a[0] in multiset(b) && b[0] in multiset(a);
    var p :| 0 <= p < |b| && b[p] == a[0];
    var q :| 0 <= q < |a| && a[q] == b[0];
    assert a[0] <= a[q] && b[0] <= b[p];
  }

  lemma AscendingTail(s: seq<real>)
    requires Ascending(s) && |s| > 0
    ensures Ascending(s[1..])
  {
    forall i, j | 0 <= i < j < |s[1..]| ensures s[1..][i] <= s[1..][j] {
      assert s[1..][i] == s[i + 1] && s[1..][j] == s[j + 1];
    }
  }

  /** The median depends only on the values, not on the order of the rows that hold them. */
  lemma MedianOrderIndependent(a: seq<real>, b: seq<real>)
    requires |a| > 0 && multiset(a) == multiset(b)
    ensures |b| > 0 && Median(a) == Median(b)
  {
    assert |multiset(a)| == |multiset(b)|;
    AscendingUnique(SortAsc(a), SortAsc(b));
  }

  /** On values already in ascending order the median is read off the middle directly. */
  lemma MedianOfAscending(xs: seq<real>)
    requires |xs| > 0 && Ascending(xs)
    ensures var n := |xs|;
      Median(xs) == if n % 2 == 1 then xs[n / 2] else (xs[n / 2 - 1] + xs[n / 2]) / 2.0
  {
    assert SortAsc(xs) == xs by {
      AscendingUnique(SortAsc(xs), xs);
    }
    assert Median(xs) == Middle(xs);
  }
}
