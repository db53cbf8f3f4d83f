/** `sort_values(measure, ascending=False).head(n)`: ranking the rows of a statistics table. */
module Ranking {

  /** No element occurs twice. */
  predicate NoDup<T(==)>(s: seq<T>) {
    forall i, j :: 0 <= i < j < |s| ==> s[i] != s[j]
  }

  lemma NoDupTail<T>(s: seq<T>)
    requires |s| > 0 && NoDup(s)
    ensures NoDup(s[1..]) && s[0] !in s[1..]
  {
    forall i, j | 0 <= i < j < |s[1..]| ensures s[1..][i] != s[1..][j] {
      assert s[1..][i] == s[i + 1] && s[1..][j] == s[j + 1];
    }
  }

  lemma {:induction false} NoDupOccursOnce<T>(s: seq<T>, x: T)
    requires NoDup(s)
    ensures multiset(s)[x] <= 1
  {
    if |s| > 0 {
      assert s == [s[0]] + s[1..];
      NoDupTail(s);
      NoDupOccursOnce(s[1..], x);
    }
  }

  /** Reordering keeps a sequence free of duplicates. */
  lemma PermutationKeepsNoDup<T>(a: seq<T>, b: seq<T>)
    requires multiset(a) == multiset(b) && NoDup(a)
    ensures NoDup(b)
  {
    forall i, j | 0 <= i < j < |b| ensures b[i] != b[j] {
      if b[i] == b[j] {
        var x := b[i];
        assert b == b[..i] + [x] + b[i + 1..j] + [x] + b[j + 1..];
        assert multiset(b)[x] >= 2;
        NoDupOccursOnce(a, x);
        assert false;
      }
    }
  }

  /** The order `sort_values(..., ascending=False)` establishes: the measure never increases. */
  predicate NonIncreasing<T>(s: seq<T>, m: T -> real) {
    forall i, j :: 0 <= i < j < |s| ==> m(s[i]) >= m(s[j])
  }

  lemma ConsNonIncreasing<T>(h: T, rest: seq<T>, m: T -> real)
    requires NonIncreasing(rest, m)
    requires forall y :: y in rest ==> m(y) <= m(h)
    ensures NonIncreasing([h] + rest, m)
  {
    forall i, j | 0 <= i < j < |[h] + rest| ensures m(([h] + rest)[i]) >= m(([h] + rest)[j]) {
      assert ([h] + rest)[j] == rest[j - 1];
      if i > 0 {
        assert ([h] + rest)[i] == rest[i - 1];
      }
    }
  }

  /** Below the first row of a descending order the order goes on descending, and no row
      measures more than the first. */
  lemma NonIncreasingTail<T>(s: seq<T>, m: T -> real)
    requires |s| > 0 && NonIncreasing(s, m)
    ensures NonIncreasing(s[1..], m)
    ensures forall y :: y in s[1..] ==> m(y) <= m(s[0])
  {
    forall i, j | 0 <= i < j < |s[1..]| ensures m(s[1..][i]) >= m(s[1..][j]) {
      assert s[1..][i] == s[i + 1] && s[1..][j] == s[j + 1];
    }
    forall y | y in s[1..] ensures m(y) <= m(s[0]) {
      var k :| 0 <= k < |s[1..]| && s[1..][k] == y;
      assert s[k + 1] == y;
    }
  }

  function InsertDesc<T>(x: T, s: seq<T>, m: T -> real): (r: seq<T>)
    requires NonIncreasing(s, m)
    ensures multiset(r) == multiset(s) + multiset{x}
    ensures NonIncreasing(r, m)
  {
    if s == [] || m(x) >= m(s[0]) then
      ConsNonIncreasing(x, s, m);
      [x] + s
    else
      var tail := s[1..];
      NonIncreasingTail(s, m);
      var rest := InsertDesc(x, tail, m);
      assert forall y :: y in rest ==> m(y) <= m(s[0]) by {
        forall y | y in rest ensures m(y) <= m(s[0]) {
          assert y in multiset(rest);
        }
      }
      ConsNonIncreasing(s[0], rest, m);
      assert s == [s[0]] + tail;
      [s[0]] + rest
  }

  /** A descending sort of the table by measure `m`; among equal measures it may order rows
      differently from pandas, whose default quicksort is not stable. */
  function SortDesc<T>(s: seq<T>, m: T -> real): (r: seq<T>)
    ensures multiset(r) == multiset(s)
    ensures NonIncreasing(r, m)
  {
    if s == [] then []
    else
      assert s == [s[0]] + s[1..];
      InsertDesc(s[0], SortDesc(s[1..], m), m)
  }

  /** `head(n)`: the first min(n, |s|) rows. */
  function Head<T>(s: seq<T>, n: nat): (r: seq<T>)
    ensures |r| == if n < |s| then n else |s|
    ensures r == s[..|r|]
  {
    if n < |s| then s[..n] else s
  }

  /** What the top-n of a ranked table promises, for EVERY order a descending sort may produce
      (so it holds whatever order pandas gives rows with equal measures): there are min(n, |table|)
      rows, in non-increasing order, all from the table, none twice when the table has no duplicate,
      and no row left out has a larger measure than a row kept. */
  lemma {:induction false} TopOfRanking<T>(table: seq<T>, sorted: seq<T>, m: T -> real, n: nat)
    requires multiset(sorted) == multiset(table) && NonIncreasing(sorted, m)
    ensures var top := Head(sorted, n);
      && |top| == (if n < |table| then n else |table|)
      && NonIncreasing(top, m)
      && (forall t :: t in top ==> t in table)
      && (NoDup(table) ==> NoDup(top))
      && (forall g, t :: g in table && g !in top && t in top ==> m(g) <= m(t))
  {
    var top := Head(sorted, n);
    assert |sorted| == |table| by {
      assert |multiset(sorted)| == |multiset(table)|;
    }
    forall t | t in top ensures t in table {
      assert t in multiset(sorted);
    }
    if NoDup(table) {
      PermutationKeepsNoDup(table, sorted);
    }
    forall g, t | g in table && g !in top && t in top ensures m(g) <= m(t) {
      assert g in multiset(sorted);
      var p :| 0 <= p < |sorted| && sorted[p] == g;
      var q :| 0 <= q < |top| && top[q] == t;
      assert p >= |top|;
    }
  }

  /** Deleting position `p` keeps a descending order descending. */
  lemma RemoveAt<T>(b: seq<T>, p: nat, m: T -> real)
    requires p < |b| && NonIncreasing(b, m)
    ensures var b' := b[..p] + b[p + 1..];
      && |b'| == |b| - 1
      && (forall i :: 0 <= i < |b'| ==> b'[i] == if i < p then b[i] else b[i + 1])
      && multiset(b') == multiset(b) - multiset{b[p]}
      && NonIncreasing(b', m)
  {
    var b' := b[..p] + b[p + 1..];
    assert b == b[..p] + [b[p]] + b[p + 1..];
    assert multiset(b) == multiset(b[..p]) + multiset{b[p]} + multiset(b[p + 1..]);
    forall i, j | 0 <= i < j < |b'| ensures m(b'[i]) >= m(b'[j]) {
      var i' := if i < p then i else i + 1;
      var j' := if j < p then j else j + 1;
      assert b'[i] == b[i'] && b'[j] == b[j'];
    }
  }

  /** In a descending order, every position up to one whose measure equals the first one's
      carries that same measure. */
  lemma FlatPrefix<T>(b: seq<T>, p: nat, m: T -> real)
    requires p < |b| && NonIncreasing(b, m) && m(b[p]) == m(b[0])
    ensures forall k :: 0 <= k <= p ==> m(b[k]) == m(b[0])
  {
    forall k | 0 <= k <= p ensures m(b[k]) == m(b[0]) {
      if 0 < k {
        assert m(b[0]) >= m(b[k]);
      }
      if k < p {
        assert m(b[k]) >= m(b[p]);
      }
    }
  }

  /** Two descending orders of the same table agree on the measure at every position: the
      measures reported in the top rows do not depend on how ties are broken. */
  lemma {:induction false} RankedMeasuresUnique<T>(a: seq<T>, b: seq<T>, m: T -> real)
    requires multiset(a) == multiset(b) && NonIncreasing(a, m) && NonIncreasing(b, m)
    ensures |a| == |b|
    ensures forall i :: 0 <= i < |a| ==> m(a[i]) == m(b[i])
  {
    assert |multiset(a)| == |multiset(b)|;
    if |a| > 0 {
      assert a[0] in multiset(b);
      var p :| 0 <= p < |b| && b[p] == a[0];
      var a', b' := a[1..], b[..p] + b[p + 1..];
      RemoveAt(a, 0, m);
      assert a[..0] + a[1..] == a';
      RemoveAt(b, p, m);
      SameFirstMeasure(a, b, p, m);
      RankedMeasuresUnique(a', b', m);
      ShiftBack(a, b, p, m);
    }
  }

  /** When the first row of one descending order sits at position `p` of another order of the
      same rows, the other order starts with that row's measure. */
  lemma SameFirstMeasure<T>(a: seq<T>, b: seq<T>, p: nat, m: T -> real)
    requires multiset(a) == multiset(b) && NonIncreasing(a, m) && NonIncreasing(b, m)
    requires 0 < |b| && p < |b| && |a| > 0 && b[p] == a[0]
    ensures m(b[0]) == m(b[p])
  {
    assert b[0] in multiset(a);
    var q :| 0 <= q < |a| && a[q] == b[0];
    assert m(a[0]) >= m(a[q]) && m(b[0]) >= m(b[p]);
  }

  /** The inductive step of `RankedMeasuresUnique`: the rest of `a` agrees with `b` minus
      position `p`, and `b` is flat up to `p`, so `a` and `b` agree everywhere. */
  lemma ShiftBack<T>(a: seq<T>, b: seq<T>, p: nat, m: T -> real)
    requires |a| == |b| && p < |b| && a[0] == b[p] && NonIncreasing(b, m) && m(b[0]) == m(b[p])
    requires forall k :: 0 <= k < |a| - 1 ==> m(a[1..][k]) == m((b[..p] + b[p + 1..])[k])
    ensures forall i :: 0 <= i < |a| ==> m(a[i]) == m(b[i])
  {
    FlatPrefix(b, p, m);
    var b' := b[..p] + b[p + 1..];
    forall i | 0 < i < |a| ensures m(a[i]) == m(b[i]) {
      assert a[1..][i - 1] == a[i];
      if i <= p {
        assert b'[i - 1] == b[i - 1];
      } else {
        assert b'[i - 1] == b[i];
      }
    }
  }

  /** A number strictly below the measure of every row of `s` on which `d` holds. */
  function Below<T>(s: seq<T>, d: T -> bool, m: T -> real): (low: real)
    ensures forall x :: x in s && d(x) ==> low < m(x)
  {
    if s == [] then 0.0
    else
      var rest := Below(s[1..], d, m);
      assert forall x :: x in s ==> x == s[0] || x in s[1..];
      if d(s[0]) && m(s[0]) <= rest then m(s[0]) - 1.0 else rest
  }

  /** Two orders of the same table that both put the NaN rows last and the numbers in descending
      order agree at every position on whether the row has a number, and on the number. */
  lemma NaLastMeasuresUnique<T>(a: seq<T>, b: seq<T>, d: T -> bool, m: T -> real)
    requires multiset(a) == multiset(b) && NaLast(a, d, m) && NaLast(b, d, m)
    ensures |a| == |b|
    ensures forall i :: 0 <= i < |a| ==> d(a[i]) == d(b[i]) && (d(a[i]) ==> m(a[i]) == m(b[i]))
  {
    var low := Below(a, d, m);
    var flat := x => if d(x) then m(x) else low;
    forall x | x in b ensures x in a {
      assert x in multiset(b);
    }
    forall i, j | 0 <= i < j < |a| ensures flat(a[i]) >= flat(a[j]) {
      assert a[i] in a;
    }
    forall i, j | 0 <= i < j < |b| ensures flat(b[i]) >= flat(b[j]) {
      assert b[i] in b;
    }
    RankedMeasuresUnique(a, b, flat);
    forall i | 0 <= i < |a| ensures d(a[i]) == d(b[i]) && (d(a[i]) ==> m(a[i]) == m(b[i])) {
      assert flat(a[i]) == flat(b[i]);
      assert a[i] in a && b[i] in b;
    }
  }

  /** The rows on which `d` is `keep`, in their order. */
  function Filter<T>(s: seq<T>, d: T -> bool, keep: bool): (r: seq<T>)
    ensures forall i :: 0 <= i < |r| ==> r[i] in s && d(r[i]) == keep
  {
    if s == [] then []
    else if d(s[0]) == keep then [s[0]] + Filter(s[1..], d, keep)
    else Filter(s[1..], d, keep)
  }

  lemma {:induction false} FilterSplit<T>(s: seq<T>, d: T -> bool)
    ensures multiset(Filter(s, d, true)) + multiset(Filter(s, d, false)) == multiset(s)
  {
    if s != [] {
      FilterSplit(s[1..], d);
      assert s == [s[0]] + s[1..];
    }
  }

  /** The order `sort_values(..., ascending=False)` establishes on a column that may hold NaN
      (`d` false): every row with a number comes before every NaN row, and the numbers never
      increase. */
  predicate NaLast<T>(s: seq<T>, d: T -> bool, m: T -> real) {
    forall i, j :: 0 <= i < j < |s| && d(s[j]) ==> d(s[i]) && m(s[i]) >= m(s[j])
  }

  /** A descending sort that puts the NaN rows last, in their original order. */
  function SortDescNaLast<T>(s: seq<T>, d: T -> bool, m: T -> real): (r: seq<T>)
    ensures multiset(r) == multiset(s)
    ensures NaLast(r, d, m)
  {
    var front := SortDesc(Filter(s, d, true), m);
    var back := Filter(s, d, false);
    FilterSplit(s, d);
    forall x | x in front ensures d(x) {
      assert x in multiset(front);
    }
    front + back
  }

  /** What the top-n of a ranking with NaN last promises, for every order such a sort may
      produce: min(n, |table|) rows from the table in the same order, none twice when the table
      has no duplicate, and a row left out never has a number when a kept row has none, nor a
      larger number than a kept row. */
  lemma {:induction false} TopOfNaLastRanking<T>(table: seq<T>, sorted: seq<T>, d: T -> bool, m: T -> real, n: nat)
    requires multiset(sorted) == multiset(table) && NaLast(sorted, d, m)
    ensures var top := Head(sorted, n);
      && |top| == (if n < |table| then n else |table|)
      && NaLast(top, d, m)
      && (forall t :: t in top ==> t in table)
      && (NoDup(table) ==> NoDup(top))
      && (forall g, t :: g in table && g !in top && t in top && d(g) ==> d(t) && m(g) <= m(t))
  {
    var top := Head(sorted, n);
    assert |sorted| == |table| by {
      assert |multiset(sorted)| == |multiset(table)|;
    }
    forall t | t in top ensures t in table {
      assert t in multiset(sorted);
    }
    if NoDup(table) {
      PermutationKeepsNoDup(table, sorted);
    }
    forall g, t | g in table && g !in top && t in top && d(g) ensures d(t) && m(g) <= m(t) {
      assert g in multiset(sorted);
      var p :| 0 <= p < |sorted| && sorted[p] == g;
      var q :| 0 <= q < |top| && top[q] == t;
      assert p >= |top|;
    }
  }

  /** The pointwise form of the last promise of `TopOfNaLastRanking`. */
  lemma NaLastLeftOut<T>(sorted: seq<T>, d: T -> bool, m: T -> real, n: nat, g: T, t: T)
    requires NaLast(sorted, d, m) && g in sorted && g !in Head(sorted, n) && t in Head(sorted, n) && d(g)
    ensures d(t) && m(g) <= m(t)
  {
    var top := Head(sorted, n);
    var p :| 0 <= p < |sorted| && sorted[p] == g;
    var q :| 0 <= q < |top| && top[q] == t;
    assert p >= |top|;
  }

  /** The sum of a count column. */
  function Total<T>(s: seq<T>, f: T -> nat): (sum: nat) {
    if s == [] then 0 else f(s[0]) + Total(s[1..], f)
  }

  lemma {:induction false} TotalAppend<T>(a: seq<T>, b: seq<T>, f: T -> nat)
    ensures Total(a + b, f) == Total(a, f) + Total(b, f)
  {
    if a != [] {
      assert (a + b)[1..] == a[1..] + b;
      TotalAppend(a[1..], b, f);
    } else {
      assert a + b == b;
    }
  }

  lemma MultisetRemove<T>(b: seq<T>, p: nat)
    requires p < |b|
    ensures multiset(b[..p] + b[p + 1..]) == multiset(b) - multiset{b[p]}
  {
    assert b == b[..p] + [b[p]] + b[p + 1..];
  }

  /** Taking the first row out of `a` and the same row, at position `p`, out of `b` keeps the
      two tables permutations of each other. */
  lemma MultisetDrop<T>(a: seq<T>, b: seq<T>, p: nat)
    requires multiset(a) == multiset(b) && 0 < |a| && p < |b| && b[p] == a[0]
    ensures multiset(a[1..]) == multiset(b[..p] + b[p + 1..])
  {
    assert multiset(a[1..]) == multiset(a) - multiset{a[0]} by {
      assert a == [a[0]] + a[1..];
    }
    assert multiset(b[..p] + b[p + 1..]) == multiset(b) - multiset{b[p]} by {
      MultisetRemove(b, p);
    }
  }

  /** Taking the row at position `p` out of a table takes its value out of the sum. */
  lemma {:induction false} TotalRemove<T>(b: seq<T>, p: nat, f: T -> nat)
    requires p < |b|
    ensures Total(b, f) == f(b[p]) + Total(b[..p] + b[p + 1..], f)
  {
    if p == 0 {
      assert b[..0] + b[1..] == b[1..];
    } else {
      var tail := b[1..];
      var rest := tail[..p - 1] + tail[p..];
      TotalRemove(tail, p - 1, f);
      assert tail[p - 1] == b[p];
      var c := b[..p] + b[p + 1..];
      assert b[..p] == [b[0]] + tail[..p - 1];
      assert b[p + 1..] == tail[p..];
      assert c == [b[0]] + rest;
      assert c[0] == b[0] && c[1..] == rest;
    }
  }

  /** Reordering the rows of a table, as sorting does, does not change a column's sum. */
  lemma {:induction false} TotalPermutation<T>(a: seq<T>, b: seq<T>, f: T -> nat)
    requires multiset(a) == multiset(b)
    ensures Total(a, f) == Total(b, f)
  {
    assert |multiset(a)| == |multiset(b)|;
    if a != [] {
      assert a[0] in multiset(b);
      var p :| 0 <= p < |b| && b[p] == a[0];
      MultisetDrop(a, b, p);
      TotalPermutation(a[1..], b[..p] + b[p + 1..], f);
      TotalRemove(b, p, f);
    } else {
      assert b == [];
    }
  }
}
