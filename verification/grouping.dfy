/** `groupby(key)` with pandas' defaults: one group per distinct key that is present (rows whose
    key is NaN are dropped), each group holding the rows that carry that key. */
module Grouping {
  import opened Cells
  import opened Ranking
  import opened Statistics

  /** A key that takes part in grouping: `groupby` drops NaN keys. */
  predicate Present(c: Cell) {
    c != Missing
  }

  /** The distinct present keys, in the order they first occur. */
  function DistinctKeys(keys: seq<Cell>): (ks: seq<Cell>)
    ensures NoDup(ks)
    ensures forall k :: k in ks <==> Present(k) && k in keys
  {
    if keys == [] then []
    else
      var n := |keys| - 1;
      var d := DistinctKeys(keys[..n]);
      assert keys == keys[..n] + [keys[n]];
      if !Present(keys[n]) || keys[n] in d then d
      else
        assert forall i :: 0 <= i < |d| ==> (d + [keys[n]])[i] == d[i];
        d + [keys[n]]
  }

  /** The number of rows whose key is `k` and whose selector is set. With every selector set
      this is the size of group `k`. */
  function Hits(keys: seq<Cell>, sel: seq<bool>, k: Cell): (h: nat)
    requires |keys| == |sel|
  {
    if keys == [] then 0
    else
      var n := |keys| - 1;
      Hits(keys[..n], sel[..n], k) + (if keys[n] == k && sel[n] then 1 else 0)
  }

  /** The number of rows whose key is present and whose selector is set. */
  function PresentHits(keys: seq<Cell>, sel: seq<bool>): (h: nat)
    requires |keys| == |sel|
  {
    if keys == [] then 0
    else
      var n := |keys| - 1;
      PresentHits(keys[..n], sel[..n]) + (if Present(keys[n]) && sel[n] then 1 else 0)
  }

  /** Hits summed over a list of keys. */
  function SumHits(ks: seq<Cell>, keys: seq<Cell>, sel: seq<bool>): (h: nat)
    requires |keys| == |sel|
  {
    if ks == [] then 0 else Hits(keys, sel, ks[0]) + SumHits(ks[1..], keys, sel)
  }

  /** Every row selected: the selector that makes `Hits` a group size. */
  function Everyone(n: nat): (sel: seq<bool>)
    ensures |sel| == n && forall i :: 0 <= i < n ==> sel[i]
  {
    seq(n, _ => true)
  }

  lemma HitsSnoc(keys: seq<Cell>, sel: seq<bool>, x: Cell, b: bool, k: Cell)
    requires |keys| == |sel|
    ensures Hits(keys + [x], sel + [b], k) == Hits(keys, sel, k) + (if x == k && b then 1 else 0)
  {
    assert (keys + [x])[..|keys|] == keys;
    assert (sel + [b])[..|sel|] == sel;
  }

  lemma {:induction false} HitsAbsent(keys: seq<Cell>, sel: seq<bool>, k: Cell)
    requires |keys| == |sel| && k !in keys
    ensures Hits(keys, sel, k) == 0
  {
    if keys != [] {
      var n := |keys| - 1;
      assert k !in keys[..n];
      HitsAbsent(keys[..n], sel[..n], k);
    }
  }

  /** A selected row makes its group non-empty. */
  lemma {:induction false} HitsPositive(keys: seq<Cell>, sel: seq<bool>, i: nat)
    requires |keys| == |sel| && i < |keys| && sel[i]
    ensures Hits(keys, sel, keys[i]) >= 1
  {
    var n := |keys| - 1;
    if i < n {
      assert keys[..n][i] == keys[i] && sel[..n][i];
      HitsPositive(keys[..n], sel[..n], i);
    }
  }

  /** Selecting fewer rows never counts more. */
  lemma {:induction false} HitsMonotone(keys: seq<Cell>, a: seq<bool>, b: seq<bool>, k: Cell)
    requires |keys| == |a| == |b|
    requires forall i :: 0 <= i < |keys| && a[i] ==> b[i]
    ensures Hits(keys, a, k) <= Hits(keys, b, k)
  {
    if keys != [] {
      var n := |keys| - 1;
      assert forall i :: 0 <= i < n && a[..n][i] ==> b[..n][i];
      HitsMonotone(keys[..n], a[..n], b[..n], k);
    }
  }

  lemma {:induction false} SumHitsSnoc(ks: seq<Cell>, keys: seq<Cell>, sel: seq<bool>, x: Cell, b: bool)
    requires |keys| == |sel| && NoDup(ks)
    ensures SumHits(ks, keys + [x], sel + [b]) == SumHits(ks, keys, sel) + (if b && x in ks then 1 else 0)
  {
    if ks != [] {
      HitsSnoc(keys, sel, x, b, ks[0]);
      NoDupTail(ks);
      SumHitsSnoc(ks[1..], keys, sel, x, b);
      assert x in ks <==> x == ks[0] || x in ks[1..] by {
        assert ks == [ks[0]] + ks[1..];
      }
    }
  }

  lemma {:induction false} SumHitsAppend(ks: seq<Cell>, k: Cell, keys: seq<Cell>, sel: seq<bool>)
    requires |keys| == |sel|
    ensures SumHits(ks + [k], keys, sel) == SumHits(ks, keys, sel) + Hits(keys, sel, k)
  {
    if ks != [] {
      assert (ks + [k])[1..] == ks[1..] + [k];
      SumHitsAppend(ks[1..], k, keys, sel);
    }
  }

  /** The groups partition the rows with a present key: summing any per-group count over all
      groups gives that count over the rows whose key is present, so each such row is counted
      in exactly one group. */
  lemma {:induction false} Partition(keys: seq<Cell>, sel: seq<bool>)
    requires |keys| == |sel|
    ensures SumHits(DistinctKeys(keys), keys, sel) == PresentHits(keys, sel)
  {
    if keys != [] {
      var n := |keys| - 1;
      var keys', sel', x, b := keys[..n], sel[..n], keys[n], sel[n];
      assert keys == keys' + [x] && sel == sel' + [b];
      var d := DistinctKeys(keys');
      Partition(keys', sel');
      SumHitsSnoc(d, keys', sel', x, b);
      if Present(x) && x !in d {
        assert x !in keys';
        HitsAbsent(keys', sel', x);
        HitsSnoc(keys', sel', x, b, x);
        SumHitsAppend(d, x, keys, sel);
      }
    }
  }

  /** With every row selected and every key present, every row is counted. */
  lemma {:induction false} PresentHitsEveryone(keys: seq<Cell>)
    requires forall i :: 0 <= i < |keys| ==> Present(keys[i])
    ensures PresentHits(keys, Everyone(|keys|)) == |keys|
  {
    if keys != [] {
      var n := |keys| - 1;
      assert Everyone(|keys|)[..n] == Everyone(n);
      assert forall i :: 0 <= i < n ==> keys[..n][i] == keys[i];
      PresentHitsEveryone(keys[..n]);
    }
  }

  /** Rows kept by the boolean mask `df[flags == True]`, by position. */
  function Mask(flags: seq<bool>): (kept: seq<nat>)
    ensures forall p: nat :: p in kept <==> p < |flags| && flags[p]
    ensures forall i, j :: 0 <= i < j < |kept| ==> kept[i] < kept[j]
  {
    if flags == [] then []
    else
      var n := |flags| - 1;
      var front := Mask(flags[..n]);
      assert forall i :: 0 <= i < |front| ==> front[i] < n by {
        forall i | 0 <= i < |front| ensures front[i] < n {
          assert front[i] in front;
        }
      }
      if flags[n] then front + [n] else front
  }

  /** Rows with a present key and a set flag are among the rows the mask keeps; when every key
      is present they are exactly those rows. */
  lemma {:induction false} PresentHitsWithinMask(keys: seq<Cell>, flags: seq<bool>)
    requires |keys| == |flags|
    ensures PresentHits(keys, flags) <= |Mask(flags)|
    ensures (forall i :: 0 <= i < |keys| ==> Present(keys[i])) ==> PresentHits(keys, flags) == |Mask(flags)|
  {
    if keys != [] {
      var n := |keys| - 1;
      PresentHitsWithinMask(keys[..n], flags[..n]);
    }
  }

  /** One row of the ratio table of questions 1 and 2: `multimodal_count` is the group's `sum`
      of the boolean column, `total_count` its `count` (the column has no NaN once coerced, so
      this is the group size) and `ratio` their quotient. */
  datatype RatioStat = RatioStat(key: Cell, multimodalCount: nat, totalCount: nat, ratio: real)

  function RatioOf(keys: seq<Cell>, flags: seq<bool>, k: Cell): (r: RatioStat)
    requires |keys| == |flags| && k in keys
    ensures r.key == k
    ensures r.totalCount == Hits(keys, Everyone(|keys|), k) && r.totalCount >= 1
    ensures r.multimodalCount == Hits(keys, flags, k) && r.multimodalCount <= r.totalCount
    ensures 0.0 <= r.ratio <= 1.0
    ensures r.ratio == (r.multimodalCount as real) / (r.totalCount as real)
  {
    var all := Everyone(|keys|);
    var i :| 0 <= i < |keys| && keys[i] == k;
    HitsPositive(keys, all, i);
    HitsMonotone(keys, flags, all, k);
    var mm, total := Hits(keys, flags, k), Hits(keys, all, k);
    QuotientBounds(mm as real, total as real, 0.0, 1.0);
    RatioStat(k, mm, total, (mm as real) / (total as real))
  }

  /** Rows keyed, position by position, by distinct keys: each key has a row and no two rows
      share a key. */
  lemma KeyedRows<S>(r: seq<S>, ks: seq<Cell>, key: S -> Cell)
    requires |r| == |ks| && NoDup(ks)
    requires forall i :: 0 <= i < |r| ==> key(r[i]) == ks[i]
    ensures forall k :: (exists i :: 0 <= i < |r| && key(r[i]) == k) <==> k in ks
    ensures forall i, j :: 0 <= i < j < |r| ==> key(r[i]) != key(r[j])
  {
    forall k | k in ks ensures exists i :: 0 <= i < |r| && key(r[i]) == k {
      var i :| 0 <= i < |ks| && ks[i] == k;
      assert key(r[i]) == k;
    }
  }

  function RatioRows(ks: seq<Cell>, keys: seq<Cell>, flags: seq<bool>): (r: seq<RatioStat>)
    requires |keys| == |flags| && forall k :: k in ks ==> k in keys
    ensures |r| == |ks| && forall i :: 0 <= i < |r| ==> r[i] == RatioOf(keys, flags, ks[i])
    ensures forall i :: 0 <= i < |r| ==> r[i].key == ks[i]
  {
    if ks == [] then [] else [RatioOf(keys, flags, ks[0])] + RatioRows(ks[1..], keys, flags)
  }

  /** `groupby(key).agg({flag: ['sum', 'count']})` with the ratio column added: one row per
      distinct present key, no key twice. */
  function RatioTable(keys: seq<Cell>, flags: seq<bool>): (r: seq<RatioStat>)
    requires |keys| == |flags|
    ensures |r| == |DistinctKeys(keys)|
    ensures forall k :: (exists i :: 0 <= i < |r| && r[i].key == k) <==> Present(k) && k in keys
    ensures forall i, j :: 0 <= i < j < |r| ==> r[i].key != r[j].key
    ensures NoDup(r)
    ensures forall i :: 0 <= i < |r| ==> r[i] == RatioOf(keys, flags, r[i].key)
  {
    var ks := DistinctKeys(keys);
    var r := RatioRows(ks, keys, flags);
    KeyedRows(r, ks, RatioKey);
    r
  }

  function RatioKey(s: RatioStat): (k: Cell) {
    s.key
  }

  function TotalCountOf(s: RatioStat): (n: nat) {
    s.totalCount
  }

  function MultimodalCountOf(s: RatioStat): (n: nat) {
    s.multimodalCount
  }

  lemma {:induction false} RatioRowsSums(ks: seq<Cell>, keys: seq<Cell>, flags: seq<bool>)
    requires |keys| == |flags| && forall k :: k in ks ==> k in keys
    ensures Total(RatioRows(ks, keys, flags), TotalCountOf) == SumHits(ks, keys, Everyone(|keys|))
    ensures Total(RatioRows(ks, keys, flags), MultimodalCountOf) == SumHits(ks, keys, flags)
  {
    if ks != [] {
      RatioRowsSums(ks[1..], keys, flags);
      assert RatioRows(ks, keys, flags)[1..] == RatioRows(ks[1..], keys, flags);
    }
  }

  /** Summed over the ratio table, `total_count` is the number of rows whose key is present and
      `multimodal_count` the number of those rows whose flag is set. */
  lemma RatioTableSums(keys: seq<Cell>, flags: seq<bool>)
    requires |keys| == |flags|
    ensures Total(RatioTable(keys, flags), TotalCountOf) == PresentHits(keys, Everyone(|keys|))
    ensures Total(RatioTable(keys, flags), MultimodalCountOf) == PresentHits(keys, flags)
  {
    RatioRowsSums(DistinctKeys(keys), keys, flags);
    Partition(keys, Everyone(|keys|));
    Partition(keys, flags);
  }

  /** Which rows hold a number in the score column. */
  function Scored(scores: seq<Option<real>>): (sel: seq<bool>)
    ensures |sel| == |scores| && forall i :: 0 <= i < |scores| ==> (sel[i] <==> scores[i].Some?)
  {
    seq(|scores|, i requires 0 <= i < |scores| => scores[i].Some?)
  }

  /** The numeric scores of group `k` in row order; NaN scores are left out. */
  function GroupScores(keys: seq<Cell>, scores: seq<Option<real>>, k: Cell): (vs: seq<real>)
    requires |keys| == |scores|
    ensures |vs| == Hits(keys, Scored(scores), k)
  {
    if keys == [] then []
    else
      var n := |keys| - 1;
      var front := GroupScores(keys[..n], scores[..n], k);
      assert Scored(scores[..n]) == Scored(scores)[..n];
      if keys[n] == k && scores[n].Some? then front + [scores[n].value] else front
  }

  /** The values of `GroupScores` are exactly the numeric scores of the rows keyed `k`. */
  lemma {:induction false} GroupScoresMembers(keys: seq<Cell>, scores: seq<Option<real>>, k: Cell, x: real)
    requires |keys| == |scores|
    ensures x in GroupScores(keys, scores, k) <==>
      exists i :: 0 <= i < |keys| && keys[i] == k && scores[i] == Some(x)
  {
    if keys != [] {
      var n := |keys| - 1;
      GroupScoresMembers(keys[..n], scores[..n], k, x);
      forall i | 0 <= i < n ensures keys[..n][i] == keys[i] && scores[..n][i] == scores[i] {
      }
      if x in GroupScores(keys, scores, k) && x !in GroupScores(keys[..n], scores[..n], k) {
        assert keys[n] == k && scores[n] == Some(x);
      }
    }
  }

  /** Which rows hold exactly the score `x`. */
  function ScoredAs(scores: seq<Option<real>>, x: real): (sel: seq<bool>)
    ensures |sel| == |scores| && forall i :: 0 <= i < |scores| ==> (sel[i] <==> scores[i] == Some(x))
  {
    seq(|scores|, i requires 0 <= i < |scores| => scores[i] == Some(x))
  }

  /** `GroupScores` holds each number exactly as often as the rows keyed `k` hold it: it is the
      group's scores with their multiplicities, which is what the median is taken of. */
  lemma {:induction false} GroupScoresCounts(keys: seq<Cell>, scores: seq<Option<real>>, k: Cell, x: real)
    requires |keys| == |scores|
    ensures multiset(GroupScores(keys, scores, k))[x] == Hits(keys, ScoredAs(scores, x), k)
  {
    if keys != [] {
      var n := |keys| - 1;
      GroupScoresCounts(keys[..n], scores[..n], k, x);
      assert ScoredAs(scores[..n], x) == ScoredAs(scores, x)[..n];
    }
  }

  /** Whether group `k` holds at least one numeric score. */
  predicate HasScore(keys: seq<Cell>, scores: seq<Option<real>>, k: Cell)
    requires |keys| == |scores|
  {
    exists i :: 0 <= i < |keys| && keys[i] == k && scores[i].Some?
  }

  /** A group has a numeric score exactly when it counts at least one scored row. */
  lemma {:induction false} HasScoreHits(keys: seq<Cell>, scores: seq<Option<real>>, k: Cell)
    requires |keys| == |scores|
    ensures HasScore(keys, scores, k) <==> Hits(keys, Scored(scores), k) > 0
  {
    if HasScore(keys, scores, k) {
      var i :| 0 <= i < |keys| && keys[i] == k && scores[i].Some?;
      HitsPositive(keys, Scored(scores), i);
    } else if keys != [] {
      var n := |keys| - 1;
      assert Scored(scores[..n]) == Scored(scores)[..n];
      forall i | 0 <= i < n ensures keys[..n][i] == keys[i] && scores[..n][i] == scores[i] {
      }
      HasScoreHits(keys[..n], scores[..n], k);
    }
  }

  /** One row of the table of question 3: the `median`, `count` and `mean` of a group's
      numeric scores. A group whose scores are all NaN keeps its row, with count 0 and a NaN
      (`None`) median and mean. */
  datatype ScoreStat = ScoreStat(key: Cell, median: Option<real>, count: nat, mean: Option<real>)

  function ScoreOf(keys: seq<Cell>, scores: seq<Option<real>>, k: Cell): (r: ScoreStat)
    requires |keys| == |scores|
    ensures r.key == k && r.count == Hits(keys, Scored(scores), k)
    ensures r.median.Some? <==> HasScore(keys, scores, k)
    ensures r.mean.Some? <==> HasScore(keys, scores, k)
    ensures HasScore(keys, scores, k) <==> r.count > 0
    ensures r.median.Some? ==> r.median.value == Median(GroupScores(keys, scores, k))
    ensures r.mean.Some? ==> r.mean.value == Mean(GroupScores(keys, scores, k))
  {
    HasScoreHits(keys, scores, k);
    var vs := GroupScores(keys, scores, k);
    if |vs| == 0 then ScoreStat(k, None, 0, None)
    else ScoreStat(k, Some(Median(vs)), |vs|, Some(Mean(vs)))
  }

  function ScoreRows(ks: seq<Cell>, keys: seq<Cell>, scores: seq<Option<real>>): (r: seq<ScoreStat>)
    requires |keys| == |scores|
    ensures |r| == |ks| && forall i :: 0 <= i < |r| ==> r[i] == ScoreOf(keys, scores, ks[i])
    ensures forall i :: 0 <= i < |r| ==> r[i].key == ks[i]
  {
    if ks == [] then [] else [ScoreOf(keys, scores, ks[0])] + ScoreRows(ks[1..], keys, scores)
  }

  /** `groupby(key)[score].agg(['median', 'count', 'mean'])`: one row per distinct present key,
      no key twice. */
  function ScoreTable(keys: seq<Cell>, scores: seq<Option<real>>): (r: seq<ScoreStat>)
    requires |keys| == |scores|
    ensures |r| == |DistinctKeys(keys)|
    ensures forall k :: (exists i :: 0 <= i < |r| && r[i].key == k) <==> Present(k) && k in keys
    ensures forall i, j :: 0 <= i < j < |r| ==> r[i].key != r[j].key
    ensures NoDup(r)
    ensures forall i :: 0 <= i < |r| ==> r[i] == ScoreOf(keys, scores, r[i].key)
  {
    var ks := DistinctKeys(keys);
    var r := ScoreRows(ks, keys, scores);
    KeyedRows(r, ks, ScoreKey);
    r
  }

  function ScoreKey(s: ScoreStat): (k: Cell) {
    s.key
  }

  function CountOf(s: ScoreStat): (n: nat) {
    s.count
  }

  lemma {:induction false} ScoreRowsCount(ks: seq<Cell>, keys: seq<Cell>, scores: seq<Option<real>>)
    requires |keys| == |scores|
    ensures Total(ScoreRows(ks, keys, scores), CountOf) == SumHits(ks, keys, Scored(scores))
  {
    if ks != [] {
      ScoreRowsCount(ks[1..], keys, scores);
      assert ScoreRows(ks, keys, scores)[1..] == ScoreRows(ks[1..], keys, scores);
    }
  }

  /** Summed over the table of question 3, `count` is the number of rows with a present key and
      a numeric score: a NaN score is left out of every group's count. */
  lemma ScoreTableCount(keys: seq<Cell>, scores: seq<Option<real>>)
    requires |keys| == |scores|
    ensures Total(ScoreTable(keys, scores), CountOf) == PresentHits(keys, Scored(scores))
  {
    ScoreRowsCount(DistinctKeys(keys), keys, scores);
    Partition(keys, Scored(scores));
  }
}
