/** The analysis script's result: the `results` dictionary that is written to `results.json`,
    with the top three groups of each question. */
module Reports {
  import opened Cells
  import opened Tables
  import opened Frames
  import opened Ranking
  import opened Grouping
  import opened Statistics

  const AgentTypeColumn := "agent_type"
  const ModelArchitectureColumn := "model_architecture"
  const TaskCategoryColumn := "task_category"

  const Question1Title := "Top 3 Agent Types by Multimodal Capability Ratio"
  const Question2Title := "Top 3 Model Architectures by Multimodal Capability Ratio"
  const Question3Title := "Top 3 Task Categories by Median Bias Detection Score"

  /** `head(3)`. */
  const TopN: nat := 3

  /** One element of `question1.data` or `question2.data`. */
  datatype RatioEntry = RatioEntry(name: Cell, ratio: real, multimodalCount: nat, totalCount: nat)

  /** One element of `question3.data`; `float(NaN)` is kept as `None`. */
  datatype ScoreEntry = ScoreEntry(name: Cell, medianScore: Option<real>, count: nat)

  datatype Section<E> = Section(title: string, data: seq<E>)

  datatype Report = Report(
    totalRecords: nat,
    question1: Section<RatioEntry>,
    question2: Section<RatioEntry>,
    question3: Section<ScoreEntry>)

  /** The coerced multimodal column as the selector `sum` counts. */
  function Flags(col: seq<Cell>): (flags: seq<bool>)
    ensures |flags| == |col| && forall i :: 0 <= i < |col| ==> (flags[i] <==> col[i] == Bool(true))
  {
    seq(|col|, i requires 0 <= i < |col| => col[i] == Bool(true))
  }

  /** The coerced score column as numbers, NaN as `None`. */
  function Scores(col: seq<Cell>): (scores: seq<Option<real>>)
    ensures |scores| == |col| && forall i :: 0 <= i < |col| ==> scores[i] == Score(col[i])
  {
    seq(|col|, i requires 0 <= i < |col| => Score(col[i]))
  }

  /** The sort keys: `ratio`, and `median_bias_score`, which is NaN on a group without a number. */
  function RatioMeasure(s: RatioStat): (x: real) {
    s.ratio
  }

  predicate HasMedian(s: ScoreStat) {
    s.median.Some?
  }

  function MedianMeasure(s: ScoreStat): (x: real) {
    if s.median.Some? then s.median.value else 0.0
  }

  /** The ratio table sorted by ratio, highest first. */
  function RankedRatios(keys: seq<Cell>, flags: seq<bool>): (r: seq<RatioStat>)
    requires |keys| == |flags|
    ensures RatioRanking(keys, flags, r)
  {
    SortDesc(RatioTable(keys, flags), RatioMeasure)
  }

  /** The table of question 3 sorted by median score, highest first, NaN medians last. */
  function RankedScores(keys: seq<Cell>, scores: seq<Option<real>>): (r: seq<ScoreStat>)
    requires |keys| == |scores|
    ensures ScoreRanking(keys, scores, r)
  {
    SortDescNaLast(ScoreTable(keys, scores), HasMedian, MedianMeasure)
  }

  function RatioEntries(stats: seq<RatioStat>): (r: seq<RatioEntry>)
    ensures |r| == |stats|
    ensures forall i :: 0 <= i < |r| ==>
      && r[i].name == stats[i].key && r[i].ratio == stats[i].ratio
      && r[i].multimodalCount == stats[i].multimodalCount && r[i].totalCount == stats[i].totalCount
  {
    seq(|stats|, i requires 0 <= i < |stats| =>
      RatioEntry(stats[i].key, stats[i].ratio, stats[i].multimodalCount, stats[i].totalCount))
  }

  function ScoreEntries(stats: seq<ScoreStat>): (r: seq<ScoreEntry>)
    ensures |r| == |stats|
    ensures forall i :: 0 <= i < |r| ==>
      && r[i].name == stats[i].key && r[i].medianScore == stats[i].median && r[i].count == stats[i].count
  {
    seq(|stats|, i requires 0 <= i < |stats| => ScoreEntry(stats[i].key, stats[i].median, stats[i].count))
  }

  /** Two rankings of the same table of question 3 list the same median at every position: the
      medians reported do not depend on how ties are broken. */
  lemma RankedMediansUnique(a: seq<ScoreStat>, b: seq<ScoreStat>)
    requires multiset(a) == multiset(b)
    requires NaLast(a, HasMedian, MedianMeasure) && NaLast(b, HasMedian, MedianMeasure)
    ensures |a| == |b|
    ensures forall i :: 0 <= i < |a| ==> a[i].median == b[i].median
  {
    NaLastMeasuresUnique(a, b, HasMedian, MedianMeasure);
    forall i | 0 <= i < |a| ensures a[i].median == b[i].median {
      assert HasMedian(a[i]) == HasMedian(b[i]);
    }
  }

  /** Any order a descending sort of the ratio table may produce: the table's rows, each as often
      as in the table, ratios never increasing. Rows with equal ratios may come in any order, and
      the table itself may list its groups in any order. */
  predicate RatioRanking(keys: seq<Cell>, flags: seq<bool>, sorted: seq<RatioStat>)
    requires |keys| == |flags|
  {
    multiset(sorted) == multiset(RatioTable(keys, flags)) && NonIncreasing(sorted, RatioMeasure)
  }

  /** Any order a descending sort of the table of question 3 with NaN last may produce. */
  predicate ScoreRanking(keys: seq<Cell>, scores: seq<Option<real>>, sorted: seq<ScoreStat>)
    requires |keys| == |scores|
  {
    multiset(sorted) == multiset(ScoreTable(keys, scores)) && NaLast(sorted, HasMedian, MedianMeasure)
  }

  /** The `data` list of question 1 or 2 drawn from the ranking `sorted`. */
  function RatioTop(sorted: seq<RatioStat>): (data: seq<RatioEntry>) {
    RatioEntries(Head(sorted, TopN))
  }

  /** The `data` list of question 3 drawn from the ranking `sorted`. */
  function ScoreTop(sorted: seq<ScoreStat>): (data: seq<ScoreEntry>) {
    ScoreEntries(Head(sorted, TopN))
  }

  /** The `data` list of question 1 or 2 for grouping key column `keys`. */
  function RatioSection(keys: seq<Cell>, flags: seq<bool>): (data: seq<RatioEntry>)
    requires |keys| == |flags|
    ensures |data| == (if TopN < |DistinctKeys(keys)| then TopN else |DistinctKeys(keys)|)
    ensures |data| <= |RankedRatios(keys, flags)|
    ensures forall i :: 0 <= i < |data| ==> var g := RankedRatios(keys, flags)[i];
      data[i] == RatioEntry(g.key, g.ratio, g.multimodalCount, g.totalCount)
  {
    RatioSectionOrder(keys, flags, RankedRatios(keys, flags));
    RatioTop(RankedRatios(keys, flags))
  }

  /** The `data` list of question 3 for grouping key column `keys`. */
  function ScoreSection(keys: seq<Cell>, scores: seq<Option<real>>): (data: seq<ScoreEntry>)
    requires |keys| == |scores|
    ensures |data| == (if TopN < |DistinctKeys(keys)| then TopN else |DistinctKeys(keys)|)
    ensures |data| <= |RankedScores(keys, scores)|
    ensures forall i :: 0 <= i < |data| ==> var g := RankedScores(keys, scores)[i];
      data[i] == ScoreEntry(g.key, g.median, g.count)
  {
    ScoreSectionOrder(keys, scores, RankedScores(keys, scores));
    ScoreTop(RankedScores(keys, scores))
  }

  /** Two rows of a table with distinct keys that are different rows have different keys. */
  lemma DistinctKeysInTop<S>(table: seq<S>, top: seq<S>, key: S -> Cell)
    requires forall i, j :: 0 <= i < j < |table| ==> key(table[i]) != key(table[j])
    requires NoDup(top) && forall t :: t in top ==> t in table
    ensures forall i, j :: 0 <= i < j < |top| ==> key(top[i]) != key(top[j])
  {
    forall i, j | 0 <= i < j < |top| ensures key(top[i]) != key(top[j]) {
      assert top[i] in top && top[j] in top;
      var p :| 0 <= p < |table| && table[p] == top[i];
      var q :| 0 <= q < |table| && table[q] == top[j];
      assert p != q;
    }
  }

  /** Questions 1 and 2 report min(3, number of groups) entries, ratios non-increasing and no
      group twice. Stated for every ranking `sorted` of the ratio table (`RankedRatios` is one), so
      it holds whatever order the groups and tied ratios are given. */
  lemma RatioSectionOrder(keys: seq<Cell>, flags: seq<bool>, sorted: seq<RatioStat>)
    requires |keys| == |flags| && RatioRanking(keys, flags, sorted)
    ensures var data := RatioTop(sorted);
      && |data| == (if TopN < |DistinctKeys(keys)| then TopN else |DistinctKeys(keys)|)
      && (forall i, j :: 0 <= i < j < |data| ==> data[i].ratio >= data[j].ratio)
      && (forall i, j :: 0 <= i < j < |data| ==> data[i].name != data[j].name)
  {
    var table := RatioTable(keys, flags);
    var top := Head(sorted, TopN);
    var data := RatioTop(sorted);
    TopOfRanking(table, sorted, RatioMeasure, TopN);
    DistinctKeysInTop(table, top, RatioKey);
    forall i, j | 0 <= i < j < |data| ensures data[i].ratio >= data[j].ratio && data[i].name != data[j].name {
      assert RatioMeasure(top[i]) >= RatioMeasure(top[j]);
      assert RatioKey(top[i]) != RatioKey(top[j]);
    }
  }

  /** Each entry of question 1 or 2 is a present key of the column with the true number of
      flagged rows and of all rows of its group, and their quotient, for every ranking `sorted`. */
  lemma RatioSectionCounts(keys: seq<Cell>, flags: seq<bool>, sorted: seq<RatioStat>)
    requires |keys| == |flags| && RatioRanking(keys, flags, sorted)
    ensures var data := RatioTop(sorted);
      forall i :: 0 <= i < |data| ==>
        && Present(data[i].name) && data[i].name in keys
        && data[i].multimodalCount == Hits(keys, flags, data[i].name)
        && data[i].totalCount == Hits(keys, Everyone(|keys|), data[i].name)
        && 1 <= data[i].totalCount && data[i].multimodalCount <= data[i].totalCount
        && 0.0 <= data[i].ratio <= 1.0
        && data[i].ratio == (data[i].multimodalCount as real) / (data[i].totalCount as real)
  {
    var table := RatioTable(keys, flags);
    var top := Head(sorted, TopN);
    TopOfRanking(table, sorted, RatioMeasure, TopN);
    var data := RatioTop(sorted);
    forall i | 0 <= i < |data|
      ensures && Present(data[i].name) && data[i].name in keys
        && data[i].multimodalCount == Hits(keys, flags, data[i].name)
        && data[i].totalCount == Hits(keys, Everyone(|keys|), data[i].name)
        && 1 <= data[i].totalCount && data[i].multimodalCount <= data[i].totalCount
        && 0.0 <= data[i].ratio <= 1.0
        && data[i].ratio == (data[i].multimodalCount as real) / (data[i].totalCount as real)
    {
      assert top[i] in top;
      var p :| 0 <= p < |table| && table[p] == top[i];
      var k := table[p].key;
      assert Present(k) && k in keys by {
        assert exists j :: 0 <= j < |table| && table[j].key == k;
      }
      assert top[i] == RatioOf(keys, flags, k);
      RatioEntryFacts(keys, flags, k, data[i]);
    }
  }

  lemma RatioEntryFacts(keys: seq<Cell>, flags: seq<bool>, k: Cell, e: RatioEntry)
    requires |keys| == |flags| && k in keys
    requires var g := RatioOf(keys, flags, k);
      e == RatioEntry(k, g.ratio, g.multimodalCount, g.totalCount)
    ensures && e.multimodalCount == Hits(keys, flags, e.name)
      && e.totalCount == Hits(keys, Everyone(|keys|), e.name)
      && 1 <= e.totalCount && e.multimodalCount <= e.totalCount
      && 0.0 <= e.ratio <= 1.0
      && e.ratio == (e.multimodalCount as real) / (e.totalCount as real)
  {
    var g := RatioOf(keys, flags, k);
    assert e.name == k && e.ratio == g.ratio && e.totalCount == g.totalCount && e.multimodalCount == g.multimodalCount;
  }

  /** No group left out of question 1 or 2 has a higher ratio than a reported one, for every
      ranking `sorted`. */
  lemma RatioSectionBest(keys: seq<Cell>, flags: seq<bool>, sorted: seq<RatioStat>, k: Cell)
    requires |keys| == |flags| && RatioRanking(keys, flags, sorted) && Present(k) && k in keys
    requires forall j :: 0 <= j < |RatioTop(sorted)| ==> RatioTop(sorted)[j].name != k
    ensures var data := RatioTop(sorted);
      forall i :: 0 <= i < |data| ==> RatioOf(keys, flags, k).ratio <= data[i].ratio
  {
    var table := RatioTable(keys, flags);
    var top := Head(sorted, TopN);
    TopOfRanking(table, sorted, RatioMeasure, TopN);
    var p :| 0 <= p < |table| && table[p].key == k;
    assert table[p] in table;
    forall q | 0 <= q < |top| ensures top[q] != table[p] {
      assert RatioTop(sorted)[q].name == top[q].key;
    }
    forall i | 0 <= i < |top| ensures RatioMeasure(table[p]) <= RatioMeasure(top[i]) {
      assert top[i] in top;
    }
  }

  /** Question 3 reports min(3, number of groups) entries, no group twice, numeric medians
      non-increasing and before every NaN one. Stated for every ranking `sorted` of the table
      (`RankedScores` is one), so it holds whatever order the groups and tied medians are given. */
  lemma ScoreSectionOrder(keys: seq<Cell>, scores: seq<Option<real>>, sorted: seq<ScoreStat>)
    requires |keys| == |scores| && ScoreRanking(keys, scores, sorted)
    ensures var data := ScoreTop(sorted);
      && |data| == (if TopN < |DistinctKeys(keys)| then TopN else |DistinctKeys(keys)|)
      && (forall i, j :: 0 <= i < j < |data| && data[j].medianScore.Some? ==>
            data[i].medianScore.Some? && data[i].medianScore.value >= data[j].medianScore.value)
      && (forall i, j :: 0 <= i < j < |data| ==> data[i].name != data[j].name)
  {
    var table := ScoreTable(keys, scores);
    var top := Head(sorted, TopN);
    var data := ScoreTop(sorted);
    TopOfNaLastRanking(table, sorted, HasMedian, MedianMeasure, TopN);
    DistinctKeysInTop(table, top, ScoreKey);
    forall i, j | 0 <= i < j < |data| ensures data[i].name != data[j].name {
      assert ScoreKey(top[i]) != ScoreKey(top[j]);
    }
    forall i, j | 0 <= i < j < |data| && data[j].medianScore.Some?
      ensures data[i].medianScore.Some? && data[i].medianScore.value >= data[j].medianScore.value
    {
      assert HasMedian(top[j]);
      assert HasMedian(top[i]) && MedianMeasure(top[i]) >= MedianMeasure(top[j]);
    }
  }

  /** Each entry of question 3 is a present key of the column with its group's count of numeric
      scores and their median, NaN exactly when that count is 0, for every ranking `sorted`. */
  lemma ScoreSectionCounts(keys: seq<Cell>, scores: seq<Option<real>>, sorted: seq<ScoreStat>)
    requires |keys| == |scores| && ScoreRanking(keys, scores, sorted)
    ensures var data := ScoreTop(sorted);
      forall i :: 0 <= i < |data| ==>
        && Present(data[i].name) && data[i].name in keys
        && data[i].count == Hits(keys, Scored(scores), data[i].name)
        && (data[i].medianScore.Some? <==> data[i].count > 0)
        && (data[i].medianScore.Some? ==>
              data[i].medianScore.value == Median(GroupScores(keys, scores, data[i].name)))
  {
    var table := ScoreTable(keys, scores);
    var top := Head(sorted, TopN);
    TopOfNaLastRanking(table, sorted, HasMedian, MedianMeasure, TopN);
    var data := ScoreTop(sorted);
    forall i | 0 <= i < |data|
      ensures && Present(data[i].name) && data[i].name in keys
        && data[i].count == Hits(keys, Scored(scores), data[i].name)
        && (data[i].medianScore.Some? <==> data[i].count > 0)
        && (data[i].medianScore.Some? ==>
              data[i].medianScore.value == Median(GroupScores(keys, scores, data[i].name)))
    {
      assert top[i] in top;
      var p :| 0 <= p < |table| && table[p] == top[i];
      var k := table[p].key;
      assert Present(k) && k in keys by {
        assert exists j :: 0 <= j < |table| && table[j].key == k;
      }
      var g := ScoreOf(keys, scores, k);
      assert top[i] == g;
      assert data[i] == ScoreEntry(k, g.median, g.count);
    }
  }

  /** No group left out of question 3 has a numeric median that a reported entry lacks or
      exceeds, for every ranking `sorted`. */
  lemma ScoreSectionBest(keys: seq<Cell>, scores: seq<Option<real>>, sorted: seq<ScoreStat>, k: Cell)
    requires |keys| == |scores| && ScoreRanking(keys, scores, sorted) && Present(k) && k in keys && ScoreOf(keys, scores, k).median.Some?
    requires forall j :: 0 <= j < |ScoreTop(sorted)| ==> ScoreTop(sorted)[j].name != k
    ensures var data := ScoreTop(sorted);
      forall i :: 0 <= i < |data| ==>
        data[i].medianScore.Some? && ScoreOf(keys, scores, k).median.value <= data[i].medianScore.value
  {
    var table := ScoreTable(keys, scores);
    var top := Head(sorted, TopN);
    TopOfNaLastRanking(table, sorted, HasMedian, MedianMeasure, TopN);
    var p :| 0 <= p < |table| && table[p].key == k;
    assert table[p] in multiset(sorted) && HasMedian(table[p]);
    forall q | 0 <= q < |top| ensures top[q] != table[p] {
      assert ScoreTop(sorted)[q].name == top[q].key;
    }
    assert table[p] !in top;
    var data := ScoreTop(sorted);
    forall i | 0 <= i < |data|
      ensures data[i].medianScore.Some? && ScoreOf(keys, scores, k).median.value <= data[i].medianScore.value
    {
      assert top[i] in top;
      NaLastLeftOut(sorted, HasMedian, MedianMeasure, TopN, table[p], top[i]);
      assert data[i].medianScore == top[i].median;
    }
  }

  /** The first of `names` that labels no column, if any: the KeyError a script that looks the
      columns up in this order raises. */
  function FirstMissing(labels: seq<Cell>, names: seq<string>): (r: Option<string>)
    ensures r.None? <==> forall n :: n in names ==> Str(n) in labels
    ensures r.Some? ==> exists i :: (0 <= i < |names| && names[i] == r.value && Str(r.value) !in labels &&
      forall j :: 0 <= j < i ==> Str(names[j]) in labels)
  {
    if names == [] then None
    else if Str(names[0]) !in labels then Some(names[0])
    else
      var rest := FirstMissing(labels, names[1..]);
      assert forall n :: n in names ==> n == names[0] || n in names[1..];
      if rest.Some? then
        var i :| 0 <= i < |names[1..]| && names[1..][i] == rest.value && Str(rest.value) !in labels
          && forall j :: 0 <= j < i ==> Str(names[1..][j]) in labels;
        assert names[i + 1] == rest.value;
        assert forall j :: 1 <= j < i + 1 ==> names[j] == names[1..][j - 1];
        rest
      else rest
  }

  /** The columns the report groups by or aggregates, in the order the script looks them up. */
  const ReportColumns := [AgentTypeColumn, MultimodalColumn, ModelArchitectureColumn, TaskCategoryColumn, BiasColumn]

  /** Every column the analysis script looks up, in order, from cleaning to the report. */
  const ScriptColumns := [MultimodalColumn, BiasColumn, AgentTypeColumn, ModelArchitectureColumn, TaskCategoryColumn]

  /** `FirstMissing` on a five-name list, spelled out as the chain of lookups. */
  lemma FirstMissingFive(labels: seq<Cell>, a: string, b: string, c: string, d: string, e: string)
    ensures FirstMissing(labels, [a, b, c, d, e]) ==
      if Str(a) !in labels then Some(a)
      else if Str(b) !in labels then Some(b)
      else if Str(c) !in labels then Some(c)
      else if Str(d) !in labels then Some(d)
      else if Str(e) !in labels then Some(e)
      else None
  {
    FirstMissingStep(labels, [a, b, c, d, e]);
    FirstMissingStep(labels, [b, c, d, e]);
    FirstMissingStep(labels, [c, d, e]);
    FirstMissingStep(labels, [d, e]);
    FirstMissingStep(labels, [e]);
    assert [a, b, c, d, e][1..] == [b, c, d, e] && [b, c, d, e][1..] == [c, d, e];
    assert [c, d, e][1..] == [d, e] && [d, e][1..] == [e] && [e][1..] == [];
  }

  lemma FirstMissingStep(labels: seq<Cell>, names: seq<string>)
    requires |names| > 0
    ensures FirstMissing(labels, names) ==
      if Str(names[0]) !in labels then Some(names[0]) else FirstMissing(labels, names[1..])
  {
  }

  /** Lines 63-167 of the analysis script on the cleaned frame `t`: the three grouped tables,
      their top three rows and the `results` dictionary. A missing column raises KeyError at the
      first lookup of it; otherwise question 1 ranks the agent types, question 2 the model
      architectures, both by the ratio of multimodal rows, and question 3 the task categories by
      median bias score. */
  function ReportFrom(t: Table): (r: Result<Report>)
    requires t.Valid()
    ensures r.Ok? <==> FirstMissing(t.labels, ReportColumns).None?
    ensures r.Err? ==> r.error == KeyError(FirstMissing(t.labels, ReportColumns).value)
    ensures r.Ok? ==>
      && r.value.totalRecords == t.height
      && r.value.question1.title == Question1Title
      && r.value.question2.title == Question2Title
      && r.value.question3.title == Question3Title
    ensures r.Ok? ==>
      && Column(t, AgentTypeColumn).Ok? && Column(t, MultimodalColumn).Ok?
      && Column(t, ModelArchitectureColumn).Ok? && Column(t, TaskCategoryColumn).Ok?
      && Column(t, BiasColumn).Ok?
      && r.value.question1.data ==
           RatioSection(Column(t, AgentTypeColumn).value, Flags(Column(t, MultimodalColumn).value))
      && r.value.question2.data ==
           RatioSection(Column(t, ModelArchitectureColumn).value, Flags(Column(t, MultimodalColumn).value))
      && r.value.question3.data ==
           ScoreSection(Column(t, TaskCategoryColumn).value, Scores(Column(t, BiasColumn).value))
  {
    FirstMissingFive(t.labels, AgentTypeColumn, MultimodalColumn, ModelArchitectureColumn,
      TaskCategoryColumn, BiasColumn);
    var agents :- Column(t, AgentTypeColumn);
    var flags :- Column(t, MultimodalColumn);
    var models :- Column(t, ModelArchitectureColumn);
    var tasks :- Column(t, TaskCategoryColumn);
    var scores :- Column(t, BiasColumn);
    Ok(Report(
      t.height,
      Section(Question1Title, RatioSection(agents, Flags(flags))),
      Section(Question2Title, RatioSection(models, Flags(flags))),
      Section(Question3Title, ScoreSection(tasks, Scores(scores)))))
  }

  /** The whole analysis script on the raw sheet: cleaning, then the report. */
  function ReportOf(sheet: Table, parse: string -> Option<real>): (r: Result<Report>)
    requires sheet.Valid()
    ensures r.Err? ==> r.error == NoHeaderRow || (r.error.KeyError? && r.error.column in ScriptColumns)
    ensures r.Ok? ==> r.value.totalRecords == sheet.height - 1
  {
    CleanFacts(sheet, parse);
    var t :- Clean(sheet, parse);
    ReportFrom(t)
  }

  /** The script fails exactly when the sheet has no header row or the header lacks one of the
      five columns it uses, reporting the first one it looks up; otherwise `total_records` is
      the number of data rows, one fewer than the sheet's rows. */
  lemma {:induction false} ReportOfFacts(sheet: Table, parse: string -> Option<real>)
    requires sheet.Valid()
    ensures sheet.height == 0 ==> ReportOf(sheet, parse) == Err(NoHeaderRow)
    ensures sheet.height > 0 ==>
      var missing := FirstMissing(Row(sheet, 0), ScriptColumns);
      && (missing.Some? ==> ReportOf(sheet, parse) == Err(KeyError(missing.value)))
      && (missing.None? ==> ReportOf(sheet, parse).Ok?)
    ensures ReportOf(sheet, parse).Ok? ==> ReportOf(sheet, parse).value.totalRecords == sheet.height - 1
  {
    CleanFacts(sheet, parse);
    if sheet.height > 0 {
      FirstMissingFive(Row(sheet, 0), MultimodalColumn, BiasColumn, AgentTypeColumn,
        ModelArchitectureColumn, TaskCategoryColumn);
      FirstMissingFive(Row(sheet, 0), AgentTypeColumn, MultimodalColumn, ModelArchitectureColumn,
        TaskCategoryColumn, BiasColumn);
    }
  }

  /** The analysis script as it runs: load and clean the frame in place, then build the report. */
  method Analyze(sheet: Table, parse: string -> Option<real>) returns (r: Result<Report>)
    requires sheet.Valid()
    ensures r == ReportOf(sheet, parse)
  {
    var cleaned := LoadAndClean(sheet, parse);
    if cleaned.Err? {
      return Err(cleaned.error);
    }
    r := ReportFrom(cleaned.value);
  }
}
