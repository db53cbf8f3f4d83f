/** The exploration script: the same cleaning and grouping as the analysis, printed in full
    instead of exported, plus the number of multimodal rows and the mean score of each task
    category. */
module Exploration {
  import opened Cells
  import opened Tables
  import opened Frames
  import opened Ranking
  import opened Grouping
  import opened Statistics
  import opened Reports

  /** What the exploration script prints: the frame's shape, the number of rows whose multimodal
      flag is True, each grouped table sorted in full and its top three rows. */
  datatype Exploration = Exploration(
    records: nat,
    width: nat,
    multimodalAgents: nat,
    agentTypes: seq<RatioStat>,
    topAgentTypes: seq<RatioStat>,
    modelArchitectures: seq<RatioStat>,
    topModelArchitectures: seq<RatioStat>,
    taskCategories: seq<ScoreStat>,
    topTaskCategories: seq<ScoreStat>)

  /** The columns the exploration looks up after cleaning, in order. */
  const ExploreColumns := [MultimodalColumn, AgentTypeColumn, ModelArchitectureColumn, TaskCategoryColumn, BiasColumn]

  /** Lines 22-74 of the exploration script on the cleaned frame `t`. */
  function ExploreFrom(t: Table): (r: Result<Exploration>)
    requires t.Valid()
    ensures r.Ok? <==> FirstMissing(t.labels, ExploreColumns).None?
    ensures r.Err? ==> r.error == KeyError(FirstMissing(t.labels, ExploreColumns).value)
    ensures r.Ok? ==> r.value.records == t.height && r.value.width == |t.labels|
    ensures r.Ok? ==> (Str(MultimodalColumn) in t.labels && Str(AgentTypeColumn) in t.labels
      && Str(ModelArchitectureColumn) in t.labels && Str(TaskCategoryColumn) in t.labels
      && Str(BiasColumn) in t.labels)
  {
    FirstMissingFive(t.labels, MultimodalColumn, AgentTypeColumn, ModelArchitectureColumn,
      TaskCategoryColumn, BiasColumn);
    var flags :- Column(t, MultimodalColumn);
    var agents :- Column(t, AgentTypeColumn);
    var models :- Column(t, ModelArchitectureColumn);
    var tasks :- Column(t, TaskCategoryColumn);
    var scores :- Column(t, BiasColumn);
    var agentTypes := RankedRatios(agents, Flags(flags));
    var modelArchitectures := RankedRatios(models, Flags(flags));
    var taskCategories := RankedScores(tasks, Scores(scores));
    Ok(Exploration(
      t.height, |t.labels|, |Mask(Flags(flags))|,
      agentTypes, Head(agentTypes, TopN),
      modelArchitectures, Head(modelArchitectures, TopN),
      taskCategories, Head(taskCategories, TopN)))
  }

  /** The fields of a successful exploration, column by column. */
  lemma ExploreFields(t: Table, e: Exploration)
    requires t.Valid() && ExploreFrom(t) == Ok(e)
    ensures Column(t, MultimodalColumn).Ok? && Column(t, AgentTypeColumn).Ok?
    ensures Column(t, ModelArchitectureColumn).Ok? && Column(t, TaskCategoryColumn).Ok?
    ensures Column(t, BiasColumn).Ok?
    ensures var flags := Flags(Column(t, MultimodalColumn).value);
      var agents := Column(t, AgentTypeColumn).value;
      var models := Column(t, ModelArchitectureColumn).value;
      var tasks := Column(t, TaskCategoryColumn).value;
      var scores := Scores(Column(t, BiasColumn).value);
      && e.multimodalAgents == |Mask(flags)|
      && e.agentTypes == RankedRatios(agents, flags)
      && e.topAgentTypes == Head(e.agentTypes, TopN)
      && e.modelArchitectures == RankedRatios(models, flags)
      && e.topModelArchitectures == Head(e.modelArchitectures, TopN)
      && e.taskCategories == RankedScores(tasks, scores)
      && e.topTaskCategories == Head(e.taskCategories, TopN)
  {
  }

  /** The whole exploration script on the raw sheet. */
  function ExploreOf(sheet: Table, parse: string -> Option<real>): (r: Result<Exploration>)
    requires sheet.Valid()
    ensures r.Err? ==> r.error == NoHeaderRow || (r.error.KeyError? && r.error.column in ExploreColumns)
    ensures r.Ok? ==> r.value.records == sheet.height - 1 && r.value.width == |sheet.cols|
  {
    CleanFacts(sheet, parse);
    var t :- Clean(sheet, parse);
    ExploreFrom(t)
  }

  /** The exploration script as it runs, on one frame cleaned in place. */
  method Explore(sheet: Table, parse: string -> Option<real>) returns (r: Result<Exploration>)
    requires sheet.Valid()
    ensures r == ExploreOf(sheet, parse)
  {
    var cleaned := LoadAndClean(sheet, parse);
    if cleaned.Err? {
      return Err(cleaned.error);
    }
    r := ExploreFrom(cleaned.value);
  }

  /** The exploration fails exactly where the analysis does, on the same column first, and
      otherwise counts the same records. */
  lemma {:induction false} ExploreOfFacts(sheet: Table, parse: string -> Option<real>)
    requires sheet.Valid()
    ensures ExploreOf(sheet, parse).Ok? <==> ReportOf(sheet, parse).Ok?
    ensures ExploreOf(sheet, parse).Err? ==> ExploreOf(sheet, parse).error == ReportOf(sheet, parse).error
    ensures ExploreOf(sheet, parse).Ok? ==>
      ExploreOf(sheet, parse).value.records == ReportOf(sheet, parse).value.totalRecords
  {
    CleanFacts(sheet, parse);
    ReportOfFacts(sheet, parse);
    if Clean(sheet, parse).Ok? {
      var t := Clean(sheet, parse).value;
      FirstMissingFive(t.labels, MultimodalColumn, AgentTypeColumn, ModelArchitectureColumn,
        TaskCategoryColumn, BiasColumn);
      FirstMissingFive(t.labels, AgentTypeColumn, MultimodalColumn, ModelArchitectureColumn,
        TaskCategoryColumn, BiasColumn);
    }
  }

  /** The counts the exploration prints agree with each other: summed over a grouped table,
      `multimodal_count` is at most the number of multimodal rows (equal when no key is NaN) and
      `total_count` is the number of rows with a key (all records when no key is NaN); summed
      over the task table, `count` is the number of rows with a task category and a numeric
      score. */
  lemma ExploreCounts(t: Table)
    requires t.Valid() && ExploreFrom(t).Ok?
    ensures var e := ExploreFrom(t).value;
      var flags := Flags(Column(t, MultimodalColumn).value);
      var agents := Column(t, AgentTypeColumn).value;
      && Total(e.agentTypes, MultimodalCountOf) <= e.multimodalAgents
      && ((forall i :: 0 <= i < |agents| ==> Present(agents[i])) ==>
            Total(e.agentTypes, MultimodalCountOf) == e.multimodalAgents
            && Total(e.agentTypes, TotalCountOf) == e.records)
      && Total(e.agentTypes, TotalCountOf) == PresentHits(agents, Everyone(|agents|))
    ensures var e := ExploreFrom(t).value;
      var flags := Flags(Column(t, MultimodalColumn).value);
      var models := Column(t, ModelArchitectureColumn).value;
      && Total(e.modelArchitectures, MultimodalCountOf) <= e.multimodalAgents
      && ((forall i :: 0 <= i < |models| ==> Present(models[i])) ==>
            Total(e.modelArchitectures, MultimodalCountOf) == e.multimodalAgents
            && Total(e.modelArchitectures, TotalCountOf) == e.records)
    ensures var e := ExploreFrom(t).value;
      var tasks := Column(t, TaskCategoryColumn).value;
      var scores := Scores(Column(t, BiasColumn).value);
      Total(e.taskCategories, CountOf) == PresentHits(tasks, Scored(scores))
  {
    var e := ExploreFrom(t).value;
    var flags := Flags(Column(t, MultimodalColumn).value);
    var agents := Column(t, AgentTypeColumn).value;
    var models := Column(t, ModelArchitectureColumn).value;
    var tasks := Column(t, TaskCategoryColumn).value;
    var scores := Scores(Column(t, BiasColumn).value);
    RatioGroupCounts(agents, flags);
    RatioGroupCounts(models, flags);
    ScoreTableCount(tasks, scores);
    TotalPermutation(e.taskCategories, ScoreTable(tasks, scores), CountOf);
  }

  lemma RatioGroupCounts(keys: seq<Cell>, flags: seq<bool>)
    requires |keys| == |flags|
    ensures var ranked := RankedRatios(keys, flags);
      && Total(ranked, MultimodalCountOf) == PresentHits(keys, flags) <= |Mask(flags)|
      && Total(ranked, TotalCountOf) == PresentHits(keys, Everyone(|keys|))
      && ((forall i :: 0 <= i < |keys| ==> Present(keys[i])) ==>
            Total(ranked, MultimodalCountOf) == |Mask(flags)| && Total(ranked, TotalCountOf) == |keys|)
  {
    var ranked := RankedRatios(keys, flags);
    RatioTableSums(keys, flags);
    TotalPermutation(ranked, RatioTable(keys, flags), MultimodalCountOf);
    TotalPermutation(ranked, RatioTable(keys, flags), TotalCountOf);
    PresentHitsWithinMask(keys, flags);
    if forall i :: 0 <= i < |keys| ==> Present(keys[i]) {
      PresentHitsEveryone(keys);
    }
  }

  /** Each numeric median and mean of the task table lies between the smallest and the largest
      numeric score of its group, and the printed tables are sorted: ratios non-increasing,
      numeric medians non-increasing and before the NaN ones, each top three the table's first
      rows. */
  lemma ExploreOrder(t: Table, e: Exploration)
    requires t.Valid() && ExploreFrom(t) == Ok(e)
    ensures NonIncreasing(e.agentTypes, RatioMeasure)
    ensures NonIncreasing(e.modelArchitectures, RatioMeasure)
    ensures forall s :: s in e.agentTypes ==> s.multimodalCount <= s.totalCount && 0.0 <= s.ratio <= 1.0
    ensures forall s :: s in e.modelArchitectures ==> s.multimodalCount <= s.totalCount && 0.0 <= s.ratio <= 1.0
    ensures NaLast(e.taskCategories, HasMedian, MedianMeasure)
    ensures |e.topAgentTypes| <= |e.agentTypes| && e.topAgentTypes == e.agentTypes[..|e.topAgentTypes|]
    ensures |e.topModelArchitectures| <= |e.modelArchitectures| && e.topModelArchitectures == e.modelArchitectures[..|e.topModelArchitectures|]
    ensures |e.topTaskCategories| <= |e.taskCategories| && e.topTaskCategories == e.taskCategories[..|e.topTaskCategories|]
    ensures Column(t, TaskCategoryColumn).Ok? && Column(t, BiasColumn).Ok?
    ensures var tasks := Column(t, TaskCategoryColumn).value;
      var scores := Scores(Column(t, BiasColumn).value);
      forall s :: s in e.taskCategories && s.median.Some? ==>
        var vs := GroupScores(tasks, scores, s.key);
        && |vs| > 0
        && Min(vs) <= s.median.value <= Max(vs)
        && s.mean.Some? && Min(vs) <= s.mean.value <= Max(vs)
  {
    ExploreFields(t, e);
    RankedRatioBounds(Column(t, AgentTypeColumn).value, Flags(Column(t, MultimodalColumn).value));
    RankedRatioBounds(Column(t, ModelArchitectureColumn).value, Flags(Column(t, MultimodalColumn).value));
    var tasks := Column(t, TaskCategoryColumn).value;
    var scores := Scores(Column(t, BiasColumn).value);
    RankedScoreBounds(tasks, scores);
  }

  lemma RankedRatioBounds(keys: seq<Cell>, flags: seq<bool>)
    requires |keys| == |flags|
    ensures forall s :: s in RankedRatios(keys, flags) ==>
      s.multimodalCount <= s.totalCount && 0.0 <= s.ratio <= 1.0
  {
    forall s | s in RankedRatios(keys, flags)
      ensures s.multimodalCount <= s.totalCount && 0.0 <= s.ratio <= 1.0
    {
      assert s in multiset(RatioTable(keys, flags));
      var table := RatioTable(keys, flags);
      var p :| 0 <= p < |table| && table[p] == s;
      assert s.key in keys by {
        assert exists j :: 0 <= j < |table| && table[j].key == s.key;
      }
    }
  }

  lemma RankedScoreBounds(keys: seq<Cell>, scores: seq<Option<real>>)
    requires |keys| == |scores|
    ensures forall s :: s in RankedScores(keys, scores) && s.median.Some? ==>
      var vs := GroupScores(keys, scores, s.key);
      && |vs| > 0
      && Min(vs) <= s.median.value <= Max(vs)
      && s.mean.Some? && Min(vs) <= s.mean.value <= Max(vs)
  {
    var table := ScoreTable(keys, scores);
    forall s | s in RankedScores(keys, scores) && s.median.Some?
      ensures var vs := GroupScores(keys, scores, s.key);
        && |vs| > 0
        && Min(vs) <= s.median.value <= Max(vs)
        && s.mean.Some? && Min(vs) <= s.mean.value <= Max(vs)
    {
      assert s in multiset(table);
      var p :| 0 <= p < |table| && table[p] == s;
      assert s == ScoreOf(keys, scores, s.key);
    }
  }
}
