/** The data frame as a value: header promotion and column replacement, the cleaning steps
    that the `Frame` class performs in place. */
module Tables {
  import opened Cells

  const MultimodalColumn := "multimodal_capability"
  const BiasColumn := "bias_detection_score"

  /** A frame stored by columns, as pandas stores it: `labels[j]` names column `cols[j]`,
      and every column holds `height` cells. */
  datatype Table = Table(labels: seq<Cell>, cols: seq<seq<Cell>>, height: nat) {
    ghost predicate Valid() {
      |cols| == |labels| && forall j :: 0 <= j < |cols| ==> |cols[j]| == height
    }
  }

  /** Row `i` of a frame, across all columns (`df.iloc[i]`). */
  function Row(t: Table, i: nat): (r: seq<Cell>)
    requires t.Valid() && i < t.height
    ensures |r| == |t.cols|
    ensures forall j :: 0 <= j < |r| ==> r[j] == t.cols[j][i]
  {
    seq(|t.cols|, j requires 0 <= j < |t.cols| => t.cols[j][i])
  }

  /** Position of the first column labelled `name`; `df[name]` raises KeyError when there is none. */
  function ColumnIndex(labels: seq<Cell>, name: string): (r: Option<nat>)
    ensures r.Some? ==> r.value < |labels| && labels[r.value] == Str(name)
    ensures r.Some? ==> forall j :: 0 <= j < r.value ==> labels[j] != Str(name)
    ensures r.None? <==> Str(name) !in labels
  {
    if |labels| == 0 then None
    else if labels[0] == Str(name) then Some(0)
    else match ColumnIndex(labels[1..], name)
      case None => None
      case Some(j) => Some(j + 1)
  }

  /** The column labelled `name`, or the KeyError that `df[name]` raises. */
  function Column(t: Table, name: string): (r: Result<seq<Cell>>)
    requires t.Valid()
    ensures r.Ok? <==> Str(name) in t.labels
    ensures r.Err? ==> r.error == KeyError(name)
    ensures r.Ok? ==> |r.value| == t.height
    ensures r.Ok? ==> exists j :: 0 <= j < |t.cols| && t.labels[j] == Str(name) && r.value == t.cols[j]
  {
    match ColumnIndex(t.labels, name)
    case None => Err(KeyError(name))
    case Some(j) => Ok(t.cols[j])
  }

  /** Lines 28-37 of the analysis script: row 0 becomes the column labels, the remaining rows
      are the data and are renumbered from 0. `df.iloc[0]` fails on a frame with no rows. */
  function PromoteHeader(t: Table): (r: Result<Table>)
    requires t.Valid()
    ensures r.Ok? <==> t.height > 0
    ensures r.Err? ==> r.error == NoHeaderRow
    ensures r.Ok? ==> r.value.Valid() && r.value.height == t.height - 1
    ensures r.Ok? ==> r.value.labels == Row(t, 0)
    ensures r.Ok? ==> forall i :: 0 <= i < r.value.height ==> Row(r.value, i) == Row(t, i + 1)
  {
    if t.height == 0 then Err(NoHeaderRow)
    else
      var data := seq(|t.cols|, j requires 0 <= j < |t.cols| => t.cols[j][1..]);
      var r := Table(Row(t, 0), data, t.height - 1);
      assert forall i :: 0 <= i < r.height ==> Row(r, i) == Row(t, i + 1);
      Ok(r)
  }

  /** `df[name] = f(df[name])`: the column labelled `name` is replaced cell by cell; every other
      column, every label and the number of rows stay as they were. */
  function MapColumn(t: Table, name: string, f: Cell -> Cell): (r: Result<Table>)
    requires t.Valid()
    ensures r.Ok? <==> Str(name) in t.labels
    ensures r.Err? ==> r.error == KeyError(name)
    ensures r.Ok? ==> r.value.Valid() && r.value.labels == t.labels && r.value.height == t.height
    ensures r.Ok? ==> forall j, i :: 0 <= j < |t.cols| && 0 <= i < t.height ==>
      r.value.cols[j][i] == if ColumnIndex(t.labels, name) == Some(j) then f(t.cols[j][i]) else t.cols[j][i]
  {
    match ColumnIndex(t.labels, name)
    case None => Err(KeyError(name))
    case Some(j) =>
      var col := t.cols[j];
      Ok(t.(cols := t.cols[j := seq(|col|, i requires 0 <= i < |col| => f(col[i]))]))
  }

  /** The whole cleaning step: header promotion, then `astype(bool)` on the multimodal column,
      then `to_numeric(errors='coerce')` on the bias score column. */
  function Clean(t: Table, parse: string -> Option<real>): (r: Result<Table>)
    requires t.Valid()
    ensures r.Ok? ==> r.value.Valid()
  {
    var t1 :- PromoteHeader(t);
    var t2 :- MapColumn(t1, MultimodalColumn, AsBool);
    MapColumn(t2, BiasColumn, c => ToNumeric(c, parse))
  }

  /** What cleaning does to a frame: it fails exactly when the frame has no rows or lacks one of
      the two coerced columns (in the order the script touches them); otherwise the labels are
      raw row 0, there is one row fewer, the multimodal column holds only booleans (its truthiness),
      the score column only numbers and NaN, and every other cell is the raw cell one row down. */
  lemma {:induction false} CleanFacts(t: Table, parse: string -> Option<real>)
    requires t.Valid()
    ensures t.height == 0 ==> Clean(t, parse) == Err(NoHeaderRow)
    ensures t.height > 0 && Str(MultimodalColumn) !in Row(t, 0) ==>
      Clean(t, parse) == Err(KeyError(MultimodalColumn))
    ensures t.height > 0 && Str(MultimodalColumn) in Row(t, 0) && Str(BiasColumn) !in Row(t, 0) ==>
      Clean(t, parse) == Err(KeyError(BiasColumn))
    ensures Clean(t, parse).Ok? <==>
      t.height > 0 && Str(MultimodalColumn) in Row(t, 0) && Str(BiasColumn) in Row(t, 0)
    ensures Clean(t, parse).Ok? ==>
      var c := Clean(t, parse).value;
      var m := ColumnIndex(c.labels, MultimodalColumn).value;
      var b := ColumnIndex(c.labels, BiasColumn).value;
      && c.labels == Row(t, 0)
      && c.height == t.height - 1
      && (forall i :: 0 <= i < c.height ==> c.cols[m][i] == AsBool(t.cols[m][i + 1]))
      && (forall i :: 0 <= i < c.height ==> c.cols[b][i] == ToNumeric(t.cols[b][i + 1], parse))
      && (forall j, i :: 0 <= j < |c.cols| && j != m && j != b && 0 <= i < c.height ==>
            c.cols[j][i] == t.cols[j][i + 1])
  {
    if t.height > 0 {
      var t1 := PromoteHeader(t).value;
      assert t1.labels == Row(t, 0);
      forall j, i | 0 <= j < |t1.cols| && 0 <= i < t1.height
        ensures t1.cols[j][i] == t.cols[j][i + 1]
      {
        assert Row(t1, i)[j] == Row(t, i + 1)[j];
      }
      if Str(MultimodalColumn) in t1.labels {
        var t2 := MapColumn(t1, MultimodalColumn, AsBool).value;
        assert t2.labels == t1.labels;
      }
    }
  }
}
