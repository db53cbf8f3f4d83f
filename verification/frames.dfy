/** The frame `df` that both scripts reassign and overwrite step by step while cleaning. */
module Frames {
  import opened Cells
  import opened Tables

  /** The row labels 0, 1, ..., n - 1 that a frame gets when its index is reset. */
  function Range(n: nat): (r: seq<int>)
    ensures |r| == n && forall i :: 0 <= i < n ==> r[i] == i
  {
    seq(n, i => i)
  }

  class Frame {
    var labels: seq<Cell>
    var cols: seq<seq<Cell>>
    var index: seq<int>

    ghost predicate Valid()
      reads this
    {
      |cols| == |labels| && forall j :: 0 <= j < |cols| ==> |cols[j]| == |index|
    }

    /** The frame's contents, forgetting the row labels. */
    function View(): (t: Table)
      reads this
      ensures Valid() ==> t.Valid()
    {
      Table(labels, cols, |index|)
    }

    /** The frame as `read_excel` returns it, with row labels 0 .. height - 1. */
    constructor (sheet: Table)
      requires sheet.Valid()
      ensures Valid() && View() == sheet && index == Range(sheet.height)
    {
      labels := sheet.labels;
      cols := sheet.cols;
      index := Range(sheet.height);
    }

    /** Promotes the first row to column labels: the labels become that row's cells, the row is
        dropped and the remaining rows are relabelled from 0. Fails, changing nothing, when the
        frame has no row 0. */
    method PromoteHeader() returns (ok: bool)
      requires Valid()
      modifies this
      ensures Valid()
      ensures ok == Tables.PromoteHeader(old(View())).Ok?
      ensures ok ==> View() == Tables.PromoteHeader(old(View())).value && index == Range(|index|)
      ensures !ok ==> View() == old(View()) && index == old(index)
    {
      if |index| == 0 {
        return false;
      }
      var header := Row(View(), 0);
      var data := cols;
      cols := seq(|data|, j requires 0 <= j < |data| => data[j][1..]);
      index := index[1..];
      labels := header;
      index := Range(|index|);
      ok := true;
    }

    /** `df[name] = f(df[name])`: overwrites one column in place. Fails, changing nothing,
        when no column is labelled `name`. */
    method Replace(name: string, f: Cell -> Cell) returns (ok: bool)
      requires Valid()
      modifies this
      ensures Valid() && index == old(index)
      ensures ok == MapColumn(old(View()), name, f).Ok?
      ensures ok ==> View() == MapColumn(old(View()), name, f).value
      ensures !ok ==> View() == old(View())
    {
      var j := ColumnIndex(labels, name);
      if j.None? {
        return false;
      }
      var col := cols[j.value];
      cols := cols[j.value := seq(|col|, i requires 0 <= i < |col| => f(col[i]))];
      ok := true;
    }
  }

  /** Loading and cleaning as the scripts do it, on one frame updated in place. */
  method LoadAndClean(sheet: Table, parse: string -> Option<real>) returns (r: Result<Table>)
    requires sheet.Valid()
    ensures r == Clean(sheet, parse)
  {
    var df := new Frame(sheet);
    var ok := df.PromoteHeader();
    if !ok {
      return Err(NoHeaderRow);
    }
    ok := df.Replace(MultimodalColumn, AsBool);
    if !ok {
      return Err(KeyError(MultimodalColumn));
    }
    ok := df.Replace(BiasColumn, c => ToNumeric(c, parse));
    if !ok {
      return Err(KeyError(BiasColumn));
    }
    r := Ok(df.View());
  }
}
