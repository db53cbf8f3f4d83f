/** Cells of the performance spreadsheet and the two per-cell coercions of the cleaning step. */
module Cells {

  /** A cell as the Excel reader delivers it: text, a number (integer or float), a boolean,
      or an empty cell, which pandas holds as NaN. */
  datatype Cell = Str(s: string) | Num(x: real) | Bool(b: bool) | Missing

  datatype Option<T> = None | Some(value: T)

  /** The two ways the scripts stop before producing anything: `df.iloc[0]` on a frame with no
      rows (IndexError), and `df[name]` or `groupby(name)` on a column that is not there (KeyError). */
  datatype Error = NoHeaderRow | KeyError(column: string)

  datatype Result<T> = Ok(value: T) | Err(error: Error) {
    predicate IsFailure() { Err? }
    function PropagateFailure<U>(): Result<U> requires Err? { Err(error) }
    function Extract(): T requires Ok? { value }
  }

  /** Python truthiness of one cell, which `astype(bool)` applies element by element.
      Exactly three cells are falsy; every non-empty string (also "False" or "0") is truthy,
      and so is NaN. */
  function Truthy(c: Cell): (b: bool)
    ensures !b <==> c == Str("") || c == Num(0.0) || c == Bool(false)
  {
    match c
    case Str(s) => s != ""
    case Num(x) => x != 0.0
    case Bool(v) => v
    case Missing => true
  }

  /** The cell that `astype(bool)` stores. */
  function AsBool(c: Cell): (r: Cell)
    ensures r.Bool? && (r.b <==> Truthy(c))
  {
    Bool(Truthy(c))
  }

  /** `to_numeric(errors='coerce')` on one cell. `parse` is pandas' text-to-number parser; a
      string it rejects becomes NaN. A boolean counts as the integer 1 or 0, as in Python. */
  function ToNumeric(c: Cell, parse: string -> Option<real>): (r: Cell)
    ensures r.Num? || r == Missing
    ensures c.Num? ==> r == c
    ensures c.Str? ==> (r.Num? <==> parse(c.s).Some?) && (r.Num? ==> r.x == parse(c.s).value)
    ensures c.Bool? ==> r == Num(if c.b then 1.0 else 0.0)
    ensures c == Missing ==> r == Missing
  {
    match c
    case Str(s) => (match parse(s) case Some(x) => Num(x) case None => Missing)
    case Num(_) => c
    case Bool(v) => Num(if v then 1.0 else 0.0)
    case Missing => Missing
  }

  /** The value a cleaned score cell contributes to the statistics: NaN contributes none. */
  function Score(c: Cell): (r: Option<real>)
    ensures r.Some? <==> c.Num?
    ensures r.Some? ==> r.value == c.x
  {
    if c.Num? then Some(c.x) else None
  }
}
