/** Spreadsheet cells as pandas hands them over, and the seven-column row shape. */
module Cells {
  import opened Wrappers

  /** One cell of the sheet: empty/NaN, a number, or text. */
  datatype Cell = Missing | Num(n: real) | Text(s: string)

  /** Python's own conversions, which the model does not re-implement:
      `float(s)` on text (`None` where it raises `ValueError`) and `str(x)`
      on a numeric cell. */
  datatype Conv = Conv(parseFloat: string -> Option<real>, numText: real -> string)

  /** A data row after the header has been located, named by column:
      Código, Tipo, Ud, Resumen, Cantidad, Precio (€), Importe (€). */
  datatype Row = Row(
    codigo: Cell,
    tipo: Cell,
    ud: Cell,
    resumen: Cell,
    cantidad: Cell,
    precio: Cell,
    importe: Cell)

  /** Cell `i` of a raw sheet row; pandas pads short rows with NaN. */
  function CellAt(cells: seq<Cell>, i: nat): (c: Cell)
    ensures i >= |cells| ==> c == Missing
  {
    if i < |cells| then cells[i] else Missing
  }

  /** The positional mapping of a raw row onto the seven named columns. */
  function ToRow(cells: seq<Cell>): Row {
    Row(CellAt(cells, 0), CellAt(cells, 1), CellAt(cells, 2), CellAt(cells, 3),
        CellAt(cells, 4), CellAt(cells, 5), CellAt(cells, 6))
  }

  /** `str(x)` of a present cell. */
  function Str(conv: Conv, c: Cell): string
    requires !c.Missing?
  {
    match c
    case Num(n) => conv.numText(n)
    case Text(s) => s
  }

  /** `None if pd.isna(x) else str(x)`. */
  function OptStr(conv: Conv, c: Cell): (r: Option<string>)
    ensures r.None? <==> c.Missing?
    ensures c.Text? ==> r == Some(c.s)
    ensures c.Num? ==> r == Some(conv.numText(c.n))
  {
    if c.Missing? then None else Some(Str(conv, c))
  }

  /** `None if pd.isna(x) else float(x)`, with `ValueError`/`TypeError`
      caught and turned into `None`. */
  function Coerce(conv: Conv, c: Cell): (r: Option<real>)
    ensures c.Missing? ==> r == None
    ensures c.Num? ==> r == Some(c.n)
    ensures c.Text? ==> r == conv.parseFloat(c.s)
  {
    match c
    case Missing => None
    case Num(n) => Some(n)
    case Text(s) => conv.parseFloat(s)
  }
}
