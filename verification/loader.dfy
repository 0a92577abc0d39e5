/** `ExcelDatabaseParser.load_excel`: locating the header row and re-indexing
    the data rows below it. The sheet arrives as the list of rows pandas
    reads with `header=None`. */
module Loader {
  import opened Wrappers
  import opened Cells

  /** Why loading a sheet fails. */
  datatype LoadError =
    | MissingColumn                 // `row[0]` or `row[1]` raises KeyError: the header test reads a column the sheet lacks
    | HeaderNotFound                // "Could not find header row in Excel file"
    | ColumnCountMismatch(width: nat) // the seven column names do not fit the sheet's width

  /** The seven column names the loader assigns. */
  const ColumnCount: nat := 7

  /** The number of columns of the DataFrame: the longest row. */
  function Width(sheet: seq<seq<Cell>>): (w: nat)
    ensures forall i :: 0 <= i < |sheet| ==> |sheet[i]| <= w
    ensures sheet == [] ==> w == 0
    ensures sheet != [] ==> exists i :: 0 <= i < |sheet| && |sheet[i]| == w
  {
    if sheet == [] then 0
    else
      var rest := Width(sheet[1..]);
      assert forall i :: 1 <= i < |sheet| ==> sheet[i] == sheet[1..][i - 1];
      if |sheet[0]| >= rest then |sheet[0]| else rest
  }

  /** `row[0] == 'Código' and row[1] == 'Tipo'`. */
  predicate IsHeaderRow(cells: seq<Cell>) {
    CellAt(cells, 0) == Text("Código") && CellAt(cells, 1) == Text("Tipo")
  }

  /** Row `h` is the first header row of the sheet. */
  ghost predicate IsFirstHeader(sheet: seq<seq<Cell>>, h: int) {
    && 0 <= h < |sheet|
    && IsHeaderRow(sheet[h])
    && forall j :: 0 <= j < h ==> !IsHeaderRow(sheet[j])
  }

  /** Column 0 of some row from `from` on holds the label `Código`. */
  ghost predicate CodeLabelFrom(sheet: seq<seq<Cell>>, from: nat) {
    exists j :: from <= j < |sheet| && CellAt(sheet[j], 0) == Text("Código")
  }

  /** The header loop over rows `from..` of a sheet `w` columns wide. The
      test `row[0] == 'Código' and row[1] == 'Tipo'` reads `row[0]` on every
      row it reaches, but `row[1]` only on a row whose first cell is the
      label; reading a column the sheet lacks raises. */
  function HeaderScan(sheet: seq<seq<Cell>>, w: nat, from: nat): (r: Result<nat, LoadError>)
    requires from <= |sheet|
    requires forall i :: 0 <= i < |sheet| ==> |sheet[i]| <= w
    decreases |sheet| - from
    ensures r == Err(MissingColumn) <==>
              from < |sheet| && (w == 0 || (w == 1 && CodeLabelFrom(sheet, from)))
    ensures r == Err(HeaderNotFound) <==>
              !(from < |sheet| && (w == 0 || (w == 1 && CodeLabelFrom(sheet, from))))
              && forall j :: from <= j < |sheet| ==> !IsHeaderRow(sheet[j])
    ensures r.Err? ==> r.error == MissingColumn || r.error == HeaderNotFound
    ensures r.Ok? ==> w >= 2 && from <= r.value < |sheet| && IsHeaderRow(sheet[r.value])
    ensures r.Ok? ==> forall j :: from <= j < r.value ==> !IsHeaderRow(sheet[j])
  {
    if from == |sheet| then Err(HeaderNotFound)
    else if w == 0 then Err(MissingColumn)
    else if CellAt(sheet[from], 0) != Text("Código") then
      var r := HeaderScan(sheet, w, from + 1);
      assert CodeLabelFrom(sheet, from) <==> CodeLabelFrom(sheet, from + 1) by {
        if CodeLabelFrom(sheet, from) {
          var j :| from <= j < |sheet| && CellAt(sheet[j], 0) == Text("Código");
          assert j != from;
        }
      }
      r
    else if w == 1 then
      assert CodeLabelFrom(sheet, from) by {
        assert CellAt(sheet[from], 0) == Text("Código");
      }
      Err(MissingColumn)
    else if CellAt(sheet[from], 1) == Text("Tipo") then Ok(from)
    else HeaderScan(sheet, w, from + 1)
  }

  /** The data rows below header `h`, re-indexed from 0 and named by column. */
  function DataRows(sheet: seq<seq<Cell>>, h: nat): (rows: seq<Row>)
    requires h < |sheet|
    ensures |rows| == |sheet| - h - 1
    ensures forall k :: 0 <= k < |rows| ==> rows[k] == ToRow(sheet[h + 1 + k])
  {
    seq(|sheet| - h - 1, k requires 0 <= k < |sheet| - h - 1 => ToRow(sheet[h + 1 + k]))
  }

  /** `load_excel` on an in-memory sheet. */
  function LoadExcel(sheet: seq<seq<Cell>>): (r: Result<seq<Row>, LoadError>)
    ensures r == Err(MissingColumn) <==>
              sheet != [] && (Width(sheet) == 0 || (Width(sheet) == 1 && CodeLabelFrom(sheet, 0)))
    ensures r == Err(HeaderNotFound) <==>
              !(sheet != [] && (Width(sheet) == 0 || (Width(sheet) == 1 && CodeLabelFrom(sheet, 0))))
              && forall j :: 0 <= j < |sheet| ==> !IsHeaderRow(sheet[j])
    ensures r.Ok? <==> Width(sheet) == ColumnCount && exists h :: IsFirstHeader(sheet, h)
    ensures forall h :: IsFirstHeader(sheet, h) && Width(sheet) == ColumnCount ==>
              && r.Ok?
              && |r.value| == |sheet| - h - 1
              && forall k :: 0 <= k < |r.value| ==> r.value[k] == ToRow(sheet[h + 1 + k])
  {
    match HeaderScan(sheet, Width(sheet), 0)
    case Err(e) => Err(e)
    case Ok(h) =>
      if Width(sheet) != ColumnCount then Err(ColumnCountMismatch(Width(sheet)))
      else assert IsFirstHeader(sheet, h); Ok(DataRows(sheet, h))
  }
}
