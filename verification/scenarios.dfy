/** Worked examples of the whole pipeline on small sheets. */
module Scenarios {
  import opened Wrappers
  import opened PyText
  import opened Cells
  import opened Loader
  import opened Classifier
  import opened Extractor
  import opened Resumen

  const Header: seq<Cell> :=
    [Text("Código"), Text("Tipo"), Text("Ud"), Text("Resumen"),
     Text("Cantidad"), Text("Precio (€)"), Text("Importe (€)")]

  /** A header, a priced item, a note line, a crew line priced like an item,
      and a second priced item. */
  const Sheet: seq<seq<Cell>> := [
    Header,
    [Text("A1"), Text("Partida"), Text("m2"), Text("Demolición"), Num(2.0), Num(10.0), Num(20.0)],
    [Missing, Missing, Missing, Text("nota"), Missing, Missing, Missing],
    [Text("moc-x"), Text("Partida"), Text("h"), Text("Peón"), Num(1.0), Num(5.0), Num(5.0)],
    [Text("A2"), Text("Partida"), Text("m2"), Text("Pintura"), Num(1.0), Num(7.0), Num(7.0)]
  ]

  /** A code without whitespace or excluded prefix passes the prefix test. */
  lemma PlainCodeIsMain(conv: Conv, row: Row, code: string)
    requires row.codigo == Text(code) && row.tipo == Text("Partida") && !row.precio.Missing?
    requires code == "A1" || code == "A2"
    ensures IsMainMaterial(conv, row)
  {
    MainMaterialConditions(conv, row);
    assert Strip(code) == code;
    var n := Lower(code);
    LowerAt(code);
    assert !HasExcludedPrefix(n) by {
      forall i | 0 <= i < |ExcludedPrefixes|
        ensures !(ExcludedPrefixes[i] <= n)
      {
        assert |ExcludedPrefixes[i]| > 2 || ExcludedPrefixes[i][0] != n[0] || ExcludedPrefixes[i][1] != n[1];
      }
    }
  }

  /** The data rows of `Sheet`, as the loader names them. */
  const Rows: seq<Row> := [
    Row(Text("A1"), Text("Partida"), Text("m2"), Text("Demolición"), Num(2.0), Num(10.0), Num(20.0)),
    Row(Missing, Missing, Missing, Text("nota"), Missing, Missing, Missing),
    Row(Text("moc-x"), Text("Partida"), Text("h"), Text("Peón"), Num(1.0), Num(5.0), Num(5.0)),
    Row(Text("A2"), Text("Partida"), Text("m2"), Text("Pintura"), Num(1.0), Num(7.0), Num(7.0))
  ]

  /** The sheet loads into its four data rows. */
  lemma SheetLoads()
    ensures LoadExcel(Sheet) == Ok(Rows)
  {
    assert forall i :: 0 <= i < |Sheet| ==> |Sheet[i]| == 7;
    assert Width(Sheet) == 7;
    assert IsFirstHeader(Sheet, 0);
    var rows := LoadExcel(Sheet).value;
    assert |rows| == 4;
    assert rows[0] == ToRow(Sheet[1]) == Rows[0];
    assert rows[1] == ToRow(Sheet[2]) == Rows[1];
    assert rows[2] == ToRow(Sheet[3]) == Rows[2];
    assert rows[3] == ToRow(Sheet[4]) == Rows[3];
    assert rows == Rows;
  }

  /** The two priced items are main materials. */
  lemma ItemsAreMain(conv: Conv)
    ensures IsMainMaterial(conv, Rows[0]) && IsMainMaterial(conv, Rows[3])
  {
    PlainCodeIsMain(conv, Rows[0], "A1");
    PlainCodeIsMain(conv, Rows[3], "A2");
  }

  /** The crew line is priced like an item but its `moc-` code keeps it a component. */
  lemma CrewLineIsComponent(conv: Conv)
    ensures !EndsGroup(conv, Rows[2]) && !IsBlank(Rows[2])
  {
    assert "moc-x" == "" + "moc-" + "x";
    assert Lower("moc-") == "moc-";
    ExcludedCodeIsNeverMain(conv, Rows[2], "", "moc-", "x");
  }

  /** Rows 0 and 3 are main materials; the note and the crew line are not,
      and neither ends a group nor is blank. */
  lemma RowsClassified(conv: Conv)
    ensures IsMainMaterial(conv, Rows[0]) && IsMainMaterial(conv, Rows[3])
    ensures !EndsGroup(conv, Rows[1]) && !IsBlank(Rows[1])
    ensures !EndsGroup(conv, Rows[2]) && !IsBlank(Rows[2])
  {
    ItemsAreMain(conv);
    CrewLineIsComponent(conv);
  }

  /** On any four rows shaped like `Rows`, the scan below row 0 keeps rows 1
      and 2, and the outer loop emits rows 0 and 3. */
  lemma FourRowShape(conv: Conv, rows: seq<Row>)
    requires |rows| == 4
    requires IsMainMaterial(conv, rows[0]) && IsMainMaterial(conv, rows[3])
    requires !EndsGroup(conv, rows[1]) && !IsBlank(rows[1])
    requires !EndsGroup(conv, rows[2]) && !IsBlank(rows[2])
    ensures ExtractFrom(conv, rows, 1) == [ToSubMaterial(conv, rows[1], 1), ToSubMaterial(conv, rows[2], 2)]
    ensures ParseFrom(conv, rows, 0) == [MainAt(conv, rows, 0), MainAt(conv, rows, 3)]
  {
    assert ExtractFrom(conv, rows, 3) == [];
    assert ExtractFrom(conv, rows, 2) == [ToSubMaterial(conv, rows[2], 2)];
    assert ParseFrom(conv, rows, 3) == [MainAt(conv, rows, 3)];
    assert ParseFrom(conv, rows, 1) == [MainAt(conv, rows, 3)];
  }

  /** A string with no whitespace at either end is its own strip. */
  lemma StripKeeps(s: string)
    requires Trimmed(s)
    ensures Strip(s) == s
  {
    assert "" + s + "" == s;
    StripPadded("", s, "");
  }

  /** A main row whose code and summary are text without surrounding
      whitespace and whose price is a number keeps those three values. */
  lemma MainFields(conv: Conv, rows: seq<Row>, idx: nat, code: string, summary: string, price: real)
    requires idx < |rows| && IsMainMaterial(conv, rows[idx])
    requires rows[idx].codigo == Text(code) && Trimmed(code)
    requires rows[idx].resumen == Text(summary) && Trimmed(summary)
    requires rows[idx].precio == Num(price)
    ensures var m := MainAt(conv, rows, idx);
            && m.codigo == code && m.resumen == summary && m.precio == price
            && m.rowIndex == idx && m.subMaterials == ExtractFrom(conv, rows, idx + 1)
  {
    StripKeeps(code);
    StripKeeps(summary);
  }

  /** The first main material's own fields. */
  lemma FirstMain(conv: Conv)
    ensures IsMainMaterial(conv, Rows[0])
    ensures var m := MainAt(conv, Rows, 0);
            m.codigo == "A1" && m.resumen == "Demolición" && m.precio == 10.0
  {
    ItemsAreMain(conv);
    MainFields(conv, Rows, 0, "A1", "Demolición", 10.0);
  }

  /** The first main material owns the note and the crew line. */
  lemma FirstMainComponents(conv: Conv)
    ensures IsMainMaterial(conv, Rows[0])
    ensures MainAt(conv, Rows, 0).subMaterials == [ToSubMaterial(conv, Rows[1], 1), ToSubMaterial(conv, Rows[2], 2)]
  {
    RowsClassified(conv);
    FourRowShape(conv, Rows);
  }

  /** The second main material owns nothing: row 3 is the last row. */
  lemma SecondMain(conv: Conv)
    ensures IsMainMaterial(conv, Rows[3])
    ensures var m := MainAt(conv, Rows, 3);
            m.codigo == "A2" && m.rowIndex == 3 && m.subMaterials == []
  {
    ItemsAreMain(conv);
    MainFields(conv, Rows, 3, "A2", "Pintura", 7.0);
  }

  /** Parsing the sheet gives two main materials: `A1`, owning the note and
      the crew line, and `A2`, owning nothing. */
  lemma WorkedExample(conv: Conv)
    ensures LoadAndParse(conv, Sheet).Ok?
    ensures var ms := LoadAndParse(conv, Sheet).value;
            && |ms| == 2
            && ms[0].codigo == "A1" && ms[0].resumen == "Demolición" && ms[0].precio == 10.0
            && |ms[0].subMaterials| == 2
            && ms[0].subMaterials[0].codigo == None && ms[0].subMaterials[0].resumen == "nota"
            && ms[0].subMaterials[1].codigo == Some("moc-x") && ms[0].subMaterials[1].precio == Some(5.0)
            && ms[1].codigo == "A2" && ms[1].rowIndex == 3 && ms[1].subMaterials == []
  {
    SheetLoads();
    RowsClassified(conv);
    FourRowShape(conv, Rows);
    FirstMain(conv);
    FirstMainComponents(conv);
    SecondMain(conv);
    assert LoadAndParse(conv, Sheet).value == ParseFrom(conv, Rows, 0);
  }

  /** A main row whose price text does not parse still becomes a main
      material, priced 0.0. */
  lemma UnparsablePriceIsZero(conv: Conv)
    requires conv.parseFloat("n/d") == None
    ensures var row := Row(Text("A1"), Text("Partida"), Missing, Missing, Missing, Text("n/d"), Missing);
            && IsMainMaterial(conv, row)
            && ToMainMaterial(conv, row, 0).precio == 0.0
  {
    var row := Row(Text("A1"), Text("Partida"), Missing, Missing, Missing, Text("n/d"), Missing);
    PlainCodeIsMain(conv, row, "A1");
  }

  /** A sheet without a header row fails to load, and so do all three views. */
  lemma NoHeaderNoResult(conv: Conv)
    ensures var sheet := Sheet[1..];
            && LoadExcel(sheet) == Err(HeaderNotFound)
            && GetAllResumen(conv, sheet) == Err(HeaderNotFound)
            && GetAllResumenTextOnly(conv, sheet) == Err(HeaderNotFound)
            && GetAllResumenWithDetails(conv, sheet) == Err(HeaderNotFound)
  {
    var sheet := Sheet[1..];
    assert Width(sheet) >= 2 by {
      assert |sheet[0]| == 7;
    }
    forall j | 0 <= j < |sheet|
      ensures !IsHeaderRow(sheet[j])
    {
      assert sheet[j] == Sheet[j + 1];
    }
  }

  /** A one-column sheet without the `Código` label never reaches `row[1]`:
      the loop ends and the header error is raised. */
  lemma OneColumnWithoutLabel()
    ensures LoadExcel([[Text("x")], [Num(1.0)]]) == Err(HeaderNotFound)
  {
  }

  /** A one-column sheet with the `Código` label reads the missing second
      column there and fails with a missing-column error. */
  lemma OneColumnWithLabel()
    ensures LoadExcel([[Text("x")], [Text("Código")]]) == Err(MissingColumn)
  {
  }
}
