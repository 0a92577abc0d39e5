/** `ExcelDatabaseParser.extract_sub_materials` and `parse_materials`: the
    rebuilt one-level hierarchy of priced main materials, each owning the
    component rows that follow it. */
module Extractor {
  import opened Wrappers
  import opened PyText
  import opened Cells
  import opened Classifier
  import opened Ascending

  /** A component row attached to the main material above it. */
  datatype SubMaterial = SubMaterial(
    codigo: Option<string>,
    tipo: Option<string>,
    ud: Option<string>,
    resumen: string,
    cantidad: Option<real>,
    precio: Option<real>,
    importe: Option<real>,
    rowIndex: nat)

  /** A priced 'Partida' line item and its components. */
  datatype MainMaterial = MainMaterial(
    codigo: string,
    tipo: string,
    ud: string,
    resumen: string,
    precio: real,
    rowIndex: nat,
    subMaterials: seq<SubMaterial>)

  /** The parser object: the loaded rows and the materials parsed from them. */
  datatype Parser = Parser(df: seq<Row>, materials: seq<MainMaterial>)

  /** The sub-material record for row `idx`; each numeric column is coerced on
      its own, so one malformed cell never affects another. */
  function ToSubMaterial(conv: Conv, row: Row, idx: nat): (sm: SubMaterial)
    ensures sm.rowIndex == idx
    ensures sm.codigo.None? <==> row.codigo.Missing?
    ensures sm.tipo.None? <==> row.tipo.Missing?
    ensures sm.ud.None? <==> row.ud.Missing?
    ensures row.resumen.Missing? ==> sm.resumen == ""
    ensures row.cantidad.Missing? ==> sm.cantidad.None?
    ensures row.precio.Missing? ==> sm.precio.None?
    ensures row.importe.Missing? ==> sm.importe.None?
    ensures row.cantidad.Num? ==> sm.cantidad == Some(row.cantidad.n)
    ensures row.precio.Num? ==> sm.precio == Some(row.precio.n)
    ensures row.importe.Num? ==> sm.importe == Some(row.importe.n)
    ensures row.cantidad.Text? ==> sm.cantidad == conv.parseFloat(row.cantidad.s)
    ensures row.precio.Text? ==> sm.precio == conv.parseFloat(row.precio.s)
    ensures row.importe.Text? ==> sm.importe == conv.parseFloat(row.importe.s)
    ensures !row.codigo.Missing? ==> sm.codigo == Some(Str(conv, row.codigo))
    ensures !row.tipo.Missing? ==> sm.tipo == Some(Str(conv, row.tipo))
    ensures !row.ud.Missing? ==> sm.ud == Some(Str(conv, row.ud))
    ensures !row.resumen.Missing? ==> sm.resumen == Str(conv, row.resumen)
  {
    SubMaterial(
      OptStr(conv, row.codigo),
      OptStr(conv, row.tipo),
      OptStr(conv, row.ud),
      if row.resumen.Missing? then "" else Str(conv, row.resumen),
      Coerce(conv, row.cantidad),
      Coerce(conv, row.precio),
      Coerce(conv, row.importe),
      idx)
  }

  /** Each numeric column of a sub-material depends on its own cell only:
      rows that differ in one numeric cell give sub-materials that differ in
      that field at most. */
  lemma SubMaterialFieldsIndependent(conv: Conv, row: Row, idx: nat, c: Cell)
    ensures var sm := ToSubMaterial(conv, row, idx);
            && ToSubMaterial(conv, row.(cantidad := c), idx) == sm.(cantidad := Coerce(conv, c))
            && ToSubMaterial(conv, row.(precio := c), idx) == sm.(precio := Coerce(conv, c))
            && ToSubMaterial(conv, row.(importe := c), idx) == sm.(importe := Coerce(conv, c))
  {
  }

  /** `float(row['Precio (€)'])`, or 0.0 where it raises. The classifier has
      already seen a present price cell. */
  function MainPrice(conv: Conv, c: Cell): (price: real)
    requires !c.Missing?
    ensures c.Num? ==> price == c.n
    ensures c.Text? && conv.parseFloat(c.s).Some? ==> price == conv.parseFloat(c.s).value
    ensures c.Text? && conv.parseFloat(c.s).None? ==> price == 0.0
  {
    Coerce(conv, c).GetOr(0.0)
  }

  /** The main-material record for row `idx`, before its components are attached. */
  function ToMainMaterial(conv: Conv, row: Row, idx: nat): (m: MainMaterial)
    requires IsMainMaterial(conv, row)
    ensures m.tipo == "Partida"
    ensures Trimmed(m.codigo) && Trimmed(m.resumen)
    ensures row.ud.Missing? ==> m.ud == ""
    ensures row.resumen.Missing? ==> m.resumen == ""
    ensures m.rowIndex == idx && m.subMaterials == []
  {
    StripTrimmed(Str(conv, row.codigo));
    StripTrimmed(if row.resumen.Missing? then "" else Str(conv, row.resumen));
    MainMaterial(
      Strip(Str(conv, row.codigo)),
      Str(conv, row.tipo),
      if row.ud.Missing? then "" else Str(conv, row.ud),
      if row.resumen.Missing? then "" else Strip(Str(conv, row.resumen)),
      MainPrice(conv, row.precio),
      idx,
      [])
  }

  /** The fields of a main material come from its own row: the code is the
      code cell with its whitespace padding removed, the summary likewise
      when present, the unit is copied as text, and the price is the cell
      read as a number. */
  lemma MainMaterialFields(conv: Conv, row: Row, idx: nat)
    requires IsMainMaterial(conv, row)
    ensures var m := ToMainMaterial(conv, row, idx);
            && StrippedFrom(Str(conv, row.codigo), m.codigo)
            && (!row.resumen.Missing? ==> StrippedFrom(Str(conv, row.resumen), m.resumen))
            && (!row.ud.Missing? ==> m.ud == Str(conv, row.ud))
            && m.precio == MainPrice(conv, row.precio)
  {
    var m := ToMainMaterial(conv, row, idx);
    StripIff(Str(conv, row.codigo), m.codigo);
    if !row.resumen.Missing? {
      StripIff(Str(conv, row.resumen), m.resumen);
    }
  }

  /** The first row at or after `j` where the forward scan stops: a main
      material, a chapter, or the end of the rows. */
  function GroupEnd(conv: Conv, rows: seq<Row>, j: nat): (e: nat)
    requires j <= |rows|
    decreases |rows| - j
    ensures j <= e <= |rows|
    ensures forall k :: j <= k < e ==> !EndsGroup(conv, rows[k])
    ensures e < |rows| ==> EndsGroup(conv, rows[e])
  {
    if j == |rows| || EndsGroup(conv, rows[j]) then j else GroupEnd(conv, rows, j + 1)
  }

  /** Row `k` becomes a sub-material of the group that starts at `j`. */
  ghost predicate IsSubRow(conv: Conv, rows: seq<Row>, j: nat, k: int)
    requires j <= |rows|
  {
    j <= k < GroupEnd(conv, rows, j) && !IsBlank(rows[k])
  }

  /** `subs` lists exactly the sub-material rows of the group starting at `j`,
      in source order, each converted from its own row. */
  ghost predicate IsSubListFrom(conv: Conv, rows: seq<Row>, j: nat, subs: seq<SubMaterial>)
    requires j <= |rows|
  {
    && (forall a :: 0 <= a < |subs| ==>
          && IsSubRow(conv, rows, j, subs[a].rowIndex)
          && subs[a] == ToSubMaterial(conv, rows[subs[a].rowIndex], subs[a].rowIndex))
    && (forall a, b :: 0 <= a < b < |subs| ==> subs[a].rowIndex < subs[b].rowIndex)
    && (forall k :: IsSubRow(conv, rows, j, k) ==> exists a :: 0 <= a < |subs| && subs[a].rowIndex == k)
  }

  /** The `while` loop of `extract_sub_materials`, from row `j` on. */
  function ExtractFrom(conv: Conv, rows: seq<Row>, j: nat): seq<SubMaterial>
    requires j <= |rows|
    decreases |rows| - j
  {
    if j == |rows| then []
    else if IsMainMaterial(conv, rows[j]) then []
    else if IsChapter(rows[j]) then []
    else if IsBlank(rows[j]) then ExtractFrom(conv, rows, j + 1)
    else [ToSubMaterial(conv, rows[j], j)] + ExtractFrom(conv, rows, j + 1)
  }

  /** The scan keeps exactly the non-blank rows up to the end of the group. */
  lemma {:induction false} ExtractFromExact(conv: Conv, rows: seq<Row>, j: nat)
    requires j <= |rows|
    decreases |rows| - j
    ensures IsSubListFrom(conv, rows, j, ExtractFrom(conv, rows, j))
  {
    if j == |rows| || EndsGroup(conv, rows[j]) {
    } else if IsBlank(rows[j]) {
      ExtractFromExact(conv, rows, j + 1);
      assert GroupEnd(conv, rows, j) == GroupEnd(conv, rows, j + 1);
      assert forall k :: IsSubRow(conv, rows, j, k) ==> IsSubRow(conv, rows, j + 1, k);
    } else {
      ExtractFromExact(conv, rows, j + 1);
      SubListCons(conv, rows, j, ExtractFrom(conv, rows, j + 1));
    }
  }

  /** `extract_sub_materials(start_idx)`: the components of the main material at `start`. */
  function ExtractSubMaterials(conv: Conv, rows: seq<Row>, start: nat): seq<SubMaterial>
    requires start < |rows|
  {
    ExtractFrom(conv, rows, start + 1)
  }

  /** The components of the main material at `start` are exactly the
      non-blank rows strictly between it and the next main material or
      chapter, in source order; none of them ends a group. */
  lemma ExtractSubMaterialsExact(conv: Conv, rows: seq<Row>, start: nat)
    requires start < |rows|
    ensures IsSubListFrom(conv, rows, start + 1, ExtractSubMaterials(conv, rows, start))
    ensures var subs := ExtractSubMaterials(conv, rows, start);
            forall a :: 0 <= a < |subs| ==>
              && start < subs[a].rowIndex < GroupEnd(conv, rows, start + 1)
              && !EndsGroup(conv, rows[subs[a].rowIndex])
  {
    ExtractFromExact(conv, rows, start + 1);
  }

  /** A kept row in front of the sub-materials of the rest of its group. */
  lemma SubListCons(conv: Conv, rows: seq<Row>, j: nat, rest: seq<SubMaterial>)
    requires j < |rows| && !EndsGroup(conv, rows[j]) && !IsBlank(rows[j])
    requires IsSubListFrom(conv, rows, j + 1, rest)
    ensures IsSubListFrom(conv, rows, j, [ToSubMaterial(conv, rows[j], j)] + rest)
  {
    var subs := [ToSubMaterial(conv, rows[j], j)] + rest;
    assert GroupEnd(conv, rows, j) == GroupEnd(conv, rows, j + 1);
    forall a | 0 < a < |subs|
      ensures subs[a] == rest[a - 1]
    {
    }
    forall k | IsSubRow(conv, rows, j, k)
      ensures exists a :: 0 <= a < |subs| && subs[a].rowIndex == k
    {
      if k == j {
        assert subs[0].rowIndex == k;
      } else {
        assert IsSubRow(conv, rows, j + 1, k);
        var a :| 0 <= a < |rest| && rest[a].rowIndex == k;
        assert subs[a + 1].rowIndex == k;
      }
    }
  }

  /** The complete main material for main row `idx`. */
  function MainAt(conv: Conv, rows: seq<Row>, idx: nat): MainMaterial
    requires idx < |rows| && IsMainMaterial(conv, rows[idx])
  {
    ToMainMaterial(conv, rows[idx], idx).(subMaterials := ExtractSubMaterials(conv, rows, idx))
  }

  /** The row numbers of `ms`, in list order. */
  function RowIndices(ms: seq<MainMaterial>): (ks: seq<int>)
    ensures |ks| == |ms|
    ensures forall a :: 0 <= a < |ms| ==> ks[a] == ms[a].rowIndex
  {
    seq(|ms|, a requires 0 <= a < |ms| => ms[a].rowIndex)
  }

  /** Every entry of `ms` comes from row `i` or later. */
  ghost predicate MainsFrom(i: nat, ms: seq<MainMaterial>) {
    forall a :: 0 <= a < |ms| ==> i <= ms[a].rowIndex
  }

  /** Every entry of `ms` sits on a main row. */
  ghost predicate MainsOnMainRows(conv: Conv, rows: seq<Row>, ms: seq<MainMaterial>) {
    forall a :: 0 <= a < |ms| ==>
      0 <= ms[a].rowIndex < |rows| && IsMainMaterial(conv, rows[ms[a].rowIndex])
  }

  /** The main materials of the main rows `ks`, in that order. */
  function MainsOf(conv: Conv, rows: seq<Row>, ks: seq<int>): (ms: seq<MainMaterial>)
    requires forall a :: 0 <= a < |ks| ==> 0 <= ks[a] < |rows| && IsMainMaterial(conv, rows[ks[a]])
  {
    seq(|ks|, a requires 0 <= a < |ks| => MainAt(conv, rows, ks[a]))
  }

  /** Every entry of `ms` sits on a main row and is the main material built
      from that row. */
  ghost predicate MainsBuilt(conv: Conv, rows: seq<Row>, ms: seq<MainMaterial>) {
    MainsOnMainRows(conv, rows, ms) && ms == MainsOf(conv, rows, RowIndices(ms))
  }

  /** The entries of `ms` are in strictly ascending row order. */
  ghost predicate MainsAscending(ms: seq<MainMaterial>) {
    forall a, b :: 0 <= a < b < |ms| ==> ms[a].rowIndex < ms[b].rowIndex
  }

  /** Every main row at or after `i` has an entry in `ms`. */
  ghost predicate MainsComplete(conv: Conv, rows: seq<Row>, i: nat, ms: seq<MainMaterial>) {
    forall k :: i <= k < |rows| && IsMainMaterial(conv, rows[k]) ==>
      exists a :: 0 <= a < |ms| && ms[a].rowIndex == k
  }

  /** `ms` holds one entry per main row at or after `i`, in row order, each
      built from its own row. */
  ghost predicate IsParseFrom(conv: Conv, rows: seq<Row>, i: nat, ms: seq<MainMaterial>) {
    && MainsFrom(i, ms)
    && MainsBuilt(conv, rows, ms)
    && MainsAscending(ms)
    && MainsComplete(conv, rows, i, ms)
  }

  /** The `for idx, row in self.df.iterrows()` loop of `parse_materials`, from row `i` on. */
  function ParseFrom(conv: Conv, rows: seq<Row>, i: nat): seq<MainMaterial>
    requires i <= |rows|
    decreases |rows| - i
  {
    if i == |rows| then []
    else if IsMainMaterial(conv, rows[i]) then [MainAt(conv, rows, i)] + ParseFrom(conv, rows, i + 1)
    else ParseFrom(conv, rows, i + 1)
  }

  /** The outer loop emits one entry per main row, in row order. */
  lemma {:induction false} ParseFromExact(conv: Conv, rows: seq<Row>, i: nat)
    requires i <= |rows|
    decreases |rows| - i
    ensures IsParseFrom(conv, rows, i, ParseFrom(conv, rows, i))
  {
    if i < |rows| {
      ParseFromExact(conv, rows, i + 1);
      var rest := ParseFrom(conv, rows, i + 1);
      if IsMainMaterial(conv, rows[i]) {
        ParseCons(conv, rows, i, rest);
      } else {
        SkipNonMain(conv, rows, i, rest);
      }
    }
  }

  /** `parse_materials`: the list is reset and rebuilt from the rows alone. */
  function ParseMaterials(conv: Conv, p: Parser): (q: Parser)
    ensures q.df == p.df
    ensures IsParseFrom(conv, p.df, 0, q.materials)
  {
    ParseFromExact(conv, p.df, 0);
    Parser(p.df, ParseFrom(conv, p.df, 0))
  }

  /** A row that is not a main material contributes nothing. */
  lemma SkipNonMain(conv: Conv, rows: seq<Row>, i: nat, rest: seq<MainMaterial>)
    requires i < |rows| && !IsMainMaterial(conv, rows[i])
    requires MainsFrom(i + 1, rest) && MainsComplete(conv, rows, i + 1, rest)
    ensures MainsFrom(i, rest) && MainsComplete(conv, rows, i, rest)
  {
    forall k | i <= k < |rows| && IsMainMaterial(conv, rows[k])
      ensures exists a :: 0 <= a < |rest| && rest[a].rowIndex == k
    {
      assert k != i;
    }
  }

  /** A main row in front of the main materials after it. */
  lemma ParseCons(conv: Conv, rows: seq<Row>, i: nat, rest: seq<MainMaterial>)
    requires i < |rows| && IsMainMaterial(conv, rows[i])
    requires IsParseFrom(conv, rows, i + 1, rest)
    ensures IsParseFrom(conv, rows, i, [MainAt(conv, rows, i)] + rest)
  {
    var m := MainAt(conv, rows, i);
    assert m.rowIndex == i;
    ConsBuilt(conv, rows, i, rest);
    ConsOrdered(m, i, rest);
    ConsComplete(conv, rows, i, m, rest);
  }

  /** The main material of row `i` in front of built entries keeps them built. */
  lemma ConsBuilt(conv: Conv, rows: seq<Row>, i: nat, rest: seq<MainMaterial>)
    requires i < |rows| && IsMainMaterial(conv, rows[i])
    requires MainsBuilt(conv, rows, rest)
    ensures MainsBuilt(conv, rows, [MainAt(conv, rows, i)] + rest)
  {
    var ms := [MainAt(conv, rows, i)] + rest;
    assert ms[0].rowIndex == i;
    forall a | 0 < a < |ms|
      ensures ms[a] == rest[a - 1]
    {
    }
    var ks := RowIndices(ms);
    assert MainsOnMainRows(conv, rows, ms);
    forall a | 0 <= a < |ms|
      ensures ms[a] == MainsOf(conv, rows, ks)[a]
    {
      if a > 0 {
        assert rest[a - 1] == MainsOf(conv, rows, RowIndices(rest))[a - 1];
      }
    }
  }

  /** An entry for row `i` in front of entries from later rows keeps the order. */
  lemma ConsOrdered(m: MainMaterial, i: nat, rest: seq<MainMaterial>)
    requires m.rowIndex == i
    requires MainsFrom(i + 1, rest) && MainsAscending(rest)
    ensures MainsFrom(i, [m] + rest) && MainsAscending([m] + rest)
  {
    var ms := [m] + rest;
    forall a | 0 < a < |ms|
      ensures ms[a] == rest[a - 1]
    {
    }
  }

  /** An entry for row `i` in front of a complete list from `i + 1` is complete from `i`. */
  lemma ConsComplete(conv: Conv, rows: seq<Row>, i: nat, m: MainMaterial, rest: seq<MainMaterial>)
    requires m.rowIndex == i
    requires MainsComplete(conv, rows, i + 1, rest)
    ensures MainsComplete(conv, rows, i, [m] + rest)
  {
    var ms := [m] + rest;
    forall k | i <= k < |rows| && IsMainMaterial(conv, rows[k])
      ensures exists a :: 0 <= a < |ms| && ms[a].rowIndex == k
    {
      if k == i {
        assert ms[0].rowIndex == k;
      } else {
        var a :| 0 <= a < |rest| && rest[a].rowIndex == k;
        assert ms[a + 1].rowIndex == k;
      }
    }
  }

  /** The row numbers of one parse result all occur among those of another. */
  lemma IndicesWithin(conv: Conv, rows: seq<Row>, i: nat, ms1: seq<MainMaterial>, ms2: seq<MainMaterial>)
    requires MainsFrom(i, ms1) && MainsOnMainRows(conv, rows, ms1)
    requires MainsComplete(conv, rows, i, ms2)
    ensures Within(RowIndices(ms1), RowIndices(ms2))
  {
    var xs, ys := RowIndices(ms1), RowIndices(ms2);
    forall a | 0 <= a < |xs|
      ensures xs[a] in ys
    {
      var k := ms1[a].rowIndex;
      var b :| 0 <= b < |ms2| && ms2[b].rowIndex == k;
      assert ys[b] == k;
    }
  }

  /** The contract of the outer loop pins its result down: two lists that both
      hold the main rows from `i` on, in row order, each built from its row,
      are equal. */
  lemma ParseFromUnique(conv: Conv, rows: seq<Row>, i: nat, ms1: seq<MainMaterial>, ms2: seq<MainMaterial>)
    requires IsParseFrom(conv, rows, i, ms1) && IsParseFrom(conv, rows, i, ms2)
    ensures ms1 == ms2
  {
    var xs, ys := RowIndices(ms1), RowIndices(ms2);
    IndicesWithin(conv, rows, i, ms1, ms2);
    IndicesWithin(conv, rows, i, ms2, ms1);
    SameElementsEqual(xs, ys);
    forall a | 0 <= a < |ms1|
      ensures ms1[a] == ms2[a]
    {
      assert ms1[a] == MainsOf(conv, rows, xs)[a];
      assert ms2[a] == MainsOf(conv, rows, ys)[a];
    }
  }

  /** One sub-material of the entry on main row `i` lies strictly between `i`
      and the next main row `n`, on a row that neither ends a group nor is a
      main material. */
  lemma SubRowBetween(conv: Conv, rows: seq<Row>, i: nat, b: nat, n: int)
    requires i < |rows| && IsMainMaterial(conv, rows[i])
    requires b < |MainAt(conv, rows, i).subMaterials|
    requires i < n <= |rows|
    requires n < |rows| ==> IsMainMaterial(conv, rows[n])
    ensures var k := MainAt(conv, rows, i).subMaterials[b].rowIndex;
            && i < k < n
            && !IsMainMaterial(conv, rows[k])
            && !IsChapter(rows[k])
  {
    var subs := ExtractSubMaterials(conv, rows, i);
    assert MainAt(conv, rows, i).subMaterials == subs;
    ExtractSubMaterialsExact(conv, rows, i);
    if n < |rows| {
      assert EndsGroup(conv, rows[n]);
      assert GroupEnd(conv, rows, i + 1) <= n;
    }
  }

  /** No main row is ever swallowed as a sub-material, and every sub-material
      lies strictly below its main material and above the next one. */
  lemma NoMainRowIsSubMaterial(conv: Conv, p: Parser)
    ensures var ms := ParseMaterials(conv, p).materials;
            forall a, b :: 0 <= a < |ms| && 0 <= b < |ms[a].subMaterials| ==>
              var k := ms[a].subMaterials[b].rowIndex;
              && ms[a].rowIndex < k < |p.df|
              && !IsMainMaterial(conv, p.df[k])
              && !IsChapter(p.df[k])
              && (a + 1 < |ms| ==> k < ms[a + 1].rowIndex)
  {
    var rows := p.df;
    var ms := ParseMaterials(conv, p).materials;
    forall a, b | 0 <= a < |ms| && 0 <= b < |ms[a].subMaterials|
      ensures var k := ms[a].subMaterials[b].rowIndex;
              && ms[a].rowIndex < k < |rows|
              && !IsMainMaterial(conv, rows[k])
              && !IsChapter(rows[k])
              && (a + 1 < |ms| ==> k < ms[a + 1].rowIndex)
    {
      var i := ms[a].rowIndex;
      assert ms[a] == MainsOf(conv, rows, RowIndices(ms))[a];
      var n := if a + 1 < |ms| then ms[a + 1].rowIndex else |rows|;
      SubRowBetween(conv, rows, i, b, n);
    }
  }

  /** `parse_materials` starts from an empty list, so the materials left by an
      earlier run make no difference, and parsing twice is parsing once. */
  lemma ParseIgnoresPreviousMaterials(conv: Conv, p: Parser, earlier: seq<MainMaterial>)
    ensures ParseMaterials(conv, p.(materials := earlier)) == ParseMaterials(conv, p)
    ensures ParseMaterials(conv, ParseMaterials(conv, p)) == ParseMaterials(conv, p)
  {
  }
}
