/** `get_all_resumen.py`: three read-only views of the parsed material list. */
module Resumen {
  import opened Wrappers
  import opened Cells
  import opened Loader
  import opened Extractor

  /** One `{'codigo', 'resumen'}` entry. */
  datatype CodeResumen = CodeResumen(codigo: string, resumen: string)

  /** One entry of the detailed view. */
  datatype Detail = Detail(
    codigo: string,
    tipo: string,
    ud: string,
    resumen: string,
    precio: real,
    numSubMaterials: nat)

  /** The loop of `get_all_resumen`: one pair per material, in order. */
  function CodeResumenView(ms: seq<MainMaterial>): (v: seq<CodeResumen>)
    ensures |v| == |ms|
    ensures forall a :: 0 <= a < |ms| ==>
              v[a].codigo == ms[a].codigo && v[a].resumen == ms[a].resumen
  {
    if ms == [] then []
    else [CodeResumen(ms[0].codigo, ms[0].resumen)] + CodeResumenView(ms[1..])
  }

  /** The list comprehension of `get_all_resumen_text_only`. */
  function ResumenView(ms: seq<MainMaterial>): (v: seq<string>)
    ensures |v| == |ms|
    ensures forall a :: 0 <= a < |ms| ==> v[a] == ms[a].resumen
  {
    if ms == [] then [] else [ms[0].resumen] + ResumenView(ms[1..])
  }

  /** The loop of `get_all_resumen_with_details`. */
  function DetailView(ms: seq<MainMaterial>): (v: seq<Detail>)
    ensures |v| == |ms|
    ensures forall a :: 0 <= a < |ms| ==>
              && v[a].codigo == ms[a].codigo
              && v[a].tipo == ms[a].tipo
              && v[a].ud == ms[a].ud
              && v[a].resumen == ms[a].resumen
              && v[a].precio == ms[a].precio
              && v[a].numSubMaterials == |ms[a].subMaterials|
  {
    if ms == [] then []
    else
      var m := ms[0];
      [Detail(m.codigo, m.tipo, m.ud, m.resumen, m.precio, |m.subMaterials|)] + DetailView(ms[1..])
  }

  /** The three views line up entry by entry: same length, same code and
      description, and the text-only view is the description column of the
      pair view. */
  lemma ViewsAgree(ms: seq<MainMaterial>)
    ensures |CodeResumenView(ms)| == |ResumenView(ms)| == |DetailView(ms)|
    ensures ResumenView(ms) == seq(|ms|, a requires 0 <= a < |ms| => CodeResumenView(ms)[a].resumen)
    ensures forall a :: 0 <= a < |ms| ==>
              && DetailView(ms)[a].codigo == CodeResumenView(ms)[a].codigo
              && DetailView(ms)[a].resumen == ResumenView(ms)[a]
  {
  }

  /** Open the sheet, parse it with a fresh parser, and return the materials;
      a load error propagates. */
  function LoadAndParse(conv: Conv, sheet: seq<seq<Cell>>): (r: Result<seq<MainMaterial>, LoadError>)
    ensures r.Err? <==> LoadExcel(sheet).Err?
    ensures r.Err? ==> r.error == LoadExcel(sheet).error
    ensures r.Ok? ==> IsParseFrom(conv, LoadExcel(sheet).value, 0, r.value)
  {
    match LoadExcel(sheet)
    case Err(e) => Err(e)
    case Ok(rows) => Ok(ParseMaterials(conv, Parser(rows, [])).materials)
  }

  /** `get_all_resumen`: the code and description of every parsed material. */
  function GetAllResumen(conv: Conv, sheet: seq<seq<Cell>>): (r: Result<seq<CodeResumen>, LoadError>)
    ensures r.Err? <==> LoadExcel(sheet).Err?
    ensures r.Err? ==> r.error == LoadExcel(sheet).error
    ensures r.Ok? ==> var ms := LoadAndParse(conv, sheet).value;
              && |r.value| == |ms|
              && forall a :: 0 <= a < |ms| ==> r.value[a] == CodeResumen(ms[a].codigo, ms[a].resumen)
  {
    match LoadAndParse(conv, sheet)
    case Err(e) => Err(e)
    case Ok(ms) => Ok(CodeResumenView(ms))
  }

  /** `get_all_resumen_text_only`: the description of every parsed material. */
  function GetAllResumenTextOnly(conv: Conv, sheet: seq<seq<Cell>>): (r: Result<seq<string>, LoadError>)
    ensures r.Err? <==> LoadExcel(sheet).Err?
    ensures r.Err? ==> r.error == LoadExcel(sheet).error
    ensures r.Ok? ==> var ms := LoadAndParse(conv, sheet).value;
              && |r.value| == |ms|
              && forall a :: 0 <= a < |ms| ==> r.value[a] == ms[a].resumen
  {
    match LoadAndParse(conv, sheet)
    case Err(e) => Err(e)
    case Ok(ms) => Ok(ResumenView(ms))
  }

  /** `get_all_resumen_with_details`: the header fields of every parsed
      material and the number of its components. */
  function GetAllResumenWithDetails(conv: Conv, sheet: seq<seq<Cell>>): (r: Result<seq<Detail>, LoadError>)
    ensures r.Err? <==> LoadExcel(sheet).Err?
    ensures r.Err? ==> r.error == LoadExcel(sheet).error
    ensures r.Ok? ==> var ms := LoadAndParse(conv, sheet).value;
              && |r.value| == |ms|
              && forall a :: 0 <= a < |ms| ==>
                   r.value[a] == Detail(ms[a].codigo, ms[a].tipo, ms[a].ud, ms[a].resumen,
                                        ms[a].precio, |ms[a].subMaterials|)
  {
    match LoadAndParse(conv, sheet)
    case Err(e) => Err(e)
    case Ok(ms) => Ok(DetailView(ms))
  }

  /** On a loaded sheet, the detailed view's component count of each entry is
      the number of non-blank rows between its main row and the end of its
      group. */
  lemma DetailCountsComponents(conv: Conv, rows: seq<Row>, ms: seq<MainMaterial>, a: nat)
    requires IsParseFrom(conv, rows, 0, ms) && a < |ms|
    ensures ms[a].rowIndex < |rows|
    ensures DetailView(ms)[a].numSubMaterials == |ExtractSubMaterials(conv, rows, ms[a].rowIndex)|
  {
    assert ms[a] == MainsOf(conv, rows, RowIndices(ms))[a];
  }
}
