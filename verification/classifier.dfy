/** `ExcelDatabaseParser.is_main_material` and the other per-row tests the
    extractor uses. Each is a function of one row alone. */
module Classifier {
  import opened PyText
  import opened Cells

  /** Codes of crew and labour lines that also carry `Tipo == 'Partida'`. */
  const ExcludedPrefixes: seq<string> := ["moc-", "mo-salarial", "alq-", "m.o."]

  /** `s.startswith(tuple(ps))`. */
  function StartsWithAny(s: string, ps: seq<string>): (b: bool)
    ensures b <==> exists i :: 0 <= i < |ps| && ps[i] <= s
  {
    if ps == [] then false
    else ps[0] <= s || StartsWithAny(s, ps[1..])
  }

  /** `s` begins with one of the excluded prefixes. */
  ghost predicate HasExcludedPrefix(s: string) {
    exists i :: 0 <= i < |ExcludedPrefixes| && ExcludedPrefixes[i] <= s
  }

  /** The normalised code the prefix test looks at: `str(codigo).strip().lower()`. */
  function NormalisedCode(conv: Conv, codigo: Cell): string
    requires !codigo.Missing?
  {
    Lower(Strip(Str(conv, codigo)))
  }

  /** `is_main_material`: a priced 'Partida' row whose code is not a crew code. */
  predicate IsMainMaterial(conv: Conv, row: Row) {
    if row.codigo.Missing? || row.tipo.Missing? then false
    else if row.tipo == Text("Partida") && !row.precio.Missing? then
      !StartsWithAny(NormalisedCode(conv, row.codigo), ExcludedPrefixes)
    else false
  }

  /** The four conditions of the classifier, each necessary and together sufficient. */
  lemma MainMaterialConditions(conv: Conv, row: Row)
    ensures IsMainMaterial(conv, row) <==>
      && !row.codigo.Missing?
      && !row.tipo.Missing?
      && row.tipo == Text("Partida")
      && !row.precio.Missing?
      && !HasExcludedPrefix(NormalisedCode(conv, row.codigo))
  {
  }

  /** `row['Tipo'] == 'Capítulo'`: a chapter row closes the current group. */
  predicate IsChapter(row: Row) {
    row.tipo == Text("Capítulo")
  }

  /** Code, type and summary all NaN: the row is skipped. */
  predicate IsBlank(row: Row) {
    row.codigo.Missing? && row.tipo.Missing? && row.resumen.Missing?
  }

  /** The rows at which the forward scan for sub-materials stops. */
  predicate EndsGroup(conv: Conv, row: Row) {
    IsMainMaterial(conv, row) || IsChapter(row)
  }

  /** A crew code is never a main material, whatever its letter case and
      however much whitespace pads it: `pad + u + rest` where `u` lower-cases
      to one of the excluded prefixes. */
  lemma ExcludedCodeIsNeverMain(conv: Conv, row: Row, pad: string, u: string, rest: string)
    requires row.codigo == Text(pad + u + rest)
    requires AllSpace(pad)
    requires Lower(u) in ExcludedPrefixes
    ensures !IsMainMaterial(conv, row)
  {
    PaddedCrewCode(pad, u, rest);
    MainMaterialConditions(conv, row);
  }

  /** The string half of the previous lemma. */
  lemma PaddedCrewCode(pad: string, u: string, rest: string)
    requires AllSpace(pad)
    requires Lower(u) in ExcludedPrefixes
    ensures HasExcludedPrefix(Lower(Strip(pad + u + rest)))
  {
    var i :| 0 <= i < |ExcludedPrefixes| && ExcludedPrefixes[i] == Lower(u);
    CrewCodeEnds(u, i);
    StripPaddedKeepsPrefix(pad, u, rest);
    LowerPrefix(u, Strip(pad + u + rest));
  }

  /** A code that lower-cases to an excluded prefix neither starts nor ends with whitespace. */
  lemma CrewCodeEnds(u: string, i: nat)
    requires i < |ExcludedPrefixes| && ExcludedPrefixes[i] == Lower(u)
    ensures u != [] && !IsSpace(u[0]) && !IsSpace(u[|u| - 1])
  {
    ExcludedPrefixEnds(i);
    var p := Lower(u);
    LowerAt(u);
    LowerKeepsSpace(u[0]);
    LowerKeepsSpace(u[|u| - 1]);
    assert p[0] == LowerChar(u[0]) && p[|p| - 1] == LowerChar(u[|u| - 1]);
  }

  /** Every excluded prefix is non-empty and neither starts nor ends with whitespace. */
  lemma ExcludedPrefixEnds(i: nat)
    requires i < |ExcludedPrefixes|
    ensures var p := ExcludedPrefixes[i]; p != [] && !IsSpace(p[0]) && !IsSpace(p[|p| - 1])
  {
  }

  /** The presence tests do not look inside the code: an empty code text still
      classifies as a main material when the rest of the row qualifies. */
  lemma EmptyCodeCanBeMain(conv: Conv, price: Cell)
    requires !price.Missing?
    ensures IsMainMaterial(conv, Row(Text(""), Text("Partida"), Missing, Missing, Missing, price, Missing))
  {
    MainMaterialConditions(conv, Row(Text(""), Text("Partida"), Missing, Missing, Missing, price, Missing));
    assert StripLeft("") == "" && StripRight("") == "";
    assert Lower("") == "";
    assert !HasExcludedPrefix("") by {
      forall i | 0 <= i < |ExcludedPrefixes| ensures !(ExcludedPrefixes[i] <= "") {
        assert |ExcludedPrefixes[i]| > 0;
      }
    }
  }
}
