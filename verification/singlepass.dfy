/** A one-pass reading of `parse_materials`: a left fold over the rows that
    carries the main material still collecting components. It agrees with the
    nested scan on every sheet, so the rescan per main row is an
    implementation choice, not a difference in meaning. */
module SinglePass {
  import opened Wrappers
  import opened Cells
  import opened Classifier
  import opened Extractor

  /** The finished main materials and the one still open, if any. */
  datatype ScanState = ScanState(done: seq<MainMaterial>, open: Option<MainMaterial>)

  const Start := ScanState([], None)

  /** The finished list once the open main material, if any, is closed. */
  function Close(st: ScanState): (ms: seq<MainMaterial>)
    ensures |ms| == |st.done| + (if st.open.Some? then 1 else 0)
    ensures ms[..|st.done|] == st.done
  {
    match st.open
    case None => st.done
    case Some(m) => st.done + [m]
  }

  /** One row of the fold: a main row closes the open entry and opens its
      own, a chapter closes it, a blank row is skipped, and any other row
      becomes a component of the open entry (or is dropped when none is open). */
  function Step(conv: Conv, st: ScanState, row: Row, idx: nat): ScanState {
    if IsMainMaterial(conv, row) then ScanState(Close(st), Some(ToMainMaterial(conv, row, idx)))
    else if IsChapter(row) then ScanState(Close(st), None)
    else if IsBlank(row) then st
    else match st.open
      case None => st
      case Some(m) => ScanState(st.done, Some(m.(subMaterials := m.subMaterials + [ToSubMaterial(conv, row, idx)])))
  }

  /** The fold from row `i` on. */
  function FoldFrom(conv: Conv, rows: seq<Row>, i: nat, st: ScanState): ScanState
    requires i <= |rows|
    decreases |rows| - i
  {
    if i == |rows| then st else FoldFrom(conv, rows, i + 1, Step(conv, st, rows[i], i))
  }

  /** The single-pass parse of a whole sheet. */
  function ParseSinglePass(conv: Conv, rows: seq<Row>): seq<MainMaterial> {
    Close(FoldFrom(conv, rows, 0, Start))
  }

  /** What the nested scan makes of rows `i..` when the fold arrives there in
      state `st`: the finished entries, the open entry completed by the
      forward scan from `i`, then the outer loop from `i`. */
  function Pending(conv: Conv, rows: seq<Row>, i: nat, st: ScanState): seq<MainMaterial>
    requires i <= |rows|
  {
    match st.open
    case None => st.done + ParseFrom(conv, rows, i)
    case Some(m) =>
      st.done + [m.(subMaterials := m.subMaterials + ExtractFrom(conv, rows, i))] + ParseFrom(conv, rows, i)
  }

  /** The fold from any state finishes exactly as the nested scan predicts. */
  lemma {:induction false} FoldFromMatches(conv: Conv, rows: seq<Row>, i: nat, st: ScanState)
    requires i <= |rows|
    decreases |rows| - i
    ensures Close(FoldFrom(conv, rows, i, st)) == Pending(conv, rows, i, st)
  {
    if i == |rows| {
      if st.open.Some? {
        var m := st.open.value;
        assert m.(subMaterials := m.subMaterials + []) == m;
      }
    } else {
      var row := rows[i];
      var st' := Step(conv, st, row, i);
      FoldFromMatches(conv, rows, i + 1, st');
      if IsMainMaterial(conv, row) {
        var t := ToMainMaterial(conv, row, i);
        assert t.(subMaterials := [] + ExtractFrom(conv, rows, i + 1)) == MainAt(conv, rows, i);
        assert ParseFrom(conv, rows, i) == [MainAt(conv, rows, i)] + ParseFrom(conv, rows, i + 1);
        MainStepMatches(conv, rows, i, st);
      } else if IsChapter(row) {
        assert ParseFrom(conv, rows, i) == ParseFrom(conv, rows, i + 1);
        ChapterStepMatches(conv, rows, i, st);
      } else if IsBlank(row) {
        assert ParseFrom(conv, rows, i) == ParseFrom(conv, rows, i + 1);
        assert ExtractFrom(conv, rows, i) == ExtractFrom(conv, rows, i + 1);
      } else {
        assert ParseFrom(conv, rows, i) == ParseFrom(conv, rows, i + 1);
        var s := ToSubMaterial(conv, row, i);
        assert ExtractFrom(conv, rows, i) == [s] + ExtractFrom(conv, rows, i + 1);
        if st.open.Some? {
          var m := st.open.value;
          assert m.subMaterials + ([s] + ExtractFrom(conv, rows, i + 1))
              == (m.subMaterials + [s]) + ExtractFrom(conv, rows, i + 1);
        }
      }
    }
  }

  /** At a main row, closing the open entry and opening a new one matches
      the outer loop emitting `MainAt` there. */
  lemma MainStepMatches(conv: Conv, rows: seq<Row>, i: nat, st: ScanState)
    requires i < |rows| && IsMainMaterial(conv, rows[i])
    ensures Pending(conv, rows, i + 1, Step(conv, st, rows[i], i)) == Pending(conv, rows, i, st)
  {
    var t := ToMainMaterial(conv, rows[i], i);
    var rest := ParseFrom(conv, rows, i + 1);
    assert t.(subMaterials := t.subMaterials + ExtractFrom(conv, rows, i + 1)) == MainAt(conv, rows, i);
    assert ParseFrom(conv, rows, i) == [MainAt(conv, rows, i)] + rest;
    assert ExtractFrom(conv, rows, i) == [];
    match st.open
    case None =>
      assert Close(st) + [MainAt(conv, rows, i)] + rest == st.done + ([MainAt(conv, rows, i)] + rest);
    case Some(m) =>
      assert m.(subMaterials := m.subMaterials + []) == m;
      assert Close(st) + [MainAt(conv, rows, i)] + rest == st.done + [m] + ([MainAt(conv, rows, i)] + rest);
  }

  /** At a chapter row, closing the open entry matches the forward scan stopping there. */
  lemma ChapterStepMatches(conv: Conv, rows: seq<Row>, i: nat, st: ScanState)
    requires i < |rows| && !IsMainMaterial(conv, rows[i]) && IsChapter(rows[i])
    ensures Pending(conv, rows, i + 1, Step(conv, st, rows[i], i)) == Pending(conv, rows, i, st)
  {
    assert ParseFrom(conv, rows, i) == ParseFrom(conv, rows, i + 1);
    assert ExtractFrom(conv, rows, i) == [];
    if st.open.Some? {
      var m := st.open.value;
      assert m.(subMaterials := m.subMaterials + []) == m;
    }
  }

  /** The single pass and `parse_materials` produce the same list on every
      sheet, whatever the parser held before. */
  lemma SinglePassAgrees(conv: Conv, p: Parser)
    ensures ParseSinglePass(conv, p.df) == ParseMaterials(conv, p).materials
  {
    FoldFromMatches(conv, p.df, 0, Start);
  }
}
