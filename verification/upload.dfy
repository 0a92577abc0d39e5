/** The file-name validators of the upload endpoints and the line-counting
    rule of `upload_materials_list`, as pure functions. */
module Upload {
  import opened Wrappers
  import opened PyText

  const ExcelExtensions: set<string> := {"xlsx", "xls"}
  const TextExtensions: set<string> := {"txt"}

  /** The position of the last `'.'` in `s`, if any. */
  function LastDot(s: string): (r: Option<nat>)
    ensures r.None? <==> '.' !in s
    ensures r.Some? ==> r.value < |s| && s[r.value] == '.' && '.' !in s[r.value + 1..]
  {
    if s == [] then None
    else if s[|s| - 1] == '.' then Some(|s| - 1)
    else
      var r := LastDot(s[..|s| - 1]);
      assert r.Some? ==> s[r.value + 1..] == s[..|s| - 1][r.value + 1..] + [s[|s| - 1]];
      assert s == s[..|s| - 1] + [s[|s| - 1]];
      r
  }

  /** A dot with no dot after it is the last dot. */
  lemma LastDotUnique(s: string, i: nat)
    requires i < |s| && s[i] == '.' && '.' !in s[i + 1..]
    ensures LastDot(s) == Some(i)
  {
  }

  /** `filename.rsplit('.', 1)[1]`: the text after the last dot, when there is one. */
  function FinalExtension(filename: string): (e: Option<string>)
    ensures e.None? <==> '.' !in filename
    ensures e.Some? ==> '.' !in e.value && |e.value| < |filename|
    ensures e.Some? ==> filename == filename[..|filename| - |e.value| - 1] + "." + e.value
  {
    match LastDot(filename)
    case None => None
    case Some(d) =>
      assert filename == filename[..d] + "." + filename[d + 1..];
      Some(filename[d + 1..])
  }

  /** Appending a dot and a dot-free extension makes that the final extension. */
  lemma FinalExtensionOfAppend(base: string, ext: string)
    requires '.' !in ext
    ensures FinalExtension(base + "." + ext) == Some(ext)
  {
    var s := base + "." + ext;
    assert s[|base|] == '.';
    assert s[|base| + 1..] == ext;
    LastDotUnique(s, |base|);
  }

  /** `ext in extensions` after lower-casing, for the final extension. */
  predicate HasExtensionIn(filename: string, extensions: set<string>) {
    match FinalExtension(filename)
    case None => false
    case Some(e) => Lower(e) in extensions
  }

  /** `allowed_file`: an Excel workbook by its final extension, in any case. */
  predicate AllowedFile(filename: string) {
    HasExtensionIn(filename, ExcelExtensions)
  }

  /** `allowed_text_file`: a plain-text file by its final extension, in any case. */
  predicate AllowedTextFile(filename: string) {
    HasExtensionIn(filename, TextExtensions)
  }

  /** The extension test holds exactly when some dot has no dot after it and
      the lower-cased text after it is one of the extensions. */
  lemma ExtensionIff(filename: string, extensions: set<string>)
    ensures HasExtensionIn(filename, extensions) <==>
              exists i :: 0 <= i < |filename| && filename[i] == '.' && '.' !in filename[i + 1..]
                          && Lower(filename[i + 1..]) in extensions
  {
    if HasExtensionIn(filename, extensions) {
      var d := LastDot(filename).value;
      assert filename[d] == '.' && '.' !in filename[d + 1..] && Lower(filename[d + 1..]) in extensions;
    }
    forall i | 0 <= i < |filename| && filename[i] == '.' && '.' !in filename[i + 1..]
      ensures LastDot(filename) == Some(i)
    {
      LastDotUnique(filename, i);
    }
  }

  /** Only the final extension decides: `base.ext` is judged by `ext` alone,
      whatever dots `base` holds. */
  lemma FinalExtensionDecides(base: string, ext: string)
    requires '.' !in ext
    ensures AllowedFile(base + "." + ext) <==> Lower(ext) in ExcelExtensions
    ensures AllowedTextFile(base + "." + ext) <==> Lower(ext) in TextExtensions
  {
    FinalExtensionOfAppend(base, ext);
  }

  /** A name without a dot is neither a workbook nor a text file, and no name
      is both. */
  lemma ValidatorsDisjoint(filename: string)
    ensures '.' !in filename ==> !AllowedFile(filename) && !AllowedTextFile(filename)
    ensures !(AllowedFile(filename) && AllowedTextFile(filename))
  {
    if FinalExtension(filename).Some? {
      var e := Lower(FinalExtension(filename).value);
      assert e !in ExcelExtensions || e !in TextExtensions;
    }
  }

  /** `a.xlsx.txt` is a text file and not a workbook. */
  lemma DoubleExtensionIsText()
    ensures AllowedTextFile("a.xlsx.txt") && !AllowedFile("a.xlsx.txt")
  {
    FinalExtensionDecides("a.xlsx", "txt");
    assert "a.xlsx.txt" == "a.xlsx" + "." + "txt";
    assert Lower("txt") == "txt";
  }

  /** Upper-case extensions are accepted: `Budget.XLSX` is a workbook. */
  lemma UpperCaseExtension()
    ensures AllowedFile("Budget.XLSX") && !AllowedTextFile("Budget.XLSX")
  {
    FinalExtensionDecides("Budget", "XLSX");
    assert "Budget.XLSX" == "Budget" + "." + "XLSX";
    assert Lower("XLSX") == "xlsx";
  }

  /** `sep.join(parts)`. */
  function Join(parts: seq<string>, sep: char): string
    requires parts != []
    decreases |parts|
  {
    if |parts| == 1 then parts[0] else parts[0] + [sep] + Join(parts[1..], sep)
  }

  /** The position of the first `sep` in `s`. */
  function FirstIndex(s: string, sep: char): (i: nat)
    requires sep in s
    ensures i < |s| && s[i] == sep && sep !in s[..i]
  {
    if s[0] == sep then 0
    else
      assert sep in s[1..] by {
        var k :| 0 <= k < |s| && s[k] == sep;
        assert s[1..][k - 1] == sep;
      }
      var i := FirstIndex(s[1..], sep) + 1;
      assert s[..i] == [s[0]] + s[1..][..i - 1];
      i
  }

  /** `s.split(sep)`: the maximal `sep`-free pieces of `s`, always at least one. */
  function Split(s: string, sep: char): (parts: seq<string>)
    decreases |s|
    ensures parts != []
    ensures forall a :: 0 <= a < |parts| ==> sep !in parts[a]
  {
    if sep !in s then [s]
    else
      var i := FirstIndex(s, sep);
      [s[..i]] + Split(s[i + 1..], sep)
  }

  /** Joining the pieces of a split gives back the text. */
  lemma {:induction false} JoinSplit(s: string, sep: char)
    decreases |s|
    ensures Join(Split(s, sep), sep) == s
  {
    if sep in s {
      var i := FirstIndex(s, sep);
      var tail := Split(s[i + 1..], sep);
      JoinSplit(s[i + 1..], sep);
      JoinCons(s[..i], tail, sep);
      assert s == s[..i] + [sep] + s[i + 1..];
    }
  }

  /** Joining a piece in front of a non-empty list puts one separator between. */
  lemma JoinCons(p: string, parts: seq<string>, sep: char)
    requires parts != []
    ensures Join([p] + parts, sep) == p + [sep] + Join(parts, sep)
  {
    assert ([p] + parts)[1..] == parts;
  }

  /** Splitting a join of `sep`-free pieces gives back the pieces. */
  lemma {:induction false} SplitJoin(parts: seq<string>, sep: char)
    requires parts != []
    requires forall a :: 0 <= a < |parts| ==> sep !in parts[a]
    decreases |parts|
    ensures Split(Join(parts, sep), sep) == parts
  {
    if |parts| > 1 {
      var tail := parts[1..];
      assert forall a :: 0 <= a < |tail| ==> tail[a] == parts[a + 1];
      SplitJoin(tail, sep);
      SplitCons(parts[0], sep, Join(tail, sep));
      assert parts == [parts[0]] + tail;
    }
  }

  /** Splitting `p + [sep] + rest` with a `sep`-free `p` yields `p`, then the
      pieces of `rest`. */
  lemma SplitCons(p: string, sep: char, rest: string)
    requires sep !in p
    ensures Split(p + [sep] + rest, sep) == [p] + Split(rest, sep)
  {
    var s := p + [sep] + rest;
    FirstIsAfterPiece(p, sep, rest);
    assert s[..|p|] == p && s[|p| + 1..] == rest;
  }

  /** The first separator of `p + [sep] + rest` is the one after a separator-free `p`. */
  lemma FirstIsAfterPiece(p: string, sep: char, rest: string)
    requires sep !in p
    ensures sep in p + [sep] + rest && FirstIndex(p + [sep] + rest, sep) == |p|
  {
    var s := p + [sep] + rest;
    assert s[|p|] == sep;
  }

  /** One line of the uploaded list counts as a material when, once
      stripped, it is non-empty, starts with a digit and contains a dot. */
  predicate IsMaterialLine(line: string) {
    var t := Strip(line);
    t != [] && IsDigit(t[0]) && '.' in t
  }

  /** The number of material lines, as a reference count. */
  function CountMaterialLines(lines: seq<string>): (n: nat)
    ensures n <= |lines|
  {
    if lines == [] then 0
    else (if IsMaterialLine(lines[0]) then 1 else 0) + CountMaterialLines(lines[1..])
  }

  /** The count reaches the number of lines exactly when every line is a
      material line, and is zero exactly when none is. */
  lemma {:induction false} CountExtremes(lines: seq<string>)
    decreases |lines|
    ensures CountMaterialLines(lines) == |lines| <==> forall a :: 0 <= a < |lines| ==> IsMaterialLine(lines[a])
    ensures CountMaterialLines(lines) == 0 <==> forall a :: 0 <= a < |lines| ==> !IsMaterialLine(lines[a])
  {
    if lines != [] {
      CountExtremes(lines[1..]);
      assert forall a :: 1 <= a < |lines| ==> lines[a] == lines[1..][a - 1];
    }
  }

  /** Counting distributes over concatenation. */
  lemma {:induction false} CountAppend(xs: seq<string>, ys: seq<string>)
    decreases |xs|
    ensures CountMaterialLines(xs + ys) == CountMaterialLines(xs) + CountMaterialLines(ys)
  {
    if xs == [] {
      assert xs + ys == ys;
    } else {
      CountAppend(xs[1..], ys);
      assert (xs + ys)[1..] == xs[1..] + ys;
    }
  }

  /** A line of whitespace only is never counted. */
  lemma BlankLineNeverCounts(line: string)
    requires AllSpace(line)
    ensures !IsMaterialLine(line)
  {
    StripPadded(line, [], []);
    assert line + [] + [] == line;
  }

  /** The loop at the end of `upload_materials_list`: split the content on
      newlines and count the material lines. */
  method MaterialCount(content: string) returns (count: nat)
    ensures count == CountMaterialLines(Split(content, '\n'))
    ensures count <= |Split(content, '\n')|
  {
    var lines := Split(content, '\n');
    count := 0;
    var k := 0;
    while k < |lines|
      invariant k <= |lines|
      invariant count == CountMaterialLines(lines[..k])
    {
      var line := Strip(lines[k]);
      if line != [] && IsDigit(line[0]) && '.' in line {
        count := count + 1;
      }
      CountAppend(lines[..k], [lines[k]]);
      assert lines[..k + 1] == lines[..k] + [lines[k]];
      k := k + 1;
    }
    assert lines[..k] == lines;
  }
}
