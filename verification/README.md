# Construction-materials spreadsheet parser, modelled in Dafny

The system reads a construction-cost database exported from a spreadsheet. It rebuilds a one-level hierarchy from the flat rows:

- **Main materials** are priced `Partida` line items.
- **Sub-materials** are the component rows that follow each main material. Examples are crew, machinery and notes.

The model covers five parts of the pipeline:

1. **The loader** (`load_excel`). It finds the first row whose first two cells are `Código` and `Tipo`. It drops that row and everything above it, then names the seven columns.
2. **The row classifier** (`is_main_material`).
3. **The forward scan** (`extract_sub_materials`). It collects the components of one main material.
4. **The outer pass** (`parse_materials`).
5. **Read-only views and upload helpers.** Three views of the parsed list come from `get_all_resumen.py`. From `api.py`, the model takes the two file-name validators and the rule that counts the material lines of an uploaded text list.

The sheet arrives as `seq<seq<Cell>>`, the rows pandas reads without a header. A cell is `Missing`, `Num(real)` or `Text(string)`.

Python's `float()` on text and `str()` on a number are parameters. They are bundled in `Cells.Conv`:
- `parseFloat` returns `None` where `float()` raises.
- `numText` gives the text of a number.

Every general result is therefore stated for any behaviour of those two conversions. The one exception is the scenario `Scenarios.UnparsablePriceIsZero`, which assumes that `n/d` does not parse.

Files:

- `wrappers.dfy`: `Option` and `Result`.
- `pytext.dfy`: the Python string operations the code relies on.
  - `strip`, with the full `str.isspace` set.
  - `lower`, for ASCII letters.
  - `isdigit`, for ASCII digits.
- `cells.dfy`: cells, the seven-column `Row`, `str()`/`float()` coercion with the `pd.isna` guard.
- `loader.dfy`: `load_excel`.
- `classifier.dfy`: `is_main_material` and the chapter and blank-row tests of the scan.
- `extractor.dfy`: the `SubMaterial`/`MainMaterial` records, `extract_sub_materials` and `parse_materials`.
  - These follow the source's shape: an outer loop, plus a forward rescan per main row.
  - Each comes with the characterisation it meets.
- `singlepass.dfy`: a one-pass fold that carries the open main material. It is proved equal to the nested scan on every sheet.
- `ascending.dfy`: strictly ascending sequences are determined by their elements. This is used to show that the outer pass's contract pins down its result.
- `resumen.dfy`: the three views of `get_all_resumen.py`, with load errors propagated.
- `upload.dfy`: `allowed_file`, `allowed_text_file`, and the material-count loop of `upload_materials_list`.
- `scenarios.dfy`: a worked example of the whole pipeline, the unparsable-price default, and the missing-header failure.

## Model

| member | source | states |
|---|---|---|
| Loader.LoadExcel | excel_parser.py:61-77 | Loading fails for three reasons, each exactly when its condition holds. A missing-column error occurs when the header test reads a column the sheet lacks: the sheet has rows but no column, or it has one column and some row's first cell is `Código`. Otherwise, with no header row anywhere, the `ValueError` of line 69 is raised. Once a header row is found, a sheet whose width is not seven fails too, since line 77 assigns seven names. The width is that of the longest row. On success the data rows are exactly the rows after the first header row, re-indexed from 0 and named positionally. |
| Loader.HeaderScan | excel_parser.py:62-69 | The header loop returns the first header row from the start position on, with no header row before it, and only on a sheet at least two columns wide. It raises a missing-column error exactly when a row is reached on a sheet with no column, or a one-column sheet has the `Código` label in column 0 at or after the start. It raises the header error exactly in the remaining cases with no header row. |
| Cells.OptStr | excel_parser.py:157-159 | An optional text field is absent exactly when its cell is missing. A text cell gives its own text, and a numeric cell gives `str()` of its number. |
| Cells.Coerce | excel_parser.py:141-154 | A missing cell gives `None`, and a numeric cell gives its value. A text cell gives what `float()` makes of it, so text that does not parse gives `None` rather than an exception. |
| Classifier.StartsWithAny | excel_parser.py:106 | `startswith` on a tuple holds iff some listed prefix begins the string. |
| Classifier.MainMaterialConditions | excel_parser.py:90-110 | A row is a main material iff code and type are present, the type is `Partida`, the price cell is present, and the stripped, lower-cased code starts with none of `moc-`, `mo-salarial`, `alq-`, `m.o.`. Both directions are proved. |
| Classifier.ExcludedCodeIsNeverMain | excel_parser.py:100-106 | A code made of whitespace, then an excluded prefix in any letter case, then anything, is never a main material, whatever the rest of the row holds. |
| Classifier.EmptyCodeCanBeMain | excel_parser.py:95-108 | The code is checked for presence only: a priced `Partida` row whose code is the empty string is a main material. |
| Extractor.ToSubMaterial | excel_parser.py:140-165 | A component records its own row index. Code, type and unit are absent exactly when their cells are missing, and otherwise are `str()` of the cell. The summary is `''` for a missing cell and `str()` of the cell otherwise. Each numeric field is `None` for a missing cell, the value for a numeric cell, and for a text cell what `float()` makes of it, `None` on failure. |
| Extractor.SubMaterialFieldsIndependent | excel_parser.py:141-154 | Quantity, price and amount are each coerced from their own cell only. Changing one numeric cell changes at most that field. |
| Extractor.MainPrice | excel_parser.py:179-182 | A main material's price is the numeric cell's value or the parsed text. It is 0.0 when the text does not parse. |
| Extractor.ToMainMaterial | excel_parser.py:184-192 | The record of a main row has type `Partida`, and its code and summary carry no surrounding whitespace. A missing unit or summary becomes `''`. It records its row index and starts with no components. |
| Extractor.MainMaterialFields | excel_parser.py:179-192 | A main material's code is its code cell with the whitespace padding removed, and so is its summary when the summary cell is present. Its unit is the unit cell as text, and its price is the price cell read as a number. |
| Extractor.GroupEnd | excel_parser.py:120-129 | The forward scan stops at the first row from `j` on that is a main material or a chapter, or at the end. No row before that point ends the group. |
| Extractor.ExtractFromExact | excel_parser.py:117-170 | The scan from `j` keeps exactly the non-blank rows before the end of the group. They are kept in strictly ascending row order, each converted from its own row. |
| Extractor.ExtractSubMaterialsExact | excel_parser.py:112-170 | The components of the main row `start` are the non-blank rows strictly between it and the next main or chapter row. None of them is itself a main or chapter row. |
| Extractor.ParseFromExact | excel_parser.py:176-197 | The outer loop from row `i` yields one entry per main row at or after `i`, and no other entries. The entries are in strictly ascending row order, and each is the main material built from its own row with its components attached. |
| Extractor.ParseMaterials | excel_parser.py:172-197 | `parse_materials` keeps the rows and lists exactly the sheet's main rows, in order, each fully built. |
| Extractor.ParseFromUnique | excel_parser.py:176-197 | That contract determines the result: two lists that both meet it are equal. |
| Extractor.NoMainRowIsSubMaterial | excel_parser.py:120-129 | No component row of any entry is a main-material or chapter row. Every component lies strictly below its own main row and strictly above the next entry's row. |
| Extractor.ParseIgnoresPreviousMaterials | excel_parser.py:174 | Parsing resets the list. Materials left from an earlier run make no difference, and parsing twice equals parsing once. |
| SinglePass.FoldFromMatches | excel_parser.py:112-197 | Whatever the accumulator holds when it reaches row `i`, the fold ends as the nested scan predicts. That is: the finished entries, then the open entry completed by the forward scan from `i`, then the outer loop from `i`. |
| SinglePass.SinglePassAgrees | excel_parser.py:172-197 | A single pass that closes the open entry at each main or chapter row gives exactly the list `parse_materials` builds, on every sheet. |
| Resumen.CodeResumenView | get_all_resumen.py:33-39 | One code/summary pair per material, same length and order, copied unchanged. |
| Resumen.ResumenView | get_all_resumen.py:63 | The summaries of the materials, same length and order. |
| Resumen.DetailView | get_all_resumen.py:89-97 | Code, type, unit, summary and price are copied unchanged, and the component count is the length of the component list. The view has the same length and order as the materials. |
| Resumen.ViewsAgree | get_all_resumen.py:33-97 | The three views have equal length. The text-only view is the summary column of the pair view, and the detailed view agrees with both on code and summary. |
| Resumen.LoadAndParse | get_all_resumen.py:26-28 | A load error is passed on unchanged. Otherwise a fresh parser yields exactly the sheet's main rows, in order, fully built. |
| Resumen.GetAllResumen | get_all_resumen.py:10-39 | Fails exactly when loading fails, with the same error. Otherwise gives one pair per parsed material, in order. |
| Resumen.GetAllResumenTextOnly | get_all_resumen.py:42-63 | Fails exactly when loading fails, with the same error. Otherwise gives the summary of each parsed material, in order. |
| Resumen.GetAllResumenWithDetails | get_all_resumen.py:66-99 | Fails exactly when loading fails, with the same error. Otherwise gives each parsed material's fields and component count, in order. |
| Resumen.DetailCountsComponents | get_all_resumen.py:96 | An entry's component count is the number of non-blank rows that the forward scan from its main row keeps. |
| Upload.LastDot | api.py:43 | Nothing is returned iff the name has no dot. Otherwise the result is the position of a dot with no dot after it. |
| Upload.FinalExtension | api.py:43 | `rsplit('.', 1)[1]` exists iff the name has a dot. It contains no dot, and the name is what lies before it, a dot, and it. |
| Upload.FinalExtensionOfAppend | api.py:43 | For `base + "." + ext` with a dot-free `ext`, the final extension is `ext`, whatever dots `base` holds. |
| Upload.ExtensionIff | api.py:41-48 | A name passes a validator iff some dot in it has no dot after it and the lower-cased text after that dot is an allowed extension. |
| Upload.FinalExtensionDecides | api.py:41-48 | `base.ext` is a workbook iff `ext`, lower-cased, is `xlsx` or `xls`, and a text file iff it is `txt`. |
| Upload.ValidatorsDisjoint | api.py:36-48 | A name without a dot passes neither validator, and no name passes both. |
| Upload.DoubleExtensionIsText | api.py:41-48 | `a.xlsx.txt` is a text file and not a workbook. |
| Upload.UpperCaseExtension | api.py:43 | `Budget.XLSX` is a workbook: the extension test ignores letter case. |
| Upload.Split | api.py:312 | `split('\n')` gives at least one piece, and no piece contains the separator. |
| Upload.JoinSplit | api.py:312 | Joining the pieces with the separator gives back the text. |
| Upload.SplitJoin | api.py:312 | Splitting a join of separator-free pieces gives back the pieces. |
| Upload.CountMaterialLines | api.py:313-317 | The material count never exceeds the number of lines. |
| Upload.CountExtremes | api.py:313-317 | The count equals the number of lines iff every line is a material line. It is zero iff none is. |
| Upload.CountAppend | api.py:313-317 | The count of two consecutive blocks of lines is the sum of their counts. |
| Upload.BlankLineNeverCounts | api.py:315-316 | A line of whitespace only is never counted. |
| Upload.MaterialCount | api.py:312-317 | The loop computes the reference count of the content's lines, which is at most the number of lines. |
| PyText.StripLeftSpec | excel_parser.py:100 | The left strip is a suffix that does not start with whitespace. Everything it drops is whitespace. |
| PyText.StripRightSpec | excel_parser.py:185 | The right strip is a prefix that does not end with whitespace. Everything it drops is whitespace. |
| PyText.StripTrimmed | excel_parser.py:185 | A stripped string has whitespace at neither end. |
| PyText.StripPadded | excel_parser.py:188 | Stripping whitespace padding off a string that does not begin or end with whitespace gives that string back. |
| PyText.StripIff | excel_parser.py:185-188 | `s.strip()` equals `r` iff `r` is a slice of `s` with whitespace at neither end and only whitespace on either side of it. Both directions are proved. |
| PyText.LowerAt | excel_parser.py:100 | Lower-casing keeps the length and maps each character on its own. |
| Scenarios.SheetLoads | excel_parser.py:62-77 | The example sheet, a header followed by four rows, loads into exactly those four rows. |
| Scenarios.WorkedExample | excel_parser.py:172-197 | The example parses into `A1`, owning the note row and the `moc-x` crew row, and `A2`, owning nothing. |
| Scenarios.UnparsablePriceIsZero | excel_parser.py:179-182 | A main row whose price reads `n/d` is still a main material, priced 0.0. |
| Scenarios.NoHeaderNoResult | excel_parser.py:68-69 | The example sheet without its header row fails to load with the header error, and so do all three views. |
| Scenarios.OneColumnWithoutLabel | excel_parser.py:64-69 | On a one-column sheet whose first cells never read `Código`, the header test never reads `row[1]`, so loading fails with the header error. |
| Scenarios.OneColumnWithLabel | excel_parser.py:64 | On a one-column sheet with a row whose first cell is `Código`, the header test reads the absent second column and loading fails with a missing-column error. |

## Left out

- pandas `read_excel` and file access. The model starts from the rows in memory. The frame's width is taken to be its longest row, with short rows padded with missing cells.
- pandas cell types other than empty, number and text, such as dates and booleans.
- IEEE floating point. Numbers are `real`. `float()` on text and `str()` on a number are the `Conv` parameters, so values such as `float('nan')` or `'inf'` are not represented.
- `print` calls, `save_to_json`, `to_dict` and `main` in `excel_parser.py`. These are logging, serialisation and file output.
- Everything in `api.py` except the two validators and the counting loop. That covers Flask routes, temporary files, the session dictionary, UUIDs, UTF-8 decoding of the upload, the streaming generator and text rendering.
- The language-model matching service, `generate_materials_list.py`, the browser script and the HTTP example clients.
- PyText.LowerAt: Python's `str.lower` does not always keep the length or map characters one at a time. U+0130 becomes two characters, and a capital sigma lower-cases differently at the end of a word. The model lower-cases character by character, for ASCII only; the next line explains why no comparison outcome changes.
- PyText.Lower: only ASCII letters are lower-cased. Every string it meets is compared with ASCII targets: the four code prefixes and the extensions `xlsx`, `xls`, `txt`. Only two non-ASCII characters lower-case to something containing an ASCII letter:
  - U+0130 gives `i` followed by a combining dot, and no target has an `i` that could be the last character matched.
  - U+212A, the Kelvin sign, gives `k`, and no target contains a `k`.
  - So the restriction changes no outcome. The model's lower-cased strings themselves differ from Python's on other non-ASCII letters.
- Upload.MaterialCount: `str.isdigit` is modelled for the ASCII digits only. Python also accepts other Unicode digits, such as superscripts and Arabic-Indic digits, at the start of a line, so the model can undercount lines that begin with them.

Two behaviours of the code are modelled as written:

- `load_excel` assigns exactly seven column names (`excel_parser.py:77`), so it raises for a sheet of any other width that has a header row. `Loader.LoadExcel` reports this as `ColumnCountMismatch`.
- `is_main_material` checks only that the code cell is present (`excel_parser.py:95`), so an empty code qualifies; see `Classifier.EmptyCodeCanBeMain`.
