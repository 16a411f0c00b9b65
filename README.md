# IA_6D carbon-footprint pipeline: a Dafny model

IA_6D reads a building model (an IFC file) and turns each building element into a
record of attributes, properties, materials and quantities. It asks a language
model for the carbon footprint of those elements against a reference workbook of
sustainability data. It then cleans the reply into a table of `ID`, `Total` and
`Unidad`, fills in the elements the reply left out, and writes the footprints back
into the IFC model as property sets, colouring each element from green to red by
its impact.

This project models the deterministic data handling around the IFC library and
the language model. The language model is an arbitrary input here. Its prompts
are opaque, and every reply is just a string the code has to cope with.

- `Wrappers`, `Seqs`, `Text`, `Dicts`, `Tables`, `Sorting` are shared vocabulary.
  They hold `Option`/`Result`, filters, distinct elements and subsequences. They
  also hold the string operations Python provides: `strip`, `lower`, `split`,
  `join`, `find`, decimal text of integers and a decimal parser. Python dicts are
  insertion-ordered key/value lists. A pandas frame is a `Frame` value, or a
  `Tables.DataFrame` object where the source assigns a column in place.
- `MarkdownBlock`, `RoleReply`, `Chunking`, `ReplyFilter`, `NormalizedTable`,
  `TotalValue` and `ExportPrep` model the inline steps of `app.py`:
  - finding the markdown table to export;
  - parsing the column-role reply;
  - cutting the element table into blocks of 20 and collecting the replies;
  - filtering the concatenated reply;
  - parsing the normalized table, with header detection, separator skipping,
    header de-duplication, row fitting, noise removal and column renaming;
  - `limpiar_valor_total`;
  - the missing-ID report;
  - the export-time ID cleaning and de-duplication.
- `GapFill` models `postprocesar_huella.py`: validation, coercion, a uniform unit
  and one zero row per missing IFC id.
- `Reinjection` models `funciones/agregar_huella_ifc.py`:
  - the per-row validation and error list;
  - the new `ImpactoAmbiental` property set per accepted row;
  - the green-yellow-red interpolation;
  - the colour-keyed style cache.

  The IFC model is a class whose list of created entities only grows.
- `Extraction` models `funciones/procesar_ifc_con_progreso.py`:
  - the placeholder filter `es_valor_valido`;
  - property keys and values;
  - material consolidation;
  - IFC4 quantity selection;
  - the record merge order;
  - the progress fractions.
- `ReferenceSheets` models `funciones/cargar_base.py`, `SheetRendering` models
  `funciones/utils/formatear_hojas_para_ia.py`, `VolumeAnalysis` models
  `funciones/analizar_materiales.py`, and `MaterialMapping` models
  `funciones/utils/normalizar_materiales_ifc.py`.

Loops of the source are methods with loop invariants, proved equal to a
specification function. The properties are proved as lemmas about those
functions. The sections that follow list each member and what its contract
states, then what the model leaves out.

## Model

| member | source | states |
|---|---|---|
| MarkdownBlock.FindTable | app.py:23-31 | the result is the stripped first `\n\n`-separated piece that is a table block, or `None` when there is none |
| MarkdownBlock.IsTableBlock | app.py:26 | a block qualifies exactly when, once stripped, it starts with `|` and holds more than two bars; `FoundTable` shows `FindTable` returns the first such block |
| MarkdownBlock.FoundTable | app.py:23-28 | the piece found starts with `\|`, holds at least three bars and is stripped, and no earlier piece qualifies; with no result, no piece qualifies |
| RoleReply.ParseRoles | app.py:152-156 | the dictionary the loop builds is the fold of the line parser over the reply's stripped lines |
| RoleReply.Fold | app.py:152-156 | the dictionary obtained by writing each line's pair in line order, so a key's value comes from its last line (`FoldKeys`, `FoldLastWins`) |
| RoleReply.KeyValue | app.py:154-156 | a line holding `:` is cut at its first `:` into a stripped key and a stripped value, and any other line gives no pair (`KeyValueSome`, `KeyValueAtFirstColon`) |
| RoleReply.KeyValueSome | app.py:153-154 | exactly the lines holding a `:` are read as key-value pairs |
| RoleReply.KeyValueAtFirstColon | app.py:155 | a line is cut at its first `:`, into a stripped key and a stripped value |
| RoleReply.DetectedSnoc | app.py:152-156 | reading one more line updates the dictionary by that line alone |
| RoleReply.DetectedKeys | app.py:152-156 | a key is detected exactly when some line carries it |
| RoleReply.FoldKeys | app.py:152-156 | the keys of the fold are exactly the keys of the parsed lines |
| RoleReply.DetectedLastWins | app.py:156 | of several lines with the same key, the last one gives the value |
| RoleReply.FoldLastWins | app.py:156 | in the fold, the last line with a key gives its value |
| RoleReply.RolesOf | app.py:158-161 | the four roles are the dictionary's values for `material_col`, `cantidad_col`, `unidad_col` and `guid_col`, each absent when the reply never names it (`ValidColumns`) |
| RoleReply.ValidColumns | app.py:163 | at most four names; a name is kept exactly when it is a column and some role names it; the kept names follow role order |
| RoleReply.Labels | app.py:166-169 | one new label per kept column |
| RoleReply.Resolve | app.py:163-169 | the selected table keeps every row and has one column per valid role name |
| RoleReply.ResolveCells | app.py:163-169 | column `j` of the result is the column named by the `j`-th valid role, under its canonical label, with the same cells |
| RoleReply.AllRolesResolved | app.py:166-169 | four distinct existing role columns come out labelled Material, Cantidad, Unidad, ID |
| RoleReply.AllRolesValid | app.py:163 | four existing role columns are all kept, in role order |
| RoleReply.SharedColumnTakesLaterRole | app.py:166 | a column named both as material and as id is labelled ID, because the later dict key wins |
| Chunking.Chunks | app.py:215-217 | there are `len(range(0, n, 20))` blocks |
| Chunking.ChunkStartInside | app.py:217 | each block starts at a row inside the table |
| Chunking.ChunksStep | app.py:217 | the first block is the first 20 rows, or all the rows when fewer; the remaining blocks are the blocks of the rest |
| Chunking.ChunksConcat | app.py:217 | the blocks, concatenated in order, give back the table |
| Chunking.ChunkSizes | app.py:217 | no block is empty or longer than 20 rows, and every block but the last holds exactly 20 |
| Chunking.ChunkCount | app.py:217 | the number of blocks is the least that can hold the table, and zero only for an empty table |
| Chunking.CollectReplies | app.py:218-255 | `respuesta_total` is each block's stripped reply plus a line break, concatenated in block order |
| Chunking.Replies | app.py:253-255 | each block's reply, stripped and ended by a line break, in block order (`ReplyStep`, `RepliesShape`) |
| Chunking.ReplyStep | app.py:255 | one block more appends its stripped reply and a line break |
| Chunking.RepliesShape | app.py:255 | the collected text is empty exactly when there are no blocks, and otherwise ends with a line break |
| ReplyFilter.ShortTokenIsShort | app.py:275 | the noise test is only the length test, since a token of at most six characters is already shorter than ten |
| ReplyFilter.IsNoise | app.py:275 | a line is noise when its stripped text is shorter than 10 characters or is a 1-6 character token of `[a-zA-Z0-9$-_]`; `ShortTokenIsShort` shows the token test adds nothing to the length test |
| ReplyFilter.KeepFirstSnoc | app.py:263-277 | one more line is kept exactly when it is the first header or passes the filter |
| ReplyFilter.KeepFirstSnocAfter | app.py:266-269 | after the first header, a line is kept exactly when it passes the filter |
| ReplyFilter.KeepFirstSnocHeader | app.py:266-268 | the first header line is kept |
| ReplyFilter.KeepFirstSnocBefore | app.py:270-277 | before any header, a non-header line is kept exactly when it passes the filter |
| ReplyFilter.FilterLines | app.py:263-277 | the loop keeps the first header and otherwise the lines that are neither headers, alignment rows nor short |
| ReplyFilter.Kept | app.py:263-277 | the first header line together with every line that is neither a header, a separator nor noise, in input order (`KeptIsSubSeq`, `KeptLines`, `KeptHasOneHeader`, `KeepableKept`) |
| ReplyFilter.CleanReply | app.py:261-279 | the cleaned reply is the kept lines of the stripped reply, joined by line breaks |
| ReplyFilter.KeptIsSubSeq | app.py:263-277 | the kept lines are an order-preserving subsequence of the input lines |
| ReplyFilter.KeepFirstSubSeq | app.py:263-277 | any filter of this shape keeps a subsequence of its input |
| ReplyFilter.KeptLines | app.py:264-277 | a kept header is the first header of the input; every other kept line has at least ten characters once stripped and is not an alignment row |
| ReplyFilter.KeptHasOneHeader | app.py:266-269 | no two kept lines are headers |
| ReplyFilter.AroundKeepable | app.py:263-277 | the lines around the header are all non-header lines that pass the filter |
| ReplyFilter.KeepableKept | app.py:270-277 | every non-header line that passes the filter is kept |
| NormalizedTable.SeparatorBars | app.py:393 | a separator line has at most two bars, so a line with three or more is always a table line |
| NormalizedTable.Dedup | app.py:396-405 | the de-duplicated header has the raw header's length |
| NormalizedTable.DedupHeader | app.py:396-405 | the counter loop gives name `k` times seen as `name_k`, and a first occurrence unchanged |
| NormalizedTable.DedupStep | app.py:398-405 | each name is suffixed by how often it occurred before it |
| NormalizedTable.SeenStep | app.py:398-405 | the `Counter` holds, for every name, its count in the prefix read so far |
| NormalizedTable.CountSnoc | app.py:405 | one name more raises its own count by one and no other |
| NormalizedTable.DedupFirst | app.py:402-403 | the first occurrence of a name is unchanged |
| NormalizedTable.DedupSeparatesRepeats | app.py:398-405 | two occurrences of the same raw name get different labels |
| NormalizedTable.SuffixedInjective | app.py:401 | different repeat counts give different suffixed names |
| NormalizedTable.DedupKeepsClash | app.py:398-405 | `a, a_1, a` becomes `a, a_1, a_1`: a suffixed name can clash with a raw one |
| NormalizedTable.TableLineCells | app.py:393-409 | a line with two bars splits into at least three cells |
| NormalizedTable.LeadingBarCell | app.py:408-409 | a row starting with `\|` gets an empty first cell, which shifts its cells by one against the header |
| NormalizedTable.Fit | app.py:411-414 | the fitted row has exactly the header's width, holding the row's cells and then empty cells |
| NormalizedTable.FitExact | app.py:411-414 | a row of the header's width is unchanged |
| NormalizedTable.FitRow | app.py:412-414 | the padding loop and the slice give the fitted row |
| NormalizedTable.LineCells | app.py:407-410 | one cell list per table line |
| NormalizedTable.ParseRows | app.py:407-414 | the row loop gives the fitted rows of the lines with at least two cells |
| NormalizedTable.TableLinesCells | app.py:393-409 | every table line has at least three cells |
| NormalizedTable.DataRowsOfCells | app.py:411-414 | rows with at least two cells are all kept, each fitted |
| NormalizedTable.DataRowsOfTableLines | app.py:393-414 | the length check never drops a table line: there is one fitted row per line |
| NormalizedTable.DataRowsWidth | app.py:414 | every data row has the header's width |
| NormalizedTable.BuildRenameDict | app.py:423-431 | the loop builds the rename dictionary of the column rules |
| NormalizedTable.RenameDict | app.py:423-431 | each column whose lower-cased name meets one of the id, total and unidad rules maps to `ID`, `Total` or `Unidad` by the first rule met, and no other column has an entry (`RenamedLabels`) |
| NormalizedTable.Relabel | app.py:432 | relabelling keeps the number of columns |
| NormalizedTable.RenamedLabels | app.py:423-432 | a column with `id` and not `unidad` becomes ID; else one with `total` becomes Total; else one with `unidad` becomes Unidad; any other keeps its name |
| NormalizedTable.ConvertRow | app.py:440-457 | a converted row has one cell per label, plus the unit cell when the unit is added |
| NormalizedTable.CheckLabels | app.py:434-438 | a failure is a missing or a duplicated required column; success means ID and Total occur exactly once |
| NormalizedTable.Converted | app.py:440-457 | one converted row per data row |
| NormalizedTable.Build | app.py:440-459 | the rows converted, a `Unidad` column of the default label when there is none, rows with an empty ID dropped, and of rows sharing an ID the first kept (`BuildShape`, `BuildDistinctIds`) |
| NormalizedTable.NormalizeReply | app.py:388-459 | the parser's result is `Normalize` of the reply, stops included: no header line, no table line, or a missing or doubled ID or Total column. A header with no data line loses every column to the noise filter, so both ID and Total are reported missing |
| NormalizedTable.FromTableLines | app.py:396-438 | the parse stops when there is no table line; with no data row the noise filter keeps no column and both ID and Total are missing; otherwise the de-duplicated, stripped and relabelled header must hold `ID` and `Total` once each (`HeaderOnlyLines`, `FromTableLinesFound`, `CheckLabels`) |
| NormalizedTable.Normalize | app.py:388-459 | "header not found" exactly when no line holds a bar, `id` and `total`; otherwise the parse of the table lines from that header on, where a header with no table line after it stops with `ID` and `Total` both missing (`HeaderNotFoundIff`, `HeaderOnlyFails`, `NormalizeShape`) |
| NormalizedTable.NormalizeStep | app.py:388-479 | the parse followed by the comparison with the original table, failing when that table has no column (`NormalizeStepSpec`, `AfterParseSpec`, `CompareSpec`) |
| NormalizedTable.HeaderNotFoundIff | app.py:389-391 | the parse fails with "header not found" exactly when no line holds a bar, `id` and `total` |
| NormalizedTable.TableLinesNone | app.py:389 | no table lines are found exactly when no line is a header candidate |
| NormalizedTable.TableLinesFirst | app.py:389-393 | the table starts at the first header candidate |
| NormalizedTable.FromTableLinesFound | app.py:389-459 | once a header is found, the parse never fails with "header not found" |
| NormalizedTable.HeaderOnlyFails | app.py:407-438 | a reply whose header is its only table line stops with `ID` and `Total` both reported missing, because the noise filter over a frame with no row selects no column; with more table lines the column check runs on the parsed header |
| NormalizedTable.HeaderOnlyLines | app.py:407-438 | the same on the table lines: every table line after the header gives a data row, so the columns are lost only when there is none |
| NormalizedTable.EmptyFrameMissing | app.py:423-438 | a frame with no column has both `ID` and `Total` missing |
| NormalizedTable.RowsShape | app.py:407-421 | every surviving row has the header's width and is not a noise row |
| NormalizedTable.ConvertRowGood | app.py:440-452 | a converted row has a stripped text ID and a numeric Total |
| NormalizedTable.ConvertedGood | app.py:440-452 | every converted row has a stripped text ID and a numeric Total |
| NormalizedTable.BuildShape | app.py:440-459 | the built table has ID, Total and Unidad columns, is rectangular, and every row has a non-empty stripped ID and a numeric Total |
| NormalizedTable.KeptGood | app.py:459 | the rows kept after dropping empty IDs and duplicates are well formed and none has an empty ID |
| NormalizedTable.BuildDistinctIds | app.py:459 | no two rows of the table share an ID |
| NormalizedTable.NormalizeShape | app.py:388-459 | a successful parse has ID, Total and Unidad columns, is rectangular, and came from a header followed by at least one data line |
| NormalizedTable.MissingReport | app.py:466-473 | no warning when every original ID is in the table, and otherwise the text listing the missing IDs sorted, one per line (`MissingListed`) |
| NormalizedTable.MissingListed | app.py:466-473 | the listed missing IDs are sorted and are exactly the original IDs the table lacks; nothing is reported when none is missing |
| NormalizedTable.OriginIds | app.py:467 | no IDs (the `IndexError` of `iloc[:, 0]`) exactly when the original table has no column; otherwise one stripped text per row, that of its first cell |
| NormalizedTable.ParsedIds | app.py:468 | the text of each row's `ID` cell, one per row |
| NormalizedTable.CompareSpec | app.py:466-473 | the comparison lists, sorted, the original IDs no parsed row carries, and shows a report exactly when there is one |
| NormalizedTable.AfterParseSpec | app.py:462-479 | a failed parse passes its error on; an original table with no column ends the step with nothing stored; otherwise the parsed table is stored, compared with the original's first column exactly when there is an original table |
| NormalizedTable.NormalizeStepSpec | app.py:388-479 | the whole step stores a table exactly when the parse succeeds and the original table, if any, has a column, and the stored table is the parsed one |
| TotalValue.RunLength | app.py:443 | the run from `i` stays inside the text, holds only `[-0-9.,]` characters, and is maximal |
| TotalValue.CleanTotal | app.py:442-450 | `limpiar_valor_total`: the first maximal run of `[-0-9.,]`, commas removed, parsed as a decimal, and 0.0 when there is no run or the parse fails (`NumberRunAt`, `CleanTotalNoNumber`, `CleanTotalOfInt` and the example lemmas below) |
| TotalValue.NumberRunAt | app.py:443 | the match is the first maximal run of number characters |
| TotalValue.NumberRunNone | app.py:443-450 | there is no match exactly when the text holds no number character |
| TotalValue.RunLengthExact | app.py:443 | the run length is the distance to the first non-number character |
| TotalValue.CleanTotalNoNumber | app.py:450 | a text without number characters gives 0.0 |
| TotalValue.CleanTotalOfInt | app.py:442-450 | the decimal text of an integer gives back that integer |
| TotalValue.IntTextNumberChars | app.py:443 | the decimal text of an integer consists only of number characters |
| TotalValue.AllRun | app.py:443 | in a text that is all number characters, the run covers the rest of it |
| TotalValue.RemoveAbsent | app.py:445 | removing a character the text lacks changes nothing |
| TotalValue.ExampleThousands | app.py:442-450 | `"1,234.56 kg"` gives 1234.56 |
| TotalValue.ExampleRemoveComma | app.py:445 | the comma is removed from `"1,234.56"` |
| TotalValue.ExampleParse | app.py:447 | `"1234.56"` parses as 1234.56 |
| TotalValue.ExamplesNoNumber | app.py:450 | `"N/D"` and `""` give 0.0 |
| TotalValue.ExampleNegative | app.py:442-450 | `"-3.2"` gives -3.2 |
| TotalValue.ExampleParseNegative | app.py:447 | `"-3.2"` parses as -3.2 |
| ExportPrep.DashPlaceholdersRedundant | app.py:496-497 | an ID is valid exactly when it is not `""`, `"None"` or `"none"` and not all dashes; the listed dash strings are all dashes |
| ExportPrep.ExportCell | app.py:495-524 | an `ID` cell becomes its stripped text, a `Total` cell the cleaned number, a missing `Unidad` cell the default label, and any other cell stays as it is (`ExportRowGood`, `ExportRowsId`) |
| ExportPrep.ExportRow | app.py:495-524 | an exported row has one cell per column, plus the unit when the unit is added |
| ExportPrep.ExportRows | app.py:495-515 | one exported row per row |
| ExportPrep.CheckExport | app.py:494-518 | the error is a missing ID column exactly when there is none, and a missing Total column exactly when there is one ID but no Total |
| ExportPrep.NoIdFirst | app.py:493-518 | the ID column is checked before the Total column |
| ExportPrep.ExportRowGood | app.py:495-524 | an exported row with a kept ID has a valid stripped ID, a numeric Total and a unit |
| ExportPrep.KeepFirstGood | app.py:496-527 | dropping rows and duplicates keeps only valid rows |
| ExportPrep.KeepFirst | app.py:496-527 | the rows with a valid ID, and of rows sharing an ID only the first (`KeepFirstGood`, `KeepFirstIds`) |
| ExportPrep.KeepFirstIds | app.py:527 | after `drop_duplicates` no ID repeats, and every kept ID of the input is still present |
| ExportPrep.ExportRowsGood | app.py:495-524 | every exported row with a kept ID is well formed |
| ExportPrep.ExportRowsId | app.py:495 | the ID cell of an exported row is the stripped text of the original ID |
| ExportPrep.ExportShape | app.py:490-527 | the exported table keeps the stripped labels first, has ID, Total and Unidad, and every row is well formed |
| ExportPrep.PrepareExport | app.py:490-527 | stops at the first missing required column, `ID` before `Total`; otherwise the cleaned table with valid, distinct IDs (`NoIdFirst`, `ExportShape`, `ExportIds`) |
| ExportPrep.BuildExportShape | app.py:495-527 | the built table keeps the labels first, adds Unidad when absent, and every row is well formed |
| ExportPrep.BuildExport | app.py:495-527 | the rows cleaned, a `Unidad` column of the default label when there is none, and `KeepFirst` applied (`BuildExportShape`, `BuildExportIds`) |
| ExportPrep.ExportIds | app.py:495-527 | the exported IDs are distinct, and every valid stripped ID of the input appears among them |
| ExportPrep.BuildExportIds | app.py:495-527 | the built table's IDs are distinct and keep every valid input ID |
| GapFill.CellLessIrreflexive | postprocesar_huella.py:19 | the order that breaks ties in the unit mode is irreflexive |
| GapFill.CellLessTransitive | postprocesar_huella.py:19 | the tie-breaking order is transitive |
| GapFill.CellLessTotal | postprocesar_huella.py:19 | any two distinct present units are ordered one way or the other |
| GapFill.Present | postprocesar_huella.py:19 | the present cells are exactly the non-missing cells of the column |
| GapFill.Frequent | postprocesar_huella.py:19 | the chosen candidate occurs at least as often as every other, and ties go to the least in the order |
| GapFill.FrequentHead | postprocesar_huella.py:19 | a candidate that beats the best of the rest beats all of them |
| GapFill.UniformUnit | postprocesar_huella.py:19 | the uniform unit is never missing |
| GapFill.UnitIsMode | postprocesar_huella.py:19 | with every unit missing the unit is `kg CO₂ eq`; otherwise it is a most frequent present unit, the least one on a tie |
| GapFill.UnitOfUniform | postprocesar_huella.py:19 | a column holding one unit throughout keeps that unit |
| GapFill.Unit | postprocesar_huella.py:19 | the unit every row receives: the mode of the `Unidad` column, or the default label when every cell is missing (`UnitIsMode`, `UnitOfUniform`) |
| GapFill.CleanRow | postprocesar_huella.py:15-20 | a cleaned row keeps its width |
| GapFill.CleanCell | postprocesar_huella.py:15-20 | an `ID` cell becomes its stripped text, a `Total` cell its numeric value or 0, every `Unidad` cell the chosen unit, and other cells stay (`CleanedCell`) |
| GapFill.Cleaned | postprocesar_huella.py:15-20 | the cleaned frame keeps its labels and its row count, and stays rectangular |
| GapFill.FillRow | postprocesar_huella.py:27-31 | a filler row has one cell per column |
| GapFill.MissingIds | postprocesar_huella.py:23-24 | the entries of `ids_ifc` absent from the cleaned IDs, in `ids_ifc` order and with repeats kept (`AddedPerId`, `Complete`) |
| GapFill.FillRowsIds | postprocesar_huella.py:27-34 | the appended rows carry the missing ids in the order given, one row per id, and no other id |
| GapFill.PostProcessed | postprocesar_huella.py:12-13 | the call fails exactly when ID, Total or Unidad is missing |
| GapFill.PostProcess | postprocesar_huella.py:3-35 | the method returns the specification's result; on failure the caller's frame is unchanged, and on success it holds the cleaned columns |
| GapFill.AssignsGiveCleaned | postprocesar_huella.py:15-20 | the three column assignments in sequence give the cleaned frame |
| GapFill.CleanedByAssigns | postprocesar_huella.py:15-20 | a frame that agrees with the cleaning rules cell by cell is the cleaned frame |
| GapFill.CleanedCell | postprocesar_huella.py:15-20 | an ID becomes stripped text; a numeric Total is kept and a missing or unparseable one becomes 0.0; a unit becomes the uniform unit; other cells are unchanged |
| GapFill.ReturnedRows | postprocesar_huella.py:23-34 | the result is the cleaned rows in order, then one row per missing id with that id, Total 0, the uniform unit and nothing else |
| GapFill.AddedPerId | postprocesar_huella.py:24 | a missing id is added once per occurrence in `ids_ifc`, and a present one never |
| GapFill.Complete | postprocesar_huella.py:23-34 | every id of `ids_ifc` appears among the result's IDs |
| GapFill.PresentIdsAppend | postprocesar_huella.py:34 | the IDs of concatenated rows are the union of both parts' IDs |
| GapFill.FillRowId | postprocesar_huella.py:28 | a filler row carries its id |
| GapFill.NothingAdded | postprocesar_huella.py:23-34 | when every id is present, the result is the cleaned frame with no row added |
| GapFill.SettledRowFixed | postprocesar_huella.py:15-20 | a row already in cleaned form is unchanged by cleaning |
| GapFill.SettledFixed | postprocesar_huella.py:15-20 | a frame already in cleaned form keeps its unit and is unchanged by cleaning |
| GapFill.CleanedRowSettled | postprocesar_huella.py:15-20 | every cleaned row is in cleaned form |
| GapFill.FillRowSettled | postprocesar_huella.py:27-31 | a filler row with a stripped id is in cleaned form |
| GapFill.ReturnedSettled | postprocesar_huella.py:15-34 | with stripped ids, the whole result is in cleaned form under the uniform unit |
| GapFill.Idempotent | postprocesar_huella.py:3-35 | with stripped ids, applying the function to its own result gives that result back |
| GapFill.PaddedIdMissing | postprocesar_huella.py:23-24 | an id with surrounding blanks is never found among the stripped IDs, so it is always added |
| GapFill.NotIdempotentWhenPadded | postprocesar_huella.py:23-34 | with such an id, a second application adds rows again |
| GapFill.OneUnit | postprocesar_huella.py:19-30 | every row of the result carries the uniform unit |
| Reinjection.Spread | funciones/agregar_huella_ifc.py:13-15 | the range is positive whenever the minimum is at most the maximum: `1e-6` when they are equal |
| Reinjection.Norm | funciones/agregar_huella_ifc.py:20 | a value's position between the minimum and the maximum, within [0, 1] for a value of the column (`NormInUnit`) |
| Reinjection.ColourKey | funciones/agregar_huella_ifc.py:21-26 | below one half red rises with the value at full green, from one half on green falls at full red, so every key lies on those two edges (`KeyOnEdges`, `ColourEnds`) |
| Reinjection.Colour | funciones/agregar_huella_ifc.py:19-28 | the key's levels over 255 with no blue: green for the minimum, yellow at one half, red for the maximum (`KeyDeterminesColour`, `ColourEnds`, `AllEqualGreen`) |
| Reinjection.KeyDeterminesColour | funciones/agregar_huella_ifc.py:19-45 | two values get the same colour exactly when they get the same `(r, g)` key, and blue is always 0 |
| Reinjection.ColourEnds | funciones/agregar_huella_ifc.py:13-28 | the minimum maps to green `(0, 1, 0)`, the maximum of a non-constant column to red `(1, 0, 0)`, and 0.5 to yellow `(1, 1, 0)` |
| Reinjection.AllEqualGreen | funciones/agregar_huella_ifc.py:15-28 | when all Totals are equal, every element is green |
| Reinjection.NormInUnit | funciones/agregar_huella_ifc.py:13-20 | a value between the minimum and the maximum normalizes into `[0, 1]` |
| Reinjection.KeyOnEdges | funciones/agregar_huella_ifc.py:21-26 | a key has `g = 255` with `r` in 0..255, or `r = 255` with `g` in 0..255, so there are at most 511 keys; `r` rises and `g` falls with the value |
| Reinjection.MinOf | funciones/agregar_huella_ifc.py:13 | the minimum is a Total and no Total is below it |
| Reinjection.MaxOf | funciones/agregar_huella_ifc.py:14 | the maximum is a Total and no Total is above it |
| Reinjection.PaintOne | funciones/agregar_huella_ifc.py:47-57 | painting one item only appends entities, and adds exactly the item's key to the cache |
| Reinjection.PaintAppend | funciones/agregar_huella_ifc.py:41-57 | painting two lists of items in turn is painting their concatenation |
| Reinjection.PaintOneExact | funciones/agregar_huella_ifc.py:47-57 | one more item keeps the cache pointing at the style created for each key |
| Reinjection.PaintOneStyled | funciones/agregar_huella_ifc.py:57 | one more item adds exactly one styled item, for that item and its key |
| Reinjection.PaintExact | funciones/agregar_huella_ifc.py:17-57 | from an empty cache, the cache maps each key to the one style created for it, and earlier entities are untouched |
| Reinjection.PaintStyled | funciones/agregar_huella_ifc.py:41-57 | every item gets exactly one styled item, in order, with its own key |
| Reinjection.PaintKeys | funciones/agregar_huella_ifc.py:47-55 | the cache's keys are exactly the keys of the painted items |
| Reinjection.OneStylePerKey | funciones/agregar_huella_ifc.py:47-55 | no two styles are created for the same key |
| Reinjection.TotalsOfCoerced | funciones/agregar_huella_ifc.py:11-14 | the minimum and maximum are taken over the coerced column: a number stays, a text becomes the value `pd.to_numeric` reads from it, and anything else becomes 0 |
| Reinjection.ScaleOf | funciones/agregar_huella_ifc.py:13-15 | the scale's range is always positive |
| Reinjection.AllKeysOnEdges | funciones/agregar_huella_ifc.py:30-57 | every key the loop uses lies on the green-yellow or the yellow-red edge |
| Reinjection.ProductJobsKey | funciones/agregar_huella_ifc.py:41-44 | every job of a product has that product's key |
| Reinjection.RepJobsKey | funciones/agregar_huella_ifc.py:41-44 | every job of a list of representations has the given key |
| Reinjection.RowJobs | funciones/agregar_huella_ifc.py:30-57 | nothing for a GUID the model does not hold or an element without a representation; otherwise one job per item of each representation that has items, all with the row's colour key (`ProductJobsKey`) |
| Reinjection.AllJobs | funciones/agregar_huella_ifc.py:30-57 | the jobs of every row in row order, each on the two colour edges (`AllJobsSnoc`, `AllKeysOnEdges`, `PaintStyled`) |
| Reinjection.DecideOutcome | funciones/agregar_huella_ifc.py:74-94 | one row gives at most one property set and one error, and exactly one of an error and a filled property set. It is filled exactly when the ID is non-empty, the Total is present, the GUID is known and `float` accepts the Total, and then it holds that number and the unit. A set is created only for a known GUID, and always under the name `ImpactoAmbiental` |
| Reinjection.Decide | funciones/agregar_huella_ifc.py:78-94 | an empty ID or a missing Total gives one error and no property set, an unknown GUID one error and no property set, and otherwise one new `ImpactoAmbiental` set, with an error too when `float` fails (`DecideOutcome`) |
| Reinjection.RowOutcome | funciones/agregar_huella_ifc.py:73-94 | the same for a table row, with its stripped ID, its Total and its unit, `kg CO2 eq` by default |
| Reinjection.PassBalance | funciones/agregar_huella_ifc.py:71-94 | the errors and the filled property sets together number the rows; every created entity is an `ImpactoAmbiental` set of a known element |
| Reinjection.PsetPass | funciones/agregar_huella_ifc.py:73-94 | the entities and error entries of every row in row order (`PsetPassSnoc`, `PassBalance`) |
| Reinjection.PsetPassSnoc | funciones/agregar_huella_ifc.py:73-94 | one row more appends that row's entities and errors |
| Reinjection.PassStep | funciones/agregar_huella_ifc.py:73-94 | the loop step appends the decision for the next row |
| Reinjection.AllJobsSnoc | funciones/agregar_huella_ifc.py:30-57 | one row more appends that row's paint jobs |
| Reinjection.PaintRowStep | funciones/agregar_huella_ifc.py:30-57 | painting one row more continues from the state after the rows before it |
| Reinjection.OutputPath | funciones/agregar_huella_ifc.py:98-99 | the output path is `resultados/<name>`, or the name itself when it is absolute |
| Reinjection.CoercedTotals | funciones/agregar_huella_ifc.py:11 | the coerced table keeps its labels, its rows and its shape |
| Reinjection.IfcModel.constructor | funciones/agregar_huella_ifc.py:70 | the model starts with the given element lookup and entities |
| Reinjection.IfcModel.PaintItems | funciones/agregar_huella_ifc.py:43-57 | the item loop paints exactly the item jobs, from the given cache |
| Reinjection.IfcModel.PaintProduct | funciones/agregar_huella_ifc.py:37-57 | the representation loops paint exactly the product's jobs |
| Reinjection.IfcModel.ApplyColours | funciones/agregar_huella_ifc.py:6-57 | without ID or Total it raises and changes nothing; otherwise Total is coerced in place and the entities are the paint of every row's jobs, from an empty cache |
| Reinjection.IfcModel.PaintRows | funciones/agregar_huella_ifc.py:30-57 | the row loop paints the jobs of every row in order |
| Reinjection.IfcModel.AddFootprints | funciones/agregar_huella_ifc.py:71-94 | the row loop appends exactly the rows' property sets, and the error list is the rows' errors |
| Reinjection.Reinject | funciones/agregar_huella_ifc.py:60-106 | a missing file, then a missing Total, then a missing ID raise and change nothing. Otherwise the call always succeeds: the property sets are appended, Total is coerced, the colours are painted, and the result is the output path with the errors and whether the log is written, which is exactly when there is an error |
| Extraction.StringValidity | funciones/procesar_ifc_con_progreso.py:7-11 | a text is valid exactly when, stripped and lower-cased, it is not one of the seven placeholders; the empty text is among them |
| Extraction.IsValid | funciones/procesar_ifc_con_progreso.py:7-11 | `es_valor_valido`: false for a falsy value and for a placeholder once trimmed and lower-cased, true otherwise (`StringValidity`, `PlaceholderInvalid`, `IntValidity`, `BoolValidity`) |
| Extraction.DigitsNotPlaceholder | funciones/procesar_ifc_con_progreso.py:11 | a non-empty digit string is never a placeholder |
| Extraction.LowerDigits | funciones/procesar_ifc_con_progreso.py:10 | lower-casing leaves a digit string unchanged |
| Extraction.IntValidity | funciones/procesar_ifc_con_progreso.py:7-11 | an integer is valid exactly when it is not 0 |
| Extraction.BoolValidity | funciones/procesar_ifc_con_progreso.py:7-11 | a boolean is valid exactly when it is true |
| Extraction.NameValidity | funciones/procesar_ifc_con_progreso.py:58-59 | the name filter is `es_valor_valido` applied to the name, and a missing name is invalid |
| Extraction.MaterialsSpec | funciones/procesar_ifc_con_progreso.py:46-60 | the materials hold no duplicate, and a name is among them exactly when some material relation of the element offers it as a valid name |
| Extraction.Materials | funciones/procesar_ifc_con_progreso.py:46-60 | the valid material names of the element's relations, stripped, each once (`MaterialsSpec`, `ConcreteExample`) |
| Extraction.MaterialNameShape | funciones/procesar_ifc_con_progreso.py:58-60 | a collected material is never empty and never `n/a` in any case |
| Extraction.JoinLength | funciones/procesar_ifc_con_progreso.py:84 | joining two or more names with `, ` is longer than the first two names and the separator |
| Extraction.MaterialTextNA | funciones/procesar_ifc_con_progreso.py:84 | `Material_IFC` is `N/A` exactly when the element has no valid material |
| Extraction.TextNA | funciones/procesar_ifc_con_progreso.py:84 | for names that are neither empty nor `n/a`, the joined text is `N/A` exactly when there are none |
| Extraction.PlaceholderLength | funciones/procesar_ifc_con_progreso.py:11 | a text of six to ten characters is no placeholder |
| Extraction.ConcreteIsValid | funciones/procesar_ifc_con_progreso.py:58-60 | `Concrete` passes the filter unchanged |
| Extraction.EmptyIsInvalid | funciones/procesar_ifc_con_progreso.py:8-9 | the empty name is rejected |
| Extraction.NaIsInvalid | funciones/procesar_ifc_con_progreso.py:10-11 | `n/a` is rejected |
| Extraction.PlaceholderInvalid | funciones/procesar_ifc_con_progreso.py:10-11 | a name that strips and lower-cases to a placeholder is rejected |
| Extraction.ConcreteExample | funciones/procesar_ifc_con_progreso.py:47-84 | the names `""`, `Concrete`, `n/a`, `Concrete` give `Material_IFC` = `Concrete` |
| Extraction.ExampleNames | funciones/procesar_ifc_con_progreso.py:58-60 | the same names leave two `Concrete` before de-duplication |
| Extraction.PropsLastWins | funciones/procesar_ifc_con_progreso.py:36-44 | a property key holds the value of its last write, so a later property set overrides an earlier one |
| Extraction.Props | funciones/procesar_ifc_con_progreso.py:35-44 | one `<PsetName>_<PropName>` key per property of a property set of the element, the last write winning (`PropsLastWins`, `PropKeys`) |
| Extraction.KeysMember | funciones/procesar_ifc_con_progreso.py:44 | a key is present exactly when some entry carries it |
| Extraction.PropKeys | funciones/procesar_ifc_con_progreso.py:36-44 | a key is present exactly when some relation for the element is an `IfcPropertySet` with a property giving that `<PsetName>_<PropName>` key |
| Extraction.QuantitiesSpec | funciones/procesar_ifc_con_progreso.py:69-79 | outside IFC4 there are no quantities; no stored quantity is None; a key holds its last write; every key comes from a quantity of a relation of the element whose selected value is not None |
| Extraction.Quantities | funciones/procesar_ifc_con_progreso.py:69-79 | nothing outside IFC4; in IFC4 each quantity's selected value under its name, `None` skipped, the last one winning (`QuantitiesSpec`) |
| Extraction.MergeGet | funciones/procesar_ifc_con_progreso.py:81-86 | a merged key takes its value from the quantities first, then `Material_IFC`, then the properties, then the element data |
| Extraction.Merge | funciones/procesar_ifc_con_progreso.py:81-86 | a key takes the quantity's value, else `Material_IFC`, else the property's, else the attribute's (`MergeGet`, `MergePrecedence`) |
| Extraction.PropsUnique | funciones/procesar_ifc_con_progreso.py:44 | the property dict has unique keys |
| Extraction.QuantitiesUnique | funciones/procesar_ifc_con_progreso.py:79 | the quantity dict has unique keys |
| Extraction.MergePrecedence | funciones/procesar_ifc_con_progreso.py:81-86 | in a record, quantities beat `Material_IFC`, which beats property fields, which beat element attributes |
| Extraction.Record | funciones/procesar_ifc_con_progreso.py:29-86 | the element's record: its attributes, properties, consolidated materials and quantities merged in that order, its `ID` the element's GlobalId unless an attribute or a quantity is itself called `ID` (`RecordId`, `MergePrecedence`) |
| Extraction.PropKeyHasUnderscore | funciones/procesar_ifc_con_progreso.py:44 | every property key contains `_` |
| Extraction.RecordId | funciones/procesar_ifc_con_progreso.py:29-86 | when no quantity or attribute is called `ID`, the record's ID is the GlobalId |
| Extraction.AttributeKeys | funciones/procesar_ifc_con_progreso.py:62-67 | every copied attribute is an attribute of the element |
| Extraction.WriteProperties | funciones/procesar_ifc_con_progreso.py:40-44 | the property loop writes every property of a set under its prefixed key, in order |
| Extraction.CollectProps | funciones/procesar_ifc_con_progreso.py:35-44 | the relation loop builds the element's property dict |
| Extraction.CandidateNames | funciones/procesar_ifc_con_progreso.py:51-57 | the candidates are the material's own name, then its layers' material names |
| Extraction.AddNameStep | funciones/procesar_ifc_con_progreso.py:58-60 | one more candidate adds its stripped name when it is valid and new |
| Extraction.AddNames | funciones/procesar_ifc_con_progreso.py:58-60 | the name loop adds the valid stripped names, distinct, in order of first appearance |
| Extraction.CollectMaterials | funciones/procesar_ifc_con_progreso.py:46-60 | the relation loop collects the element's materials |
| Extraction.WriteQuantities | funciones/procesar_ifc_con_progreso.py:74-79 | the quantity loop writes every quantity whose selected value is not None |
| Extraction.CollectQuantities | funciones/procesar_ifc_con_progreso.py:69-79 | the relation loop builds the element's quantities, only under IFC4 |
| Extraction.CollectElementData | funciones/procesar_ifc_con_progreso.py:29-67 | the element data is ID and Nombre, then every public attribute with a simple value, in order |
| Extraction.AttributeStep | funciones/procesar_ifc_con_progreso.py:63-67 | one attribute more is written exactly when it is public and simple |
| Extraction.Progress | funciones/procesar_ifc_con_progreso.py:25-27 | one progress value is reported per element visited |
| Extraction.ProgressAt | funciones/procesar_ifc_con_progreso.py:27 | the value before element `i` is `i / total` |
| Extraction.ProgressShape | funciones/procesar_ifc_con_progreso.py:25-27 | the values start at 0, rise strictly and stay below 1 |
| Extraction.FractionOrder | funciones/procesar_ifc_con_progreso.py:27 | the fractions of a smaller and a larger index are ordered and lie in `[0, 1)` |
| Extraction.BuildRecord | funciones/procesar_ifc_con_progreso.py:29-86 | the body of the element loop builds the element's record |
| Extraction.RecordOf | funciones/procesar_ifc_con_progreso.py:21-88 | the record of each element of the document, the one `BuildRecord` computes and `ProcessIfc` lists in `by_type` order (`RecordsInOrder`) |
| Extraction.VisitProducts | funciones/procesar_ifc_con_progreso.py:21-88 | one record per product, in order, and the progress values when a callback is given |
| Extraction.ProcessIfc | funciones/procesar_ifc_con_progreso.py:13-94 | a missing file gives the not-found error; otherwise one record per `IfcProduct` in order, with the progress values when a callback is given |
| Extraction.RecordsInOrder | funciones/procesar_ifc_con_progreso.py:25-88 | record `i` belongs to product `i` |
| ReferenceSheets.Load | funciones/cargar_base.py:4-29 | the result holds sheets exactly when the file exists, reading succeeds and some sheet survives, and then they are the cleaned sheets. A missing file, a read failure and no surviving sheet each give the error sentinel with its message |
| ReferenceSheets.LoadAllSheets | funciones/cargar_base.py:9-29 | the sheet loop and the returns give the function's result |
| ReferenceSheets.CleanShape | funciones/cargar_base.py:17-21 | a sheet of `r >= 4` rows has `r - 3` data rows: data row `j` is sheet row `j + 3`, the labels are row 1, and the width is unchanged |
| ReferenceSheets.Clean | funciones/cargar_base.py:20-21 | row 1 as the header and rows 3 on as data, so a sheet of r rows keeps r - 3 in their order (`CleanShape`) |
| ReferenceSheets.PutNew | funciones/cargar_base.py:24 | writing a new sheet name appends it |
| ReferenceSheets.GatherKeys | funciones/cargar_base.py:16-24 | the surviving names are some of the input names, in order |
| ReferenceSheets.SubSeqElements | funciones/cargar_base.py:16-24 | a name of a subsequence is a name of the whole |
| ReferenceSheets.LastKeyFresh | funciones/cargar_base.py:16 | in a dict, the last name does not occur before it |
| ReferenceSheets.CleanedIsGather | funciones/cargar_base.py:14-24 | with distinct sheet names nothing is overwritten: the result is the surviving sheets in order |
| ReferenceSheets.Cleaned | funciones/cargar_base.py:14-24 | the sheets with at least 4 rows and more than one column, cleaned, under their names and in sheet order (`CleanedNames`, `CleanedMembers`) |
| ReferenceSheets.CleanedNames | funciones/cargar_base.py:16-24 | the kept names are input names in input order, and none repeats |
| ReferenceSheets.CleanedMembers | funciones/cargar_base.py:16-24 | a sheet is in the result exactly when an input sheet of that name has at least four rows and more than one column, and then it is that sheet cleaned |
| SheetRendering.BoundsInside | funciones/utils/formatear_hojas_para_ia.py:15-21 | each part's rows lie in `[0, n)`, span at most `max` rows, follow on from the previous part, and the last part ends at `n` |
| SheetRendering.NumParts | funciones/utils/formatear_hojas_para_ia.py:16 | `n // max + 1` with Python's floor division, so a negative `max` gives no block for a sheet with rows (`Blocks`, `NegativeMaxNoBlocks`) |
| SheetRendering.ChunkAt | funciones/utils/formatear_hojas_para_ia.py:21 | a part keeps the sheet's labels and width |
| SheetRendering.BlockResults | funciones/utils/formatear_hojas_para_ia.py:16-25 | one render result per part, `n // max + 1` in all |
| SheetRendering.NegativeMaxNoBlocks | funciones/utils/formatear_hojas_para_ia.py:16-18 | with a negative maximum, a non-empty sheet has no parts |
| SheetRendering.Blocks | funciones/utils/formatear_hojas_para_ia.py:16-21 | at least one part, and `n // max + 1` in all |
| SheetRendering.BlocksFrom | funciones/utils/formatear_hojas_para_ia.py:18-21 | the parts from `k` on cover the rows from `k * max` on |
| SheetRendering.BlocksCover | funciones/utils/formatear_hojas_para_ia.py:18-21 | the parts, concatenated in order, are exactly the sheet's rows |
| SheetRendering.BlockSizes | funciones/utils/formatear_hojas_para_ia.py:19-21 | part `i` starts at row `i * max` and holds at most `max` rows; the last part is empty exactly when `max` divides `n` |
| SheetRendering.LastBlockEmpty | funciones/utils/formatear_hojas_para_ia.py:16-21 | when `max` divides `n`, the last part covers rows `n` to `n` |
| SheetRendering.PartsOfAllSucceed | funciones/utils/formatear_hojas_para_ia.py:18-25 | when every part renders, each gives its labelled text |
| SheetRendering.PartsOfFailure | funciones/utils/formatear_hojas_para_ia.py:18-27 | the parts before the first failing render are kept, and the failure adds one error part and ends the sheet |
| SheetRendering.PartsOf | funciones/utils/formatear_hojas_para_ia.py:18-27 | the labelled part of each rendered block, up to the first block whose rendering fails, which gives the error part instead (`PartsOfAllSucceed`, `PartsOfFailure`) |
| SheetRendering.BlockPartText | funciones/utils/formatear_hojas_para_ia.py:25 | a part is labelled `### Hoja: <name> (filas <inicio + 1> - <fin>)` followed by its markdown |
| SheetRendering.LastPartText | funciones/utils/formatear_hojas_para_ia.py:16-25 | when `max` divides `n`, the last part is empty and labelled `filas n+1 - n` |
| SheetRendering.SheetPartsRendered | funciones/utils/formatear_hojas_para_ia.py:15-25 | a renderable sheet whose parts all render gives exactly `n // max + 1` parts, part `i` being block `i` |
| SheetRendering.SheetPartsFailing | funciones/utils/formatear_hojas_para_ia.py:18-27 | a render failure at part `f` leaves the `f` parts before it and the error part |
| SheetRendering.SheetPartsDegenerate | funciones/utils/formatear_hojas_para_ia.py:12-27 | an empty sheet or one with fewer than two columns gives no part; a zero maximum gives the division error part; a negative one gives no part |
| SheetRendering.SheetParts | funciones/utils/formatear_hojas_para_ia.py:11-27 | nothing for an empty sheet or one with fewer than 2 columns, an error part for `max` 0, and otherwise the parts of its blocks (`SheetPartsRendered`, `SheetPartsFailing`, `SheetPartsDegenerate`) |
| SheetRendering.AllPartsOrder | funciones/utils/formatear_hojas_para_ia.py:10-27 | the parts follow sheet order |
| SheetRendering.AllParts | funciones/utils/formatear_hojas_para_ia.py:10-27 | the parts of every sheet, in sheet order (`AllPartsOrder`) |
| SheetRendering.FormatSheets | funciones/utils/formatear_hojas_para_ia.py:3-29 | the result is every sheet's parts in sheet order, joined by a blank line |
| VolumeAnalysis.AnyKeyIn | funciones/analizar_materiales.py:19-20 | true exactly when the lower-cased name contains one of the keys |
| VolumeAnalysis.FindColumnFrom | funciones/analizar_materiales.py:17-22 | the search from column `i` finds the first matching column at or after `i`, or none when no column there matches |
| VolumeAnalysis.FindColumn | funciones/analizar_materiales.py:17-22 | the column found contains a key and no earlier column does; nothing is found exactly when no column contains a key |
| VolumeAnalysis.FoundNameNonEmpty | funciones/analizar_materiales.py:27 | a column found is never the empty name, so `not col` only tests whether a column was found |
| VolumeAnalysis.ContainsLength | funciones/analizar_materiales.py:20 | a text contains only keys no longer than itself |
| VolumeAnalysis.ColumnOrderWins | funciones/analizar_materiales.py:18-21 | column order decides over key order: `nombre_material` comes before `material` and is chosen |
| VolumeAnalysis.Analyze | funciones/analizar_materiales.py:9-37 | a missing file raises `FileNotFoundError` with its message; with the file present, the call fails exactly when the material or the volume column is not found; the path written is beside the CSV |
| VolumeAnalysis.PairsMembers | funciones/analizar_materiales.py:30-32 | a pair survives exactly when some row gives it |
| VolumeAnalysis.Pairs | funciones/analizar_materiales.py:30-32 | one (stripped material text, volume) pair per row whose volume is numeric, in row order (`PairsMembers`, `NoVolumeDropped`, `MissingMaterialIsNan`) |
| VolumeAnalysis.MissingMaterialIsNan | funciones/analizar_materiales.py:31-32 | a missing material becomes the text `nan` and the row is kept |
| VolumeAnalysis.NoVolumeDropped | funciones/analizar_materiales.py:30-32 | a row whose volume is not numeric is dropped |
| VolumeAnalysis.GroupAt | funciones/analizar_materiales.py:34-35 | group `i` is the `i`-th distinct material in ascending order, with the sum of that material's volumes |
| VolumeAnalysis.GroupsAscending | funciones/analizar_materiales.py:34 | the groups are in strictly ascending material order |
| VolumeAnalysis.GroupsKeys | funciones/analizar_materiales.py:34 | there is a group for a material exactly when some surviving row has it |
| VolumeAnalysis.GroupsTotals | funciones/analizar_materiales.py:34-35 | each group's `Volumen_Total` is the sum of its material's volumes |
| VolumeAnalysis.SortDistinct | funciones/analizar_materiales.py:34 | sorting distinct materials leaves them distinct |
| VolumeAnalysis.MaterialKeysMembers | funciones/analizar_materiales.py:34 | the group keys are exactly the surviving materials |
| VolumeAnalysis.TotalSnoc | funciones/analizar_materiales.py:34 | one pair more adds its volume to its material's sum |
| VolumeAnalysis.SumTotalsSnoc | funciones/analizar_materiales.py:34 | the sum over all groups grows by that of the one new pair |
| VolumeAnalysis.SingleHit | funciones/analizar_materiales.py:34 | one pair adds its volume to exactly one group, or to none when its material is not a key |
| VolumeAnalysis.Conserve | funciones/analizar_materiales.py:34 | when every material is a key, the group sums add up to the sum of all volumes |
| VolumeAnalysis.ZeroTotals | funciones/analizar_materiales.py:34 | no pairs give zero sums |
| VolumeAnalysis.SumVolumesMap | funciones/analizar_materiales.py:34-35 | the summary's volumes add up to the sum of the group totals |
| VolumeAnalysis.GroupsConserve | funciones/analizar_materiales.py:30-35 | the summary's volumes add up to the total volume of the surviving rows |
| VolumeAnalysis.Groups | funciones/analizar_materiales.py:34-35 | one group per distinct material in ascending order, with the sum of its volumes (`GroupsKeys`, `GroupsTotals`, `GroupsAscending`, `GroupsConserve`) |
| VolumeAnalysis.LastSlashEnd | funciones/analizar_materiales.py:37 | the directory part ends at the last `/` |
| VolumeAnalysis.TrimSlashes | funciones/analizar_materiales.py:37 | trailing slashes are removed, and nothing else |
| VolumeAnalysis.Dirname | funciones/analizar_materiales.py:37 | `os.path.dirname`: the path up to its last `/`, trailing slashes removed unless it is only slashes (`OutputPathBare`, `OutputPathSibling`) |
| VolumeAnalysis.PathJoin | funciones/analizar_materiales.py:37 | `os.path.join`: an absolute second part wins; otherwise it is appended to the first, with a `/` between them unless the first is empty or already ends in one (`OutputPathBare`, `OutputPathSibling`) |
| VolumeAnalysis.OutputPathBare | funciones/analizar_materiales.py:37 | a file name with no directory writes `materiales_volumen_detallado.csv` in the current directory |
| VolumeAnalysis.OutputPathSibling | funciones/analizar_materiales.py:37 | a CSV in directory `d` writes `d/materiales_volumen_detallado.csv` |
| MaterialMapping.UniqueMaterialsSpec | funciones/utils/normalizar_materiales_ifc.py:12 | the material list holds no duplicate, holds exactly the present materials, and keeps their order of first appearance |
| MaterialMapping.UniqueMaterials | funciones/utils/normalizar_materiales_ifc.py:12 | the present materials, each once, in order of first appearance (`UniqueMaterialsSpec`) |
| MaterialMapping.HeaderIndex | funciones/utils/normalizar_materiales_ifc.py:15-16 | the index found holds the wanted label, and there is none exactly when no column has that label |
| MaterialMapping.UnionOfMembers | funciones/utils/normalizar_materiales_ifc.py:13-16 | a name is in the accumulated union exactly when some sheet contributes it |
| MaterialMapping.DatabaseNamesSpec | funciones/utils/normalizar_materiales_ifc.py:13-16 | a name is a database name exactly when some sheet has it among its names |
| MaterialMapping.DatabaseNames | funciones/utils/normalizar_materiales_ifc.py:13-16 | the stripped texts of the present `Nombre` cells of every sheet that has that column (`DatabaseNamesSpec`) |
| MaterialMapping.SheetNamesSpec | funciones/utils/normalizar_materiales_ifc.py:15-16 | a sheet's names are the stripped texts of the present cells of its `Nombre` column, and there are none without that column |
| MaterialMapping.ColumnImageSpec | funciones/utils/normalizar_materiales_ifc.py:16 | a name comes from a column exactly when some row's present cell there gives it |
| MaterialMapping.PresentImageSpec | funciones/utils/normalizar_materiales_ifc.py:16 | a name comes from a list of cells exactly when some present cell gives it |
| MaterialMapping.CollectDatabaseNames | funciones/utils/normalizar_materiales_ifc.py:13-16 | the sheet loop builds the set of database names |
| MaterialMapping.StripCell | funciones/utils/normalizar_materiales_ifc.py:53-54 | stripping a cell gives a text or a missing value |
| MaterialMapping.StrippedColumn | funciones/utils/normalizar_materiales_ifc.py:52-54 | a stripped reply column has one cell per reply row |
| MaterialMapping.ReplyPairs | funciones/utils/normalizar_materiales_ifc.py:51-55 | the stripped `Material_IFC` and `Material_Normalizado` cells zipped row by row, or nothing when reading the reply or stripping a column failed (`NormalizedColumnSpec`) |
| MaterialMapping.LookupMissing | funciones/utils/normalizar_materiales_ifc.py:55-56 | nothing is found exactly when no reply pair has the material |
| MaterialMapping.Lookup | funciones/utils/normalizar_materiales_ifc.py:55-56 | the value of the last pair with the key, and nothing when no pair has it (`LookupMissing`, `LookupLastWins`) |
| MaterialMapping.LookupLastWins | funciones/utils/normalizar_materiales_ifc.py:55 | the value found belongs to a pair for that material that no later pair repeats, so the last pair wins |
| MaterialMapping.MapMaterial | funciones/utils/normalizar_materiales_ifc.py:56 | every row gets a text |
| MaterialMapping.NormalizedColumn | funciones/utils/normalizar_materiales_ifc.py:56-59 | the new column has one cell per row |
| MaterialMapping.NormalizedColumnSpec | funciones/utils/normalizar_materiales_ifc.py:50-59 | every row gets a text. When reading the reply fails, every row gets `NO ENCONTRADO`. Otherwise a row gets the name of the last reply pair for its material, or `NO ENCONTRADO` when there is none or it is missing |
| MaterialMapping.LaterPairWins | funciones/utils/normalizar_materiales_ifc.py:55 | a repeated `HA-30` takes the later row's name |
| MaterialMapping.PaddedReplyMatches | funciones/utils/normalizar_materiales_ifc.py:53-56 | reply cells are stripped before pairing, so `" B "` matches the material `B` |
| MaterialMapping.PaddedMatch | funciones/utils/normalizar_materiales_ifc.py:53-56 | a padded one-character reply row matches its material and gives its stripped name |
| MaterialMapping.StripPadded | funciones/utils/normalizar_materiales_ifc.py:53 | stripping one character between two blanks leaves that character |
| MaterialMapping.MissingNameIsNotFound | funciones/utils/normalizar_materiales_ifc.py:56 | a reply pair with a missing name gives `NO ENCONTRADO` |
| MaterialMapping.AllTextColumn | funciones/utils/normalizar_materiales_ifc.py:12-35 | every listed material is text exactly when no cell of the `Material` column is a number |
| MaterialMapping.NormalizeMaterials | funciones/utils/normalizar_materiales_ifc.py:5-61 | a missing or ambiguous `Material` column, or a present material that is not text (the `TypeError` of `'- ' + m` at line 35), raises and leaves the frame unchanged. Otherwise the prompt inputs are the distinct materials and the database names, and the frame gains `Material_Normalizado` in place |

## Left out

- The Streamlit interface, its session state and the chat assistant in `app.py` are left out: they are user-interface glue with no contract of their own. The material selection at `app.py:211` is widget glue too.
- The Gemini client (`funciones/utils/ia.py`) and the prompt texts are left out. Each reply is a parameter: `answer` in `Chunking.CollectReplies`, the reply string of `NormalizedTable.NormalizeReply` and the parsed reply frame of `MaterialMapping.NormalizeMaterials`. Prompts are not modelled, so the order `sorted(nombres_bbdd)` gives the names in a prompt is not modelled either.
- pandas I/O is not modelled: `read_excel`, `read_csv`, `read_table`, `to_excel`, `to_csv`. Tables arrive already parsed as `Frame`, `Grid` or `Sheet` values. `read_excel` failing is a `Failure` input of `ReferenceSheets.Load`, and `to_markdown` is the `render` parameter of `SheetRendering.FormatSheets`.
- ifcopenshell is not modelled.
  - `open`, `by_type` and the relation traversal become the `Extraction.Document` value, with its products, property-set relations, material relations and quantity relations.
  - `by_guid` is the `lookup` map of `Reinjection.IfcModel`, and a GUID outside the map is treated as "not found".
  - `api.run` and `create_entity` become appends to `IfcModel.entities`. `write` is not modelled.
  - The four style entities created per colour (`IfcColourRgb`, `IfcSurfaceStyleRendering`, `IfcSurfaceStyle`, `IfcPresentationStyleAssignment`) are folded into one `Style` entity that carries the colour key.
  - `dir()`/`getattr` reflection over an element's attributes is the element's `attributes` dict. Values that are not simple are `Value.Other`.
- File-system effects are not modelled: `makedirs`, the IFC write and the error-log file. The existence checks are boolean parameters. Only the log condition (`Exported.logWritten`, set when there is at least one error) and the output path are modelled. The log's contents are not.
- Floating point is not modelled. Numbers are `real`. `int()` of a non-negative channel is `Floor`. The style cache is keyed by the integer pair `(r, g)` instead of `round(c, 3)`: each channel is an integer over 255, and 1/255 > 0.001, so the two keys tell the same colours apart.
- Python's text of a float (`str(x)`, `astype(str)`) is the `floatText` parameter.
- `float(str)` and `pd.to_numeric(errors="coerce")` are the parameters `pyFloat`, `toNumber` and `parse`. The decimal parser in `Text` is used only where the source parses digits itself, as `limpiar_valor_total` does.
- `csv.reader` quoting is not modelled: a row is split on `|` as if its cells held no quotes.
- Regular expressions are written as character predicates and hand-coded scans, one per pattern.
- Python set order is not modelled. The material set of an element and the unique materials are kept in order of first appearance. The database names are a Dafny `set`.
- `str` accessors depend on pandas dtype inference. `MaterialMapping.StrAccessorOk` says when `.str.strip()` succeeds, namely when the column has no row or at least one text cell. Number cells of such a column then strip to a missing value, and a column with rows but no text cell, all-missing included, raises. This approximates pandas' dtype inference: a column of text and numbers has object dtype, one of numbers or missing values only has a numeric dtype.
- `MaterialMapping.Lookup` compares cells by value, so a missing material (`Null`) matches a reply pair whose `Material_IFC` is also missing, as `Series.map` with a dict matches a NaN key. NaN's other arithmetic and comparison behaviour is not modelled: a missing cell is the single value `Null`.
- Python type checks (`isinstance(df, pd.DataFrame)`) are left out, because every input here is typed. The one at `app.py:466` is the `Option` of the original table given to `NormalizedTable.NormalizeStep`.
- `NormalizedTable.NormalizeStep` returns what is stored and shown; the preview table and the message texts around it are not modelled beyond the counts and the missing-ID text of `Comparison`.
- `Text.Lower` lowers ASCII letters only.
- `Text.IsSpace` holds for the ASCII blanks only: space, tab, line feed, carriage return, vertical tab and form feed. Python's `str.strip()` and the regex class `\s` also treat `\x1c`-`\x1f`, `\x85`, `\xa0` and the other Unicode spaces as blanks. So for a text padded with those characters, every `Strip` in the model, and the blank collapsing before the cell split, differs from the source.
- `Text.IsDigit` holds for `'0'`-`'9'` only. The regex class `\d` and `float()` in `limpiar_valor_total` also accept other Unicode decimal digits, which `TotalValue.CleanTotal` treats as ending the number.
- `RoleReply.ReplyLines` splits the role reply on `"\n"` only. `splitlines()` also breaks at `\r`, `\x0b`, `\x0c`, `\x1c`-`\x1e`, `\x85`, `\u2028` and `\u2029`, so a reply holding those characters gives different lines in the source.
- `GapFill.PostProcess` requires distinct column labels. With duplicate labels pandas selects a frame rather than a column, and that is not modelled. In the normalized-table parser a duplicated `ID` or `Total` label is the error the source raises.
- `GapFill` unit mode: when both numbers and strings appear in `Unidad`, the tie among modes is broken with numbers first, then the smaller value. This follows the order `mode()` sorts its result in, for mixed types.
- `VolumeAnalysis`: the sum per material is exact over the reals, unlike pandas' floating-point `groupby().sum()`.
- `Extraction.ProcessIfc`: each record is built from the document by `RecordOf`, which is passed to the loop as a function.
- `Extraction.ProcessIfc` returns the list of records. The source returns `pd.DataFrame(data)` (`funciones/procesar_ifc_con_progreso.py:90`): its columns are the union of the records' keys in order of first appearance, and a record without a key has NaN there. That assembly is pandas construction and is not modelled.
- `Reinjection.AddFootprints`: when `float(Total)` raises, the property set has already been added, and the row is then recorded as an error. The exception's message text is not modelled: the error entry `PsetFailed` records only the GUID.
- `MaterialMapping.NormalizeMaterials` returns the prompt inputs, meaning the unique materials and the database names. It does not return the frame: the frame it would return is the caller's `df`, which the method updates in place.
- `ReferenceSheets`: a sheet of 5 rows keeps 2 data rows, rows 3 and 4, because the code slices with `iloc[3:]`.
- `Reinjection.Decide`, `Reinjection.RowJobs`: ifcopenshell's `by_guid` raises for a GUID the file does not hold, and neither call (`funciones/agregar_huella_ifc.py:33` and `:82`) is inside a `try`. The colour pass runs `by_guid` on every row, including rows with an empty or `nan` ID. So in the source, a table holding any ID that is not a GUID of the file aborts the footprint export, and the `if not producto` branches are never reached with a missing element. The model instead skips the row in the colour pass and records an `UnknownGuid` error in the property-set pass. It describes the run in which every ID the table holds is a GUID of the file, and under that condition the two agree.
- `Extraction.Quantities`, `Extraction.CollectQuantities`: the source reads quantities from `by_type("IfcRelDefinesByQuantity")`, an entity name the IFC4 schema does not define, so on an IFC4 file that call probably raises on the first element. The model takes the quantity relations as part of the document instead and reads them as the loop body describes. Its result for an IFC4 file is what the loop would give if the call returned those relations.
- `Reinjection.Decide`: the error entry `InvalidRow` records the row's position in the table. The source's message `Fila {idx}` prints the pandas index label, which equals the position only for a frame with a default index.
- `MaterialMapping.HeaderIndex` takes the first column labelled `Nombre`. When a reference sheet has two such labels, `hoja['Nombre']` is a frame, `.str` raises at `funciones/utils/normalizar_materiales_ifc.py:16`, outside any `try`, and that failure is not modelled.
