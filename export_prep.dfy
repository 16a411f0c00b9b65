/** The last cleaning of the footprint table before it is written into the IFC
    model (app.py 494-527): labels stripped, IDs stripped and filtered against
    placeholder values, totals cleaned into numbers, a unit for every row, and
    one row per ID. */
module ExportPrep {
  import opened Wrappers
  import opened Seqs
  import opened Text
  import opened Tables
  import opened TotalValue

  /** The stops of the export step: no `ID` column (app.py 498-500), no `Total`
      column (app.py 516-518), and a required label that occurs twice, where
      pandas hands a frame instead of a column to the cleaning. */
  datatype ExportError = NoIdColumn | NoTotalColumn | RepeatedColumn(name: string)

  /** The ID values app.py 496 drops. */
  const Placeholders: set<string> := {"", "None", "none", "-", "--", "------------------------"}

  /** `re.match(r"^-+$", id)` for a stripped ID: one dash or more and nothing else. */
  predicate AllDashes(id: string)
  {
    |id| > 0 && forall i :: 0 <= i < |id| ==> id[i] == '-'
  }

  /** An ID that survives both filters (app.py 496-497). */
  predicate ValidId(id: string)
  {
    id !in Placeholders && !AllDashes(id)
  }

  /** The dash placeholders are already caught by the dash test: only "", "None"
      and "none" need the list. */
  lemma DashPlaceholdersRedundant(id: string)
    ensures ValidId(id) <==> id != "" && id != "None" && id != "none" && !AllDashes(id)
  {
    var long := "------------------------";
    if id == long {
      assert forall i :: 0 <= i < |long| ==> long[i] == '-';
    }
  }

  /** The cell of column `col` once cleaned: IDs stripped texts, totals numbers,
      missing units filled with the default (app.py 495, 515, 523-524). */
  function ExportCell(col: string, c: Cell, floatText: real -> string): Cell
  {
    if col == "ID" then Str(Strip(CellText(c, floatText)))
    else if col == "Total" then Num(CleanTotal(CellText(c, floatText)))
    else if col == "Unidad" && c.Null? then Str(DefaultUnit)
    else c
  }

  /** A row cleaned, with the default unit appended when there is no `Unidad`
      column (app.py 521-522). */
  function ExportRow(cols: seq<string>, row: seq<Cell>, addUnit: bool, floatText: real -> string): (r: seq<Cell>)
    ensures |r| == |cols| + if addUnit then 1 else 0
  {
    seq(|cols|, j requires 0 <= j < |cols| => ExportCell(cols[j], CellAt(row, j), floatText))
      + if addUnit then [Str(DefaultUnit)] else []
  }

  /** Every row cleaned. */
  function ExportRows(cols: seq<string>, rows: seq<seq<Cell>>, addUnit: bool, floatText: real -> string): (r: seq<seq<Cell>>)
    ensures |r| == |rows|
  {
    seq(|rows|, i requires 0 <= i < |rows| => ExportRow(cols, rows[i], addUnit, floatText))
  }

  /** The ID filters of app.py 496-497 on a cleaned row. */
  function KeepsId(idx: nat): seq<Cell> -> bool
  {
    r => CellAt(r, idx).Str? && ValidId(CellAt(r, idx).s)
  }

  /** The first failing check, if any. */
  function CheckExport(cols: seq<string>): (r: Option<ExportError>)
    ensures r.None? ==> Count(cols, "ID") == 1 && Count(cols, "Total") == 1
    ensures r == Some(NoIdColumn) <==> "ID" !in cols
    ensures r == Some(NoTotalColumn) <==> Count(cols, "ID") == 1 && "Total" !in cols
  {
    if "ID" !in cols then Some(NoIdColumn)
    else if Count(cols, "ID") > 1 then Some(RepeatedColumn("ID"))
    else if "Total" !in cols then Some(NoTotalColumn)
    else if Count(cols, "Total") > 1 then Some(RepeatedColumn("Total"))
    else None
  }

  /** The table once the checks pass: rows cleaned, rows with an invalid ID
      dropped, and of rows sharing an ID the first kept (app.py 495-527). */
  function BuildExport(cols: seq<string>, rows: seq<seq<Cell>>, floatText: real -> string): Frame
    requires "ID" in cols
  {
    var idx := ColumnIndex(cols, "ID").value;
    var addUnit := "Unidad" !in cols;
    Frame(cols + (if addUnit then ["Unidad"] else []), KeepFirst(ExportRows(cols, rows, addUnit, floatText), idx))
  }

  /** app.py 494-527 on the table handed over for export. */
  function PrepareExport(f: Frame, floatText: real -> string): Result<Frame, ExportError>
  {
    var cols := StripLabels(f.columns);
    match CheckExport(cols)
    case Some(e) => Failure(e)
    case None =>
      assert "ID" in cols;
      Success(BuildExport(cols, f.rows, floatText))
  }

  /** The `ID` check comes first: without an `ID` column the export stops there,
      whatever else is missing. */
  lemma NoIdFirst(f: Frame, floatText: real -> string)
    ensures PrepareExport(f, floatText) == Failure(NoIdColumn) <==> "ID" !in StripLabels(f.columns)
    ensures PrepareExport(f, floatText) == Failure(NoTotalColumn) <==>
      Count(StripLabels(f.columns), "ID") == 1 && "Total" !in StripLabels(f.columns)
  {
  }

  /** A cleaned row: one cell per column, a valid stripped text ID, a numeric
      total, and no missing unit. */
  predicate ExportedRow(r: seq<Cell>, cols: seq<string>, idx: nat, tdx: nat)
  {
    |r| == |cols| && idx < |cols| && tdx < |cols|
    && r[idx].Str? && ValidId(r[idx].s) && Strip(r[idx].s) == r[idx].s
    && r[tdx].Num?
    && forall j :: 0 <= j < |cols| && cols[j] == "Unidad" ==> !r[j].Null?
  }

  lemma ExportRowGood(cols: seq<string>, row: seq<Cell>, addUnit: bool, floatText: real -> string, idx: nat, tdx: nat)
    requires idx < |cols| && tdx < |cols| && cols[idx] == "ID" && cols[tdx] == "Total"
    requires addUnit <==> "Unidad" !in cols
    requires KeepsId(idx)(ExportRow(cols, row, addUnit, floatText))
    ensures ExportedRow(ExportRow(cols, row, addUnit, floatText), cols + (if addUnit then ["Unidad"] else []), idx, tdx)
  {
    var r := ExportRow(cols, row, addUnit, floatText);
    var out := cols + (if addUnit then ["Unidad"] else []);
    StripIdempotent(CellText(CellAt(row, idx), floatText));
    assert r[idx] == ExportCell("ID", CellAt(row, idx), floatText);
    assert r[tdx] == ExportCell("Total", CellAt(row, tdx), floatText);
    forall j | 0 <= j < |out| && out[j] == "Unidad"
      ensures !r[j].Null?
    {
      if j < |cols| {
        assert r[j] == ExportCell("Unidad", CellAt(row, j), floatText);
      }
    }
  }

  /** Of rows with a valid ID, the first per ID: the generic half of app.py 496-527. */
  function KeepFirst(rows: seq<seq<Cell>>, idx: nat): seq<seq<Cell>>
  {
    FirstPerKey(Filter(rows, KeepsId(idx)), ColumnKey(idx))
  }

  /** Whatever holds of every row with a valid ID holds of every row kept. */
  lemma KeepFirstGood(rows: seq<seq<Cell>>, out: seq<string>, idx: nat, tdx: nat)
    requires forall q :: 0 <= q < |rows| && KeepsId(idx)(rows[q]) ==> ExportedRow(rows[q], out, idx, tdx)
    ensures forall i :: 0 <= i < |KeepFirst(rows, idx)| ==> ExportedRow(KeepFirst(rows, idx)[i], out, idx, tdx)
  {
    var named := Filter(rows, KeepsId(idx));
    var kept := FirstPerKey(named, ColumnKey(idx));
    FilterMembers(rows, KeepsId(idx));
    FirstPerKeySub(named, ColumnKey(idx));
    SubSeqIn(kept, named);
    forall i | 0 <= i < |kept|
      ensures ExportedRow(kept[i], out, idx, tdx)
    {
      assert kept[i] in named;
      var q :| 0 <= q < |rows| && rows[q] == kept[i];
    }
  }

  /** The kept rows have distinct IDs, and the ID of every row with a valid ID is
      among them. */
  lemma KeepFirstIds(rows: seq<seq<Cell>>, idx: nat, i: nat)
    requires i < |rows|
    ensures NoDuplicates(KeyList(KeepFirst(rows, idx), ColumnKey(idx)))
    ensures KeepsId(idx)(rows[i]) ==> CellAt(rows[i], idx) in KeyList(KeepFirst(rows, idx), ColumnKey(idx))
  {
    var named := Filter(rows, KeepsId(idx));
    FirstPerKeyUnique(named, ColumnKey(idx));
    if KeepsId(idx)(rows[i]) {
      FilterMembers(rows, KeepsId(idx));
      assert rows[i] in named;
      var m :| 0 <= m < |named| && named[m] == rows[i];
      assert KeyList(named, ColumnKey(idx))[m] == CellAt(rows[i], idx);
      FirstPerKeyKeys(named, ColumnKey(idx), CellAt(rows[i], idx));
    }
  }

  /** Every cleaned row with a valid ID is a well-formed export row. */
  lemma ExportRowsGood(cols: seq<string>, rows: seq<seq<Cell>>, addUnit: bool, floatText: real -> string, idx: nat, tdx: nat)
    requires idx < |cols| && tdx < |cols| && cols[idx] == "ID" && cols[tdx] == "Total"
    requires addUnit <==> "Unidad" !in cols
    ensures var all := ExportRows(cols, rows, addUnit, floatText);
      forall q :: 0 <= q < |all| && KeepsId(idx)(all[q]) ==>
        ExportedRow(all[q], cols + (if addUnit then ["Unidad"] else []), idx, tdx)
  {
    var all := ExportRows(cols, rows, addUnit, floatText);
    forall q | 0 <= q < |all| && KeepsId(idx)(all[q])
      ensures ExportedRow(all[q], cols + (if addUnit then ["Unidad"] else []), idx, tdx)
    {
      assert all[q] == ExportRow(cols, rows[q], addUnit, floatText);
      ExportRowGood(cols, rows[q], addUnit, floatText, idx, tdx);
    }
  }

  /** The ID cell of a cleaned row is the stripped text of the original one. */
  lemma ExportRowsId(cols: seq<string>, rows: seq<seq<Cell>>, addUnit: bool, floatText: real -> string, idx: nat, i: nat)
    requires idx < |cols| && cols[idx] == "ID" && i < |rows|
    ensures CellAt(ExportRows(cols, rows, addUnit, floatText)[i], idx) == Str(Strip(CellText(CellAt(rows[i], idx), floatText)))
  {
    assert ExportRows(cols, rows, addUnit, floatText)[i] == ExportRow(cols, rows[i], addUnit, floatText);
  }

  /** The exported table has stripped labels, an `ID`, a `Total` and a `Unidad`
      column, one cell per column in every row, a trimmed ID that is neither a
      placeholder nor made of dashes, a numeric total and a unit on every row. */
  lemma ExportShape(f: Frame, floatText: real -> string)
    requires PrepareExport(f, floatText).Success?
    ensures var g := PrepareExport(f, floatText).value;
      g.columns[..|f.columns|] == StripLabels(f.columns)
      && "ID" in g.columns && "Total" in g.columns && "Unidad" in g.columns
    ensures var g := PrepareExport(f, floatText).value;
      var idx := ColumnIndex(g.columns, "ID").value;
      var tdx := ColumnIndex(g.columns, "Total").value;
      forall i :: 0 <= i < |g.rows| ==> ExportedRow(g.rows[i], g.columns, idx, tdx)
  {
    var cols := StripLabels(f.columns);
    assert CheckExport(cols).None?;
    assert PrepareExport(f, floatText).value == BuildExport(cols, f.rows, floatText);
    BuildExportShape(cols, f.rows, floatText);
  }

  lemma BuildExportShape(cols: seq<string>, rows: seq<seq<Cell>>, floatText: real -> string)
    requires "ID" in cols && "Total" in cols
    ensures var g := BuildExport(cols, rows, floatText);
      g.columns[..|cols|] == cols && "ID" in g.columns && "Total" in g.columns && "Unidad" in g.columns
    ensures var g := BuildExport(cols, rows, floatText);
      var idx := ColumnIndex(g.columns, "ID").value;
      var tdx := ColumnIndex(g.columns, "Total").value;
      forall i :: 0 <= i < |g.rows| ==> ExportedRow(g.rows[i], g.columns, idx, tdx)
  {
    var idx := ColumnIndex(cols, "ID").value;
    var tdx := ColumnIndex(cols, "Total").value;
    var addUnit := "Unidad" !in cols;
    var out := cols + (if addUnit then ["Unidad"] else []);
    PrefixIndex(cols, out, "ID");
    PrefixIndex(cols, out, "Total");
    ExportRowsGood(cols, rows, addUnit, floatText, idx, tdx);
    KeepFirstGood(ExportRows(cols, rows, addUnit, floatText), out, idx, tdx);
  }

  lemma PrefixIndex(a: seq<string>, b: seq<string>, name: string)
    requires name in a && a <= b
    ensures ColumnIndex(b, name) == ColumnIndex(a, name)
  {
    var i := ColumnIndex(a, name).value;
    assert b[i] == a[i];
    assert forall j :: 0 <= j < i ==> b[j] == a[j];
  }

  /** No two exported rows share an ID, and every valid ID of the input table is
      exported: only repeats are dropped. */
  lemma ExportIds(f: Frame, floatText: real -> string, i: nat)
    requires PrepareExport(f, floatText).Success? && i < |f.rows|
    ensures var g := PrepareExport(f, floatText).value;
      var idx := ColumnIndex(StripLabels(f.columns), "ID").value;
      NoDuplicates(KeyList(g.rows, ColumnKey(idx)))
      && (var id := Strip(CellText(CellAt(f.rows[i], idx), floatText));
          ValidId(id) ==> Str(id) in KeyList(g.rows, ColumnKey(idx)))
  {
    var cols := StripLabels(f.columns);
    assert CheckExport(cols).None?;
    assert PrepareExport(f, floatText).value == BuildExport(cols, f.rows, floatText);
    BuildExportIds(cols, f.rows, floatText, i);
  }

  lemma BuildExportIds(cols: seq<string>, rows: seq<seq<Cell>>, floatText: real -> string, i: nat)
    requires "ID" in cols && i < |rows|
    ensures var g := BuildExport(cols, rows, floatText);
      var idx := ColumnIndex(cols, "ID").value;
      NoDuplicates(KeyList(g.rows, ColumnKey(idx)))
      && (var id := Strip(CellText(CellAt(rows[i], idx), floatText));
          ValidId(id) ==> Str(id) in KeyList(g.rows, ColumnKey(idx)))
  {
    var idx := ColumnIndex(cols, "ID").value;
    var addUnit := "Unidad" !in cols;
    ExportRowsId(cols, rows, addUnit, floatText, idx, i);
    KeepFirstIds(ExportRows(cols, rows, addUnit, floatText), idx, i);
  }
}
