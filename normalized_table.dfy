/** The parser of the normalized footprint table before IFC export (app.py
    388-459): the reply of the oracle is read as a markdown table with `ID`,
    `Total` and `Unidad` columns, and the IDs the oracle dropped are reported
    (app.py 466-473). */
module NormalizedTable {
  import opened Wrappers
  import opened Seqs
  import opened Text
  import opened Tables
  import opened TotalValue
  import opened Sorting

  /** The ways the parse ends without a table: no header line (the `ValueError`
      of app.py 392), no table line after it (the failed `table_lines[0]`), a
      required column that is absent (app.py 433-438), a required column whose
      label occurs twice (pandas then hands a frame, not a column, to the
      cleaning of app.py 440 or 452), and an original table without a column to
      compare with (the `IndexError` of `df_origen.iloc[:, 0]` at app.py 467).
      A header with no data line is not a case of its own: the noise filter then
      leaves a frame with no column, and the column check reports both `ID` and
      `Total` missing (`HeaderOnlyLines`). */
  datatype NormError =
    | HeaderNotFound
    | NoTableLines
    | MissingColumns(missing: set<string>)
    | DuplicateColumn(name: string)
    | NoOriginColumn

  /** A line that holds a bar and, in lower case, both "id" and "total". */
  predicate IsHeaderCandidate(line: string)
  {
    '|' in line && Contains(Lower(line), "id") && Contains(Lower(line), "total")
  }

  /** A character of the class `[-:\s]`. */
  predicate IsSeparatorChar(c: char)
  {
    c == '-' || c == ':' || IsSpace(c)
  }

  /** `re.fullmatch(r'\|[-:\s]*\|?', line)`: a bar, dashes, colons and blanks,
      and at most one closing bar. */
  predicate IsSeparator(line: string)
  {
    |line| >= 1 && line[0] == '|' &&
    ((forall i :: 1 <= i < |line| ==> IsSeparatorChar(line[i])) ||
     (|line| >= 2 && line[|line| - 1] == '|' && forall i :: 1 <= i < |line| - 1 ==> IsSeparatorChar(line[i])))
  }

  /** The lines the parser treats as table rows (app.py 394). */
  predicate IsTableLine(line: string)
  {
    Count(line, '|') >= 2 && !IsSeparator(line)
  }

  /** The separator pattern admits at most two bars, so every line with three or
      more bars is a table line, the alignment row of a table with two or more
      columns included. */
  lemma SeparatorBars(line: string)
    ensures IsSeparator(line) ==> Count(line, '|') <= 2
    ensures Count(line, '|') >= 3 ==> IsTableLine(line)
  {
    if IsSeparator(line) {
      var n := |line|;
      if forall i :: 1 <= i < n ==> IsSeparatorChar(line[i]) {
        assert '|' !in line[1..];
        assert line == [line[0]] + line[1..];
        CountAppend([line[0]], line[1..], '|');
      } else {
        var mid := line[1..n - 1];
        assert forall i :: 0 <= i < |mid| ==> mid[i] == line[i + 1];
        assert '|' !in mid;
        assert line == [line[0]] + mid + [line[n - 1]];
        CountAppend([line[0]] + mid, [line[n - 1]], '|');
        CountAppend([line[0]], mid, '|');
      }
    }
  }

  /** `h.strip().lower().replace(" ", "_").replace("[", "").replace("]", "")`. */
  function HeaderName(piece: string): string
  {
    RemoveChar(RemoveChar(ReplaceChar(Lower(Strip(piece)), ' ', '_'), '['), ']')
  }

  /** The header line's non-blank bar-separated pieces as column names (app.py 396). */
  function RawHeader(line: string): seq<string>
  {
    var pieces := Filter(Split(line, "|"), p => Strip(p) != "");
    seq(|pieces|, k requires 0 <= k < |pieces| => HeaderName(pieces[k]))
  }

  /** A name, and `name_k` once it has been seen `k > 0` times before. */
  function Suffixed(name: string, k: nat): string
  {
    if k > 0 then name + "_" + NatToString(k) else name
  }

  /** The header after the counting loop of app.py 397-405: each name is suffixed
      with the number of earlier occurrences of the same raw name. */
  function Dedup(raw: seq<string>): (r: seq<string>)
    ensures |r| == |raw|
  {
    seq(|raw|, j requires 0 <= j < |raw| => Suffixed(raw[j], Count(raw[..j], raw[j])))
  }

  /** A `Counter` read at `k`: zero for a name never counted. */
  function Seen(counter: map<string, nat>, k: string): nat
  {
    if k in counter then counter[k] else 0
  }

  /** The loop of app.py 397-405. */
  method DedupHeader(raw: seq<string>) returns (header: seq<string>)
    ensures header == Dedup(raw)
  {
    var counter: map<string, nat> := map[];
    header := [];
    var i := 0;
    while i < |raw|
      invariant 0 <= i <= |raw|
      invariant header == Dedup(raw)[..i]
      invariant forall k :: Seen(counter, k) == Count(raw[..i], k)
    {
      var col := raw[i];
      var count := Seen(counter, col);
      var name;
      if count > 0 {
        name := col + "_" + NatToString(count);
      } else {
        name := col;
      }
      assert name == Suffixed(col, count);
      DedupStep(raw, i);
      header := header + [name];
      SeenStep(counter, counter[col := count + 1], raw, i);
      counter := counter[col := count + 1];
      i := i + 1;
    }
  }

  lemma DedupStep(raw: seq<string>, i: nat)
    requires i < |raw|
    ensures Dedup(raw)[..i + 1] == Dedup(raw)[..i] + [Suffixed(raw[i], Count(raw[..i], raw[i]))]
  {
  }

  /** Counting one more name keeps the counter in step with the names read. */
  lemma SeenStep(counter: map<string, nat>, next: map<string, nat>, raw: seq<string>, i: nat)
    requires i < |raw| && forall k :: Seen(counter, k) == Count(raw[..i], k)
    requires next == counter[raw[i] := Seen(counter, raw[i]) + 1]
    ensures forall k :: Seen(next, k) == Count(raw[..i + 1], k)
  {
    forall k
      ensures Seen(next, k) == Count(raw[..i + 1], k)
    {
      CountSnoc(raw, i, k);
    }
  }

  lemma CountSnoc(raw: seq<string>, i: nat, k: string)
    requires i < |raw|
    ensures Count(raw[..i + 1], k) == Count(raw[..i], k) + if k == raw[i] then 1 else 0
  {
    TakeSnoc(raw, i);
    CountAppend(raw[..i], [raw[i]], k);
    assert [raw[i]][1..] == [];
  }

  /** The first occurrence of a name keeps it unchanged. */
  lemma DedupFirst(raw: seq<string>, j: nat)
    requires j < |raw| && raw[j] !in raw[..j]
    ensures Dedup(raw)[j] == raw[j]
  {
  }

  /** Two columns with the same raw name get different names. */
  lemma DedupSeparatesRepeats(raw: seq<string>, i: nat, j: nat)
    requires i < j < |raw| && raw[i] == raw[j]
    ensures Dedup(raw)[i] != Dedup(raw)[j]
  {
    var x := raw[j];
    var a := Count(raw[..i], x);
    var b := Count(raw[..j], x);
    assert raw[..j] == raw[..i] + raw[i..j];
    CountAppend(raw[..i], raw[i..j], x);
    assert raw[i..j][0] == x;
    assert a < b;
    SuffixedInjective(x, a, b);
  }

  lemma SuffixedInjective(x: string, a: nat, b: nat)
    requires a < b
    ensures Suffixed(x, a) != Suffixed(x, b)
  {
    if a > 0 && Suffixed(x, a) == Suffixed(x, b) {
      var p := x + "_";
      assert (p + NatToString(a))[|p|..] == NatToString(a);
      assert (p + NatToString(b))[|p|..] == NatToString(b);
      DigitsValueOfNat(a);
      DigitsValueOfNat(b);
    }
  }

  /** Suffixes are not checked against the other raw names: `a`, `a_1`, `a`
      becomes `a`, `a_1`, `a_1`, so two columns can still share a name. */
  lemma DedupKeepsClash()
    ensures Dedup(["a", "a_1", "a"]) == ["a", "a_1", "a_1"]
  {
    var raw := ["a", "a_1", "a"];
    var d := Dedup(raw);
    assert raw[..0] == [] && raw[..1] == ["a"] && raw[..2] == ["a", "a_1"];
    assert Count(raw[..2], "a") == 1 by {
      assert raw[..2][1..] == ["a_1"] && ["a_1"][1..] == [];
    }
    assert Count(raw[..1], "a_1") == 0 by {
      assert ["a"][1..] == [];
    }
    assert NatToString(1) == "1";
    assert d[0] == "a" && d[1] == "a_1" && d[2] == "a_1";
  }

  /** `re.sub(r"\s+", " ", row)` read by `csv.reader` with delimiter `|`, every
      cell stripped (app.py 409-410). A line that starts with a bar gives an empty
      first cell. */
  function RowCells(row: string): seq<string>
  {
    var parts := Split(CollapseSpaces(row), "|");
    seq(|parts|, k requires 0 <= k < |parts| => Strip(parts[k]))
  }

  /** A table line has at least two bars, so at least three cells: the check for
      two cells (app.py 412) never drops one. */
  lemma TableLineCells(row: string)
    requires Count(row, '|') >= 2
    ensures |RowCells(row)| >= 3
  {
    SplitCount(CollapseSpaces(row), '|');
    CollapseSpacesCount(row, '|');
  }

  /** A row that starts with a bar has an empty first cell, so its cells stand
      one column to the right of the header's names, which skip blank pieces. */
  lemma LeadingBarCell(row: string)
    requires |row| > 0 && row[0] == '|'
    ensures RowCells(row)[0] == ""
  {
    var c := CollapseSpaces(row);
    assert c == [row[0]] + CollapseSpaces(row[1..]);
    assert OccursAt(c, "|", 0) by {
      assert c[0..1] == "|";
    }
    assert IndexOf(c, "|") == Some(0);
    assert Split(c, "|")[0] == c[..0];
  }

  /** `n` empty cells. */
  function Blanks(n: nat): (r: seq<string>)
    ensures |r| == n && forall k :: 0 <= k < n ==> r[k] == ""
  {
    seq(n, _ => "")
  }

  /** A row padded with empty cells to `n` and cut to `n` (app.py 413-415). */
  function Fit(cells: seq<string>, n: nat): (r: seq<string>)
    ensures |r| == n
    ensures forall k :: 0 <= k < n ==> r[k] == if k < |cells| then cells[k] else ""
  {
    var padded := cells + Blanks(if |cells| < n then n - |cells| else 0);
    padded[..n]
  }

  /** A row that already has `n` cells is kept as it is. */
  lemma FitExact(cells: seq<string>)
    ensures Fit(cells, |cells|) == cells
  {
  }

  /** The padding loop of app.py 413-415. */
  method FitRow(cells: seq<string>, n: nat) returns (row: seq<string>)
    ensures row == Fit(cells, n)
  {
    var cleaned := cells;
    while |cleaned| < n
      invariant |cells| <= |cleaned|
      invariant |cleaned| <= n || cleaned == cells
      invariant cleaned == cells + Blanks(|cleaned| - |cells|)
      decreases n - |cleaned|
    {
      cleaned := cleaned + [""];
    }
    row := cleaned[..n];
  }

  /** The cells of every line. */
  function LineCells(lines: seq<string>): (r: seq<seq<string>>)
    ensures |r| == |lines|
  {
    seq(|lines|, i requires 0 <= i < |lines| => RowCells(lines[i]))
  }

  /** The data rows of app.py 407-415, from the cells of the table lines after
      the header: rows of two cells or more, padded or cut to `n`. */
  function DataRows(cells: seq<seq<string>>, n: nat): seq<seq<string>>
  {
    if |cells| == 0 then []
    else
      var last := cells[|cells| - 1];
      DataRows(cells[..|cells| - 1], n) + if |last| >= 2 then [Fit(last, n)] else []
  }

  /** The row loop of app.py 407-415. */
  method ParseRows(lines: seq<string>, n: nat) returns (data: seq<seq<string>>)
    ensures data == DataRows(LineCells(lines), n)
  {
    data := [];
    var i := 0;
    while i < |lines|
      invariant 0 <= i <= |lines|
      invariant data == DataRows(LineCells(lines)[..i], n)
    {
      assert LineCells(lines)[..i + 1][..i] == LineCells(lines)[..i];
      var cleaned := RowCells(lines[i]);
      assert cleaned == LineCells(lines)[..i + 1][i];
      if |cleaned| >= 2 {
        var row := FitRow(cleaned, n);
        data := data + [row];
      }
      i := i + 1;
    }
    assert LineCells(lines)[..|lines|] == LineCells(lines);
  }

  /** Every table line has at least three cells. */
  lemma TableLinesCells(lines: seq<string>)
    requires forall i :: 0 <= i < |lines| ==> Count(lines[i], '|') >= 2
    ensures forall i :: 0 <= i < |lines| ==> |LineCells(lines)[i]| >= 3
  {
    forall i | 0 <= i < |lines|
      ensures |LineCells(lines)[i]| >= 3
    {
      TableLineCells(lines[i]);
    }
  }

  /** When every line has two cells or more, each gives one row of exactly `n`
      cells, its cells padded or cut. */
  lemma {:induction false} DataRowsOfCells(cells: seq<seq<string>>, n: nat)
    requires forall i :: 0 <= i < |cells| ==> |cells[i]| >= 2
    ensures |DataRows(cells, n)| == |cells|
    ensures forall i :: 0 <= i < |cells| ==> DataRows(cells, n)[i] == Fit(cells[i], n)
  {
    if |cells| > 0 {
      var init := cells[..|cells| - 1];
      DataRowsOfCells(init, n);
      assert DataRows(cells, n) == DataRows(init, n) + [Fit(cells[|cells| - 1], n)];
    }
  }

  /** No table line is dropped: row `i` is line `i`'s cells padded or cut to `n`. */
  lemma DataRowsOfTableLines(lines: seq<string>, n: nat)
    requires forall i :: 0 <= i < |lines| ==> Count(lines[i], '|') >= 2
    ensures |DataRows(LineCells(lines), n)| == |lines|
    ensures forall i :: 0 <= i < |lines| ==> DataRows(LineCells(lines), n)[i] == Fit(RowCells(lines[i]), n)
  {
    TableLinesCells(lines);
    DataRowsOfCells(LineCells(lines), n);
  }

  /** A cell of the class `[:\-\s]*`: empty or made of dashes, colons and blanks. */
  predicate IsNoiseCell(c: string)
  {
    forall i :: 0 <= i < |c| ==> IsSeparatorChar(c[i])
  }

  /** A row none of whose cells holds anything else (app.py 420-421). */
  predicate IsNoiseRow(row: seq<string>)
  {
    forall k :: 0 <= k < |row| ==> IsNoiseCell(row[k])
  }

  predicate NotNoise(row: seq<string>)
  {
    !IsNoiseRow(row)
  }

  /** The label a column name is renamed to, if any (app.py 423-431). */
  function RenameOf(col: string): (r: Option<string>)
  {
    var l := Lower(col);
    if Contains(l, "id") && !Contains(l, "unidad") then Some("ID")
    else if Contains(l, "total") then Some("Total")
    else if Contains(l, "unidad") then Some("Unidad")
    else None
  }

  /** `rename_dict` after the loop of app.py 423-431. */
  function RenameDict(cols: seq<string>): map<string, string>
  {
    map c | c in cols && RenameOf(c).Some? :: RenameOf(c).value
  }

  /** The loop of app.py 423-431. */
  method BuildRenameDict(cols: seq<string>) returns (d: map<string, string>)
    ensures d == RenameDict(cols)
  {
    d := map[];
    var i := 0;
    while i < |cols|
      invariant 0 <= i <= |cols|
      invariant d == RenameDict(cols[..i])
    {
      var col := cols[i];
      assert cols[..i + 1] == cols[..i] + [col];
      var r := RenameOf(col);
      if r.Some? {
        d := d[col := r.value];
      }
      assert d == RenameDict(cols[..i + 1]);
      i := i + 1;
    }
    assert cols[..|cols|] == cols;
  }

  /** `df.rename(columns=d)`. */
  function Relabel(cols: seq<string>, d: map<string, string>): (r: seq<string>)
    ensures |r| == |cols|
  {
    seq(|cols|, j requires 0 <= j < |cols| => if cols[j] in d then d[cols[j]] else cols[j])
  }

  /** A column whose lower-case name holds "id" but not "unidad" becomes `ID`;
      otherwise one holding "total" becomes `Total`; otherwise one holding
      "unidad" becomes `Unidad`; every other column keeps its name. */
  lemma RenamedLabels(cols: seq<string>, j: nat)
    requires j < |cols|
    ensures var l := Lower(cols[j]); var name := Relabel(cols, RenameDict(cols))[j];
      name == if Contains(l, "id") && !Contains(l, "unidad") then "ID"
               else if Contains(l, "total") then "Total"
               else if Contains(l, "unidad") then "Unidad"
               else cols[j]
  {
  }

  /** The cell a converted row holds in a column: IDs stripped (app.py 440),
      totals cleaned into numbers (app.py 452), the rest kept as text. */
  function ConvertCell(lab: string, text: string): Cell
  {
    if lab == "ID" then Str(Strip(text))
    else if lab == "Total" then Num(CleanTotal(text))
    else Str(text)
  }

  /** A row after the conversions, with the default unit added when the table has
      no `Unidad` column (app.py 454-457). */
  function ConvertRow(labels: seq<string>, row: seq<string>, addUnit: bool): (r: seq<Cell>)
    ensures |r| == |labels| + if addUnit then 1 else 0
  {
    seq(|labels|, j requires 0 <= j < |labels| => ConvertCell(labels[j], if j < |row| then row[j] else ""))
      + if addUnit then [Str(DefaultUnit)] else []
  }

  /** `df["ID"] != ""`. */
  function HasId(idx: nat): seq<Cell> -> bool
  {
    r => CellAt(r, idx) != Str("")
  }

  /** The required labels absent from `labels`. */
  function Missing(labels: seq<string>): set<string>
  {
    {"ID", "Total"} - set l | l in labels
  }

  /** The first of the column checks of app.py 433-452 to fail, if any. When none
      fails, `ID` and `Total` each label exactly one column. */
  function CheckLabels(labels: seq<string>): (r: Option<NormError>)
    ensures r.Some? ==> r.value.MissingColumns? || r.value.DuplicateColumn?
    ensures r.None? ==> Count(labels, "ID") == 1 && Count(labels, "Total") == 1
  {
    var missing := Missing(labels);
    if missing != {} then Some(MissingColumns(missing))
    else if Count(labels, "ID") > 1 then Some(DuplicateColumn("ID"))
    else if Count(labels, "Total") > 1 then Some(DuplicateColumn("Total"))
    else
      assert "ID" !in missing && "Total" !in missing;
      None
  }

  /** Every row converted (app.py 440-457). */
  function Converted(labels: seq<string>, rows: seq<seq<string>>, addUnit: bool): (r: seq<seq<Cell>>)
    ensures |r| == |rows|
  {
    seq(|rows|, i requires 0 <= i < |rows| => ConvertRow(labels, rows[i], addUnit))
  }

  /** The table once the checks pass: the rows converted, the default unit added
      when there is no `Unidad` column, rows with an empty ID dropped and, of rows
      sharing an ID, the first kept (app.py 440-459). */
  function Build(labels: seq<string>, rows: seq<seq<string>>): Frame
    requires "ID" in labels
  {
    var idx := ColumnIndex(labels, "ID").value;
    var addUnit := "Unidad" !in labels;
    var named := Filter(Converted(labels, rows, addUnit), HasId(idx));
    Frame(labels + (if addUnit then ["Unidad"] else []), FirstPerKey(named, ColumnKey(idx)))
  }

  /** app.py 433-459 on the relabelled columns and the surviving rows. */
  function Finish(labels: seq<string>, rows: seq<seq<string>>): Result<Frame, NormError>
  {
    match CheckLabels(labels)
    case Some(e) => Failure(e)
    case None => Success(Build(labels, rows))
  }

  /** The columns and rows of the table before relabelling, from the table lines
      (the header line first). */
  function Columns(tableLines: seq<string>): seq<string>
    requires |tableLines| > 0
  {
    StripLabels(Dedup(RawHeader(tableLines[0])))
  }

  function Rows(tableLines: seq<string>): seq<seq<string>>
    requires |tableLines| > 0
  {
    var n := |RawHeader(tableLines[0])|;
    Filter(DataRows(LineCells(tableLines[1..]), n), NotNoise)
  }

  /** The reply's lines from the first header candidate on that are table lines. */
  function TableLines(reply: string): Option<seq<string>>
  {
    var lines := Split(Strip(reply), "\n");
    match FirstWhere(lines, IsHeaderCandidate)
    case None => None
    case Some(h) => Some(Filter(lines[h..], IsTableLine))
  }

  /** The labels that survive the noise filter of app.py 420-421. With no data
      row the row-wise `apply` gives an empty float Series, negating it changes
      nothing, and indexing the frame with it selects no column; otherwise the
      filter drops rows only. */
  function KeptColumns(tl: seq<string>): seq<string>
    requires |tl| > 0
  {
    if |DataRows(LineCells(tl[1..]), |RawHeader(tl[0])|)| == 0 then [] else Columns(tl)
  }

  /** The parse from the table lines on (app.py 396-459). */
  function FromTableLines(tl: seq<string>): Result<Frame, NormError>
  {
    if |tl| == 0 then Failure(NoTableLines)
    else
      var cols := KeptColumns(tl);
      Finish(Relabel(cols, RenameDict(cols)), Rows(tl))
  }

  /** The whole parse of app.py 388-459. */
  function Normalize(reply: string): Result<Frame, NormError>
  {
    match TableLines(reply)
    case None => Failure(HeaderNotFound)
    case Some(tl) => FromTableLines(tl)
  }

  /** The parse as the source runs it, with its loops. */
  method NormalizeReply(reply: string) returns (r: Result<Frame, NormError>)
    ensures r == Normalize(reply)
  {
    var tl := TableLines(reply);
    if tl.None? {
      return Failure(HeaderNotFound);
    }
    var tableLines := tl.value;
    if |tableLines| == 0 {
      return Failure(NoTableLines);
    }
    var raw := RawHeader(tableLines[0]);
    var header := DedupHeader(raw);
    var data := ParseRows(tableLines[1..], |header|);
    var rows := Filter(data, NotNoise);
    var cols := if |data| == 0 then [] else StripLabels(header);
    var d := BuildRenameDict(cols);
    r := Finish(Relabel(cols, d), rows);
  }

  /** The parse fails for want of a header exactly when no line of the stripped
      reply holds a bar, "id" and "total". */
  lemma HeaderNotFoundIff(reply: string)
    ensures Normalize(reply) == Failure(HeaderNotFound) <==> TableLines(reply).None?
  {
    match TableLines(reply)
    case None =>
    case Some(tl) => FromTableLinesFound(tl);
  }

  /** No header candidate is found exactly when no line of the stripped reply
      holds a bar, "id" and "total". */
  lemma TableLinesNone(reply: string)
    ensures var lines := Split(Strip(reply), "\n");
      TableLines(reply).None? <==> forall k :: 0 <= k < |lines| ==> !IsHeaderCandidate(lines[k])
  {
    var lines := Split(Strip(reply), "\n");
    TableLinesFirst(reply);
    FirstWhereNone(lines, IsHeaderCandidate);
  }

  lemma TableLinesFirst(reply: string)
    ensures TableLines(reply).None? <==> FirstWhere(Split(Strip(reply), "\n"), IsHeaderCandidate).None?
  {
  }

  /** Once a header candidate is found, the parse never reports it missing. */
  lemma FromTableLinesFound(tl: seq<string>)
    ensures FromTableLines(tl) != Failure(HeaderNotFound)
  {
    if |tl| > 0 {
      var cols := Columns(tl);
      var labels := Relabel(cols, RenameDict(cols));
      var c := CheckLabels(labels);
      assert c.Some? ==> c.value != HeaderNotFound;
    }
  }

  /** A reply whose header is its only table line stops with both required
      columns reported missing; with more table lines the column check runs on
      the parsed header. */
  lemma HeaderOnlyFails(reply: string)
    requires TableLines(reply).Some?
    ensures var tl := TableLines(reply).value;
      |tl| == 1 ==> Normalize(reply) == Failure(MissingColumns({"ID", "Total"}))
    ensures var tl := TableLines(reply).value;
      |tl| >= 2 ==> Normalize(reply) == Finish(Relabel(Columns(tl), RenameDict(Columns(tl))), Rows(tl))
  {
    var lines := Split(Strip(reply), "\n");
    var h := FirstWhere(lines, IsHeaderCandidate).value;
    FilterMembers(lines[h..], IsTableLine);
    HeaderOnlyLines(TableLines(reply).value);
  }

  /** The same on the table lines themselves: every table line after the header
      gives a data row, so the frame loses its columns only when there is none. */
  lemma HeaderOnlyLines(tl: seq<string>)
    requires forall x :: x in tl ==> IsTableLine(x)
    ensures |tl| == 1 ==> FromTableLines(tl) == Failure(MissingColumns({"ID", "Total"}))
    ensures |tl| >= 2 ==> KeptColumns(tl) == Columns(tl)
  {
    if |tl| > 0 {
      assert forall i :: 0 <= i < |tl[1..]| ==> tl[1..][i] in tl;
      DataRowsOfTableLines(tl[1..], |RawHeader(tl[0])|);
      if |tl| == 1 {
        EmptyFrameMissing();
      }
    }
  }

  /** A frame with no column lacks both required columns. */
  lemma EmptyFrameMissing()
    ensures Finish(Relabel([], RenameDict([])), []) == Failure(MissingColumns({"ID", "Total"}))
  {
    assert Relabel([], RenameDict([])) == [];
    assert Missing([]) == {"ID", "Total"};
  }

  /** Every surviving row has one cell per header name and is not made only of
      dashes, colons and blanks. */
  lemma RowsShape(tableLines: seq<string>)
    requires |tableLines| > 0
    ensures forall r :: r in Rows(tableLines) ==> |r| == |Columns(tableLines)| && !IsNoiseRow(r)
  {
    var n := |RawHeader(tableLines[0])|;
    var data := DataRows(LineCells(tableLines[1..]), n);
    FilterMembers(data, NotNoise);
    DataRowsWidth(LineCells(tableLines[1..]), n);
  }

  lemma {:induction false} DataRowsWidth(cells: seq<seq<string>>, n: nat)
    ensures forall r :: r in DataRows(cells, n) ==> |r| == n
  {
    if |cells| > 0 {
      DataRowsWidth(cells[..|cells| - 1], n);
    }
  }

  /** A converted row: one cell per column, a stripped text ID and a numeric
      total. */
  predicate GoodRow(r: seq<Cell>, width: nat, idx: nat, tdx: nat)
  {
    |r| == width && idx < width && tdx < width
    && r[idx].Str? && Strip(r[idx].s) == r[idx].s && r[tdx].Num?
  }

  lemma ConvertRowGood(labels: seq<string>, row: seq<string>, addUnit: bool, idx: nat, tdx: nat)
    requires |row| == |labels| && idx < |labels| && tdx < |labels|
    requires labels[idx] == "ID" && labels[tdx] == "Total"
    ensures GoodRow(ConvertRow(labels, row, addUnit), |labels| + (if addUnit then 1 else 0), idx, tdx)
  {
    StripIdempotent(row[idx]);
  }

  /** Once the checks pass, every converted row is good. */
  lemma ConvertedGood(labels: seq<string>, rows: seq<seq<string>>, addUnit: bool, idx: nat, tdx: nat)
    requires forall r :: r in rows ==> |r| == |labels|
    requires idx < |labels| && tdx < |labels| && labels[idx] == "ID" && labels[tdx] == "Total"
    ensures forall r :: r in Converted(labels, rows, addUnit) ==>
      GoodRow(r, |labels| + (if addUnit then 1 else 0), idx, tdx)
  {
    var converted := Converted(labels, rows, addUnit);
    forall r | r in converted
      ensures GoodRow(r, |labels| + (if addUnit then 1 else 0), idx, tdx)
    {
      var q :| 0 <= q < |converted| && converted[q] == r;
      assert rows[q] in rows;
      ConvertRowGood(labels, rows[q], addUnit, idx, tdx);
    }
  }

  /** A table the parse returns has `ID`, `Total` and `Unidad` columns and one
      cell per column in every row; every ID is a non-empty stripped text and
      every total is a number. */
  lemma BuildShape(labels: seq<string>, rows: seq<seq<string>>)
    requires forall r :: r in rows ==> |r| == |labels|
    requires "ID" in labels && "Total" in labels
    ensures var f := Build(labels, rows);
      "ID" in f.columns && "Total" in f.columns && "Unidad" in f.columns && Rectangular(f)
    ensures var f := Build(labels, rows);
      var idx := ColumnIndex(f.columns, "ID").value;
      var tdx := ColumnIndex(f.columns, "Total").value;
      forall i :: 0 <= i < |f.rows| ==>
        f.rows[i][idx].Str? && f.rows[i][idx].s != "" && Strip(f.rows[i][idx].s) == f.rows[i][idx].s
        && f.rows[i][tdx].Num?
  {
    var idx := ColumnIndex(labels, "ID").value;
    var tdx := ColumnIndex(labels, "Total").value;
    var addUnit := "Unidad" !in labels;
    var cols := labels + (if addUnit then ["Unidad"] else []);
    ColumnIndexPrefix(labels, cols, "ID");
    ColumnIndexPrefix(labels, cols, "Total");
    var kept := KeptGood(labels, rows, addUnit, idx, tdx);
    assert Build(labels, rows) == Frame(cols, kept);
  }

  /** The rows `Build` keeps are good rows with a non-empty ID. */
  lemma KeptGood(labels: seq<string>, rows: seq<seq<string>>, addUnit: bool, idx: nat, tdx: nat)
      returns (kept: seq<seq<Cell>>)
    requires forall r :: r in rows ==> |r| == |labels|
    requires idx < |labels| && tdx < |labels| && labels[idx] == "ID" && labels[tdx] == "Total"
    ensures kept == FirstPerKey(Filter(Converted(labels, rows, addUnit), HasId(idx)), ColumnKey(idx))
    ensures forall i :: 0 <= i < |kept| ==>
      GoodRow(kept[i], |labels| + (if addUnit then 1 else 0), idx, tdx) && kept[i][idx] != Str("")
  {
    var converted := Converted(labels, rows, addUnit);
    var named := Filter(converted, HasId(idx));
    kept := FirstPerKey(named, ColumnKey(idx));
    ConvertedGood(labels, rows, addUnit, idx, tdx);
    FilterMembers(converted, HasId(idx));
    FirstPerKeySub(named, ColumnKey(idx));
    SubSeqIn(kept, named);
    forall i | 0 <= i < |kept|
      ensures GoodRow(kept[i], |labels| + (if addUnit then 1 else 0), idx, tdx) && kept[i][idx] != Str("")
    {
      assert kept[i] in named;
    }
  }

  /** No two rows of the table share an ID. */
  lemma BuildDistinctIds(labels: seq<string>, rows: seq<seq<string>>)
    requires forall r :: r in rows ==> |r| == |labels|
    requires "ID" in labels && "Total" in labels
    ensures var f := Build(labels, rows);
      var idx := ColumnIndex(labels, "ID").value;
      forall i, j :: 0 <= i < j < |f.rows| ==> CellAt(f.rows[i], idx) != CellAt(f.rows[j], idx)
  {
    var idx := ColumnIndex(labels, "ID").value;
    var tdx := ColumnIndex(labels, "Total").value;
    var addUnit := "Unidad" !in labels;
    var kept := KeptGood(labels, rows, addUnit, idx, tdx);
    var named := Filter(Converted(labels, rows, addUnit), HasId(idx));
    assert Build(labels, rows).rows == kept;
    FirstPerKeyUnique(named, ColumnKey(idx));
    forall i, j | 0 <= i < j < |kept|
      ensures CellAt(kept[i], idx) != CellAt(kept[j], idx)
    {
      assert KeyList(kept, ColumnKey(idx))[i] != KeyList(kept, ColumnKey(idx))[j];
    }
  }

  lemma ColumnIndexPrefix(a: seq<string>, b: seq<string>, name: string)
    requires name in a && a <= b
    ensures ColumnIndex(b, name) == ColumnIndex(a, name)
  {
    var i := ColumnIndex(a, name).value;
    assert b[i] == a[i];
    assert forall j :: 0 <= j < i ==> b[j] == a[j];
    var k := ColumnIndex(b, name).value;
    assert k <= i;
  }

  lemma ContainsOfCount(s: seq<string>, x: string)
    requires Count(s, x) == 1
    ensures x in s
  {
  }

  /** The whole parse: a returned table has the shape `BuildShape` states. */
  lemma NormalizeShape(reply: string)
    requires Normalize(reply).Success?
    ensures var f := Normalize(reply).value;
      "ID" in f.columns && "Total" in f.columns && "Unidad" in f.columns && Rectangular(f)
    ensures |TableLines(reply).value| >= 2
  {
    var tl := TableLines(reply).value;
    HeaderOnlyFails(reply);
    var cols := Columns(tl);
    var labels := Relabel(cols, RenameDict(cols));
    RowsShape(tl);
    ContainsOfCount(labels, "ID");
    ContainsOfCount(labels, "Total");
    BuildShape(labels, Rows(tl));
  }

  /** The missing-ID report of app.py 466-473: the stripped texts of the original
      table's first column that no parsed row carries as its ID. */
  function MissingIds(origin: seq<string>, parsed: seq<string>): set<string>
  {
    set x | x in origin && x !in parsed
  }

  /** The stripped texts of the first column of the original table
      (`df_origen.iloc[:, 0].astype(str).str.strip()`); `None` when it has no
      column, where `iloc` raises `IndexError`. */
  function OriginIds(origin: Frame, floatText: real -> string): (r: Option<seq<string>>)
    ensures r.None? <==> |origin.columns| == 0
    ensures r.Some? ==> |r.value| == |origin.rows|
    ensures r.Some? ==> forall i :: 0 <= i < |origin.rows| ==> r.value[i] == Strip(CellText(CellAt(origin.rows[i], 0), floatText))
  {
    if |origin.columns| == 0 then None
    else Some(seq(|origin.rows|, i requires 0 <= i < |origin.rows| => Strip(CellText(CellAt(origin.rows[i], 0), floatText))))
  }

  /** The ID column of the parsed table (`df_normalizado["ID"]`), read as text. */
  function ParsedIds(f: Frame, floatText: real -> string): (r: seq<string>)
    ensures "ID" !in f.columns ==> r == []
    ensures "ID" in f.columns ==> |r| == |f.rows|
    ensures "ID" in f.columns ==>
      forall i :: 0 <= i < |f.rows| ==> r[i] == CellText(CellAt(f.rows[i], ColumnIndex(f.columns, "ID").value), floatText)
  {
    match ColumnIndex(f.columns, "ID")
    case None => []
    case Some(idx) => seq(|f.rows|, i requires 0 <= i < |f.rows| => CellText(CellAt(f.rows[i], idx), floatText))
  }

  /** The sorted list of missing IDs the report prints. */
  function MissingList(origin: seq<string>, parsed: seq<string>): seq<string>
  {
    Sort(Distinct(Filter(origin, x => x !in parsed)))
  }

  /** The text shown under the warning, or `None` when nothing is missing. */
  function MissingReport(origin: seq<string>, parsed: seq<string>): Option<string>
  {
    var l := MissingList(origin, parsed);
    if |l| == 0 then None else Some("IDs faltantes:\n" + Join(l, "\n"))
  }

  /** The listed IDs are sorted and are exactly the missing ones, and a report is
      shown exactly when some ID is missing. */
  lemma MissingListed(origin: seq<string>, parsed: seq<string>)
    ensures Sorted(MissingList(origin, parsed))
    ensures forall x :: x in MissingList(origin, parsed) <==> x in MissingIds(origin, parsed)
    ensures MissingReport(origin, parsed).None? <==> MissingIds(origin, parsed) == {}
  {
    var f := Filter(origin, x => x !in parsed);
    var d := Distinct(f);
    var l := Sort(d);
    FilterMembers(origin, x => x !in parsed);
    forall x
      ensures x in l <==> x in d
    {
      assert x in l <==> x in multiset(l);
      assert x in d <==> x in multiset(d);
    }
    forall x
      ensures x in d <==> x in f
    {
      if x in d {
        var i :| 0 <= i < |d| && d[i] == x;
      }
      if x in f {
        var i :| 0 <= i < |f| && f[i] == x;
      }
    }
    if MissingIds(origin, parsed) != {} {
      var x :| x in MissingIds(origin, parsed);
      assert x in l;
    }
  }

  /** What app.py 469-473 shows after the comparison: the numbers of distinct
      original and parsed IDs, and the missing-ID text when some ID is missing. */
  datatype Comparison = Comparison(originCount: nat, parsedCount: nat, report: Option<string>)

  /** The comparison of the original IDs `ids` with the parsed IDs `got`. */
  function Compare(ids: seq<string>, got: seq<string>): Comparison
  {
    Comparison(|set x | x in ids|, |set x | x in got|, MissingReport(ids, got))
  }

  /** The report lists, sorted, the original IDs that no parsed row carries, and
      is shown exactly when there is one. */
  lemma CompareSpec(ids: seq<string>, got: seq<string>)
    ensures Sorted(MissingList(ids, got))
    ensures forall x :: x in MissingList(ids, got) <==> x in ids && x !in got
    ensures Compare(ids, got).report.None? <==> forall x :: x in ids ==> x in got
  {
    MissingListed(ids, got);
    if MissingIds(ids, got) == {} {
      forall x | x in ids
        ensures x in got
      {
        assert x !in MissingIds(ids, got);
      }
    }
  }

  /** The table stored as `df_resultado`, with the comparison shown when the
      original table is a DataFrame. */
  datatype Stored = Stored(table: Frame, comparison: Option<Comparison>)

  /** The comparison of app.py 466-473 after the parse `parsed`: when the
      original table `origin` is a DataFrame, its first column is compared with
      the parsed IDs. An original table without columns makes `iloc[:, 0]` raise
      inside the `try`; the error is shown and nothing is stored. */
  function AfterParse(parsed: Result<Frame, NormError>, origin: Option<Frame>, floatText: real -> string): Result<Stored, NormError>
  {
    match parsed
    case Failure(e) => Failure(e)
    case Success(f) =>
      match origin
      case None => Success(Stored(f, None))
      case Some(o) =>
        match OriginIds(o, floatText)
        case None => Failure(NoOriginColumn)
        case Some(ids) =>
          Success(Stored(f, Some(Compare(ids, ParsedIds(f, floatText)))))
  }

  /** The whole step of app.py 388-479: the parse, then the comparison. */
  function NormalizeStep(reply: string, origin: Option<Frame>, floatText: real -> string): Result<Stored, NormError>
  {
    AfterParse(Normalize(reply), origin, floatText)
  }

  /** The step stores the parsed table exactly when the parse succeeds and the
      original table, if any, has a column; the comparison is made exactly when
      there is an original table, between its first column and the parsed IDs
      (`CompareSpec` states what it reports). */
  lemma AfterParseSpec(parsed: Result<Frame, NormError>, origin: Option<Frame>, floatText: real -> string)
    ensures parsed.Failure? ==> AfterParse(parsed, origin, floatText) == Failure(parsed.error)
    ensures parsed.Success? && origin.Some? && |origin.value.columns| == 0 ==>
      AfterParse(parsed, origin, floatText) == Failure(NoOriginColumn)
    ensures AfterParse(parsed, origin, floatText).Success? <==>
      parsed.Success? && (origin.Some? ==> |origin.value.columns| > 0)
    ensures AfterParse(parsed, origin, floatText).Success? ==>
      var st := AfterParse(parsed, origin, floatText).value;
      st.table == parsed.value && (st.comparison.Some? <==> origin.Some?)
    ensures AfterParse(parsed, origin, floatText).Success? && origin.Some? ==>
      AfterParse(parsed, origin, floatText).value.comparison.value
        == Compare(OriginIds(origin.value, floatText).value, ParsedIds(parsed.value, floatText))
  {
  }

  /** The same for the whole step: a header-only original table, whose columns
      all go to `dropna(axis=1, how="all")`, ends a successful parse without a
      stored table, and a stored table is the parsed one. */
  lemma NormalizeStepSpec(reply: string, origin: Option<Frame>, floatText: real -> string)
    ensures Normalize(reply).Success? && origin.Some? && |origin.value.columns| == 0 ==>
      NormalizeStep(reply, origin, floatText) == Failure(NoOriginColumn)
    ensures NormalizeStep(reply, origin, floatText).Success? <==>
      Normalize(reply).Success? && (origin.Some? ==> |origin.value.columns| > 0)
    ensures NormalizeStep(reply, origin, floatText).Success? ==>
      NormalizeStep(reply, origin, floatText).value.table == Normalize(reply).value
  {
    AfterParseSpec(Normalize(reply), origin, floatText);
  }
}
