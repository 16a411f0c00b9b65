/** The gap-fill reconciliation `postprocesar_huella` (postprocesar_huella.py
    3-35): the footprint table is cleaned in place (stripped text IDs, numeric
    totals, one unit for every row) and a zero-footprint row is appended for
    every IFC element the table does not mention. */
module GapFill {
  import opened Wrappers
  import opened Seqs
  import opened Text
  import opened Tables

  /** The `ValueError` of lines 12-13: one of the three columns is absent. */
  datatype GapError = MissingColumns

  predicate HasRequired(cols: seq<string>)
  {
    "ID" in cols && "Total" in cols && "Unidad" in cols
  }

  /** The order `sorted` puts the modes of the unit column in: numbers before
      texts, numbers by value, texts by code points. */
  predicate CellLess(a: Cell, b: Cell)
  {
    match (a, b)
    case (Num(x), Num(y)) => x < y
    case (Num(_), Str(_)) => true
    case (Str(s), Str(t)) => LexLess(s, t)
    case _ => false
  }

  lemma CellLessIrreflexive(a: Cell)
    ensures !CellLess(a, a)
  {
    if a.Str? {
      LexLessIrreflexive(a.s);
    }
  }

  lemma CellLessTransitive(a: Cell, b: Cell, c: Cell)
    requires CellLess(a, b) && CellLess(b, c)
    ensures CellLess(a, c)
  {
    if a.Str? {
      LexLessTransitive(a.s, b.s, c.s);
    }
  }

  lemma CellLessTotal(a: Cell, b: Cell)
    requires !a.Null? && !b.Null?
    ensures a == b || CellLess(a, b) || CellLess(b, a)
  {
    if a.Str? && b.Str? && a != b {
      LexLessTotal(a.s, b.s);
    }
  }

  function IsValue(c: Cell): bool
  {
    !c.Null?
  }

  /** The non-missing cells of a column, the ones `mode()` counts. */
  function Present(col: seq<Cell>): (r: seq<Cell>)
    ensures forall c :: c in r <==> c in col && !c.Null?
  {
    FilterMembers(col, IsValue);
    Filter(col, IsValue)
  }

  /** The candidate occurring most often in `col`, the smallest of those on a tie. */
  function Frequent(cands: seq<Cell>, col: seq<Cell>): (r: Cell)
    requires |cands| > 0 && forall c :: c in cands ==> !c.Null?
    ensures r in cands
    ensures forall c :: c in cands ==>
      Count(col, c) < Count(col, r) || (Count(col, c) == Count(col, r) && (c == r || CellLess(r, c)))
  {
    if |cands| == 1 then cands[0]
    else
      var h := cands[0];
      var rest := Frequent(cands[1..], col);
      assert forall c :: c in cands ==> c == h || c in cands[1..];
      if Count(col, h) > Count(col, rest) || (Count(col, h) == Count(col, rest) && CellLess(h, rest)) then
        FrequentHead(h, rest, cands[1..], col);
        h
      else
        CellLessTotal(h, rest);
        rest
  }

  lemma FrequentHead(h: Cell, rest: Cell, tail: seq<Cell>, col: seq<Cell>)
    requires Count(col, h) > Count(col, rest) || (Count(col, h) == Count(col, rest) && CellLess(h, rest))
    requires forall c :: c in tail ==>
      Count(col, c) < Count(col, rest) || (Count(col, c) == Count(col, rest) && (c == rest || CellLess(rest, c)))
    ensures forall c :: c in tail ==>
      Count(col, c) < Count(col, h) || (Count(col, c) == Count(col, h) && (c == h || CellLess(h, c)))
  {
    forall c | c in tail && Count(col, c) == Count(col, h) && c != h
      ensures CellLess(h, c)
    {
      if c != rest {
        CellLessTransitive(h, rest, c);
      }
    }
  }

  /** Line 19: `mode().iloc[0]` of the unit column, or the default unit when every
      cell of it is missing. */
  function UniformUnit(col: seq<Cell>): (u: Cell)
    ensures !u.Null?
  {
    var cands := Present(col);
    if |cands| == 0 then Str(DefaultUnit) else Frequent(cands, col)
  }

  /** The unit chosen is the default exactly when the column has no value, and
      otherwise a value of the column occurring at least as often as any other,
      and smaller than every other value occurring as often. */
  lemma UnitIsMode(col: seq<Cell>)
    ensures (forall i :: 0 <= i < |col| ==> col[i].Null?) ==> UniformUnit(col) == Str(DefaultUnit)
    ensures (exists i :: 0 <= i < |col| && !col[i].Null?) ==>
      (var u := UniformUnit(col);
       u in col
       && forall c :: c in col && !c.Null? ==>
         Count(col, c) < Count(col, u) || (Count(col, c) == Count(col, u) && (c == u || CellLess(u, c))))
  {
    if exists i :: 0 <= i < |col| && !col[i].Null? {
      var i :| 0 <= i < |col| && !col[i].Null?;
      assert col[i] in Present(col);
    } else {
      FilterNone(col, IsValue);
    }
  }

  /** A column holding one value in every cell has that value as its unit. */
  lemma UnitOfUniform(col: seq<Cell>, u: Cell)
    requires |col| > 0 && !u.Null? && forall i :: 0 <= i < |col| ==> col[i] == u
    ensures UniformUnit(col) == u
  {
    assert col[0] in Present(col);
    assert UniformUnit(col) in col;
  }

  /** Lines 15, 16 and 20 on one cell of column `name`. */
  function CleanCell(name: string, c: Cell, unit: Cell, parse: string -> Option<real>, floatText: real -> string): Cell
  {
    if name == "ID" then Str(Strip(CellText(c, floatText)))
    else if name == "Total" then ToNumeric(c, parse)
    else if name == "Unidad" then unit
    else c
  }

  function CleanRow(cols: seq<string>, row: seq<Cell>, unit: Cell, parse: string -> Option<real>, floatText: real -> string): (r: seq<Cell>)
    requires |row| == |cols|
    ensures |r| == |cols|
  {
    seq(|cols|, j requires 0 <= j < |cols| => CleanCell(cols[j], row[j], unit, parse, floatText))
  }

  /** The unit every row receives: that of the input's `Unidad` column. */
  function Unit(f: Frame): Cell
    requires Rectangular(f) && "Unidad" in f.columns
  {
    UniformUnit(Column(f, ColumnIndex(f.columns, "Unidad").value))
  }

  /** The caller's frame after the rewrites of lines 15-20. */
  function Cleaned(f: Frame, parse: string -> Option<real>, floatText: real -> string): (g: Frame)
    requires Rectangular(f) && HasRequired(f.columns)
    ensures g.columns == f.columns && |g.rows| == |f.rows| && Rectangular(g)
  {
    var unit := Unit(f);
    Frame(f.columns, seq(|f.rows|, i requires 0 <= i < |f.rows| => CleanRow(f.columns, f.rows[i], unit, parse, floatText)))
  }

  /** `set(df['ID'])`, as cells. */
  function PresentIds(rows: seq<seq<Cell>>, idx: nat): set<Cell>
  {
    set r | r in rows :: CellAt(r, idx)
  }

  function NotIn(present: set<Cell>): string -> bool
  {
    id => Str(id) !in present
  }

  /** Line 24: the IFC ids absent from the table, in their own order, repeats kept. */
  function MissingIds(ids: seq<string>, present: set<Cell>): seq<string>
  {
    Filter(ids, NotIn(present))
  }

  /** The row of lines 27-31 for one missing id, aligned on the table's columns by
      the concatenation of line 34: other columns are missing. */
  function FillRow(cols: seq<string>, id: string, unit: Cell): (r: seq<Cell>)
    ensures |r| == |cols|
  {
    seq(|cols|, j requires 0 <= j < |cols| =>
      if cols[j] == "ID" then Str(id)
      else if cols[j] == "Total" then Num(0.0)
      else if cols[j] == "Unidad" then unit
      else Null)
  }

  function FillRows(cols: seq<string>, ids: seq<string>, unit: Cell): (r: seq<seq<Cell>>)
    ensures |r| == |ids| && forall k :: 0 <= k < |ids| ==> r[k] == FillRow(cols, ids[k], unit)
  {
    seq(|ids|, k requires 0 <= k < |ids| => FillRow(cols, ids[k], unit))
  }

  /** The table that `postprocesar_huella` returns, or the error it raises. */
  function PostProcessed(f: Frame, ids: seq<string>, parse: string -> Option<real>, floatText: real -> string): (r: Result<Frame, GapError>)
    requires Rectangular(f)
    ensures r.Failure? <==> !HasRequired(f.columns)
  {
    if !HasRequired(f.columns) then Failure(MissingColumns)
    else
      var g := Cleaned(f, parse, floatText);
      var added := MissingIds(ids, PresentIds(g.rows, ColumnIndex(g.columns, "ID").value));
      Success(Frame(g.columns, g.rows + FillRows(g.columns, added, Unit(f))))
  }

  /** `postprocesar_huella(df_ia, ids_ifc)`: rewrites the caller's frame in place and
      returns the completed copy. */
  method PostProcess(df: DataFrame, ids: seq<string>, parse: string -> Option<real>, floatText: real -> string)
    returns (r: Result<Frame, GapError>)
    requires df.Valid() && NoDuplicates(df.columns)
    modifies df
    ensures df.Valid()
    ensures r == PostProcessed(old(df.Value()), ids, parse, floatText)
    ensures r.Failure? ==> df.Value() == old(df.Value())
    ensures r.Success? ==> df.Value() == Cleaned(old(df.Value()), parse, floatText)
  {
    if !HasRequired(df.columns) {
      return Failure(MissingColumns);
    }
    var f0 := df.Value();
    var idx := ColumnIndex(df.columns, "ID").value;
    var tdx := ColumnIndex(df.columns, "Total").value;
    var udx := ColumnIndex(df.columns, "Unidad").value;
    var rows := df.rows;
    var ids0 := seq(|rows|, i requires 0 <= i < |rows| => Str(Strip(CellText(rows[i][idx], floatText))));
    var totals := seq(|rows|, i requires 0 <= i < |rows| => ToNumeric(rows[i][tdx], parse));
    var unit := UniformUnit(Column(f0, udx));
    df.Assign("ID", ids0);
    df.Assign("Total", totals);
    df.Assign("Unidad", Repeat(unit, |rows|));
    AssignsGiveCleaned(f0, ids0, totals, Repeat(unit, |rows|), parse, floatText);
    var added := MissingIds(ids, PresentIds(df.rows, idx));
    r := Success(Frame(df.columns, df.rows + FillRows(df.columns, added, unit)));
  }

  /** The three column assignments of lines 15, 16 and 20, made one after the
      other, produce `Cleaned`. */
  lemma AssignsGiveCleaned(f: Frame, ids: seq<Cell>, totals: seq<Cell>, units: seq<Cell>,
                           parse: string -> Option<real>, floatText: real -> string)
    requires Rectangular(f) && HasRequired(f.columns) && NoDuplicates(f.columns)
    requires |ids| == |totals| == |units| == |f.rows|
    requires forall i :: 0 <= i < |f.rows| ==>
      ids[i] == Str(Strip(CellText(f.rows[i][ColumnIndex(f.columns, "ID").value], floatText)))
    requires forall i :: 0 <= i < |f.rows| ==>
      totals[i] == ToNumeric(f.rows[i][ColumnIndex(f.columns, "Total").value], parse)
    requires forall i :: 0 <= i < |f.rows| ==> units[i] == Unit(f)
    ensures WithColumn(WithColumn(WithColumn(f, "ID", ids), "Total", totals), "Unidad", units)
            == Cleaned(f, parse, floatText)
  {
    var idx := ColumnIndex(f.columns, "ID").value;
    var tdx := ColumnIndex(f.columns, "Total").value;
    var udx := ColumnIndex(f.columns, "Unidad").value;
    var f1 := WithColumn(f, "ID", ids);
    var f2 := WithColumn(f1, "Total", totals);
    var g := WithColumn(f2, "Unidad", units);
    forall i, j | 0 <= i < |f.rows| && 0 <= j < |f.columns|
      ensures g.rows[i][j] == if j == idx then ids[i] else if j == tdx then totals[i]
                              else if j == udx then units[i] else f.rows[i][j]
    {
      assert f1.rows[i][j] == if f.columns[j] == "ID" then ids[i] else f.rows[i][j];
      assert f2.rows[i][j] == if f.columns[j] == "Total" then totals[i] else f1.rows[i][j];
      assert g.rows[i][j] == if f.columns[j] == "Unidad" then units[i] else f2.rows[i][j];
      LabelAt(f.columns, j, idx);
      LabelAt(f.columns, j, tdx);
      LabelAt(f.columns, j, udx);
    }
    CleanedByAssigns(f, g, parse, floatText, idx, tdx, udx);
  }

  /** In a frame without repeated labels a label names one position. */
  lemma LabelAt(cols: seq<string>, j: nat, k: nat)
    requires NoDuplicates(cols) && j < |cols| && k < |cols|
    ensures cols[j] == cols[k] <==> j == k
  {
  }

  lemma Distinct3(cols: seq<string>, idx: nat, tdx: nat, udx: nat)
    requires idx < |cols| && tdx < |cols| && udx < |cols|
    requires cols[idx] == "ID" && cols[tdx] == "Total" && cols[udx] == "Unidad"
    ensures idx != tdx && idx != udx && tdx != udx
  {
  }

  /** The three column assignments of lines 15, 16 and 20 produce `Cleaned`. */
  lemma CleanedByAssigns(f: Frame, g: Frame, parse: string -> Option<real>, floatText: real -> string, idx: nat, tdx: nat, udx: nat)
    requires Rectangular(f) && HasRequired(f.columns) && NoDuplicates(f.columns)
    requires idx == ColumnIndex(f.columns, "ID").value && tdx == ColumnIndex(f.columns, "Total").value
    requires udx == ColumnIndex(f.columns, "Unidad").value
    requires g.columns == f.columns && |g.rows| == |f.rows| && Rectangular(g)
    requires forall i, j :: 0 <= i < |f.rows| && 0 <= j < |f.columns| ==>
      g.rows[i][j] == if j == idx then Str(Strip(CellText(f.rows[i][idx], floatText)))
                      else if j == tdx then ToNumeric(f.rows[i][tdx], parse)
                      else if j == udx then Unit(f)
                      else f.rows[i][j]
    ensures g == Cleaned(f, parse, floatText)
  {
    var c := Cleaned(f, parse, floatText);
    forall i | 0 <= i < |f.rows|
      ensures g.rows[i] == c.rows[i]
    {
      forall j | 0 <= j < |f.columns|
        ensures g.rows[i][j] == c.rows[i][j]
      {
        assert c.rows[i][j] == CleanCell(f.columns[j], f.rows[i][j], Unit(f), parse, floatText);
        if f.columns[j] == "ID" { assert j == idx; }
        if f.columns[j] == "Total" { assert j == tdx; }
        if f.columns[j] == "Unidad" { assert j == udx; }
      }
    }
  }

  /** The cleaned cell of row `i` and column `j` (lines 15, 16 and 20): IDs are
      stripped texts, totals numbers (0 for a missing cell or a text pandas
      rejects), every unit the chosen one, and every other cell unchanged. */
  lemma CleanedCell(f: Frame, parse: string -> Option<real>, floatText: real -> string, i: nat, j: nat)
    requires Rectangular(f) && HasRequired(f.columns) && i < |f.rows| && j < |f.columns|
    ensures var c := Cleaned(f, parse, floatText).rows[i][j];
      var old_ := f.rows[i][j];
      (f.columns[j] == "ID" ==> c == Str(Strip(CellText(old_, floatText))) && Strip(c.s) == c.s)
      && (f.columns[j] == "Total" ==>
            c.Num? && (old_.Num? ==> c == old_)
            && ((old_.Null? || (old_.Str? && parse(old_.s).None?)) ==> c == Num(0.0)))
      && (f.columns[j] == "Unidad" ==> c == Unit(f))
      && (f.columns[j] != "ID" && f.columns[j] != "Total" && f.columns[j] != "Unidad" ==> c == old_)
  {
    StripIdempotent(CellText(f.rows[i][j], floatText));
  }

  /** The rows returned: the cleaned input rows in their order, then one row per
      missing id in the order of `ids`, with that id, a zero total, the uniform
      unit and nothing in the other columns. */
  lemma ReturnedRows(f: Frame, ids: seq<string>, parse: string -> Option<real>, floatText: real -> string)
    requires Rectangular(f) && HasRequired(f.columns)
    ensures var g := PostProcessed(f, ids, parse, floatText).value;
      var c := Cleaned(f, parse, floatText);
      var added := MissingIds(ids, PresentIds(c.rows, ColumnIndex(f.columns, "ID").value));
      g.columns == f.columns && |g.rows| == |f.rows| + |added| && g.rows[..|f.rows|] == c.rows
      && forall k, j :: 0 <= k < |added| && 0 <= j < |f.columns| ==>
        g.rows[|f.rows| + k][j] == if f.columns[j] == "ID" then Str(added[k])
                                   else if f.columns[j] == "Total" then Num(0.0)
                                   else if f.columns[j] == "Unidad" then Unit(f)
                                   else Null
  {
  }

  /** The ids added are the ids of `ids` the cleaned table lacks, each as many times
      as `ids` repeats it; an id the table has is not added. */
  lemma AddedPerId(ids: seq<string>, present: set<Cell>, id: string)
    ensures Count(MissingIds(ids, present), id) == if Str(id) in present then 0 else Count(ids, id)
  {
    FilterCount(ids, NotIn(present), id);
  }

  /** Completeness: every IFC id is an ID of the returned table. */
  lemma Complete(f: Frame, ids: seq<string>, parse: string -> Option<real>, floatText: real -> string)
    requires Rectangular(f) && HasRequired(f.columns)
    ensures var g := PostProcessed(f, ids, parse, floatText).value;
      forall id :: id in ids ==> Str(id) in PresentIds(g.rows, ColumnIndex(f.columns, "ID").value)
  {
    var g := PostProcessed(f, ids, parse, floatText).value;
    var c := Cleaned(f, parse, floatText);
    var idx := ColumnIndex(f.columns, "ID").value;
    var present := PresentIds(c.rows, idx);
    var added := MissingIds(ids, present);
    var fill := FillRows(f.columns, added, Unit(f));
    assert g.rows == c.rows + fill;
    PresentIdsAppend(c.rows, fill, idx);
    FilterMembers(ids, NotIn(present));
    forall id | id in ids
      ensures Str(id) in PresentIds(g.rows, idx)
    {
      if Str(id) !in present {
        assert id in added;
        var k :| 0 <= k < |added| && added[k] == id;
        FillRowId(f.columns, id, Unit(f), idx);
        assert fill[k] in fill;
      }
    }
  }

  lemma PresentIdsAppend(a: seq<seq<Cell>>, b: seq<seq<Cell>>, idx: nat)
    ensures PresentIds(a + b, idx) == PresentIds(a, idx) + PresentIds(b, idx)
  {
  }

  /** An added row carries its id in the ID column. */
  lemma FillRowId(cols: seq<string>, id: string, u: Cell, idx: nat)
    requires idx < |cols| && cols[idx] == "ID"
    ensures CellAt(FillRow(cols, id, u), idx) == Str(id)
  {
  }

  /** The appended rows carry the given ids, in order, and no other id. */
  lemma FillRowsIds(cols: seq<string>, ids: seq<string>, u: Cell, idx: nat)
    requires idx < |cols| && cols[idx] == "ID"
    ensures forall k :: 0 <= k < |ids| ==> CellAt(FillRows(cols, ids, u)[k], idx) == Str(ids[k])
    ensures PresentIds(FillRows(cols, ids, u), idx) == set id | id in ids :: Str(id)
  {
    var rows := FillRows(cols, ids, u);
    forall k | 0 <= k < |ids|
      ensures CellAt(rows[k], idx) == Str(ids[k])
    {
      FillRowId(cols, ids[k], u, idx);
    }
    forall c | c in PresentIds(rows, idx)
      ensures c in set id | id in ids :: Str(id)
    {
      var r :| r in rows && CellAt(r, idx) == c;
      var k :| 0 <= k < |rows| && rows[k] == r;
      assert ids[k] in ids;
    }
    forall id | id in ids
      ensures Str(id) in PresentIds(rows, idx)
    {
      var k :| 0 <= k < |ids| && ids[k] == id;
      assert rows[k] in rows;
    }
  }

  /** When the table already holds every IFC id nothing is appended. */
  lemma NothingAdded(f: Frame, ids: seq<string>, parse: string -> Option<real>, floatText: real -> string)
    requires Rectangular(f) && HasRequired(f.columns)
    requires var c := Cleaned(f, parse, floatText);
      forall id :: id in ids ==> Str(id) in PresentIds(c.rows, ColumnIndex(f.columns, "ID").value)
    ensures PostProcessed(f, ids, parse, floatText) == Success(Cleaned(f, parse, floatText))
  {
    var c := Cleaned(f, parse, floatText);
    var present := PresentIds(c.rows, ColumnIndex(f.columns, "ID").value);
    FilterNone(ids, NotIn(present));
    assert c.rows + [] == c.rows;
  }

  /** A row in the shape the call leaves: a stripped text ID, a numeric total
      and the unit `u`. */
  predicate SettledRow(row: seq<Cell>, idx: nat, tdx: nat, udx: nat, u: Cell)
  {
    CellAt(row, idx).Str? && Strip(CellAt(row, idx).s) == CellAt(row, idx).s
    && CellAt(row, tdx).Num? && CellAt(row, udx) == u
  }

  /** A table every row of which is settled. */
  predicate Settled(g: Frame, u: Cell)
    requires HasRequired(g.columns)
  {
    var idx := ColumnIndex(g.columns, "ID").value;
    var tdx := ColumnIndex(g.columns, "Total").value;
    var udx := ColumnIndex(g.columns, "Unidad").value;
    forall i :: 0 <= i < |g.rows| ==> SettledRow(g.rows[i], idx, tdx, udx, u)
  }

  /** Cleaning a settled row with its unit changes nothing. */
  lemma SettledRowFixed(cols: seq<string>, row: seq<Cell>, u: Cell, parse: string -> Option<real>, floatText: real -> string)
    requires HasRequired(cols) && NoDuplicates(cols) && |row| == |cols|
    requires SettledRow(row, ColumnIndex(cols, "ID").value, ColumnIndex(cols, "Total").value, ColumnIndex(cols, "Unidad").value, u)
    ensures CleanRow(cols, row, u, parse, floatText) == row
  {
    var c := CleanRow(cols, row, u, parse, floatText);
    forall j | 0 <= j < |cols|
      ensures c[j] == row[j]
    {
      LabelAt(cols, j, ColumnIndex(cols, "ID").value);
      LabelAt(cols, j, ColumnIndex(cols, "Total").value);
      LabelAt(cols, j, ColumnIndex(cols, "Unidad").value);
    }
  }

  /** Cleaning a settled table changes nothing. */
  lemma SettledFixed(g: Frame, u: Cell, parse: string -> Option<real>, floatText: real -> string)
    requires Rectangular(g) && HasRequired(g.columns) && NoDuplicates(g.columns) && !u.Null?
    requires Settled(g, u) && |g.rows| > 0
    ensures Unit(g) == u && Cleaned(g, parse, floatText) == g
  {
    var udx := ColumnIndex(g.columns, "Unidad").value;
    UnitOfUniform(Column(g, udx), u);
    var c := Cleaned(g, parse, floatText);
    forall i | 0 <= i < |g.rows|
      ensures c.rows[i] == g.rows[i]
    {
      SettledRowFixed(g.columns, g.rows[i], u, parse, floatText);
    }
  }

  /** A cleaned input row is settled. */
  lemma CleanedRowSettled(f: Frame, parse: string -> Option<real>, floatText: real -> string, i: nat)
    requires Rectangular(f) && HasRequired(f.columns) && NoDuplicates(f.columns) && i < |f.rows|
    ensures SettledRow(Cleaned(f, parse, floatText).rows[i], ColumnIndex(f.columns, "ID").value,
                       ColumnIndex(f.columns, "Total").value, ColumnIndex(f.columns, "Unidad").value, Unit(f))
  {
    CleanedCell(f, parse, floatText, i, ColumnIndex(f.columns, "ID").value);
    CleanedCell(f, parse, floatText, i, ColumnIndex(f.columns, "Total").value);
    CleanedCell(f, parse, floatText, i, ColumnIndex(f.columns, "Unidad").value);
  }

  /** A row added for a stripped id is settled. */
  lemma FillRowSettled(cols: seq<string>, id: string, u: Cell)
    requires HasRequired(cols) && NoDuplicates(cols) && Strip(id) == id
    ensures SettledRow(FillRow(cols, id, u), ColumnIndex(cols, "ID").value,
                       ColumnIndex(cols, "Total").value, ColumnIndex(cols, "Unidad").value, u)
  {
    var idx := ColumnIndex(cols, "ID").value;
    var tdx := ColumnIndex(cols, "Total").value;
    var udx := ColumnIndex(cols, "Unidad").value;
    var r := FillRow(cols, id, u);
    LabelsDiffer();
    assert r[idx] == Str(id);
    assert r[tdx] == Num(0.0);
    assert r[udx] == u;
  }

  /** The three required labels are distinct texts. */
  lemma LabelsDiffer()
    ensures "ID" != "Total" && "ID" != "Unidad" && "Total" != "Unidad"
  {
    assert |"ID"| == 2 && |"Total"| == 5 && |"Unidad"| == 6;
  }

  /** With stripped IFC ids, the returned table is settled with the unit chosen. */
  lemma ReturnedSettled(f: Frame, ids: seq<string>, parse: string -> Option<real>, floatText: real -> string)
    requires Rectangular(f) && HasRequired(f.columns) && NoDuplicates(f.columns)
    requires forall k :: 0 <= k < |ids| ==> Strip(ids[k]) == ids[k]
    ensures var g := PostProcessed(f, ids, parse, floatText).value;
      Rectangular(g) && Settled(g, Unit(f))
  {
    var g := PostProcessed(f, ids, parse, floatText).value;
    var c := Cleaned(f, parse, floatText);
    var idx := ColumnIndex(f.columns, "ID").value;
    var added := MissingIds(ids, PresentIds(c.rows, idx));
    var fill := FillRows(f.columns, added, Unit(f));
    assert g.rows == c.rows + fill;
    FilterMembers(ids, NotIn(PresentIds(c.rows, idx)));
    forall i | 0 <= i < |g.rows|
      ensures SettledRow(g.rows[i], idx, ColumnIndex(f.columns, "Total").value, ColumnIndex(f.columns, "Unidad").value, Unit(f))
    {
      if i < |f.rows| {
        assert g.rows[i] == c.rows[i];
        CleanedRowSettled(f, parse, floatText, i);
      } else {
        var k := i - |f.rows|;
        assert g.rows[i] == fill[k];
        assert added[k] in ids;
        FillRowSettled(f.columns, added[k], Unit(f));
      }
    }
  }

  /** With stripped IFC ids the call is idempotent: applied to its own result
      (whose labels do not repeat) it returns that result unchanged. */
  lemma Idempotent(f: Frame, ids: seq<string>, parse: string -> Option<real>, floatText: real -> string)
    requires Rectangular(f) && HasRequired(f.columns) && NoDuplicates(f.columns)
    requires forall k :: 0 <= k < |ids| ==> Strip(ids[k]) == ids[k]
    ensures var g := PostProcessed(f, ids, parse, floatText).value;
      PostProcessed(g, ids, parse, floatText) == Success(g)
  {
    var g := PostProcessed(f, ids, parse, floatText).value;
    ReturnedRows(f, ids, parse, floatText);
    ReturnedSettled(f, ids, parse, floatText);
    Complete(f, ids, parse, floatText);
    if |g.rows| > 0 {
      SettledFixed(g, Unit(f), parse, floatText);
    } else {
      assert g == Frame(f.columns, []);
      assert Cleaned(g, parse, floatText) == g;
    }
    NothingAdded(g, ids, parse, floatText);
  }

  /** Every ID of a cleaned table is stripped, so an IFC id with surrounding
      blanks is never found and every call appends a row for it. */
  lemma PaddedIdMissing(f: Frame, ids: seq<string>, id: string, parse: string -> Option<real>, floatText: real -> string)
    requires Rectangular(f) && HasRequired(f.columns) && id in ids && Strip(id) != id
    ensures var c := Cleaned(f, parse, floatText);
      id in MissingIds(ids, PresentIds(c.rows, ColumnIndex(f.columns, "ID").value))
  {
    var c := Cleaned(f, parse, floatText);
    var idx := ColumnIndex(f.columns, "ID").value;
    var present := PresentIds(c.rows, idx);
    if Str(id) in present {
      var r :| r in c.rows && CellAt(r, idx) == Str(id);
      var i :| 0 <= i < |c.rows| && c.rows[i] == r;
      CleanedCell(f, parse, floatText, i, idx);
    }
    FilterMembers(ids, NotIn(present));
  }

  /** Hence without stripped IFC ids the call is not idempotent: applied to its own
      result it appends rows again. */
  lemma NotIdempotentWhenPadded(f: Frame, ids: seq<string>, id: string, parse: string -> Option<real>, floatText: real -> string)
    requires Rectangular(f) && HasRequired(f.columns) && id in ids && Strip(id) != id
    ensures var g := PostProcessed(f, ids, parse, floatText).value;
      |PostProcessed(g, ids, parse, floatText).value.rows| > |g.rows|
  {
    var g := PostProcessed(f, ids, parse, floatText).value;
    ReturnedRows(f, ids, parse, floatText);
    ReturnedRows(g, ids, parse, floatText);
    PaddedIdMissing(g, ids, id, parse, floatText);
  }

  /** After the call every row, kept or added, carries the one unit chosen. */
  lemma OneUnit(f: Frame, ids: seq<string>, parse: string -> Option<real>, floatText: real -> string)
    requires Rectangular(f) && HasRequired(f.columns)
    ensures var g := PostProcessed(f, ids, parse, floatText).value;
      var udx := ColumnIndex(f.columns, "Unidad").value;
      forall i :: 0 <= i < |g.rows| ==> CellAt(g.rows[i], udx) == Unit(f)
  {
    var g := PostProcessed(f, ids, parse, floatText).value;
    var c := Cleaned(f, parse, floatText);
    var udx := ColumnIndex(f.columns, "Unidad").value;
    ReturnedRows(f, ids, parse, floatText);
    forall i | 0 <= i < |g.rows|
      ensures CellAt(g.rows[i], udx) == Unit(f)
    {
      if i < |f.rows| {
        assert g.rows[i] == c.rows[i];
        CleanedCell(f, parse, floatText, i, udx);
      }
    }
  }
}
