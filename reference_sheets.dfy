/** Loading of the reference workbook (funciones/cargar_base.py 4-29). Every sheet
    is read without a header; a sheet with at least four rows takes its second row
    (index 1) as column labels and keeps the rows from index 3 on as data, and is
    kept only when it has more than one column. Failures do not raise: they come
    back as a one-entry dict `{"error": message}`, modelled as `ErrorSentinel`. */
module ReferenceSheets {
  import opened Wrappers
  import opened Seqs
  import opened Dicts
  import opened Tables

  /** A sheet as `read_excel(..., header=None)` returns it: its column count and
      its rows of cells. */
  datatype Grid = Grid(width: nat, rows: seq<seq<Cell>>)

  /** A cleaned sheet: the labels taken from row 1 and the data rows 3, 4, .... */
  datatype Sheet = Sheet(header: seq<Cell>, data: seq<seq<Cell>>, width: nat)

  /** The function's result: the cleaned sheets by name, or `{"error": message}`. */
  datatype Loaded = Sheets(sheets: Dict<Sheet>) | ErrorSentinel(message: string)

  /** `df.empty`: no rows or no columns. */
  predicate IsEmpty(g: Grid)
  {
    |g.rows| == 0 || g.width == 0
  }

  /** The skip test of line 17. */
  predicate Skipped(g: Grid)
  {
    IsEmpty(g) || |g.rows| < 4
  }

  /** A sheet survives: it is not skipped and has more than one column. */
  predicate Keeps(g: Grid)
  {
    !Skipped(g) && g.width > 1
  }

  /** `df.columns = df.iloc[1]` then `df.iloc[3:].reset_index(drop=True)`. */
  function Clean(g: Grid): Sheet
    requires |g.rows| >= 4
  {
    Sheet(g.rows[1], g.rows[3..], g.width)
  }

  /** What one sheet contributes to `hojas_limpias`: itself cleaned, or nothing. */
  function CleanEntry(e: (string, Grid)): Dict<Sheet>
  {
    if Skipped(e.1) then []
    else if e.1.width > 1 then [(e.0, Clean(e.1))]
    else []
  }

  /** `hojas_limpias` after the loop over all sheets, written in sheet order. */
  function Cleaned(sheets: Dict<Grid>): Dict<Sheet>
  {
    PutAll([], Gather(sheets, CleanEntry))
  }

  function MissingFileMessage(path: string): string
  {
    "No se encontró el archivo: " + path
  }

  const NoSheetsMessage: string := "No se encontraron hojas con datos válidos."

  function ReadErrorMessage(reason: string): string
  {
    "Error al leer el archivo Excel: " + reason
  }

  /** The whole function. `fileExists` is `os.path.exists(ruta_excel)`; `read` is
      what `read_excel` returned, or the text of the exception it raised. */
  function Load(path: string, fileExists: bool, read: Result<Dict<Grid>, string>): (r: Loaded)
    ensures r.Sheets? <==> fileExists && read.Success? && |Cleaned(read.value)| > 0
    ensures !fileExists ==> r == ErrorSentinel(MissingFileMessage(path))
    ensures fileExists && read.Failure? ==> r == ErrorSentinel(ReadErrorMessage(read.error))
    ensures fileExists && read.Success? && |Cleaned(read.value)| == 0 ==> r == ErrorSentinel(NoSheetsMessage)
    ensures r.Sheets? ==> r.sheets == Cleaned(read.value)
  {
    if !fileExists then ErrorSentinel(MissingFileMessage(path))
    else match read
      case Failure(reason) => ErrorSentinel(ReadErrorMessage(reason))
      case Success(hojas) =>
        var limpias := Cleaned(hojas);
        if |limpias| > 0 then Sheets(limpias) else ErrorSentinel(NoSheetsMessage)
  }

  /** `cargar_todas_las_hojas`, with the loop of lines 16-24 filling the dict. */
  method LoadAllSheets(path: string, fileExists: bool, read: Result<Dict<Grid>, string>)
    returns (r: Loaded)
    ensures r == Load(path, fileExists, read)
  {
    if !fileExists {
      return ErrorSentinel(MissingFileMessage(path));
    }
    if read.Failure? {
      return ErrorSentinel(ReadErrorMessage(read.error));
    }
    var hojas := read.value;
    var limpias: Dict<Sheet> := [];
    var i := 0;
    while i < |hojas|
      invariant 0 <= i <= |hojas|
      invariant limpias == PutAll([], Gather(hojas[..i], CleanEntry))
    {
      var (nombre, df) := hojas[i];
      TakeSnoc(hojas, i);
      GatherSnoc(hojas[..i], hojas[i], CleanEntry);
      PutAllAppend([], Gather(hojas[..i], CleanEntry), CleanEntry(hojas[i]));
      if IsEmpty(df) || |df.rows| < 4 {
        assert CleanEntry(hojas[i]) == [];
        AppendNil(Gather(hojas[..i], CleanEntry));
      } else {
        var limpio := Sheet(df.rows[1], df.rows[3..], df.width);
        if df.width > 1 {
          assert CleanEntry(hojas[i]) == [(nombre, limpio)];
          limpias := Put(limpias, nombre, limpio);
        } else {
          assert CleanEntry(hojas[i]) == [];
          AppendNil(Gather(hojas[..i], CleanEntry));
        }
      }
      i := i + 1;
    }
    assert hojas[..|hojas|] == hojas;
    if |limpias| > 0 {
      r := Sheets(limpias);
    } else {
      r := ErrorSentinel(NoSheetsMessage);
    }
  }

  /** A cleaned sheet has `r - 3` data rows: row `j` is row `j + 3` of the sheet,
      its labels are row 1, and its column count is unchanged. */
  lemma CleanShape(g: Grid, j: nat)
    requires !Skipped(g)
    ensures |Clean(g).data| == |g.rows| - 3
    ensures j < |Clean(g).data| ==> Clean(g).data[j] == g.rows[j + 3]
    ensures Clean(g).header == g.rows[1] && Clean(g).width == g.width
  {
  }

  /** Writing a new key appends it. */
  lemma {:induction false} PutNew<V>(d: Dict<V>, k: string, v: V)
    requires k !in Keys(d)
    ensures Put(d, k, v) == d + [(k, v)]
  {
    if |d| > 0 {
      assert Keys(d) == [d[0].0] + Keys(d[1..]);
      PutNew(d[1..], k, v);
      assert [d[0]] + (d[1..] + [(k, v)]) == d + [(k, v)];
    }
  }

  lemma KeysAppend<V>(a: Dict<V>, b: Dict<V>)
    ensures Keys(a + b) == Keys(a) + Keys(b)
  {
  }

  /** The names a sheet contributes are its own name or nothing. */
  lemma {:induction false} GatherKeys(s: Dict<Grid>)
    ensures SubSeq(Keys(Gather(s, CleanEntry)), Keys(s))
    decreases |s|
  {
    if |s| == 0 {
      assert Keys(Gather(s, CleanEntry)) == [];
    } else {
      var n := |s| - 1;
      GatherKeys(s[..n]);
      KeysAppend(Gather(s[..n], CleanEntry), CleanEntry(s[n]));
      var own := Keys(CleanEntry(s[n]));
      assert SubSeq(own, [s[n].0]) by {
        if |own| > 0 {
          assert own == [s[n].0];
          SubSeqRefl(own);
        }
      }
      SubSeqConcat(Keys(Gather(s[..n], CleanEntry)), Keys(s[..n]), own, [s[n].0]);
      assert Keys(s) == Keys(s[..n]) + [s[n].0];
    }
  }

  /** A subsequence holds only elements of the longer sequence. */
  lemma {:induction false} SubSeqElements<T>(a: seq<T>, b: seq<T>, x: T)
    requires SubSeq(a, b)
    ensures x in a ==> x in b
    decreases |b|
  {
    if |a| > 0 && a[0] == b[0] {
      SubSeqElements(a[1..], b[1..], x);
      if x in a && x != a[0] {
        assert x in a[1..];
      }
    } else if |a| > 0 {
      SubSeqElements(a, b[1..], x);
    }
  }

  /** In a dict, the last key does not occur among the earlier ones. */
  lemma LastKeyFresh<V>(s: Dict<V>)
    requires |s| > 0 && UniqueKeys(s)
    ensures s[|s| - 1].0 !in Keys(s[..|s| - 1])
  {
    var n := |s| - 1;
    forall i | 0 <= i < n
      ensures Keys(s[..n])[i] != s[n].0
    {
      assert Keys(s[..n])[i] == s[i].0;
    }
  }

  /** With distinct sheet names (as in the dict `read_excel` returns), no sheet
      overwrites another: the cleaned dict is the surviving sheets in order. */
  lemma {:induction false} CleanedIsGather(s: Dict<Grid>)
    requires UniqueKeys(s)
    ensures Cleaned(s) == Gather(s, CleanEntry)
    decreases |s|
  {
    if |s| > 0 {
      var n := |s| - 1;
      var init := s[..n];
      assert UniqueKeys(init) by {
        forall i, j | 0 <= i < j < |init|
          ensures init[i].0 != init[j].0
        {
          assert init[i] == s[i] && init[j] == s[j];
        }
      }
      CleanedIsGather(init);
      PutAllAppend([], Gather(init, CleanEntry), CleanEntry(s[n]));
      var own := CleanEntry(s[n]);
      if |own| == 0 {
        assert Gather(s, CleanEntry) == Gather(init, CleanEntry) + [];
      } else {
        assert own == [(s[n].0, own[0].1)];
        LastKeyFresh(s);
        GatherKeys(init);
        SubSeqElements(Keys(Gather(init, CleanEntry)), Keys(init), s[n].0);
        assert PutAll(Gather(init, CleanEntry), own)
            == Put(Gather(init, CleanEntry), s[n].0, own[0].1);
        PutNew(Gather(init, CleanEntry), s[n].0, own[0].1);
      }
    }
  }

  /** The kept sheet names are input sheet names, in the input's order, and none
      repeats. */
  lemma CleanedNames(s: Dict<Grid>)
    requires UniqueKeys(s)
    ensures SubSeq(Keys(Cleaned(s)), Keys(s))
    ensures UniqueKeys(Cleaned(s))
  {
    CleanedIsGather(s);
    GatherKeys(s);
    UniquePutAll([], Gather(s, CleanEntry));
  }

  /** A sheet is in the result exactly when some input sheet of that name survives
      the filters, and then it is that sheet cleaned. */
  lemma CleanedMembers(s: Dict<Grid>, name: string, sheet: Sheet)
    requires UniqueKeys(s)
    ensures (name, sheet) in Cleaned(s)
        <==> exists i :: 0 <= i < |s| && s[i].0 == name && Keeps(s[i].1) && sheet == Clean(s[i].1)
  {
    CleanedIsGather(s);
    GatherMembers(s, CleanEntry, (name, sheet));
  }
}
