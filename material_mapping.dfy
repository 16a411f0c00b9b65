/** Mapping of the model's material names onto the names of the reference
    database (funciones/utils/normalizar_materiales_ifc.py 5-61). The distinct
    materials and the database names go into the oracle's prompt; its reply is
    read as a two-column table whose pairs, stripped, form a dictionary; each
    element row gets the database name its material maps to, or "NO ENCONTRADO".
    Any failure in reading the reply gives every row "NO ENCONTRADO". The new
    column `Material_Normalizado` is written into the caller's frame. */
module MaterialMapping {
  import opened Wrappers
  import opened Seqs
  import opened Text
  import opened Tables
  import opened Dicts
  import opened ReferenceSheets

  const NotFound: string := "NO ENCONTRADO"
  const NormalizedColumnName: string := "Material_Normalizado"

  /** The cells of column `j`, a missing cell where a row is too short. */
  function ColumnCells(rows: seq<seq<Cell>>, j: nat): (c: seq<Cell>)
    ensures |c| == |rows|
    ensures forall i :: 0 <= i < |rows| ==> c[i] == CellAt(rows[i], j)
  {
    seq(|rows|, i requires 0 <= i < |rows| => CellAt(rows[i], j))
  }

  predicate NotMissing(c: Cell)
  {
    !c.Null?
  }

  /** `df_ifc['Material'].dropna().unique().tolist()` (line 12). */
  function UniqueMaterials(column: seq<Cell>): seq<Cell>
  {
    Distinct(Filter(column, NotMissing))
  }

  /** The list holds every present material once, in order of first appearance. */
  lemma UniqueMaterialsSpec(column: seq<Cell>, c: Cell)
    ensures NoDuplicates(UniqueMaterials(column))
    ensures c in UniqueMaterials(column) <==> c in column && !c.Null?
    ensures forall i, j :: 0 <= i < j < |UniqueMaterials(column)| ==>
              FirstIndex(Filter(column, NotMissing), UniqueMaterials(column)[i])
              < FirstIndex(Filter(column, NotMissing), UniqueMaterials(column)[j])
  {
    var present := Filter(column, NotMissing);
    FilterMembers(column, NotMissing);
    forall i, j | 0 <= i < j < |UniqueMaterials(column)|
      ensures FirstIndex(present, UniqueMaterials(column)[i]) < FirstIndex(present, UniqueMaterials(column)[j])
    {
      DistinctFirstOrder(present, i, j);
    }
  }

  /** The names one reference sheet adds at line 16: the present cells of its
      first `Nombre` column, as stripped text. A sheet without that column adds none. */
  function SheetNames(sh: Sheet, floatText: real -> string): set<string>
  {
    match HeaderIndex(sh.header, Str("Nombre"))
    case None => {}
    case Some(j) => NamesOf(ColumnCells(sh.data, j), floatText)
  }

  function NamesOf(cells: seq<Cell>, floatText: real -> string): set<string>
  {
    PresentImage(cells, NameText(floatText))
  }

  /** A cell's name as line 16 reads it: its text, stripped. */
  function NameText(floatText: real -> string): Cell -> string
  {
    (c: Cell) => Strip(CellText(c, floatText))
  }

  /** The image under `g` of the present cells. */
  function PresentImage(cells: seq<Cell>, g: Cell -> string): set<string>
  {
    set c | c in cells && !c.Null? :: g(c)
  }

  /** The image of a column's present cells, cell by row. */
  lemma ColumnImageSpec(rows: seq<seq<Cell>>, j: nat, g: Cell -> string, n: string)
    ensures n in PresentImage(ColumnCells(rows, j), g)
        <==> exists r :: 0 <= r < |rows| && !CellAt(rows[r], j).Null? && n == g(CellAt(rows[r], j))
  {
    var cells := ColumnCells(rows, j);
    PresentImageSpec(cells, g, n);
    if exists r :: 0 <= r < |rows| && !CellAt(rows[r], j).Null? && n == g(CellAt(rows[r], j)) {
      var r :| 0 <= r < |rows| && !CellAt(rows[r], j).Null? && n == g(CellAt(rows[r], j));
      assert cells[r] == CellAt(rows[r], j);
    }
  }

  lemma PresentImageSpec(cells: seq<Cell>, g: Cell -> string, n: string)
    ensures n in PresentImage(cells, g)
        <==> exists r :: 0 <= r < |cells| && !cells[r].Null? && n == g(cells[r])
  {
    if n in PresentImage(cells, g) {
      var c :| c in cells && !c.Null? && n == g(c);
      var r :| 0 <= r < |cells| && cells[r] == c;
    }
  }

  /** Position of the first header cell equal to `wanted`. */
  function HeaderIndex(header: seq<Cell>, wanted: Cell): (r: Option<nat>)
    ensures r.Some? ==> r.value < |header| && header[r.value] == wanted
    ensures r.None? <==> wanted !in header
  {
    if |header| == 0 then None
    else if header[0] == wanted then Some(0)
    else match HeaderIndex(header[1..], wanted)
      case None => None
      case Some(j) => Some(j + 1)
  }

  /** The union of `f` over the elements of `s`, accumulated in order. */
  function UnionOf<T>(s: seq<T>, f: T -> set<string>): set<string>
    decreases |s|
  {
    if |s| == 0 then {} else UnionOf(s[..|s| - 1], f) + f(s[|s| - 1])
  }

  lemma {:induction false} UnionOfMembers<T>(s: seq<T>, f: T -> set<string>, n: string)
    ensures n in UnionOf(s, f) <==> exists i :: 0 <= i < |s| && n in f(s[i])
    decreases |s|
  {
    if |s| > 0 {
      var k := |s| - 1;
      UnionOfMembers(s[..k], f, n);
      if exists i :: 0 <= i < k && n in f(s[..k][i]) {
        var i :| 0 <= i < k && n in f(s[..k][i]);
        assert s[..k][i] == s[i];
      }
      if exists i :: 0 <= i < |s| && n in f(s[i]) {
        var i :| 0 <= i < |s| && n in f(s[i]);
        if i < k {
          assert s[..k][i] == s[i];
        }
      }
    }
  }

  function SheetNamesOf(floatText: real -> string): ((string, Sheet)) -> set<string>
  {
    (e: (string, Sheet)) => SheetNames(e.1, floatText)
  }

  /** `nombres_bbdd` after the loop over the sheets. */
  function DatabaseNames(hojas: Dict<Sheet>, floatText: real -> string): set<string>
  {
    UnionOf(hojas, SheetNamesOf(floatText))
  }

  /** A name is in the set exactly when some sheet with a `Nombre` column has a
      present cell there whose stripped text it is. */
  lemma DatabaseNamesSpec(hojas: Dict<Sheet>, floatText: real -> string, n: string)
    ensures n in DatabaseNames(hojas, floatText)
        <==> exists i :: 0 <= i < |hojas| && n in SheetNames(hojas[i].1, floatText)
  {
    UnionOfMembers(hojas, SheetNamesOf(floatText), n);
  }

  /** One sheet's names: the stripped present cells of its `Nombre` column. */
  lemma SheetNamesSpec(sh: Sheet, floatText: real -> string, n: string)
    ensures n in SheetNames(sh, floatText)
        <==> Str("Nombre") in sh.header
             && exists r :: 0 <= r < |sh.data|
                  && !CellAt(sh.data[r], HeaderIndex(sh.header, Str("Nombre")).value).Null?
                  && n == Strip(CellText(CellAt(sh.data[r], HeaderIndex(sh.header, Str("Nombre")).value), floatText))
  {
    if Str("Nombre") in sh.header {
      var j := HeaderIndex(sh.header, Str("Nombre")).value;
      assert SheetNames(sh, floatText) == PresentImage(ColumnCells(sh.data, j), NameText(floatText));
      ColumnImageSpec(sh.data, j, NameText(floatText), n);
    }
  }

  /** Lines 13-16: the loop over the reference sheets building the set. */
  method CollectDatabaseNames(hojas: Dict<Sheet>, floatText: real -> string) returns (nombres: set<string>)
    ensures nombres == DatabaseNames(hojas, floatText)
  {
    nombres := {};
    var k := 0;
    while k < |hojas|
      invariant 0 <= k <= |hojas|
      invariant nombres == DatabaseNames(hojas[..k], floatText)
    {
      var hoja := hojas[k].1;
      assert hojas[..k + 1][..k] == hojas[..k];
      assert DatabaseNames(hojas[..k + 1], floatText) == nombres + SheetNames(hoja, floatText);
      match HeaderIndex(hoja.header, Str("Nombre")) {
        case None =>
        case Some(j) =>
          nombres := nombres + NamesOf(ColumnCells(hoja.data, j), floatText);
      }
      k := k + 1;
    }
    assert hojas[..|hojas|] == hojas;
  }

  /** `.str.strip()` on one cell: texts are stripped, anything else becomes NaN. */
  function StripCell(c: Cell): (r: Cell)
    ensures r.Str? || r.Null?
  {
    if c.Str? then Str(Strip(c.s)) else Null
  }

  /** The `.str` accessor is refused for a column with rows but no text cell
      (pandas gives it a numeric dtype). */
  predicate StrAccessorOk(column: seq<Cell>)
  {
    |column| == 0 || exists i :: 0 <= i < |column| && column[i].Str?
  }

  /** Column `name` of the reply table when exactly one stripped label is `name`
      (none raises a KeyError, several give a frame without `.str`), stripped cell
      by cell; `None` for those failures. */
  function StrippedColumn(reply: Frame, name: string): (r: Option<seq<Cell>>)
    ensures r.Some? ==> |r.value| == |reply.rows|
  {
    var labels := StripLabels(reply.columns);
    if Count(labels, name) != 1 then None
    else
      var j := ColumnIndex(labels, name).value;
      var column := ColumnCells(reply.rows, j);
      if !StrAccessorOk(column) then None
      else Some(seq(|column|, i requires 0 <= i < |column| => StripCell(column[i])))
  }

  /** Lines 51-55: `dict(zip(Material_IFC, Material_Normalizado))` as its list of
      pairs, or `None` when reading the reply raised. `reply` is what
      `pd.read_table(..., sep='|')` produced, `None` when it raised. */
  function ReplyPairs(reply: Option<Frame>): (r: Option<seq<(Cell, Cell)>>)
  {
    if reply.None? then None
    else
      var ifc := StrippedColumn(reply.value, "Material_IFC");
      var norm := StrippedColumn(reply.value, "Material_Normalizado");
      if ifc.None? || norm.None? then None
      else Some(seq(|ifc.value|, i requires 0 <= i < |ifc.value| => (ifc.value[i], norm.value[i])))
  }

  /** The value the dictionary holds for `key`: that of the last pair with that key. */
  function Lookup<K(==), V>(pairs: seq<(K, V)>, key: K): (r: Option<V>)
    decreases |pairs|
  {
    if |pairs| == 0 then None
    else if pairs[|pairs| - 1].0 == key then Some(pairs[|pairs| - 1].1)
    else Lookup(pairs[..|pairs| - 1], key)
  }

  /** Nothing is found exactly when no pair has the key. */
  lemma {:induction false} LookupMissing<K, V>(pairs: seq<(K, V)>, key: K)
    ensures Lookup(pairs, key).None? <==> forall i :: 0 <= i < |pairs| ==> pairs[i].0 != key
    decreases |pairs|
  {
    if |pairs| > 0 {
      var n := |pairs| - 1;
      LookupMissing(pairs[..n], key);
      assert forall i :: 0 <= i < n ==> pairs[..n][i] == pairs[i];
    }
  }

  /** The last pair wins: the value found belongs to a pair with that key that no
      later pair repeats. */
  lemma {:induction false} LookupLastWins<K, V>(pairs: seq<(K, V)>, key: K)
    ensures Lookup(pairs, key).Some? ==>
      exists i :: 0 <= i < |pairs| && pairs[i] == (key, Lookup(pairs, key).value)
                  && forall j :: i < j < |pairs| ==> pairs[j].0 != key
    decreases |pairs|
  {
    if |pairs| > 0 {
      var n := |pairs| - 1;
      var init := pairs[..n];
      if pairs[n].0 == key {
        assert pairs[n] == (key, Lookup(pairs, key).value);
      } else if Lookup(init, key).Some? {
        LookupLastWins(init, key);
        var i :| 0 <= i < n && init[i] == (key, Lookup(init, key).value)
                 && forall j :: i < j < n ==> init[j].0 != key;
        assert pairs[i] == init[i];
        forall j | i < j < |pairs|
          ensures pairs[j].0 != key
        {
          if j < n {
            assert init[j] == pairs[j];
          }
        }
      }
    }
  }

  /** `.map(mapeo).fillna("NO ENCONTRADO")` on one material: a text found in the
      dictionary, otherwise the default. */
  function MapMaterial(pairs: seq<(Cell, Cell)>, material: Cell): (r: Cell)
    ensures r.Str?
  {
    match Lookup<Cell, Cell>(pairs, material)
    case Some(Str(s)) => Str(s)
    case _ => Str(NotFound)
  }

  /** The new column for a frame whose `Material` column is `jm` (lines 50-59). */
  function NormalizedColumn(rows: seq<seq<Cell>>, jm: nat, reply: Option<Frame>): (c: seq<Cell>)
    ensures |c| == |rows|
  {
    match ReplyPairs(reply)
    case None => Repeat(Str(NotFound), |rows|)
    case Some(pairs) => seq(|rows|, i requires 0 <= i < |rows| => MapMaterial(pairs, CellAt(rows[i], jm)))
  }

  /** Every row gets a text; when the reply cannot be read every row gets the
      default; otherwise a row gets the stripped database name of the last reply
      pair for its material, or the default when there is none or it is missing. */
  lemma NormalizedColumnSpec(rows: seq<seq<Cell>>, jm: nat, reply: Option<Frame>, i: nat)
    requires i < |rows|
    ensures NormalizedColumn(rows, jm, reply)[i].Str?
    ensures ReplyPairs(reply).None? ==> NormalizedColumn(rows, jm, reply)[i] == Str(NotFound)
    ensures ReplyPairs(reply).Some? ==>
      var found := Lookup(ReplyPairs(reply).value, CellAt(rows[i], jm));
      NormalizedColumn(rows, jm, reply)[i] == (if found.Some? && found.value.Str? then found.value else Str(NotFound))
  {
    var c := NormalizedColumn(rows, jm, reply);
    assert c[i].Str? by {
      if ReplyPairs(reply).Some? {
        assert c[i] == MapMaterial(ReplyPairs(reply).value, CellAt(rows[i], jm));
      }
    }
  }

  /** A repeated material takes the later reply row's name. */
  lemma LaterPairWins()
    ensures Lookup([(Str("HA-30"), Str("Hormigon armado")), (Str("HA-30"), Str("Hormigon HA-30"))], Str("HA-30"))
         == Some(Str("Hormigon HA-30"))
  {
  }

  /** Reply cells are stripped before they are paired, so a padded reply row still
      matches its material. */
  lemma PaddedReplyMatches()
    ensures MapMaterial([(StripCell(Str(" B ")), StripCell(Str(" A ")))], Str("B")) == Str("A")
  {
    PaddedMatch('B', 'A');
    assert " B " == [' ', 'B', ' '] && " A " == [' ', 'A', ' '];
  }

  lemma PaddedMatch(b: char, a: char)
    requires !IsSpace(b) && !IsSpace(a)
    ensures MapMaterial([(StripCell(Str([' ', b, ' '])), StripCell(Str([' ', a, ' '])))], Str([b])) == Str([a])
  {
    StripPadded(b);
    StripPadded(a);
    assert Lookup<Cell, Cell>([(Str([b]), Str([a]))], Str([b])) == Some(Str([a]));
  }

  lemma StripPadded(c: char)
    requires !IsSpace(c)
    ensures Strip([' ', c, ' ']) == [c]
  {
    assert [' ', c, ' '][1..] == [c, ' '];
    assert TrimStart([' ', c, ' ']) == [c, ' '];
    assert [c, ' '][..1] == [c];
    assert TrimEnd([c, ' ']) == TrimEnd([c]);
  }

  /** A reply row with an empty name gives the default. */
  lemma MissingNameIsNotFound()
    ensures MapMaterial([(Str("B500S"), Null)], Str("B500S")) == Str(NotFound)
  {
  }

  /** Why the function raised before assigning anything: no `Material` column
      (line 12), a doubled one (line 12 then gets a frame), or a present material
      that is not text, which `'- ' + m` at line 35 cannot join (a `TypeError`
      outside the `try`). */
  datatype Raised = MaterialKeyError | MaterialNotSeries | MaterialNotText

  /** Every listed material is text. */
  predicate AllText(ms: seq<Cell>)
  {
    forall k :: 0 <= k < |ms| ==> ms[k].Str?
  }

  /** The listed materials are all text exactly when no cell of the column is a
      number: missing cells are dropped before the list is made. */
  lemma AllTextColumn(column: seq<Cell>)
    ensures AllText(UniqueMaterials(column)) <==> forall i :: 0 <= i < |column| ==> !column[i].Num?
  {
    var u := UniqueMaterials(column);
    if AllText(u) {
      forall i | 0 <= i < |column|
        ensures !column[i].Num?
      {
        UniqueMaterialsSpec(column, column[i]);
      }
    } else {
      var k :| 0 <= k < |u| && !u[k].Str?;
      UniqueMaterialsSpec(column, u[k]);
      var i :| 0 <= i < |column| && column[i] == u[k];
    }
  }

  /** What the function hands to the prompt: the distinct materials and the names. */
  datatype PromptInputs = PromptInputs(materials: seq<Cell>, names: set<string>)

  /** `normalizar_materiales_con_ia` on the caller's frame `df`. A missing or
      doubled `Material` column (line 12) or a material that is not text (line 35),
      both outside the `try`, raise and leave `df` as it was; otherwise the prompt
      inputs are returned and the new column is written. */
  method NormalizeMaterials(df: DataFrame, hojas: Dict<Sheet>, reply: Option<Frame>, floatText: real -> string)
    returns (r: Result<PromptInputs, Raised>)
    requires df.Valid()
    modifies df
    ensures df.Valid()
    ensures Count(old(df.columns), "Material") == 0 ==> r == Failure(MaterialKeyError) && df.Value() == old(df.Value())
    ensures Count(old(df.columns), "Material") > 1 ==> r == Failure(MaterialNotSeries) && df.Value() == old(df.Value())
    ensures Count(old(df.columns), "Material") == 1 ==>
      var jm := ColumnIndex(old(df.columns), "Material").value;
      !AllText(UniqueMaterials(ColumnCells(old(df.rows), jm))) ==>
      r == Failure(MaterialNotText) && df.Value() == old(df.Value())
    ensures Count(old(df.columns), "Material") == 1 ==>
      var jm := ColumnIndex(old(df.columns), "Material").value;
      AllText(UniqueMaterials(ColumnCells(old(df.rows), jm))) ==>
      r == Success(PromptInputs(UniqueMaterials(ColumnCells(old(df.rows), jm)), DatabaseNames(hojas, floatText)))
      && df.Value() == WithColumn(old(df.Value()), NormalizedColumnName, NormalizedColumn(old(df.rows), jm, reply))
  {
    var n := Count(df.columns, "Material");
    if n == 0 {
      return Failure(MaterialKeyError);
    }
    if n > 1 {
      return Failure(MaterialNotSeries);
    }
    var jm := ColumnIndex(df.columns, "Material").value;
    var materiales := UniqueMaterials(ColumnCells(df.rows, jm));
    var nombres := CollectDatabaseNames(hojas, floatText);
    if !AllText(materiales) {
      return Failure(MaterialNotText);
    }
    df.Assign(NormalizedColumnName, NormalizedColumn(df.rows, jm, reply));
    r := Success(PromptInputs(materiales, nombres));
  }
}
