/** Volume per material (funciones/analizar_materiales.py 4-40). The exported CSV
    is searched for a material column and a volume column by substring; volumes
    are read as numbers, rows without a number are dropped, and the volumes are
    summed per stripped material text, one row per material in ascending order. */
module VolumeAnalysis {
  import opened Wrappers
  import opened Seqs
  import opened Text
  import opened Tables
  import opened Sorting

  const MaterialKeys: seq<string> := ["material", "pset_material", "tipo_material", "nombre_material"]
  const VolumeKeys: seq<string> := ["volumen", "volume", "pset_volumen", "cantidad_volumen", "vol_total", "cantidad"]

  /** The file the summary is written to, next to the analysed CSV (line 37). */
  const SummaryFile: string := "materiales_volumen_detallado.csv"

  /** Some key occurs in the lower-cased column name (the inner loop of line 19). */
  predicate KeyMatch(name: string, keys: seq<string>)
  {
    exists k :: k in keys && Contains(Lower(name), k)
  }

  /** The inner loop: the keys are tried in order. */
  function AnyKeyIn(name: string, keys: seq<string>): (r: bool)
    ensures r <==> KeyMatch(name, keys)
  {
    if |keys| == 0 then false
    else if Contains(Lower(name), keys[0]) then true
    else
      assert forall k :: k in keys ==> k == keys[0] || k in keys[1..];
      AnyKeyIn(name, keys[1..])
  }

  /** `encontrar_columna` from column `i` on: the first column, in column order,
      that matches some key. */
  function FindColumnFrom(cols: seq<string>, keys: seq<string>, i: nat): (r: Option<nat>)
    requires i <= |cols|
    ensures r.Some? ==> i <= r.value < |cols| && KeyMatch(cols[r.value], keys)
    ensures r.Some? ==> forall j :: i <= j < r.value ==> !KeyMatch(cols[j], keys)
    ensures r.None? ==> forall j :: i <= j < |cols| ==> !KeyMatch(cols[j], keys)
    decreases |cols| - i
  {
    if i == |cols| then None
    else if AnyKeyIn(cols[i], keys) then Some(i)
    else FindColumnFrom(cols, keys, i + 1)
  }

  /** `encontrar_columna(df, keys)`: the position of the column it returns. */
  function FindColumn(cols: seq<string>, keys: seq<string>): (r: Option<nat>)
    ensures r.Some? ==> r.value < |cols| && KeyMatch(cols[r.value], keys)
    ensures r.Some? ==> forall j :: 0 <= j < r.value ==> !KeyMatch(cols[j], keys)
    ensures r.None? <==> forall j :: 0 <= j < |cols| ==> !KeyMatch(cols[j], keys)
  {
    FindColumnFrom(cols, keys, 0)
  }

  /** A column found by either search has a non-empty name, so the falsy-name half
      of the test on line 27 never fires: only a missing column raises. */
  lemma FoundNameNonEmpty(cols: seq<string>, keys: seq<string>)
    requires keys == MaterialKeys || keys == VolumeKeys
    requires FindColumn(cols, keys).Some?
    ensures cols[FindColumn(cols, keys).value] != ""
  {
    var j := FindColumn(cols, keys).value;
    var k :| k in keys && Contains(Lower(cols[j]), k);
    ContainsLength(Lower(cols[j]), k);
    assert |k| > 0;
  }

  lemma ContainsLength(s: string, k: string)
    requires Contains(s, k)
    ensures |k| <= |s|
  {
    assert OccursAt(s, k, IndexOf(s, k).value);
  }

  /** Column order wins over key order: "nombre_material" comes before
      "material" in the table, so it is chosen although "material" is the first key. */
  lemma ColumnOrderWins()
    ensures FindColumn(["nombre_material", "material"], MaterialKeys) == Some(0)
  {
    assert Lower("nombre_material") == "nombre_material";
    assert OccursAt(Lower("nombre_material"), "material", 7);
    ContainsAt(Lower("nombre_material"), "material", 7);
  }

  /** `pd.to_numeric(..., errors="coerce")` on one cell: numbers stay, texts go
      through pandas' number parser (the parameter `parse`), anything else is NaN. */
  function Coerce(c: Cell, parse: string -> Option<real>): Option<real>
  {
    match c
    case Num(x) => Some(x)
    case Str(s) => parse(s)
    case Null => None
  }

  /** Lines 30-32 for one row, with the material in column `jm` and the volume in
      column `jv`: the stripped `str` of the material and the volume, or nothing
      when the volume is NaN. When both searches pick the same column, the material
      text is that of the already converted number. */
  function RowPair(row: seq<Cell>, jm: nat, jv: nat, parse: string -> Option<real>, floatText: real -> string): Option<(string, real)>
  {
    var vol := Coerce(CellAt(row, jv), parse);
    var matCell := if jm == jv then (if vol.Some? then Num(vol.value) else Null) else CellAt(row, jm);
    var material := Strip(CellText(matCell, floatText));
    if vol.None? then None else Some((material, vol.value))
  }

  function RowPairOf(jm: nat, jv: nat, parse: string -> Option<real>, floatText: real -> string): seq<Cell> -> Option<(string, real)>
  {
    (row: seq<Cell>) => RowPair(row, jm, jv, parse, floatText)
  }

  /** The (material, volume) pairs that survive `dropna`, in row order. */
  function Pairs(rows: seq<seq<Cell>>, jm: nat, jv: nat, parse: string -> Option<real>, floatText: real -> string): seq<(string, real)>
  {
    Collect(rows, RowPairOf(jm, jv, parse, floatText))
  }

  /** Sum of the volumes recorded for `m`. */
  function Total(pairs: seq<(string, real)>, m: string): real
    decreases |pairs|
  {
    if |pairs| == 0 then 0.0
    else Total(pairs[..|pairs| - 1], m) + (if pairs[|pairs| - 1].0 == m then pairs[|pairs| - 1].1 else 0.0)
  }

  function PairMaterial(p: (string, real)): string
  {
    p.0
  }

  function MaterialsOf(pairs: seq<(string, real)>): seq<string>
  {
    Map(pairs, PairMaterial)
  }

  function GroupOf(pairs: seq<(string, real)>): string -> (string, real)
  {
    (m: string) => (m, Total(pairs, m))
  }

  /** `groupby("Material")[vol].sum().reset_index()`: the groups in ascending key
      order, each with its sum. */
  function Groups(pairs: seq<(string, real)>): seq<(string, real)>
  {
    Map(Sort(Distinct(MaterialsOf(pairs))), GroupOf(pairs))
  }

  datatype VolumeError = FileNotFound(message: string) | ColumnNotFound(message: string)

  /** The directory part of a path, as `os.path.dirname` computes it. */
  function Dirname(p: string): string
  {
    var i := LastSlashEnd(p, |p|);
    var head := p[..i];
    if head != "" && !AllSlashes(head) then TrimSlashes(head) else head
  }

  /** One past the last '/' of `p[..n]`, or 0 when there is none. */
  function LastSlashEnd(p: string, n: nat): (i: nat)
    requires n <= |p|
    ensures i <= n
    ensures i > 0 ==> p[i - 1] == '/'
    ensures forall j :: i <= j < n ==> p[j] != '/'
  {
    if n == 0 then 0 else if p[n - 1] == '/' then n else LastSlashEnd(p, n - 1)
  }

  predicate AllSlashes(s: string)
  {
    forall j :: 0 <= j < |s| ==> s[j] == '/'
  }

  /** `rstrip('/')` */
  function TrimSlashes(s: string): (r: string)
    ensures |r| <= |s| && r == s[..|r|]
    ensures |r| == 0 || r[|r| - 1] != '/'
    ensures forall j :: |r| <= j < |s| ==> s[j] == '/'
  {
    if |s| == 0 || s[|s| - 1] != '/' then s else TrimSlashes(s[..|s| - 1])
  }

  /** `os.path.join(a, b)` for a relative `b`. */
  function PathJoin(a: string, b: string): string
  {
    if |b| > 0 && b[0] == '/' then b
    else if a == "" || a[|a| - 1] == '/' then a + b
    else a + "/" + b
  }

  function OutputPath(csvPath: string): string
  {
    PathJoin(Dirname(csvPath), SummaryFile)
  }

  /** `analizar_volumen_por_material`: the summary rows and the path written to, or
      the exception raised. `isFile` is `os.path.isfile(ruta_csv)` and `csv` the
      table `read_csv` returns. */
  function Analyze(csvPath: string, isFile: bool, csv: Frame, parse: string -> Option<real>, floatText: real -> string)
    : (r: Result<(seq<(string, real)>, string), VolumeError>)
    ensures !isFile ==> r == Failure(FileNotFound("Archivo CSV no encontrado: " + csvPath))
    ensures isFile ==> (r.Failure? <==> FindColumn(csv.columns, MaterialKeys).None? || FindColumn(csv.columns, VolumeKeys).None?)
    ensures r.Success? ==> r.value.1 == OutputPath(csvPath)
  {
    if !isFile then Failure(FileNotFound("Archivo CSV no encontrado: " + csvPath))
    else
      var jm := FindColumn(csv.columns, MaterialKeys);
      var jv := FindColumn(csv.columns, VolumeKeys);
      if jm.None? || jv.None? then Failure(ColumnNotFound("No se encontró columna de material o volumen."))
      else Success((Groups(Pairs(csv.rows, jm.value, jv.value, parse, floatText)), OutputPath(csvPath)))
  }

  /** A row is counted exactly when its volume converts to a number; a missing
      material is counted under the text "nan". */
  lemma PairsMembers(rows: seq<seq<Cell>>, jm: nat, jv: nat, parse: string -> Option<real>, floatText: real -> string, p: (string, real))
    ensures p in Pairs(rows, jm, jv, parse, floatText)
        <==> exists i :: 0 <= i < |rows| && RowPair(rows[i], jm, jv, parse, floatText) == Some(p)
  {
    CollectMembers(rows, RowPairOf(jm, jv, parse, floatText), p);
  }

  lemma MissingMaterialIsNan(row: seq<Cell>, jm: nat, jv: nat, parse: string -> Option<real>, floatText: real -> string)
    requires jm != jv && CellAt(row, jm).Null? && Coerce(CellAt(row, jv), parse).Some?
    ensures RowPair(row, jm, jv, parse, floatText) == Some(("nan", Coerce(CellAt(row, jv), parse).value))
  {
    assert Strip("nan") == "nan";
  }

  lemma NoVolumeDropped(row: seq<Cell>, jm: nat, jv: nat, parse: string -> Option<real>, floatText: real -> string)
    requires Coerce(CellAt(row, jv), parse).None?
    ensures RowPair(row, jm, jv, parse, floatText).None?
  {
  }

  lemma GroupAt(pairs: seq<(string, real)>, i: nat)
    requires i < |Groups(pairs)|
    ensures Groups(pairs)[i] == (Sort(Distinct(MaterialsOf(pairs)))[i], Total(pairs, Sort(Distinct(MaterialsOf(pairs)))[i]))
  {
    MapAt(Sort(Distinct(MaterialsOf(pairs))), GroupOf(pairs), i);
  }

  /** The summary rows are in strictly ascending material order, so no material
      has two rows. */
  lemma GroupsAscending(pairs: seq<(string, real)>)
    ensures forall i, j :: 0 <= i < j < |Groups(pairs)| ==> LexLess(Groups(pairs)[i].0, Groups(pairs)[j].0)
  {
    var keys := Sort(Distinct(MaterialsOf(pairs)));
    SortDistinct(Distinct(MaterialsOf(pairs)));
    forall i, j | 0 <= i < j < |Groups(pairs)|
      ensures LexLess(Groups(pairs)[i].0, Groups(pairs)[j].0)
    {
      GroupAt(pairs, i);
      GroupAt(pairs, j);
      SortedDistinctStrict(keys, i, j);
    }
  }

  /** A material has a summary row exactly when some counted row carries it. */
  lemma GroupsKeys(pairs: seq<(string, real)>, m: string)
    ensures (exists i :: 0 <= i < |Groups(pairs)| && Groups(pairs)[i].0 == m)
        <==> (exists k :: 0 <= k < |pairs| && pairs[k].0 == m)
  {
    var keys := Sort(Distinct(MaterialsOf(pairs)));
    MaterialKeysMembers(pairs, m);
    if exists k :: 0 <= k < |pairs| && pairs[k].0 == m {
      assert m in multiset(keys);
      var i :| 0 <= i < |keys| && keys[i] == m;
      GroupAt(pairs, i);
    }
    if exists i :: 0 <= i < |Groups(pairs)| && Groups(pairs)[i].0 == m {
      var i :| 0 <= i < |Groups(pairs)| && Groups(pairs)[i].0 == m;
      GroupAt(pairs, i);
      assert keys[i] in multiset(keys);
    }
  }

  /** Each summary row's total is the sum of its material's volumes. */
  lemma GroupsTotals(pairs: seq<(string, real)>, i: nat)
    requires i < |Groups(pairs)|
    ensures Groups(pairs)[i].1 == Total(pairs, Groups(pairs)[i].0)
  {
    GroupAt(pairs, i);
  }

  /** Sorting a sequence without repeats leaves it without repeats. */
  lemma SortDistinct(xs: seq<string>)
    requires NoDuplicates(xs)
    ensures NoDuplicates(Sort(xs))
  {
    var r := Sort(xs);
    forall i, j | 0 <= i < j < |r|
      ensures r[i] != r[j]
    {
      if r[i] == r[j] {
        MultiplicityTwo(r, i, j);
        MultiplicityOne(xs, r[i]);
      }
    }
  }

  lemma MultiplicityTwo<T>(s: seq<T>, i: nat, j: nat)
    requires i < j < |s| && s[i] == s[j]
    ensures multiset(s)[s[i]] >= 2
  {
    assert s == s[..j] + [s[j]] + s[j + 1..];
    assert s[..j] == s[..i] + [s[i]] + s[i + 1..j];
    assert multiset(s) == multiset(s[..i]) + multiset{s[i]} + multiset(s[i + 1..j]) + multiset{s[j]} + multiset(s[j + 1..]);
  }

  lemma {:induction false} MultiplicityOne<T>(s: seq<T>, x: T)
    requires NoDuplicates(s)
    ensures multiset(s)[x] <= 1
  {
    if |s| > 0 {
      var n := |s| - 1;
      assert s == s[..n] + [s[n]];
      assert NoDuplicates(s[..n]);
      MultiplicityOne(s[..n], x);
      if s[n] == x {
        assert x !in s[..n];
      }
    }
  }

  /** The group keys are the materials that occur. */
  lemma MaterialKeysMembers(pairs: seq<(string, real)>, m: string)
    ensures m in multiset(Sort(Distinct(MaterialsOf(pairs))))
        <==> exists k :: 0 <= k < |pairs| && pairs[k].0 == m
  {
    var ms := MaterialsOf(pairs);
    var f := PairMaterial;
    if exists k :: 0 <= k < |pairs| && pairs[k].0 == m {
      var k :| 0 <= k < |pairs| && pairs[k].0 == m;
      MapAt(pairs, f, k);
      assert ms[k] == m;
    }
    if m in Distinct(ms) {
      var i :| 0 <= i < |ms| && ms[i] == m;
      MapAt(pairs, f, i);
    }
  }

  /** Sum of all counted volumes. */
  function SumAll(pairs: seq<(string, real)>): real
    decreases |pairs|
  {
    if |pairs| == 0 then 0.0 else SumAll(pairs[..|pairs| - 1]) + pairs[|pairs| - 1].1
  }

  /** Sum of the `Volumen_Total` column. */
  function SumVolumes(g: seq<(string, real)>): real
    decreases |g|
  {
    if |g| == 0 then 0.0 else SumVolumes(g[..|g| - 1]) + g[|g| - 1].1
  }

  /** Sum of the totals of the given materials. */
  function SumTotals(keys: seq<string>, pairs: seq<(string, real)>): real
    decreases |keys|
  {
    if |keys| == 0 then 0.0 else SumTotals(keys[..|keys| - 1], pairs) + Total(pairs, keys[|keys| - 1])
  }

  lemma TotalSnoc(pairs: seq<(string, real)>, x: (string, real), m: string)
    ensures Total(pairs + [x], m) == Total(pairs, m) + Total([x], m)
  {
    assert (pairs + [x])[..|pairs|] == pairs;
    assert [x][..0] == [];
  }

  lemma {:induction false} SumTotalsSnoc(keys: seq<string>, pairs: seq<(string, real)>, x: (string, real))
    ensures SumTotals(keys, pairs + [x]) == SumTotals(keys, pairs) + SumTotals(keys, [x])
    decreases |keys|
  {
    if |keys| > 0 {
      SumTotalsSnoc(keys[..|keys| - 1], pairs, x);
      TotalSnoc(pairs, x, keys[|keys| - 1]);
    }
  }

  /** One volume lands in exactly one group when the materials are distinct. */
  lemma {:induction false} SingleHit(keys: seq<string>, x: (string, real))
    requires NoDuplicates(keys)
    ensures SumTotals(keys, [x]) == if x.0 in keys then x.1 else 0.0
    decreases |keys|
  {
    if |keys| > 0 {
      var n := |keys| - 1;
      var init := keys[..n];
      assert NoDuplicates(init);
      SingleHit(init, x);
      assert [x][..0] == [];
      assert Total([x], keys[n]) == if keys[n] == x.0 then x.1 else 0.0;
      assert SumTotals(keys, [x]) == SumTotals(init, [x]) + Total([x], keys[n]);
      assert keys == init + [keys[n]];
      if keys[n] == x.0 {
        assert x.0 !in init;
      } else {
        assert x.0 in keys <==> x.0 in init;
      }
    }
  }

  lemma {:induction false} Conserve(keys: seq<string>, pairs: seq<(string, real)>)
    requires NoDuplicates(keys)
    requires forall i :: 0 <= i < |pairs| ==> pairs[i].0 in keys
    ensures SumTotals(keys, pairs) == SumAll(pairs)
    decreases |pairs|
  {
    if |pairs| == 0 {
      ZeroTotals(keys);
    } else {
      var n := |pairs| - 1;
      assert pairs == pairs[..n] + [pairs[n]];
      Conserve(keys, pairs[..n]);
      SumTotalsSnoc(keys, pairs[..n], pairs[n]);
      SingleHit(keys, pairs[n]);
    }
  }

  lemma {:induction false} ZeroTotals(keys: seq<string>)
    ensures SumTotals(keys, []) == 0.0
    decreases |keys|
  {
    if |keys| > 0 {
      ZeroTotals(keys[..|keys| - 1]);
    }
  }

  lemma {:induction false} SumVolumesMap(keys: seq<string>, pairs: seq<(string, real)>)
    ensures SumVolumes(Map(keys, GroupOf(pairs))) == SumTotals(keys, pairs)
    decreases |keys|
  {
    if |keys| > 0 {
      var n := |keys| - 1;
      SumVolumesMap(keys[..n], pairs);
      MapSnoc(keys[..n], keys[n], GroupOf(pairs));
      assert keys == keys[..n] + [keys[n]];
      var m := Map(keys, GroupOf(pairs));
      assert m[..|m| - 1] == Map(keys[..n], GroupOf(pairs));
    }
  }

  /** Grouping loses no volume: the totals of the summary add up to the sum of all
      counted volumes. */
  lemma GroupsConserve(pairs: seq<(string, real)>)
    ensures SumVolumes(Groups(pairs)) == SumAll(pairs)
  {
    var keys := Sort(Distinct(MaterialsOf(pairs)));
    SortDistinct(Distinct(MaterialsOf(pairs)));
    forall i | 0 <= i < |pairs|
      ensures pairs[i].0 in keys
    {
      MaterialKeysMembers(pairs, pairs[i].0);
      assert pairs[i].0 in multiset(keys);
    }
    Conserve(keys, pairs);
    SumVolumesMap(keys, pairs);
  }

  /** Positions without a '/' at the end of the prefix do not move the last slash. */
  lemma {:induction false} LastSlashEndSkip(p: string, m: nat, n: nat)
    requires m <= n <= |p|
    requires forall j :: m <= j < n ==> p[j] != '/'
    ensures LastSlashEnd(p, n) == LastSlashEnd(p, m)
    decreases n
  {
    if n > m {
      LastSlashEndSkip(p, m, n - 1);
    }
  }

  /** A bare file name is in the working directory: the summary is the bare
      summary name. */
  lemma OutputPathBare(csvPath: string)
    requires '/' !in csvPath
    ensures OutputPath(csvPath) == SummaryFile
  {
    LastSlashEndSkip(csvPath, 0, |csvPath|);
  }

  /** For `<dir>/<file>`, the summary goes to `<dir>/materiales_volumen_detallado.csv`
      (for `/<file>`, to the root). */
  lemma OutputPathSibling(dir: string, file: string)
    requires '/' !in file && (dir == "" || dir[|dir| - 1] != '/')
    ensures OutputPath(dir + "/" + file) == dir + "/" + SummaryFile
  {
    var p := dir + "/" + file;
    forall j | |dir| + 1 <= j < |p|
      ensures p[j] != '/'
    {
      assert p[j] == file[j - |dir| - 1];
    }
    LastSlashEndSkip(p, |dir| + 1, |p|);
    assert p[|dir|] == '/';
    var i := LastSlashEnd(p, |p|);
    assert i == |dir| + 1;
    assert p[..i] == dir + "/";
    if dir == "" {
      assert AllSlashes(p[..i]);
    } else {
      assert !AllSlashes(p[..i]) by { assert p[..i][|dir| - 1] == dir[|dir| - 1]; }
      assert TrimSlashes(dir + "/") == TrimSlashes(dir) by { assert (dir + "/")[..|dir|] == dir; }
      assert TrimSlashes(dir) == dir;
    }
  }
}
