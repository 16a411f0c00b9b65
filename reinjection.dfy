/** Writing the footprint back into the IFC model (funciones/agregar_huella_ifc.py):
    one new `ImpactoAmbiental` property set per accepted row, an error entry per
    rejected row, and a green-to-red colouring of every element by its total,
    with one presentation style per colour. The document is an `IfcModel`
    object: its GUID lookup is fixed and the entities the call creates are
    appended to `entities`. */
module Reinjection {
  import opened Wrappers
  import opened Seqs
  import opened Text
  import opened Tables

  /** A colour as the integer pair (red, green) of 0..255 levels; blue is always 0.
      Rounding r/255 and g/255 to three decimals (line 45) keeps levels apart, since
      1/255 > 0.001, so the pair is the cache key of line 47. */
  datatype Key = Key(r: int, g: int)

  /** One geometric item to paint in the colour `key`. */
  datatype Job = Job(item: nat, key: Key)

  /** The property values that `pset.edit_pset` writes (lines 89-92). */
  datatype PsetValues = PsetValues(carbon: real, unit: string)

  /** The entities the call creates. `PropertySet` with `values == None` is a set
      whose editing failed after it was added. `Style` stands for the colour,
      rendering, surface style and presentation style of lines 48-54; a
      `StyledItem` references its style by position in `entities`. */
  datatype Entity =
    | PropertySet(product: string, name: string, values: Option<PsetValues>)
    | Style(key: Key)
    | StyledItem(item: nat, style: nat)

  /** `subrep.Items`, absent when the representation has no such attribute. */
  datatype ShapeRep = ShapeRep(items: Option<seq<nat>>)

  /** An element's `Representation.Representations`, absent when it has none. */
  datatype Product = Product(representation: Option<seq<ShapeRep>>)

  /** The exceptions of lines 61-68, in the order they are checked. */
  datatype ReinjectError = SourceNotFound | NoTotalColumn | NoIdColumn

  /** The `ValueError` of line 9. */
  datatype ColourError = MissingIdOrTotal

  /** The entries of `errores` (lines 79, 84, 94). */
  datatype RowError = InvalidRow(index: nat, guid: string) | UnknownGuid(guid: string) | PsetFailed(guid: string)

  /** What the call leaves: the path written, the errors, and whether the error
      log was written. */
  datatype Exported = Exported(path: string, errors: seq<RowError>, logWritten: bool)

  /** The unit this step writes when a row has none (line 76). */
  const ReinjectUnit: string := "kg CO2 eq"
  const PsetName: string := "ImpactoAmbiental"
  const DefaultOutput: string := "IFC_con_pset_exportado.ifc"
  const OutputDir: string := "resultados"
  /** The range used when every total is the same (line 15). */
  const Tiny: real := 0.000001

  // ---------------------------------------------------------------------------
  // Colour interpolation (lines 13-28)

  /** Python's `int(x)` on a real: truncation toward zero. */
  function Trunc(x: real): int
  {
    if x >= 0.0 then x.Floor else -((-x).Floor)
  }

  /** `rango` of line 15. */
  function Spread(lo: real, hi: real): (s: real)
    ensures lo <= hi ==> s > 0.0
  {
    if hi != lo then hi - lo else Tiny
  }

  /** `norm` of line 20. */
  function Norm(v: real, lo: real, spread: real): real
    requires spread != 0.0
  {
    (v - lo) / spread
  }

  /** The levels `interpolar_color` computes for a normalised value (lines 21-26). */
  function ColourKey(norm: real): Key
  {
    if norm < 0.5 then Key(Trunc(2.0 * norm * 255.0), 255)
    else Key(255, Trunc((1.0 - 2.0 * (norm - 0.5)) * 255.0))
  }

  /** The colour `interpolar_color` returns (line 28). */
  function Colour(norm: real): (real, real, real)
  {
    var k := ColourKey(norm);
    (k.r as real / 255.0, k.g as real / 255.0, 0.0)
  }

  /** Two values get the same colour exactly when they get the same key, and the
      colour has no blue. */
  lemma KeyDeterminesColour(n1: real, n2: real)
    ensures Colour(n1) == Colour(n2) <==> ColourKey(n1) == ColourKey(n2)
    ensures Colour(n1).2 == 0.0
  {
  }

  /** The smallest total is green, the largest red and the midpoint yellow. */
  lemma ColourEnds(lo: real, hi: real)
    requires lo <= hi
    ensures Colour(Norm(lo, lo, Spread(lo, hi))) == (0.0, 1.0, 0.0)
    ensures lo < hi ==> Colour(Norm(hi, lo, Spread(lo, hi))) == (1.0, 0.0, 0.0)
    ensures Colour(0.5) == (1.0, 1.0, 0.0)
  {
    if lo < hi {
      DivSelf(hi - lo);
    }
  }

  lemma DivSelf(x: real)
    requires x != 0.0
    ensures x / x == 1.0
  {
  }

  /** When every total is the same, every element is green. */
  lemma AllEqualGreen(v: real)
    ensures Colour(Norm(v, v, Spread(v, v))) == (0.0, 1.0, 0.0)
  {
  }

  /** A total between the smallest and the largest normalises into [0, 1]. */
  lemma NormInUnit(v: real, lo: real, hi: real)
    requires lo <= v <= hi
    ensures 0.0 <= Norm(v, lo, Spread(lo, hi)) <= 1.0
  {
    var s := Spread(lo, hi);
    if lo < hi {
      UnitQuotient(v - lo, s);
    } else {
      assert v - lo == 0.0;
    }
  }

  lemma UnitQuotient(a: real, s: real)
    requires 0.0 <= a <= s && s > 0.0
    ensures 0.0 <= a / s <= 1.0
  {
    var q := a / s;
    assert q * s == a;
  }

  /** Keys of values in [0, 1] lie on the green-yellow edge (red 0..255, green
      255) or the yellow-red edge (red 255, green 0..255); along [0, 1] red never
      decreases and green never increases. */
  lemma KeyOnEdges(n1: real, n2: real)
    requires 0.0 <= n1 <= n2 <= 1.0
    ensures var k := ColourKey(n1);
      (0 <= k.r <= 255 && k.g == 255) || (k.r == 255 && 0 <= k.g <= 255)
    ensures ColourKey(n1).r <= ColourKey(n2).r && ColourKey(n1).g >= ColourKey(n2).g
  {
  }

  /** `min()` of a non-empty column of numbers. */
  function MinOf(xs: seq<real>): (m: real)
    requires |xs| > 0
    ensures m in xs && forall x :: x in xs ==> m <= x
  {
    if |xs| == 1 then xs[0]
    else
      var m := MinOf(xs[1..]);
      assert forall x :: x in xs ==> x == xs[0] || x in xs[1..];
      if xs[0] <= m then xs[0] else m
  }

  /** `max()` of a non-empty column of numbers. */
  function MaxOf(xs: seq<real>): (m: real)
    requires |xs| > 0
    ensures m in xs && forall x :: x in xs ==> x <= m
  {
    if |xs| == 1 then xs[0]
    else
      var m := MaxOf(xs[1..]);
      assert forall x :: x in xs ==> x == xs[0] || x in xs[1..];
      if xs[0] >= m then xs[0] else m
  }

  // ---------------------------------------------------------------------------
  // The style cache (lines 41-57)

  /** The created entities together with `color_cache`. */
  datatype PaintState = PaintState(ents: seq<Entity>, cache: map<Key, nat>)

  /** One item of lines 44-57: a style is created the first time its key is
      seen, and the item is styled with the cached one. */
  function PaintOne(st: PaintState, j: Job): (nx: PaintState)
    ensures |st.ents| < |nx.ents| && nx.ents[..|st.ents|] == st.ents
    ensures nx.cache.Keys == st.cache.Keys + {j.key}
  {
    if j.key in st.cache then
      PaintState(st.ents + [StyledItem(j.item, st.cache[j.key])], st.cache)
    else
      PaintState(st.ents + [Style(j.key), StyledItem(j.item, |st.ents|)], st.cache[j.key := |st.ents|])
  }

  /** The items painted one after the other. */
  function Paint(st: PaintState, jobs: seq<Job>): PaintState
    decreases |jobs|
  {
    if |jobs| == 0 then st else PaintOne(Paint(st, jobs[..|jobs| - 1]), jobs[|jobs| - 1])
  }

  lemma {:induction false} PaintAppend(st: PaintState, a: seq<Job>, b: seq<Job>)
    ensures Paint(st, a + b) == Paint(Paint(st, a), b)
    decreases |b|
  {
    if |b| == 0 {
      assert a + b == a;
    } else {
      assert (a + b)[..|a + b| - 1] == a + b[..|b| - 1];
      PaintAppend(st, a, b[..|b| - 1]);
    }
  }

  /** The items styled from position `base` on, each with the key of the style it
      references, in order; styled items reference an earlier style. */
  function StyledJobs(ents: seq<Entity>, base: nat): seq<Job>
    decreases |ents|
  {
    if |ents| <= base then []
    else
      var e := ents[|ents| - 1];
      StyledJobs(ents[..|ents| - 1], base)
        + if e.StyledItem? && base <= e.style < |ents| - 1 && ents[e.style].Style?
          then [Job(e.item, ents[e.style].key)] else []
  }

  /** The cache and the styles created from `base` on agree: every cached key
      points to a style of that key, every style created is the cached one of its
      key, and only styles and styled items are created. */
  predicate CacheExact(st: PaintState, base: nat)
  {
    base <= |st.ents|
    && (forall k :: k in st.cache ==> base <= st.cache[k] < |st.ents| && st.ents[st.cache[k]] == Style(k))
    && (forall p :: base <= p < |st.ents| && st.ents[p].Style? ==>
          st.ents[p].key in st.cache && st.cache[st.ents[p].key] == p)
    && (forall p :: base <= p < |st.ents| ==> st.ents[p].Style? || st.ents[p].StyledItem?)
  }

  lemma PaintOneExact(st: PaintState, j: Job, base: nat)
    requires CacheExact(st, base)
    ensures CacheExact(PaintOne(st, j), base)
  {
    var nx := PaintOne(st, j);
    var n := |st.ents|;
    if j.key in st.cache {
      assert nx.ents == st.ents + [StyledItem(j.item, st.cache[j.key])];
      forall p | base <= p < |nx.ents|
        ensures nx.ents[p] == if p < n then st.ents[p] else StyledItem(j.item, st.cache[j.key])
      {
      }
    } else {
      assert nx.ents == st.ents + [Style(j.key), StyledItem(j.item, n)];
      forall p | base <= p < |nx.ents|
        ensures nx.ents[p] == if p < n then st.ents[p] else if p == n then Style(j.key) else StyledItem(j.item, n)
      {
      }
    }
  }

  lemma PaintOneStyled(st: PaintState, j: Job, base: nat)
    requires CacheExact(st, base)
    ensures StyledJobs(PaintOne(st, j).ents, base) == StyledJobs(st.ents, base) + [j]
  {
    var nx := PaintOne(st, j);
    var n := |st.ents|;
    if j.key !in st.cache {
      var mid := st.ents + [Style(j.key)];
      assert nx.ents[..n + 1] == mid;
      assert mid[..n] == st.ents;
      assert StyledJobs(mid, base) == StyledJobs(st.ents, base);
    }
  }

  /** Painting a list of items from an empty cache keeps the earlier entities and
      keeps the cache and the styles created in agreement. */
  lemma {:induction false} PaintExact(st0: PaintState, jobs: seq<Job>)
    requires st0.cache == map[]
    ensures var st := Paint(st0, jobs);
      CacheExact(st, |st0.ents|) && st.ents[..|st0.ents|] == st0.ents
    decreases |jobs|
  {
    var base := |st0.ents|;
    if |jobs| == 0 {
      assert st0.ents[..base] == st0.ents;
    } else {
      var init := jobs[..|jobs| - 1];
      PaintExact(st0, init);
      var st := Paint(st0, init);
      PaintOneExact(st, jobs[|jobs| - 1], base);
      var nx := Paint(st0, jobs);
      assert nx.ents[..|st.ents|] == st.ents;
      assert nx.ents[..base] == st.ents[..base];
    }
  }

  /** Every item gets one styled item, in order, referencing the style of its key. */
  lemma {:induction false} PaintStyled(st0: PaintState, jobs: seq<Job>)
    requires st0.cache == map[]
    ensures StyledJobs(Paint(st0, jobs).ents, |st0.ents|) == jobs
    decreases |jobs|
  {
    var base := |st0.ents|;
    if |jobs| > 0 {
      var init := jobs[..|jobs| - 1];
      var st := Paint(st0, init);
      PaintStyled(st0, init);
      assert CacheExact(st, base) by {
        PaintExact(st0, init);
      }
      PaintOneStyled(st, jobs[|jobs| - 1], base);
      assert Paint(st0, jobs) == PaintOne(st, jobs[|jobs| - 1]);
      FrontLast(jobs);
    }
  }

  /** The cache ends up holding exactly the keys of the items. */
  lemma {:induction false} PaintKeys(st0: PaintState, jobs: seq<Job>)
    requires st0.cache == map[]
    ensures Paint(st0, jobs).cache.Keys == set j | j in jobs :: j.key
    decreases |jobs|
  {
    if |jobs| > 0 {
      var init := jobs[..|jobs| - 1];
      var last := jobs[|jobs| - 1];
      PaintKeys(st0, init);
      assert jobs == init + [last];
      assert (set j | j in jobs :: j.key) == (set j | j in init :: j.key) + {last.key};
    }
  }

  /** Two styles created by one painting never share a key. */
  lemma OneStylePerKey(st0: PaintState, jobs: seq<Job>, p: nat, q: nat)
    requires st0.cache == map[]
    requires var st := Paint(st0, jobs);
      |st0.ents| <= p < q < |st.ents| && st.ents[p].Style? && st.ents[q].Style?
    ensures var st := Paint(st0, jobs); st.ents[p].key != st.ents[q].key
  {
    PaintExact(st0, jobs);
  }

  // ---------------------------------------------------------------------------
  // The items to paint (lines 30-43)

  function ItemJobs(items: seq<nat>, key: Key): (r: seq<Job>)
    ensures |r| == |items| && forall k :: 0 <= k < |items| ==> r[k] == Job(items[k], key)
  {
    seq(|items|, k requires 0 <= k < |items| => Job(items[k], key))
  }

  /** The items of the representations that have `Items`, in order. */
  function RepJobs(reps: seq<ShapeRep>, key: Key): seq<Job>
    decreases |reps|
  {
    if |reps| == 0 then []
    else
      RepJobs(reps[..|reps| - 1], key)
        + match reps[|reps| - 1].items
          case None => []
          case Some(items) => ItemJobs(items, key)
  }

  function ProductJobs(p: Product, key: Key): seq<Job>
  {
    match p.representation
    case None => []
    case Some(reps) => RepJobs(reps, key)
  }

  /** The total of a row once line 11 has made the column numeric. */
  function NumValue(c: Cell): real
  {
    if c.Num? then c.x else 0.0
  }

  /** The column of totals the extremes of lines 13-14 are taken over. */
  function Totals(rows: seq<seq<Cell>>, tdx: nat): (r: seq<real>)
    ensures |r| == |rows| && forall i :: 0 <= i < |rows| ==> r[i] == NumValue(CellAt(rows[i], tdx))
  {
    seq(|rows|, i requires 0 <= i < |rows| => NumValue(CellAt(rows[i], tdx)))
  }

  /** The scale of the colouring: the smallest total and the range. */
  datatype Scale = Scale(lo: real, spread: real)

  function ScaleOf(rows: seq<seq<Cell>>, tdx: nat): (s: Scale)
    ensures s.spread > 0.0
  {
    var vals := Totals(rows, tdx);
    if |vals| == 0 then Scale(0.0, Tiny)
    else Scale(MinOf(vals), Spread(MinOf(vals), MaxOf(vals)))
  }

  /** The GUID of a row as both loops read it (lines 31 and 74). */
  function RowGuid(row: seq<Cell>, idx: nat, floatText: real -> string): string
  {
    Strip(CellText(CellAt(row, idx), floatText))
  }

  /** The items of one row's element with the row's colour; nothing when the GUID
      is unknown (lines 33-35). */
  function RowJobs(row: seq<Cell>, idx: nat, tdx: nat, sc: Scale, lookup: map<string, Product>, floatText: real -> string): seq<Job>
    requires sc.spread != 0.0
  {
    var guid := RowGuid(row, idx, floatText);
    if guid in lookup then ProductJobs(lookup[guid], ColourKey(Norm(NumValue(CellAt(row, tdx)), sc.lo, sc.spread)))
    else []
  }

  function AllJobs(rows: seq<seq<Cell>>, idx: nat, tdx: nat, sc: Scale, lookup: map<string, Product>, floatText: real -> string): seq<Job>
    requires sc.spread != 0.0
    decreases |rows|
  {
    if |rows| == 0 then []
    else AllJobs(rows[..|rows| - 1], idx, tdx, sc, lookup, floatText) + RowJobs(rows[|rows| - 1], idx, tdx, sc, lookup, floatText)
  }

  /** Every item painted gets a key on the two edges, so at most 511 keys occur. */
  lemma {:induction false} AllKeysOnEdges(rows: seq<seq<Cell>>, all: seq<seq<Cell>>, idx: nat, tdx: nat, lookup: map<string, Product>, floatText: real -> string)
    requires forall r :: r in rows ==> r in all
    ensures var sc := ScaleOf(all, tdx);
      forall j :: j in AllJobs(rows, idx, tdx, sc, lookup, floatText) ==>
        (0 <= j.key.r <= 255 && j.key.g == 255) || (j.key.r == 255 && 0 <= j.key.g <= 255)
    decreases |rows|
  {
    var sc := ScaleOf(all, tdx);
    if |rows| > 0 {
      var row := rows[|rows| - 1];
      assert forall r :: r in rows[..|rows| - 1] ==> r in rows;
      AllKeysOnEdges(rows[..|rows| - 1], all, idx, tdx, lookup, floatText);
      assert row in rows;
      var vals := Totals(all, tdx);
      var i :| 0 <= i < |all| && all[i] == row;
      var v := NumValue(CellAt(row, tdx));
      assert v == vals[i] && v in vals;
      NormInUnit(v, MinOf(vals), MaxOf(vals));
      KeyOnEdges(Norm(v, sc.lo, sc.spread), 1.0);
      var key := ColourKey(Norm(v, sc.lo, sc.spread));
      var guid := RowGuid(row, idx, floatText);
      if guid in lookup {
        ProductJobsKey(lookup[guid], key);
      }
    }
  }

  lemma ProductJobsKey(p: Product, key: Key)
    ensures forall j :: j in ProductJobs(p, key) ==> j.key == key
  {
    match p.representation
    case None =>
    case Some(reps) => RepJobsKey(reps, key);
  }

  lemma {:induction false} RepJobsKey(reps: seq<ShapeRep>, key: Key)
    ensures forall j :: j in RepJobs(reps, key) ==> j.key == key
    decreases |reps|
  {
    if |reps| > 0 {
      RepJobsKey(reps[..|reps| - 1], key);
    }
  }

  // ---------------------------------------------------------------------------
  // The property-set loop (lines 73-94)

  /** `str(unidad)` of line 91: the row's unit, or this step's default. */
  function RowUnit(cols: seq<string>, row: seq<Cell>, floatText: real -> string): string
  {
    match ColumnIndex(cols, "Unidad")
    case Some(udx) => if CellAt(row, udx).Null? then ReinjectUnit else CellText(CellAt(row, udx), floatText)
    case None => ReinjectUnit
  }

  /** Python's `float(huella)`: numbers as they are, texts through the parser
      `pyFloat`, `None` when it raises. */
  function FloatOf(c: Cell, pyFloat: string -> Option<real>): Option<real>
  {
    match c
    case Num(x) => Some(x)
    case Str(s) => pyFloat(s)
    case Null => None
  }

  /** What one row adds: entities and error entries. */
  datatype Step = Step(ents: seq<Entity>, errs: seq<RowError>)

  /** Lines 78-94 for row `i` with GUID `guid`, total `huella` and unit `unit`. */
  function Decide(i: nat, guid: string, huella: Cell, unit: string, lookup: map<string, Product>,
                  pyFloat: string -> Option<real>): Step
  {
    if guid == "" || huella.Null? then Step([], [InvalidRow(i, guid)])
    else if guid !in lookup then Step([], [UnknownGuid(guid)])
    else match FloatOf(huella, pyFloat)
      case Some(x) => Step([PropertySet(guid, PsetName, Some(PsetValues(x, unit)))], [])
      case None => Step([PropertySet(guid, PsetName, None)], [PsetFailed(guid)])
  }

  function RowStep(i: nat, cols: seq<string>, row: seq<Cell>, lookup: map<string, Product>,
                   pyFloat: string -> Option<real>, floatText: real -> string): Step
    requires "ID" in cols && "Total" in cols
  {
    Decide(i, RowGuid(row, ColumnIndex(cols, "ID").value, floatText), CellAt(row, ColumnIndex(cols, "Total").value),
           RowUnit(cols, row, floatText), lookup, pyFloat)
  }

  /** The loop of lines 73-94 over the rows. */
  function PsetPass(cols: seq<string>, rows: seq<seq<Cell>>, lookup: map<string, Product>,
                    pyFloat: string -> Option<real>, floatText: real -> string): Step
    requires "ID" in cols && "Total" in cols
    decreases |rows|
  {
    if |rows| == 0 then Step([], [])
    else
      var acc := PsetPass(cols, rows[..|rows| - 1], lookup, pyFloat, floatText);
      var s := RowStep(|rows| - 1, cols, rows[|rows| - 1], lookup, pyFloat, floatText);
      Step(acc.ents + s.ents, acc.errs + s.errs)
  }

  predicate HasValues(e: Entity)
  {
    e.PropertySet? && e.values.Some?
  }

  /** One row: a valued property set is added exactly when the ID is non-empty,
      the total present, the GUID known and the total a number, and then it holds
      that number and the row's unit; a set is added only for a known GUID; and
      the row yields an error entry exactly when it yields no valued set. */
  lemma DecideOutcome(i: nat, guid: string, huella: Cell, unit: string, lookup: map<string, Product>,
                      pyFloat: string -> Option<real>)
    ensures var s := Decide(i, guid, huella, unit, lookup, pyFloat);
      |s.ents| <= 1 && |s.errs| <= 1
      && (|s.ents| == 1 ==> s.ents[0].PropertySet? && s.ents[0].product == guid && guid in lookup
                            && s.ents[0].name == PsetName)
      && (|Filter(s.ents, HasValues)| == 1 <==>
            guid != "" && !huella.Null? && guid in lookup && FloatOf(huella, pyFloat).Some?)
      && (|Filter(s.ents, HasValues)| == 1 ==>
            s.ents[0].values == Some(PsetValues(FloatOf(huella, pyFloat).value, unit)))
      && |s.errs| + |Filter(s.ents, HasValues)| == 1
  {
    var s := Decide(i, guid, huella, unit, lookup, pyFloat);
    if |s.ents| == 1 {
      FilterSingle(s.ents[0], HasValues);
      assert s.ents == [s.ents[0]];
    }
  }

  /** `DecideOutcome` for row `i` of a frame with columns `cols`. */
  lemma RowOutcome(i: nat, cols: seq<string>, row: seq<Cell>, lookup: map<string, Product>,
                   pyFloat: string -> Option<real>, floatText: real -> string)
    requires "ID" in cols && "Total" in cols
    ensures var s := RowStep(i, cols, row, lookup, pyFloat, floatText);
      var guid := RowGuid(row, ColumnIndex(cols, "ID").value, floatText);
      var huella := CellAt(row, ColumnIndex(cols, "Total").value);
      |s.ents| <= 1 && |s.errs| <= 1
      && (|s.ents| == 1 ==> s.ents[0].PropertySet? && s.ents[0].product == guid && guid in lookup
                            && s.ents[0].name == PsetName)
      && (|Filter(s.ents, HasValues)| == 1 <==>
            guid != "" && !huella.Null? && guid in lookup && FloatOf(huella, pyFloat).Some?)
      && (|Filter(s.ents, HasValues)| == 1 ==>
            s.ents[0].values == Some(PsetValues(FloatOf(huella, pyFloat).value, RowUnit(cols, row, floatText))))
      && |s.errs| + |Filter(s.ents, HasValues)| == 1
  {
    DecideOutcome(i, RowGuid(row, ColumnIndex(cols, "ID").value, floatText), CellAt(row, ColumnIndex(cols, "Total").value),
                  RowUnit(cols, row, floatText), lookup, pyFloat);
  }

  /** Over the whole loop: every row yields either an error entry or a valued
      property set, and every set added belongs to a known element. */
  lemma {:induction false} PassBalance(cols: seq<string>, rows: seq<seq<Cell>>, lookup: map<string, Product>,
                                       pyFloat: string -> Option<real>, floatText: real -> string)
    requires "ID" in cols && "Total" in cols
    ensures var p := PsetPass(cols, rows, lookup, pyFloat, floatText);
      |p.errs| + |Filter(p.ents, HasValues)| == |rows|
      && forall e :: e in p.ents ==> e.PropertySet? && e.product in lookup && e.name == PsetName
    decreases |rows|
  {
    if |rows| > 0 {
      var init := rows[..|rows| - 1];
      PassBalance(cols, init, lookup, pyFloat, floatText);
      var acc := PsetPass(cols, init, lookup, pyFloat, floatText);
      var s := RowStep(|rows| - 1, cols, rows[|rows| - 1], lookup, pyFloat, floatText);
      RowOutcome(|rows| - 1, cols, rows[|rows| - 1], lookup, pyFloat, floatText);
      FilterAppend(acc.ents, s.ents, HasValues);
    }
  }

  lemma PsetPassSnoc(cols: seq<string>, rows: seq<seq<Cell>>, i: nat, lookup: map<string, Product>,
                     pyFloat: string -> Option<real>, floatText: real -> string)
    requires "ID" in cols && "Total" in cols && i < |rows|
    ensures var acc := PsetPass(cols, rows[..i], lookup, pyFloat, floatText);
      var s := RowStep(i, cols, rows[i], lookup, pyFloat, floatText);
      PsetPass(cols, rows[..i + 1], lookup, pyFloat, floatText) == Step(acc.ents + s.ents, acc.errs + s.errs)
  {
    assert rows[..i + 1][..i] == rows[..i];
  }

  /** One turn of the loop of lines 73-94. */
  lemma PassStep(cols: seq<string>, rows: seq<seq<Cell>>, i: nat, acc: Step, s: Step, lookup: map<string, Product>,
                 pyFloat: string -> Option<real>, floatText: real -> string)
    requires "ID" in cols && "Total" in cols && i < |rows|
    requires acc == PsetPass(cols, rows[..i], lookup, pyFloat, floatText)
    requires s == Decide(i, RowGuid(rows[i], ColumnIndex(cols, "ID").value, floatText),
                         CellAt(rows[i], ColumnIndex(cols, "Total").value), RowUnit(cols, rows[i], floatText), lookup, pyFloat)
    ensures PsetPass(cols, rows[..i + 1], lookup, pyFloat, floatText) == Step(acc.ents + s.ents, acc.errs + s.errs)
  {
    PsetPassSnoc(cols, rows, i, lookup, pyFloat, floatText);
  }

  lemma AllJobsSnoc(rows: seq<seq<Cell>>, i: nat, idx: nat, tdx: nat, sc: Scale, lookup: map<string, Product>, floatText: real -> string)
    requires sc.spread != 0.0 && i < |rows|
    ensures AllJobs(rows[..i + 1], idx, tdx, sc, lookup, floatText)
            == AllJobs(rows[..i], idx, tdx, sc, lookup, floatText) + RowJobs(rows[i], idx, tdx, sc, lookup, floatText)
  {
    assert rows[..i + 1][..i] == rows[..i];
  }

  /** One turn of the painting loop over the rows. */
  lemma PaintRowStep(st0: PaintState, rows: seq<seq<Cell>>, i: nat, idx: nat, tdx: nat, sc: Scale,
                     lookup: map<string, Product>, floatText: real -> string, before: PaintState, after: PaintState)
    requires sc.spread != 0.0 && i < |rows|
    requires before == Paint(st0, AllJobs(rows[..i], idx, tdx, sc, lookup, floatText))
    requires after == Paint(before, RowJobs(rows[i], idx, tdx, sc, lookup, floatText))
    ensures after == Paint(st0, AllJobs(rows[..i + 1], idx, tdx, sc, lookup, floatText))
  {
    AllJobsSnoc(rows, i, idx, tdx, sc, lookup, floatText);
    PaintAppend(st0, AllJobs(rows[..i], idx, tdx, sc, lookup, floatText), RowJobs(rows[i], idx, tdx, sc, lookup, floatText));
  }

  /** `os.path.join("resultados", nombre_salida)`: an absolute name is kept. */
  function OutputPath(name: string): (p: string)
    ensures |name| > 0 && name[0] == '/' ==> p == name
    ensures !(|name| > 0 && name[0] == '/') ==> p == OutputDir + "/" + name
  {
    if |name| > 0 && name[0] == '/' then name else OutputDir + "/" + name
  }

  /** The totals column made numeric in place (line 11). */
  function CoercedTotals(f: Frame, toNumber: string -> Option<real>): (g: Frame)
    requires Rectangular(f) && "Total" in f.columns
    ensures Rectangular(g) && g.columns == f.columns && |g.rows| == |f.rows|
  {
    var tdx := ColumnIndex(f.columns, "Total").value;
    WithColumn(f, "Total", seq(|f.rows|, i requires 0 <= i < |f.rows| => ToNumeric(f.rows[i][tdx], toNumber)))
  }

  /** The colour scale is taken over the coerced column: each row's total is its
      number, the text's value when `pd.to_numeric` reads it, and 0 otherwise. */
  lemma TotalsOfCoerced(f: Frame, toNumber: string -> Option<real>, i: nat)
    requires Rectangular(f) && "Total" in f.columns && i < |f.rows|
    ensures var tdx := ColumnIndex(f.columns, "Total").value;
      var c := f.rows[i][tdx];
      Totals(CoercedTotals(f, toNumber).rows, tdx)[i]
        == if c.Num? then c.x else if c.Str? && toNumber(c.s).Some? then toNumber(c.s).value else 0.0
  {
    var tdx := ColumnIndex(f.columns, "Total").value;
    var g := CoercedTotals(f, toNumber);
    assert g.rows[i][tdx] == ToNumeric(f.rows[i][tdx], toNumber);
  }

  /** The opened IFC document. */
  class IfcModel {
    /** `model.by_guid`. */
    const lookup: map<string, Product>
    /** The entities created in this document, in creation order. */
    var entities: seq<Entity>

    constructor (lookup: map<string, Product>, entities: seq<Entity>)
      ensures this.lookup == lookup && this.entities == entities
    {
      this.lookup := lookup;
      this.entities := entities;
    }

    /** The innermost loop of lines 43-57 for one representation's items. */
    method PaintItems(items: seq<nat>, key: Key, cache0: map<Key, nat>) returns (cache: map<Key, nat>)
      modifies this
      ensures PaintState(entities, cache) == Paint(PaintState(old(entities), cache0), ItemJobs(items, key))
    {
      var jobs := ItemJobs(items, key);
      ghost var st0 := PaintState(entities, cache0);
      cache := cache0;
      var k := 0;
      while k < |items|
        invariant 0 <= k <= |items|
        invariant PaintState(entities, cache) == Paint(st0, jobs[..k])
      {
        assert jobs[..k + 1][..k] == jobs[..k];
        if key in cache {
          entities := entities + [StyledItem(items[k], cache[key])];
        } else {
          var s := |entities|;
          entities := entities + [Style(key)];
          cache := cache[key := s];
          entities := entities + [StyledItem(items[k], s)];
        }
        k := k + 1;
      }
      assert jobs[..|items|] == jobs;
    }

    /** Lines 37-57 for one element. */
    method PaintProduct(p: Product, key: Key, cache0: map<Key, nat>) returns (cache: map<Key, nat>)
      modifies this
      ensures PaintState(entities, cache) == Paint(PaintState(old(entities), cache0), ProductJobs(p, key))
    {
      cache := cache0;
      if p.representation.None? {
        return;
      }
      var reps := p.representation.value;
      ghost var st0 := PaintState(entities, cache0);
      var k := 0;
      while k < |reps|
        invariant 0 <= k <= |reps|
        invariant PaintState(entities, cache) == Paint(st0, RepJobs(reps[..k], key))
      {
        assert reps[..k + 1][..k] == reps[..k];
        assert reps[..k + 1][k] == reps[k];
        if reps[k].items.Some? {
          cache := PaintItems(reps[k].items.value, key, cache);
          assert RepJobs(reps[..k + 1], key) == RepJobs(reps[..k], key) + ItemJobs(reps[k].items.value, key);
          PaintAppend(st0, RepJobs(reps[..k], key), ItemJobs(reps[k].items.value, key));
        } else {
          assert RepJobs(reps[..k + 1], key) == RepJobs(reps[..k], key) + [];
          assert RepJobs(reps[..k], key) + [] == RepJobs(reps[..k], key);
        }
        k := k + 1;
      }
      assert reps[..|reps|] == reps;
    }

    /** `aplicar_colores_por_impacto(model, df)`: makes the totals numeric in the
        caller's frame and paints every item of every element the frame names. */
    method ApplyColours(df: DataFrame, toNumber: string -> Option<real>, floatText: real -> string)
      returns (r: Option<ColourError>)
      requires df.Valid()
      modifies this, df
      ensures df.Valid()
      ensures r.Some? <==> !("ID" in old(df.columns) && "Total" in old(df.columns))
      ensures r.Some? ==> entities == old(entities) && df.Value() == old(df.Value())
      ensures r.None? ==>
        df.Value() == CoercedTotals(old(df.Value()), toNumber)
        && var idx := ColumnIndex(df.columns, "ID").value;
           var tdx := ColumnIndex(df.columns, "Total").value;
           entities == Paint(PaintState(old(entities), map[]),
                             AllJobs(df.rows, idx, tdx, ScaleOf(df.rows, tdx), lookup, floatText)).ents
    {
      if !("ID" in df.columns && "Total" in df.columns) {
        return Some(MissingIdOrTotal);
      }
      r := None;
      var tdx := ColumnIndex(df.columns, "Total").value;
      var idx := ColumnIndex(df.columns, "ID").value;
      var rows0 := df.rows;
      df.Assign("Total", seq(|rows0|, i requires 0 <= i < |rows0| => ToNumeric(rows0[i][tdx], toNumber)));
      var rows := df.rows;
      var sc := ScaleOf(rows, tdx);
      PaintRows(rows, idx, tdx, sc, floatText);
    }

    /** The loop of lines 30-57 over the rows of the frame, with `color_cache`
        starting empty. */
    method PaintRows(rows: seq<seq<Cell>>, idx: nat, tdx: nat, sc: Scale, floatText: real -> string)
      requires sc.spread != 0.0
      modifies this
      ensures entities == Paint(PaintState(old(entities), map[]), AllJobs(rows, idx, tdx, sc, lookup, floatText)).ents
    {
      var cache: map<Key, nat> := map[];
      ghost var st0 := PaintState(entities, map[]);
      var lk := lookup;
      var i := 0;
      while i < |rows|
        invariant 0 <= i <= |rows|
        invariant PaintState(entities, cache) == Paint(st0, AllJobs(rows[..i], idx, tdx, sc, lk, floatText))
      {
        ghost var jobs := RowJobs(rows[i], idx, tdx, sc, lk, floatText);
        ghost var before := PaintState(entities, cache);
        var guid := RowGuid(rows[i], idx, floatText);
        if guid in lk {
          var key := ColourKey(Norm(NumValue(CellAt(rows[i], tdx)), sc.lo, sc.spread));
          assert jobs == ProductJobs(lk[guid], key);
          cache := PaintProduct(lk[guid], key, cache);
        } else {
          assert jobs == [];
        }
        PaintRowStep(st0, rows, i, idx, tdx, sc, lk, floatText, before, PaintState(entities, cache));
        i := i + 1;
      }
      assert rows[..|rows|] == rows;
    }

    /** The loop of lines 73-94. */
    method AddFootprints(cols: seq<string>, rows: seq<seq<Cell>>, pyFloat: string -> Option<real>, floatText: real -> string)
      returns (errors: seq<RowError>)
      requires "ID" in cols && "Total" in cols
      modifies this
      ensures var p := PsetPass(cols, rows, lookup, pyFloat, floatText);
        entities == old(entities) + p.ents && errors == p.errs
    {
      var lk := lookup;
      var idx := ColumnIndex(cols, "ID").value;
      var tdx := ColumnIndex(cols, "Total").value;
      errors := [];
      ghost var ents0 := entities;
      ghost var acc := Step([], []);
      var i := 0;
      while i < |rows|
        invariant 0 <= i <= |rows|
        invariant acc == PsetPass(cols, rows[..i], lk, pyFloat, floatText)
        invariant entities == ents0 + acc.ents && errors == acc.errs
      {
        var guid := RowGuid(rows[i], idx, floatText);
        var huella := CellAt(rows[i], tdx);
        var unidad := RowUnit(cols, rows[i], floatText);
        ghost var s := Decide(i, guid, huella, unidad, lk, pyFloat);
        PassStep(cols, rows, i, acc, s, lk, pyFloat, floatText);
        ghost var next := Step(acc.ents + s.ents, acc.errs + s.errs);
        assert next == PsetPass(cols, rows[..i + 1], lk, pyFloat, floatText);
        AppendAssoc(ents0, acc.ents, s.ents);
        if guid == "" || huella.Null? {
          assert s == Step([], [InvalidRow(i, guid)]);
          errors := errors + [InvalidRow(i, guid)];
          AppendNil(acc.ents);
        } else if guid !in lk {
          assert s == Step([], [UnknownGuid(guid)]);
          errors := errors + [UnknownGuid(guid)];
          AppendNil(acc.ents);
        } else {
          var value := FloatOf(huella, pyFloat);
          if value.Some? {
            assert s == Step([PropertySet(guid, PsetName, Some(PsetValues(value.value, unidad)))], []);
            entities := entities + [PropertySet(guid, PsetName, Some(PsetValues(value.value, unidad)))];
            AppendNil(acc.errs);
          } else {
            assert s == Step([PropertySet(guid, PsetName, None)], [PsetFailed(guid)]);
            entities := entities + [PropertySet(guid, PsetName, None)];
            errors := errors + [PsetFailed(guid)];
          }
        }
        acc := next;
        i := i + 1;
      }
      assert rows[..|rows|] == rows;
    }
  }

  /** `agregar_huella_ifc(ruta, df, nombre_salida)` on the opened document `model`;
      `sourceExists` is `os.path.isfile(ruta)`, `toNumber` pandas' number parser
      and `pyFloat` Python's `float`. */
  method Reinject(sourceExists: bool, model: IfcModel, df: DataFrame, name: string,
                  toNumber: string -> Option<real>, pyFloat: string -> Option<real>, floatText: real -> string)
    returns (r: Result<Exported, ReinjectError>)
    requires df.Valid()
    modifies model, df
    ensures df.Valid()
    ensures !sourceExists ==> r == Failure(SourceNotFound)
    ensures sourceExists && "Total" !in old(df.columns) ==> r == Failure(NoTotalColumn)
    ensures sourceExists && "Total" in old(df.columns) && "ID" !in old(df.columns) ==> r == Failure(NoIdColumn)
    ensures r.Success? <==> sourceExists && "Total" in old(df.columns) && "ID" in old(df.columns)
    ensures r.Failure? ==> model.entities == old(model.entities) && df.Value() == old(df.Value())
    ensures r.Success? ==>
      sourceExists && "ID" in old(df.columns) && "Total" in old(df.columns)
      && var p := PsetPass(old(df.columns), old(df.rows), model.lookup, pyFloat, floatText);
         var idx := ColumnIndex(old(df.columns), "ID").value;
         var tdx := ColumnIndex(old(df.columns), "Total").value;
         r.value == Exported(OutputPath(name), p.errs, |p.errs| > 0)
         && df.Value() == CoercedTotals(old(df.Value()), toNumber)
         && model.entities == Paint(PaintState(old(model.entities) + p.ents, map[]),
                                    AllJobs(df.rows, idx, tdx, ScaleOf(df.rows, tdx), model.lookup, floatText)).ents
  {
    if !sourceExists {
      return Failure(SourceNotFound);
    }
    if "Total" !in df.columns {
      return Failure(NoTotalColumn);
    }
    if "ID" !in df.columns {
      return Failure(NoIdColumn);
    }
    var errors := model.AddFootprints(df.columns, df.rows, pyFloat, floatText);
    var failed := model.ApplyColours(df, toNumber, floatText);
    var path := OutputPath(name);
    r := Success(Exported(path, errors, |errors| > 0));
  }
}
