/** Rendering of the reference sheets for the oracle prompt
    (funciones/utils/formatear_hojas_para_ia.py 3-29). Each sheet with rows and at
    least two columns is cut into `n // max + 1` consecutive blocks of at most `max`
    rows; each block becomes a part "### Hoja: <name> (filas <a> - <b>)" followed by
    its markdown, and the parts of all sheets are joined with a blank line. An
    exception while a sheet is processed adds an error part for it instead. */
module SheetRendering {
  import opened Wrappers
  import opened Seqs
  import opened Text
  import opened Dicts
  import opened ReferenceSheets
  import opened Tables
  import Chunking

  /** `max_filas_por_hoja`'s default. */
  const DefaultMaxRows: int := 25

  /** Text of the exception `n // 0` raises. */
  const ZeroDivisionText: string := "integer division or modulo by zero"

  /** The separator of line 29. */
  const PartSeparator: string := "\n\n"

  /** Python's `a // b`, which rounds toward minus infinity. */
  function FloorDiv(a: int, b: int): int
    requires b != 0
  {
    if b > 0 then a / b else (-a) / (-b)
  }

  /** `total_partes` of line 16. */
  function NumParts(n: nat, max: int): int
    requires max != 0
  {
    FloorDiv(n, max) + 1
  }

  /** Line 12: the sheet is skipped. */
  predicate Unrenderable(sh: Sheet)
  {
    |sh.data| == 0 || sh.width == 0 || sh.width < 2
  }

  /** `inicio` and `fin` of block `i` (lines 19-20). */
  function Bounds(n: nat, max: int, i: nat): (int, int)
  {
    (i * max, Chunking.Min((i + 1) * max, n))
  }

  /** A block that the loop reaches lies inside the sheet, holds at most `max`
      rows, ends where the next one starts, and the last one ends at row `n`. */
  lemma BoundsInside(n: nat, max: int, i: nat)
    requires max > 0 && i < NumParts(n, max)
    ensures 0 <= Bounds(n, max, i).0 <= Bounds(n, max, i).1 <= n
    ensures Bounds(n, max, i).1 - Bounds(n, max, i).0 <= max
    ensures i + 1 < NumParts(n, max) ==> Bounds(n, max, i).1 == Bounds(n, max, i + 1).0
    ensures i + 1 == NumParts(n, max) ==> Bounds(n, max, i).1 == n
  {
    var q := n / max;
    assert q * max + n % max == n;
    assert i <= q;
    assert i * max <= q * max by { MulMono(i, q, max); }
    if i + 1 < NumParts(n, max) {
      assert (i + 1) * max <= q * max by { MulMono(i + 1, q, max); }
    } else {
      assert (i + 1) * max == q * max + max;
    }
  }

  lemma MulMono(a: nat, b: nat, m: int)
    requires a <= b && m > 0
    ensures a * m <= b * m
  {
  }

  /** `df.iloc[inicio:fin]`. */
  function ChunkAt(sh: Sheet, max: int, i: nat): (c: Sheet)
    requires max > 0 && i < NumParts(|sh.data|, max)
    ensures c.header == sh.header && c.width == sh.width
  {
    BoundsInside(|sh.data|, max, i);
    var (lo, hi) := Bounds(|sh.data|, max, i);
    Sheet(sh.header, sh.data[lo..hi], sh.width)
  }

  /** The part of line 25. */
  function PartLabel(name: string, lo: int, hi: int, markdown: string): string
  {
    "### Hoja: " + name + " (filas " + IntToString(lo + 1) + " - " + IntToString(hi) + ")\n" + markdown
  }

  /** The part of line 27. */
  function ErrorPart(name: string, message: string): string
  {
    "### Hoja: " + name + " (⚠️ Error al procesar: " + message + ")"
  }

  /** Block `i` rendered: its labelled part, or the text of the exception that
      `render` (`to_markdown(index=False)`) raised. */
  function BlockResult(name: string, sh: Sheet, max: int, render: Sheet -> Result<string, string>, i: nat): Result<string, string>
    requires max > 0 && i < NumParts(|sh.data|, max)
  {
    var (lo, hi) := Bounds(|sh.data|, max, i);
    match render(ChunkAt(sh, max, i))
    case Failure(e) => Failure(e)
    case Success(md) => Success(PartLabel(name, lo, hi, md))
  }

  /** The results of all blocks of the sheet, in block order. */
  function BlockResults(name: string, sh: Sheet, max: int, render: Sheet -> Result<string, string>): (r: seq<Result<string, string>>)
    requires max > 0
    ensures |r| == NumParts(|sh.data|, max)
  {
    seq(NumParts(|sh.data|, max), (i: int) requires 0 <= i < NumParts(|sh.data|, max) => BlockResult(name, sh, max, render, i))
  }

  /** The parts the block loop appends: each rendered block's part; the first block
      whose rendering raises gives the error part and ends the sheet. */
  function PartsOf(name: string, rs: seq<Result<string, string>>): seq<string>
  {
    if |rs| == 0 then []
    else match rs[0]
      case Failure(e) => [ErrorPart(name, e)]
      case Success(part) => [part] + PartsOf(name, rs[1..])
  }

  /** Everything one sheet contributes (lines 11-27). */
  function SheetParts(name: string, sh: Sheet, max: int, render: Sheet -> Result<string, string>): seq<string>
  {
    if Unrenderable(sh) then []
    else if max == 0 then [ErrorPart(name, ZeroDivisionText)]
    else if max < 0 then []
    else PartsOf(name, BlockResults(name, sh, max, render))
  }

  function SheetPartsOf(max: int, render: Sheet -> Result<string, string>): ((string, Sheet)) -> seq<string>
  {
    (e: (string, Sheet)) => SheetParts(e.0, e.1, max, render)
  }

  /** `partes` after the loop over the sheets, in sheet order. */
  function AllParts(hojas: Dict<Sheet>, max: int, render: Sheet -> Result<string, string>): seq<string>
  {
    Gather(hojas, SheetPartsOf(max, render))
  }

  /** For a negative `max`, `n // max + 1` is not positive for any sheet with rows,
      so `range` is empty. */
  lemma NegativeMaxNoBlocks(n: nat, max: int)
    requires max < 0 && n > 0
    ensures NumParts(n, max) <= 0
  {
    var d := -max;
    var m: int := -(n as int);
    assert m / d * d + m % d == m;
    assert m % d < d;
  }

  /** The rows of every block, in block order. */
  function Blocks(sh: Sheet, max: int): (r: seq<seq<seq<Cell>>>)
    requires max > 0
    ensures |r| == NumParts(|sh.data|, max) && |r| > 0
  {
    seq(NumParts(|sh.data|, max), (i: int) requires 0 <= i < NumParts(|sh.data|, max) => ChunkAt(sh, max, i).data)
  }

  /** The blocks from `k` on, concatenated, are the rows from `k * max` on. */
  lemma {:induction false} BlocksFrom(sh: Sheet, max: int, k: nat)
    requires max > 0 && k < NumParts(|sh.data|, max)
    ensures Flatten(Blocks(sh, max)[k..]) == sh.data[k * max..]
    decreases NumParts(|sh.data|, max) - k
  {
    var n := |sh.data|;
    var b := Blocks(sh, max);
    BoundsInside(n, max, k);
    assert b[k..] == [b[k]] + b[k + 1..];
    assert b[k] == sh.data[k * max..Bounds(n, max, k).1];
    if k + 1 < NumParts(n, max) {
      BlocksFrom(sh, max, k + 1);
      assert sh.data[k * max..] == b[k] + sh.data[(k + 1) * max..];
    } else {
      assert b[k + 1..] == [];
      assert sh.data[k * max..] == b[k];
    }
  }

  /** The blocks are consecutive and cover the sheet exactly: concatenated in order
      they give back its rows. */
  lemma BlocksCover(sh: Sheet, max: int)
    requires max > 0
    ensures Flatten(Blocks(sh, max)) == sh.data
  {
    BlocksFrom(sh, max, 0);
    assert Blocks(sh, max)[0..] == Blocks(sh, max);
  }

  /** No block holds more than `max` rows; block `i` starts at row `i * max`; and
      the last block is empty exactly when `max` divides the row count. */
  lemma BlockSizes(sh: Sheet, max: int, i: nat)
    requires max > 0 && i < NumParts(|sh.data|, max)
    ensures |Blocks(sh, max)[i]| <= max
    ensures Bounds(|sh.data|, max, i).0 == i * max
    ensures i == NumParts(|sh.data|, max) - 1 ==> (|Blocks(sh, max)[i]| == 0 <==> |sh.data| % max == 0)
  {
    var n := |sh.data|;
    BoundsInside(n, max, i);
    if i == NumParts(n, max) - 1 {
      assert i == n / max;
      assert n / max * max + n % max == n;
    }
  }

  /** When `max` divides the row count `n` of a rendered sheet, the last block is
      empty and labelled "filas n+1 - n". */
  lemma LastBlockEmpty(sh: Sheet, max: int)
    requires max > 0 && |sh.data| % max == 0
    ensures Bounds(|sh.data|, max, NumParts(|sh.data|, max) - 1) == (|sh.data|, |sh.data|)
  {
    var n := |sh.data|;
    var last := NumParts(n, max) - 1;
    BoundsInside(n, max, last);
    assert n / max * max + n % max == n;
    assert last * max == n;
  }

  /** Every block of the sheet renders. */
  predicate AllRender(sh: Sheet, max: int, render: Sheet -> Result<string, string>)
    requires max > 0
  {
    forall i :: 0 <= i < NumParts(|sh.data|, max) ==> render(ChunkAt(sh, max, i)).Success?
  }

  lemma {:induction false} PartsOfAllSucceed(name: string, rs: seq<Result<string, string>>)
    requires forall i :: 0 <= i < |rs| ==> rs[i].Success?
    ensures |PartsOf(name, rs)| == |rs|
    ensures forall i :: 0 <= i < |rs| ==> PartsOf(name, rs)[i] == rs[i].value
  {
    if |rs| > 0 {
      PartsOfAllSucceed(name, rs[1..]);
      assert PartsOf(name, rs) == [rs[0].value] + PartsOf(name, rs[1..]);
    }
  }

  lemma {:induction false} PartsOfFailure(name: string, rs: seq<Result<string, string>>, f: nat)
    requires f < |rs| && rs[f].Failure?
    requires forall i :: 0 <= i < f ==> rs[i].Success?
    ensures |PartsOf(name, rs)| == f + 1
    ensures forall i :: 0 <= i < f ==> PartsOf(name, rs)[i] == rs[i].value
    ensures PartsOf(name, rs)[f] == ErrorPart(name, rs[f].error)
  {
    if f > 0 {
      PartsOfFailure(name, rs[1..], f - 1);
      assert PartsOf(name, rs) == [rs[0].value] + PartsOf(name, rs[1..]);
    }
  }

  /** The labelled part of block `i`, when it renders to `md`: "### Hoja: <name>
      (filas <i*max+1> - <end>)", a line break and the markdown. */
  lemma BlockPartText(name: string, sh: Sheet, max: int, render: Sheet -> Result<string, string>, i: nat)
    requires max > 0 && i < NumParts(|sh.data|, max) && render(ChunkAt(sh, max, i)).Success?
    ensures BlockResult(name, sh, max, render, i)
         == Success("### Hoja: " + name + " (filas " + IntToString(i * max + 1) + " - "
            + IntToString(Bounds(|sh.data|, max, i).1) + ")\n" + render(ChunkAt(sh, max, i)).value)
  {
  }

  /** When `max` divides the row count `n`, the last block is empty and its part is
      labelled "filas n+1 - n". */
  lemma LastPartText(name: string, sh: Sheet, max: int, render: Sheet -> Result<string, string>)
    requires max > 0 && |sh.data| % max == 0
    requires render(ChunkAt(sh, max, NumParts(|sh.data|, max) - 1)).Success?
    ensures ChunkAt(sh, max, NumParts(|sh.data|, max) - 1).data == []
    ensures BlockResult(name, sh, max, render, NumParts(|sh.data|, max) - 1)
         == Success("### Hoja: " + name + " (filas " + IntToString(|sh.data| + 1) + " - "
            + IntToString(|sh.data|) + ")\n" + render(ChunkAt(sh, max, NumParts(|sh.data|, max) - 1)).value)
  {
    LastBlockEmpty(sh, max);
  }

  /** A sheet with rows, at least two columns and positive `max` whose blocks all
      render yields exactly `n // max + 1` parts, part `i` being block `i`'s. */
  lemma SheetPartsRendered(name: string, sh: Sheet, max: int, render: Sheet -> Result<string, string>)
    requires !Unrenderable(sh) && max > 0 && AllRender(sh, max, render)
    ensures |SheetParts(name, sh, max, render)| == |sh.data| / max + 1
    ensures forall i :: 0 <= i < |sh.data| / max + 1 ==>
              Success(SheetParts(name, sh, max, render)[i]) == BlockResult(name, sh, max, render, i)
  {
    var rs := BlockResults(name, sh, max, render);
    forall i | 0 <= i < |rs|
      ensures rs[i].Success?
    {
      assert render(ChunkAt(sh, max, i)).Success?;
    }
    PartsOfAllSucceed(name, rs);
  }

  /** When block `f` is the first whose rendering raises, the sheet yields the parts
      of blocks `0 .. f-1` and then an error part carrying the exception's text;
      the blocks after `f` contribute nothing. */
  lemma SheetPartsFailing(name: string, sh: Sheet, max: int, render: Sheet -> Result<string, string>, f: nat)
    requires !Unrenderable(sh) && max > 0 && f < NumParts(|sh.data|, max)
    requires forall k :: 0 <= k < f ==> render(ChunkAt(sh, max, k)).Success?
    requires render(ChunkAt(sh, max, f)).Failure?
    ensures |SheetParts(name, sh, max, render)| == f + 1
    ensures forall k :: 0 <= k < f ==>
              Success(SheetParts(name, sh, max, render)[k]) == BlockResult(name, sh, max, render, k)
    ensures SheetParts(name, sh, max, render)[f] == ErrorPart(name, render(ChunkAt(sh, max, f)).error)
  {
    var rs := BlockResults(name, sh, max, render);
    forall k | 0 <= k < f
      ensures rs[k].Success?
    {
      assert render(ChunkAt(sh, max, k)).Success?;
    }
    assert rs[f].Failure?;
    PartsOfFailure(name, rs, f);
  }

  /** A sheet without rows or with fewer than two columns contributes nothing; with
      `max == 0` a renderable sheet contributes one error part (the division raises);
      with a negative `max` it contributes nothing. */
  lemma SheetPartsDegenerate(name: string, sh: Sheet, max: int, render: Sheet -> Result<string, string>)
    ensures Unrenderable(sh) ==> SheetParts(name, sh, max, render) == []
    ensures !Unrenderable(sh) && max == 0 ==> SheetParts(name, sh, max, render) == [ErrorPart(name, ZeroDivisionText)]
    ensures !Unrenderable(sh) && max < 0 ==> SheetParts(name, sh, max, render) == [] && NumParts(|sh.data|, max) <= 0
  {
    if !Unrenderable(sh) && max < 0 {
      NegativeMaxNoBlocks(|sh.data|, max);
    }
  }

  /** The parts keep sheet order: each sheet's parts sit between those of the
      sheets before it and those of the sheets after it. */
  lemma AllPartsOrder(before: Dict<Sheet>, name: string, sh: Sheet, after: Dict<Sheet>, max: int, render: Sheet -> Result<string, string>)
    ensures AllParts(before + [(name, sh)] + after, max, render)
         == AllParts(before, max, render) + SheetParts(name, sh, max, render) + AllParts(after, max, render)
  {
    var g := SheetPartsOf(max, render);
    GatherAppend(before + [(name, sh)], after, g);
    GatherSnoc(before, (name, sh), g);
  }

  /** `formatear_hojas_para_ia`: the nested loops of lines 10-27, then the join. */
  method FormatSheets(hojas: Dict<Sheet>, max: int, render: Sheet -> Result<string, string>)
    returns (texto: string)
    ensures texto == Join(AllParts(hojas, max, render), PartSeparator)
  {
    var partes: seq<string> := [];
    var j := 0;
    while j < |hojas|
      invariant 0 <= j <= |hojas|
      invariant partes == AllParts(hojas[..j], max, render)
    {
      var (nombre, df) := hojas[j];
      TakeSnoc(hojas, j);
      GatherSnoc(hojas[..j], hojas[j], SheetPartsOf(max, render));
      ghost var pre := partes;
      ghost var mine := SheetParts(nombre, df, max, render);
      if |df.data| == 0 || df.width == 0 || df.width < 2 {
        AppendNil(partes);
      } else if max == 0 {
        partes := partes + [ErrorPart(nombre, ZeroDivisionText)];
      } else {
        var n := |df.data|;
        var total := FloorDiv(n, max) + 1;
        if max < 0 {
          // `range(total)` is empty.
          NegativeMaxNoBlocks(n, max);
          AppendNil(partes);
        } else {
          ghost var rs := BlockResults(nombre, df, max, render);
          var i := 0;
          while i < total
            invariant 0 <= i <= total
            invariant partes + PartsOf(nombre, rs[i..]) == pre + mine
          {
            BoundsInside(n, max, i);
            var inicio := i * max;
            var fin := Chunking.Min((i + 1) * max, n);
            var chunk := Sheet(df.header, df.data[inicio..fin], df.width);
            assert chunk == ChunkAt(df, max, i);
            assert rs[i..][0] == rs[i] == BlockResult(nombre, df, max, render, i);
            match render(chunk) {
              case Failure(e) =>
                partes := partes + [ErrorPart(nombre, e)];
                assert partes == pre + mine;
                break;
              case Success(md) =>
                var parte := PartLabel(nombre, inicio, fin, md);
                assert rs[i..][1..] == rs[i + 1..];
                AppendAssoc(partes, [parte], PartsOf(nombre, rs[i + 1..]));
                partes := partes + [parte];
            }
            i := i + 1;
          }
          if i >= total {
            assert rs[i..] == [];
            AppendNil(partes);
          }
        }
      }
      assert partes == pre + mine;
      j := j + 1;
    }
    assert hojas[..|hojas|] == hojas;
    texto := Join(partes, PartSeparator);
  }
}
