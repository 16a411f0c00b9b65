/** Row chunking for the footprint queries (app.py 214-255). The analysed table is
    cut into blocks of 20 rows; each block is rendered and sent to the oracle, and
    the stripped replies are concatenated, each followed by a line break. */
module Chunking {
  import opened Seqs
  import opened Text

  /** `chunk_size` of app.py 215. */
  const ChunkSize: nat := 20

  function Min(a: int, b: int): int
  {
    if a <= b then a else b
  }

  /** `len(range(0, n, 20))`. */
  function NumChunks(n: nat): nat
  {
    (n + ChunkSize - 1) / ChunkSize
  }

  /** Block `i` starts at row `20 * i`, which lies inside the table. */
  lemma ChunkStartInside(n: nat, i: nat)
    requires i < NumChunks(n)
    ensures i * ChunkSize < n
  {
  }

  /** `[df.iloc[i:i + 20] for i in range(0, len(df), 20)]`. */
  function Chunks<T>(rows: seq<T>): (r: seq<seq<T>>)
    ensures |r| == NumChunks(|rows|)
  {
    var k := NumChunks(|rows|);
    seq(k, i requires 0 <= i < k =>
      ChunkStartInside(|rows|, i);
      rows[i * ChunkSize..Min((i + 1) * ChunkSize, |rows|)])
  }

  /** The first block is the first 20 rows (or all of them); the rest are the
      blocks of what follows. */
  lemma ChunksStep<T>(rows: seq<T>)
    requires |rows| > 0
    ensures Chunks(rows) == [rows[..Min(ChunkSize, |rows|)]] + Chunks(rows[Min(ChunkSize, |rows|)..])
  {
    var c := Min(ChunkSize, |rows|);
    var rest := rows[c..];
    var lhs := Chunks(rows);
    var rhs := [rows[..c]] + Chunks(rest);
    assert |lhs| == |rhs|;
    forall i | 0 <= i < |lhs|
      ensures lhs[i] == rhs[i]
    {
      if i > 0 {
        ChunkStartInside(|rest|, i - 1);
        assert rhs[i] == Chunks(rest)[i - 1];
        assert Chunks(rest)[i - 1] == rest[(i - 1) * ChunkSize..Min(i * ChunkSize, |rest|)];
        assert rows[i * ChunkSize..Min((i + 1) * ChunkSize, |rows|)]
            == rest[(i - 1) * ChunkSize..Min(i * ChunkSize, |rest|)];
      }
    }
  }

  /** The blocks, concatenated in order, give back the table. */
  lemma {:induction false} ChunksConcat<T>(rows: seq<T>)
    ensures Flatten(Chunks(rows)) == rows
    decreases |rows|
  {
    if |rows| > 0 {
      var c := Min(ChunkSize, |rows|);
      ChunksStep(rows);
      ChunksConcat(rows[c..]);
      assert [rows[..c]] + Chunks(rows[c..]) == Chunks(rows);
      assert Flatten(Chunks(rows)) == rows[..c] + Flatten(Chunks(rows[c..]));
      assert rows[..c] + rows[c..] == rows;
    }
  }

  /** No block is empty or longer than 20 rows, and every block but the last holds
      exactly 20. */
  lemma ChunkSizes<T>(rows: seq<T>, i: nat)
    requires i < |Chunks(rows)|
    ensures 0 < |Chunks(rows)[i]| <= ChunkSize
    ensures i < |Chunks(rows)| - 1 ==> |Chunks(rows)[i]| == ChunkSize
  {
    ChunkStartInside(|rows|, i);
  }

  /** There are as few blocks as can hold the table: 20 times their number covers
      it, and one block fewer would not. */
  lemma ChunkCount(n: nat)
    ensures NumChunks(n) * ChunkSize >= n
    ensures n > 0 ==> (NumChunks(n) - 1) * ChunkSize < n
    ensures n == 0 <==> NumChunks(n) == 0
  {
  }

  /** `parte.strip() + "\n"` for every block, in block order. */
  function Replies<T>(blocks: seq<seq<T>>, answer: seq<T> -> string): seq<string>
  {
    seq(|blocks|, i requires 0 <= i < |blocks| => Strip(answer(blocks[i])) + "\n")
  }

  /** The query loop of app.py 218-255: `respuesta_total` accumulates the stripped
      reply to every block, each ended by a line break. The oracle, together with
      the rendering of the block and the prompt around it, is `answer`. */
  method CollectReplies<T>(table: seq<T>, answer: seq<T> -> string) returns (total: string)
    ensures total == Flatten(Replies(Chunks(table), answer))
  {
    var blocks := Chunks(table);
    ghost var parts := Replies(blocks, answer);
    total := "";
    var i := 0;
    while i < |blocks|
      invariant 0 <= i <= |blocks|
      invariant total == Flatten(parts[..i])
    {
      var part := answer(blocks[i]);
      ReplyStep(blocks, answer, i);
      total := total + (Strip(part) + "\n");
      i := i + 1;
    }
    assert parts[..|blocks|] == parts;
  }

  lemma ReplyStep<T>(blocks: seq<seq<T>>, answer: seq<T> -> string, i: nat)
    requires i < |blocks|
    ensures Flatten(Replies(blocks, answer)[..i + 1])
         == Flatten(Replies(blocks, answer)[..i]) + (Strip(answer(blocks[i])) + "\n")
  {
    FlattenSnoc(Replies(blocks, answer), i);
  }

  /** Every block contributes one line break-terminated stretch, so the total is
      empty exactly when the table is and otherwise ends with a line break. */
  lemma {:induction false} RepliesShape<T>(blocks: seq<seq<T>>, answer: seq<T> -> string)
    ensures var t := Flatten(Replies(blocks, answer));
      (|t| == 0 <==> |blocks| == 0) && (|t| > 0 ==> t[|t| - 1] == '\n')
    decreases |blocks|
  {
    if |blocks| > 0 {
      var rs := Replies(blocks, answer);
      assert Replies(blocks[1..], answer) == rs[1..];
      RepliesShape(blocks[1..], answer);
      assert Flatten(rs) == rs[0] + Flatten(rs[1..]);
    }
  }
}
