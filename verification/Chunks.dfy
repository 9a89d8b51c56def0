/** Chunk arithmetic and reassembly: CreateUpload's chunk count, WriteChunk's
    expected lengths, concatChunks (internal/images). */
module Chunks {
  type Bytes = seq<bv8>

  const MAX_IMAGE_SIZE: int := 10 * 1024 * 1024 * 1024
  const DEFAULT_CHUNK_SIZE: int := 10 * 1024 * 1024
  const MAX_CHUNK_SIZE: int := 64 * 1024 * 1024

  /** n * c as repeated addition, which keeps the proofs that step through chunks linear. */
  function Times(n: nat, c: nat): nat {
    if n == 0 then 0 else Times(n - 1, c) + c
  }

  lemma {:induction false} TimesIsProduct(n: nat, c: nat)
    ensures Times(n, c) == n * c
  {
    if n > 0 {
      TimesIsProduct(n - 1, c);
      assert n * c == (n - 1) * c + c;
    }
  }

  lemma {:induction false} TimesMono(m: nat, n: nat, c: nat)
    requires m <= n
    ensures Times(m, c) <= Times(n, c)
    decreases n
  {
    if m < n { TimesMono(m, n - 1, c); }
  }

  /** The size fields of an upload session. */
  datatype Shape = Shape(total: nat, chunk: nat, num: nat) {
    predicate Valid() {
      num > 0 && chunk > 0 && Times(num - 1, chunk) < total <= Times(num, chunk)
    }

    /** The length WriteChunk accepts for chunk n (1-based). */
    function ChunkLen(n: nat): int
      requires 1 <= n <= num
    {
      if n == num then total - Times(num - 1, chunk) else chunk
    }

    /** Where chunk n + 1 starts, which is where the first n chunks end. */
    function Offset(n: nat): nat
      requires n <= num
    {
      if n == num then total else Times(n, chunk)
    }

    function SumLens(n: nat): int
      requires n <= num
    {
      if n == 0 then 0 else SumLens(n - 1) + ChunkLen(n)
    }
  }

  /** Ceiling division counts the chunks. */
  lemma CeilDiv(total: nat, chunk: nat)
    requires total > 0 && chunk > 0
    ensures Shape(total, chunk, (total + chunk - 1) / chunk).Valid()
  {
    var x := total + chunk - 1;
    var q, r := x / chunk, x % chunk;
    assert x == q * chunk + r;
    assert q == 0 ==> q * chunk == 0;
    assert (q - 1) * chunk == q * chunk - chunk;
    TimesIsProduct(q, chunk);
    TimesIsProduct(q - 1, chunk);
  }

  datatype SizeCheck = Accepted(shape: Shape) | BadTotal | TotalTooLarge | ChunkTooLarge

  /** CreateUpload's size validation and chunk count. */
  method PlanUpload(total: int, chunkSize: int) returns (r: SizeCheck)
    ensures r.BadTotal? <==> total <= 0
    ensures r.TotalTooLarge? <==> total > 10 * 0x4000_0000
    ensures r.ChunkTooLarge? <==> 0 < total <= 10 * 0x4000_0000 && chunkSize > 64 * 0x10_0000
    ensures r.Accepted? ==> r.shape.Valid() && r.shape.total == total
    ensures r.Accepted? ==> r.shape.chunk == if chunkSize <= 0 then 10 * 0x10_0000 else chunkSize
    ensures r.Accepted? ==> (r.shape.num - 1) * r.shape.chunk < total <= r.shape.num * r.shape.chunk
  {
    if total <= 0 { return BadTotal; }
    if total > MAX_IMAGE_SIZE { return TotalTooLarge; }
    var chunk := chunkSize;
    if chunk <= 0 { chunk := DEFAULT_CHUNK_SIZE; }
    if chunk > MAX_CHUNK_SIZE { return ChunkTooLarge; }
    CeilDiv(total, chunk);
    TimesIsProduct((total + chunk - 1) / chunk, chunk);
    TimesIsProduct((total + chunk - 1) / chunk - 1, chunk);
    return Accepted(Shape(total, chunk, (total + chunk - 1) / chunk));
  }

  lemma ChunkBounds(sh: Shape, n: nat)
    requires sh.Valid() && 1 <= n <= sh.num
    ensures 0 <= sh.Offset(n - 1) < sh.Offset(n) <= sh.total
    ensures sh.Offset(n) - sh.Offset(n - 1) == sh.ChunkLen(n)
    ensures 1 <= sh.ChunkLen(n) <= sh.chunk
  {
    if n < sh.num { TimesMono(n, sh.num - 1, sh.chunk); }
  }

  /** The accepted lengths of chunks 1..num add up to the declared total, and the
      last one is between 1 and the chunk size. */
  lemma {:induction false} AcceptedLengthsSum(sh: Shape, n: nat)
    requires sh.Valid() && n <= sh.num
    ensures sh.SumLens(n) == sh.Offset(n)
    ensures n == sh.num ==> sh.SumLens(n) == sh.total && 1 <= sh.ChunkLen(sh.num) <= sh.chunk
  {
    ChunkBounds(sh, sh.num);
    if n > 0 {
      AcceptedLengthsSum(sh, n - 1);
      ChunkBounds(sh, n);
    }
  }

  /** Chunk n of a file cut at the session's chunk boundaries. */
  function Cut(file: Bytes, sh: Shape, n: nat): Bytes
    requires sh.Valid() && |file| == sh.total && 1 <= n <= sh.num
  {
    ChunkBounds(sh, n);
    file[sh.Offset(n - 1)..sh.Offset(n)]
  }

  /** The chunks a session has on disk, by number. */
  type ChunkDir = map<nat, Bytes>

  predicate HasAll(dir: ChunkDir, n: nat) {
    forall i :: 1 <= i <= n ==> i in dir
  }

  function Concat(dir: ChunkDir, n: nat): Bytes
    requires HasAll(dir, n)
  {
    if n == 0 then [] else Concat(dir, n - 1) + dir[n]
  }

  /** concatChunks on a quiet directory: the assembled bytes and their count, or the
      number of the first chunk that is missing. */
  method ConcatChunks(dir: ChunkDir, num: nat) returns (out: Bytes, total: nat, missing: nat)
    ensures missing == 0 <==> HasAll(dir, num)
    ensures missing == 0 ==> out == Concat(dir, num) && total == |out|
    ensures missing > 0 ==> missing <= num && missing !in dir && HasAll(dir, missing - 1)
  {
    out, total, missing := [], 0, 0;
    for i := 0 to num
      invariant HasAll(dir, i) && out == Concat(dir, i) && total == |out|
    {
      if i + 1 !in dir {
        missing := i + 1;
        return;
      }
      out := out + dir[i + 1];
      total := total + |dir[i + 1]|;
    }
  }

  /** Whatever order the chunks of a cut file arrived in and however often, once all
      of them are there their concatenation is the file. */
  lemma {:induction false} ConcatOfCuts(file: Bytes, sh: Shape, dir: ChunkDir, n: nat)
    requires sh.Valid() && |file| == sh.total && n <= sh.num && HasAll(dir, n)
    requires forall i :: 1 <= i <= n ==> dir[i] == Cut(file, sh, i)
    ensures sh.Offset(n) <= |file| && Concat(dir, n) == file[..sh.Offset(n)]
  {
    if n > 0 {
      ConcatOfCuts(file, sh, dir, n - 1);
      ChunkBounds(sh, n);
      assert file[..sh.Offset(n)] == file[..sh.Offset(n - 1)] + Cut(file, sh, n);
    }
  }
}
