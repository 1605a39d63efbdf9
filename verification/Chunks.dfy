/** Chunk arithmetic in 64-bit integers, and the streaming check that the recorded
    chunks of an upload tile it. */
module Chunks {
  import opened World

  newtype int64 = x: int | -0x8000_0000_0000_0000 <= x < 0x8000_0000_0000_0000

  const MAX_INT64: int64 := 0x7FFF_FFFF_FFFF_FFFF
  const MIB: int64 := 0x10_0000

  predicate AllowedChunkSize(c: int64) {
    c == MIB || c == 2 * MIB || c == 4 * MIB || c == 8 * MIB || c == 16 * MIB
  }

  /** The columns of an upload row that chunk arithmetic reads. */
  datatype Upload = Upload(id: Id, totalSize: int64, chunkSize: int64, totalChunks: int64)

  function TotalChunks(totalSize: int64, chunkSize: int64): int64 {
    if totalSize <= 0 || chunkSize <= 0 then 0
    else
      var chunks := totalSize / chunkSize;
      if totalSize % chunkSize != 0 then
        QuotientBelow(totalSize as int, chunkSize as int);
        chunks + 1
      else chunks
  }

  lemma QuotientBelow(a: int, b: int)
    requires 0 < a && 0 < b && a % b != 0
    ensures a / b < a
  {
    assert a == a / b * b + a % b;
    MultiplyGrows(a / b, b);
  }

  lemma MultiplyGrows(q: int, b: int)
    requires 0 <= q && 1 <= b
    ensures q <= q * b
  {
    assert q * b == q + q * (b - 1);
  }

  /** The CHECK constraint on the row computes the same number in another way. */
  lemma TotalChunksIsCheck(totalSize: int64, chunkSize: int64)
    requires totalSize >= 0 && chunkSize > 0
    ensures TotalChunks(totalSize, chunkSize) == if totalSize == 0 then 0 else (totalSize - 1) / chunkSize + 1
  {
    if totalSize > 0 {
      var t, c := totalSize as int, chunkSize as int;
      var q, r := t / c, t % c;
      assert t == q * c + r;
      if r == 0 {
        DivideExactly(t - 1, c, q - 1, c - 1);
      } else {
        DivideExactly(t - 1, c, q, r - 1);
      }
    }
  }

  lemma DivideExactly(a: int, c: int, q: int, r: int)
    requires 0 < c && a == q * c + r && 0 <= r < c
    ensures a / c == q && a % c == r
  {
    var d := a / c - q;
    assert d * c == r - a % c;
    assert d > 0 ==> d * c >= c;
    assert d < 0 ==> d * c <= -c;
  }

  /** The count is the least number of chunks that hold the file. */
  lemma TotalChunksBounds(totalSize: int64, chunkSize: int64)
    requires totalSize >= 0 && chunkSize > 0
    ensures var n, t, c := TotalChunks(totalSize, chunkSize) as int, totalSize as int, chunkSize as int;
      && 0 <= n <= t && t <= n * c && (n > 0 ==> (n - 1) * c < t)
  {
    if totalSize > 0 {
      var t, c := totalSize as int, chunkSize as int;
      assert t == t / c * c + t % c;
      if t % c == 0 {
        assert t / c <= t / c * c;
      } else {
        QuotientBelow(t, c);
      }
    }
  }

  /** Offset and size of a chunk; the last guard keeps the product in range. */
  function ChunkBounds(u: Upload, index: int64): Option<(int64, int64)> {
    if index < 0 || index >= u.totalChunks || u.chunkSize <= 0 || index > MAX_INT64 / u.chunkSize then None
    else
      ProductInRange(index as int, u.chunkSize as int, MAX_INT64 as int);
      var offset := index * u.chunkSize;
      if u.totalSize < 0 then None
      else
        var remaining := u.totalSize - offset;
        if remaining <= 0 then None
        else Some((offset, if remaining < u.chunkSize then remaining else u.chunkSize))
  }

  lemma ProductInRange(i: int, c: int, m: int)
    requires 0 <= i && 0 < c && 0 <= m && i <= m / c
    ensures 0 <= i * c <= m
  {
    assert m == m / c * c + m % c;
    assert i * c <= m / c * c;
  }

  predicate WellFormed(u: Upload) {
    u.totalSize >= 0 && AllowedChunkSize(u.chunkSize) && u.totalChunks == TotalChunks(u.totalSize, u.chunkSize)
  }

  /** Bounds exist exactly for the indices of the upload, and are what they should be. */
  lemma BoundsExist(u: Upload, index: int64)
    requires WellFormed(u)
    ensures ChunkBounds(u, index).Some? <==> 0 <= index < u.totalChunks
    ensures 0 <= index < u.totalChunks ==>
      var o, s := ChunkBounds(u, index).value.0 as int, ChunkBounds(u, index).value.1 as int;
      && o == index as int * u.chunkSize as int
      && 0 < s <= u.chunkSize as int
      && o + s == if index == u.totalChunks - 1 then u.totalSize as int else (index as int + 1) * u.chunkSize as int
  {
    TotalChunksBounds(u.totalSize, u.chunkSize);
    if 0 <= index < u.totalChunks {
      var i, n, c, t := index as int, u.totalChunks as int, u.chunkSize as int, u.totalSize as int;
      assert i * c <= (n - 1) * c;
      assert i <= (MAX_INT64 as int) / c by { InRangeQuotient(i, c, MAX_INT64 as int); }
      if i < n - 1 {
        assert (i + 1) * c <= (n - 1) * c;
      }
    }
  }

  lemma InRangeQuotient(i: int, c: int, m: int)
    requires 0 <= i && 0 < c && i * c <= m
    ensures i <= m / c
  {
    var q := m / c;
    assert m == q * c + m % c;
    assert i > q ==> i * c >= (q + 1) * c;
  }

  /** Chunk `i` holds byte `b` of the file. */
  predicate HoldsByte(u: Upload, i: int64, b: int) {
    ChunkBounds(u, i).Some? &&
      var (offset, size) := ChunkBounds(u, i).value;
      offset as int <= b < offset as int + size as int
  }

  /** The chunks are disjoint and cover the file exactly, for every size and every
      allowed chunk size. */
  lemma ChunksTile(u: Upload, b: int)
    requires WellFormed(u)
    ensures 0 <= b < u.totalSize as int ==> exists i :: HoldsByte(u, i, b)
    ensures forall i :: HoldsByte(u, i, b) ==> 0 <= b < u.totalSize as int
    ensures forall i, j :: HoldsByte(u, i, b) && HoldsByte(u, j, b) ==> i == j
  {
    forall i | HoldsByte(u, i, b) ensures 0 <= b < u.totalSize as int ensures i as int == b / u.chunkSize as int {
      BoundsExist(u, i);
      var c := u.chunkSize as int;
      DivideExactly(b, c, i as int, b - i as int * c);
    }
    if 0 <= b < u.totalSize as int {
      var c := u.chunkSize as int;
      var q := b / c;
      assert b == q * c + b % c;
      TotalChunksBounds(u.totalSize, u.chunkSize);
      assert q <= b;
      var i := q as int64;
      BelowCount(b, c, q, u.totalChunks as int, u.totalSize as int);
      BoundsExist(u, i);
      assert HoldsByte(u, i, b);
    }
  }

  lemma BelowCount(b: int, c: int, q: int, n: int, t: int)
    requires 0 < c && q * c <= b < t <= n * c
    ensures q < n
  {
    assert q >= n ==> q * c >= n * c;
  }

  /****** the rows of upload_chunks ******/

  datatype Chunk = Chunk(uploadId: Id, index: int64, offset: int64, size: int64, sha256: seq<nat>)

  predicate RowAt(u: Upload, chunk: Chunk, index: int64) {
    && ChunkBounds(u, index) == Some((chunk.offset, chunk.size))
    && chunk.uploadId == u.id && chunk.index == index && |chunk.sha256| == 32
  }

  /** The ordered rows are the tiling, each with a 32-byte hash. */
  predicate IsTiling(u: Upload, rows: seq<Chunk>) {
    && |rows| == u.totalChunks as int
    && forall i | 0 <= i < |rows| :: RowAt(u, rows[i], i as int64)
  }

  /** Row by row: the owner, the index, a 32-byte hash, and the bytes from where the row
      before ended to the next multiple of the chunk size or the end of the file. */
  lemma TilingExactly(u: Upload, rows: seq<Chunk>)
    requires WellFormed(u)
    ensures IsTiling(u, rows) <==>
      && |rows| == u.totalChunks as int
      && forall i | 0 <= i < |rows| ::
        && rows[i].uploadId == u.id && rows[i].index as int == i && |rows[i].sha256| == 32
        && rows[i].offset as int == i * u.chunkSize as int
        && rows[i].offset as int + rows[i].size as int == if i == |rows| - 1 then u.totalSize as int else (i + 1) * u.chunkSize as int
  {
    hide WellFormed, ChunkBounds;
    if |rows| == u.totalChunks as int {
      forall i | 0 <= i < |rows|
        ensures RowAt(u, rows[i], i as int64) <==>
          && rows[i].uploadId == u.id && rows[i].index as int == i && |rows[i].sha256| == 32
          && rows[i].offset as int == i * u.chunkSize as int
          && rows[i].offset as int + rows[i].size as int == if i == |rows| - 1 then u.totalSize as int else (i + 1) * u.chunkSize as int
      {
        BoundsExist(u, i as int64);
      }
    }
  }

  datatype Verdict = Accepted | MissingChunks | CallbackFailed

  /** The rows come ordered by chunk_index; `accept` stands for the callback. */
  method ValidateChunks(u: Upload, rows: seq<Chunk>, accept: Chunk -> bool) returns (v: Verdict)
    requires u.totalChunks >= 0
    ensures v.Accepted? <==> IsTiling(u, rows) && forall i | 0 <= i < |rows| :: accept(rows[i])
    ensures v.CallbackFailed? ==> exists i | 0 <= i < |rows| :: !accept(rows[i])
  {
    hide ChunkBounds;
    var index: int64 := 0;
    while index as int < |rows|
      invariant 0 <= index <= u.totalChunks && index as int <= |rows|
      invariant forall i | 0 <= i < index as int :: RowAt(u, rows[i], i as int64) && accept(rows[i])
      decreases |rows| - index as int
    {
      var chunk := rows[index];
      BoundsInside(u, index);
      if !RowAt(u, chunk, index) {
        return MissingChunks;
      }
      if !accept(chunk) {
        return CallbackFailed;
      }
      index := index + 1;
    }
    v := if index != u.totalChunks then MissingChunks else Accepted;
  }

  lemma BoundsInside(u: Upload, index: int64)
    ensures ChunkBounds(u, index).Some? ==> index < u.totalChunks
  {
  }
}
