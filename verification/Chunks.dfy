/** Chunk headers, and how `chunk_config.h` and `chunk_splitter.cpp` cut a file into chunks. */
module Chunks {
  import opened Bytes
  import Crc32

  const MIN_CHUNK_SIZE: nat := 64 * 1024
  const MAX_CHUNK_SIZE: nat := 1024 * 1024

  /** `chunk_config` */
  datatype ChunkConfig = ChunkConfig(chunkSize: nat) {

    function Validate(): (r: Result<()>)
      ensures r.Ok? <==> 0x1_0000 <= chunkSize <= 0x10_0000
    {
      if chunkSize < MIN_CHUNK_SIZE then Err(InvalidChunkSize)
      else if chunkSize > MAX_CHUNK_SIZE then Err(InvalidChunkSize)
      else Ok(())
    }

    function CalculateChunkCount(fileSize: nat): nat
      requires chunkSize > 0
    {
      if fileSize == 0 then 0 else (fileSize + chunkSize - 1) / chunkSize
    }

    /** The count the splitter uses: an empty file still has one (empty) chunk. */
    function TotalChunks(fileSize: nat): (n: nat)
      requires chunkSize > 0
    {
      var count := CalculateChunkCount(fileSize);
      if count == 0 then 1 else count
    }
  }

  datatype TransferId = TransferId(bytes: seq<Byte>)

  datatype ChunkHeader = ChunkHeader(
    id: TransferId,
    chunkIndex: nat,
    chunkOffset: nat,
    originalSize: nat,
    compressedSize: nat,
    checksum: bv32,
    firstChunk: bool,
    lastChunk: bool)

  datatype Chunk = Chunk(header: ChunkHeader, data: seq<Byte>)

  // ---- Arithmetic of the cut -----------------------------------------------

  lemma DivideBounds(n: nat, d: nat)
    requires d > 0
    ensures (n / d) * d <= n < (n / d) * d + d
  {
  }

  /** The chunk count is the least number of chunks that hold the file. */
  lemma ChunkCountIsLeast(config: ChunkConfig, fileSize: nat)
    requires config.chunkSize > 0
    ensures var n := config.CalculateChunkCount(fileSize);
            && fileSize <= n * config.chunkSize
            && forall k: nat :: fileSize <= k * config.chunkSize ==> n <= k
  {
    var d, n := config.chunkSize, config.CalculateChunkCount(fileSize);
    if fileSize > 0 {
      DivideBounds(fileSize + d - 1, d);
    }
    forall k: nat | fileSize <= k * d
      ensures n <= k
    {
      MultiplyMonotone(d, k + 1, n);
    }
  }

  /** Chunk `i` covers the bytes from `Start` up to but not including `End`. */
  function Start(config: ChunkConfig, i: nat): nat {
    i * config.chunkSize
  }

  function End(config: ChunkConfig, fileSize: nat, i: nat): nat
    requires config.chunkSize > 0
  {
    if i == config.TotalChunks(fileSize) - 1 then fileSize else Start(config, i) + config.chunkSize
  }

  lemma ChunkBounds(config: ChunkConfig, fileSize: nat, i: nat)
    requires config.chunkSize > 0 && i < config.TotalChunks(fileSize)
    ensures Start(config, i) <= End(config, fileSize, i) <= fileSize
    ensures End(config, fileSize, i) - Start(config, i) <= config.chunkSize
    ensures fileSize > 0 ==> Start(config, i) < End(config, fileSize, i)
    ensures i + 1 < config.TotalChunks(fileSize) ==> End(config, fileSize, i) == Start(config, i + 1)
    ensures i + 1 == config.TotalChunks(fileSize) ==> End(config, fileSize, i) == fileSize
  {
    var d, n := config.chunkSize, config.TotalChunks(fileSize);
    if fileSize == 0 {
    } else {
      DivideBounds(fileSize + d - 1, d);
      MultiplyMonotone(d, i + 2, n);
      MultiplyMonotone(d, i + 1, n);
      assert (i + 1) * d == i * d + d && (i + 2) * d == i * d + 2 * d;
    }
  }

  lemma StartOrder(config: ChunkConfig, i: nat, j: nat)
    ensures i <= j ==> Start(config, i) <= Start(config, j)
    ensures Start(config, i + 1) == Start(config, i) + config.chunkSize
  {
    MultiplyMonotone(config.chunkSize, i, j);
  }

  lemma StartBefore(config: ChunkConfig, position: nat)
    requires config.chunkSize > 0
    ensures Start(config, position / config.chunkSize) <= position
    ensures position < Start(config, position / config.chunkSize) + config.chunkSize
  {
    DivideBounds(position, config.chunkSize);
  }

  lemma LastEnd(config: ChunkConfig, fileSize: nat)
    requires config.chunkSize > 0
    ensures var n := config.TotalChunks(fileSize); n > 0 && fileSize <= Start(config, n)
  {
    hide ChunkConfig.TotalChunks;
    CountPositive(config, fileSize);
    var n := config.TotalChunks(fileSize);
    ChunkBounds(config, fileSize, n - 1);
    StartOrder(config, n - 1, n);
  }

  lemma CountPositive(config: ChunkConfig, fileSize: nat)
    requires config.chunkSize > 0
    ensures config.TotalChunks(fileSize) > 0
  {
  }

  /** The intervals partition the file: a position lies in chunk `position / chunkSize` and in no other. */
  lemma IntervalsPartition(config: ChunkConfig, fileSize: nat, position: nat, i: nat)
    requires config.chunkSize > 0 && position < fileSize && i < config.TotalChunks(fileSize)
    ensures position / config.chunkSize < config.TotalChunks(fileSize)
    ensures Start(config, i) <= position < End(config, fileSize, i) <==> i == position / config.chunkSize
  {
    hide *;
    var n, j := config.TotalChunks(fileSize), position / config.chunkSize;
    StartBefore(config, position);
    LastEnd(config, fileSize);
    StartOrder(config, n, j);
    ChunkBounds(config, fileSize, i);
    StartOrder(config, i, i + 1);
    StartOrder(config, i + 1, j);
    StartOrder(config, j, j + 1);
    StartOrder(config, j + 1, i);
  }

  // ---- The chunks of a file ------------------------------------------------

  /** Chunk `i` of a file, as the splitter emits it. */
  function ChunkAt(config: ChunkConfig, id: TransferId, content: seq<Byte>, i: nat): (c: Chunk)
    requires config.chunkSize > 0 && i < config.TotalChunks(|content|)
  {
    ChunkBounds(config, |content|, i);
    var data := content[Start(config, i)..End(config, |content|, i)];
    Chunk(ChunkHeader(id, i, Start(config, i), |data|, |data|, Crc32.Crc(data),
                      i == 0, i == config.TotalChunks(|content|) - 1), data)
  }

  function Pieces(config: ChunkConfig, id: TransferId, content: seq<Byte>, n: nat): (p: seq<seq<Byte>>)
    requires config.chunkSize > 0 && n <= config.TotalChunks(|content|)
    ensures |p| == n
  {
    seq(n, i requires 0 <= i < n => ChunkAt(config, id, content, i).data)
  }

  lemma PieceAt(config: ChunkConfig, id: TransferId, content: seq<Byte>, n: nat)
    requires config.chunkSize > 0 && n < config.TotalChunks(|content|)
    ensures Start(config, n) <= End(config, |content|, n) <= |content|
    ensures Pieces(config, id, content, n + 1) ==
            Pieces(config, id, content, n) + [content[Start(config, n)..End(config, |content|, n)]]
  {
    hide ChunkConfig.TotalChunks, Crc32.Crc;
    ChunkBounds(config, |content|, n);
    assert ChunkAt(config, id, content, n).data == content[Start(config, n)..End(config, |content|, n)];
  }

  lemma FirstPiece(config: ChunkConfig, id: TransferId, content: seq<Byte>)
    requires config.chunkSize > 0
    ensures Pieces(config, id, content, 0) == [] && Start(config, 0) == 0
  {
  }

  lemma {:induction false} PiecesOfPrefix(config: ChunkConfig, id: TransferId, content: seq<Byte>, n: nat)
    requires config.chunkSize > 0 && 0 < n <= config.TotalChunks(|content|)
    ensures End(config, |content|, n - 1) <= |content|
    ensures Concat(Pieces(config, id, content, n)) == content[..End(config, |content|, n - 1)]
  {
    hide *;
    PieceAt(config, id, content, n - 1);
    var from, to := Start(config, n - 1), End(config, |content|, n - 1);
    ConcatAppend(Pieces(config, id, content, n - 1), content[from..to]);
    if n > 1 {
      PiecesOfPrefix(config, id, content, n - 1);
      ChunkBounds(config, |content|, n - 2);
      assert content[..from] + content[from..to] == content[..to];
    } else {
      FirstPiece(config, id, content);
      ConcatEmpty();
    }
  }

  /** The chunks of a file, one after the other, are the file; only the empty file has an empty chunk. */
  lemma SplitLosesNothing(config: ChunkConfig, id: TransferId, content: seq<Byte>)
    requires config.chunkSize > 0
    ensures Concat(Pieces(config, id, content, config.TotalChunks(|content|))) == content
    ensures forall i: nat :: i < config.TotalChunks(|content|) ==>
                               var n := |ChunkAt(config, id, content, i).data|;
                               n <= config.chunkSize && (n == 0 <==> content == []) &&
                               (i + 1 < config.TotalChunks(|content|) ==> n == config.chunkSize)
  {
    var n := config.TotalChunks(|content|);
    PiecesOfPrefix(config, id, content, n);
    ChunkBounds(config, |content|, n - 1);
    forall i: nat | i < n
      ensures var k := |ChunkAt(config, id, content, i).data|;
              k <= config.chunkSize && (k == 0 <==> content == []) && (i + 1 < n ==> k == config.chunkSize)
    {
      ChunkBounds(config, |content|, i);
    }
  }

  /**
   The header of each chunk: its place in the list, the number of bytes in the
   chunks before it, its own length and checksum, and whether it is the first
   or the last one.
   */
  lemma HeaderMeans(config: ChunkConfig, id: TransferId, content: seq<Byte>, i: nat)
    requires config.chunkSize > 0 && i < config.TotalChunks(|content|)
    ensures var c := ChunkAt(config, id, content, i); var h := c.header;
            && h.id == id && h.chunkIndex == i && h.chunkOffset == |Concat(Pieces(config, id, content, i))|
            && h.originalSize == h.compressedSize == |c.data| && h.checksum == Crc32.Crc(c.data)
            && (h.firstChunk <==> h.chunkIndex == 0)
            && (h.lastChunk <==> h.chunkOffset + |c.data| == |content|)
  {
    hide ChunkConfig.TotalChunks, Crc32.Crc, Concat;
    ChunkBounds(config, |content|, i);
    if i == 0 {
      FirstPiece(config, id, content);
      ConcatEmpty();
    } else {
      ChunkBounds(config, |content|, i - 1);
      PiecesOfPrefix(config, id, content, i);
    }
    if i + 1 < config.TotalChunks(|content|) {
      NextStart(config, |content|, i);
    }
  }

  lemma NextStart(config: ChunkConfig, fileSize: nat, i: nat)
    requires config.chunkSize > 0 && i + 1 < config.TotalChunks(fileSize)
    ensures End(config, fileSize, i) < fileSize
  {
    ChunkBounds(config, fileSize, i);
    ChunkBounds(config, fileSize, i + 1);
  }
}
