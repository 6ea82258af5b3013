/** The chunk iterator and the metadata calculation of `chunk_splitter.cpp`. */
module ChunkSplitter {
  import opened Bytes
  import opened Chunks
  import Crc32
  import Hex
  import Sha256

  datatype FileMetadata = FileMetadata(
    filename: string,
    fileSize: nat,
    chunkSize: nat,
    totalChunks: nat,
    sha256Hash: string)

  /** `chunk_splitter::chunk_iterator` over a file whose bytes are `file`. */
  class ChunkIterator {
    const file: seq<Byte>
    const config: ChunkConfig
    const transferId: TransferId
    const fileSize: nat
    const totalChunks: nat
    const buffer: array<Byte>
    var currentIndex: nat
    var good: bool

    ghost predicate Valid()
      reads this
    {
      && config.chunkSize > 0
      && fileSize == |file|
      && totalChunks == config.TotalChunks(fileSize)
      && currentIndex <= totalChunks
      && buffer.Length == config.chunkSize
    }

    constructor (file: seq<Byte>, config: ChunkConfig, id: TransferId)
      requires config.chunkSize > 0
      ensures Valid() && fresh(buffer)
      ensures this.file == file && this.config == config && transferId == id
      ensures currentIndex == 0 && good
    {
      this.file := file;
      this.config := config;
      this.transferId := id;
      this.fileSize := |file|;
      this.totalChunks := config.TotalChunks(|file|);
      this.buffer := new Byte[config.chunkSize](_ => 0);
      this.currentIndex := 0;
      this.good := true;
    }

    predicate HasNext()
      reads this
    {
      currentIndex < totalChunks
    }

    /** `next`; `readable` is false when the file system fails the seek or the read. */
    method Next(readable: bool) returns (r: Result<Chunk>)
      requires Valid()
      modifies this`currentIndex, this`good, buffer
      ensures Valid()
      ensures !old(HasNext()) ==> r == Err(InvalidChunkIndex) && currentIndex == old(currentIndex) && good == old(good)
      ensures old(HasNext()) && !(old(good) && readable) ==>
                r == Err(FileReadError) && currentIndex == old(currentIndex) && !good
      ensures old(HasNext()) && old(good) && readable ==>
                && r == Ok(ChunkAt(config, transferId, file, old(currentIndex)))
                && currentIndex == old(currentIndex) + 1 && good
    {
      if !HasNext() {
        return Err(InvalidChunkIndex);
      }
      if !good {
        return Err(FileReadError);
      }
      hide Crc32.Crc, ChunkConfig.TotalChunks;
      ChunkBounds(config, fileSize, currentIndex);
      var offset := currentIndex * config.chunkSize;
      var bytesToRead := config.chunkSize;
      if currentIndex == totalChunks - 1 {
        bytesToRead := fileSize - offset;
      }
      if !readable {
        good := false;
        return Err(FileReadError);
      }
      Read(offset, bytesToRead);
      var data := buffer[..bytesToRead];
      var checksum := Crc32.ComputeCrc32(data);
      var header := ChunkHeader(transferId, currentIndex, offset, bytesToRead, bytesToRead, checksum,
                                currentIndex == 0, currentIndex == totalChunks - 1);
      assert data == file[Start(config, currentIndex)..End(config, fileSize, currentIndex)];
      currentIndex := currentIndex + 1;
      r := Ok(Chunk(header, data));
    }

    /** `file_.read` into the reused buffer. */
    method Read(offset: nat, count: nat)
      requires offset + count <= |file| && count <= buffer.Length
      modifies buffer
      ensures buffer[..count] == file[offset..offset + count]
    {
      for k := 0 to count
        invariant forall j :: 0 <= j < k ==> buffer[j] == file[offset + j]
      {
        buffer[k] := file[offset + k];
      }
    }
  }

  /** `chunk_splitter::split`; the flags report the file-system checks it makes. */
  method Split(config: ChunkConfig, file: seq<Byte>, id: TransferId, exists_: bool, accessible: bool)
    returns (r: Result<ChunkIterator>)
    ensures r.Ok? <==> config.Validate().Ok? && exists_ && accessible
    ensures r.Err? ==> r.error == if config.Validate().Err? then InvalidChunkSize
                                  else if !exists_ then FileNotFound else FileAccessDenied
    ensures r.Ok? ==>
              && fresh(r.value) && fresh(r.value.buffer) && r.value.Valid() && r.value.good
              && r.value.file == file && r.value.config == config && r.value.transferId == id
              && r.value.currentIndex == 0 && r.value.HasNext()
  {
    if config.Validate().Err? {
      return Err(InvalidChunkSize);
    }
    if !exists_ {
      return Err(FileNotFound);
    }
    if !accessible {
      return Err(FileAccessDenied);
    }
    var it := new ChunkIterator(file, config, id);
    r := Ok(it);
  }

  /** `chunk_splitter::calculate_metadata`: the count agrees with the iterator's, the hash is the file's digest. */
  method CalculateMetadata(config: ChunkConfig, file: seq<Byte>, filename: string, exists_: bool, accessible: bool,
                           opens: bool)
    returns (r: Result<FileMetadata>)
    requires config.chunkSize > 0
    ensures r == if !exists_ then Err(FileNotFound)
                 else if !accessible then Err(FileAccessDenied)
                 else if !opens then Err(FileNotFound)
                 else Ok(FileMetadata(filename, |file|, config.chunkSize, config.TotalChunks(|file|),
                                      Hex.Text(Sha256.Digest(file))))
  {
    if !exists_ {
      return Err(FileNotFound);
    }
    if !accessible {
      return Err(FileAccessDenied);
    }
    var hash := Sha256.Sha256File(file, opens);
    if hash.Err? {
      return Err(hash.error);
    }
    var totalChunks := config.CalculateChunkCount(|file|);
    if totalChunks == 0 {
      totalChunks := 1;
    }
    r := Ok(FileMetadata(filename, |file|, config.chunkSize, totalChunks, hash.value));
  }
}
