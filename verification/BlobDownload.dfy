/**
 The download stream of `azure_blob_storage.cpp`: each read asks the server for
 one byte range. Offsets are 64-bit and wrap, which the code meets when it
 computes the last byte of an empty range.
 */
module BlobDownload {
  import opened Bytes
  import BlobUpload
  import UploadStream

  const WORD: nat := 0x1_0000_0000_0000_0000

  /**
   A server that honours byte ranges (section 15.3.7 of RFC 9110). A range
   whose last byte comes before its first is invalid, and an invalid range is
   answered with the whole blob.
   */
  function FetchRange(blob: seq<Byte>, start: nat, end: nat): seq<Byte>
    requires start < |blob|
  {
    if start > end then blob
    else blob[start..if end + 1 <= |blob| then end + 1 else |blob|]
  }

  /** `start + size - 1`, computed modulo 2^64, but not past the last byte of the blob. */
  function LastByte(start: nat, size: nat, total: nat): (end: nat)
    requires start < total < WORD && size < WORD
    ensures end < total
  {
    Min((start + size + WORD - 1) % WORD, total - 1)
  }

  /** The end of the range is the last byte wanted, unless the sum wraps around. */
  lemma LastByteMeaning(start: nat, size: nat, total: nat)
    requires start < total && 0 < size && start + size < WORD && total < WORD
    ensures LastByte(start, size, total) == Min(start + size, total) - 1
  {
  }

  /** `azure_blob_download_stream` on a fixed blob; `initialized` is false when the HEAD request failed. */
  class DownloadStream {
    const blob: seq<Byte>
    const totalSize: nat
    const initialized: bool
    var bytesRead: nat

    ghost predicate Valid()
      reads this
    {
      bytesRead <= totalSize == |blob| < WORD
    }

    constructor (blob: seq<Byte>, initialized: bool)
      requires |blob| < WORD
      ensures Valid() && this.blob == blob && this.initialized == initialized && bytesRead == 0
    {
      this.blob, this.totalSize, this.initialized, bytesRead := blob, |blob|, initialized, 0;
    }

    predicate HasMore()
      reads this
    {
      bytesRead < totalSize
    }

    /** `read`; the buffer keeps its bytes behind the count. `answers` is false when the request fails. */
    method Read(buffer: array<Byte>, answers: bool) returns (r: Result<nat>)
      requires Valid() && buffer.Length + totalSize < WORD
      modifies this`bytesRead, buffer
      ensures Valid()
      ensures !initialized ==> r == Err(NotInitialized)
      ensures initialized && !old(HasMore()) ==> r == Ok(0)
      ensures initialized && old(HasMore()) && !answers ==> r == Err(InternalError)
      ensures initialized && old(HasMore()) && answers ==> r == Ok(Min(buffer.Length, totalSize - old(bytesRead)))
      ensures r.Err? ==> bytesRead == old(bytesRead) && buffer[..] == old(buffer[..])
      ensures r.Ok? ==>
                && bytesRead == old(bytesRead) + r.value && r.value <= buffer.Length
                && buffer[..r.value] == blob[old(bytesRead)..bytesRead]
                && buffer[r.value..] == old(buffer[r.value..])
    {
      if !initialized {
        return Err(NotInitialized);
      }
      if bytesRead >= totalSize {
        return Ok(0);
      }
      var start := bytesRead;
      var end := LastByte(start, buffer.Length, totalSize);
      if !answers {
        return Err(InternalError);
      }
      var data := FetchRange(blob, start, end);
      var bytesToCopy := Min(|data|, buffer.Length);
      if buffer.Length > 0 {
        LastByteMeaning(start, buffer.Length, totalSize);
        assert |data| == Min(buffer.Length, totalSize - start) && data == blob[start..start + |data|];
      }
      forall k | 0 <= k < bytesToCopy {
        buffer[k] := data[k];
      }
      bytesRead := bytesRead + bytesToCopy;
      r := Ok(bytesToCopy);
    }
  }

  // ---- Reading a whole blob ------------------------------------------------

  /** The position after a successful read with a buffer of the given size, as `Read` guarantees it. */
  function Position(total: nat, position: nat, size: nat): nat {
    if position >= total then position else position + Min(size, total - position)
  }

  /** The bytes that a sequence of reads with these buffer sizes returns. */
  function ReadAll(blob: seq<Byte>, position: nat, sizes: seq<nat>): (data: seq<Byte>)
    requires position <= |blob|
    decreases |sizes|
  {
    if sizes == [] then []
    else
      var next := Position(|blob|, position, sizes[0]);
      blob[position..next] + ReadAll(blob, next, sizes[1..])
  }

  function EndPosition(total: nat, position: nat, sizes: seq<nat>): nat
    decreases |sizes|
  {
    if sizes == [] then position else EndPosition(total, Position(total, position, sizes[0]), sizes[1..])
  }

  function Sum(sizes: seq<nat>): nat {
    if sizes == [] then 0 else sizes[0] + Sum(sizes[1..])
  }

  /**
   Whatever the buffer sizes: the reads return the blob from the start
   position on, as far as the buffers reach; the end is reached exactly when
   they reach that far.
   */
  lemma {:induction false} ReadsAreContiguous(blob: seq<Byte>, position: nat, sizes: seq<nat>)
    requires position <= |blob|
    ensures EndPosition(|blob|, position, sizes) == Min(position + Sum(sizes), |blob|)
    ensures ReadAll(blob, position, sizes) == blob[position..EndPosition(|blob|, position, sizes)]
    decreases |sizes|
  {
    if sizes != [] {
      var next := Position(|blob|, position, sizes[0]);
      ReadsAreContiguous(blob, next, sizes[1..]);
      var end := EndPosition(|blob|, position, sizes);
      assert blob[position..next] + blob[next..end] == blob[position..end];
    }
  }

  lemma {:induction false} SumOfNonEmpty(sizes: seq<nat>)
    requires forall k :: 0 <= k < |sizes| ==> sizes[k] > 0
    ensures Sum(sizes) >= |sizes|
  {
    if sizes != [] {
      SumOfNonEmpty(sizes[1..]);
    }
  }

  /** Non-empty buffers: every read before the end gets closer to it, and as many reads as bytes are enough. */
  lemma ReadingTerminates(blob: seq<Byte>, sizes: seq<nat>)
    requires forall k :: 0 <= k < |sizes| ==> sizes[k] > 0
    ensures |sizes| >= |blob| ==> ReadAll(blob, 0, sizes) == blob && EndPosition(|blob|, 0, sizes) == |blob|
    ensures forall p: nat, size: nat :: p < |blob| && size > 0 ==>
                                          |blob| - Position(|blob|, p, size) < |blob| - p
  {
    SumOfNonEmpty(sizes);
    ReadsAreContiguous(blob, 0, sizes);
  }

  // ---- Loops over `read` ---------------------------------------------------

  /** One read request of a caller: the size of its buffer, and whether the server answers. */
  datatype Request = Request(size: nat, answers: bool)

  /** The sizes of the buffers whose request was answered. */
  function AnsweredSizes(requests: seq<Request>): seq<nat> {
    if requests == [] then []
    else AnsweredSizes(requests[..|requests| - 1]) +
         if requests[|requests| - 1].answers then [requests[|requests| - 1].size] else []
  }

  lemma ReadFirst(blob: seq<Byte>, position: nat, size: nat, sizes: seq<nat>)
    requires position <= |blob|
    ensures var next := Position(|blob|, position, size);
            && position <= next <= |blob|
            && EndPosition(|blob|, position, [size] + sizes) == EndPosition(|blob|, next, sizes)
            && ReadAll(blob, position, [size] + sizes) == blob[position..next] + ReadAll(blob, next, sizes)
  {
    assert ([size] + sizes)[1..] == sizes;
  }

  lemma {:induction false} ReadOneMore(blob: seq<Byte>, position: nat, sizes: seq<nat>, size: nat)
    requires position <= |blob|
    ensures var end := EndPosition(|blob|, position, sizes);
            && end <= |blob|
            && Position(|blob|, end, size) <= |blob| && end <= Position(|blob|, end, size)
            && EndPosition(|blob|, position, sizes + [size]) == Position(|blob|, end, size)
            && ReadAll(blob, position, sizes + [size]) ==
               ReadAll(blob, position, sizes) + blob[end..Position(|blob|, end, size)]
    decreases |sizes|
  {
    if sizes == [] {
      ReadFirst(blob, position, size, []);
      assert [] + [size] == [size] + [];
    } else {
      hide *;
      var first, rest := sizes[0], sizes[1..];
      assert sizes == [first] + rest && sizes + [size] == [first] + (rest + [size]);
      ReadFirst(blob, position, first, rest);
      ReadFirst(blob, position, first, rest + [size]);
      ReadOneMore(blob, Position(|blob|, position, first), rest, size);
    }
  }

  /** One `read` into a fresh buffer. */
  method ReadChunk(stream: DownloadStream, request: Request) returns (data: seq<Byte>)
    requires stream.Valid() && stream.initialized && request.size + stream.totalSize < WORD
    modifies stream`bytesRead
    ensures stream.Valid() && old(stream.bytesRead) <= stream.bytesRead
    ensures data == stream.blob[old(stream.bytesRead)..stream.bytesRead]
    ensures stream.bytesRead ==
            if request.answers then Position(stream.totalSize, old(stream.bytesRead), request.size)
            else old(stream.bytesRead)
  {
    var buffer := new Byte[request.size];
    var r := stream.Read(buffer, request.answers);
    data := if r.Ok? then buffer[..r.value] else [];
  }

  /**
   Calls `read` once for each request, and keeps what it returns. Together the
   calls return what `ReadAll` says for the answered requests; a request that
   fails costs nothing but itself.
   */
  method ReadRequests(stream: DownloadStream, requests: seq<Request>) returns (data: seq<Byte>)
    requires stream.Valid() && stream.initialized
    requires forall k :: 0 <= k < |requests| ==> requests[k].size + stream.totalSize < WORD
    modifies stream`bytesRead
    ensures stream.Valid() && old(stream.bytesRead) <= stream.bytesRead
    ensures data == ReadAll(stream.blob, old(stream.bytesRead), AnsweredSizes(requests))
    ensures stream.bytesRead == EndPosition(stream.totalSize, old(stream.bytesRead), AnsweredSizes(requests))
    ensures data == stream.blob[old(stream.bytesRead)..stream.bytesRead]
  {
    hide ReadAll, EndPosition, Position, AnsweredSizes;
    data := [];
    ghost var start := stream.bytesRead;
    ReadNothing(stream.blob, start);
    assert requests[..0] == [];
    for k := 0 to |requests|
      invariant stream.Valid() && start <= stream.bytesRead
      invariant data == ReadAll(stream.blob, start, AnsweredSizes(requests[..k]))
      invariant stream.bytesRead == EndPosition(stream.totalSize, start, AnsweredSizes(requests[..k]))
    {
      AnsweredOneMore(requests, k);
      ReadOneMore(stream.blob, start, AnsweredSizes(requests[..k]), requests[k].size);
      var piece := ReadChunk(stream, requests[k]);
      data := data + piece;
    }
    assert requests[..|requests|] == requests;
    ReadsAreContiguous(stream.blob, start, AnsweredSizes(requests));
  }

  lemma ReadNothing(blob: seq<Byte>, position: nat)
    requires position <= |blob|
    ensures ReadAll(blob, position, []) == [] && EndPosition(|blob|, position, []) == position
    ensures AnsweredSizes([]) == []
  {
  }

  lemma AnsweredOneMore(requests: seq<Request>, k: nat)
    requires k < |requests|
    ensures AnsweredSizes(requests[..k + 1]) ==
            if requests[k].answers then AnsweredSizes(requests[..k]) + [requests[k].size]
            else AnsweredSizes(requests[..k])
  {
    assert requests[..k + 1][..k] == requests[..k];
  }

  /**
   Reads while there is more, with any non-empty buffers: the rest of the
   blob, and then `has_more` is false. At each position the first `fails`
   requests stay unanswered, and the caller tries again.
   */
  method ReadToEnd(stream: DownloadStream, sizes: nat -> nat, fails: nat -> nat) returns (data: seq<Byte>)
    requires stream.Valid() && stream.initialized
    requires forall p :: 0 < sizes(p) && sizes(p) + stream.totalSize < WORD
    modifies stream`bytesRead
    ensures stream.Valid() && !stream.HasMore()
    ensures data == stream.blob[old(stream.bytesRead)..]
  {
    data := [];
    ghost var start := stream.bytesRead;
    var left: nat := fails(stream.bytesRead);
    while stream.HasMore()
      invariant stream.Valid() && start <= stream.bytesRead && data == stream.blob[start..stream.bytesRead]
      decreases stream.totalSize - stream.bytesRead, left
    {
      ghost var before := stream.bytesRead;
      var piece := ReadChunk(stream, Request(sizes(stream.bytesRead), left == 0));
      assert stream.blob[start..before] + stream.blob[before..stream.bytesRead] == stream.blob[start..stream.bytesRead];
      data := data + piece;
      left := if left > 0 then left - 1 else fails(stream.bytesRead);
    }
  }

  /**
   What an upload stream has committed, read back through a download stream:
   all the bytes ever handed to `write`, if no call on the upload stream
   failed, and the bytes it accepted, if no finalize broke.
   */
  method Download(upload: UploadStream.AzureUploadStream, sizes: nat -> nat, fails: nat -> nat)
    returns (data: seq<Byte>)
    requires upload.Valid() && upload.committed.Blob? && |upload.committed.content| < WORD
    requires forall p :: 0 < sizes(p) && sizes(p) + |upload.committed.content| < WORD
    ensures data == upload.committed.content
    ensures !upload.model.anyFailure ==> data == upload.model.handed
    ensures upload.model.brokenFinals == 0 ==> data == upload.model.accepted
  {
    hide BlobUpload.Run;
    BlobUpload.ErrorFreeCommit(upload.partSize, upload.maxConcurrentParts, upload.trace);
    BlobUpload.CommitIsFaithful(upload.partSize, upload.maxConcurrentParts, upload.trace);
    var stream := new DownloadStream(upload.committed.content, true);
    data := ReadToEnd(stream, sizes, fails);
  }

  /**
   Written through the upload stream in any pieces, read back through the
   download stream with any buffer sizes: once `has_more` is false the bytes
   read are the bytes written; before that they are a prefix of them.
   */
  lemma UploadThenDownload(partSize: nat, maxParallel: nat, events: seq<BlobUpload.Event>, sizes: seq<nat>)
    requires partSize > 0
    ensures var s := BlobUpload.Run(BlobUpload.Init(partSize, maxParallel), events);
            s.committed.Blob? && !s.anyFailure ==>
              var blob := s.committed.content;
              && ReadAll(blob, 0, sizes) <= s.handed
              && (EndPosition(|blob|, 0, sizes) == |blob| <==> ReadAll(blob, 0, sizes) == s.handed)
              && (Sum(sizes) >= |s.handed| ==> ReadAll(blob, 0, sizes) == s.handed)
  {
    hide BlobUpload.Run;
    BlobUpload.ErrorFreeCommit(partSize, maxParallel, events);
    var s := BlobUpload.Run(BlobUpload.Init(partSize, maxParallel), events);
    if s.committed.Blob? {
      ReadsAreContiguous(s.committed.content, 0, sizes);
    }
  }
}
