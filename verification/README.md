# Verified model of file_trans_system

This project models the algorithmic cores of file_trans_system, a C++ library
that moves files in chunks and to cloud storage, and proves what they are for:
the bytes that arrive are the bytes that were sent.

`dafny verify dfyconfig.toml` checks everything.

## How the model is built

| module | source | form |
|---|---|---|
| `Bytes`, `Hex` | shared | byte strings, results, digest text |
| `Crc32`, `Sha256` | `src/core/checksum.cpp` | loops over arrays, proved against a bit-serial division and against pad-then-fold |
| `CrcValues`, `Sha256Values` | `src/core/checksum.cpp` | the residue and the check value of the CRC; the bit functions, the constants and the digest of "abc" |
| `KnownAnswers` | several | known answers of the text codecs and of the digest text, as literals |
| `Chunks`, `ChunkSplitter` | `chunk_config.h`, `src/core/chunk_splitter.cpp` | interval arithmetic; the iterator as a class |
| `ChunkAssembler`, `Delivery`, `HeaderDamage` | `src/core/chunk_assembler.cpp` | a class, the step function it is proved to follow, invariants over all runs, the end-to-end theorem, and what header damage does |
| `BlockIds`, `BlobUpload`, `UploadStream`, `BlobDownload` | `src/cloud/azure_blob_storage.cpp` | a step system of caller, asynchronous uploads and server; the upload code as a class proved to follow it; the download stream as a class |
| `BandwidthLimiter` | `src/core/bandwidth_limiter.cpp` | steps on a bucket of reals, and the class proved to take them |
| `Base64`, `UrlEncoding` | `src/cloud/cloud_utils.cpp` | the loops, proved against functions with inverses |
| `TransferIds` | `src/core/transfer_id.cpp` | the loops, proved against functions with inverses |
| `TransferPool` | `src/adapters/thread_pool_adapter.cpp` | interleaved steps of tasks and counters |
| `UploadControl`, `UploadClient` | `src/client/file_transfer_client.cpp` | the locked regions of all threads as steps, and a class proved to take them while others interleave |

What lies outside a component enters as a parameter: whether a file opens, a
write or a rename succeeds, what the clock says, which upload ends when and
how, what the server answers, the two random numbers of a transfer id. Machine
words are bit vectors in `Crc32` and `Sha256`. Where the code meets the width
of its integers the wrap-around is written out: the accumulator of the base64
decoder, the ends of byte ranges, the bit length of a SHA-256 message, the
active-task counter. All other counters, sizes and offsets are unbounded. In
`Base64` and `TransferIds` shifts and masks are written as multiplication,
division and remainder.

`UploadStream` takes the completions of asynchronous uploads from a schedule
and lets them happen between the steps of the calling thread. A call that
would wait longer than the schedule lasts is reported as still running,
together with what it waits for, and only when the schedule is used up. Besides
the asynchronous uploads that `NeverOverCap` bounds, only the one synchronous
upload of the calling thread in `finalize` can be in flight. `UploadClient` and
the waits of `Limiter.Acquire` let other threads in from a schedule in the same
way.

## Where the code and its purpose part

Each of these is a property that does not hold for all inputs; the code is
modelled as it is, with the exact condition and a concrete case.

- `finalize` pushes the id of the last block before uploading it. If it then
  fails and is called again, the block is named twice
  (`RetriedFinalizeRepeatsLastBlock`). The committed list names each block once
  if and only if no finalize failed after naming its block (`CommitIsFaithful`).
- `acquire` of more than the capacity, beyond one microsecond of tokens, never
  returns while the limit stays as it is (`AcquireReturnsIff`, `Starves`,
  `TwoBytesStarve`). A deficit below one microsecond is granted at once, which
  leaves the bucket slightly negative (`RunInRange`, `SlackIsNeeded`).
- `upload_file` sets the state to transferring under its second lock without a
  look at the transition rules; an upload cancelled in between is revived
  (`BrokenIffCancelledTooEarly`, `CancelledUploadRevives`). In runs that only use
  handles already returned to the caller this cannot occur (`RunsAreValid`).
- The id list of `upload_files` is longer than the file list by the number of
  failed starts (`ListLengthIff`, `ThreeEntriesForTwoFiles`).
- `finalize` of the assembler removes an existing output file before it
  renames; when only the rename fails, the old file is lost (`OutputLostIff`,
  `RenameLosesOldFile`).
- The CRC covers the data of a chunk and not its header. A chunk with a wrong
  offset, a wrong index or both is accepted (`HeaderIsNotGuarded`).
  `HeaderMattersIff` names the harmless ones exactly, `OffsetMattersIff` and
  `IndexMattersIff` say it for one wrong field, and `HarmDecides` carries it to
  the delivered file (`WrongFileDelivered` is a case). `Delivery` assumes intact
  headers.
- When `std::async` finds no thread, the counters of the pool have gone up and
  nobody brings them down: they are zero at rest if and only if a thread was
  found for every task (`ZeroAtRestIff`, `LostTaskIsCounted`).

## Model

| member | source | states |
|---|---|---|
| `Crc32.GenerateTable` | src/core/checksum.cpp:22-41 | the table loops fill an array whose 256 entries are each eight bit-steps of their index |
| `Crc32.ComputeCrc32` | src/core/checksum.cpp:187-196 | the table-driven loop equals the bit-at-a-time reflected division by 0xEDB88320, for every byte sequence |
| `Crc32.VerifyCrc32` | src/core/checksum.cpp:198-200 | accepts exactly if the bit-serial CRC of the data is the expected value |
| `Crc32.ShiftLinear` | src/core/checksum.cpp:27-35 | the bit-step is linear over exclusive-or |
| `Crc32.ShiftInjective` | src/core/checksum.cpp:27-35 | the bit-step loses no information: different registers stay different |
| `Crc32.TableStep` | src/core/checksum.cpp:191-193 | eight bit-steps of any register are one table look-up and a shift by a byte |
| `Crc32.DivideInjective` | src/core/checksum.cpp:187-196 | the same message from two different registers never leads to the same register |
| `Crc32.WindowDetected` | src/core/checksum.cpp:187-196 | from one register, two different bit strings of the same length of at most 32 never lead to the same register |
| `Crc32.CrcDetectsBurst` | src/core/checksum.cpp:187-200 | two byte strings that differ inside one burst of at most 32 bits, anywhere and at any bit offset, never have the same CRC |
| `Crc32.CrcDetectsByteWindow` | src/core/checksum.cpp:187-200 | replacing at most four consecutive bytes by others always changes the CRC, whatever stands before and after |
| `CrcValues.Residue` | src/core/checksum.cpp:187-196 | a message followed by its own CRC in little-endian order has the CRC 0x2144DF1C, for every message |
| `CrcValues.CheckValue` | src/core/checksum.cpp:19-41 | the check value of this CRC: the nine bytes 123456789 give 0xCBF43926 |
| `Sha256.PrepareSchedule` | src/core/checksum.cpp:70-86 | the schedule array holds words 0 to 63 of section 6.2.2 of FIPS 180-4 for the block |
| `Sha256.Transform` | src/core/checksum.cpp:68-123 | the in-place update of the state array is the compression function of the old state and the block |
| `Sha256.BigEndianValue` | src/core/checksum.cpp:155-159 | the big-endian bytes of a number denote that number, whenever it fits |
| `Sha256.BigEndianTruncates` | src/core/checksum.cpp:155-159 | the low bytes survive the reduction of the bit length modulo 2^64 |
| `Sha256.PadIsStandard` | src/core/checksum.cpp:126-173 | for every message below 2^61 bytes the padded message is the message, 0x80, the least number of zero bytes, and eight bytes that denote the bit length; its length is a multiple of 64 |
| `Sha256.FoldAppend` | src/core/checksum.cpp:126-173 | hashing the blocks of a concatenation is hashing one part after the other |
| `Sha256.FinishPadding` | src/core/checksum.cpp:233-252 | the padding of the driver, with one or two last blocks, has the effect of folding the rest and the trailer, for every position in the block |
| `Sha256.ComputeSha256` | src/core/checksum.cpp:126-173 | the in-memory driver returns the digest of the padded message, for every length |
| `Sha256.Sha256File` | src/core/checksum.cpp:202-260 | the file driver, which reads 64 bytes at a time and may read 0 bytes last, returns the text of the same digest, or file_not_found |
| `Sha256.VerifySha256` | src/core/checksum.cpp:262-269 | accepts exactly if the file opens and its digest prints as the expected text |
| `Sha256.Sha256Text` | src/core/checksum.cpp:271-274 | the text of the in-memory digest |
| `Sha256Values.ChChooses` | src/core/checksum.cpp:98 | for all words, ch takes each bit from its second argument where the first is set and from the third elsewhere |
| `Sha256Values.MajIsMajority` | src/core/checksum.cpp:101 | for all words, maj is set exactly where at least two of its arguments are |
| `Sha256Values.RotrRotates` | src/core/checksum.cpp:63-65 | for all words and all amounts in use, the two shifts rotate to the right |
| `Sha256Values.RoundConstants0` | src/core/checksum.cpp:44-55 | round constants 0 to 7 are the first 32 fraction bits of the cube roots of their primes, as integer inequalities |
| `Sha256Values.RoundConstants1` | src/core/checksum.cpp:44-55 | round constants 8 to 15 are the first 32 fraction bits of the cube roots of their primes, as integer inequalities |
| `Sha256Values.RoundConstants2` | src/core/checksum.cpp:44-55 | round constants 16 to 23 are the first 32 fraction bits of the cube roots of their primes, as integer inequalities |
| `Sha256Values.RoundConstants3` | src/core/checksum.cpp:44-55 | round constants 24 to 31 are the first 32 fraction bits of the cube roots of their primes, as integer inequalities |
| `Sha256Values.RoundConstants4` | src/core/checksum.cpp:44-55 | round constants 32 to 39 are the first 32 fraction bits of the cube roots of their primes, as integer inequalities |
| `Sha256Values.RoundConstants5` | src/core/checksum.cpp:44-55 | round constants 40 to 47 are the first 32 fraction bits of the cube roots of their primes, as integer inequalities |
| `Sha256Values.RoundConstants6` | src/core/checksum.cpp:44-55 | round constants 48 to 55 are the first 32 fraction bits of the cube roots of their primes, as integer inequalities |
| `Sha256Values.RoundConstants7` | src/core/checksum.cpp:44-55 | round constants 56 to 63 are the first 32 fraction bits of the cube roots of their primes, as integer inequalities |
| `Sha256Values.InitialValue` | src/core/checksum.cpp:58-60 | the initial hash value is the first 32 fraction bits of the square roots of the first eight primes |
| `Sha256Values.DigestOfAbc` | src/core/checksum.cpp:68-174 | the digest of abc is the 32 bytes that FIPS 180-4 gives, by way of every schedule word and every round |
| `KnownAnswers.TextOfAbc` | src/core/checksum.cpp:176-183 | and it prints as the text that FIPS 180-4 gives |
| `Hex.TextInjective` | src/core/checksum.cpp:176-183 | digests with the same text are the same |
| `Chunks.ChunkConfig.Validate` | include/kcenon/file_transfer/core/chunk_config.h:46-58 | a chunk size is valid exactly from 64 KiB to 1 MiB |
| `Chunks.ChunkCountIsLeast` | include/kcenon/file_transfer/core/chunk_config.h:65-68 | the chunk count is the least number of chunks that cover the file |
| `Chunks.ChunkBounds` | src/core/chunk_splitter.cpp:64-129 | every chunk lies in the file, is at most one chunk size long and ends where the next begins; the last ends at the end of the file |
| `Chunks.IntervalsPartition` | src/core/chunk_splitter.cpp:64-129 | every position of the file lies in exactly one chunk, the one numbered position / chunk size |
| `Chunks.SplitLosesNothing` | src/core/chunk_splitter.cpp:64-129 | the data of all chunks in order is the file; the empty file has one empty chunk |
| `Chunks.HeaderMeans` | src/core/chunk_splitter.cpp:99-126 | the offset in a header is the number of bytes in the chunks before it, the flags mark the chunk with index 0 and the one that ends with the file, sizes and checksum are those of the data |
| `ChunkSplitter.ChunkIterator.constructor` | src/core/chunk_splitter.cpp:14-27 | the iterator starts at chunk 0 of the file |
| `ChunkSplitter.ChunkIterator.Next` | src/core/chunk_splitter.cpp:64-129 | returns the chunk at the current index with its offset, flags, data and CRC and advances, or reports the error and how far the iterator has moved |
| `ChunkSplitter.ChunkIterator.Read` | src/core/chunk_splitter.cpp:83-99 | the reused buffer then starts with the bytes at the offset |
| `ChunkSplitter.Split` | src/core/chunk_splitter.cpp:149-186 | succeeds exactly for a valid configuration and an accessible file, with an iterator over that file |
| `ChunkSplitter.CalculateMetadata` | src/core/chunk_splitter.cpp:188-223 | size, digest text, chunk size and chunk count of the file, or the error |
| `ChunkAssembler.ChunkAssembler.StartSession` | src/core/chunk_assembler.cpp:65-107 | the map and the new zero-filled file are those of the specification step; a known id is refused |
| `ChunkAssembler.ChunkAssembler.ProcessChunk` | src/core/chunk_assembler.cpp:109-153 | the bitmap, the counters and the file after the call are those of the specification step, in every branch; a failed write may leave any first part of the data in the file |
| `ChunkAssembler.ChunkAssembler.GetMissingChunks` | src/core/chunk_assembler.cpp:165-180 | strictly increasing, and exactly the indices that were not received |
| `ChunkAssembler.ChunkAssembler.Finalize` | src/core/chunk_assembler.cpp:182-238 | state and result of the specification step: missing chunks, hash mismatch (session and file dropped), failed rename (session kept, old file already removed), success |
| `ChunkAssembler.ChunkAssembler.CancelSession` | src/core/chunk_assembler.cpp:257-279 | the session is gone and nothing else has changed |
| `ChunkAssembler.StepKeepsWellFormed` | src/core/chunk_assembler.cpp:65-279 | every call keeps one bit per chunk in every session |
| `ChunkAssembler.StepKeepsConsistent` | src/core/chunk_assembler.cpp:65-279 | every call keeps all sessions in agreement with the log of chunks they accepted |
| `ChunkAssembler.RunsAreConsistent` | src/core/chunk_assembler.cpp:65-279 | in every run with any number of sessions: the count is the number of set bits, bytes_written is the sum of the accepted sizes, each index was accepted at most once, and the file is the replay of the accepted chunks unless its stream broke while it was incomplete |
| `ChunkAssembler.MissingIsComplement` | src/core/chunk_assembler.cpp:165-180 | the missing list is the strictly increasing complement of the bitmap |
| `ChunkAssembler.CompleteIffNothingMissing` | src/core/chunk_assembler.cpp:155-180 | complete if and only if nothing is missing, if and only if every index was accepted; received and missing add up to the total |
| `ChunkAssembler.ChunkAssembler.QueriesAreExact` | src/core/chunk_assembler.cpp:155-163 | is_complete says that every index was accepted; get_progress counts the accepted chunks and their bytes |
| `ChunkAssembler.FinalizeVerdict` | src/core/chunk_assembler.cpp:182-238 | succeeds if and only if every index was accepted, the expected digest, if given, is that of the file, and the rename works; the output is then the replay of the accepted chunks |
| `ChunkAssembler.OutputLostIff` | src/core/chunk_assembler.cpp:219-233 | a failing finalize changes the outputs if and only if the session was complete, the digest matched or was not asked for, only the rename failed, and the name was taken; it then loses exactly that output |
| `ChunkAssembler.RenameLosesOldFile` | src/core/chunk_assembler.cpp:219-233 | that case occurs: a concrete run |
| `ChunkAssembler.BrokenStaysIncomplete` | src/core/chunk_assembler.cpp:134-145 | a session whose stream broke while it was incomplete stays as it is until it is cancelled, and never produces an output |
| `ChunkAssembler.StepFramesOthers` | src/core/chunk_assembler.cpp:65-279 | a call on one id leaves every other session as it was |
| `ChunkAssembler.ChecksumGuards` | src/core/chunk_assembler.cpp:109-153 | a chunk is accepted if and only if its session exists, its index is in range and new, its CRC matches and the write succeeds; a bad CRC never changes the state |
| `ChunkAssembler.ProcessVerdict` | src/core/chunk_assembler.cpp:109-153 | each outcome of process_chunk if and only if its condition; a chunk that was received before returns Ok and changes nothing |
| `ChunkAssembler.AcceptedEffect` | src/core/chunk_assembler.cpp:134-152 | an accepted chunk sets its bit and no other, raises the two counters by one and by its size, and leaves in the file its data at its offset, the old bytes around it and zeros in a gap |
| `ChunkAssembler.FinalizeErrors` | src/core/chunk_assembler.cpp:182-238 | each failure of finalize if and only if its condition, and what it leaves of the session |
| `ChunkAssembler.StartVerdict` | src/core/chunk_assembler.cpp:65-107 | refused exactly for a known id or a file that does not open; otherwise every chunk is missing and the file has the given size |
| `Delivery.DamageIsDetected` | src/core/chunk_assembler.cpp:130-133 | a copy damaged by one burst of at most 32 bits fails the CRC test of its own header |
| `Delivery.WindowIsDamage` | src/core/chunk_assembler.cpp:130-133 | replacing at most four consecutive bytes of a chunk by others makes such a copy |
| `Delivery.DamageIsRejected` | src/core/chunk_assembler.cpp:126-133 | a damaged copy changes no session, and is reported as a checksum error if its chunk is still missing |
| `Delivery.DeliveryStep` | src/core/chunk_assembler.cpp:65-238 | every allowed call keeps the file equal to the original on received chunks and to zero elsewhere, and the bitmap equal to the set of delivered indices; or the stream broke and the session stays incomplete |
| `Delivery.CompleteIffWhole` | src/core/chunk_assembler.cpp:155-163 | complete if and only if every index was delivered intact and no write that mattered failed, and then the file is the original |
| `Delivery.RefusedStep` | src/core/chunk_assembler.cpp:71-74 | a second start and an early finalize are refused and change nothing |
| `Delivery.FinalizeDelivers` | src/core/chunk_assembler.cpp:182-238 | finalize with the hash of the splitter succeeds exactly when the delivery was whole, and then the output file is the original |
| `Delivery.TransferIsFaithful` | src/core/chunk_assembler.cpp:65-238 | the whole transfer: any content, any chunk size, chunks in any order, repeated, lost or damaged, writes that fail, repeated starts, early finalize calls, other sessions in between |
| `HeaderDamage.HeaderIsNotGuarded` | src/core/chunk_assembler.cpp:130-133 | a chunk whose header has another offset or another missing index is accepted all the same |
| `HeaderDamage.HeaderMattersIff` | src/core/chunk_assembler.cpp:109-153 | a chunk with any header and any data is accepted under a missing index: everything received so far is right afterwards if and only if it writes what belongs there wherever it hits a received chunk or the one it counts as, and that one is zero elsewhere |
| `HeaderDamage.OffsetMattersIff` | src/core/chunk_assembler.cpp:135-144 | for a chunk under its own index: if and only if the offset is its own, or the data is empty, or zeros are written over zeros inside the file |
| `HeaderDamage.IndexMattersIff` | src/core/chunk_assembler.cpp:147-150 | for a chunk under the index of another, missing one: if and only if that other chunk is all zeros; the rest of the file can still be filled |
| `HeaderDamage.HarmDecides` | src/core/chunk_assembler.cpp:109-238 | to the end of the run: after such a chunk and any further intact or damaged chunks, a complete session delivers the original without a hash if and only if the chunk did no harm; with the hash of the original a wrong file passes only if it has the same digest |
| `HeaderDamage.WrongFileDelivered` | src/core/chunk_assembler.cpp:109-238 | a concrete run: two accepted chunks, one with a wrong offset, and finalize without a hash delivers the wrong file |
| `BlockIds.BlockIdInjective` | src/cloud/azure_blob_storage.cpp:135-141 | different block numbers have different ids, beyond six digits as well |
| `BlockIds.BlockIdLength` | src/cloud/azure_blob_storage.cpp:135-141 | an id has length 8 if and only if its number is below 10^6 |
| `KnownAnswers.FirstBlockIds` | src/cloud/azure_blob_storage.cpp:135-141 | the ids of blocks 0 and 1 are MDAwMDAw and MDAwMDAx |
| `BlobUpload.NeverOverCap` | src/cloud/azure_blob_storage.cpp:240-264 | whatever the completion schedule, the number of unfinished asynchronous uploads is at most max_concurrent_parts at every step |
| `BlobUpload.NextKeeps` | src/cloud/azure_blob_storage.cpp:240-311 | every step of the caller, of an upload or of the server keeps the invariant that ties names, blocks, uploads, staged data and buffer together |
| `BlobUpload.RunInv` | src/cloud/azure_blob_storage.cpp:522-604 | that invariant holds in every run, failures included |
| `BlobUpload.BlockShape` | src/cloud/azure_blob_storage.cpp:522-568 | in an error-free run block k has the id of k, every launched block has exactly the part size, the blocks and the buffer in order are the accepted bytes, and between calls the buffer is shorter than a part |
| `BlobUpload.CommitIsFaithful` | src/cloud/azure_blob_storage.cpp:522-604 | with failures of any kind: a committed list names each block once and in order if and only if no finalize failed after naming its last block, and then the blob is the accepted bytes (for the converse of this half see the next row) |
| `BlobUpload.BrokenYetFaithful` | src/cloud/azure_blob_storage.cpp:522-604 | the converse is false: for any data there is a run with a broken finalize whose blob is the accepted bytes |
| `BlobUpload.ErrorFreeCommit` | src/cloud/azure_blob_storage.cpp:570-604 | if no call failed, a successful finalize commits exactly the bytes handed to write, and bytes_written is their number |
| `BlobUpload.CollectFailsIff` | src/cloud/azure_blob_storage.cpp:266-287 | collecting fails if and only if some future holds an error; otherwise only running uploads are left |
| `BlobUpload.RunOwed` | src/cloud/azure_blob_storage.cpp:522-604 | in every run, as long as no call has failed: each named block is staged, or a pending upload still runs for it or holds an unnoticed error |
| `BlobUpload.CommitSucceeds` | src/cloud/azure_blob_storage.cpp:570-604 | so when no call has failed, every block of the list is staged by the time it is sent, and a server that accepts it stores exactly the bytes handed to write |
| `BlobUpload.WellEndedRun` | src/cloud/azure_blob_storage.cpp:522-604 | a run in which every upload and the reply to the list end well: no call ever fails, and once finalize is through the blob is exactly the bytes handed to write |
| `BlobUpload.RetriedFinalizeRepeatsLastBlock` | src/cloud/azure_blob_storage.cpp:584-594 | the failing family: for every content shorter than a part, a finalize retried after its upload failed commits the content twice |
| `UploadStream.AzureUploadStream.CollectCompletedUploads` | src/cloud/azure_blob_storage.cpp:266-287 | the in-place erase loop leaves exactly what the specification keeps, and stops at the first failed upload |
| `UploadStream.AzureUploadStream.WaitForSlot` | src/cloud/azure_blob_storage.cpp:254-264 | only waits: it returns a free slot, a failure that some upload has caused, or still sleeps at the end of the schedule with the cap reached |
| `UploadStream.AzureUploadStream.SendBlock` | src/cloud/azure_blob_storage.cpp:544-563 | moves the whole buffer into one new block with the next id, or leaves buffer and list alone; it fails only if an upload has failed, and does not succeed if one had failed before |
| `UploadStream.AzureUploadStream.Write` | src/cloud/azure_blob_storage.cpp:522-568 | a successful call has taken and counted all of its data; a call fails only if an upload has failed, and does not pass its first full buffer if one had failed before; it waits only at the end of the schedule with the cap reached |
| `UploadStream.AzureUploadStream.UploadLast` | src/cloud/azure_blob_storage.cpp:587-594 | the synchronous upload of the last block, and the broken finalize when it fails |
| `UploadStream.AzureUploadStream.WaitAllUploads` | src/cloud/azure_blob_storage.cpp:289-302 | passes the uploads in order: closes the stream after every one has succeeded, fails at the first one that fails, waits at the first one without an end in the schedule |
| `UploadStream.AzureUploadStream.CommitBlockList` | src/cloud/azure_blob_storage.cpp:441-506 | commits the staged data of the listed ids, or fails and commits nothing |
| `UploadStream.AzureUploadStream.Finalize` | src/cloud/azure_blob_storage.cpp:570-604 | the outcome is exact in terms of the inputs: it waits if and only if the last block, if any, is uploaded and an upload without an end comes before every failing one; if it returns on an open stream and no call had failed, it fails if and only if the last block is not uploaded, the list is refused or an upload fails, and otherwise commits exactly the bytes handed to write and returns their number; after earlier failures a success still commits the accepted bytes unless a finalize broke |
| `UploadStream.FateMeans` | src/cloud/azure_blob_storage.cpp:289-302 | what a future says in the end: its result, or the result of the first end of its own upload, or nothing yet |
| `UploadStream.AzureUploadStream.Abort` | src/cloud/azure_blob_storage.cpp:606-613 | closes the stream and changes nothing else |
| `BlobDownload.LastByteMeaning` | src/cloud/azure_blob_storage.cpp:856-884 | the wrapping arithmetic of the range end is the smaller of the buffer end and the blob end |
| `BlobDownload.DownloadStream.Read` | src/cloud/azure_blob_storage.cpp:856-884 | fills the buffer with the next bytes, advances by their number, and reports the error cases without any change |
| `BlobDownload.ReadRequests` | src/cloud/azure_blob_storage.cpp:856-884 | calling read once for each request, some of which fail, returns one contiguous piece of the blob, that of the answered requests |
| `BlobDownload.ReadToEnd` | src/cloud/azure_blob_storage.cpp:856-888 | reading with any non-empty buffers while has_more holds, and again after any finite number of failed requests at each position, ends with the whole rest of the blob; total_size - bytes_read is the measure |
| `BlobDownload.Download` | src/cloud/azure_blob_storage.cpp:522-888 | what an upload stream has committed, read back through read calls: all bytes handed to write if no call failed, the accepted bytes if no finalize broke |
| `BlobDownload.ReadsAreContiguous` | src/cloud/azure_blob_storage.cpp:856-884 | whatever the sizes, the result of ReadRequests is the blob from its position up to the sum of the sizes or the end |
| `BlobDownload.ReadingTerminates` | src/cloud/azure_blob_storage.cpp:856-888 | as many non-empty answered requests as there are bytes reach the end |
| `BlobDownload.UploadThenDownload` | src/cloud/azure_blob_storage.cpp:522-888 | for the results of ReadRequests: a prefix of the written bytes, and all of them if and only if the reader has reached the end |
| `BandwidthLimiter.Limiter.RefillTokens` | src/core/bandwidth_limiter.cpp:193-204 | the fields after the call are those of the refilled bucket |
| `BandwidthLimiter.Limiter.Acquire` | src/core/bandwidth_limiter.cpp:62-96 | the wait loop, with any wake-up times and any operations of other threads during each wait, disabling and new limits among them, is the iterated round; it is done exactly if one of the rounds grants or passes |
| `BandwidthLimiter.Limiter.TryAcquireTokens` | src/core/bandwidth_limiter.cpp:98-116 | grants exactly as specified, and never more than the capacity while enabled |
| `BandwidthLimiter.Limiter.SetLimitTo` | src/core/bandwidth_limiter.cpp:122-153 | for a positive limit the capacity is the limit, the time is now and the fill level is kept: new tokens times old capacity is old tokens times the new limit; from limit 0 the bucket is full |
| `BandwidthLimiter.Limiter.EnableLimit` | src/core/bandwidth_limiter.cpp:168-174 | the state after enabling; its field laws are in ResetAndEnable |
| `BandwidthLimiter.Limiter.ResetBucket` | src/core/bandwidth_limiter.cpp:176-181 | the state after a reset; its field laws are in ResetAndEnable |
| `BandwidthLimiter.SetLimitKeepsLevel` | src/core/bandwidth_limiter.cpp:122-153 | for every bucket in range a new limit keeps the fill level; limit 0 only switches the limiter off |
| `BandwidthLimiter.SetLimitTwice` | src/core/bandwidth_limiter.cpp:122-153 | of two positive limits in a row only the last one counts |
| `BandwidthLimiter.ResetAndEnable` | src/core/bandwidth_limiter.cpp:168-181 | a reset fills the bucket and changes nothing else but the time; enabling changes neither tokens, capacity nor limit, and works only with a positive limit |
| `BandwidthLimiter.RefillMeans` | src/core/bandwidth_limiter.cpp:193-204 | a refill earns exactly the limit times the elapsed time, up to the capacity, and nothing if the clock has not moved |
| `BandwidthLimiter.GrantTakesExactly` | src/core/bandwidth_limiter.cpp:62-116 | a grant takes exactly its bytes from the refilled bucket, any other round takes nothing |
| `BandwidthLimiter.RunInRange` | src/core/bandwidth_limiter.cpp:62-204 | after every sequence of all operations, -capacity/10^6 <= tokens <= capacity |
| `BandwidthLimiter.RefillSplits` | src/core/bandwidth_limiter.cpp:193-204 | a refill split into two equals one refill |
| `BandwidthLimiter.ZeroWait` | src/core/bandwidth_limiter.cpp:206-226 | the wait in whole microseconds is zero exactly if the deficit is below one microsecond of tokens, and is never more than one microsecond short |
| `BandwidthLimiter.RateBound` | src/core/bandwidth_limiter.cpp:62-116 | grants of any interleaving of acquire, try_acquire and enable in any time window are at most capacity + rate * time + rate/10^6: the truncation slack is paid once |
| `BandwidthLimiter.SlackIsNeeded` | src/core/bandwidth_limiter.cpp:77-82 | without that slack the bound is false: a concrete run |
| `BandwidthLimiter.GrantedIff` | src/core/bandwidth_limiter.cpp:62-96 | a round grants if and only if the deficit after the refill is below one microsecond of tokens |
| `BandwidthLimiter.AcquireReturnsIff` | src/core/bandwidth_limiter.cpp:62-96 | an acquire can return, while the limit is left alone, if and only if the capacity covers the request up to one microsecond of tokens |
| `BandwidthLimiter.Starves` | src/core/bandwidth_limiter.cpp:62-96 | a larger request still waits after any number of waits of any length, whatever others do short of changing the limit |
| `BandwidthLimiter.TwoBytesStarve` | src/core/bandwidth_limiter.cpp:62-96 | a case: two bytes from a limiter of one byte per second |
| `BandwidthLimiter.TryAcquireIff` | src/core/bandwidth_limiter.cpp:98-116 | granted if and only if the refilled tokens cover it, so more than the capacity is refused at all times |
| `BandwidthLimiter.OneSleepIsEnough` | src/core/bandwidth_limiter.cpp:79-89 | after the computed sleep the next round grants, despite the truncation |
| `BandwidthLimiter.AcquireDoneAfterOneSleep` | src/core/bandwidth_limiter.cpp:62-96 | so an uncontended acquire returns after at most one sleep |
| `Base64.Decode` | src/cloud/cloud_utils.cpp:84-106 | the bit machine with its wrapping 32-bit accumulator, which is never masked, packs the alphabet characters before the first = into bytes, for every string |
| `Base64.LowBitsSurviveWrap` | src/cloud/cloud_utils.cpp:97-103 | the wrap-around never touches the pending bits |
| `Base64.NoiseIsSkipped` | src/cloud/cloud_utils.cpp:91-96 | inserting a character outside the alphabet other than = changes nothing |
| `Base64.Encode` | src/cloud/cloud_utils.cpp:61-77 | the loop appends one group for each three bytes, with padding at the end |
| `Base64.EncodedBits` | src/cloud/cloud_utils.cpp:61-77 | the sextets of the encoding are the bits of the data followed by fewer than six zero bits |
| `Base64.RoundTrip` | src/cloud/cloud_utils.cpp:61-106 | decode after encode is the identity, for every byte sequence |
| `Base64.EncodedInjective` | src/cloud/cloud_utils.cpp:61-77 | different data have different encodings |
| `Base64.EncodedLength` | src/cloud/cloud_utils.cpp:61-77 | four characters for each three bytes or part thereof |
| `Base64.AlphabetValues` | src/cloud/cloud_utils.cpp:38-58 | the decoding table inverts the alphabet |
| `Base64.AlphabetIsStandard` | src/cloud/cloud_utils.cpp:38-58 | the alphabet is that of table 1 of RFC 4648, place by place, and exactly its characters have a value |
| `KnownAnswers.Base64Vectors` | src/cloud/cloud_utils.cpp:61-77 | the seven test vectors of section 10 of RFC 4648 |
| `KnownAnswers.UrlVector` | src/cloud/cloud_utils.cpp:108-123 | a text with plus, slash and padding, and its URL form |
| `Base64.UrlEncode` | src/cloud/cloud_utils.cpp:108-123 | the in-place mapping and trimming of the padding |
| `Base64.UrlRoundTrip` | src/cloud/cloud_utils.cpp:108-123 | mapping - and _ back and decoding without padding returns the data; the text has none of + / = |
| `UrlEncoding.UrlEncode` | src/cloud/cloud_utils.cpp:130-148 | the loop escapes byte by byte |
| `UrlEncoding.RoundTrip` | src/cloud/cloud_utils.cpp:130-148 | percent-decoding undoes it, for every string and both slash modes |
| `UrlEncoding.EscapedInjective` | src/cloud/cloud_utils.cpp:130-148 | different strings have different escapes |
| `UrlEncoding.EscapedIsClean` | src/cloud/cloud_utils.cpp:130-148 | only unreserved characters, allowed slashes and complete %HH triples come out |
| `UrlEncoding.UnreservedIff` | src/cloud/cloud_utils.cpp:135-137 | the unreserved characters are those that section 2.3 of RFC 3986 lists |
| `KnownAnswers.EscapedVector` | src/cloud/cloud_utils.cpp:130-148 | a path with a slash, a tilde, a space and a byte outside ASCII, with and without the slash escaped |
| `TransferIds.ToString` | src/core/transfer_id.cpp:41-67 | the five loops print the canonical 8-4-4-4-12 layout |
| `TransferIds.FromString` | src/core/transfer_id.cpp:69-95 | accepts exactly 32 hexadecimal digits with dashes anywhere, and reads their pairs |
| `TransferIds.RoundTrip` | src/core/transfer_id.cpp:41-95 | reading the text of an id returns the id |
| `TransferIds.CanonicalShape` | src/core/transfer_id.cpp:41-67 | 36 characters with dashes at 8, 13, 18 and 23, and the two lower-case digits of each byte at their places |
| `TransferIds.AcceptedIff` | src/core/transfer_id.cpp:69-84 | a text is accepted if and only if 32 characters are left without the dashes and all are hexadecimal digits |
| `TransferIds.StripMeans` | src/core/transfer_id.cpp:75-81 | dashes are dropped wherever they stand, and nothing else is |
| `TransferIds.SameIdIff` | src/core/transfer_id.cpp:69-95 | two accepted texts name the same id if and only if they agree up to dashes and letter case |
| `TransferIds.Generate` | src/core/transfer_id.cpp:14-39 | all drawn bits survive except the six of version and variant |
| `TransferIds.BytesOfWord` | src/core/transfer_id.cpp:26-30 | the eight bytes taken from a drawn number make up that number, the least significant first |
| `TransferIds.GeneratedText` | src/core/transfer_id.cpp:33-37 | the text of a generated id shows version 4 and variant 8, 9, a or b |
| `TransferPool.StageTracker.Increment` | src/adapters/thread_pool_adapter.cpp:33-45 | the count of the stage, and of no other, grows by one |
| `TransferPool.StageTracker.Decrement` | src/adapters/thread_pool_adapter.cpp:46-56 | the count of the stage falls by one unless it is absent or zero |
| `TransferPool.NextExact` | src/adapters/thread_pool_adapter.cpp:350-402 | each of the separate increments and decrements keeps every counter equal to the tasks between their two steps |
| `TransferPool.RunExact` | src/adapters/thread_pool_adapter.cpp:350-402 | so it is in every interleaving, with tasks that return, throw or cannot be started |
| `TransferPool.CountersAreSound` | src/adapters/thread_pool_adapter.cpp:33-68 | the guard at zero never fires, active_tasks never wraps, and no active task is missing from its stage counter |
| `TransferPool.StagedStart` | src/adapters/thread_pool_adapter.cpp:384-390 | the steps of a submission to a stage raise its counter and active_tasks by one, and no other counter |
| `TransferPool.StagedEnd` | src/adapters/thread_pool_adapter.cpp:390-402 | the steps of the end of such a task lower both by one, whether it returned or threw |
| `TransferPool.PlainLife` | src/adapters/thread_pool_adapter.cpp:350-364 | a task without a stage raises active_tasks by one and lowers it by one when it has ended |
| `TransferPool.ReadyTasksMove` | src/adapters/thread_pool_adapter.cpp:350-402 | a task that is ready to end, to be released or to leave its stage does so in every state of the others |
| `TransferPool.ZeroAtRestIff` | src/adapters/thread_pool_adapter.cpp:350-402 | when all tasks have gone or could not be started, each counter is the number of its tasks that could not be started; so all are zero if and only if a thread was found for every task |
| `TransferPool.LostForever` | src/adapters/thread_pool_adapter.cpp:384-394 | a task for which std::async finds no thread is counted ever after |
| `TransferPool.LostTaskIsCounted` | src/adapters/thread_pool_adapter.cpp:384-394 | a case: one such task, and both counters stay at one |
| `TransferPool.ZeroMeansQuiet` | src/adapters/thread_pool_adapter.cpp:411-417 | a zero active count means that no task is active; a zero stage count that none of its tasks is between its two steps |
| `UploadControl.TransitionGraph` | src/client/file_transfer_client.cpp:84-123 | the terminal states are those without a way out, every other state can be cancelled, and the only cycle is between transferring and paused |
| `UploadControl.TransitionList` | src/client/file_transfer_client.cpp:84-123 | the rules, transition by transition |
| `UploadControl.StatusMeans` | src/client/file_transfer_client.cpp:57-79 | the status that callers see, state by state |
| `UploadControl.RunsInOrder` | src/client/file_transfer_client.cpp:558-631 | in every run of all threads, batch calls included: ids in use are unique and below the counter, each new id belongs to one thread, and batches hold only returned handles |
| `UploadControl.StepFrames` | src/client/file_transfer_client.cpp:1164-1281 | every step, those of batch calls included, moves one upload at most and leaves the other threads where they are; a new id is fresh, not 0 and nobody else's |
| `UploadControl.StepIsValidIff` | src/client/file_transfer_client.cpp:558-631 | a step obeys the transition rules if and only if it does not mark as transferring an upload that may not become so |
| `UploadControl.BrokenIffCancelledTooEarly` | src/client/file_transfer_client.cpp:607-631 | in any run at all: a step breaks the rules if and only if upload_file finishes an upload that has been cancelled |
| `UploadControl.CancelledUploadRevives` | src/client/file_transfer_client.cpp:607-631 | the condition occurs: a cancelled upload goes on transferring |
| `UploadControl.RunsAreValid` | src/client/file_transfer_client.cpp:558-631 | in every run in which callers use handles that were returned to them, whatever single and batch calls interleave, every step is a path of the transition rules |
| `UploadControl.TerminalForever` | src/client/file_transfer_client.cpp:84-123 | a terminal state is never left in such a run |
| `UploadControl.CancelEndsUpload` | src/client/file_transfer_client.cpp:1260-1281 | after a cancel the upload is terminal, whatever follows |
| `UploadControl.PassedAlways` | src/client/file_transfer_client.cpp:1766-1773 | at every point of such a run every member that any cancel_batch has passed is terminal, whether it cancelled it or found it finished |
| `UploadControl.CancelBatchEndsMembers` | src/client/file_transfer_client.cpp:1750-1776 | when a cancel_batch stands at its end every started member is terminal and stays so to the end of the run, whatever other threads do in between and afterwards |
| `UploadControl.EveryMemberEnds` | src/client/file_transfer_client.cpp:1750-1776 | if each started member was at some point terminal or named by a cancel call, all of them are terminal at the end |
| `UploadClient.FileTransferClient.UploadFile` | src/client/file_transfer_client.cpp:558-634 | with other threads between its locked regions: a fresh handle other than 0 whose upload is transferring, or an error without any change; nothing else moves but by other threads |
| `UploadClient.FileTransferClient.ControlTransfer` | src/client/file_transfer_client.cpp:1164-1281 | pause, resume and cancel of an upload: unknown handle, refused transition or the new state; one step of the run |
| `UploadClient.FileTransferClient.PauseBatch` | src/client/file_transfer_client.cpp:1695-1720 | status and control call of each member are separate steps; every non-zero member that was transferring and that no other thread touched is paused, every other untouched upload is unchanged; undisturbed, only the flag of the batch and those uploads change |
| `UploadClient.FileTransferClient.ResumeBatch` | src/client/file_transfer_client.cpp:1722-1748 | the same, and the untouched paused members are transferring |
| `UploadClient.FileTransferClient.CancelBatch` | src/client/file_transfer_client.cpp:1750-1776 | the same, and the untouched members that were neither completed, failed nor cancelled are cancelled; every started member is terminal afterwards whatever other threads did meanwhile |
| `UploadClient.PauseThenResume` | src/client/file_transfer_client.cpp:1695-1748 | undisturbed, pausing and resuming a batch restores every upload if and only if no member was paused before |
| `UploadClient.PauseThenResumeAmongOthers` | src/client/file_transfer_client.cpp:1695-1748 | among other threads, the state of an upload that they left alone is restored if and only if it was not a paused member |
| `UploadClient.FileTransferClient.UploadFiles` | src/client/file_transfer_client.cpp:1451-1547 | errors, the started uploads with fresh handles, and the length of the id list, with other threads in between |
| `UploadClient.VisitedMeans` | src/client/file_transfer_client.cpp:1495-1530 | the start loop goes on exactly as long as fewer than max_concurrent uploads are started and there is a file left |
| `UploadClient.ListLengthIff` | src/client/file_transfer_client.cpp:1513-1535 | the id list of a batch has one entry per file if and only if every visited file could be started |
| `UploadClient.ThreeEntriesForTwoFiles` | src/client/file_transfer_client.cpp:1513-1535 | a case: two files, the first of which cannot be started |

## Left out

- The download half of the client (`process_download_chunk`, `finalize_download`, `cancel_download`, `set_download_metadata`): it sets states without the transition rules and counts chunks without a bitmap, so the properties above do not hold there.
- The counters of `wait_for_batch` and the processing of queued batch files.
- `compression_engine.cpp`: it rests on the LZ4 library, which is not part of this model.
- HTTP clients, request signing, OpenSSL calls, credentials, date formats, XML and JSON field extraction, loggers, metrics and monitoring.
- The local-simulation branches of the blob streams, the ETag and the metadata of a blob; the server accepts a block list exactly if every listed block is staged, or refuses at will.
- Floating-point rounding in the bandwidth limiter: tokens, rates and times are reals.
- `disable` of the limiter racing with an `acquire` in flight, and fairness among waiting callers; a locked region is one step. The read-only getters of the limiter.
- `process_chunk` racing with `finalize` or `cancel_session` on the same id; assembler calls are atomic.
- Data races between `block_ids` and concurrent calls on one upload stream: a stream has one calling thread, as the code expects.
- Liveness of the upload waits: `wait_for_slot` and `wait_all_uploads` return only if uploads end, which the code cannot ensure.
- Real file-system behaviour beyond success flags: unique temporary names, files that do not change while they are split, and file size + chunk size - 1 below 2^64 are assumed.
- `submit_delayed`, cancellation tokens and typed jobs of the thread pool.
- The flag of a batch is set in the same step as the batch is looked up, although the source sets it just after releasing the lock. A caller of `UploadClient` uses handles it was given; foreign use is covered in `UploadControl` only.
- BlobUpload.CommitIsFaithful: the content half goes one way; with a broken finalize the content can still be right by accident (`BrokenYetFaithful`), and when it is depends on which failed uploads reached the server.
- Overflow of counters, sizes and offsets other than those named above, whose C++ types are `uint64_t`, `std::size_t` or `int`.
- Bytes that a stream reports as written and loses when it is closed.
- Downloads in the batch forms, and the download branch of `get_transfer_status`.
