# PacketBridge, modelled and proved in Dafny

PacketBridge moves a file from a sender to a receiver over TCP, in chunks. The
receiver keeps a checkpoint file beside its output, so that a broken transfer can
be taken up again, and at the end both sides compare SHA-256 digests. A separate
listener keeps a table of peers that announce themselves by UDP.

This project models that system and proves what it is for:

* **Resuming is safe.** A transfer is a state machine over one disk
  (`Transfer.dfy`). A history is any sequence of its events: runs begin, save
  checkpoints in separate file operations, are cut off between any two of them
  (also between the removal and the renaming of a checkpoint, and in the middle of a
  write) and begin again. Over every history with one sender, every chunk the next run
  would trust is in the output byte for byte (`TransferSafety.dfy`,
  `TransferTrust.dfy`). Without an old checkpoint the recorded chunks are always an
  initial segment, and without an old output either, the output is a prefix of the
  source (`TransferShape.dfy`).
* **Saves that are cut short.** The program does not notice a write error in the text
  of a checkpoint and puts what there is in place. A text of an initial segment, cut
  off anywhere, still loads as an initial segment or not at all, and `CheckpointCut.dfy`
  says exactly which sets of chunks are safe in this way. A run adds chunks in an order that
  keeps a safe set safe, so a history without an old checkpoint stays safe.
* **Delivery.** Unless an older output was longer than the file, a run that reaches the
  comparison of digests has exactly the source, so the comparison never fails. From every
  reachable disk one undisturbed run completes the transfer, provided at most 1,000,000
  chunks are missing (`TransferProgress.dfy`). Nothing is asked for twice as long as only connections
  break (`TransferConservation.dfy`, `TransferResume.dfy`).
* **Other transfers.** A run under a manifest with another name, size, chunk size or chunk
  count trusts nothing of an earlier transfer over the same files
  (`TransferOther.dfy`).
* **Any sender.** Events may also carry another sender's bytes. For every manifest that
  the decoder accepts and whatever is sent under it, the output does not grow beyond
  the file, no chunk is recorded that does not exist, and recorded chunks are not
  written again (`TransferAnySender.dfy`). A success has the announced number of bytes
  (`TransferSafety.ByteCount`).
* **The programs take only these steps.** `Receiver.dfy`, `Sender.dfy` and
  `Session.dfy` are the two programs over sockets that cut streams up in any way and
  break off at any byte, and over files whose operations may fail. `Session.Run`
  proves of them that success means delivery and that an undisturbed run succeeds.
  The receiver's methods are stated for every byte stream, with any manifest;
  `Session.RunAgainstAnySender` says exactly which streams it reports as a success.
* **The wire.** Four binary messages and their readers (`*Codec.dfy`, `Wire.dfy`),
  the partial send and receive loops (`TcpSocket.dfy`), the text of the checkpoint
  (`Checkpoint.dfy`, `Text.dfy`) and the wrapping chunk arithmetic (`Chunks.dfy`).
* **The hash.** The streaming class computes SHA-256 of FIPS 180-4
  (`Sha256Spec.dfy`, `Sha256.dfy`); its constants are the roots that the standard
  defines them to be (`Sha256Constants.dfy`), and the digests of the standard's
  one-block and two-block examples are proved to be the published ones, round by round
  (`Sha256Steps.dfy`, `Sha256ExampleAbc.dfy`, `Sha256ExampleTwo.dfy`).
* **Discovery.** Announcements and the pruned peer table (`Discovery.dfy`,
  `Listener.dfy`), and the file names that the programs use (`FileUtils.dfy`).

## What does not hold

Seven promises fail for some inputs. Each is stated with the exact condition.

* A file of more than 1,000,000 chunks can never be delivered: the receiver asks for all
  chunks, the sender refuses a request that long, and no history with this sender
  writes a byte. Nor can a file whose manifest cannot arrive
  (`TransferProgress.CompletionIff`). For the sender's own manifests this means at most
  65,536,000,000 bytes and a sanitized name of at most 255 bytes
  (`Session.SenderCompletionIff`); one byte more of content is one chunk too many
  (`Session.OneByteTooMany`), and for one byte more of name the sender has nothing to
  send (`Session.NameTooLong`).
* A checkpoint loads as it was saved exactly when the file name has no newline
  (`Checkpoint.RoundTrip`). The manifest decoder accepts such a name
  (`Session.NewlineNameArrives`), and its transfer is never resumed
  (`TransferResume.ResumesIff`); the sender of this repository never sends
  one (`FileUtils.SenderManifestAccepted`).
* A checkpoint is not trusted under another manifest, except that the name may come out
  wrong: one saved for the name "a\nb" is trusted under the name "a"
  (`TransferOther.FirstLineTrustsSecond`). Some other manifest trusts a saved checkpoint
  exactly when its name has a newline and its text loads at all
  (`TransferOther.TrustedByAnotherIff`).
* The chunk count wraps for sizes close to 2^64 (`Chunks.ChunkCountWraps`), and the
  chunks then do not cover the file; they do exactly when the 64-bit sum does not
  overflow (`Chunks.ChunksCoverFile`). The decoder accepts such a manifest, and the
  receiver can then report success with an empty output
  (`Session.WrappedManifestArrives`). The number of bytes it announces on success is
  there exactly when the sum does not overflow (`TransferProgress.ByteCountIff`).
* The documentation (README.md, line 58, and docs/protocol.md, line 55) promises that a
  resumed run asks only for the missing chunks. The next run asks for exactly the chunks
  that the output does not hold if and only if the output ends before the end of the
  first chunk that it asks for (`TransferResume.AsksForAbsentIff`). Two kinds of stop
  break that: between the write of a chunk and its save (`TransferResume.StopBeforeSave`),
  where the chunk is asked for again, and between the removal of the old
  checkpoint and the renaming of the new one (`TransferResume.StopBeforeRename`), where
  everything is. So every transfer that has chunks and can deliver them has a history
  that breaks the promise (`TransferResume.PromiseKeptIff`). When runs stop only because
  the connection is lost, it is kept (`TransferResume.OrderlyAsksForAbsent`). Work is
  lost, not safety.
* An older output that is longer than the file is not always truncated: a run that stops
  after its first save and before the truncation leaves it to a run that resumes, and
  what is compared is then not the source. From a start without a matching checkpoint,
  every comparison finds the source exactly when the old output is not longer than the file, or the
  name keeps every run from resuming, or nothing can be delivered at all
  (`TransferProgress.DeliveryIff`, `TransferProgress.LongerOutputSurvives`).
* A checkpoint with gaps, such as one made by hand, may claim a chunk that was never
  received after a save that is cut short: chunks 0 and 12 without the last digit load
  as chunks 0 and 1 (`CheckpointCut.TwelveBecomesOne`). No cut text claims too much
  exactly when the set contains each of its numbers without the last digit too
  (`CheckpointCut.CutSafeIff`); every initial segment does.

After a digest mismatch the full checkpoint is kept, and every later run asks for nothing
and fails again, also for another source under the same manifest
(`TransferResume.MismatchRepeats`).

## Assumptions

* The source file and its manifest stay the same from run to run.
* A write is on disk when the call returns. The output stream is not flushed before
  the checkpoint is saved, so a loss of buffered data is outside the claims.
* A history may start from any files, as long as every chunk that the first run would
  trust is in the output: `Trustworthy`. No checkpoint, a foreign one, and one made by
  hand as in docs/testing.md are such starts. Without that, no history delivers until a
  run starts afresh (`TransferTrust.WrongChunkStays`).
* Saves may be cut short unnoticed if the set that is trusted at the start is safe in that
  sense (`Closed`), as the empty set of a start without a matching checkpoint is. Otherwise
  they are not (`Whole`).
* Bytes that arrive are the bytes that were sent, in order, possibly not all of them.
* The theorems about the source (safety, delivery, progress) are about histories that are
  `Genuine`: all bytes come from the sender of this source.

Words of fixed width are integers with explicit wrapping; the bitwise functions of
SHA-256 go through 32-bit vectors. A `std::string` is a sequence of characters below
256. Decoders return an option, because a failed C++ decoder leaves its result
half-written. System calls and file operations choose their outcome freely.

## Model

| member | source | states |
|---|---|---|
| Session.Run | apps/receiver.cpp:153-251 | One run of both programs after any history of runs with this sender, on streams cut up and broken off anywhere and files that may fail: exit 0 means the output is the source; exit 0 only if at most a million chunks were missing; a run that nothing disturbs with at most a million missing exits 0; if there was no output at the start, the output is always a prefix of the source. Saves may be cut short unnoticed if the set trusted at the start is closed |
| Session.RunPrograms | apps/sender.cpp:122-189 | The same for the two programs' message sequence: digest, manifest, request, chunks, digest packet |
| Session.RunAgainstAnySender | apps/receiver.cpp:153-251 | The receiver against any bytes, with any manifest: it exits 0 only if the stream holds a manifest, every requested chunk and a digest packet of this session, the output is what those chunks make of the earlier output and it has the claimed digest; undisturbed, such a stream always exits 0; the output never outgrows the file, or what was there when the manifest was taken up, and has exactly the announced size after a success from a start that trusts nothing |
| Session.Answer | apps/sender.cpp:159-189 | What reaches the receiver is a prefix of the reply, nothing if the request is not served, and the whole reply if it is served and nothing is disturbed |
| Session.ManifestArrives | src/transfer/manifest_codec.cpp:73-96 | A cut-off manifest frame reads as nothing, the whole frame as the manifest |
| Session.ServedOnTheWire | apps/sender.cpp:159-164 | The receiver's request is valid, and the sender reads it back from the stream, and serves it, exactly when it has at most a million indexes |
| Session.OversizeUnreadable | src/transfer/continuation_codec.cpp:54-58 | A longer request is never read by the sender |
| Session.SenderTransfersQualify | apps/sender.cpp:133-140 | Every transfer the sender sets up with a name of at most 255 bytes meets the conditions of the theorems |
| Session.SenderCompletionIff | apps/sender.cpp:133-157 | Some history completes the transfer of a file that the sender announces if and only if the file has at most 65,536,000,000 bytes and the sanitized name at most 255 |
| Session.OneByteTooMany | src/transfer/file_utils.cpp:56-61 | That size makes exactly a million chunks and one byte more makes one more |
| Session.NameTooLong | src/transfer/manifest_codec.cpp:98-101 | For a name of 256 bytes the sender has no frame to send |
| Session.NewlineNameArrives | src/transfer/manifest_codec.cpp:123-172 | A manifest with a newline in its name is decoded as it was encoded, and its checkpoint is not loaded as it was saved |
| Session.WrappedManifestArrives | src/transfer/manifest_codec.cpp:162-166 | A manifest of 2^64 - 1 bytes whose count wraps to zero is decoded as it was encoded, and some history of it ends verified with an empty output |
| TransferSafety.ResumeSafety | apps/receiver.cpp:173-213 | From every start whose trusted chunks are there, at every moment of every history, every chunk the next run would trust is in the output with the bytes of the source, and the output is not longer than the file or than the output at the start; saves may be cut short if the set trusted at the start is closed |
| TransferShape.ReachableShape | apps/receiver.cpp:83-113 | At every moment of every history without an old output, an existing output is a prefix of the source, and the checkpoint beside it is the text of an initial segment of the chunks that is not longer than the output, or a part of that text if a save was cut short |
| TransferSafety.Delivery | apps/receiver.cpp:220-249 | A run with nothing left to receive has an output that begins with the source; if the output at the start was not longer than the file it is exactly the source, the digest comparison succeeds, and no history ends in a mismatch |
| TransferTrust.StepKeeps | apps/receiver.cpp:173-249 | Every event of this sender or of the receiver keeps every chunk that is trusted on disk or recorded by the program in the output, also a save of a closed set that is cut short |
| TransferShape.ResumeRecords | apps/receiver.cpp:173-180 | The checkpoint a new run chooses records an initial segment that the output holds, whatever the file name |
| TransferTrust.SaveKeeps | src/transfer/checkpoint.cpp:114-141 | Each file operation of a save, also when cut off before the next, keeps it so |
| TransferTrust.ChunkKeeps | apps/receiver.cpp:96-113 | A write, whole or torn, leaves every recorded chunk as it was, and an accepted chunk has the bytes of the source |
| TransferTrust.StepKeepsClosed | src/transfer/checkpoint.cpp:104-112 | Every event, of any sender, keeps the trusted and the recorded sets closed, because chunks are added in ascending order |
| TransferTrust.SavedIsNoMore | src/transfer/checkpoint.cpp:114-141 | After a save of a closed set, whole or cut short, the next run goes by no more than what was saved |
| TransferTrust.PrepareKeeps | apps/receiver.cpp:53-60 | Truncating the output of a fresh transfer is safe because the empty checkpoint was saved first |
| TransferTrust.NothingMissing | apps/receiver.cpp:83-120 | When the list of chunks is used up, the output begins with the source |
| TransferTrust.WrongChunkStays | src/transfer/checkpoint.cpp:77-93 | A recorded chunk whose bytes in the output are wrong stays wrong over every history until a run starts afresh or a save is cut short, so the output is never the source |
| TransferTrust.AllChunksPresent | apps/receiver.cpp:83-120 | If every chunk is in the output, the output begins with the source |
| TransferShape.StepKeepsSegment | apps/receiver.cpp:173-249 | Every event, of any sender, keeps the recorded chunks an initial segment that the output is long enough for; with this sender the output begins with its bytes; also when a save is cut short |
| TransferShape.StoreKeepsSegment | apps/receiver.cpp:96-109 | Writing the next chunk at its offset extends the segment by one and the output to the end of that chunk, unless it was longer |
| TransferShape.TornKeepsSegment | apps/receiver.cpp:100-106 | A write cut short at any byte keeps the segment |
| TransferShape.StepKeepsShape | apps/receiver.cpp:83-113 | Every event keeps the output a prefix of the source and the checkpoint beside it within the output |
| TransferShape.CutIsResumed | src/transfer/checkpoint.cpp:114-141 | After a save of an initial segment that was cut short anywhere, the next run goes by a shorter or equal initial segment |
| TransferSafety.ByteCount | apps/receiver.cpp:236-245 | Whoever sends, an output that is compared has exactly the announced size, if the chunk count did not wrap |
| TransferAnySender.AnySenderStaysInFile | src/transfer/chunk_codec.cpp:89-111 | Over every history with any sender and any manifest the decoder accepts, wrapped or not, the output never outgrows the file or its length at the start, and the chunks recorded and awaited are exactly the chunks of the manifest |
| TransferAnySender.RecordedChunksUntouched | apps/receiver.cpp:83-113 | Over every continuation of a run with any sender, the bytes of a recorded chunk stay as they are until a new run begins |
| TransferAnySender.TrustedChunksUntouched | apps/receiver.cpp:173-180 | Over every history with any sender, the bytes of a chunk that the checkpoint on disk records stay as they are until a run starts afresh or a save is cut short |
| TransferAnySender.WriteInExtent | apps/receiver.cpp:94-106 | Whatever arrives for a chunk is written within that chunk's extent only |
| TransferAnySender.StepStaysBounded | apps/receiver.cpp:173-249 | Every event, also one caused by another sender, keeps these bounds |
| TransferProgress.CompletionIff | src/transfer/continuation_codec.cpp:54-58 | Without a checkpoint to start from, whatever output is there, some history completes the transfer if and only if the manifest is one that the decoder accepts and the file has at most a million chunks; beyond a million no history writes a byte |
| TransferProgress.TrustedCompletionIff | apps/receiver.cpp:173-213 | From a checkpoint whose chunks are there, some history completes the transfer if and only if the manifest is accepted and either there are at most a million chunks, or at most a million are missing and the output is not longer than the file |
| TransferProgress.AfreshCompletes | src/transfer/checkpoint.cpp:139-140 | Whatever the files hold, a transfer of at most a million chunks can complete, because a stop between removal and renaming makes the next run start afresh |
| TransferProgress.ByteCountIff | apps/receiver.cpp:242-243 | The announced number of bytes is there after every success with any sender if and only if the 64-bit sum does not overflow or the manifest is not accepted |
| TransferProgress.WrappedSucceedsEmpty | src/transfer/manifest_codec.cpp:162-166 | A history of a wrapped manifest that ends verified with an empty output |
| TransferProgress.NeverBegins | apps/sender.cpp:154-157 | Without a manifest that the decoder accepts nothing ever happens |
| TransferProgress.OneRunCompletes | apps/receiver.cpp:173-251 | From every stopped state whose trusted chunks are there, one undisturbed run delivers the source and removes the checkpoint, if the manifest is accepted, at most a million chunks are missing and a resumed output is not longer than the file |
| TransferProgress.ServesMissing | src/transfer/continuation_codec.cpp:103-106 | The sender serves what a matching checkpoint asks for if and only if it has at most a million indexes |
| TransferProgress.DeliveryIff | apps/receiver.cpp:53-60 | Without a checkpoint to start from, every comparison in every history finds exactly the source if and only if the output at the start is not longer than the file, or the name has a newline, or there are more than a million chunks, or the manifest is not accepted |
| TransferProgress.LongerOutputSurvives | apps/receiver.cpp:202-213 | A history in which a longer output at the start survives to the comparison |
| TransferResume.AsksForAbsentIff | docs/protocol.md:55 | After every history the next run asks for exactly the chunks that the output does not hold if and only if the output ends before the end of the first chunk asked for |
| TransferResume.ResumesIff | apps/receiver.cpp:173-180 | After every history without cut saves the next run resumes if and only if output and checkpoint are there and the name has no newline; a cut save can only keep it from resuming |
| TransferResume.StopBeforeSave | apps/receiver.cpp:100-113 | A stop between the write of a chunk and its save leaves the chunk in the output and the next run asking for it |
| TransferResume.StopBeforeRename | src/transfer/checkpoint.cpp:139-140 | After a stop between the removal and the renaming the next run starts afresh |
| TransferResume.PromiseKeptIff | README.md:58 | Every history leaves the next run asking for exactly the absent chunks if and only if there are no chunks or more than a million, or the manifest is not accepted |
| TransferResume.OrderlyAsksForAbsent | README.md:58 | When runs stop only because the connection is lost, the next run asks for exactly the chunks that the output does not hold |
| TransferResume.MismatchRepeats | apps/receiver.cpp:246-248 | After a mismatch, every later run asks for nothing, leaves the output alone and is not verified, unless a save is cut short or stopped between removal and renaming |
| TransferOther.OtherManifestStartsAfresh | src/transfer/checkpoint.cpp:79-82 | After any history of one transfer, with any sender, a run under a manifest that differs in name, size, chunk size or chunk count starts afresh, if the name has no newline and no save was cut short |
| TransferOther.OtherManifestTrustsNothing | src/transfer/checkpoint.cpp:77-93 | The same from any files that the other manifest does not trust; with cut saves too, it trusts no chunk |
| TransferOther.TrustedByAnotherIff | src/transfer/checkpoint.cpp:56-58 | A saved checkpoint is trusted under some differing manifest if and only if its name has a newline and its text loads |
| TransferOther.FirstLineTrustsSecond | src/transfer/checkpoint.cpp:56-58 | A checkpoint of the name a, newline, b is trusted under the name a |
| Transfer.ResumeExactly | apps/receiver.cpp:173-180 | A run goes by the checkpoint on disk exactly if there is an output, the file loads, the four fields are the manifest's and every index is in range; otherwise by a new one |
| Transfer.SavedResumesExactly | apps/receiver.cpp:173-180 | The same for a checkpoint that was saved, field by field |
| Transfer.OverlayBytes | apps/receiver.cpp:100-102 | A write puts each byte of the data in its place, keeps the others and fills a gap with zeros |
| TransferConservation.Conservation | apps/receiver.cpp:173-213 | When only connections break, each request is the earlier request without the chunks accepted in between, and a completed history accepted every chunk exactly once, in order |
| TransferConservation.StepBalances | apps/receiver.cpp:108-113 | Every such event keeps the count of accepted chunks equal to the count recorded on disk and in the program |
| TransferConservation.RequestsShrink | src/transfer/checkpoint.cpp:104-112 | Between two requests, the accepted chunks followed by the later request are the earlier request |
| Receiver.Host.Negotiate | apps/receiver.cpp:153-192 | Reads one manifest off the stream, whatever it is, or fails; takes up the transfer it announces, chooses the checkpoint and sends the encoding of its missing list; fails only on a disturbance or a stream without a manifest |
| Receiver.Host.AcceptOffer | apps/receiver.cpp:153-157 | Takes one manifest off the stream, one that the decoder accepts, or fails |
| Receiver.Host.BeginRun | apps/receiver.cpp:173-180 | The run goes by the checkpoint that the files determine, by the machine's step |
| Receiver.Host.AskForMissing | apps/receiver.cpp:182-192 | The request for the missing chunks goes out whole, or the run ends |
| Receiver.Host.ChooseCheckpoint | apps/receiver.cpp:173-180 | The loaded checkpoint if output and checkpoint exist, load and match, else a new one, as Transfer.ResumeExactly writes out; it always matches the manifest |
| Receiver.Host.SaveCheckpoint | src/transfer/checkpoint.cpp:114-141 | A completed save leaves a first part of the rendered text, all of it unless a write error went unnoticed, and no temporary file; a failed one ends the run in a state the machine allows |
| Receiver.Host.WriteTempFile | src/transfer/checkpoint.cpp:115-137 | Opens the temporary file and writes a first part of the text, all of it unless a write error goes unnoticed, by the machine's steps |
| Receiver.Host.ReplaceCheckpoint | src/transfer/checkpoint.cpp:139-140 | Removes the old checkpoint, ignoring a failure, and renames, by the machine's two steps |
| Receiver.Host.PrepareOutput | apps/receiver.cpp:53-79 | Truncates or checks the output by the machine's step; opening it may fail after that |
| Receiver.Host.StoreChunk | apps/receiver.cpp:100-113 | Writes at the offset, inserts the index and saves, or is cut short, by the machine's steps, and the event is this sender's if the data is |
| Receiver.Host.ReceiveChunk | apps/receiver.cpp:83-113 | On any bytes: the expected chunk is taken off the stream and written at its offset, or the run ends; it fails only on a disturbance or a stream that does not start with an acceptable chunk of that index |
| Receiver.Host.ReceiveFileChunks | apps/receiver.cpp:62-121 | On any bytes: the output is what the requested chunks, read in order, make of the earlier output; it fails only on a disturbance, a missing output or a stream without those chunks |
| Receiver.Host.Verify | apps/receiver.cpp:220-251 | On any bytes: exit 0 exactly if a digest packet of this session arrives and claims the digest of the output, unless disturbed; a mismatch keeps the checkpoint |
| Receiver.Host.Complete | apps/receiver.cpp:202-251 | First save, chunks and verification together: exit 0 exactly on a complete reply whose digest is that of the resulting output, unless disturbed |
| Receiver.PartialChunk | apps/receiver.cpp:84-98 | A chunk that arrives on a cut-off stream of the sender is the expected one with the bytes of the source, and what follows is the rest of the reply, as far as it goes |
| Receiver.PartialManifest | src/transfer/manifest_codec.cpp:73-96 | A manifest that arrives on a cut-off stream is the one that was sent |
| Receiver.PartialDigest | src/transfer/hash_codec.cpp:55-62 | A digest packet that arrives on a cut-off stream carries the digest of the source |
| Receiver.DigestReadsExactly | apps/receiver.cpp:220-225 | A digest packet counts exactly if it is of this session |
| Receiver.WholeReply | apps/sender.cpp:65-101 | The sender's whole reply is a complete one, whatever it is written over, and claims the digest of the source |
| Receiver.AssembleReads | apps/receiver.cpp:83-113 | Writing chunk by chunk succeeds on exactly the streams from which all chunks can be read, and leaves the same rest |
| Sender.Offer | src/transfer/manifest_codec.cpp:64-71 | Sends a prefix of the encoded manifest, all of it unless disturbed or the name is too long |
| Sender.SendChunk | apps/sender.cpp:66-95 | Header and payload of a chunk, whole or a prefix; nothing after a failed seek or a short read |
| Sender.SendFileChunks | apps/sender.cpp:52-104 | The chunk stream of the requested list, or a prefix of it if the connection or the source file is disturbed |
| Sender.Serve | apps/sender.cpp:159-189 | Nothing for a request that is cut off or invalid; otherwise the whole reply, or a prefix of it if the connection or the source file is disturbed |
| Wire.TransferReadsBack | apps/sender.cpp:154-189 | Everything the sender writes for a request is read back as exactly the manifest, the chunks' payloads and the digest packet, with nothing left over |
| Wire.MagicsSpellNames | src/transfer/manifest_codec.cpp:15 | The four magic numbers are PBFM, PBCR, PBCH and PBHS on the wire |
| Wire.ChunksRead | apps/receiver.cpp:83-98 | The receiver's reading of the chunk stream gives the payloads that were sent and stops where they end |
| Wire.ChunkReadsExactly | src/transfer/chunk_codec.cpp:89-111 | A header and its payload are taken for a chunk exactly if session, index, offset and size are the ones of that chunk |
| Wire.RequestReads | src/transfer/continuation_codec.cpp:47-68 | A stream reads as a request if and only if it starts with the encoding of that request, of at most a million indexes; nothing more is consumed |
| Wire.ManifestReads | src/transfer/manifest_codec.cpp:73-96 | An acceptable manifest's frame followed by anything reads as the manifest and leaves the rest |
| Wire.HeaderReads | src/transfer/chunk_codec.cpp:49-56 | The same for chunk headers |
| Wire.HashReads | src/transfer/hash_codec.cpp:55-62 | The same for digest packets, which are 76 bytes |
| Wire.ReceiveManifest | src/transfer/manifest_codec.cpp:73-96 | Takes exactly one manifest off the stream, however it is cut up; None only if disturbed or there is none |
| Wire.ReceiveChunkHeader | src/transfer/chunk_codec.cpp:49-56 | The same for a chunk header |
| Wire.ReceiveContinueRequest | src/transfer/continuation_codec.cpp:47-68 | The same for a request, in two stages |
| Wire.ReceiveHashPacket | src/transfer/hash_codec.cpp:55-62 | The same for a digest packet |
| TcpSocket.TcpSocket.SendAll | src/net/tcp_socket.cpp:94-120 | However sends are cut up, all bytes go out in order or a prefix of them; it ends, and fails only on a fault |
| TcpSocket.TcpSocket.RecvExact | src/net/tcp_socket.cpp:126-152 | However receives are cut up, exactly the first bytes of the stream are delivered; it ends, and fails only on a fault or a short stream |
| Checkpoint.RoundTrip | src/transfer/checkpoint.cpp:43-75 | Loading the saved text gives the same checkpoint, for any sizes and any set, if and only if the name has no newline |
| Checkpoint.LoadText | src/transfer/checkpoint.cpp:43-75 | A text with any list of completed chunks loads as the checkpoint with the chunks that the list parses to |
| Checkpoint.RendersText | src/transfer/checkpoint.cpp:122-136 | The text of a checkpoint file, key by key |
| Checkpoint.RendersExample | src/transfer/checkpoint.cpp:122-136 | The text of a checkpoint with chunks 0 and 2, as a literal |
| Checkpoint.ListsChunks | src/transfer/checkpoint.cpp:127-135 | The list is that of the completed chunks in ascending order |
| Checkpoint.LineMeanings | src/transfer/checkpoint.cpp:57-65 | What each keyed line sets, a chunk size cut to 32 bits, and that a bad number fails the load |
| Checkpoint.OtherLinesSkipped | src/transfer/checkpoint.cpp:56-67 | A line without a key is skipped |
| Checkpoint.PartsMeaning | src/transfer/checkpoint.cpp:25-35 | The parts between commas parse exactly if every part that is not empty is a number, to the set of those numbers |
| Checkpoint.HeaderRequired | src/transfer/checkpoint.cpp:49-53 | Nothing loads without the header line |
| Checkpoint.NewlineLoads | src/transfer/checkpoint.cpp:56-67 | With newlines in the name only the name can come out different |
| Checkpoint.NewIsEmpty | src/transfer/checkpoint.cpp:95-102 | A new checkpoint has the four fields of the manifest and nothing completed |
| Text.ParsesForms | src/transfer/checkpoint.cpp:58-65 | A number is read after space or a sign and up to the first other character; a minus sign negates modulo 2^64 |
| Text.ParsesNothing | src/transfer/checkpoint.cpp:58-65 | Text that starts with neither space, sign nor digit is no number |
| Text.ParsesTooLarge | src/transfer/checkpoint.cpp:58-65 | A number beyond 64 bits is refused |
| Text.DecimalHasNoLeadingZero | src/transfer/checkpoint.cpp:123-132 | Numbers are written without leading zeros |
| CheckpointCut.CutKeepsFields | src/transfer/checkpoint.cpp:122-140 | A cut text that claims any chunk has all other fields of the whole text |
| Checkpoint.LoadHasNoNewline | src/transfer/checkpoint.cpp:56-58 | A loaded name never contains a newline |
| CheckpointCut.CutLoads | src/transfer/checkpoint.cpp:122-140 | A checkpoint text, cut off at any character, loads with the first numbers of the list and perhaps a next one without its last digits, or does not load |
| CheckpointCut.CutSafeIff | src/transfer/checkpoint.cpp:122-140 | No cut text claims a chunk that was not recorded if and only if the recorded set contains each of its numbers without the last digit too |
| CheckpointCut.CutClosedLoads | src/transfer/checkpoint.cpp:122-140 | The cut text of such a set loads as such a set again, and no more |
| CheckpointCut.CutSegmentLoads | src/transfer/checkpoint.cpp:122-140 | The cut text of an initial segment loads as an initial segment, and no more |
| CheckpointCut.CutTextLies | src/transfer/checkpoint.cpp:122-140 | For every other set some cut text claims a chunk that was not recorded |
| CheckpointCut.CutListReads | src/transfer/checkpoint.cpp:25-35 | The same for the list of completed chunks and its parser |
| CheckpointCut.SplitCut | src/transfer/checkpoint.cpp:56-58 | The lines of a cut text are the first lines of the whole one and perhaps a part of the next |
| CheckpointCut.TwelveBecomesOne | src/transfer/checkpoint.cpp:122-140 | Chunks 0 and 12 saved without the last digit load with chunk 1 |
| Checkpoint.CompletedRoundTrip | src/transfer/checkpoint.cpp:25-35 | Any set of 64-bit indexes, the empty one too, survives writing and parsing |
| Checkpoint.WriteText | src/transfer/checkpoint.cpp:122-136 | The streamed text is the rendering whose round trip is proved |
| Checkpoint.WriteCompleted | src/transfer/checkpoint.cpp:127-135 | Commas between the indexes, in ascending order |
| Checkpoint.ReadText | src/transfer/checkpoint.cpp:43-75 | The loop over lines computes the load function, errors included |
| Checkpoint.ReadLine | src/transfer/checkpoint.cpp:57-67 | Each kind of line, an unknown one and an unparsable number |
| Checkpoint.ParseCompletedChunks | src/transfer/checkpoint.cpp:25-35 | The set of the parts between commas; empty parts are skipped and a bad part fails the whole |
| Checkpoint.MatchesManifest | src/transfer/checkpoint.cpp:77-93 | True if and only if the four fields agree and every index is in range |
| Checkpoint.MissingChunks | src/transfer/checkpoint.cpp:104-112 | The ascending list of the absent indexes |
| Checkpoint.RequestIsValid | src/transfer/checkpoint.cpp:104-112 | For a matching checkpoint the missing list is the complement of the completed set, increasing, and accepted by the sender's validation |
| Chunks.HeaderAgreement | src/transfer/chunk_codec.cpp:89-111 | Without wrapping, the receiver accepts exactly one header per index, the one the sender builds |
| Chunks.PayloadIsExtent | apps/sender.cpp:35-41 | No offset or size wraps, and the payload size is the length of the chunk's extent |
| Chunks.StartInFile | src/transfer/chunk_codec.cpp:99-110 | Extents are non-empty, adjoin each other and end with the file |
| Chunks.CountIsCeiling | src/transfer/manifest_codec.cpp:162-166 | The chunk count is the ceiling of the quotient |
| Chunks.ExtentsPartition | src/transfer/file_utils.cpp:56-61 | Every byte of the file lies in exactly one chunk |
| Chunks.CompletedPlusMissingBytes | apps/receiver.cpp:44-51 | For any completed set the bytes of completed and missing chunks add up to the file size, and neither total wraps |
| Chunks.BytesForChunks | apps/receiver.cpp:44-51 | The running total is the sum of the payload sizes modulo 2^64 |
| Chunks.ChunksCoverFile | src/transfer/file_utils.cpp:56-61 | The chunks cover the file if and only if size plus chunk size minus one fits in 64 bits |
| Chunks.ChunkCountWraps | src/transfer/file_utils.cpp:56-61 | A size for which the count wraps to zero |
| Chunks.AcceptedHeaderInFile | src/transfer/chunk_codec.cpp:89-111 | For every manifest the decoder accepts, wrapped or not, an accepted chunk ends within the file |
| ManifestCodec.Bijection | src/transfer/manifest_codec.cpp:98-172 | A frame decodes to a manifest if and only if the manifest is acceptable and the frame is its frame up to the two ignored flag bytes |
| ManifestCodec.RoundTrip | src/transfer/manifest_codec.cpp:98-172 | Decoding undoes encoding for every acceptable manifest |
| ManifestCodec.Serialize | src/transfer/manifest_codec.cpp:98-121 | The appended bytes are the encoding, whose layout is ManifestCodec.Layout; nothing for a name over 255 bytes |
| ManifestCodec.Layout | src/transfer/manifest_codec.cpp:98-121 | Every byte of a frame by position: length, PBFM, version 0 1, name length, the four numbers most significant byte first, two zero bytes, the name |
| ManifestCodec.ArrivesExactly | src/transfer/manifest_codec.cpp:123-172 | Version 1, a name of 1 to 255 bytes, a chunk size that is not zero, the count that the 64-bit arithmetic gives and no digest: exactly these manifests decode as they were encoded |
| ManifestCodec.Deserialize | src/transfer/manifest_codec.cpp:123-172 | The field reads and checks compute the decoding function, refusals included |
| ChunkCodec.Bijection | src/transfer/chunk_codec.cpp:58-87 | Headers and accepted 32-byte strings correspond one to one |
| ChunkCodec.Serialize | src/transfer/chunk_codec.cpp:58-68 | The appended bytes are the encoding |
| ChunkCodec.Layout | src/transfer/chunk_codec.cpp:58-68 | Every field of a header by position, most significant byte first |
| ChunkCodec.Deserialize | src/transfer/chunk_codec.cpp:70-87 | The field reads compute the decoding function |
| ContinuationCodec.Bijection | src/transfer/continuation_codec.cpp:70-115 | Requests of at most a million indexes and accepted payloads correspond one to one |
| ContinuationCodec.OversizeRefused | src/transfer/continuation_codec.cpp:103-106 | The encoding of a longer request is refused |
| ContinuationCodec.Serialize | src/transfer/continuation_codec.cpp:70-85 | The appended bytes are the encoding |
| ContinuationCodec.Layout | src/transfer/continuation_codec.cpp:70-85 | Every field and every index of a request by position |
| ContinuationCodec.Deserialize | src/transfer/continuation_codec.cpp:87-115 | The reads compute the decoding function |
| ContinuationCodec.Validate | src/transfer/continuation_codec.cpp:117-135 | Comparing neighbours decides whether the whole list is increasing and in range |
| ContinuationCodec.RefusedExactly | src/transfer/continuation_codec.cpp:117-135 | A request is refused exactly for another session, another count, an index out of range or a neighbour out of order |
| ContinuationCodec.AlreadyPresentFits | apps/sender.cpp:166-167 | An accepted list is no longer than the chunk count, so the difference does not underflow |
| HashCodec.Bijection | src/transfer/hash_codec.cpp:64-93 | Packets with a proper digest and accepted 76-byte strings correspond one to one |
| HashCodec.Serialize | src/transfer/hash_codec.cpp:64-75 | The appended bytes are the encoding; nothing for an improper digest |
| HashCodec.Layout | src/transfer/hash_codec.cpp:64-75 | Every field of a packet by position |
| HashCodec.Deserialize | src/transfer/hash_codec.cpp:77-93 | The reads compute the decoding function |
| BigEndian.DecodeEncode | src/transfer/manifest_codec.cpp:21-60 | Decoding undoes encoding for every value that fits the width |
| BigEndian.EncodeDecode | src/transfer/manifest_codec.cpp:21-60 | Encoding undoes decoding |
| BigEndian.Append | src/transfer/manifest_codec.cpp:26-36 | The shift loop appends the big-endian bytes |
| BigEndian.Read | src/transfer/manifest_codec.cpp:46-60 | The accumulating loop reads them and advances the offset |
| BigEndian.Field8 | src/transfer/manifest_codec.cpp:31-36 | An eight-byte field is the sum of its bytes times powers of 256, the first byte the most significant |
| Sha256.Sha256.Update | src/crypto/sha256.cpp:54-63 | The object stands for everything fed to it: whole blocks compressed, the tail buffered, the bit count modulo 2^64 |
| Sha256.Sha256.FinalHex | src/crypto/sha256.cpp:65-90 | The result is the FIPS 180-4 digest of all bytes fed, as lowercase hexadecimal, in both padding branches; the digest function has the published values |
| Sha256ExampleAbc.AbcDigest | src/crypto/sha256.cpp:54-139 | The digest of abc is the published one |
| Sha256ExampleTwo.TwoBlockDigest | src/crypto/sha256.cpp:54-139 | The digest of the 56-byte example, which takes two blocks, is the published one |
| Sha256Steps.RoundTo | src/crypto/sha256.cpp:108-129 | A round from the values of its bit functions, as sums modulo 2^32 |
| Sha256Steps.WordTo | src/crypto/sha256.cpp:102-106 | A schedule word from earlier words |
| Sha256.Sha256.Finish | src/crypto/sha256.cpp:75-82 | Zeros to byte 56, the length, one more compression |
| Sha256.Sha256.ProcessBlock | src/crypto/sha256.cpp:93-139 | The compression function of section 6.2.2 |
| Sha256.Sha256.RunRounds | src/crypto/sha256.cpp:108-129 | The sixty-four rounds |
| Sha256.Sha256.ExpandBlock | src/crypto/sha256.cpp:94-106 | The message schedule |
| Sha256Spec.BitFunctionValues | src/crypto/sha256.cpp:24-50 | The values of the six bitwise functions on the initial hash value and on the first word of the padded message "abc" |
| Sha256Spec.ChooseSelects | src/crypto/sha256.cpp:28-30 | Choose takes each bit from its second or third argument as the first tells it |
| Sha256Spec.MajorityVotes | src/crypto/sha256.cpp:32-34 | Majority has a bit exactly where at least two arguments have it |
| Sha256.HashPieces | src/crypto/sha256.cpp:54-63 | For every way of cutting a message into updates the digest is that of the whole message |
| Sha256.Sha256File | src/crypto/sha256.cpp:155-177 | The read loop digests the whole file, or reports the read error |
| Sha256.PadInOneBlock | src/crypto/sha256.cpp:75-82 | With room for the length, the bytes compressed are the padded message of section 5.1.1 |
| Sha256.PadInTwoBlocks | src/crypto/sha256.cpp:67-82 | Otherwise too, with the zeros divided between two blocks |
| Sha256.LengthFieldExact | src/crypto/sha256.cpp:79-81 | Below 2^61 bytes the length field is the true bit length |
| Sha256.PadInjective | src/crypto/sha256.cpp:65-82 | Below 2^61 bytes padding loses nothing |
| Sha256.DigestIsSha256Hex | src/crypto/sha256.cpp:84-90 | Every digest produced is accepted as a digest |
| Sha256.DigestHexInjective | src/crypto/sha256.cpp:84-90 | Equal digest texts mean equal digests |
| Sha256.CheckSha256Hex | src/crypto/sha256.cpp:179-190 | True exactly for 64 lowercase hexadecimal characters |
| Sha256.DigestTextExactly | src/crypto/sha256.cpp:179-190 | A digest text has 64 characters out of 0123456789abcdef |
| Sha256Constants.RoundConstantsAreCubeRoots | src/crypto/sha256.cpp:14-22 | Each constant is the first 32 bits of the fraction of the cube root of its prime |
| Sha256Constants.InitialValueIsSquareRoots | src/crypto/sha256.cpp:141-143 | Each initial word is the first 32 bits of the fraction of the square root of its prime |
| FileUtils.SanitizeFilename | src/transfer/file_utils.cpp:18-40 | The loops compute the sanitized name, which FileUtils.SanitizeExactly writes out |
| FileUtils.SanitizeExactly | src/transfer/file_utils.cpp:18-40 | The last component of a path without its leading dots, each character kept or replaced by an underscore; "file" exactly if nothing is left |
| FileUtils.BasenameIsLast | src/transfer/file_utils.cpp:10-16 | The base name is what follows the last slash or backslash |
| FileUtils.SanitizeTraversal | src/transfer/file_utils.cpp:18-40 | The path ../../secret.txt becomes secret.txt |
| FileUtils.SanitizeHidden | src/transfer/file_utils.cpp:31-33 | The name ..hidden becomes hidden |
| FileUtils.SanitizeUnsafe | src/transfer/file_utils.cpp:23-29 | The space and the question mark of a name become underscores |
| FileUtils.SanitizeNothing | src/transfer/file_utils.cpp:35-37 | A path of slashes only becomes file |
| FileUtils.SenderFields | apps/sender.cpp:133-140 | The fields of the sender's manifest |
| FileUtils.SanitizedIsSafe | src/transfer/file_utils.cpp:18-40 | The name is not empty, has safe characters only and no leading dot |
| FileUtils.SanitizeStable | src/transfer/file_utils.cpp:10-40 | Sanitizing is idempotent and not changed by taking the base name first |
| FileUtils.SenderManifestAccepted | apps/sender.cpp:133-140 | For every path and every size below 2^63 the plan does not wrap and the name has no newline, and the receiver reads the manifest back if and only if the name has at most 255 bytes |
| Discovery.BuildParse | src/discovery/discovery_message.cpp:53-87 | Parsing a built announcement gives back name and port if and only if the name is valid and the port is not zero |
| Discovery.BuildsText | src/discovery/discovery_message.cpp:53-58 | The text of an announcement |
| Discovery.ParsesExactly | src/discovery/discovery_message.cpp:60-87 | Four fields are accepted exactly if they are the marker, the number 1, a name of 1 to 64 characters and a port from 1 to 65535, and the peer has these |
| Discovery.OtherPartsRefused | src/discovery/discovery_message.cpp:61-64 | A message without exactly four parts is refused |
| Discovery.SafePeerNameExactly | apps/broadcaster.cpp:47-57 | The name asked for, cut to 64 characters, or the default for an empty one or one with a bar |
| Discovery.AnnouncementAccepted | apps/broadcaster.cpp:47-57 | Whatever name is asked for, the announcement sent is accepted |
| Discovery.NormalForm | src/discovery/discovery_message.cpp:60-87 | Every accepted message, however written, can be rebuilt from its fields and parses to the same peer |
| Discovery.ParseMessage | src/discovery/discovery_message.cpp:60-87 | The parser computes the parse function, refusals included |
| Discovery.SplitMessage | src/discovery/discovery_message.cpp:15-25 | The getline loop computes the split |
| Discovery.ParseNumber | src/discovery/discovery_message.cpp:27-43 | Digits only and in range, or nothing |
| Listener.Listener.Pass | apps/listener.cpp:130-155 | After each pass that prunes, the table is the reference table of the whole history: the latest foreign announcement per address and port, not older than ten seconds; a skipping pass changes nothing |
| Listener.AnnouncementIsListed | apps/listener.cpp:130-155 | A valid announcement becomes the latest of its address and port, unless it is this host's own name from a loopback address; exactly then the pass is skipped |
| Listener.OthersKept | apps/listener.cpp:147-149 | Other addresses and ports are left alone, and a refused message changes nothing |
| Listener.ListedForTenSeconds | apps/listener.cpp:58-70 | A table lists exactly the peers heard within the last ten seconds, under address, colon and port |
| Listener.Listener.RemoveStalePeers | apps/listener.cpp:58-70 | Exactly the entries older than ten seconds are erased |
| Listener.PruningKeeps | apps/listener.cpp:58-70 | Pruning a table that tracks the history yields the reference table |
| Listener.QuietPassKeeps | apps/listener.cpp:139-142 | The skipping branch does no lasting harm |
| Listener.TableUnique | apps/listener.cpp:126 | There is only one reference table |
| Listener.PeerKeyInjective | apps/listener.cpp:50-52 | Different addresses or ports have different keys |

## Left out

- Creating, binding, connecting and closing sockets, timeouts and the platform branches: operating system calls without logic of their own.
- Logging, usage texts, the printed peer table, progress lines, rates and durations: output only.
- `join_output_path` and `checkpoint_path_for_output`: they only name the three files of the model.
- Recovery after the source changes between runs: the code does not provide it (`TransferResume.MismatchRepeats`).
- Collision resistance of SHA-256: not provable, and delivery does not rest on it.
- `TransferSession`, `DiscoveryService`, `ChunkAck` and the unused message types: no behaviour.
- The order of the two programs' steps within a run: `Session.Run` lets each program's part run before the other's, which is enough because they share only the two streams.
- Receiver.Host.Negotiate: a `Host` is the three files of one output name; a manifest whose sanitized name differs leads to other files in the program, and to these in the model, which touches more than the program does.
- Session.RunAgainstAnySender: the same; the program would leave the files of this name alone.
- Sha256.Sha256.FinalHex: the object is not used after it, and its state then is not described.
