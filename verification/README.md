# Verification of the RAR decode path

A Dafny model of a streaming RAR5 extractor written in Go, with proofs of the properties its design rests on:
the block decoder and its parallel pipeline, the LZ77 ring window and the filters, the bit reader and Huffman
tables, the BLAKE2sp hasher, the ownership protocols around Close and the decode workers, and the traversal,
splice, checksum and decryption state machines above them.

`dafny verify dfyconfig.toml` checks the whole project.

## How the parts fit together

- **The decoder and its pipeline.** `Serial` and `Emission` say what the serial decoder does, as functions over
  a finite byte source. `Pipeline` holds the decoder as an object, with the serial loop, the read-ahead ring,
  the replay of items and the inline finish, its workers completing jobs in any order; `PipeState` and `Ring`
  prove that every step keeps it in step with the serial decoder. `Agreement` concludes that every call of
  `Read` returns the same bytes and error from both as long as no code-length table is cut off by its own block's
  bit limit. The state a fill leaves, its place in the source included, is the same if and only if the fill meets
  no such block; for what `Read` returns the condition is sufficient, not necessary (`CutUnseen`), and not to be
  dropped either (`Rar5.CutTablesDisagree`). `BlockReplay` and `Items` state the compute/apply split for one
  block. `Emitted` and `Bounds` prove what runs of `Read` emit and that unread data is never overrun.
- **What was written.** `Fields`, `SymbolFormat`, `TableFormat` and `Written` say what an encoder puts into a block:
  codewords, extra bits, filter records, tables, headers. `SymbolFormat.WrittenRead`, `TableFormat.TextRead` and
  `Written.FillPlays` prove that decoding undoes it; `Packing` that it can always be done. `WholeMember` concludes for
  whole members: `Read` never fails, and returns the plain stream with its filters applied, serial or through the
  pipeline. `Verdict` says of any other member what a call can fail for.
- **One engine.** The block machinery is proved for any header reader, table reader, symbol reader, apply
  function and filters that keep six laws (`DecodeTypes`). `Rar5Laws` supplies the repository's own and proves
  that they keep them; `Rar5` draws the theorems for them. The record's `sealed` flag is not something the code
  reads: it says what a block with cut tables counts as, which is the one thing the two decoders disagree on.
- **Looked-at definitions.** Some predicates are stated for every value of the one-value type `Asked`, or for anything
  that passes a trivial test (`Looked`, `IsRar5`, `Same`). Naming that value, `Now`, is how a proof asks for the definition;
  otherwise it stays shut, which keeps the proofs about many parts at once small.
- **The real parts.** `Window`, `BitReader`, `Huffman`, `CodeTables`, `TableDecoders`, `WindowDecoder` and
  `BlockFill` are the imperative code, on arrays and mutable objects, each proved against the specification it
  refines (`Lz77`, `Bits`, `Canonical`, `Slots`, `Symbols`, `Apply`, `BlockHeader`). The canonical code is the
  one of section 3.2.2 of RFC 1951, with lengths up to 15. `BlockFill` joins them into the whole of `fill`, and
  `SerialRead`, with the filters, into the whole of `Read`.
- **Filters.** `Filters` and `BranchFilters`: each scalar filter in place, with its inverse. `FilterMeaning` says what
  each does to each byte, as `SymbolMeaning` does for the symbols and `Codewords` for the rest of the code.
- **BLAKE2sp.** `Blake2s`, `Blake2sp`, `Strides` and `Blake2spHasher`, and `BlakeTree` for the digest; the
  compression and finalisation of sections 3.2 and 3.3 of RFC 7693 are uninterpreted functions.
- **Protocols.** `CloseProtocol` and `WorkerProtocol` are interleaved atomic steps: one lock acquisition, channel
  operation or stream Close each, with invariants over every run.
- **The layers above.** `Cbc` (section 6.2 of NIST SP 800-38A, the block cipher uninterpreted), `Splice`, `Entry`
  and `SolidRun`, each as objects whose sources may return any counts and errors. `CbcMeaning`, `Continuation` and
  `Admission` say what they come to without going through their steps.

Errors are an enumeration; "soft" errors are EOF and out-of-data, which `decoder50.Read` treats as nothing more
for now, and all others are hard. Comparisons run up to the first hard error.

Where the code departs from its comments the model follows the code. `reader.go:119-122` says nothing may advance
the volume between staging a header and consuming it; a spliced member that is read again after it reported EOF
can. `Splice` allows such reads and its properties hold throughout them.

## Model

| member | source | states |
|---|---|---|
| Agreement.BothDecoders | decoder50_parallel.go:509-582 | For every engine that keeps the laws, decoder state, tables, finite source with no code-length table cut by its own block, sequence of read sizes, worker count above one, item capacity, payload limit and completion order, every call of Read returns the same bytes and the same error from the serial decoder and from the pipeline, EOF included, up to and with the first hard error; and they are the specification's |
| Agreement.ReadAll | decoder50.go:357-458 | A run of Read on the decoder object, serial or engaged, returns from each call what the specification's run from its serial shadow does |
| Agreement.RunsAgree | decoder50.go:357-458 | Whole runs of Read agree with and without sealing of cut tables, given that no table is cut |
| Agreement.ReadsAgree | decoder50.go:357-458 | One Read agrees, and leaves the source with no cut table ahead |
| Agreement.EmitsAgree | decoder50.go:376-458 | The emitting half of Read agrees |
| Agreement.StagesAgree | decoder50.go:336-353 | Staging a filter's input agrees, and leaves the source with no cut table ahead |
| Agreement.RefillsAgree | decoder50.go:341-346 | So does the fill in between |
| Agreement.FillsAgreeIff | decoder50_parallel.go:295-299 | The state a fill leaves, its place in the source included, and its error are the same in the serial decoder and in the pipeline if and only if it does not meet a block whose code-length tables are cut by its own bit limit |
| Agreement.CutUnseen | decoder50.go:304-313 | For what Read returns that is enough but not needed: a last block whose tables are cut, with no symbol left for the tables in force, is met and leaves the two decoders in different places, and no run of reads ever shows it |
| Agreement.FillsAgree | decoder50.go:294-322 | With no cut table ahead the two fills are equal, and there is still none ahead |
| Agreement.WholeMeetsNone | decoder50.go:152-158 | A source checked to have no cut table never meets one |
| Rar5.BothDecoders | decoder50_parallel.go:509-582 | The agreement, call by call, for the repository's own header reading, tables, symbols, matches and filters |
| Rar5Laws.Rar5Lawful | decoder50.go:138-164 | The repository's header reader, table reader, symbol reader, apply functions and filters keep the laws the block machinery is proved against |
| Rar5.MemberRun | decoder50.go:106-136 | From a reset decoder, for every source and sequence of read sizes: the filters run and, behind them, those still queued are exactly the blocks the stream's filter records announced, in order; what was emitted is the decoded stream with every filter run applied at its own range; unread data was never overrun, and every decoded byte is accounted for |
| Rar5.CutTablesDisagree | decoder50_parallel.go:295-299 | The agreement's condition is needed: on a one-block source with cut tables two one-byte reads report EOF and then a decode error serially, and EOF twice through the pipeline |
| Rar5.CutBlock | decoder50.go:152-158 | The serial decoder is left inside a block whose tables were cut, at the position where the bits ran out |
| Rar5.CutSerial | decoder50.go:294-322 | The serial half of the counterexample |
| Rar5.CutPipeline | decoder50_parallel.go:553-558 | The pipeline's half |
| Rar5Laws.HeadsConsumed | decoder50_parallel.go:26-55 | A header that was read consumed bytes; a clean EOF means the source is empty |
| Rar5Laws.RunFilter | decoder50.go:427-448 | Each filter keeps its input's length |
| WholeMember.MemberComesOut | decoder50.go:294-458 | A member written block by block, its operations all accepted and its filter blocks apart and inside its stream, read by any calls of Read: no call fails, what has come out is a front part of the plain stream with every filter applied at its own range, and once the end is reported it is all of it |
| WholeMember.MemberEnds | decoder50.go:357-458 | More calls with room than the stream has bytes bring out all of it, and then the end |
| WholeMember.PipelineToo | decoder50_parallel.go:509-582 | The pipeline gives the same: a source that was written has no cut table |
| WholeMember.OnWayFills | decoder50.go:294-322 | A fill on the way through such a member never fails, and leaves the window empty only when everything is decoded |
| WholeMember.StageOnWay | decoder50.go:336-353 | Staging never runs dry before it has what the stream holds |
| WholeMember.DueOnWay | decoder50.go:408-458 | A filter that is due in such a member is applied |
| WholeMember.AppliesBehind | decoder50_items.go:156-228 | What is accepted with nothing read is accepted, and does the same, however much has been read and however many filters are done |
| Written.FillPlays | decoder50.go:294-322 | A fill from a source that was written, with its headers, tables and operations, applies exactly those operations in order, until enough is unread or one is refused, and reports the end when none is left; where it stops it can go on |
| Written.BlockTaken | decoder50.go:138-164 | A block that was written is taken as it was written: its bits, its tables if it brings its own, its flag, and what follows it |
| Written.PayloadCut | decoder50.go:143-149 | A payload cut short is the end of the source if none of it is there, an error otherwise |
| Written.TablesCutOff | decoder50.go:152-158 | Tables cut off by their own block's bit limit leave the serial decoder inside that block, where the bits ran out, with the end of the data for its error |
| Written.OpCut | decoder50.go:304-320 | An operation cut off inside stops the fill, out of data, with the reader in front of what is not all there |
| Packing.BlockExists | decoder50_parallel.go:26-55 | Any operations the tables have codewords for, with or without tables of their own, have a block that says them, if they fit one |
| Packing.CodeFits | huffman.go:31-81 | A codeword of an accepted table is a number of its own length |
| SymbolFormat.WrittenRead | decoder50_items.go:67-152 | Decoding undoes encoding, for every operation there is: literal, match, repeat, repeat-last and filter record, written field by field, read back as themselves and leave the reader behind them; cut off inside they are out of data, cut off before their first codeword the end of the block |
| SymbolFormat.ReadCanBeSaid | decoder50_items.go:67-152 | And nothing is ever read that an encoder could not have written |
| SymbolFormat.OperandsRead | decoder50.go:274-289 | Which operands follow which main symbol |
| SymbolFormat.PairRead | decoder50_items.go:66-113 | A match's length, adjusted for its distance, and the distance |
| SymbolFormat.DistanceRead | decoder50_items.go:71-104 | A distance: slot, high bits, low-offset symbol |
| SymbolFormat.FilterRead | decoder50_items.go:126-152 | A filter record: two values of one to four bytes, a type, and channels for delta alone |
| SymbolFormat.WideRead | decoder50.go:182-206 | A value may be written with more bytes than it needs |
| TableFormat.TextRead | huffman.go:150-215 | A table, however it is written, with single lengths, repeats and zero runs of either width, reads back as what it spells; cut off by the limit it is the end of the data |
| TableFormat.TablesRoundTrip | decoder50_items.go:21-37 | Any four accepted tables can be written, and are what reading and loading them gives |
| TableFormat.TablesLoaded | decoder50_items.go:21-37 | The four are cut from the table in the order symbols, distances, low offsets, lengths |
| TableFormat.RunIsRead | huffman.go:177-212 | Symbols 16 and 18 with three bits are runs of 3 to 10, 17 and 19 with seven bits runs of 11 to 138; the first two repeat the entry before, the others write zeros |
| TableFormat.PieceRead | huffman.go:155-171 | Fifteen and a count is a run of two more zeros than that, fifteen and nothing the length 15 |
| TableFormat.OverfullRefused | huffman.go:173-175 | An over-full code for the table is refused before anything is read in it |
| TableFormat.RepeatRefused | huffman.go:202-206 | A table that begins with a repeat is refused |
| Codewords.NoCodeword | huffman.go:108-146 | A stream that starts with no codeword is over if it has not fifteen bits, and otherwise reads as symbol 0 or as no symbol, which exactly |
| Codewords.SomeCodeword | huffman.go:108-146 | Below the last limit every stream starts with a codeword |
| Codewords.EmptyIs | huffman.go:108-114 | A table has no codewords if and only if all its lengths are zero, and then nothing is read by it |
| Codewords.LengthSlotsAdjoin | decoder50.go:166-180 | The length slots follow one another without a gap, each as wide as its extra bits |
| Codewords.DistanceSlotsAdjoin | decoder50_items.go:61-86 | So do the distance slots |
| Verdict.RunVerdict | decoder50.go:357-458 | Any run that fails does so because a fill it made failed, with that error, or the stream ended inside an announced block, or one announced block starts inside the one before it |
| Verdict.RunSucceeds | decoder50.go:357-458 | So with blocks that lie apart and no failing fill nothing is refused but a stream that ends inside a block; blocks that merely adjoin are no reason |
| Verdict.ReadVerdict | decoder50.go:357-388 | One Read: with room it returns a byte, reports the end only when nothing is left to decode, or fails for one of those reasons |
| Verdict.EmitVerdict | decoder50.go:389-458 | Its emitting half |
| Verdict.DueVerdict | decoder50.go:408-426 | A filter that is due is refused if and only if its input cannot be staged or a block then queued starts strictly inside its range |
| Verdict.StageVerdict | decoder50.go:336-353 | Staging delivers if and only if some number of rounds, each taking all there is and decoding more, comes up with enough and none before was in vain; otherwise it ends with that round's error, or an unexpected end |
| SymbolMeaning.SymbolDoes | decoder50_items.go:156-228 | What each operation leaves of every field of the decoder: the bytes, the four distances, the length, the queue, or which refusal |
| SymbolMeaning.RecordQueues | decoder50_items.go:190-228 | A filter record is refused for one of four reasons, each with its exact condition, or queued at its distance ahead |
| SymbolMeaning.ReplayCopies | decoder50_items.go:165-174 | A match repeats the history at its distance, for exactly the distances held |
| FilterMeaning.FilterMeans | decoder50.go:427-448 | What a block's type does to each byte of it, in plain arithmetic |
| FilterMeaning.ArmMeans | filters.go:37-54 | Every word that ends in 0xeb loses its own word address from its 24-bit operand; nothing else changes |
| FilterMeaning.E8Is | filters.go:72-112 | Behind every CALL, and JMP for the second kind, an absolute address becomes relative to its position, as a signed number; every other byte stays |
| FilterMeaning.StartsWhere | filters.go:72-112 | An instruction is an opcode with its operand behind it that lies in no other's operand |
| FilterMeaning.ToRelativeIs | filters.go:95-107 | The tests on raw bits, as a map of signed addresses |
| FilterMeaning.DeltaMeans | filters.go:15-34 | Each byte is the one before it in its channel less the byte stored for it, at a place given in closed form |
| BlakeTree.TreeIsDigest | blake2sp.go:265-316 | The sum of what was written is BLAKE2sp's: eight leaves over their shares of the blocks, each with its own parameters and final count, under the root |
| BlakeTree.SumIsChain | blake2sp.go:81-116 | One node's sum is its message's, block by block with the count so far, the last block padded and finished with the full count |
| BlakeTree.SharesDealt | blake2sp.go:274-301 | What each leaf is dealt |
| CbcMeaning.RoundTrip | crypto.go:101-102 | Decryption gives back every plaintext of whole blocks that was encrypted in this mode |
| CbcMeaning.PlainBits | crypto.go:101-102 | A plaintext bit is the inverse cipher's, exclusive-or the ciphertext block before it |
| Admission.AdmittedWhen | reader.go:655-827 | A member is read out if and only if its header is whole, its version known, its size modest, its window there or to be had, its chain to be built, and, if it is solid, the archive is and its history sound |
| Admission.RefusedWhen | reader.go:655-827 | Every other answer has exactly one condition |
| Admission.ExpandsExactly | reader.go:776-792 | The guard against overflow changes nothing of the ratio that is refused |
| Admission.SoundWhen | reader.go:594-616 | Which ends leave the history sound |
| Continuation.SearchIsPlace | splice.go:97-266 | The search always comes to one place, with everything in front of it passed over, and goes on with the member if and only if an agreeing continuation stands there; otherwise it stops with the fault of what does |
| Continuation.GoesOnFound | splice.go:97-266 | A continuation is found if in front of it are only sound archive headers and other blocks with whole payloads, volumes that end or are cut, and streams cut inside their signature |
| Continuation.GivesUpStops | splice.go:97-266 | And which header, volume or stream ends the search with which fault |
| Continuation.LaidMember | splice.go:24-89 | A member laid over its volumes like that is the member the splice reads, all of it |
| Splice.Splicer.Try | splice.go:28-89 | What the part still gives, or the next part; a fault is the payload's own, or the one the end of the part came to |
| Splice.Splicer.Turn | splice.go:59-89 | Why the end of a part ends the read |
| Splice.Splicer.Follow | splice.go:79-85 | The part that was found becomes the one being read |
| BlockHeader.HeadOfSource | decoder50_parallel.go:26-55 | What the header of any source comes to, bit by bit: too short, corrupt by its count or its checksum, or its size, its bits of the last byte and its two flags |
| BlockHeader.ChecksumBalances | decoder50_parallel.go:37-50 | The checksum holds if and only if flags, checksum and size bytes have every bit of 0x5a an odd number of times and no other |
| BlockHeader.XorByteBits | decoder50_parallel.go:37-47 | An exclusive or is one where its operands differ |
| Pipeline.Decoder50.constructor | decoder50_parallel.go:125-176 | A decoder pointed at a source behaves, serial or engaged, as the serial decoder from the same state and tables |
| Pipeline.Decoder50.Fill | decoder50.go:294-297 | Either way a fill ends as the serial fill does: the same decoder state, and the same error unless both are soft |
| Pipeline.Decoder50.FillSerial | decoder50.go:297-322 | The serial loop is the specification's fill |
| Pipeline.Decoder50.FillParallel | decoder50_parallel.go:509-582 | The pipeline's loop passes through the serial fill's own states and ends where it ends |
| Pipeline.Decoder50.AwaitHead | decoder50_parallel.go:512-525 | An empty ring surfaces the pending error or the end exactly where the serial fill meets it; otherwise the oldest job is awaited |
| Pipeline.Decoder50.Drained | decoder50_parallel.go:513-520 | With nothing in flight the error reported is the one serial decoding reaches next |
| Pipeline.Decoder50.ReplayHead | decoder50_parallel.go:527-562 | Replaying the oldest job follows the serial fill, error order included |
| Pipeline.Decoder50.FinishHead | decoder50_parallel.go:563-579 | A partial, oversize or out-of-data block finished inline follows the serial fill |
| Pipeline.Decoder50.GoOn | decoder50_parallel.go:572-579 | Leaving a finished block, or ending at the last one, is what the serial fill does |
| Pipeline.Decoder50.ReplayItems | decoder50_items.go:366-402 | Items are applied in order until the target or the last one, each at the serial decoder's next symbol |
| Pipeline.Decoder50.ReplayOne | decoder50_items.go:371-398 | One item, or a filter's pair, is applied as the symbol it was read from |
| Pipeline.Decoder50.FinishBlockInline | decoder50_items.go:416-442 | Continuing from the saved reader follows the serial loop; out of data keeps the block, any other error ends it |
| Pipeline.Decoder50.ReadAhead | decoder50_parallel.go:261-331 | However far the ring is filled, jobs, table sets and the rest of the source stay what serial decoding will find |
| Pipeline.Decoder50.ReadOne | decoder50_parallel.go:262-331 | One trip of the read-ahead loop keeps that |
| Pipeline.Decoder50.Fetch | decoder50_parallel.go:262-305 | Header, payload and tables of the next block, or an error that is latched and not returned |
| Pipeline.Decoder50.Push | decoder50_parallel.go:306-330 | A block enters the ring with a reference on the set in force |
| Pipeline.Decoder50.NextSet | decoder50_parallel.go:300-303 | New tables go to a set no job in flight references |
| Pipeline.Decoder50.FreeTableSet | decoder50_parallel.go:249-256 | The search for a free set always finds one |
| Pipeline.Decoder50.Pop | decoder50_parallel.go:488-504 | The oldest job leaves and its set's count drops |
| Pipeline.Decoder50.Wait | decoder50_parallel.go:474-485 | The oldest job is complete afterwards, whatever else the workers completed meanwhile |
| Pipeline.Decoder50.RunWorker | decoder50_items.go:294-350 | A job's result is the same whenever a worker runs it, since its table set cannot be reloaded under it |
| Pipeline.Decoder50.Decode | decoder50_items.go:294-350 | A worker's array-filling loop gives the specification's items |
| Pipeline.Decoder50.ReadBlockHeader | decoder50.go:138-164 | The serial header read takes exactly the specification's block |
| Pipeline.Decoder50.StageFilterInput | decoder50.go:336-353 | A filter's input is staged as the specification says |
| Pipeline.Decoder50.StageOnce | decoder50.go:337-351 | One trip of its loop |
| Pipeline.Decoder50.Read | decoder50.go:357-388 | Read is the specification's, serial or engaged, until a hard error |
| Pipeline.Decoder50.Emit | decoder50.go:389-458 | Its emitting half |
| PipeState.JobDone | decoder50_parallel.go:356-377 | Completing any job, in any order, keeps the pipeline in step with the serial decoder |
| PipeState.HeadLeft | decoder50_parallel.go:549-561 | Popping a finished block is the serial decoder leaving it |
| PipeState.HeadEntered | decoder50_parallel.go:521-525 | The next job is the block the serial decoder enters next |
| PipeState.FreeSet | decoder50_parallel.go:246-256 | One more set than slots: a set no job references always exists |
| PipeState.SetLoaded | decoder50_parallel.go:300-316 | Loading a set no job references changes no job |
| PipeState.ReadFailed | decoder50_parallel.go:262-299 | A latched read-ahead error is the one serial decoding meets after the blocks already read |
| PipeState.LoadFailed | decoder50_parallel.go:304-312 | So is a failed table load, whatever it left in its set |
| PipeState.BlockPushed | decoder50_parallel.go:313-330 | Pushing a block keeps the ring a chain of the serial decoder's next blocks |
| PipeState.ItemIsNext | decoder50_items.go:294-350 | The next item is the symbol serial decoding reads next, and the rest of the items the rest of the block |
| PipeState.ItemReplayed | decoder50_items.go:366-402 | Replaying it keeps the two decoders together |
| PipeState.ItemsSpent | decoder50_parallel.go:536-563 | A job with its items used up says how serial decoding goes on: its error, its saved reader or the block's end |
| PipeState.InlineAdopts | decoder50_items.go:417-422 | Adopting the job's tables and reader |
| PipeState.ErrorSurfaces | decoder50_parallel.go:512-520 | With the ring empty the pending error is serial decoding's next one |
| PipeState.Engaged | decoder50_parallel.go:160-176 | An engaged, empty ring seeded from the serial tables starts in step |
| Ring.FreeSetExists | decoder50_parallel.go:246-256 | The pigeonhole argument behind the free set |
| Ring.ChainPush | decoder50_parallel.go:313-330 | A new job extends the chain of blocks in flight |
| Items.ItemRoundTrip | decoder50_items.go:245-262 | The 32-bit distance-1 and 16-bit length fields lose nothing: replay sees the symbol that was read |
| Items.ItemFieldsAreTight | decoder50_items.go:250-255 | One past the largest distance or length no longer survives the fields |
| Items.DecodeBlockItems | decoder50_items.go:294-350 | The loop over the item array stores exactly the block's symbols, stops for room, end or error, and leaves the reader at the first symbol not stored |
| Items.Store | decoder50_items.go:312-347 | A symbol's one or two items go behind the ones before |
| Items.DecodeItemsFit | decoder50_items.go:305-308 | The items never overflow the array |
| BlockReplay.BlocksAgree | decoder50_items.go:294-442 | For every block, tables, item capacity and sequence of fill targets with the caller draining in between, items then replay then inline finish give the same decoder states and the same error at the same symbol as symbol-by-symbol decoding |
| BlockReplay.RunsAgree | decoder50_items.go:366-442 | The same from any point reached in the block |
| BlockReplay.TurnsAgree | decoder50_parallel.go:526-579 | One fill inside the block, wherever the two decoders stand |
| BlockReplay.ReplayAgrees | decoder50_items.go:366-402 | One fill that starts on items |
| Serial.SerialFill | decoder50.go:297-322 | A fill only appends to the history and takes nothing out of the window |
| Serial.FollowSymbol | decoder50.go:299-320 | One symbol read and applied is one step of the fill |
| Serial.FillSettled | decoder50.go:305-312 | A block at its end, and not the last, is left without any effect |
| Serial.TakeBlock | decoder50.go:139-163 | A block taken from the source consumes part of it |
| Emitted.RunEmits | decoder50.go:357-458 | In every run of Read with any buffer sizes and no hard error, emitted bytes plus outbuf are the decoded stream up to tot with every applied range replaced by its filter's output; applied blocks followed by queued ones are the ones before followed by all the run announced: none is lost, invented or run out of order |
| Emitted.ReadEmits | decoder50.go:357-458 | One Read keeps that, with the blocks its own decoding announces |
| Emitted.EmitEmits | decoder50.go:389-458 | So does its emitting half, with those announced while a filter's input is staged |
| Emitted.FillQueues | decoder50_items.go:193-228 | A fill queues exactly the blocks its accepted filter symbols announce, behind those queued before |
| Emitted.StageQueues | decoder50.go:336-353 | So does staging a filter's input |
| Emitted.FilterEmits | decoder50.go:399-458 | A filter fires exactly when tot equals its start, on exactly its range |
| Emitted.FilterRan | decoder50.go:420-458 | The filtered block, its overflow into outbuf and the position it was run at |
| Emitted.CopyEmits | decoder50.go:376-396 | Unfiltered bytes ahead of a pending filter are copied up to its start and no further |
| Emitted.StageDelivers | decoder50.go:336-353 | Staging delivers the decoded stream's next bytes, all of them or a hard error |
| Emitted.FillDecodes | decoder50.go:294-322 | Decoding queues filters in order and never behind the emission position |
| Emitted.FillKeepsInv | decoder50.go:294-322 | A fill keeps the emission invariant |
| Emission.Stage | decoder50.go:336-353 | A staging failure is never a clean EOF or out of data |
| Emission.Emit | decoder50.go:389-458 | An emission failure is always hard |
| Bounds.RunFits | decoder50.go:357-458 | In every run, unread bytes stay below the window size and decoded equals tot plus the unread bytes plus exactly the bytes that a filter which failed had staged, none while no error is hard |
| Bounds.ReadFits | decoder50.go:357-458 | One Read keeps that, and says how many bytes are held by a filter that failed |
| Bounds.EmitFits | decoder50.go:389-458 | So does its emitting half |
| Bounds.FillFits | decoder50.go:294-322 | Every symbol a fill applies finds room in front of the read pointer |
| Bounds.StageAccounts | decoder50.go:336-353 | Staging neither loses nor invents a byte, however it ends |
| Bounds.StageFits | decoder50.go:336-353 | Staging never fills the window |
| Bounds.FillAccounts | decoder50.go:294-322 | A fill counts every byte it writes |
| Apply.MatchAccepted | decoder50.go:258-271 | A match is accepted if and only if its distance points at a byte of this history the window holds; a refusal is a capacity limit if and only if all four conditions hold |
| Apply.AppliedGrown | decoder50_items.go:156-228 | Applying a symbol only appends to the history and the filter queue, with starts in order, and refuses only with a hard error |
| Apply.AppliedQueues | decoder50_items.go:193-228 | An accepted symbol queues what it announces, an empty filter nothing, and a refused one nothing |
| Apply.AppliedFits | window.go:130-138 | Below the fill target one symbol cannot fill the window |
| Apply.RefusedUnchanged | decoder50.go:236-239 | A refusal leaves window, decode count and filter queue alone |
| Apply.RecalledReorders | decoder50_items.go:175-183 | Reusing a distance moves it to the front and only reorders the history |
| Apply.LastRepeated | decoder50_items.go:186-188 | The repeat-last symbol after a match is the same as naming the newest distance with that length, leaves the distances in order, and copies that many bytes at that distance |
| WindowDecoder.WindowDecoder.ApplySymbol | decoder50.go:274-289 | On the ring buffer, applying any symbol is the specification's apply |
| WindowDecoder.WindowDecoder.CopyMatch | decoder50.go:260-271 | The copy or the classified refusal, read from the window's state |
| WindowDecoder.WindowDecoder.ReplayMatch | decoder50_items.go:167-173 | A match counts its bytes as decoded only if it happened |
| WindowDecoder.WindowDecoder.ApplyMatch | decoder50_items.go:156-163 | The distance history rotates by one |
| WindowDecoder.WindowDecoder.ApplyRepDist | decoder50_items.go:177-183 | The overlapping copy moves the slot to the front |
| WindowDecoder.WindowDecoder.QueueFilter | decoder50_items.go:193-228 | The filter record's checks in their order, an empty block dropped, any other queued at decoded plus offset |
| BlockFill.FillBlock | decoder50.go:297-322 | On the ring buffer, the 64-bit bit reader and the Huffman tables together, the symbol loop reaches exactly the point the specification's fill passes through |
| BlockFill.DecodeSymbol | decoder50.go:304-319 | One symbol read and applied on the real parts |
| BlockFill.SymbolStep | decoder50.go:304-319 | What that does to the fill |
| BlockFill.SerialDecoder.Fill | decoder50.go:294-322 | The whole of fill on the real parts, blocks and code tables included: the state, the place in the source and the error are those of the specification's fill, and unless the error is hard it can be called again |
| BlockFill.FillIs | decoder50.go:294-322 | What Fill ensures is equality with the specification's fill for the repository's engine |
| BlockFill.SerialDecoder.NextBlock | decoder50.go:139-163 | Header, payload and tables read into the real parts are the specification's next block, with the tables in force kept if it brings none |
| BlockFill.SerialDecoder.ReadTables | decoder50.go:155-161 | The code-length table read and the four decoders loaded, or the error, the reader's place and the old tables |
| BlockFill.SerialDecoder.Leave | decoder50.go:304-313 | A block with no more symbols is left, or ends the member if it is the last |
| SerialRead.SerialReader.Read | decoder50.go:357-458 | Read on the real parts: the ring buffer, the caller's array, the filters in place. It returns the bytes and the error of the specification's Read in the front of the caller's buffer, touches nothing behind them, and leaves the decoder where that leaves it, after a hard error too |
| SerialRead.SerialReader.ReadAll | decoder50.go:357-458 | So does every call of any run |
| SerialRead.ReadAll | decoder50.go:357-458 | A serial decoder on its real parts, wherever it stands, answers any run of reads as the specification's does for the repository's own engine, which Rar5.BothDecoders says the pipeline does too |
| SerialRead.SerialReader.Emit | decoder50.go:376-400 | Its emitting half: unfiltered bytes straight from the window, up to the next filter and no further, or that filter's block |
| SerialRead.SerialReader.EmitBlock | decoder50.go:408-458 | A filter that is due: its block staged, filtered and delivered |
| SerialRead.SerialReader.Filtered | decoder50.go:421-457 | The checks after staging, the filter in place, the front of its output to the caller and the rest kept for later |
| SerialRead.SerialReader.RunFilter | decoder50.go:428-444 | The switch on the filter's type, on arrays, computes the engine's filter |
| SerialRead.SerialReader.StageFilterInput | decoder50.go:336-353 | A filter's input staged into its array across window reads and fills, as the specification stages it |
| SerialRead.SerialReader.StageOnce | decoder50.go:338-351 | One trip of its loop |
| SerialRead.SerialReader.CopyOut | decoder50.go:380-396 | The unfiltered copy from the window into the caller's buffer |
| BlockFill.SerialDecoder.New | decoder50.go:96-102 | A new decoder on a window stands where the specification's starts, sharing nothing |
| BlockHeader.ReadBlockHead | decoder50_parallel.go:26-55 | The header read over a finite source: size, bits and flags, or the short read or corruption that stops it |
| BlockHeader.HeadRoundTrip | decoder50_parallel.go:26-55 | A header written with any size, bit count and flags reads back as exactly those, and takes only its own bytes |
| Window.Window.CopyBytes | window.go:265-296 | The chunked copy is the byte-at-a-time overlapping LZ77 copy across wraparound, or a refusal that changes nothing, for exactly the distances outside 1..history depth |
| Window.Window.CopyStep | window.go:278-294 | A chunk capped at the distance repeats the history, whichever end of the ring it meets |
| Window.Window.CopyChunk | window.go:279-293 | One memmove of history |
| Window.Window.WriteByte | window.go:213-222 | The byte is appended to the history and to the unread bytes |
| Window.Window.WriteBytes | window.go:228-242 | So are the bytes of a bulk write, across wraparound |
| Window.Window.Advance | window.go:232-240 | The write index, lap flag and full flag after a chunk |
| Window.Window.Read | window.go:310-354 | The oldest unread bytes in order, as many as fit, the rest of the caller's buffer untouched |
| Window.Window.ReadChunk | window.go:322-352 | One contiguous stretch, up to the write index or the buffer's end |
| Window.Window.Available | window.go:299-307 | The number of unread bytes |
| Window.Window.HistoryLen | window.go:104-109 | The depth of this history the buffer still holds |
| Window.Window.Target | window.go:136-138 | Half the window, capped |
| Window.Window.Reset | window.go:201-210 | The history goes, or only its unread mark does; stale bytes are never history |
| Window.Window.BeginFile | window.go:366-377 | A solid member after damage is refused and nothing changes; any other member starts afresh and clears the flag |
| Window.Window.Grow | window.go:156-174 | A size already met keeps the history; a larger one is a new empty window, or a failure that changes nothing |
| Window.Window.constructor | window.go:116-126 | A new window is empty and no smaller than the least size |
| Window.PutHolds | window.go:213-242 | A chunk written at w keeps the ring holding the end of the history |
| Lz77.LzCopyRepeats | window.go:244-264 | A copy is the one extension in which every new byte repeats the byte distance before it |
| Lz77.RepeatsChunk | window.go:251-256 | Up to distance bytes can be copied at once |
| BitReader.BitReader.Read | bit_reader.go:75-89 | ReadBits is the next k bits of the sequence, or EOF with no advance; it never reports out of data |
| BitReader.BitReader.Peek | bit_reader.go:92-101 | PeekBits is the next k bits with zeros past the end, and no advance |
| BitReader.BitReader.Advance | bit_reader.go:104-107 | Advancing over cached bits moves the cursor by exactly as many |
| BitReader.BitReader.Fill | bit_reader.go:48-64 | Afterwards at least 57 bits are cached or the buffer is used up, and the cache is still the sequence's next bits |
| BitReader.BitReader.FillTail | bit_reader.go:66-72 | The byte-by-byte end of that |
| BitReader.BitReader.Take | bit_reader.go:52-63 | Whole bytes join the cache below what is there |
| BitReader.BitReader.constructor | bit_reader.go:32-39 | A reset reader stands at the first bit |
| BitReader.CacheFront | bit_reader.go:82-88 | The top of the cache is the sequence's next bits, and the rest what follows |
| BitReader.CacheBack | bit_reader.go:56-63 | Shifting bytes in below keeps the cache a window on the sequence |
| BitReader.LoadKeeps | bit_reader.go:56-63 | An eight-byte load cut down to the bytes there is room for is those bytes |
| BitReader.BigEndianIsValue | bit_reader.go:56-63 | A big-endian load is the bits of those bytes |
| Canonical.DecodesCodeword | huffman.go:107-148 | For every accepted table, a stream starting with symbol s's canonical codeword decodes to s and advances by its length; if it overruns the limit the result is EOF with no advance |
| Canonical.PrefixFree | huffman.go:44-51 | No two assigned codewords start the same stream |
| Canonical.LimitIsNextCode | huffman.go:53-62 | The left-aligned limits are RFC 1951's first codes of each length |
| Canonical.SlotsDistinct | huffman.go:71-77 | Every used symbol has a place of its own in code order |
| Canonical.PosTotal | huffman.go:57-62 | The position after the last code of length n is the number of symbols in use with a code of at most that length, so never more than the table has |
| Canonical.SymbolInSlot | huffman.go:71-77 | The symbol found at a symbol's place is that symbol |
| Canonical.InInterval | huffman.go:129-142 | A stream starting with a codeword falls in that symbol's interval |
| Huffman.HuffmanDecoder.Init | huffman.go:31-105 | Exactly the tables with lengths up to 15 and Kraft sum at most one are accepted; the decoder built stands for the table, a refused one changes nothing |
| Huffman.HuffmanDecoder.Read | huffman.go:108-148 | ReadSym is the canonical decoding on the plain bit sequence, whichever path is taken and whatever the padding |
| Huffman.HuffmanDecoder.Quick | huffman.go:119-126 | The quick table gives the canonical length and symbol |
| Huffman.HuffmanDecoder.Slow | huffman.go:129-142 | So does the search through the limits |
| Huffman.QuickAgrees | huffman.go:79-103 | All streams that share a quick entry's bits below its limit have the same codeword |
| Huffman.CountLengths | huffman.go:32-42 | The counts of each length, or the refusal of one above 15 |
| Huffman.Kraft | huffman.go:44-51 | The scaled Kraft sum |
| Huffman.FillLimits | huffman.go:53-62 | Limits, positions and the least used length |
| Huffman.PlaceSymbols | huffman.go:64-77 | A stable counting sort of the symbols by code length |
| Huffman.FillQuick | huffman.go:79-103 | Every quick entry that is ever used agrees with the canonical code |
| Huffman.QuickAt | huffman.go:86-101 | One quick entry, from the length of the entry before |
| Huffman.IndexBelow | huffman.go:117-126 | Below the quick limit the place is always inside the symbol table |
| CodeTables.ReadCodeLengthTable | huffman.go:153-215 | The table read depends on the bits alone, not on what the array held before, and stops with the error and place the bits give |
| CodeTables.ReadBitLengths | huffman.go:154-172 | The twenty bit lengths with their zero-run escape |
| CodeTables.ReadCodeLengths | huffman.go:178-213 | The code lengths with their repeat and zero runs, cut off at the table's end |
| CodeTables.NextRun | huffman.go:179-207 | One symbol of the table: a length or a run, a repeat at the very start refused |
| CodeTables.ReadRun | huffman.go:193-207 | A run symbol reads its extra bits, repeats the length before it or zero, and is refused as the first one when it repeats |
| CodeTables.NextBitLength | huffman.go:156-171 | One bit length or run |
| CodeTables.WriteRun | huffman.go:208-212 | A run writes as many entries as fit and no others before it change |
| CodeTables.CodeLengths | huffman.go:178-213 | A table that is read has its full size; one that is not failed for one of three reasons |
| CodeTables.CodeLengthsInRange | huffman.go:178-213 | No length read is above 15, so every table read fits the decoders' limit arrays |
| CodeTables.RefusedByKraft | huffman.go:44-51 | A table read from the bits is refused if and only if one of its four codes has more codewords than 15 bits can tell apart |
| Slots.DistancesAreCodes | decoder50_items.go:67-114 | Distance decoding is a bijection from slot 0..63 with extra bits and low offset onto 1..2^32 |
| Slots.LengthsAreCodes | decoder50.go:166-180 | Length decoding is a bijection from slot 0..43 with extra bits onto 2..4097 |
| Slots.SlotDistanceBound | decoder50_items.go:247-253 | No slot and extra bits exceed the bound |
| Symbols.ParsedInRange | decoder50_items.go:245-262 | Every symbol the bits can say fits an item, consumes bits, and a failed one never looks like a clean end |
| Symbols.DistanceInRange | decoder50_items.go:73-113 | Every distance read lies in 1..2^32 |
| Symbols.FilterData | decoder50.go:189-205 | A filter value is below 2^32 |
| Symbols.BytesAre | decoder50.go:189-205 | A filter value is read least significant byte first: its byte at place i is the i-th byte of the stream |
| TableDecoders.Decoders.ReadSymbol | decoder50_items.go:309-347 | The four Huffman decoders on the bit reader read the specification's symbol, or its error and place |
| TableDecoders.Decoders.ReadMatchBits | decoder50_items.go:67-114 | Length, distance and the length adjustment for far matches |
| TableDecoders.FarLength | decoder50_items.go:104-112 | A far match is longer by one for each of the three distances it is beyond |
| TableDecoders.Decoders.ReadDistanceBits | decoder50_items.go:73-100 | The offset slot with its extra bits |
| TableDecoders.Decoders.ReadFromSlot | decoder50_items.go:77-103 | What follows the offset slot |
| TableDecoders.Decoders.ReadExtraBits | decoder50_items.go:80-98 | High bits and low-offset symbol, or a near distance's few bits |
| TableDecoders.Decoders.ReadRepeatBits | decoder50_items.go:118-124 | The length of a repeated distance |
| TableDecoders.Decoders.LoadTables | decoder50_items.go:23-37 | All four tables of the code-length table, or the first refusal: decoders before the refused one hold their new tables, it and those after it are as they were |
| TableDecoders.Decoders.New | decoder50_items.go:16-19 | New decoders hold the tables with no codewords |
| TableDecoders.ReadLength | decoder50.go:166-180 | A length slot with its extra bits |
| TableDecoders.ReadFilterBits | decoder50_items.go:129-152 | A filter record's four values |
| TableDecoders.ReadFilterKind | decoder50_items.go:138-151 | Its type, and delta's channel count |
| TableDecoders.ReadFilterData | decoder50.go:189-205 | A variable-width little-endian value |
| TableDecoders.ReadBytes | decoder50.go:196-203 | Its bytes, least significant first |
| Filters.FilterDelta | filters.go:15-34 | The front of the result is the delta specification, whatever the length of the buffer offered: that buffer, with nothing past the front touched, or a new one if it is too short; a channel count below one or beyond the length returns the input |
| Filters.DeltaInto | filters.go:24-33 | The channel loops compute the delta specification into the front of the buffer |
| Filters.DeltaUndone | filters.go:15-34 | Delta with 1 <= n <= length is undone by channel splitting and differencing |
| Filters.DeltaOfUndelta | filters.go:15-34 | And every buffer is the delta of its own differences, so delta is a bijection |
| Filters.DeltaChannel | filters.go:25-32 | One channel is written and no other touched |
| Filters.StartTotal | filters.go:24-32 | The channels together read every stored byte once |
| BranchFilters.FilterArm | filters.go:37-54 | The loop over instructions is the ARM specification |
| BranchFilters.ArmUndone | filters.go:37-54 | The ARM map and its inverse undo each other on every buffer and offset |
| BranchFilters.RelocatedBack24 | filters.go:44-50 | The operand map is a permutation modulo 2^24 |
| BranchFilters.FilterE8 | filters.go:72-112 | The scan with its 32-bit running position is the E8 specification on exact positions |
| BranchFilters.E8Undone | filters.go:72-112 | The scan visits the same opcode positions before and after rewriting, and rewriting back restores the buffer |
| BranchFilters.RelocatedBack32 | filters.go:95-107 | The address map is a permutation of the 32-bit values at every position |
| BranchFilters.NarrowingIsExact | filters.go:58-62 | Narrowing the position to 32 bits is exact, since only it modulo 2^24 matters |
| BranchFilters.RewriteOperand | filters.go:99-107 | One operand rewritten in place, its neighbours untouched |
| BranchFilters.RelativeOperand | filters.go:101-107 | The sign tests on raw bits compute the map |
| Blake2spHasher.HashAll | blake2sp.go:265-316 | For any sequence of writes of any sizes the digest is the BLAKE2sp digest of the concatenated input |
| Blake2spHasher.Hasher8.Write | blake2sp.go:279-301 | A write, however it is cut and whichever path it takes, leaves leaf states, buffer and turn as feeding it byte by byte |
| Blake2spHasher.Hasher8.WriteRest | blake2sp.go:290-300 | Whole strides, whole blocks and the remainder |
| Blake2spHasher.Hasher8.TopUp | blake2sp.go:281-289 | A partial block completed and dealt |
| Blake2spHasher.Hasher8.DealBlock | blake2sp.go:274-277 | A block to the leaf whose turn it is |
| Blake2spHasher.Hasher8.DealStrides | blake2sp.go:231-263 | The strided path is unobservable |
| Blake2spHasher.Hasher8.RunLanes | blake2sp.go:252-262 | All strides but the last through the kernel, the last held back in every leaf |
| Blake2spHasher.Hasher8.Catch | blake2sp.go:236-251 | The held-back blocks compressed with one counter, the leaves being in step |
| Blake2spHasher.Hasher8.Finish | blake2sp.go:304-316 | The digest: the last block dealt, then the root over the leaves' digests |
| Blake2spHasher.Hasher8.constructor | blake2sp.go:267-272 | A new hasher is the reference's initial tree |
| Blake2spHasher.Kernel | blake2sp.go:188-205 | The generic kernel runs every lane as if alone |
| Blake2spHasher.Chunked | blake2sp.go:211-222 | Cutting a call into at most 128 strides changes no lane and no counter |
| Blake2sp.AlwaysInStep | blake2sp.go:228-230 | Whatever was written, the leaves are in step when cur is zero: equal counters, and all hold a whole block or none holds anything |
| Blake2sp.FeedInStep | blake2sp.go:228-230 | Feeding keeps the leaves in step up to the current turn |
| Blake2sp.FeedSplit | blake2sp.go:279-301 | Feeding in two parts is feeding once |
| Blake2sp.FeedBlock | blake2sp.go:281-289 | A completed block is dealt |
| Strides.StridesDealt | blake2sp.go:224-263 | Dealing whole strides block by block is every leaf absorbing its own blocks |
| Strides.LeafRunIsLane | blake2sp.go:252-262 | A leaf absorbing its blocks is its kernel lane over all but the last, held back |
| Strides.LaneRunSplit | blake2sp.go:211-222 | A lane's run can be cut at any stride |
| Blake2s.Write | blake2sp.go:81-101 | Buffered writes with the last block held back are the byte-at-a-time reference |
| Blake2s.AbsorbThrough | blake2sp.go:90-97 | A whole block with more behind it needs no buffering |
| Blake2s.AbsorbSplit | blake2sp.go:81-101 | Absorbing in two parts is absorbing once |
| Cbc.CbcReader.Read | crypto.go:49-110 | Whatever counts the source returns, output is the front of what is owed; a clean or cut-short end comes only after all of it, ErrUnexpectedEOF exactly when a partial block remained, a terminal error repeats forever, and a read with room returns a byte or an error |
| Cbc.CbcReader.Fill | crypto.go:60-84 | Reading until a block is held loses no byte; an error other than EOF is recorded and drops what was held |
| Cbc.CbcReader.DecryptHeld | crypto.go:101-108 | The whole blocks held are decrypted and the tail carried over |
| Cbc.CbcReader.CryptBlocks | crypto.go:101-102 | The chaining value carries across calls |
| Cbc.CbcReader.constructor | crypto.go:37-47 | A new reader owes the decryption of its source's whole blocks |
| Cbc.ReadAll | crypto.go:49-110 | The same over any sequence of reads; reads with room that report no error deliver at least a byte each |
| Cbc.DecryptedSplit | crypto.go:101-106 | Decryption can be cut at any block boundary |
| Entry.Calls | entry.go:199-312 | In every sequence of Read and Close calls the first verdict is never replaced and no bytes follow it, the bytes returned are those delivered except what a Close dropped, delivered plus remaining is the size, and success means the member was vouched for |
| Entry.Do | entry.go:199-312 | One call keeps that |
| Entry.Entry.Read | entry.go:199-275 | A read keeps the byte budget and the checksum together and ends in the verdict its source's error calls for |
| Entry.Entry.Close | entry.go:299-312 | Close reads on until nothing more is to be had, unless there was a verdict already, settles the verdict and reports success as nil |
| Entry.Entry.Finish | entry.go:321-372 | The first verdict stands; only a short member whose Reader was closed is reclassified; success is checked here |
| Entry.Entry.VerifyChecksum | entry.go:377-469 | A member passes if and only if it delivered its size under a last-block header with at least one digest recorded and every one matching, if it has content, and a BLAKE2sp digest only if one was computed |
| Entry.Entry.Sever | reader.go:628-642 | A severed member keeps its verdict or ends truncated, and reads nothing more |
| Entry.Entry.Took | entry.go:257-261 | Bytes, budget, checksum and hasher move together |
| Entry.Entry.SetSource | entry.go:137-145 | The source is installed, and hashed exactly if the first header records a BLAKE2sp digest of unencrypted, unmasked content |
| Entry.Entry.constructor | entry.go:81-93 | A new member owes its declared size, negative or not |
| Entry.Entry.Link | entry.go:172-174 | A link owes nothing whatever it declares |
| Entry.Entry.Terminal | entry.go:153-155 | A refused member is finished before it starts |
| CloseProtocol.ClosedAtMostOnce | reader.go:1379-1433 | In every interleaving of volume advances with any number of Close calls, every stream is closed at most once |
| CloseProtocol.AllClosedInTheEnd | reader.go:1493-1571 | Once all Close calls have returned and the traversal is between calls, every stream received has been closed exactly once |
| CloseProtocol.NonePublishedAfterClose | reader.go:1273-1285 | After done is closed it stays closed and no volume is published |
| CloseProtocol.StepKeeps | reader.go:1254-1298 | Every step keeps exactly one owner for every stream not yet closed |
| CloseProtocol.RunKeeps | reader.go:1379-1571 | So does every run |
| CloseProtocol.LocksKeepOwners | reader.go:1380-1409 | Close's critical section claims the stream being opened from the traversal |
| CloseProtocol.OpensKeepVolumes | reader.go:1493-1571 | A stream received is registered, opened, published or closed without losing its owner |
| WorkerProtocol.Throughout | decoder50_parallel.go:217-256 | In every interleaving of submit, worker, wait, pop, drain, stop and restart steps: at most one token per slot and none when the slot is used again, inUse counts the jobs in flight on each set, and some set is free |
| WorkerProtocol.LoadsFreeSet | decoder50_parallel.go:300-303 | A set referenced by a job in flight is never loaded |
| WorkerProtocol.SendsNeverBlock | decoder50_parallel.go:451-471 | No send on a slot's done channel ever blocks |
| WorkerProtocol.WaitEnds | decoder50_parallel.go:474-485 | The oldest job is never waited for in vain: its token is there, quit has fired, or a worker has a step to take |
| WorkerProtocol.DrainEnds | decoder50_parallel.go:217-233 | After a stop and the workers' exit every job in flight can be released, whether or not a worker took it |
| WorkerProtocol.RunKeeps | decoder50_parallel.go:336-443 | The protocol's invariant holds throughout every run, across stop and restart |
| WorkerProtocol.StepKeeps | decoder50_parallel.go:336-504 | So does every step: slots in use are exactly those between head and tail with the tokens their jobs sent, reference counts are exact, a worker and its slot know of each other, and while running no worker has exited and every queued job is in the queue |
| WorkerProtocol.SubmittingKeepsSets | decoder50_parallel.go:326-329 | A job put in the ring is counted on the set it references |
| WorkerProtocol.EmptyingKeepsSets | decoder50_parallel.go:488-504 | A job taken out of it is counted off |
| WorkerProtocol.WorkingKeepsWorkers | decoder50_parallel.go:353-379 | A worker's steps keep it and the slot it works on knowing of each other |
| WorkerProtocol.StartInv | decoder50_parallel.go:103-119 | A new pipeline starts with every slot and set free |
| SolidRun.Extract | reader.go:655-827 | Over any extraction run, decode chains are built for the admitted members and no others; a solid member is admitted only if every file block since the last one that reset the history, links aside, was admitted and ended with all its bytes and a clean or unverifiable digest, and refused as broken only if one was not; no solid block changes the window's size; and the window is marked exactly when the history is not sound. Every record is tied to the member it became. An archive header between two blocks that contradicts an earlier one ends the run, and nothing else does |
| SolidRun.Headers | reader.go:919-929 | The archive headers in front of a block end the run if and only if one contradicts the solidity seen first |
| SolidRun.OneBlock | reader.go:520-580 | One block and the caller's calls on it: dispatch's decision from the state it read, a chain built exactly if it was admitted, how the member ended, and what that does to the history |
| SolidRun.Reader.Dispatch | reader.go:655-827 | The order of dispatch's decisions; a solid member is admitted only on a sound history, which it keeps, in a window it has not grown; every refusal and skip marks the history, no link does |
| SolidRun.Reader.FinishActive | reader.go:594-616 | The member in progress is read out in a solid archive and cut off in any other, and recorded as damage if and only if it ended short or without a clean or unverifiable digest |
| SolidRun.Reader.SizeWindow | reader.go:1124-1150 | The window grows to what a non-solid member needs, capped, and never for a solid one; a failed reservation changes nothing, and damage takes precedence over a mismatched dictionary |
| SolidRun.Reader.Begin | reader.go:807-826 | A solid member after damage is refused; a non-solid one starts the history afresh even if its chain cannot be built |
| SolidRun.Reader.ArchiveHeader | reader.go:919-929 | The first archive header sets solidity and no later one may change it |
| SolidRun.LogGrows | reader.go:594-616 | What one more record adds to the history since the last reset, and that the run's claims go on holding |
| SolidRun.SinceIsHistory | reader.go:594-616 | The fates kept since the last reset are all good exactly if every block the history was made by contributed soundly |
| SolidRun.ReadOut | reader.go:594-642 | The member in progress, whatever the caller does with it, is recorded by how it ended |
| Splice.ReadAll | splice.go:24-89 | In every run of reads the splice yields a prefix of the parts' payloads in order; the first part is the first block's payload, each later one that of a continuation found in a later volume of the channel that agrees with the first block in all seven respects, and none starts before the one before it was delivered whole; while no read has failed the parts are a prefix of the member as the channel holds it, and a clean end under a last block delivered all of it |
| Splice.Splicer.Read | splice.go:24-89 | One read keeps that; a clean end is reported only at the end of the last block or of a whole part without a continuation |
| Splice.Splicer.Advance | splice.go:75-85 | What the search for a continuation found becomes the next part, in the volume it was found in |
| Splice.Splicer.Boundary | splice.go:59-79 | The end of a part: of the member, of a volume cut inside its payload, or of one with more to come |
| Splice.Splicer.constructor | reader.go:813-825 | A splice starts at the first block's payload, none of it read |
| Splice.Reader.NextVolumePayload | splice.go:97-266 | The scan ends as the search over the volumes still to come does: at the first continuation that agrees, with its volume standing at its unread payload and the volumes behind it left, or with the fault and the staged block the search gives |
| Splice.SearchFinds | splice.go:97-266 | What the search finds is a block of a stream still in the channel, and only the streams behind it are left |
| Splice.SearchSkips | reader.go:1466-1478 | The search passes over exactly the leading streams cut inside their signature |
| Splice.PartsOfMember | splice.go:24-89 | Parts found without an abandoned search are a prefix of the member as the channel holds it, and all of it once a last block is among them |
| Splice.Reader.ScanOne | splice.go:105-155 | One block considered, or a spent volume left for the next, brings the search further or ends it |
| Splice.Reader.Consider | splice.go:133-191 | A block is taken, ends the search, or is passed over, as the search judges it |
| Splice.Reader.Continuation | splice.go:193-261 | A new member's header is staged and ends the one in progress; a continuation that disagrees in anything is refused as corrupt |
| Splice.Reader.OpenNextVolume | reader.go:1466-1478 | The next stream of the channel that is not cut inside its signature is opened, or its failure or the channel's end reported with no volume open; damage is recorded exactly if a cut stream was passed over |
| Splice.Volume.Next | volume.go:156-192 | The rest of the payload is skipped before a header is read, a payload cut short is an error, and an error is sticky |
| Splice.Volume.Read | volume.go:194-207 | The bounded payload never runs into the next header |

## Left out

- Pipeline.Decoder50.Read: says nothing of the decoder object's state after a hard error, after which the two decoders' tables and readers are not kept alike.
- Pipeline.Decoder50.FillParallel: a Close during decoding is not in it; WorkerProtocol has the stop, without the bytes.
- Agreement.BothDecoders: covers one member from its start; an abandoned member's leftover reader and tables are not compared.
- Pipeline.Decoder50.Fetch: payload buffers are values, so their reuse between slots and the serial buffer is not modelled; only the one oversize block at a time is.
- Pipeline.Decoder50.constructor: the ring is one record value updated as a whole; item arrays are allocated per job, not reused.
- Huffman.HuffmanDecoder.Init: counts are unbounded, so it asks for fewer than 65536 lengths, where the source's 16-bit counters cannot overflow.
- BlockFill.SerialDecoder.NextBlock: after a refused table the decoders before it have been replaced; the serial specification keeps the old tables, which a hard error makes unobservable.
- SerialRead.SerialReader.EmitBlock: filter buffers are allocated for each block, not reused, and leftover output is a value, so that it shares the input's buffer until drained is not modelled.
- TableDecoders.Decoders.New: symbol tables are values, so that copies of a table set have storage of their own is not something to prove.
- BitReader.BitReader.constructor: asks for a limit within the buffer's bits, which every block header gives; beyond them reads report out of data.
- BitReader.BitReader.Take: joining disjoint bits with an or is modelled as their sum.
- Blake2s.Write: the byte counter does not wrap at 2^64.
- BranchFilters.FilterE8: the scalar path with the scan hook unset, as is FilterArm; SIMD kernels are not modelled.
- CloseProtocol.AllClosedInTheEnd: Reset, which replaces the channel and is called from the traversal goroutine, is not a step.
- WorkerProtocol.Throughout: one pipeline; replacing it when the worker count changes is not a step.
- WholeMember.MemberComesOut: an abandoned member's leftovers and members written with empty payloads are not among those written.
- SolidRun.Reader.Dispatch: RAR5 only, without listing mode; a parsed header, the reservation's success and the chain's success are parameters, and the RAR 1.5-4.x arms, the check that the set starts at its first volume and password resolution are left out.
- Splice.Reader.NextVolumePayload: how volumes are closed and counted is left to CloseProtocol; header decryption is one kind of archive header that may fail.
- Window.Window.Grow: a reservation is a new zeroed buffer or a failure; mapping, decommit and cleanups are left out.
- AES, HMAC, SHA-256, PBKDF2, CRC32 and the BLAKE2s round function: uninterpreted.
- Header parsing, time records, names, path sanitising, inspection and listing: mostly single-branch checks.
- Error text and wrapping: errors are compared by kind.
