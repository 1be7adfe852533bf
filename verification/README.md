# rustyIce, verified

A Dafny 4.11 model of the parts of the rustyIce live audio server that carry hard
state or byte arithmetic, with proofs of what those parts promise. `dafny verify
dfyconfig.toml` checks everything.

rustyIce takes live sources (Icecast source clients), files (AutoDJ) and other
servers' streams (relays), publishes each as packets on a per-mount bus, and serves
the bus to any number of listeners. Configuration is a TOML file that can be edited
through an admin API or by hand, and is applied to the running server as a diff.

## What is modelled

* **The source slot of a mount** (`SourceSlot`, `SlotLiveness`, `SlotAlone`). Live sources and at most one AutoDJ
  or relay task share a mount through an atomic compare-exchange, a kind tag, a
  cancel token, a preemption flag and a one-permit notify. Every atomic operation and
  every lock section is a step of its own; any number of live sources come and go.
  `SlotLiveness` has what each task can still get to when the others stand still, and
  `SlotAlone` what each procedure comes to when nobody gets in between.
* **The broadcast bus** (`Bus`, `BusProtocol`). The publish and subscribe loops as
  methods of a class, and the same loops as steps of publishers and subscribers under
  one lock, with receivers that may lag.
* **Incremental byte machines.** The chunked-transfer decoder (`ChunkedSpec`,
  `Chunked`, `ChunkedRoundTrip`), MP3 and Ogg staging in front of a decoder
  (`StagingSpec`, `Staging`), Ogg header capture (`OggCapture`), the ID3/Xing
  stripping reader and its publisher (`IngestSpec`, `Ingest`), ICY interleaving
  (`IcySpec`, `Icy`). Each is an imperative machine fed in arbitrary pieces, proved
  against a function of the whole byte sequence. `Unicode` has the white space that
  parsing and trimming skip. `Codec` has the frame and page
  headers they read, `Pacing` and `Playback` the paced publish loops. `EndToEnd` puts
  decoder, ingest, bus and listener in a row.
* **Configuration reload** (`Config`, `ReloadSpec`, `Reload`, `ReloadTheorems`).
  Three ordered diff passes over shared maps of mounts and tasks, with invariants over
  any run of reloads.
* **Configuration editing** (`ConfigDoc`, `ConfigSave`, `ConfigStore`, `ConfigPut`).
  A patch on a tree of TOML tables against an overlay in memory, the first
  serialization, the redacted view, and any run of saves.

The source's objects are classes with the same fields, and its loops are loops; each
method is tied to a function or predicate about which the lemmas are proved. Protocols
are state machines over their steps. What a machine meets on the way is a parameter: a
script of the inner reader's answers (data in pieces of any size, pauses, failures), of
a source's reads, and the point at which a publish loop is cancelled. Contracts say what
comes out for every script, so that a pause, an error, a cancelled or an unfinished run
is reported exactly when the script has it. `Scripts` has what these lists share.

## What turned out false, and exactly when

* "A holder always has a cancel token." The disconnect guard frees the slot before it
  clears the token (crates/rustyice-server/src/source_protocol.rs:471-475). A claim
  keeps its token, in every continuation, exactly when no guard was between those two
  steps when it claimed (`TokenKeptIff`); the relay's `expect` on the token can panic in
  exactly the other case (`RelayPanicsIff`).
* "A task parked after preemption always resumes." Preemption comes before the
  password check, so the preempting source may never claim. The parked task is owed a
  wake-up exactly when some live source claims the slot while it is parked
  (`StrandedIff`). A stranded AutoDJ does not even obey its shutdown token.
* A path that moves between sections of the configuration. A needed mount is missing
  after a reload exactly when its path moved to a section whose pass runs before the
  pass that drops it from its old one (`RegisteredIff`). A relay's path handed to an
  AutoDJ also runs both tasks for a moment, which is the only way two tasks ever share
  a path (`Server.Apply`, `RunReloads`).
* A reload that restarts a task leaves the metadata of its mount as it was
  (`MetadataShownIff`, `RenamedAutoDjShowsOldName`); reloading the same file once more
  shows it (`SecondReloadShowsMetadata`). A changed burst size restarts the task but never
  reaches the bus of a mount that survives (`BurstIsKept`, `ChangedBurstIsNotSeen`).
* "File and server stay in step." They do, event by event, exactly when the event is one
  of those in `InStepIff`. A save that is applied keeps them in step exactly when the file
  can express the patch: `ring_size` and `slow_listener_grace_s` above the largest signed
  64-bit integer are written as that integer (`LargeRingIsCut`), and removing
  `source_max_kbps` is silently skipped when `[limits]` is written as an inline table
  (`InlineLimitsKeepCap`, `PatchAgreesIff`, `WrittenIff`). Saving users panics when
  `[auth]` is inline (`InlineAuthPanics`). A save whose apply fails stays in step only if
  the file then says what was running (`RefusedIff`, `RefusedSaveParts`), and two
  overlapping saves only if the first makes no difference (`OverlappingSavesIff`,
  `OverlappingSavesPart`).
* Writing the users back unchanged is accepted and the identity exactly when no user name
  has white space around it (`UsersWriteBackIff`, `SpaceBehindNameIsRefused`).
* The stripped metadata frame depends on read sizes exactly when it ends behind the
  2048-byte probe window and within what one more read can bring (`StrippedDependsIff`,
  `StrippedMayDiffer`).
* Ogg staging steps over a page whose lacing table is cut off. It stays aligned exactly
  when no complete page is come to behind that page's magic (`OggStagesIff`,
  `OggStagesCutOffPage`).
* ICY metadata survives exactly up to 4080 bytes (`FrameReadIff`). Nothing in it is escaped:
  a player gets title and URL back exactly when neither has a quote followed by a semicolon
  inside (`ReadTagsIff`).
* A shutdown does not end every task: an AutoDJ that waits for a missing permit after a
  preemption never sees it, and neither does a relay that panicked (`ExitsIff`).
* A pacing rate of 0, which `source_max_kbps = 0` or a Vorbis nominal bitrate below 1000
  gives, panics the publish loop, exactly when it is in force behind a received chunk
  (`Ingest.PublishQueue`, `Playback.Publisher.Transcode`). AutoDJ treats 0 as unpaced.
* "Reads after an error return end of stream"
  (crates/rustyice-server/src/chunked.rs:50-51). An end of file or an inner error inside a
  header line does not enter the error state (lines 209-215). The next read reports the
  end exactly when the data were bad or the failure was outside a header line
  (`ReadPastError`, `EndInsideSizeLine`).
* The chunk-size parser takes more than hexadecimal digits and an extension: a sign, and
  white space. `ParseIff` gives the lines it takes, all of them, and `PlainIff` which of
  them are plain.
* Header capture counts pages that start afresh, not header packets
  (crates/rustyice-codec/src/vorbis.rs:74-76, 150-162). It captures exactly the three
  header packets if and only if none of them starts behind another in its page
  (`HeaderPacketsCapturedIff`); otherwise pages of audio come with them
  (`AudioIsCaptured`, `SharedPageTakesAudio`).

Where the code and its own documentation disagree the model follows the code. Live
sources never store the `Live` kind that `SourceKind` has for them.

## Assumptions

Sequentially consistent atomics; a notify as one stored permit; the broadcast channel as
a log with receiver positions that may jump forward; an unbounded FIFO channel between
reader and publisher; sleeps that last at least as long as asked. At most one non-live
task per mount in `SourceSlot`, which `Reload` proves of the reloader under the condition
above. Foreign code is a parameter: inner readers and sources, cancellation, decoder
initialisation, encoder output, bitrate detection, password hashing, the outcome of a disk
write and of reloading credentials.

## Model

| member | source | states |
|---|---|---|
| SourceSlot.StepKeepsInv | crates/rustyice-server/src/source_protocol.rs:99-135 | Every step of every task keeps slot, kind, token, header and wake-up obligations in the hands of exactly one owner |
| SourceSlot.RunKeepsInv | crates/rustyice-autodj/src/player.rs:185-256 | So does every run, of any length and with any number of live sources |
| SourceSlot.ReachableInv | crates/rustyice-core/src/mount.rs:104-158 | The invariant holds in every state reachable from a fresh mount |
| SourceSlot.SlotSafety | crates/rustyice-server/src/source_protocol.rs:101-108 | `source_connected` is true exactly when a task is between its successful compare-exchange and its releasing store, there is never a second such task, and an AutoDJ or relay kind implies that the non-live task is it |
| SourceSlot.WaiterIsOwedAWakeup | crates/rustyice-autodj/src/player.rs:272-284 | A task blocked in the wait loop has a stored permit, or a live source that holds the slot or is tearing down still owes it a notify |
| SourceSlot.QuiescentMountIsClean | crates/rustyice-server/src/source_protocol.rs:466-485 | When nobody claims, holds or releases, token, connect time, overlay, header bytes and kind are all cleared |
| SourceSlot.HeldRunKeepsToken | crates/rustyice-autodj/src/player.rs:294-315 | A token installed with no guard mid-release stays installed for as long as its owner holds the slot |
| SourceSlot.GuardWipesToken | crates/rustyice-server/src/source_protocol.rs:471-475 | A guard that is mid-release at a claim has a run that wipes the claimer's token |
| SourceSlot.TokenKeptIff | crates/rustyice-server/src/source_protocol.rs:110-128 | A claim keeps its token in every continuation exactly when no guard was mid-release when it claimed |
| SourceSlot.RelayPanicsIff | crates/rustyice-server/src/relay/mod.rs:48-111 | The relay's `expect` on its token can fail exactly under that condition |
| SourceSlot.ParkedStep | crates/rustyice-autodj/src/player.rs:236-244 | No step of another task moves a parked task, and only a live claim gives it a future wake-up; its own step takes it back to the top of its loop, or to its end if it is a relay that was shut down (`SlotLiveness.ParkedLeaves`) |
| SourceSlot.StrandedIff | crates/rustyice-server/src/source_protocol.rs:365-376 | A parked task is stranded after a run exactly when it was before and no live source claimed the slot in the run |
| SourceSlot.StrandedCannotMove | crates/rustyice-autodj/src/player.rs:236-244 | A stranded AutoDJ cannot move at all, a stranded relay only on shutdown |
| SourceSlot.WipedTokenIsReachable | crates/rustyice-server/src/source_protocol.rs:466-485 | For either flavour a run leads to a claim with a guard mid-release |
| SourceSlot.PreemptedIsReachable | crates/rustyice-server/src/source_protocol.rs:358-390 | For either flavour a run leads to a parked task whose preempting source has not claimed |
| SourceSlot.StrandedIsReachable | crates/rustyice-server/src/source_protocol.rs:365-390 | A failed password check then strands the task |
| SlotLiveness.ClaimsAgainIff | crates/rustyice-autodj/src/player.rs:185-256 | While the slot is free and the server is not stopping, the AutoDJ or relay task can claim it again by its own steps alone exactly when it has not ended and does not wait, or is about to wait, for a missing permit; so a parked or blocked task that was notified always can |
| SlotLiveness.ParkedLeaves | crates/rustyice-server/src/relay/mod.rs:86-94 | A parked task leaves only by its own step, for the top of its loop, and for its end exactly when it is a relay that was shut down |
| SlotLiveness.PlaysAgain | crates/rustyice-autodj/src/player.rs:272-315 | From there it can go on to play, with its kind and its own token stored |
| SlotLiveness.ExitsIff | crates/rustyice-autodj/src/player.rs:236-244 | After a shutdown the task can come to its end by its own steps exactly when it has not panicked, will not, and is no AutoDJ waiting for a missing permit |
| SlotLiveness.ServesAlone | crates/rustyice-server/src/source_protocol.rs:358-390 | A live source that arrives at a free slot can claim it by its own steps alone |
| SlotLiveness.LeavesAlone | crates/rustyice-server/src/source_protocol.rs:466-485 | One that holds it can leave by its own steps alone, and leaves the slot free and a permit stored |
| SlotLiveness.ParkedPlaysAgain | crates/rustyice-autodj/src/player.rs:236-245 | So a parked task plays again in some run in which a live source claims, serves and leaves |
| SlotAlone.LivePreempts | crates/rustyice-server/src/source_protocol.rs:327-351 | Undisturbed, a live source that finds an AutoDJ or relay on the slot sets the preemption flag, cancels the token in place and waits; nothing else changes |
| SlotAlone.LiveChecks | crates/rustyice-server/src/source_protocol.rs:327-376 | One that finds the slot free, or a live source on it, only has its password checked |
| SlotAlone.LiveClaims | crates/rustyice-server/src/source_protocol.rs:101-128 | A successful claim stores the flag, a fresh token, connect time and overlay, and no kind |
| SlotAlone.LiveLeaves | crates/rustyice-server/src/source_protocol.rs:466-485 | The end of a connection clears flag, token, connect time, overlay and header, and stores a permit |
| SlotAlone.Claims | crates/rustyice-autodj/src/player.rs:200-304 | From the top of its loop, with the slot free and something to play, the task stores flag, kind, connect time and a fresh token, and plays |
| SlotAlone.WaitsForSlot | crates/rustyice-server/src/relay/mod.rs:57-65 | With the slot taken it waits, unless it is a relay that finds its own kind there |
| SlotAlone.Wakes | crates/rustyice-autodj/src/player.rs:272-284 | The permit that wakes it is used up; it goes on exactly if the slot is free by then |
| SlotAlone.Releases | crates/rustyice-autodj/src/player.rs:308-315 | The end of a pass clears all six fields; the pass counts as cancelled exactly if it was cut short by its own token or the shutdown |
| SlotAlone.Parks | crates/rustyice-autodj/src/player.rs:236-245 | A cancelled pass parks exactly if the preemption flag is up, and takes it down |
| SlotAlone.Resumes | crates/rustyice-autodj/src/player.rs:236-245 | The permit that wakes a parked task is used up |
| SlotAlone.Stops | crates/rustyice-server/src/relay/mod.rs:86-94 | A shutdown is looked at before the permit, which stays |
| Bus.HistoryIsUnique | crates/rustyice-server/src/bus.rs:27-36 | The longest suffix that fits the byte cap, or the last packet alone, is unique |
| Bus.BackWalkKeepsBytes | crates/rustyice-server/src/bus.rs:83-98 | The back-walk over a history within the cap loses no byte, wherever it stops |
| Bus.SnapshotKeepsBytes | crates/rustyice-server/src/bus.rs:72-105 | With a non-zero cap the snapshot is a suffix of the log, and its bytes are the history's |
| Bus.TotalIsData | crates/rustyice-server/src/bus.rs:55-70 | The total counted is the number of data bytes of the packets |
| Bus.TokioBroadcastBus.Publish | crates/rustyice-server/src/bus.rs:55-70 | Appends to the log; the history left has at most the cap in bytes or is the last packet alone, every longer suffix of the log has more bytes than the cap, and the running total is the history's bytes |
| Bus.TokioBroadcastBus.Subscribe | crates/rustyice-server/src/bus.rs:72-105 | Yields a snapshot in stream order with exactly the history's bytes, and the position where live delivery goes on; nothing to replay when bursts are off |
| BusProtocol.StepKeepsInv | crates/rustyice-server/src/bus.rs:55-105 | Every step inside and outside the lock keeps history and receivers consistent with the log |
| BusProtocol.ReachableInv | crates/rustyice-server/src/bus.rs:55-105 | So in every reachable interleaving of publishers and subscribers |
| BusProtocol.HistoryIsLongestSuffix | crates/rustyice-server/src/bus.rs:55-70 | Whenever the lock is free the history is the longest suffix of the log whose data bytes fit the cap, or its last packet alone, and the total is the number of its bytes |
| BusProtocol.BurstIsHistory | crates/rustyice-server/src/bus.rs:72-105 | Up to where it joined, a subscriber is handed exactly the bytes of the history there, or nothing when bursts are off |
| BusProtocol.JoinsAtTheEnd | crates/rustyice-server/src/bus.rs:72-82 | It joins at the end of the channel, whatever it is replayed |
| BusProtocol.LagsIff | crates/rustyice-server/src/bus.rs:131-143 | It loses packets exactly when its snapshot is used up and it is more than the ring's size behind, and then goes on with the oldest packet retained |
| BusProtocol.DeliversAll | crates/rustyice-server/src/bus.rs:131-143 | One that is not behind the ring can be delivered everything, by deliveries alone |
| BusProtocol.HolderFrees | crates/rustyice-server/src/bus.rs:55-105 | Whoever holds the lock gives it back by its own steps |
| BusProtocol.Publishes | crates/rustyice-server/src/bus.rs:55-70 | A publish that finds the lock free appends its packet, leaves the longest history that fits, and frees the lock |
| BusProtocol.Subscribes | crates/rustyice-server/src/bus.rs:72-129 | A subscription gets a receiver that joins at the end of the channel, with a burst exactly if it asked for one and bursts are on |
| BusProtocol.NoGapNoDuplicate | crates/rustyice-server/src/bus.rs:72-105 | A subscriber that never lagged has received exactly a contiguous run of the log from its snapshot's first packet on |
| BusProtocol.LaggedDeliveryIsInOrder | crates/rustyice-server/src/bus.rs:131-143 | With lag it has received strictly increasing log positions |
| ChunkedSpec.DecodePayload | crates/rustyice-server/src/chunked.rs:88-120 | Payload bytes may be taken in pieces of any size: they come out unchanged and the remaining count never underflows |
| ChunkedSpec.DecodeOn | crates/rustyice-server/src/chunked.rs:61-178 | Decoding may be broken off after any byte and taken up again |
| ChunkedSpec.LinePush | crates/rustyice-server/src/chunked.rs:184-221 | A byte that ends neither line nor limit only goes into the scratch buffer |
| Chunked.FindCrlf | crates/rustyice-server/src/chunked.rs:224-227 | Finds the first CRLF, and finds one if there is one |
| Chunked.ChunkedDecoder.PollFillLine | crates/rustyice-server/src/chunked.rs:184-221 | Whatever the inner reads bring, the bytes read move the line on as the byte-by-byte decoder does; scratch stays under the line limit; it is pending or fails with an inner error exactly when the inner reader was so in this call |
| Chunked.ChunkedDecoder.PollRead | crates/rustyice-server/src/chunked.rs:61-178 | One poll into any buffer: the bytes it reads decode to the bytes it hands out; an empty answer with room is the end of the stream; it is pending or fails with an inner error exactly when the inner reader was so in this call, and after no more answers than bytes read and one |
| ChunkedRoundTrip.DecodeInvertsEncode | crates/rustyice-server/src/chunked.rs:61-236 | For any payloads, extensions and trailers within the line limits, decoding yields the concatenated payloads and consumes nothing past the final CRLF |
| ChunkedRoundTrip.SplitBody | crates/rustyice-server/src/chunked.rs:61-236 | Any input that decodes to the end starts with a well-formed body |
| ChunkedRoundTrip.CleanEndIff | crates/rustyice-server/src/chunked.rs:61-178 | A clean end is reached exactly for inputs that start with a well-formed body |
| ChunkedRoundTrip.ParseHexLine | crates/rustyice-server/src/chunked.rs:229-236 | A line whose bytes are characters of "0123456789ABCDEF" or "0123456789abcdef", with any extension, parses to the sum of their positions there times powers of 16, if that is below 2 to the 64 |
| ChunkedRoundTrip.ParseIff | crates/rustyice-server/src/chunked.rs:229-236 | The size lines accepted, all of them, and their values by the same table: white space, an optional sign, hexadecimal digits of a value below 2 to the 64, white space, an optional extension |
| ChunkedRoundTrip.PlainIff | crates/rustyice-server/src/chunked.rs:229-236 | An accepted line is digits and an extension exactly when it has neither sign nor white space |
| ChunkedRoundTrip.HexValueIs | crates/rustyice-server/src/chunked.rs:229-236 | Digits have the positional value, to the base 16, of their places in the two tables |
| ChunkedRoundTrip.SpaceAtIff | crates/rustyice-server/src/chunked.rs:229-236 | What is skipped as white space are the UTF-8 encodings of Unicode's white-space characters |
| ChunkedRoundTrip.LineLimits | crates/rustyice-server/src/chunked.rs:184-221 | A size line of up to 62 bytes and a trailer line of up to 4094 are taken whole, and longer ones are bad data |
| ChunkedRoundTrip.ParseBeyondGrammar | crates/rustyice-server/src/chunked.rs:229-236 | A line with a sign and one with white space, accepted and not of that plain form |
| ChunkedRoundTrip.PlainBodyIsWellFormed | crates/rustyice-server/src/chunked.rs:61-236 | The plain encoding of any non-empty payloads is a well-formed body |
| ChunkedRoundTrip.ReadEncoded | crates/rustyice-server/src/chunked.rs:61-178 | For any inner read sizes, pauses and buffer sizes a caller gets a prefix of the payloads, no error but the inner reader's, and within one poll more than there are payload bytes and pauses the end, with all payloads delivered and the reader right behind the final CRLF |
| ChunkedRoundTrip.ReadArbitrary | crates/rustyice-server/src/chunked.rs:61-178 | For any input at all, an end without an error means a well-formed body whose payloads were delivered; with enough polls the end is reported exactly when decoding comes to it |
| ChunkedRoundTrip.ReadPastError | crates/rustyice-server/src/chunked.rs:50-51 | A fresh decoder stops as the bytes call for, at the end, on bad data or on an end of file; after a failed read the next one reports the end exactly when the data were bad or the failure was outside a header line; in a header line it reads on, and at the end of the input fails again |
| ChunkedRoundTrip.EndInsideSizeLine | crates/rustyice-server/src/chunked.rs:207-215 | An input that ends inside a size line: two reads, two errors |
| Codec.FrameSize | crates/rustyice-codec/src/mp3.rs:76-111 | A Layer III frame size lies between 24 and 1441 bytes and needs four bytes with a sync word |
| Codec.FrameHoldsItsSamples | crates/rustyice-codec/src/mp3.rs:104-110 | Without padding, the size is the whole number of bytes that 1152 or 576 samples take at the bitrate |
| Codec.FrameSizeIff | crates/rustyice-codec/src/mp3.rs:76-111 | A header gives a frame exactly when sync, version, layer, bitrate and rate index say so, and the frame is as long as its samples are at the bitrate and rate named |
| Codec.BitrateIs | crates/rustyice-codec/src/mp3.rs:10-46 | The bitrates, in closed form: four steps to the octave from 32 kbit/s, or steps of 8 and then of 16 |
| Codec.PageSize | crates/rustyice-codec/src/vorbis.rs:20-30 | An Ogg page size lies between 27 and 65307 bytes |
| StagingSpec.Staged | crates/rustyice-transcode/src/decoder.rs:175-225 | What is handed on is a prefix of what is staged |
| StagingSpec.StagedResumes | crates/rustyice-transcode/src/decoder.rs:175-199 | Rescanning the staged bytes with more behind them finds exactly what scanning everything from the start would |
| StagingSpec.Mp3Stable | crates/rustyice-transcode/src/decoder.rs:180-193 | More bytes never change what the MP3 scan decided at a position |
| StagingSpec.StagedStream | crates/rustyice-transcode/src/decoder.rs:175-199 | Junk, whole units and a partial one: once a unit is complete exactly the junk and the complete units are handed on |
| StagingSpec.Mp3StagesFrames | crates/rustyice-transcode/src/decoder.rs:175-199 | The same for MP3 frames, recognised by their headers alone |
| StagingSpec.OggStagesIff | crates/rustyice-transcode/src/decoder.rs:201-225 | Ogg staging agrees with one that waits for the lacing table exactly when, behind the magic of a cut-off page, no complete page is come to with everything in front of it stepped over |
| StagingSpec.StagedIff | crates/rustyice-transcode/src/decoder.rs:175-225 | A scan hands something on exactly when some position starts a complete unit and every one before it is stepped over |
| StagingSpec.OggStagesCutOffPage | crates/rustyice-transcode/src/decoder.rs:201-225 | 54 bytes of which the two differ: a header announcing 255 segments, cut off by a whole page |
| StagingSpec.NoMagicNoPage | crates/rustyice-transcode/src/decoder.rs:206-219 | In particular when there is no page magic there |
| Staging.Scan | crates/rustyice-transcode/src/decoder.rs:175-225 | The scanning loop ends at the last complete unit |
| Staging.PipeBuf.ReadInto | crates/rustyice-transcode/src/decoder.rs:39-55 | A read takes from the front, blocks only on an empty pipe, and reports the end only after it |
| Staging.StreamDecoder.PushStaged | crates/rustyice-transcode/src/decoder.rs:126-131 | Keeps sent plus staged equal to the input; as long as no unit was found inside another what was sent ends where a scan of all input ends, and it stops doing so exactly at the first push whose scans differ |
| Staging.StreamDecoder.Push | crates/rustyice-transcode/src/decoder.rs:105-131 | Below the threshold a push only adds to the pending bytes; at it the decoder becomes ready exactly if initialisation succeeds, and then all pending bytes are in the pipe and none is lost, else exactly they are; afterwards no byte is lost or reordered |
| Staging.PushFresh | crates/rustyice-transcode/src/decoder.rs:105-131 | A stream pushed in any pieces into a fresh decoder: what is discarded are the pieces up to a failed initialisation, the pipe opens with the pieces from there on as soon as they reach the threshold and initialisation succeeds, and everything from there on is kept; when every initialisation succeeds nothing is lost |
| Staging.StreamDecoder.FlushEof | crates/rustyice-transcode/src/decoder.rs:134-158 | At the end every byte was sent, and the decoder is ready if it was or if initialising with what was pending succeeds |
| Staging.NewMp3Decoder | crates/rustyice-transcode/src/decoder.rs:93-101 | The MP3 decoder collects 8192 bytes first, and its scan is stable, so the split of its input does not matter |
| Staging.PushPieces | crates/rustyice-transcode/src/decoder.rs:105-131 | After initialisation, sent and staged bytes depend only on the concatenation of what was pushed |
| OggCapture.WalkResumes | crates/rustyice-codec/src/vorbis.rs:129-166 | A page walk that settled is final; one that did not resumes where it stopped |
| OggCapture.PushTracks | crates/rustyice-codec/src/vorbis.rs:119-128 | A push keeps the state that of capturing all bytes so far at once, unless it overflows the cap |
| OggCapture.OggHeaderCapture.Push | crates/rustyice-codec/src/vorbis.rs:119-167 | The object's push is that of the state machine |
| OggCapture.FoldCaptures | crates/rustyice-codec/src/vorbis.rs:119-167 | Any sequence of pushes captures what the whole stream would, or fails if one overflows before the capture settles |
| OggCapture.PushAll | crates/rustyice-codec/src/vorbis.rs:93-167 | The same of the object |
| OggCapture.NoOverflowWithinCap | crates/rustyice-codec/src/vorbis.rs:123-128 | Within 64 KiB in all, no split overflows |
| OggCapture.CapturedIff | crates/rustyice-codec/src/vorbis.rs:129-166 | The header captured is exactly the leading whole pages, three of them without the continued flag, that end before a fourth such page; a stream is captured exactly when it has those |
| OggCapture.HeadersCapturedIff | crates/rustyice-codec/src/vorbis.rs:129-166 | Header pages before a page of audio are captured, and nothing else, exactly when three of them are fresh |
| OggCapture.HeaderPacketsCapturedIff | crates/rustyice-codec/src/vorbis.rs:150-162 | Pages in which the three header packets start are captured, and nothing else, exactly when no packet starts behind another in one of them |
| OggCapture.PacketsOfLacing | crates/rustyice-codec/src/vorbis.rs:136-146 | The lacing values of whole packets, full ones of 255 and a smaller one at the end of each, have one start inside for each packet but the first |
| OggCapture.AudioIsCaptured | crates/rustyice-codec/src/vorbis.rs:150-162 | With fewer fresh header pages, as many audio pages are captured in their place |
| OggCapture.SharedPageTakesAudio | crates/rustyice-codec/src/vorbis.rs:150-162 | Two header packets in one page: a stream captured with a page of audio |
| OggCapture.PageOf | crates/rustyice-codec/src/vorbis.rs:20-30 | A header, a lacing table and as many bytes as it sums to are one page for the size function |
| IngestSpec.TagSizeRoundTrip | crates/rustyice-ingest/src/icecast.rs:490-500 | Reading an ID3v2 header gives back the syncsafe size written into it |
| IngestSpec.TaggedFrameIsAFrame | crates/rustyice-codec/src/mp3.rs:130-162 | What is stripped as a metadata frame is exactly one whole MPEG 1 frame with a Xing, Info or VBRI tag behind its side information |
| IngestSpec.TaggedFrameIsFound | crates/rustyice-codec/src/mp3.rs:130-162 | Every such frame is recognised |
| IngestSpec.MetadataEnd | crates/rustyice-codec/src/mp3.rs:123-165 | A metadata frame found ends within the bytes looked at, 96 or more of them in |
| IngestSpec.MetadataEndIff | crates/rustyice-codec/src/mp3.rs:123-165 | A metadata frame is found exactly where the first sync word starts a whole MPEG 1 frame with "Xing", "Info" or "VBRI" behind its side information, at the very front too |
| IngestSpec.OnlyAudioIsLeft | crates/rustyice-ingest/src/icecast.rs:385-500 | Of a tag, a metadata frame and audio exactly the audio is passed on, whatever the read sizes |
| IngestSpec.MetadataEndOfPrefix | crates/rustyice-codec/src/mp3.rs:123-165 | Looking at fewer bytes finds the same frame or, if it does not end in them, none |
| IngestSpec.EveryStopIsReachable | crates/rustyice-ingest/src/icecast.rs:385-449 | Some read sizes lead the reading to every place it could stop |
| IngestSpec.FetchStops | crates/rustyice-ingest/src/icecast.rs:385-449 | And unless interrupted it stops nowhere else |
| IngestSpec.StrippedDependsIff | crates/rustyice-ingest/src/icecast.rs:426-456 | Read sizes change what is stripped exactly when the frame ends behind 2048 bytes and within one more read |
| IngestSpec.StrippedMayDiffer | crates/rustyice-ingest/src/icecast.rs:426-456 | A 417-byte Xing frame behind 2040 bytes: stripped with some read sizes, not with others |
| Ingest.StripMp3Prefix | crates/rustyice-ingest/src/icecast.rs:385-449 | Its three phases read as far as reading up to the target does; it is stopped exactly when that is interrupted, and else queues exactly the bytes behind the tag and the metadata frame |
| Ingest.DrainReader | crates/rustyice-ingest/src/icecast.rs:328-373 | Ends clean exactly when reading comes to the end uninterrupted; the queue is all that was read without the stripped bytes, and nothing when the prefix was not read |
| Ingest.PublishQueue | crates/rustyice-ingest/src/icecast.rs:169-319 | Chunk `i` is published whole with sequence number `i`, in the order of time and not before the bytes in front of it could have played at the rate in force; all chunks received before a cancellation are; the loop panics exactly when the rate in force behind one of them is 0 |
| Ingest.DataOfPublished | crates/rustyice-ingest/src/icecast.rs:240-272 | What was published are the chunks that were queued, up to their number |
| Ingest.Run | crates/rustyice-ingest/src/icecast.rs:98-319 | End to end: published bytes are those of the leading chunks, numbered 0, 1, 2 and so on; it finishes exactly when nothing interrupts, cancels or rates it at 0, and then the whole input minus the stripped prefix was published |
| IcySpec.WrittenConcat | crates/rustyice-output/src/http_passthrough.rs:90-117 | Writing goes on where it left off: only the audio counts, not its split into packets |
| IcySpec.TurnsAndLeft | crates/rustyice-output/src/http_passthrough.rs:101-115 | There is one block for every whole interval of audio |
| IcySpec.DemuxInvertsMux | crates/rustyice-output/src/http_passthrough.rs:90-149 | A demultiplexer recovers the audio and every block when all metadata fits |
| IcySpec.FrameReadIff | crates/rustyice-output/src/http_passthrough.rs:141-148 | A block is read back, with the stream behind it in place, exactly when its text has at most 4080 bytes |
| Icy.BuildIcyFrame | crates/rustyice-output/src/http_passthrough.rs:119-149 | Builds the length byte, the text and its padding; a lone zero when there is nothing to say |
| Icy.StreamTextNames | crates/rustyice-output/src/http_passthrough.rs:119-141 | The text, written out: title set, else source name, else mount name; source URL, else mount URL; nothing when both are blank |
| Icy.ReadTagsIff | crates/rustyice-output/src/http_passthrough.rs:141-141 | A player that reads each field up to the first quote and semicolon gets title and URL back exactly when neither has these inside |
| Icy.IcyWriter.Write | crates/rustyice-output/src/http_passthrough.rs:90-117 | The writing loop multiplexes the packet's data, whatever was written before |
| Icy.IcyWriter.Run | crates/rustyice-output/src/http_passthrough.rs:31-86 | A listener is sent the multiplexed data of all encoded packets |
| Icy.Listen | crates/rustyice-output/src/http_passthrough.rs:31-149 | From the start, any packets: the client gets the audio and one block per interval back |
| Pacing.PacedSnoc | crates/rustyice-autodj/src/player.rs:84-133 | Publishing once caught up keeps the stream paced |
| Pacing.PlayedIff | crates/rustyice-autodj/src/player.rs:112-133 | The pacing condition says that the seconds the bytes take at the rate have passed |
| Pacing.PacedMeans | crates/rustyice-autodj/src/player.rs:84-133 | In a paced stream packet `i` has number `i` and a time not before the seconds that the bytes in front of it take |
| Playback.Publisher.PublishEncoded | crates/rustyice-autodj/src/player.rs:84-110 | Numbers and publishes one packet, and keeps the stored header that of capturing all published bytes |
| Playback.Publisher.Pace | crates/rustyice-autodj/src/player.rs:112-133 | Returns once all published bytes could have played; cancelled exactly when it must sleep and the token is |
| Playback.Publisher.PlayTrack | crates/rustyice-autodj/src/player.rs:24-82 | Publishes the track's encoded data in order, every packet paced, up to the chunk at which it is cancelled; completes exactly when it is not |
| Playback.Publisher.PlayPlaylist | crates/rustyice-autodj/src/player.rs:317-381 | All tracks of a pass are one paced, consecutively numbered stream, complete exactly when the pass is not cancelled before its last check |
| Playback.Publisher.Transcode | crates/rustyice-ingest/src/icecast.rs:169-304 | A transcoding ingest is paced by the source bytes received until there is output, and by output from then on, chunk by chunk; it publishes what the received chunks yield, panics behind the first that is paced at 0, and finishes exactly when neither that nor a cancellation stops it |
| Playback.Publisher.PublishTail | crates/rustyice-ingest/src/icecast.rs:183-206 | The flushed tail is published paced, in order and numbered too |
| Config.ValidatePaths | crates/rustyice-core/src/config.rs:41-74 | Accepts exactly the configurations with all paths different and every relay with an HTTP upstream and a whole or no login |
| Config.RelayOkIff | crates/rustyice-core/src/config.rs:57-71 | A relay is well-formed exactly with an upstream behind one of the two schemes, and with both of user name and password or neither |
| ReloadSpec.SameRespawnIff | crates/rustyice-server/src/config_reload.rs:212-222 | Two entries need no restart exactly when they differ at most in path and display fields |
| Reload.TaskRegistry.Cancel | crates/rustyice-server/src/config_reload.rs:440-447 | Removes the entry, and ends its task if there is one |
| Reload.Server.RemoveTasks | crates/rustyice-server/src/config_reload.rs:197-207 | Removes mount and task of exactly the entries that are gone |
| Reload.Server.UpdateTasks | crates/rustyice-server/src/config_reload.rs:210-289 | Restarts exactly the new and changed entries and swaps the display fields of the others; two tasks come to share a path exactly if the other section runs one there |
| Reload.Server.UpdateMounts | crates/rustyice-server/src/config_reload.rs:139-176 | Every listed mount is registered with its fields; one that was there keeps object, codec and burst size |
| Reload.Server.RemoveMounts | crates/rustyice-server/src/config_reload.rs:187-194 | Removes exactly the mounts that are gone from the list |
| Reload.OneSection | crates/rustyice-core/src/config.rs:41-57 | A valid configuration has each path in one section at most |
| Reload.MountEntryShown | crates/rustyice-server/src/config_reload.rs:139-176 | A mount entry after a reload, field by field: password, listener limit and metadata are the entry's; codec and burst size those of the mount that was there, or MP3 and the entry's or the limits' burst size; no mount when the path was an AutoDJ's or a relay's |
| Reload.TaskEntryShown | crates/rustyice-server/src/config_reload.rs:210-377 | An AutoDJ or relay entry after a reload, field by field: a restarted one keeps the mount it finds as it is or gets a new one from the entry, any other only swaps listener limit and metadata |
| Reload.TasksOfReload | crates/rustyice-server/src/config_reload.rs:196-377 | The two task passes carry agreement of the running tasks from the old configuration to the new |
| Reload.Server.Apply | crates/rustyice-server/src/config_reload.rs:99-381 | A failed apply changes nothing; a successful one leaves running exactly the enabled entries, agreeing on all restart fields and none leaked, keeps every mount object it does not drop, shows password, listener limit and metadata of every mount entry whose path was no task's, and starts or stops nothing when nothing changed |
| Reload.Server.Boot | crates/rustyice-server/src/main.rs:58-188 | Start-up registers every path with the codec, burst size, password, limit and metadata of its entry, runs exactly the enabled tasks and one at most per path |
| ReloadTheorems.RegisteredIff | crates/rustyice-server/src/config_reload.rs:139-377 | A needed path is registered after a reload exactly when it did not move against the order of the passes |
| ReloadTheorems.DroppedPathIsGone | crates/rustyice-server/src/config_reload.rs:187-207 | A path in the old but not the new configuration has no mount afterwards |
| ReloadTheorems.OtherPathIsUntouched | crates/rustyice-server/src/config_reload.rs:178-186 | A path in neither, as a dynamic mount's, is left alone |
| ReloadTheorems.KeptIffSameSection | crates/rustyice-server/src/config_reload.rs:139-377 | A path in both keeps its mount object exactly when it keeps its section |
| ReloadTheorems.BurstIsKept | crates/rustyice-server/src/config_reload.rs:212-236 | A surviving mount keeps the burst size of its bus and its codec |
| ReloadTheorems.MetadataShownIff | crates/rustyice-server/src/config_reload.rs:224-288 | A surviving mount shows its entry's metadata exactly when nothing forced a restart or the metadata is the same |
| ReloadTheorems.SecondReloadShowsMetadata | crates/rustyice-server/src/config_reload.rs:268-288 | Reloading the same configuration again shows it |
| ReloadTheorems.ReloadOnce | crates/rustyice-server/src/config_reload.rs:99-381 | One attempt, successful or not: every needed mount stays registered exactly when none moved against the order |
| ReloadTheorems.StaysIff | crates/rustyice-server/src/config_reload.rs:139-377 | Which paths have a mount after a reload depends only on the sections and on whether they had one before |
| ReloadTheorems.NoneLostIsServed | crates/rustyice-server/src/config_reload.rs:386-405 | A run in which no path moves against the order serves every needed path |
| ReloadTheorems.RunReloads | crates/rustyice-server/src/config_reload.rs:386-405 | From start-up through any run of reloads the tasks agree with the configuration in force; two ever shared a path exactly when some reload handed a relay's path to an AutoDJ; and the paths with a mount are exactly those the sections of the run's configurations leave one |
| ReloadTheorems.AutoDjTurnedMountIsLost | crates/rustyice-server/src/config_reload.rs:140-206 | A concrete pair of configurations that loses a mount |
| ReloadTheorems.RelayTurnedAutoDjOverlaps | crates/rustyice-server/src/config_reload.rs:240-301 | A concrete pair that runs two tasks on one path and then loses its mount |
| ReloadTheorems.LostMountStaysLost | crates/rustyice-server/src/config_reload.rs:240-301 | And it stays without one when the same configuration is loaded again |
| ReloadTheorems.RenamedAutoDjShowsOldName | crates/rustyice-server/src/config_reload.rs:224-288 | Folder and name of an AutoDJ changed together: the mount shows the old name |
| ReloadTheorems.ChangedBurstIsNotSeen | crates/rustyice-server/src/config_reload.rs:212-236 | A burst size that a new mount would get and the surviving one does not |
| ConfigDoc.PatchAgreesIff | crates/rustyice-admin/src/config_write.rs:110-793 | For every section: patching the document and overlaying the configuration agree exactly when the file can express the patch |
| ConfigSave.ParseInvertsSerialize | crates/rustyice-admin/src/api/config.rs:922-937 | Parsing inverts the first serialization |
| ConfigSave.OverlayTwice | crates/rustyice-admin/src/api/config.rs:939-944 | Applying the patch to a file that already has it changes nothing |
| ConfigSave.WrittenIff | crates/rustyice-admin/src/api/config.rs:908-948 | The file written parses to the candidate exactly when the file in place can express the patch, or there was none and the integers fit |
| ConfigSave.RefusedIff | crates/rustyice-admin/src/api/config.rs:950-972 | When the server refuses a candidate already on disk, they agree only if it was the running configuration |
| ConfigSave.OverlappingSavesIff | crates/rustyice-admin/src/api/config.rs:369-369 | Two saves from one snapshot leave file and server in step exactly when the first makes no difference under the second |
| ConfigSave.InlineLimitsKeepCap | crates/rustyice-admin/src/config_write.rs:131-135 | A file with inline limits keeps a cap that a patch removes |
| ConfigSave.PatchedSays | crates/rustyice-admin/src/config_write.rs:110-793 | Whatever the file's form: the patch panics exactly for users under an inline auth table, and else the file says the patch with its integers saturated and, if the limits are inline, the rate cap kept |
| ConfigSave.PatchedKeepsInline | crates/rustyice-admin/src/config_write.rs:226-231 | No writer changes whether those tables are inline |
| ConfigSave.InlineAuthPanics | crates/rustyice-admin/src/config_write.rs:392-396 | A file with an inline auth table says the same and has no place for users |
| ConfigSave.RefusedSaveParts | crates/rustyice-admin/src/api/config.rs:950-972 | A transcode block that is refused and stays in the file |
| ConfigSave.OverlappingSavesPart | crates/rustyice-admin/src/api/config.rs:369-369 | Two saves from one snapshot that leave the file ahead of the server |
| ConfigSave.LargeRingIsCut | crates/rustyice-admin/src/config_write.rs:122-125 | A ring of 2 to the 63 is saved as one less |
| ConfigStore.ConfigFile.PersistAndApply | crates/rustyice-admin/src/api/config.rs:908-973 | Nothing changes before the write; a written file is the patched one, or without a known path a fresh serialization patched; the running configuration changes, and the path becomes known, only when the apply succeeds |
| ConfigStore.ConfigFile.ReloadFromDisk | crates/rustyice-server/src/config_reload.rs:386-405 | Anything wrong with the file keeps the running configuration |
| ConfigStore.Live | crates/rustyice-admin/src/api/config.rs:908-973 | Any run of saves, hand edits, removals and reloads, whatever tables are inline: file, path and running configuration are what the same run over configurations gives |
| ConfigStore.InStepIff | crates/rustyice-admin/src/api/config.rs:908-973 | File and server in step before an event are in step after it exactly when it was no write, or one that was applied and the file can say, or one that was refused and says what was running, or an edit that says so |
| ConfigStore.ReloadAgrees | crates/rustyice-server/src/config_reload.rs:386-405 | A reload from an acceptable file brings them together |
| ConfigStore.RefusedThenSaved | crates/rustyice-admin/src/api/config.rs:923-955 | A refused save leaves its patch in the file for the next one, unless there is no path: then the next one serializes again |
| ConfigStore.CleanRun | crates/rustyice-admin/src/api/config.rs:908-973 | A run of saves with values the file can hold and candidates the server accepts: the server runs all written patches, and the file says exactly that |
| ConfigPut.ValidIsWellTyped | crates/rustyice-admin/src/config_write.rs:68-693 | What a section validator accepts the parser can read back |
| ConfigPut.MountOkIff | crates/rustyice-admin/src/config_write.rs:265-326 | A mount is accepted exactly if its path starts with a slash, its password is not all white space, it has room for a listener, a burst of 16 MiB at most, and an encodable output |
| ConfigPut.AutoDjOkIff | crates/rustyice-admin/src/config_write.rs:457-523 | The same for an AutoDJ, with a folder that is not blank and a known order |
| ConfigPut.RelayOkForIff | crates/rustyice-admin/src/config_write.rs:619-693 | The same for a relay, with an HTTP upstream and no half of a login |
| ConfigPut.ServerOkIff | crates/rustyice-admin/src/config_write.rs:68-108 | And the server section: ring and listeners above 0, burst up to 16 MiB, a known format, host and level not blank |
| ConfigPut.ValidateEntries | crates/rustyice-admin/src/config_write.rs:265-326 | Accepts exactly the lists with good entries and different keys, and reports the first entry that breaks this |
| ConfigPut.Redact | crates/rustyice-admin/src/api/config.rs:47-64 | Masks every secret and nothing else |
| ConfigPut.RedactedHidesSecrets | crates/rustyice-admin/src/api/config.rs:47-64 | What a client reads is the same whatever the secrets are |
| ConfigPut.PutMounts | crates/rustyice-admin/src/api/config.rs:359-463 | Accepts exactly the bodies whose every entry finds a password and whose candidate is valid; each entry gets the password sent, else that of the last mount at its path, else the global one |
| ConfigPut.PutRelays | crates/rustyice-admin/src/api/config.rs:802-884 | The same for relays, each with the password sent, else that of the last relay at its mount that has one, else none |
| ConfigPut.PutUsers | crates/rustyice-admin/src/api/config.rs:498-621 | The same for users, who must include the requester as administrator, each under its trimmed name with the hash of the password sent, else that of the last user of that name |
| ConfigPut.MountsMadeIff | crates/rustyice-admin/src/api/config.rs:369-425 | The mounts a body resolves to are exactly those made entry by entry in that order of preference |
| ConfigPut.UsersMadeIff | crates/rustyice-admin/src/api/config.rs:532-594 | So are the users |
| ConfigPut.TrimIs | crates/rustyice-admin/src/api/config.rs:544-544 | Trimming takes off all white space at both ends and nothing else |
| ConfigPut.PutServer | crates/rustyice-admin/src/api/config.rs:181-258 | A blank or masked global password leaves the one in place |
| ConfigPut.PutTranscode | crates/rustyice-admin/src/api/config.rs:279-325 | Accepts exactly the valid transcode blocks |
| ConfigPut.PutAutoDjs | crates/rustyice-admin/src/api/config.rs:671-759 | Accepts exactly the valid lists that collide with no other section |
| ConfigPut.MountsWriteBack | crates/rustyice-admin/src/api/config.rs:376-463 | Writing back the mounts as read is accepted and changes nothing, although no password was sent |
| ConfigPut.RelaysWriteBack | crates/rustyice-admin/src/api/config.rs:813-884 | The same for relays |
| ConfigPut.UsersWriteBackIff | crates/rustyice-admin/src/api/config.rs:532-594 | For users it is accepted and changes nothing exactly when no name has white space around it |
| ConfigPut.SpaceBehindNameIsRefused | crates/rustyice-admin/src/api/config.rs:532-594 | A user whose name ends in a space: the write-back is refused |
| ConfigPut.RequesterKeptIff | crates/rustyice-admin/src/api/config.rs:503-530 | And the requester's check passes exactly for an administrator |
| ConfigPut.OtherSectionsWriteBack | crates/rustyice-admin/src/api/config.rs:181-325 | Writing back server, transcode and AutoDJs changes nothing; the global password survives |
| EndToEnd.Broadcast | crates/rustyice-server/src/source_protocol.rs:213-228 | A chunked upload through decoder, ingest, bus and listener: unless something fails, interrupts it or rates it at 0, the player gets exactly the payload bytes behind the stripped prefix and one metadata block per interval |

## Left out

- Sockets, HTTP routing and head parsing, timeouts, response codes: I/O around the modelled cores.
- `ChainReader` and `CountingReader`: a buffer in front of a reader and a counter behind it, with nothing hard to state.
- Symphonia, LAME, libvorbis, resampling, bcrypt, base64: foreign code, parameters of the model.
- tokio's own implementation of broadcast, mpsc, notify and cancellation: assumed to meet its documentation.
- TOML and JSON text, comments, white space, dotted keys, atomic file replacement: documents are trees of tables; a file that is not TOML at all is not modelled.
- Dynamic mounts created by sources, and their races with reloads: the code gives them no clean guarantee.
- Relay backoff, header overlays, effective identity, session store, listener limits, web interface, metrics: one-branch facts.
- The `Live` kind, which no code stores, and relay respawn after a panic, which does not happen.
- Writer errors in ICY output and a zero metadata interval, with which the writing loop would not end.
- The reasons that `validate_paths` and the validators report: the model has accepted or not, and the index of the entry.
- A file that does not parse as a configuration: the model's hand edits leave files that do.
- A read buffer of no bytes in ingest: its size is a constant of the program.
- Reload.TaskRegistry.Cancel: cancelling is one step here; the wait for the task to end (crates/rustyice-server/src/config_reload.rs:440-447) is not modelled, and a stranded AutoDJ would hold it up for ever.
- Staging.StreamDecoder.PushStaged: once two scans differed nothing is said about later pushes but that no byte is lost.
- Ingest.PublishQueue: the bound holds from the packet after the rate is known, because the code does not pace before that.
- EndToEnd.Broadcast: one stage after the other, for a listener that joins before the first packet and an ingest that does not transcode; `NoGapNoDuplicate` is about listeners that join later.
- IcySpec.DemuxInvertsMux: one way only for a whole stream; a block too long for its length byte may by coincidence still leave a readable stream.
