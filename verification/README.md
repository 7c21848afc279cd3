# A verified model of PSICOSE-1B

PSICOSE-1B moves one payload byte per four-byte frame (`TYPE | SEQ | DATA | CRC`)
over a link that reads and writes one byte per poll.  This project models its
reliability engine in Dafny and proves what the engine promises: framing and
CRC, the stop-and-wait and selective-repeat senders and receivers, the demux of
one physical stream into two ends, the pump, the in-memory wire's `copy`,
turn-taking, the fragmentation layer above, and the round-robin scheduler.

`dafny verify dfyconfig.toml` checks the whole project.

## How the model is built

Every object the crate updates in place is a class here (`Framing.FrameAssembler`,
`Framing.OutBuf`, `Rx.Receiver`, `WindowRx.WindowedReceiver`, `Tx.Sender`,
`WindowTx.WindowedSender`, `Ports.Ring`, `Ports.Lane`, `Ports.LinkFace`,
`Pump.Pump`, `Turn.Turn`, `Stream.Fragmenter`, `Stream.Defragmenter`,
`Scheduler.System`).  Each method is proved to do exactly what a step function on
the object's value does (`View() == Step(old(View()))`, results included), and the
theorems are about runs of those step functions.  Loops in the crate are loops
here.

The transport is a parameter of each poll: whether a write made in it succeeds,
and what a read made in it returns.  A poll's contract says which calls it made.
Theorems quantify over all such answers, so every fault pattern is covered.

`SEQ` is one byte.  Where a theorem needs it, a ghost index counts without bound
and `SEQ` is the index modulo 256; the code never sees the index.

| module | models |
|---|---|
| `Prelude`, `Crc`, `Wire`, `Framing` | bytes, SEQ arithmetic, CRC-8, frames, the sliding assembler, the output buffer |
| `Rx`, `Tx`, `StopAndWait` | the stop-and-wait receiver and sender, and the pair over lossy channels, byte by byte |
| `WindowRx`, `WindowTx`, `WindowOne`, `Reorder`, `SendWindow` | the selective-repeat receiver and sender, a window of one, what the reorder buffer delivers, the send window |
| `SelectiveRepeat`, `SelectiveRepeatRuns` | the selective-repeat pair over lossy channels, frame by frame |
| `Polls`, `Flights`, `WindowFlights`, `Answers` | several polls in a row: what each word does to a waiting sender, of either kind, and what either receiver answers to it |
| `Timers`, `Settling`, `Handshake` | the windowed sender's timers, what its polls report over a run, opening and aborting a session |
| `Torn`, `SelectiveRepeatBytes` | replies torn by the sender's own writes, and the selective-repeat pair byte by byte |
| `Demux`, `Ports` | two rings, a held window, the lanes of the duplex wire, the face of one port |
| `Pump`, `Exchange`, `Collision`, `Duplex`, `Pace`, `Copy` | the pump, its two halves poll by poll, two sessions ending in one poll, the in-memory wire, how long an exchange takes, `copy` |
| `Turn`, `TurnTaking`, `Aborting` | turn-taking, two such peers, what a peer's ABORT does to pump and turn |
| `Stream`, `Scheduler`, `Retry` | fragmentation, the round-robin table, retry bounds |

## What is proved, in short

* Selective repeat delivers a prefix of what was offered in every run over
  channels that lose or detectably corrupt any frame and let undecodable words
  appear; completion means all of it; SEQ modulo 256 is never ambiguous.  Safety
  and completion hold byte poll by byte poll, torn replies included, and by what
  the polls report: `TransferDone` and `TransferFinished` mean all of it, and each
  byte is answered `Acked` exactly once.
* One table of words says what both receivers answer: over every run the bytes
  written are the replies it asks for, and each is reported once, when it is out.
* For both senders, what an ACK, a NACK, an ABORT or any other word does is stated
  on polls: what is reported, and what the next polls write.  Each slot of the
  windowed sender times out by its own count of silent polls, exactly.
* START and ABORT handshakes of the windowed pair, from any earlier state.
* A peer's ABORT ends our own sending at once, except for a START or ABORT.
* Stop-and-wait delivers exactly once, byte poll by byte poll; a window of one is
  indistinguishable from it.
* The reorder buffer delivers the longest gap-free prefix whatever arrives.
* The demux conserves every window of both ends, full rings and port faults
  included.
* The pump reports every byte; it reports every session end if and only if no
  poll ends a session in each direction.
* On a fresh wire `copy` is the identity, and succeeds if and only if neither source nor sink
  fails on the way and the source has at most 71427 bytes (`14 n + 10 <=
  1_000_000` polls); which error it ends with otherwise is stated exactly.
* Turn-taking peers never speak over each other, and hear each session whole.
* Fragmentation round-trips every payload; the defragmenter completes exactly on
  whole messages.
* The scheduler is fair; retries are bounded, and a silent peer is given up on
  after an exact number of polls.

## Where the code and its documentation differ

The model follows the code.

* `docs/PROTOCOL.md:322-323` ranks `Completed` above `Received`.  In
  `src/pump.rs:214-222` a delivered byte is reported first and a completion of
  the same step is kept for the next poll, so neither of the two is lost.
* `docs/PROTOCOL.md:322-323` names one `Completed` per step.  When the peer's
  session and our own end in the same poll, that one event stands for both and
  none is owed (`src/pump.rs:221-223`): `Collision.TwoEndsOneReport` is such a
  run, and `Pump.NothingIsLost` says that it is the only way an end goes
  unreported.
* `docs/PROTOCOL.md:409-411` says FINISH is accepted with no holes.  The windowed
  receiver compares the SEQ only; with a peer other than this crate's sender it
  can accept FINISH and drop a byte it has acknowledged
  (`Reorder.FinishCanDropAcknowledgedByte`; exactly when:
  `Reorder.FinishKeepsIffNothingStored`).  With this crate's sender it never does
  (`SelectiveRepeatRuns.FinishDiscardsNothing`).
* `docs/PROTOCOL.md:404-407` states the windows with the compile-time `N`.  The
  code uses the runtime `limit`, and so do the theorems.

## Model

| member | source | states |
|---|---|---|
| `Crc.BuildNibbleTable` | src/protocol/crc.rs:20-34 | The table loop leaves in entry `n` the result of four bit steps of the nibble `n` placed in bits 7..4. |
| `Crc.FoldNibbleIsFourSteps` | src/protocol/crc.rs:36-43 | One table fold equals four bit-serial steps of the register, for every register value. |
| `Crc.Compute` | src/protocol/crc.rs:45-68 | The table-driven loop, for byte strings of any length, returns the bit-serial CRC. |
| `Crc.Linear` | src/protocol/crc.rs:13-17 | The checksum of the XOR of two equally long messages is the XOR of their checksums. |
| `Crc.Residue` | src/protocol/crc.rs:60-68 | A message followed by one more byte has checksum zero exactly when that byte is the checksum of the message. |
| `Crc.FoldParity` | src/protocol/crc.rs:13-17 | The number of one bits in the register is, modulo two, that of the initial register plus that of the message. |
| `Crc.OddFlipsDetected` | src/protocol/crc.rs:60-68 | Any error pattern with an odd number of bits has a non-zero checksum, whatever its length. |
| `Crc.BurstDetected` | src/protocol/crc.rs:60-68 | Any error pattern confined to eight consecutive bits has a non-zero checksum, wherever the burst lies. |
| `Crc.CorruptionDetected` | src/protocol/crc.rs:60-68 | A message with its CRC, hit by either kind of error, never ends in the CRC of what precedes it. |
| `Wire.DecodeEncode` | src/protocol/frame.rs:149-183 | Every well-formed frame decodes to itself after encoding. |
| `Wire.EncodeDecode` | src/protocol/frame.rs:149-183 | Four bytes decode to a frame if and only if the frame is well formed and the bytes are its encoding. |
| `Wire.CorruptFrameIsRejected` | src/protocol/frame.rs:166-183 | An encoded frame hit by an odd number of flips or a burst of at most eight bits is rejected for its TYPE or its CRC. |
| `Framing.FrameAssembler.Accept` | src/protocol/assembler.rs:67-91 | One byte: the collected bytes, the completed window if any (kept for the demux even when the buffer slides), its decoding, and in resync mode the three bytes kept behind an unknown TYPE. |
| `Framing.FrameAssembler.Reset` | src/protocol/assembler.rs:54-56 | Drops the collected bytes and keeps the mode. |
| `Framing.WordsKeepTheirBoundaries` | src/protocol/assembler.rs:67-91 | Any list of four-byte words (with a known TYPE when resyncing) comes out one word per four bytes, valid or not: a CRC or semantic reject never shifts a later boundary. |
| `Framing.ResyncSkipsJunk` | src/protocol/assembler.rs:77-91 | In resync mode any prefix of unknown-TYPE bytes costs one rejected window per byte and every following word is recovered. |
| `Framing.AssemblerInvertsSerialize` | src/protocol/assembler.rs:67-91 | Feeding the serialization of any list of well-formed frames yields exactly those frames, in either mode. |
| `Framing.OutBuf.LoadFrame` | src/protocol/outbuf.rs:31-35 | All four bytes of the frame become unsent. |
| `Framing.OutBuf.Peek` | src/protocol/outbuf.rs:37-44 | The first unsent byte, and nothing moves: a failed write loses no byte. |
| `Framing.OutBuf.Commit` | src/protocol/outbuf.rs:46-51 | Exactly the first unsent byte is taken off; an idle buffer stays idle. |
| `Framing.OutBuf.Clear` | src/protocol/outbuf.rs:18-24 | Nothing is left to write. |
| `Rx.Receiver.Settle` | src/rx.rs:121-129 | The coarse state follows the latches: aborted before finished before idle. |
| `Rx.Receiver.Reply` | src/rx.rs:135-139 | A reply is loaded whole and its action becomes pending. |
| `Rx.Receiver.PerformPending` | src/rx.rs:155-189 | Each pending action has its outcome and effect; only a delivery advances the expected SEQ. |
| `Rx.Receiver.Pump` | src/rx.rs:141-153 | Writes one reply byte; the pending action is performed exactly when the fourth is out, and a failed write changes nothing. |
| `Rx.Receiver.OnStart` | src/rx.rs:299-305 | SEQ 0 is expected, both latches are cleared, and ACK 0 is begun. |
| `Rx.Receiver.OnAbort` | src/rx.rs:307-316 | Ignored once finished; otherwise latches the abort and begins ACK 0. |
| `Rx.Receiver.OnFinish` | src/rx.rs:318-340 | Accepted only at the expected SEQ, acknowledged again at the closed SEQ, refused otherwise. |
| `Rx.Receiver.OnData` | src/rx.rs:342-369 | Expected SEQ: ACK and deliver; previous SEQ: ACK and ignore; else NACK; nothing once closed. |
| `Rx.Receiver.Dispatch` | src/rx.rs:263-291 | What each decoded frame or decode error leads to, including NACK of the expected SEQ for a reject. |
| `Rx.Receiver.PollOnce` | src/rx.rs:244-297 | A whole poll, tied to the step function all theorems are about: outcome, calls made on the transport, and new state. |
| `Rx.Receiver.constructor` | src/rx.rs:91-104 | A new receiver expects SEQ 0 and holds nothing. |
| `Rx.WordPoll` | src/rx.rs:258-297 | The poll that completes a frame never hands over a byte: its reply is begun but cannot be out yet. |
| `WindowRx.WindowedReceiver.constructor` | src/window/rx.rs:44-62 | An empty window of `N` slots with the limit at `N`. |
| `WindowRx.WindowedReceiver.SetWindowLimit` | src/window/rx.rs:85-97 | Clamps to `1..=N`, and changes nothing unless buffer, emit queue and reply are all empty. |
| `WindowRx.WindowedReceiver.Clear` | src/window/rx.rs:113-117 | Empties the reorder buffer and the emit queue. |
| `WindowRx.WindowedReceiver.ShiftBuf` | src/window/rx.rs:133-140 | Every slot moves one place towards the head and the last becomes free. |
| `WindowRx.WindowedReceiver.PushEmitByte` | src/window/rx.rs:142-148 | Appends to the emit queue, or drops the byte when all `N` places are taken. |
| `WindowRx.WindowedReceiver.PopEmitByte` | src/window/rx.rs:150-163 | Takes the oldest queued byte; an exhausted queue is reset. |
| `WindowRx.WindowedReceiver.Drain` | src/window/rx.rs:165-172 | The loop moves the whole gap-free run at the head into the emit queue and advances the expected SEQ by its length. |
| `WindowRx.WindowedReceiver.PerformPending` | src/window/rx.rs:194-233 | Each pending action has its outcome and effect; a drain hands out the first byte of the run. |
| `WindowRx.WindowedReceiver.Pump` | src/window/rx.rs:180-192 | Writes one reply byte; the pending action is performed exactly when the fourth is out. |
| `WindowRx.WindowedReceiver.OnStart` | src/window/rx.rs:294-301 | Opens a session: SEQ 0, latches and window cleared, ACK 0 begun. |
| `WindowRx.WindowedReceiver.OnAbort` | src/window/rx.rs:303-313 | Ignored once finished; otherwise clears the window, latches and begins ACK 0. |
| `WindowRx.WindowedReceiver.OnFinish` | src/window/rx.rs:315-338 | Accepted at the expected SEQ with the window cleared; acknowledged again at the closed SEQ; refused otherwise. |
| `WindowRx.WindowedReceiver.OnData` | src/window/rx.rs:340-372 | In the window: stored once and acknowledged; in the past window: acknowledged again; else NACKed; nothing once closed. |
| `WindowRx.WindowedReceiver.Dispatch` | src/window/rx.rs:257-291 | What each decoded frame or decode error leads to. |
| `WindowRx.WindowedReceiver.PollOnce` | src/window/rx.rs:235-292 | A whole poll, tied to the step function all theorems are about. |
| `WindowRx.TakePendingIsCoherent` | src/window/rx.rs:194-233 | Completing any reply restores what holds between polls, in particular an empty emit queue whenever a reply is pending. |
| `WindowRx.DrainDeliversRun` | src/window/rx.rs:165-172 | A drain delivers and queues exactly the gap-free run in order, of length at least one, and leaves a gap at the head. |
| `WindowOne.PollsAgree` | src/window/rx.rs:236-292 | In corresponding states one poll of either receiver gives the same outcome, the same transport calls and corresponding states, for every transport answer. |
| `WindowOne.WindowOfOneIsStopAndWait` | src/window/rx.rs:236-372 | With limit 1 the windowed receiver and the stop-and-wait receiver agree poll by poll on outcome, reply bytes, reads, expected SEQ and state, for every input and every fault pattern, and every `N`. |
| `Reorder.StepKeepsInv` | src/window/rx.rs:236-292 | Every poll, whatever it reads, keeps the reorder buffer equal to the first-stored payloads from the expected index on. |
| `Reorder.DeliversFirstGapFreePrefix` | src/window/rx.rs:133-172 | For any bytes in any order: what was handed out plus what is queued is the gap-free prefix of the payloads first stored, up to the first gap. |
| `Reorder.DrainNeverDrops` | src/window/rx.rs:142-148 | In every reachable state a pending drain starts from an empty emit queue, so the silent drop never happens. |
| `Reorder.FinishKeepsIffNothingStored` | src/window/rx.rs:315-338 | Accepting FINISH keeps the reorder buffer if and only if nothing is stored in it; the code checks the SEQ only. |
| `Reorder.FinishCanDropAcknowledgedByte` | src/window/rx.rs:334-336 | A concrete peer for which it is not: DATA 1 is stored and acknowledged, then FINISH 0 is accepted and the byte is gone. |
| `Tx.Sender.constructor` | src/tx.rs:115-127 | A new sender is idle at SEQ 0 with the given policy. |
| `Tx.Sender.BeginFlight` | src/tx.rs:143-152 | A flight starts unwritten with all the retries of the policy. |
| `Tx.Sender.TryOfferStart` | src/tx.rs:167-181 | Accepted in the resting states only; resets the SEQ to 0. |
| `Tx.Sender.TryOffer` | src/tx.rs:183-190 | Accepted only when idle with nothing in flight; carries the current SEQ. |
| `Tx.Sender.TryOfferFinish` | src/tx.rs:192-199 | Accepted only when idle; carries the next unused SEQ. |
| `Tx.Sender.TryOfferAbort` | src/tx.rs:201-220 | Replaces any other flight, even half written, and leaves an ABORT under way alone. |
| `Tx.Sender.CancelLocally` | src/tx.rs:222-228 | Drops the flight without writing ABORT. |
| `Tx.Sender.PumpOut` | src/tx.rs:230-237 | The next byte leaves the buffer, whether it was the last is reported; a failed write changes nothing, and an idle buffer is reported done. |
| `Tx.Sender.FrameOnWire` | src/tx.rs:283-290 | The flight waits, with its tick count and the half-read reply dropped. |
| `Tx.Sender.AttemptFailed` | src/tx.rs:380-395 | One retry is spent and the frame will be written again; with none left the sender fails. |
| `Tx.Sender.Acknowledged` | src/tx.rs:353-378 | The flight ends; only DATA advances the SEQ, START resets it, FINISH finishes, ABORT aborts. |
| `Tx.Sender.Control` | src/tx.rs:328-351 | Only ACK or NACK of the flight's own SEQ acts on it; other ones reset the tick count; ABORT cancels. |
| `Tx.Sender.WriteOne` | src/tx.rs:239-252 | The write half of a poll: the flight's frame is loaded if need be and one byte written. |
| `Tx.Sender.ReadOne` | src/tx.rs:303-326 | The read half: silence is counted and may spend a retry, a byte may complete a frame. |
| `Tx.Sender.PollOnce` | src/tx.rs:254-326 | A whole poll, tied to the step function all theorems are about. |
| `WindowTx.WindowedSender.constructor` | src/window/tx.rs:56-70 | `N` empty slots, limit `N`, idle at SEQ 0. |
| `WindowTx.WindowedSender.CountOutstanding` | src/window/tx.rs:83-91 | The number of occupied slots. |
| `WindowTx.WindowedSender.Find` | src/window/tx.rs:133-140 | The first slot carrying the SEQ, and `None` exactly when no slot carries it. |
| `WindowTx.WindowedSender.FindFreeSlot` | src/window/tx.rs:142-144 | The first free slot, and `None` exactly when all are occupied. |
| `WindowTx.WindowedSender.Oldest` | src/window/tx.rs:146-161 | The result of the wrapping scan over all slots. |
| `WindowTx.WindowedSender.HasSessionFlight` | src/window/tx.rs:170-180 | Whether START, FINISH or ABORT occupies a slot. |
| `WindowTx.WindowedSender.FindNextToWrite` | src/window/tx.rs:293-307 | The first slot asking for a retransmission, else the first never written. |
| `WindowTx.WindowedSender.InsertSlot` | src/window/tx.rs:182-197 | The first free slot gets an unwritten flight with all its retries; refused when full. |
| `WindowTx.WindowedSender.TryOfferStart` | src/window/tx.rs:199-214 | Accepted only with an empty window and an idle buffer; resets the SEQ. |
| `WindowTx.WindowedSender.TryOffer` | src/window/tx.rs:216-236 | Accepted when no session flight exists and SEQ and slot have room; advances the SEQ. |
| `WindowTx.WindowedSender.TryOfferFinish` | src/window/tx.rs:238-250 | Accepted only with an empty window; carries the next unused SEQ. |
| `WindowTx.WindowedSender.TryOfferAbort` | src/window/tx.rs:252-273 | Empties the window in favour of one ABORT; an ABORT under way is left alone. |
| `WindowTx.WindowedSender.SetWindowLimit` | src/window/tx.rs:103-116 | Clamps to `1..=N`, and changes nothing while anything is outstanding. |
| `WindowTx.WindowedSender.CancelLocally` | src/window/tx.rs:275-282 | Empties the window without writing ABORT. |
| `WindowTx.WindowedSender.LoadInto` | src/window/tx.rs:309-323 | The slot's frame becomes the one being written; which frame that is on the wire is `WindowFlights.SlotGoesOut`. |
| `WindowTx.WindowedSender.CompleteWrite` | src/window/tx.rs:325-340 | Marks the written slot and drops any half-read reply. |
| `WindowTx.WindowedSender.WriteOne` | src/window/tx.rs:354-370 | The write half of a poll. |
| `WindowTx.WindowedSender.Acknowledged` | src/window/tx.rs:399-434 | Frees exactly the first slot with that SEQ, if it was written; answer and state follow its kind (`WindowFlights.AckSettles`). |
| `WindowTx.WindowedSender.Rejected` | src/window/tx.rs:436-458 | Spends a retry of that slot, or empties the window and fails. |
| `WindowTx.WindowedSender.TickOne` | src/window/tx.rs:463-484 | One slot's timer: counted, retransmission asked for, or given up; exactly when is `Timers.EachSlotCountsOnItsOwn`. |
| `WindowTx.WindowedSender.Tick` | src/window/tx.rs:460-486 | The timer scan in slot order, stopping where retries are used up. |
| `WindowTx.WindowedSender.Control` | src/window/tx.rs:387-397 | ACK, NACK and ABORT act; everything else is ignored. |
| `WindowTx.WindowedSender.ReadOne` | src/window/tx.rs:372-385 | The read half of a poll. |
| `WindowTx.WindowedSender.PollOnce` | src/window/tx.rs:343-385 | A whole poll, tied to the step function all theorems are about. |
| `SendWindow.OldestIsLeast` | src/window/tx.rs:146-161 | The wrapping scan finds the slot with the least unbounded index, whatever order slots are reused in. |
| `SendWindow.WindowTestIsExact` | src/window/tx.rs:163-168 | A new byte is admitted if and only if every outstanding index stays within `limit` of it. |
| `SendWindow.FirstTransmissionInOrder` | src/window/tx.rs:293-307 | The slot chosen for a first transmission holds the least index not yet transmitted, despite slot reuse. |
| `SendWindow.StepKeepsInv` | src/window/tx.rs:343-385 | Offers and polls, whatever arrives or fails, keep every slot inside one window of indices. |
| `SendWindow.StepPollIsPoll` | src/window/tx.rs:343-385 | The poll the runs of the sender are made of is the code's poll: counting indices changes nothing the code sees. |
| `SendWindow.RunsStayInWindow` | src/window/tx.rs:146-168 | In every run outstanding SEQs are distinct and lie in `[oldest, oldest+limit)`, and the scan returns the true oldest. |
| `SendWindow.FirstTransmissionsInOrder` | src/window/tx.rs:293-340 | In every run first transmissions happen in offer order, each index once, none skipped. |
| `SendWindow.ReadsOnlyWhenAllWritten` | src/window/tx.rs:354-385 | A poll reads exactly when every occupied slot is fully written and none asks to be written again. |
| `SelectiveRepeat.PowerUpIsInv` | tests/windowed.rs:35-81 | The fresh pair with empty channels and the same limit on both sides satisfies the invariant. |
| `SelectiveRepeat.OfferKeepsInv` | src/window/tx.rs:219-236 | Offering a byte keeps the pair's invariant: admission keeps every index in flight within two windows. |
| `SelectiveRepeat.TxPollKeepsInv` | src/window/tx.rs:343-385 | Writing a frame or a timer tick keeps the pair's invariant. |
| `SelectiveRepeat.TxFrameKeepsInv` | src/window/tx.rs:387-458 | Processing any reply in flight keeps the pair's invariant. |
| `SelectiveRepeatRuns.RxFrameKeepsInv` | src/window/rx.rs:257-291 | Taking in any frame in flight keeps the pair's invariant. |
| `SelectiveRepeatRuns.RxPollKeepsInv` | src/window/rx.rs:236-245 | Writing a reply, draining and handing out queued bytes keep the pair's invariant. |
| `SelectiveRepeatRuns.StepKeepsInv` | src/window/rx.rs:236-372 | Every event of the pair, losses, detectable corruption and undecodable stray words included, keeps the invariant. |
| `SelectiveRepeatRuns.DeliveredIsPrefix` | src/window/tx.rs:146-236 | Safety: in every run over lossy, corrupting FIFO channels the bytes delivered are a prefix of the bytes offered, for any length and any number of SEQ wraps. |
| `SelectiveRepeatRuns.NothingIsAmbiguous` | src/window/rx.rs:119-131 | In every reachable state each DATA in flight lies within a window of the expected index and is classified as meant, and each ACK in flight can free only the slot it is about. |
| `SelectiveRepeatRuns.CompletionIsExact` | src/window/tx.rs:425-428 | In every run, a step of the sender that answers `TransferDone`, one of the receiver that answers `TransferFinished`, a finished sender and a latched FINISH each imply that FINISH is latched and exactly the offered bytes were delivered. |
| `SelectiveRepeatRuns.FinishDiscardsNothing` | src/window/rx.rs:334-337 | In every reachable state a FINISH about to be read carries the expected SEQ and clearing the window changes nothing. |
| `SelectiveRepeatRuns.FourPollsReadOneFrame` | src/window/tx.rs:372-385 | Four byte polls of a waiting sender do exactly what the whole-frame event of the pair does. |
| `SelectiveRepeatRuns.FourPollsReadOneWord` | src/window/rx.rs:247-292 | Four byte polls of a reading receiver do exactly what the whole-frame event of the pair does. |
| `Torn.TornWindowIsIgnored` | src/window/tx.rs:325-340 | Four bytes cut out of two consecutive replies at offset 1, 2 or 3 never decode as ACK, NACK or ABORT, whatever the replies. |
| `SelectiveRepeatBytes.TxPollIsCoupled` | src/window/tx.rs:343-385 | A one-byte poll of the sender, half-read and torn replies included, is at most two events of the pair over whole frames. |
| `SelectiveRepeatBytes.RxPollIsCoupled` | src/window/rx.rs:235-292 | A one-byte poll of the receiver is at most one event of the pair over whole frames. |
| `SelectiveRepeatBytes.StepIsCoupled` | src/window/tx.rs:325-385 | Every step of the pair over bytes is matched by steps of the pair over frames, whose invariant it keeps. |
| `SelectiveRepeatBytes.DeliveredIsPrefix` | src/window/tx.rs:146-236 | Safety and exact completion byte poll by byte poll: in every run, whichever replies the sender tears, the bytes delivered are a prefix of the bytes offered, and all of them once FINISH is latched, as it is when a poll of the sender says `TransferDone` or one of the receiver `TransferFinished`. |
| `StopAndWait.StepKeepsInv` | src/tx.rs:328-395 | Offers, byte polls on either side, losses, corruptions and undecodable stray words keep acknowledgements, last frame read and frames in flight one nondecreasing chain of indices. |
| `StopAndWait.ExactlyOnce` | src/rx.rs:342-369 | In every run, byte by byte: delivered is a prefix of offered, and acknowledged <= delivered <= acknowledged + 1. |
| `StopAndWait.CompletionIsExact` | src/tx.rs:366-372 | In every run, a finished sender implies a latched receiver, and that implies all offered bytes were delivered. |
| `StopAndWait.RetransmissionIsNotDelivered` | src/rx.rs:362-365 | A frame whose byte was already delivered leads to a duplicate acknowledgement, and one whose byte was not leads to its delivery, never the other way round. |
| `Demux.DrainConserves` | src/transport/face.rs:117-142 | Looking at the wire changes nothing of what either end will ever be given. |
| `Demux.ReadConserves` | src/transport/face.rs:262-281 | A read hands out exactly the next byte its end is owed and takes nothing from the other end. |
| `Demux.FaultyReadConserves` | src/transport/face.rs:109-143 | A read during which the port fails hands out nothing and costs neither end a byte of what was looked at before the fault. |
| `Demux.WindowsAreConserved` | src/transport/face.rs:100-143 | For every stream, every interleaving of reads and port faults in any of them: popped + ring + held window is the in-order concatenation of that end's windows (ACK/NACK to the sender, all else, rejects included, to the receiver). |
| `Demux.SilenceBetweenWindows` | src/transport/face.rs:262-281 | An end is told that nothing is there only at a boundary of its own windows: no frame is torn. |
| `Ports.Ring.Push` | src/p2p/duplex.rs:47-55 | Appends one byte, refused exactly when 64 are held. |
| `Ports.Ring.Pop` | src/p2p/duplex.rs:57-65 | Takes the oldest byte. |
| `Ports.Ring.PushFrame` | src/p2p/duplex.rs:67-79 | Appends four bytes or none, refused exactly when fewer than four places are left. |
| `Ports.Sorter.Store` | src/p2p/duplex.rs:107-113 | A window goes to its own ring whole, or nothing changes. |
| `Ports.Sorter.Release` | src/p2p/duplex.rs:116-122 | The window held back is stored before anything more is looked at. |
| `Ports.Sorter.Accept` | src/p2p/duplex.rs:124-141 | One byte: a completed window is classified and stored, or held back. |
| `Ports.SameBytes` | src/p2p/duplex.rs:127-136 | Re-encoding a decoded window gives the window back, so storing either is the same. |
| `Ports.Lane.Ingest` | src/p2p/duplex.rs:115-142 | The loop empties the wire ring into the two rings, stopping at the first window that does not fit. |
| `Ports.Lane.WriteByte` | src/p2p/duplex.rs:366-378 | Appends to the wire ring, failing when it is full. |
| `Ports.Lane.ReadByte` | src/p2p/duplex.rs:380-393 | Ingest, then one byte of the caller's own ring. |
| `Ports.LinkFace.Ingest` | src/transport/face.rs:109-143 | Reads the port until silence, fault or a held window, treating the bytes as a lane treats its wire; a port fault is reported only if reading got that far. |
| `Ports.LinkFace.ReadByte` | src/transport/face.rs:254-281 | Ingest, then one byte of the caller's own ring; a port fault pops nothing. |
| `Pump.Pump.PollSender` | src/pump.rs:188-198 | A peer's ABORT cancels local sending unless our own START or ABORT is under way, then the sender polls. |
| `Pump.Pump.TakeEvent` | src/pump.rs:199-236 | The one event reported, and whether a completion is owed to the next poll. |
| `Pump.Pump.PollOnce` | src/pump.rs:165-237 | A whole poll, receiver first, tied to the step function the theorems are about. |
| `Pump.DeliveryIsReported` | src/pump.rs:211-219 | A byte handed over is reported if and only if the sender's poll neither fails nor hears ABORT. |
| `Pump.NothingIsLost` | src/pump.rs:208-222 | In every run from power-up, offers included, without failing polls and without ABORT: each byte is reported once and in order, and every session end is reported, at most one poll late, if and only if no poll ends a session in each direction; each such poll leaves exactly one end unreported. |
| `Collision.TwoEndsOneReport` | src/pump.rs:211-223 | A run from power-up in which it happens: both FINISH handshakes complete in the same poll and one `Completed` stands for both, none being owed. |
| `Duplex.ReadOwn` | src/p2p/duplex.rs:380-393 | Behind a lane carrying a channel of words, a port read gives the next byte of the oldest word, or silence between words. |
| `Duplex.TxOnWire` | src/tx.rs:254-326 | On the wire the sender's poll is its poll in the stop-and-wait system, and the lanes follow the channels. |
| `Duplex.RxOnWire` | src/rx.rs:244-297 | On the wire the receiver's poll is its poll in the stop-and-wait system, and the lanes follow the channels. |
| `Duplex.ServeSender` | src/pump.rs:165-237 | The sending peer's pump poll moves the system by its sender's poll and delivers nothing. |
| `Duplex.ServeReceiver` | src/pump.rs:165-237 | The receiving peer's pump poll reports every byte delivered and reports completion only once FINISH is latched. |
| `Pace.NextPhase` | src/p2p/duplex.rs:297-315 | One round of both polls, at any of the fourteen points of an exchange: nobody fails and the exchange is exactly one point further. |
| `Pace.RoundOnPace` | src/p2p/duplex.rs:274-316 | A copy on pace stays on pace; a byte is handed over in the tenth round of its exchange and in no other, and FINISH is reported in round `14 n + 10` of a copy of `n` bytes and in no other. |
| `Copy.TakeNext` | src/p2p/duplex.rs:275-281 | Takes the next source byte in hand or notices the end when nothing is in hand, and reports the source's fault exactly when the read it makes is the faulty one. |
| `Copy.OfferNext` | src/p2p/duplex.rs:283-295 | The byte in hand, or FINISH after the last, is offered to an idle sender and accepted. |
| `Copy.PollBoth` | src/p2p/duplex.rs:297-315 | Polls both pumps, sending side first, and passes on the receiving side's event. |
| `Copy.CopiedIffFaultless` | src/p2p/duplex.rs:274-318 | The first of a source fault, a sink fault, the end and the last round is the end of the copy if and only if neither fault lies on the way and `14 n + 10 <= 1_000_000`. |
| `Copy.CopyWire` | src/p2p/duplex.rs:263-319 | On a fresh wire: the sink always holds a prefix of the source; `Ok(n)` if and only if neither end fails on the way and `14 n + 10 <= 1_000_000`, and then the sink is exactly the source, counted (saturating); otherwise the error is that of whichever fault falls in the earlier round, or stalled, never another, with the sink's exact length in each case. |
| `Turn.Turn.PushBytes` | src/transport/turn.rs:97-108 | The loop queues as many bytes as fit, none once FINISH was offered, and returns how many. |
| `Turn.Turn.Drive` | src/transport/turn.rs:144-171 | Offers START, the next byte or FINISH, only on our turn and only to a resting sender. |
| `Turn.Turn.TakeEvent` | src/transport/turn.rs:113-141 | Completion flips the turn: ours yields and empties the queue, the peer's grants. |
| `Turn.Turn.PollOnce` | src/transport/turn.rs:110-142 | A whole step, tied to the step function the theorems are about. |
| `Exchange.RxAccepts` | src/rx.rs:244-297 | The last byte of the awaited frame starts its acknowledgement and nothing is reported yet. |
| `Exchange.AnswerLast` | src/rx.rs:141-189 | The last byte of the acknowledgement performs exactly what it acknowledged. |
| `TurnTaking.SpeakerPolls` | src/transport/turn.rs:110-171 | A poll of the speaker keeps the conversation consistent, with the same speaker. |
| `TurnTaking.ListenerPolls` | src/transport/turn.rs:110-142 | A poll of the listener keeps the conversation consistent, the turn flipping exactly when its ACK of FINISH is out. |
| `TurnTaking.FinishFlips` | src/transport/turn.rs:123-129 | When the ACK of FINISH is out the listener has heard exactly the queue and becomes the speaker, while the old speaker has one word left to read. |
| `TurnTaking.StepKeepsInv` | src/transport/turn.rs:97-171 | Queueing, arriving and polling keep one of the two conversations, as long as no retry timer runs out. |
| `TurnTaking.SessionsAreHeardExactly` | src/transport/turn.rs:97-142 | Over any number of alternations each peer has heard exactly the sessions the other queued, whole and in order. |
| `TurnTaking.NobodyIsSpokenOver` | src/transport/turn.rs:144-171 | Whenever a peer has START, DATA or FINISH to write the other has none and its session is over, and no peer ever has a frame and a reply half written together. |
| `Stream.HeaderRoundTrip` | src/p2p/stream.rs:130-151 | Headers survive the wire form, accepted seven bytes are the wire form of their header, and parsing fails exactly on a reserved flag bit. |
| `Stream.Fragmenter.constructor` | src/p2p/stream.rs:167-189 | The fragments to come are the whole payload cut with the given size, 0 meaning 1. |
| `Stream.Fragmenter.NextFragment` | src/p2p/stream.rs:196-215 | Takes exactly the next fragment to come; `None` exactly after the last. |
| `Stream.CutIsMessage` | src/p2p/stream.rs:196-215 | What is cut is one whole message: numbered consecutively mod 65536, last only at the end, bodies concatenating to the payload; an empty payload is one empty fragment. |
| `Stream.Defragmenter.constructor` | src/p2p/stream.rs:259-273 | An empty message into the caller's buffer. |
| `Stream.Defragmenter.Reset` | src/p2p/stream.rs:275-285 | The same buffer is ready for the next message. |
| `Stream.Defragmenter.PushByte` | src/p2p/stream.rs:307-330 | One byte, tied to the step function the theorems are about, refused when closed or full. |
| `Stream.Defragmenter.PushHeader` | src/p2p/stream.rs:332-345 | Header bytes are collected and the seventh parsed. |
| `Stream.Defragmenter.AcceptHeader` | src/p2p/stream.rs:346-366 | A header must carry the due number and the stream and message id of the first. |
| `Stream.Defragmenter.CloseChunk` | src/p2p/stream.rs:368-379 | The last chunk completes the message, any other makes the next number due, mod 65536. |
| `Stream.CompletedIsMessage` | src/p2p/stream.rs:307-379 | Soundness: if every byte was taken and the message completed, the bytes are the wire form of one whole message, the slice is its bodies, and it fits the buffer. |
| `Stream.CompletesExactlyMessages` | src/p2p/stream.rs:307-379 | A byte string is taken to completion if and only if it is the wire form of a whole message that fits. |
| `Stream.RoundTrip` | src/p2p/stream.rs:171-379 | For every payload, every fragment size including 0 and any sufficient buffer, feeding what was cut rebuilds the payload and completes on exactly the last byte. |
| `Scheduler.System.SpawnActor` | src/actors/system.rs:80-90 | The loop fills the first free slot and counts it live, or reports a full table. |
| `Scheduler.System.Tick` | src/actors/system.rs:107-154 | The loop ticks the first live slot from the cursor on, retires it if done, and moves the cursor past it. |
| `Scheduler.CountUpdate` | src/actors/system.rs:50-52 | Changing one slot changes the number of live slots by what that slot counts for; this keeps `live` exact. |
| `Scheduler.TickNoneIffIdle` | src/actors/system.rs:107-119 | `tick` returns `None` if and only if `live` is 0, that is if and only if no slot is live, and then changes nothing. |
| `Scheduler.RetiredNeverRuns` | src/actors/system.rs:113-134 | A retired actor is never ticked again, whatever is spawned and whatever the others do. |
| `Scheduler.Fairness` | src/actors/system.rs:121-151 | Between two consecutive ticks of an actor no slot is ticked twice and every actor live at the first is ticked once, for any capacity and any spawning meanwhile. |
| `Retry.StepTallies` | src/tx.rs:380-395 | Times on the wire plus retries left plus the attempt in progress is always `max_retries + 1`. |
| `Retry.FlightsAreBounded` | src/tx.rs:380-395 | Against any peer a flight is on the wire at most `max_retries + 1` times, and a poll that gives up does so after exactly that many. |
| `Retry.SendByte` | src/tx.rs:410-421 | The loop returns with the first poll that does not say `Pending`, all earlier ones having said so. |
| `Retry.GivesUpAfter` | src/tx.rs:303-326 | With `r` retries left, exactly `(r + 1) * (4 + max(1, timeout_ticks))` silent polls pass before giving up. |
| `Retry.SilentPeerIsGivenUpOn` | src/tx.rs:410-421 | Against a silent peer `send_byte` fails with `RetriesExhausted` after exactly `(max_retries + 1) * (4 + max(1, timeout_ticks))` polls. |
| `Retry.WindowedFlightsAreBounded` | src/window/tx.rs:436-486 | No slot's frame is on the wire more than `max_retries + 1` times; one with no retries left that is not waiting to be written was on it exactly that often. |
| `Flights.OffersTaken` | src/tx.rs:169-220 | Which offers are taken in which state; a refused one is refused with `NotIdle` and changes nothing. |
| `Flights.OffersGoOut` | src/tx.rs:239-291 | After each kind of offer, four polls that can write put exactly that frame on the wire, with the SEQ and retries it starts with; ABORT does so even when a frame is half written. |
| `Flights.AckSettles` | src/tx.rs:353-378 | Four polls reading ACK of the flight's own SEQ: the last one reports what that flight was, `Acked`, `SessionReady`, `TransferDone` or `Aborted`, and SEQ and state follow. |
| `Flights.NackSendsAgain` | src/tx.rs:338-341 | Four polls reading NACK of the flight's own SEQ with retries left say nothing, and the next four polls that can write put the same frame on the wire again, one retry poorer. |
| `Flights.NackExhausts` | src/tx.rs:380-386 | The same with no retry left: the fourth poll reports `RetriesExhausted`, and so does every later one, with nothing written. |
| `Flights.OtherSeqRestartsTimer` | src/tx.rs:342-347 | ACK or NACK of another SEQ restarts the timer of the flight and does nothing else. |
| `Flights.StrangersAreIgnored` | src/tx.rs:303-312 | DATA, START, FINISH or an undecodable word read while waiting changes nothing, not even the timer. |
| `Flights.AbortCutsOff` | src/tx.rs:334-337 | The peer's ABORT is reported by the poll that reads its last byte, and nothing is written by any later poll until a new offer. |
| `Flights.Rests` | src/tx.rs:254-264 | Without a flight every poll gives the same answer and writes nothing, for any number of polls. |
| `Flights.FaultsAreHarmless` | src/tx.rs:230-237 | A failed write or read is reported and costs nothing: the next poll does what the failed one would have done. |
| `WindowFlights.OffersGoOut` | src/window/tx.rs:201-272 | After each kind of offer into an empty window, four polls that can write put exactly that frame on the wire; ABORT needs no empty window. |
| `WindowFlights.OffersRefused` | src/window/tx.rs:219-250 | A refused offer changes nothing; it is `NotIdle` exactly while a session frame is outstanding or the session is over, else `WindowFull`. |
| `WindowFlights.SlotGoesOut` | src/window/tx.rs:309-342 | Four polls that can write put exactly the frame of the slot that is due on the wire and touch no other slot. |
| `WindowFlights.AckSettles` | src/window/tx.rs:399-434 | Four polls reading ACK of a SEQ free exactly the slot carrying it, and the last reports what that slot was. |
| `WindowFlights.NackSendsAgain` | src/window/tx.rs:436-458 | Four polls reading NACK with retries left say nothing; the next four that can write put that slot's frame on the wire again, one retry poorer, and no other slot changes. |
| `WindowFlights.NackExhausts` | src/window/tx.rs:446-450 | NACK of a slot without retries: the fourth poll reports `RetriesExhausted`, the window is empty, and every later poll says the same and writes nothing. |
| `WindowFlights.OthersAreIgnored` | src/window/tx.rs:387-397 | ACK or NACK of a SEQ no slot carries, any other frame but ABORT, or an undecodable word changes nothing at all. |
| `WindowFlights.AbortCutsOff` | src/window/tx.rs:391-394 | The peer's ABORT empties the window and is reported; nothing is written by any later poll until a new offer. |
| `WindowFlights.FaultsAreHarmless` | src/window/tx.rs:284-291 | A failed write or read is reported and costs nothing: the next poll does what the failed one would have done. |
| `Answers.EveryWordIsAnswered` | src/window/rx.rs:235-372 | For every limit, every input and every fault: each poll writes the next byte of the reply one table of words asks for, reports the table's outcome in the poll that writes its last byte (`Pending` for a byte ahead, `DuplicateIgnored`, `Rejected`, `CrcRejected`, and so on) and nothing of it before, and the session moves as the table says. |
| `Answers.OnlyFinishIsReportedFinished` | src/window/rx.rs:215-218 | For every limit and run, `TransferFinished` is reported only by the poll that writes the last byte of the ACK of a latched FINISH. |
| `Answers.WordIsAnswered` | src/window/rx.rs:235-372 | Any word fed to a listening receiver in four polls: if the table asks for a reply, seven polls read it and write the reply, and only the last of them reports anything. |
| `Answers.EveryWordIsAnsweredSingly` | src/rx.rs:244-369 | The same table, with a window of one, is what the stop-and-wait receiver answers, in every run. |
| `Answers.StateIsTruthful` | src/window/rx.rs:99-107 | In every run the coarse state agrees with the latches and with whether a reply is being written. |
| `Timers.EachSlotCountsOnItsOwn` | src/window/tx.rs:460-486 | For every run against any peer: a silent poll makes exactly those slots ask to be sent again, a retry poorer, whose frame last went out `max(1, timeout_ticks)` silent polls ago; it gives up if and only if such a slot has no retry left. |
| `Timers.LoneFlightGivesUpAfter` | src/window/tx.rs:460-486 | A single flight of the windowed sender facing a silent peer is given up on after exactly `(r + 1) * (4 + max(1, timeout_ticks))` polls, and every poll before says `Pending`. |
| `Settling.PollSettles` | src/window/tx.rs:343-385 | One poll reports at most one flight, takes exactly that one out of its slot, and reports it as what it was. |
| `Settling.EveryFlightIsReportedOnce` | src/window/tx.rs:399-434 | For every run against any peer and each of DATA, START and FINISH: reports never exceed offers; and while nothing was given up on or aborted, each flight offered was reported exactly once or is still outstanding. |
| `SelectiveRepeatRuns.AckedAnswersAreCounted` | src/window/tx.rs:417-424 | In every run of the pair the sender answers `Acked` exactly once for each byte acknowledged. |
| `SelectiveRepeatBytes.EveryByteIsAckedOnce` | src/window/tx.rs:343-434 | Byte by byte, in every run: polls that said `Acked` plus bytes outstanding are the bytes offered, unless the sender gave up; when a poll says `TransferDone` every byte has been answered `Acked` exactly once. |
| `Handshake.StartHandshake` | src/window/tx.rs:201-214 | From whatever the two ends were left with: the word written is START, the receiver reports `Started` once, the sender `SessionReady` once, and both are then at SEQ 0. |
| `Handshake.FirstByteIsDataZero` | src/window/tx.rs:219-236 | The first byte of the new session goes out as DATA 0, is delivered, and is reported `Acked` once. |
| `Handshake.AbortHandshake` | src/window/tx.rs:254-274 | ABORT offered at any moment replaces everything outstanding; a receiver that is not finished reports `Aborted` once and is closed, and the sender reports `Aborted` once it hears ACK 0. |
| `SendWindow.LimitIsHowManyFit` | src/window/tx.rs:105-116 | A fresh sender takes as many bytes before it hears anything as `set_window_limit` says, clamped to `1..=N`. |
| `Pump.QuietEvents` | src/pump.rs:214-236 | `Aborted`, `Sent` and `Idle` are reported exactly when the two halves' outcomes, the bytes written and the retries spent in the poll say so. |
| `Pump.FailuresPassThrough` | src/pump.rs:173-198 | A port failure is reported; when the receiver's port fails the sender is not polled. |
| `Aborting.PeerAbortStopsSending` | src/pump.rs:188-195 | When the receiver has acknowledged the peer's ABORT while we carry DATA or FINISH, or nothing, that poll and every later one before the next offer write nothing on the sender's port, and the sender is `Aborted`. |
| `Aborting.OwnControlGoesOut` | src/pump.rs:189-195 | Our own START or ABORT under way survives whatever the receiver reports: its remaining bytes go out one per poll. |
| `Aborting.OwnControlIsLeftAlone` | src/pump.rs:189-195 | With our START or ABORT in flight the sender makes the poll it would have made, and the peer's ABORT is still reported. |
| `Aborting.AbortedSpeakerReopens` | src/transport/turn.rs:130-137 | A speaker whose session the peer aborts keeps the turn and its queue, and the next poll that can write begins START, with byte 0 next. |
| `Aborting.SessionBeginsAtByteZero` | src/transport/turn.rs:158-166 | Once the session is ready, the first byte of the queue is the first to go out. |
| `Prelude.WrapSubOfIndices` | src/window/rx.rs:119-131 | Wrapping subtraction of two SEQ bytes is subtraction of their unbounded indices modulo 256. |
| `Prelude.AdvanceOfIndex` | src/protocol/sequence.rs:34-38 | Advancing a SEQ byte advances its index, across the 255/0 wrap. |

## Left out

- START and ABORT over a lossy channel: both are answered with ACK 0, the frame
  that also acknowledges DATA 0, so the lossy theorems are about one session from
  power-up; what START and ABORT do is stated poll by poll (`Answers`, `Flights`,
  `WindowFlights`, `Handshake`, `Aborting`), and START in turn-taking.
- Loss and retry timers under turn-taking: `TurnTaking` assumes lossless channels
  and stops a run at the first poll that would let a timer run out.
- SelectiveRepeat.Step: channels carry whole frames.  What byte polls add, down to
  replies torn by the sender's own writes (`src/window/tx.rs:333`), is in
  `SelectiveRepeatBytes`, whose channels are those behind a demultiplexer: a reply
  that no longer decodes is one that does not arrive.
- StopAndWait.Reads: a reader in the middle of a word is never told that nothing
  is there, which is what the demux guarantees (`Demux.SilenceBetweenWindows`).
- Copy.CopyWire: the copy starts on a fresh wire, as every use in the repository
  does; on a wire that an earlier, failed copy left bytes on nothing is claimed.
  Pumps and lanes are values in the loop's locals rather than objects, so
  aliasing between the four ports of one wire is not modelled.
- TurnTaking.PollStep: words move between peers whole and the two rings of each
  end are unbounded queues; the bounded rings are in `Demux` and `Ports`.
- Undetected corruption: the pair theorems let the channel replace a frame only
  by one that does not decode, and let only such words appear; `Crc` says which
  corruptions those include.
- Sequence: a number 0..255 inside its owner rather than an object of its own.
- Prelude.ByteOf: the byte with a given value is defined by counting up; it
  is the value of Rust's `as u8` on 0..255.
- `WindowTurn` and `WindowedPump` (`src/transport/turn.rs:181-311`): `WindowTurn`
  takes turns as `Turn` does but offers differently, without testing whether the
  sender rests and byte after byte until the window is full; that two of them hear
  each other's sessions exactly is not proved here.
- `src/transport/page.rs`: a phase machine on top of `WindowTurn`.
- `SessionStats` counters, `IdleBudget`, `SessionConfig::negotiate`,
  `Capabilities`, `PeerTable`, `PeerLink` and `Node`: bookkeeping or one-branch
  facts next to the cores.
- `send_start`, `send_finish`, `send_abort` and the windowed `send_*` loops: the
  same loop as `send_byte`, which is modelled.
- `src/transport/half.rs`, `src/fault.rs`, boards, examples, sockets and other
  I/O: the transport is a parameter of each poll.
- Progress over lossy channels: with a channel that loses everything there is
  none; `Copy` and `Retry` say exactly how long things take when nothing is lost
  or nothing answers.
