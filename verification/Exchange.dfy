/**
  What the two halves of a pump do in a loss-free exchange, one poll at a time:
  the sender writes, waits and hears its acknowledgement, the receiver reads,
  answers and takes the frame in.
 */
module Exchange {
  import opened Prelude
  import opened Wire
  import opened Framing
  import Rx
  import Tx
  import Demux

  /** The word a poll finished writing, if it did. */
  function Finished(calls: Calls, out: Outgoing): seq<Word> {
    if calls.wrote.Some? && out.Idle() then [out.bytes] else []
  }

  /** The receiver neither reads nor writes a frame. */
  predicate RxQuiet(r: Rx.Model) {
    r.pending == None && r.out.Idle() && r.asm.buf == []
  }

  /** The receiver is in a session of which it has heard `count` bytes. */
  predicate RxOpen(r: Rx.Model, count: nat) {
    r.finishSeq == None && r.expected == SeqOf(count)
  }

  /** What the receiver does once it has acknowledged a flight. */
  function Reply(f: Tx.Flight): Rx.PendingAction {
    match f.kind
    case Start => Rx.PendingAction.Started
    case Data(byte) => Rx.PendingAction.Deliver(byte)
    case Finish => Rx.PendingAction.Finished
    case Abort => Rx.PendingAction.Aborted
  }

  lemma TxRests(t: Tx.Model, io: Io)
    requires t.Coherent() && t.inflight == None && (t.state == Tx.TxState.Idle || t.state == Tx.TxState.Finished)
    ensures Tx.Poll(t, io) ==
      Tx.Polled(t.(mark := Tx.NO_MARK),
                Ok(if t.state == Tx.TxState.Finished then Tx.TxPoll.TransferDone else Tx.TxPoll.Pending), NO_CALLS)
  {
  }

  lemma TxWrites(t: Tx.Model, io: Io)
    requires t.Coherent() && t.inflight.Some? && !t.inflight.value.waiting && io.writeOk && t.asm.buf == []
    requires !t.out.Idle() ==> t.out.bytes == ToBytes(Tx.FrameOf(t.inflight.value))
    ensures
      var p := Tx.Poll(t, io);
      && p.result == Ok(Tx.TxPoll.Pending)
      && !p.calls.didRead && p.calls.wrote.Some?
      && p.next.out.bytes == ToBytes(Tx.FrameOf(t.inflight.value))
      && p.next.inflight.Some?
      && p.next.inflight.value.kind == t.inflight.value.kind && p.next.inflight.value.num == t.inflight.value.num
      && (p.next.inflight.value.waiting <==> p.next.out.Idle())
      && p.next.num == t.num && p.next.asm == t.asm && p.next.policy == t.policy
      && p.next.out.pos == (if t.out.Idle() then 0 else t.out.pos) + 1
      && p.calls.wrote == Some(p.next.out.bytes[p.next.out.pos - 1])
      && (p.next.inflight.value.waiting ==> p.next.inflight.value.emptyTicks == 0)
  {
    hide ToBytes;
  }

  lemma TxTicks(t: Tx.Model, io: Io)
    requires t.Coherent() && Tx.WillRead(t) && io.read.NoByte?
    requires SaturatingIncrement(t.inflight.value.emptyTicks, U16_MAX) < t.policy.timeoutTicks
    ensures
      var p := Tx.Poll(t, io);
      && p.result == Ok(Tx.TxPoll.Pending) && p.calls == Calls(None, true)
      && p.next.inflight.Some?
      && p.next == t.(inflight := p.next.inflight, mark := Tx.NO_MARK)
      && p.next.inflight.value == t.inflight.value.(emptyTicks := p.next.inflight.value.emptyTicks)
  {
    hide FromBytes;
  }

  lemma TxReads(t: Tx.Model, io: Io)
    requires t.Coherent() && Tx.WillRead(t) && io.read.GotByte? && |t.asm.buf| < 3
    ensures Tx.Poll(t, io) ==
      Tx.Polled(t.(asm := t.asm.(buf := t.asm.buf + [io.read.byte]), mark := Tx.NO_MARK), Ok(Tx.TxPoll.Pending),
                Calls(None, true))
  {
    hide FromBytes;
  }

  /** What the sender reports when a flight is acknowledged. */
  function Settled(kind: Tx.FlightKind): Tx.TxPoll {
    match kind
    case Data(_) => Tx.TxPoll.Acked
    case Start => Tx.TxPoll.SessionReady
    case Finish => Tx.TxPoll.TransferDone
    case Abort => Tx.TxPoll.Aborted
  }

  lemma TxAcked(t: Tx.Model, io: Io, word: Word)
    requires t.Coherent() && Tx.WillRead(t) && t.inflight.Some?
    requires io.read.GotByte? && !t.asm.resync && |t.asm.buf| == 3 && t.asm.buf + [io.read.byte] == word
    requires word == ToBytes(AckFrame(t.inflight.value.num))
    ensures
      var p := Tx.Poll(t, io);
      && p.calls == Calls(None, true)
      && p.result.Ok? && p.result.value == Settled(t.inflight.value.kind)
      && p.next.inflight == None && p.next.out == t.out && p.next.asm == FRESH_PLAIN
      && p.next.num == (match t.inflight.value.kind case Data(_) => Advance(t.num) case Start => 0 case _ => t.num)
      && (t.inflight.value.kind.Finish? <==> p.next.state == Tx.TxState.Finished)
      && (t.inflight.value.kind.Data? || t.inflight.value.kind.Start? ==> p.next.state == Tx.TxState.Idle)
  {
    hide FromBytes, ToBytes, KnownType;
    DecodeEncode(AckFrame(t.inflight.value.num));
    assert Push(t.asm, io.read.byte) == (FRESH_PLAIN, Some(t.asm.buf + [io.read.byte]));
  }

  lemma RxRests(r: Rx.Model, io: Io)
    requires r.Coherent() && r.out.Idle() && io.read.NoByte?
    ensures
      var p := Rx.Poll(r, io);
      && p.result == Ok(Rx.PollOutcome.Pending) && p.calls == Calls(None, true)
      && p.next == r.(state := p.next.state)
  {
  }

  lemma RxReads(r: Rx.Model, io: Io)
    requires r.Coherent() && r.out.Idle() && io.read.GotByte? && |r.asm.buf| < 3
    ensures
      var p := Rx.Poll(r, io);
      && p.result == Ok(Rx.PollOutcome.Pending) && p.calls == Calls(None, true)
      && p.next == r.(asm := r.asm.(buf := r.asm.buf + [io.read.byte]), state := p.next.state)
  {
    hide FromBytes;
  }

  /** The last byte of the frame the listener waits for: it starts the acknowledgement. */
  lemma RxAccepts(r: Rx.Model, io: Io, f: Tx.Flight, count: nat)
    requires r.Coherent() && r.out.Idle() && io.read.GotByte? && io.writeOk
    requires !r.asm.resync && |r.asm.buf| == 3 && !r.abortLatched
    requires r.asm.buf + [io.read.byte] == ToBytes(Tx.FrameOf(f))
    requires f.kind.Start? ==> f.num == 0
    requires f.kind.Data? || f.kind.Finish? ==> RxOpen(r, count) && f.num == SeqOf(count)
    requires !f.kind.Abort?
    ensures
      var p := Rx.Poll(r, io);
      && p.result == Ok(Rx.PollOutcome.Pending)
      && p.calls.didRead && p.calls.wrote.Some?
      && !p.next.out.Idle() && p.next.out.bytes == ToBytes(AckFrame(f.num))
      && p.next.pending == Some(Reply(f))
      && p.next.out.pos == 1 && p.calls.wrote == Some(p.next.out.bytes[0])
      && p.next.asm == FRESH_PLAIN
      && !p.next.abortLatched
      && (f.kind.Start? ==> RxOpen(p.next, 0))
      && (f.kind.Data? ==> RxOpen(p.next, count))
  {
    var word: Word := r.asm.buf + [io.read.byte];
    hide FromBytes, ToBytes, KnownType, Rx.Poll, Rx.Handle;
    DecodeEncode(Tx.FrameOf(f));
    assert Push(r.asm, io.read.byte) == (FRESH_PLAIN, Some(word));
    Rx.WordPoll(r, io, word);
    HandleAccepts(r.(asm := FRESH_PLAIN, state := Rx.RxState.Validating), f, count);
  }

  lemma HandleAccepts(r: Rx.Model, f: Tx.Flight, count: nat)
    requires r.Coherent() && r.out.Idle() && !r.abortLatched
    requires f.kind.Start? ==> f.num == 0
    requires f.kind.Data? || f.kind.Finish? ==> RxOpen(r, count) && f.num == SeqOf(count)
    requires !f.kind.Abort?
    ensures
      var h := Rx.Handle(r, Good(Tx.FrameOf(f)));
      && h.out == Outgoing(ToBytes(AckFrame(f.num)), 0)
      && h.pending == Some(Reply(f))
      && h.asm == r.asm
      && !h.abortLatched
      && (f.kind.Start? ==> RxOpen(h, 0))
      && (f.kind.Data? ==> RxOpen(h, count))
  {
    hide ToBytes;
  }

  /** A byte of a reply that is not its last. */
  lemma AnswerByte(r: Rx.Model, io: Io)
    requires r.Coherent() && !r.out.Idle() && !r.out.Commit().Idle() && io.writeOk
    ensures
      var p := Rx.Poll(r, io);
      && p.result == Ok(Rx.PollOutcome.Pending) && !p.calls.didRead
      && !p.next.out.Idle() && p.next.out.bytes == r.out.bytes
      && p.next.out.pos == r.out.pos + 1 && p.calls.wrote == Some(r.out.bytes[r.out.pos])
      && p.next == r.(out := p.next.out, state := p.next.state)
  {
  }

  /** The last byte of a reply: the receiver does what the reply acknowledged. */
  lemma AnswerLast(r: Rx.Model, io: Io, f: Tx.Flight, count: nat)
    requires r.Coherent() && !r.out.Idle() && r.out.Commit().Idle() && io.writeOk && !r.abortLatched && r.asm.buf == []
    requires r.pending == Some(Reply(f)) && !f.kind.Abort?
    requires f.kind.Finish? || RxOpen(r, count)
    ensures
      var p := Rx.Poll(r, io);
      && p.result == Ok(match f.kind
                        case Start => Rx.PollOutcome.Started
                        case Data(byte) => Rx.PollOutcome.Delivered(byte)
                        case _ => Rx.PollOutcome.TransferFinished)
      && !p.calls.didRead && Finished(p.calls, p.next.out) == [r.out.bytes]
      && p.calls.wrote == Some(r.out.bytes[3])
      && RxQuiet(p.next) && p.next.asm == r.asm && !p.next.abortLatched
      && (f.kind.Start? ==> RxOpen(p.next, count))
      && (f.kind.Data? ==> RxOpen(p.next, count + 1))
  {
    AdvanceOfIndex(count);
  }

  lemma FlightIsPayload(f: Tx.Flight)
    ensures !Demux.IsControl(ToBytes(Tx.FrameOf(f)))
  {
    hide FromBytes, ToBytes;
    DecodeEncode(Tx.FrameOf(f));
  }

  lemma AckIsControl(num: seqno)
    ensures Demux.IsControl(ToBytes(AckFrame(num)))
  {
    hide FromBytes, ToBytes;
    DecodeEncode(AckFrame(num));
  }

  lemma NextByte(asm: Assembly, word: Word)
    requires |asm.buf| < FRAME_LEN && asm.buf == word[..|asm.buf|]
    ensures asm.buf + [word[|asm.buf|]] == word[..|asm.buf| + 1]
    ensures |asm.buf| == 3 ==> asm.buf + [word[|asm.buf|]] == word
  {
  }
}
