/**
  The stop-and-wait pair, poll by poll: one sender, one receiver, and two FIFO
  channels of four-byte words.  A word becomes readable when its last byte is
  written, as it does behind the demultiplexer, and is then read one byte per
  poll.  The channels may lose any word, corrupt it so that it no longer
  decodes, or let a word appear that does not decode, as the rejected windows
  of a demultiplexer looking for the next frame do; polls may find the
  transport silent or failing.  One session.
 */
module StopAndWait {
  import opened Prelude
  import opened Wire
  import opened Framing
  import Rx
  import Tx

  /** What travels: four bytes, and the index of the byte they are about. */
  datatype Packet = Packet(word: Word, ix: nat)

  datatype Sys = Sys(
    tx: Tx.Model,
    rx: Rx.Model,
    data: seq<Packet>,       // sender to receiver, oldest first
    acks: seq<Packet>,       // receiver to sender, oldest first
    offered: seq<u8>,        // every byte the application offered
    delivered: seq<u8>,      // every byte the application was given
    acked: nat,              // how many bytes the sender knows were delivered
    lastIx: nat,             // the index of the last valid frame the receiver read
    finishing: bool)         // FINISH has been offered

  function PowerUp(policy: Tx.RetryPolicy): Sys {
    Sys(Tx.Fresh(policy), Rx.FRESH, [], [], [], [], 0, 0, false)
  }

  /** What the environment lets a poll read. */
  datatype Choice = Take | Silent | Fault

  datatype Event =
    | OfferByte(byte: u8)
    | OfferEnd
    | TxPoll(writeOk: bool, choice: Choice)
    | RxPoll(writeOk: bool, choice: Choice)
    | LoseData(at: nat)
    | LoseAck(at: nat)
    | CorruptData(at: nat, word: Word)
    | CorruptAck(at: nat, word: Word)
    | StrayData(at: nat, word: Word)
    | StrayAck(at: nat, word: Word)

  /** A reader in the middle of a word is never told that nothing is there. */
  function Reads(channel: seq<Packet>, held: nat, choice: Choice): ReadAnswer {
    match choice
    case Fault => ReadFault
    case Silent => if channel != [] && 0 < held < FRAME_LEN then GotByte(channel[0].word[held]) else NoByte
    case Take => if channel != [] && held < FRAME_LEN then GotByte(channel[0].word[held]) else NoByte
  }

  /** The channel after a read: the oldest word leaves it with its last byte. */
  function AfterRead(channel: seq<Packet>, held: nat, read: ReadAnswer, didRead: bool): seq<Packet> {
    if didRead && read.GotByte? && held == 3 && channel != [] then channel[1..] else channel
  }

  function TxStep(s: Sys, writeOk: bool, choice: Choice): Sys
    requires s.tx.Coherent()
  {
    var held := |s.tx.asm.buf|;
    var read := Reads(s.acks, held, choice);
    var p := Tx.Poll(s.tx, Io(writeOk, read));
    s.(tx := p.next,
       acks := AfterRead(s.acks, held, read, p.calls.didRead),
       data := if p.calls.wrote.Some? && p.next.out.Idle() then s.data + [Packet(p.next.out.bytes, s.acked)]
               else s.data,
       acked := if p.result == Ok(Tx.TxPoll.Acked) then s.acked + 1 else s.acked)
  }

  function RxStep(s: Sys, writeOk: bool, choice: Choice): Sys
    requires s.rx.Coherent()
  {
    var held := |s.rx.asm.buf|;
    var read := Reads(s.data, held, choice);
    var p := Rx.Poll(s.rx, Io(writeOk, read));
    var data := AfterRead(s.data, held, read, p.calls.didRead);
    s.(rx := p.next,
       data := data,
       lastIx := if |data| < |s.data| && FromBytes(s.data[0].word).Good? then s.data[0].ix else s.lastIx,
       acks := if p.calls.wrote.Some? && p.next.out.Idle() then s.acks + [Packet(p.next.out.bytes, s.lastIx)]
               else s.acks,
       delivered := match p.result
                    case Ok(Delivered(byte)) => s.delivered + [byte]
                    case _ => s.delivered)
  }

  /** A word that is being read can no longer be lost or corrupted. */
  function Drop(channel: seq<Packet>, held: nat, at: nat): seq<Packet> {
    if at < |channel| && (at > 0 || held == 0) then channel[..at] + channel[at + 1..] else channel
  }

  function Corrupt(channel: seq<Packet>, held: nat, at: nat, word: Word): seq<Packet> {
    if at < |channel| && (at > 0 || held == 0) && FromBytes(word).Bad?
    then channel[at := channel[at].(word := word)]
    else channel
  }

  /** A word nobody wrote, which does not decode; never in front of a word that is being read. */
  function Stray(channel: seq<Packet>, held: nat, at: nat, word: Word): seq<Packet> {
    if at <= |channel| && (at > 0 || held == 0) && FromBytes(word).Bad?
    then channel[..at] + [Packet(word, 0)] + channel[at..]
    else channel
  }

  /** Both halves are in a state their code can be in: all that a step needs. */
  predicate Sound(s: Sys) {
    s.tx.Coherent() && s.rx.Coherent()
  }

  function Step(s: Sys, e: Event): (n: Sys)
    requires Sound(s)
    ensures Sound(n)
  {
    match e
    case OfferByte(byte) =>
      var (tx, result) := Tx.Offer(s.tx, byte);
      s.(tx := tx, offered := if result.Ok? then s.offered + [byte] else s.offered)
    case OfferEnd =>
      var (tx, result) := Tx.OfferFinish(s.tx);
      s.(tx := tx, finishing := s.finishing || result.Ok?)
    case TxPoll(writeOk, choice) => TxStep(s, writeOk, choice)
    case RxPoll(writeOk, choice) => RxStep(s, writeOk, choice)
    case LoseData(at) => s.(data := Drop(s.data, |s.rx.asm.buf|, at))
    case LoseAck(at) => s.(acks := Drop(s.acks, |s.tx.asm.buf|, at))
    case CorruptData(at, word) => s.(data := Corrupt(s.data, |s.rx.asm.buf|, at, word))
    case CorruptAck(at, word) => s.(acks := Corrupt(s.acks, |s.tx.asm.buf|, at, word))
    case StrayData(at, word) => s.(data := Stray(s.data, |s.rx.asm.buf|, at, word))
    case StrayAck(at, word) => s.(acks := Stray(s.acks, |s.tx.asm.buf|, at, word))
  }

  // ------------------------------------------------------------ the invariant

  /** A reader holds the first bytes of the oldest word. */
  ghost predicate Reading(asm: Assembly, channel: seq<Packet>) {
    && !asm.resync
    && |asm.buf| < FRAME_LEN
    && (asm.buf != [] ==> channel != [] && asm.buf == channel[0].word[..|asm.buf|])
  }

  /** The flight is about the first byte not yet acknowledged, or closes the session after the last. */
  ghost predicate FlightOk(f: Tx.Flight, offered: seq<u8>, acked: nat, finishing: bool) {
    && f.num == SeqOf(acked)
    && match f.kind
       case Data(byte) => |offered| == acked + 1 && byte == offered[acked] && !finishing
       case Finish => |offered| == acked && finishing
       case _ => false
  }

  ghost predicate SenderOk(tx: Tx.Model, offered: seq<u8>, acked: nat, finishing: bool)
    requires tx.Coherent()
  {
    && tx.num == SeqOf(acked)
    && acked <= |offered| <= acked + 1
    && tx.state != Tx.TxState.Aborted
    && (tx.state == Tx.TxState.Idle ==> |offered| == acked && !finishing)
    && (finishing ==> |offered| == acked)
    && (tx.state == Tx.TxState.Finished ==> finishing)
    && (tx.inflight.Some? ==> FlightOk(tx.inflight.value, offered, acked, finishing))
    && (!tx.out.Idle() ==> FromBytes(tx.out.bytes) == Good(Tx.FrameOf(tx.inflight.value)))
    && (tx.asm.buf != [] ==> Tx.WillRead(tx))
  }

  ghost predicate ReceiverOk(s: Sys) {
    var got := |s.delivered|;
    && s.rx.expected == SeqOf(got)
    && s.acked <= got <= s.acked + 1
    && s.lastIx <= got <= s.lastIx + 1
    && s.lastIx <= s.acked
    && s.delivered <= s.offered
    && !s.rx.abortLatched
    && (s.rx.finishSeq.Some? ==>
          s.finishing && s.rx.finishSeq.value == SeqOf(got) && s.lastIx == got && got == |s.offered|)
    && (s.tx.state == Tx.TxState.Finished ==> s.rx.finishSeq.Some?)
    && (s.rx.asm.buf != [] ==> s.rx.out.Idle())
  }

  ghost predicate ReplyOk(s: Sys) {
    var reply := FromBytes(s.rx.out.bytes);
    match s.rx.pending
    case None => true
    case Some(Deliver(byte)) =>
      && s.lastIx == |s.delivered| < |s.offered|
      && byte == s.offered[s.lastIx]
      && s.rx.finishSeq == None
      && reply == Good(AckFrame(SeqOf(s.lastIx)))
    case Some(Duplicate) => s.lastIx < |s.delivered| && reply == Good(AckFrame(SeqOf(s.lastIx)))
    case Some(Finished) => s.rx.finishSeq.Some? && reply == Good(AckFrame(SeqOf(s.lastIx)))
    case Some(Rejected) => reply.Good? && reply.frame.kind == Nack
    case Some(CrcRejected) => reply.Good? && reply.frame.kind == Nack
    case _ => false
  }

  ghost predicate DataOk(p: Packet, s: Sys) {
    var d := FromBytes(p.word);
    d.Good? ==>
      && s.lastIx <= p.ix <= s.acked
      && match d.frame.kind
         case Data => p.ix < |s.offered| && d.frame == DataFrame(SeqOf(p.ix), s.offered[p.ix])
         case Finish => p.ix == |s.offered| && s.finishing && d.frame == FinishFrame(SeqOf(p.ix))
         case _ => false
  }

  predicate IsAck(p: Packet) {
    FromBytes(p.word).Good? && FromBytes(p.word).frame.kind == Ack
  }

  ghost predicate AckOk(p: Packet, s: Sys) {
    var d := FromBytes(p.word);
    d.Good? ==>
      match d.frame.kind
      case Ack =>
        && d.frame == AckFrame(SeqOf(p.ix))
        && s.acked <= p.ix + 1
        && p.ix <= s.lastIx
        && (p.ix < |s.delivered| || (p.ix == |s.offered| && s.rx.finishSeq.Some?))
      case Nack => true
      case _ => false
  }

  ghost predicate DataChannelOk(s: Sys) {
    && (forall i :: 0 <= i < |s.data| ==> DataOk(s.data[i], s))
    && (forall i, j :: 0 <= i < j < |s.data| && FromBytes(s.data[i].word).Good? && FromBytes(s.data[j].word).Good? ==>
          s.data[i].ix <= s.data[j].ix)
  }

  ghost predicate AckChannelOk(s: Sys) {
    && (forall i :: 0 <= i < |s.acks| ==> AckOk(s.acks[i], s))
    && (forall i, j :: 0 <= i < j < |s.acks| && IsAck(s.acks[i]) && IsAck(s.acks[j]) ==> s.acks[i].ix <= s.acks[j].ix)
  }

  /**
    Acknowledgements in flight, the last frame read, and frames in flight form
    one nondecreasing chain of indices, from `acked - 1` to `acked`.
   */
  ghost predicate Inv(s: Sys) {
    && s.tx.Coherent()
    && s.rx.Coherent()
    && SenderOk(s.tx, s.offered, s.acked, s.finishing)
    && ReceiverOk(s)
    && ReplyOk(s)
    && Reading(s.tx.asm, s.acks)
    && Reading(s.rx.asm, s.data)
    && DataChannelOk(s)
    && AckChannelOk(s)
  }

  lemma PowerUpIsInv(policy: Tx.RetryPolicy)
    ensures Inv(PowerUp(policy))
  {
  }

  // ------------------------------------------------------------ offers

  lemma OfferKeepsInv(s: Sys, byte: u8)
    requires Inv(s)
    ensures Inv(Step(s, OfferByte(byte)))
  {
    hide FromBytes;
    var n := Step(s, OfferByte(byte));
    assert forall i :: 0 <= i < |s.data| && DataOk(s.data[i], s) ==> DataOk(s.data[i], n);
    assert forall i :: 0 <= i < |s.acks| && AckOk(s.acks[i], s) ==> AckOk(s.acks[i], n);
  }

  lemma OfferEndKeepsInv(s: Sys)
    requires Inv(s)
    ensures Inv(Step(s, OfferEnd))
  {
    hide FromBytes;
    var n := Step(s, OfferEnd);
    assert forall i :: 0 <= i < |s.data| && DataOk(s.data[i], s) ==> DataOk(s.data[i], n);
    assert forall i :: 0 <= i < |s.acks| && AckOk(s.acks[i], s) ==> AckOk(s.acks[i], n);
  }

  // ------------------------------------------------------------ faults

  lemma LoseDataKeepsInv(s: Sys, at: nat)
    requires Inv(s)
    ensures Inv(Step(s, LoseData(at)))
  {
    hide FromBytes, SenderOk, AckChannelOk, ReceiverOk, ReplyOk;
    var n := Step(s, LoseData(at));
    SameRestOk(s, n);
    if |n.data| < |s.data| {
      forall i | 0 <= i < |n.data|
        ensures n.data[i] == s.data[if i < at then i else i + 1] && DataOk(n.data[i], n)
      {
        assert DataOk(s.data[if i < at then i else i + 1], s);
      }
    }
  }

  lemma CorruptDataKeepsInv(s: Sys, at: nat, word: Word)
    requires Inv(s)
    ensures Inv(Step(s, CorruptData(at, word)))
  {
    hide FromBytes, SenderOk, AckChannelOk, ReceiverOk, ReplyOk;
    var n := Step(s, CorruptData(at, word));
    SameRestOk(s, n);
    forall i | 0 <= i < |n.data|
      ensures n.data[i] == s.data[i] || FromBytes(n.data[i].word).Bad?
      ensures DataOk(n.data[i], n)
    {
      assert DataOk(s.data[i], s);
    }
  }

  lemma LoseAckKeepsInv(s: Sys, at: nat)
    requires Inv(s)
    ensures Inv(Step(s, LoseAck(at)))
  {
    hide FromBytes, SenderOk, DataChannelOk, ReceiverOk, ReplyOk;
    var n := Step(s, LoseAck(at));
    SameRestOk(s, n);
    if |n.acks| < |s.acks| {
      forall i | 0 <= i < |n.acks|
        ensures n.acks[i] == s.acks[if i < at then i else i + 1] && AckOk(n.acks[i], n)
      {
        assert AckOk(s.acks[if i < at then i else i + 1], s);
      }
    }
  }

  lemma CorruptAckKeepsInv(s: Sys, at: nat, word: Word)
    requires Inv(s)
    ensures Inv(Step(s, CorruptAck(at, word)))
  {
    hide FromBytes, SenderOk, DataChannelOk, ReceiverOk, ReplyOk;
    var n := Step(s, CorruptAck(at, word));
    SameRestOk(s, n);
    forall i | 0 <= i < |n.acks|
      ensures n.acks[i] == s.acks[i] || FromBytes(n.acks[i].word).Bad?
      ensures AckOk(n.acks[i], n)
    {
      assert AckOk(s.acks[i], s);
    }
  }

  /** Words that do not decode are about nothing, wherever they stand. */
  lemma StrayDataKeepsInv(s: Sys, at: nat, word: Word)
    requires Inv(s)
    ensures Inv(Step(s, StrayData(at, word)))
  {
    hide FromBytes, SenderOk, AckChannelOk, ReceiverOk, ReplyOk;
    var n := Step(s, StrayData(at, word));
    SameRestOk(s, n);
    if |n.data| > |s.data| {
      forall i | 0 <= i < |n.data|
        ensures i != at ==> n.data[i] == s.data[if i < at then i else i - 1]
        ensures DataOk(n.data[i], n)
      {
        assert i != at ==> DataOk(s.data[if i < at then i else i - 1], s);
      }
    }
  }

  lemma StrayAckKeepsInv(s: Sys, at: nat, word: Word)
    requires Inv(s)
    ensures Inv(Step(s, StrayAck(at, word)))
  {
    hide FromBytes, SenderOk, DataChannelOk, ReceiverOk, ReplyOk;
    var n := Step(s, StrayAck(at, word));
    SameRestOk(s, n);
    if |n.acks| > |s.acks| {
      forall i | 0 <= i < |n.acks|
        ensures i != at ==> n.acks[i] == s.acks[if i < at then i else i - 1]
        ensures AckOk(n.acks[i], n)
      {
        assert i != at ==> AckOk(s.acks[if i < at then i else i - 1], s);
      }
    }
  }

  /** The receiver's part and the channels do not look at what is in the channels' other half. */
  lemma SameRestOk(s: Sys, n: Sys)
    requires n == s.(data := n.data, acks := n.acks)
    requires ReceiverOk(s) && ReplyOk(s)
    ensures ReceiverOk(n) && ReplyOk(n)
    ensures n.data == s.data && DataChannelOk(s) ==> DataChannelOk(n)
    ensures n.acks == s.acks && AckChannelOk(s) ==> AckChannelOk(n)
  {
    hide FromBytes;
    assert forall p :: DataOk(p, s) ==> DataOk(p, n);
    assert forall p :: AckOk(p, s) ==> AckOk(p, n);
  }

  // ------------------------------------------------------------ reading

  /** A byte read from the channel continues the oldest word, and completes it at the fourth. */
  lemma ReadContinues(asm: Assembly, channel: seq<Packet>, choice: Choice)
    requires Reading(asm, channel) && Reads(channel, |asm.buf|, choice).GotByte?
    ensures
      var read := Reads(channel, |asm.buf|, choice);
      var (next, word) := Push(asm, read.byte);
      && channel != []
      && Reading(next, AfterRead(channel, |asm.buf|, read, true))
      && (|asm.buf| < 3 ==> word == None && AfterRead(channel, |asm.buf|, read, true) == channel)
      && (|asm.buf| == 3 ==>
            && word == Some(channel[0].word) && next.buf == []
            && AfterRead(channel, |asm.buf|, read, true) == channel[1..])
  {
    hide KnownType;
    var w := channel[0].word;
    var k := |asm.buf|;
    assert w[..k] + [w[k]] == w[..k + 1];
    assert w[..FRAME_LEN] == w;
  }

  /** Silence is only ever reported between words. */
  lemma SilenceBetweenWords(asm: Assembly, channel: seq<Packet>, choice: Choice)
    requires Reading(asm, channel) && Reads(channel, |asm.buf|, choice).NoByte?
    ensures asm.buf == []
  {
  }

  // ------------------------------------------------------------ the sender's polls

  /** The sender moved on without an acknowledgement: the receiver's half is as before. */
  lemma OtherHalfOk(s: Sys, n: Sys)
    requires s.rx.Coherent()
    requires n == s.(tx := n.tx, acks := n.acks, data := n.data)
    requires n.tx.state == Tx.TxState.Finished ==> s.tx.state == Tx.TxState.Finished || s.rx.finishSeq.Some?
    ensures ReceiverOk(s) ==> ReceiverOk(n)
    ensures ReplyOk(s) ==> ReplyOk(n)
    ensures n.data == s.data && DataChannelOk(s) ==> DataChannelOk(n)
    ensures n.acks == s.acks && AckChannelOk(s) ==> AckChannelOk(n)
  {
    hide FromBytes;
    assert forall p :: DataOk(p, s) ==> DataOk(p, n);
    assert forall p :: AckOk(p, s) ==> AckOk(p, n);
  }

  /** Writing puts on the wire exactly the frame of the flight. */
  lemma SenderWrites(tx: Tx.Model, offered: seq<u8>, acked: nat, finishing: bool, io: Io)
    requires tx.Coherent() && SenderOk(tx, offered, acked, finishing)
    requires !tx.Resting() && Tx.WillWrite(tx)
    ensures
      var p := Tx.Poll(tx, io);
      && SenderOk(p.next, offered, acked, finishing)
      && p.next.asm == tx.asm && tx.asm.buf == []
      && !p.calls.didRead
      && p.result != Ok(Tx.TxPoll.Acked)
      && p.next.state != Tx.TxState.Finished
      && p.next.inflight.Some?
      && (p.calls.wrote.Some? ==> FromBytes(p.next.out.bytes) == Good(Tx.FrameOf(tx.inflight.value)))
  {
    hide ToBytes;
    if tx.out.Idle() {
      DecodeEncode(Tx.FrameOf(tx.inflight.value));
    }
    hide FromBytes, FlightOk;
    assert FlightOk(tx.inflight.value, offered, acked, finishing);
    var p := Tx.Poll(tx, io);
    SameFlightOk(tx.inflight.value, p.next.inflight.value, offered, acked, finishing);
  }

  /** Only what a flight is about matters, not how it is doing. */
  lemma SameFlightOk(f: Tx.Flight, g: Tx.Flight, offered: seq<u8>, acked: nat, finishing: bool)
    requires FlightOk(f, offered, acked, finishing) && g.kind == f.kind && g.num == f.num
    ensures FlightOk(g, offered, acked, finishing) && Tx.FrameOf(g) == Tx.FrameOf(f)
  {
  }

  /** The frame of the current flight may join the data channel: nothing in it is newer. */
  lemma SendKeepsDataChannel(s: Sys, p: Packet, f: Tx.Flight)
    requires DataChannelOk(s) && s.lastIx <= s.acked
    requires FlightOk(f, s.offered, s.acked, s.finishing)
    requires FromBytes(p.word) == Good(Tx.FrameOf(f)) && p.ix == s.acked
    ensures DataChannelOk(s.(data := s.data + [p]))
  {
    hide FromBytes;
    var n := s.(data := s.data + [p]);
    assert forall q :: DataOk(q, s) ==> DataOk(q, n);
  }

  lemma TxWriteKeepsInv(s: Sys, writeOk: bool, choice: Choice)
    requires Inv(s) && !s.tx.Resting() && Tx.WillWrite(s.tx)
    ensures Inv(TxStep(s, writeOk, choice))
  {
    var n := TxStep(s, writeOk, choice);
    SenderWrites(s.tx, s.offered, s.acked, s.finishing, Io(writeOk, Reads(s.acks, |s.tx.asm.buf|, choice)));
    hide FromBytes, Tx.Poll, DataChannelOk, AckChannelOk, ReplyOk, FlightOk;
    OtherHalfOk(s, n);
    if |n.data| > |s.data| {
      SendKeepsDataChannel(s, n.data[|s.data|], s.tx.inflight.value);
      OtherHalfOk(s.(data := n.data), n);
    }
  }

  /** A failed read, silence, or a byte inside a word: the sender at most retries or gives up. */
  lemma SenderHearsNothing(tx: Tx.Model, offered: seq<u8>, acked: nat, finishing: bool, io: Io)
    requires tx.Coherent() && SenderOk(tx, offered, acked, finishing) && Tx.WillRead(tx)
    requires io.read.NoByte? ==> tx.asm.buf == []
    requires io.read.GotByte? ==> |tx.asm.buf| < 3
    ensures
      var p := Tx.Poll(tx, io);
      && SenderOk(p.next, offered, acked, finishing)
      && p.next.asm == (if io.read.GotByte? then Push(tx.asm, io.read.byte).0 else tx.asm)
      && p.calls == Calls(None, true)
      && p.result != Ok(Tx.TxPoll.Acked)
      && p.next.state != Tx.TxState.Finished
  {
    hide FromBytes, FlightOk;
    var p := Tx.Poll(tx, io);
    if p.next.inflight.Some? {
      SameFlightOk(tx.inflight.value, p.next.inflight.value, offered, acked, finishing);
    }
  }

  /** The fourth byte of a word: what the sender makes of the word. */
  lemma SenderHearsWord(tx: Tx.Model, offered: seq<u8>, acked: nat, finishing: bool, io: Io, word: Word)
    requires tx.Coherent() && SenderOk(tx, offered, acked, finishing) && Tx.WillRead(tx)
    requires io.read.GotByte? && Push(tx.asm, io.read.byte).1 == Some(word) && Push(tx.asm, io.read.byte).0.buf == []
    requires FromBytes(word).Good? ==> FromBytes(word).frame.kind == Ack || FromBytes(word).frame.kind == Nack
    ensures
      var d := FromBytes(word);
      var p := Tx.Poll(tx, io);
      var mine := d.Good? && d.frame.kind == Ack && d.frame.num == SeqOf(acked);
      var last := tx.inflight.value.kind.Finish?;
      && p.calls == Calls(None, true)
      && p.next.asm == Push(tx.asm, io.read.byte).0
      && (p.result == Ok(Tx.TxPoll.Acked) <==> mine && !last)
      && (mine && !last ==> SenderOk(p.next, offered, acked + 1, finishing) && acked < |offered| && !finishing)
      && (mine && last ==> SenderOk(p.next, offered, acked, finishing))
      && (!mine ==> SenderOk(p.next, offered, acked, finishing))
      && (p.next.state == Tx.TxState.Finished <==> mine && last)
  {
    hide FromBytes, Push;
    AdvanceOfIndex(acked);
    var p := Tx.Poll(tx, io);
    var d := FromBytes(word);
    if p.next.inflight.Some? {
      SameFlightOk(tx.inflight.value, p.next.inflight.value, offered, acked, finishing);
    }
  }

  /** Reading a word shortens the reply channel. */
  lemma ShorterAckChannel(s: Sys)
    requires AckChannelOk(s) && s.acks != []
    ensures AckOk(s.acks[0], s) && AckChannelOk(s.(acks := s.acks[1..]))
  {
    hide FromBytes;
    var n := s.(acks := s.acks[1..]);
    assert forall p :: AckOk(p, s) ==> AckOk(p, n);
    forall i | 0 <= i < |n.acks|
      ensures n.acks[i] == s.acks[i + 1] && AckOk(n.acks[i], n)
    {
      assert AckOk(s.acks[i + 1], s);
    }
  }

  /** The ACK that matches the flight is about the flight's own index. */
  lemma MatchingAckIsAboutFlight(s: Sys)
    requires Inv(s) && s.acks != [] && IsAck(s.acks[0]) && FromBytes(s.acks[0].word).frame.num == SeqOf(s.acked)
    ensures s.acks[0].ix == s.acked
    ensures s.finishing ==> s.rx.finishSeq.Some?
    ensures !s.finishing && s.acked < |s.offered| ==> |s.delivered| == s.acked + 1
  {
    hide FromBytes;
    assert AckOk(s.acks[0], s);
    SeqOfInjective(s.acks[0].ix, s.acked);
  }

  /** The flight's byte is acknowledged: the whole chain of indices moves up by one. */
  lemma AckedKeepsChannels(s: Sys, n: Sys)
    requires Inv(s) && s.acks != [] && IsAck(s.acks[0]) && s.acks[0].ix == s.acked
    requires !s.finishing && |s.delivered| == s.acked + 1
    requires n == s.(tx := n.tx, acks := s.acks[1..], acked := s.acked + 1)
    requires n.tx.state != Tx.TxState.Finished
    ensures ReceiverOk(n) && ReplyOk(n) && DataChannelOk(n) && AckChannelOk(n)
  {
    hide FromBytes, SenderOk;
    assert forall p :: DataOk(p, s) ==> DataOk(p, n);
    forall i | 0 <= i < |n.acks|
      ensures n.acks[i] == s.acks[i + 1] && AckOk(n.acks[i], n)
    {
      assert AckOk(s.acks[i + 1], s);
    }
  }

  lemma TxReadKeepsInv(s: Sys, writeOk: bool, choice: Choice)
    requires Inv(s) && Tx.WillRead(s.tx)
    ensures Inv(TxStep(s, writeOk, choice))
  {
    var n := TxStep(s, writeOk, choice);
    var read := Reads(s.acks, |s.tx.asm.buf|, choice);
    hide FromBytes, Tx.Poll, DataChannelOk, AckChannelOk, ReplyOk, FlightOk, SenderOk, ReceiverOk, Push;
    if read.GotByte? {
      ReadContinues(s.tx.asm, s.acks, choice);
    }
    if read.GotByte? && |s.tx.asm.buf| == 3 {
      TxWordKeepsInv(s, writeOk, choice);
    } else {
      if read.NoByte? {
        SilenceBetweenWords(s.tx.asm, s.acks, choice);
      }
      SenderHearsNothing(s.tx, s.offered, s.acked, s.finishing, Io(writeOk, read));
      OtherHalfOk(s, n);
    }
  }

  lemma TxWordKeepsInv(s: Sys, writeOk: bool, choice: Choice)
    requires Inv(s) && Tx.WillRead(s.tx)
    requires Reads(s.acks, |s.tx.asm.buf|, choice).GotByte? && |s.tx.asm.buf| == 3
    ensures Inv(TxStep(s, writeOk, choice))
  {
    var n := TxStep(s, writeOk, choice);
    var read := Reads(s.acks, |s.tx.asm.buf|, choice);
    hide FromBytes, Tx.Poll, DataChannelOk, AckChannelOk, ReplyOk, SenderOk, ReceiverOk, Push;
    ReadContinues(s.tx.asm, s.acks, choice);
    ShorterAckChannel(s);
    SenderHearsWord(s.tx, s.offered, s.acked, s.finishing, Io(writeOk, read), s.acks[0].word);
    SenderFlight(s.tx, s.offered, s.acked, s.finishing);
    if IsAck(s.acks[0]) && FromBytes(s.acks[0].word).frame.num == SeqOf(s.acked) {
      MatchingAckIsAboutFlight(s);
      if s.finishing {
        FinishedNeedsLatch(s, n);
      } else {
        AckedKeepsChannels(s, n);
      }
    } else {
      FinishedNeedsLatch(s, n);
    }
  }

  lemma SenderFlight(tx: Tx.Model, offered: seq<u8>, acked: nat, finishing: bool)
    requires tx.Coherent() && SenderOk(tx, offered, acked, finishing) && tx.inflight.Some?
    ensures FlightOk(tx.inflight.value, offered, acked, finishing)
  {
  }

  lemma FinishedNeedsLatch(s: Sys, n: Sys)
    requires s.rx.Coherent() && n == s.(tx := n.tx, acks := n.acks)
    requires ReceiverOk(s) && ReplyOk(s) && DataChannelOk(s) && AckChannelOk(s.(acks := n.acks))
    requires n.tx.state == Tx.TxState.Finished ==> s.rx.finishSeq.Some?
    ensures ReceiverOk(n) && ReplyOk(n) && DataChannelOk(n) && AckChannelOk(n)
  {
    hide FromBytes;
    assert forall p :: DataOk(p, s) ==> DataOk(p, n);
    assert forall p :: AckOk(p, s.(acks := n.acks)) ==> AckOk(p, n);
  }

  // ------------------------------------------------------------ the receiver's polls

  /** Only the receiver's coarse state, its position in a reply, or its half-read word moved. */
  lemma RxCosmeticOk(s: Sys, n: Sys)
    requires s.rx.Coherent() && n.rx.Coherent()
    requires n == s.(rx := n.rx)
    requires n.rx == s.rx.(asm := n.rx.asm, out := n.rx.out, state := n.rx.state)
    requires n.rx.out.bytes == s.rx.out.bytes
    requires n.rx.asm.buf != [] ==> n.rx.out.Idle()
    ensures ReceiverOk(s) ==> ReceiverOk(n)
    ensures ReplyOk(s) ==> ReplyOk(n)
    ensures DataChannelOk(s) ==> DataChannelOk(n)
    ensures AckChannelOk(s) ==> AckChannelOk(n)
  {
    hide FromBytes;
    assert forall p :: DataOk(p, s) ==> DataOk(p, n);
    assert forall p :: AckOk(p, s) ==> AckOk(p, n);
  }

  /** The reply is out: the byte it acknowledges is handed over, and the reply is in flight. */
  lemma ReplySentKeepsInv(s: Sys, writeOk: bool, choice: Choice)
    requires Inv(s) && !s.rx.out.Idle() && writeOk && s.rx.out.Commit().Idle()
    ensures Inv(RxStep(s, writeOk, choice))
  {
    hide FromBytes, SenderOk;
    AdvanceOfIndex(|s.delivered|);
    var n := RxStep(s, writeOk, choice);
    var reply := Packet(s.rx.out.bytes, s.lastIx);
    assert n.acks == s.acks + [reply] && n.data == s.data && n.lastIx == s.lastIx;
    assert ReceiverOk(n) && ReplyOk(n);
    assert forall p :: DataOk(p, s) ==> DataOk(p, n);
    assert forall p :: AckOk(p, s) ==> AckOk(p, n);
    assert AckOk(reply, n);
  }

  /** The state after the oldest word was handled, before any reply byte is written. */
  function Handled(s: Sys): Sys
    requires s.rx.Coherent() && s.data != []
  {
    var d := FromBytes(s.data[0].word);
    s.(rx := Rx.Handle(s.rx.(asm := FRESH_PLAIN, state := Rx.RxState.Validating), d),
       data := s.data[1..],
       lastIx := if d.Good? then s.data[0].ix else s.lastIx)
  }

  /** A valid frame in flight is either the one the receiver waits for or the one before it. */
  lemma OldestIsExpectedOrPrevious(s: Sys)
    requires Inv(s) && s.data != [] && FromBytes(s.data[0].word).Good?
    ensures
      var f := FromBytes(s.data[0].word).frame;
      var ix, got := s.data[0].ix, |s.delivered|;
      && s.lastIx <= ix <= s.acked
      && (ix == got || (ix == got - 1 && f.kind == FrameType.Data && s.rx.finishSeq == None))
      && (f.kind == FrameType.Data || (f.kind == FrameType.Finish && ix == |s.offered| && s.finishing))
      && (f.kind == FrameType.Data ==>
            ix < |s.offered| && f == DataFrame(SeqOf(ix), s.offered[ix]) && s.rx.finishSeq == None)
      && f.num == SeqOf(ix)
      && (f.num == s.rx.expected <==> ix == got)
      && (ix == got - 1 ==> f.num == Previous(s.rx.expected))
  {
    hide FromBytes;
    assert DataOk(s.data[0], s);
    SeqOfInjective(s.data[0].ix, |s.delivered|);
  }

  lemma HandledBad(s: Sys)
    requires Inv(s) && s.rx.out.Idle() && s.data != [] && FromBytes(s.data[0].word).Bad?
    ensures ReceiverOk(Handled(s)) && ReplyOk(Handled(s))
  {
    hide FromBytes, ToBytes, SenderOk, DataChannelOk, AckChannelOk;
    DecodeEncode(NackFrame(s.rx.expected));
  }

  lemma HandledData(s: Sys, ix: nat)
    requires Inv(s) && s.rx.out.Idle() && s.data != [] && s.rx.finishSeq == None
    requires ix < |s.offered| && FromBytes(s.data[0].word) == Good(DataFrame(SeqOf(ix), s.offered[ix]))
    requires ix == s.data[0].ix && (ix == |s.delivered| || ix == |s.delivered| - 1) && ix <= s.acked
    requires SeqOf(ix) == s.rx.expected <==> ix == |s.delivered|
    requires ix == |s.delivered| - 1 ==> SeqOf(ix) == Previous(s.rx.expected)
    ensures ReceiverOk(Handled(s)) && ReplyOk(Handled(s))
  {
    hide FromBytes, ToBytes, SenderOk, DataChannelOk, AckChannelOk, SeqOf;
    DecodeEncode(AckFrame(SeqOf(ix)));
  }

  lemma HandledFinish(s: Sys)
    requires Inv(s) && s.rx.out.Idle() && s.data != []
    requires s.data[0].ix == |s.delivered| == |s.offered| == s.acked && s.finishing
    requires FromBytes(s.data[0].word) == Good(FinishFrame(SeqOf(|s.delivered|)))
    ensures ReceiverOk(Handled(s)) && ReplyOk(Handled(s))
  {
    hide FromBytes, ToBytes, SenderOk, DataChannelOk, AckChannelOk, SeqOf;
    DecodeEncode(AckFrame(SeqOf(|s.delivered|)));
  }

  lemma HandledIsOk(s: Sys)
    requires Inv(s) && s.rx.out.Idle() && s.data != []
    ensures ReceiverOk(Handled(s)) && ReplyOk(Handled(s))
  {
    var d := FromBytes(s.data[0].word);
    if d.Bad? {
      HandledBad(s);
    } else {
      OldestIsExpectedOrPrevious(s);
      assert DataOk(s.data[0], s);
      hide FromBytes, SenderOk, DataChannelOk, AckChannelOk, Handled, Previous, ReplyOk;
      if d.frame.kind == FrameType.Data {
        HandledData(s, s.data[0].ix);
      } else {
        HandledFinish(s);
      }
    }
  }

  lemma ShorterDataChannel(s: Sys)
    requires Inv(s) && s.rx.out.Idle() && s.data != []
    ensures DataChannelOk(Handled(s)) && AckChannelOk(Handled(s))
  {
    var n := Handled(s);
    if FromBytes(s.data[0].word).Good? {
      OldestIsExpectedOrPrevious(s);
    }
    LatchOnlySets(s.rx.(asm := FRESH_PLAIN, state := Rx.RxState.Validating), FromBytes(s.data[0].word));
    hide FromBytes, SenderOk, Rx.Handle, ReceiverOk, ReplyOk;
    forall i | 0 <= i < |n.data|
      ensures n.data[i] == s.data[i + 1] && DataOk(n.data[i], n)
    {
      assert DataOk(s.data[i + 1], s);
      assert FromBytes(s.data[0].word).Good? && FromBytes(n.data[i].word).Good? ==> s.data[0].ix <= n.data[i].ix;
    }
    assert forall p :: AckOk(p, s) ==> AckOk(p, n);
  }

  /** Handling a word other than START never clears the FINISH latch. */
  lemma LatchOnlySets(r: Rx.Model, d: Decoded)
    requires r.Coherent() && (d.Good? ==> d.frame.kind != Start)
    ensures r.finishSeq.Some? ==> Rx.Handle(r, d).finishSeq.Some?
  {
    hide ToBytes;
  }

  /** Reading a whole word is handling it, and perhaps writing the first byte of the reply. */
  lemma RxWordStep(s: Sys, writeOk: bool, choice: Choice)
    requires s.rx.Coherent() && Reading(s.rx.asm, s.data) && s.rx.out.Idle()
    requires Reads(s.data, |s.rx.asm.buf|, choice).GotByte? && |s.rx.asm.buf| == 3
    ensures
      var n, h := RxStep(s, writeOk, choice), Handled(s);
      && s.data != []
      && n == h.(rx := n.rx)
      && n.rx == h.rx.(out := n.rx.out, state := n.rx.state)
      && n.rx.out.bytes == h.rx.out.bytes
      && n.rx.Coherent()
  {
    var read := Reads(s.data, |s.rx.asm.buf|, choice);
    hide FromBytes, Rx.Poll, Rx.Handle, Push;
    ReadContinues(s.rx.asm, s.data, choice);
    Rx.WordPoll(s.rx, Io(writeOk, read), s.data[0].word);
  }

  lemma RxWordKeepsInv(s: Sys, writeOk: bool, choice: Choice)
    requires Inv(s) && s.rx.out.Idle() && Reads(s.data, |s.rx.asm.buf|, choice).GotByte? && |s.rx.asm.buf| == 3
    ensures Inv(RxStep(s, writeOk, choice))
  {
    hide FromBytes, RxStep, Reads, Rx.Handle, SenderOk, ReceiverOk, ReplyOk, DataChannelOk, AckChannelOk;
    RxWordStep(s, writeOk, choice);
    Rx.HandlingKeepsAssembler(s.rx.(asm := FRESH_PLAIN, state := Rx.RxState.Validating), FromBytes(s.data[0].word));
    HandledIsOk(s);
    ShorterDataChannel(s);
    RxCosmeticOk(Handled(s), RxStep(s, writeOk, choice));
  }

  lemma RxKeepsInv(s: Sys, writeOk: bool, choice: Choice)
    requires Inv(s)
    ensures Inv(RxStep(s, writeOk, choice))
  {
    var read := Reads(s.data, |s.rx.asm.buf|, choice);
    var n := RxStep(s, writeOk, choice);
    if !s.rx.out.Idle() && writeOk && s.rx.out.Commit().Idle() {
      ReplySentKeepsInv(s, writeOk, choice);
    } else if s.rx.out.Idle() && read.GotByte? && |s.rx.asm.buf| == 3 {
      RxWordKeepsInv(s, writeOk, choice);
    } else {
      assert s.rx.asm.buf != [] ==> s.rx.out.Idle();
      hide FromBytes, SenderOk, ReceiverOk, ReplyOk, DataChannelOk, AckChannelOk, Push, Rx.TakePending, Rx.OnWord;
      if read.GotByte? {
        ReadContinues(s.rx.asm, s.data, choice);
      }
      RxCosmeticOk(s, n);
    }
  }

  lemma TxKeepsInv(s: Sys, writeOk: bool, choice: Choice)
    requires Inv(s)
    ensures Inv(TxStep(s, writeOk, choice))
  {
    if s.tx.Resting() {
      hide FromBytes, ReceiverOk, ReplyOk, DataChannelOk, AckChannelOk;
      OtherHalfOk(s, TxStep(s, writeOk, choice));
    } else if Tx.WillWrite(s.tx) {
      TxWriteKeepsInv(s, writeOk, choice);
    } else {
      TxReadKeepsInv(s, writeOk, choice);
    }
  }

  // ------------------------------------------------------------ every run

  lemma StepKeepsInv(s: Sys, e: Event)
    requires Inv(s)
    ensures Inv(Step(s, e))
  {
    match e
    case OfferByte(byte) => OfferKeepsInv(s, byte);
    case OfferEnd => OfferEndKeepsInv(s);
    case TxPoll(writeOk, choice) => TxKeepsInv(s, writeOk, choice);
    case RxPoll(writeOk, choice) => RxKeepsInv(s, writeOk, choice);
    case LoseData(at) => LoseDataKeepsInv(s, at);
    case LoseAck(at) => LoseAckKeepsInv(s, at);
    case CorruptData(at, word) => CorruptDataKeepsInv(s, at, word);
    case CorruptAck(at, word) => CorruptAckKeepsInv(s, at, word);
    case StrayData(at, word) => StrayDataKeepsInv(s, at, word);
    case StrayAck(at, word) => StrayAckKeepsInv(s, at, word);
  }

  /** The state after a sequence of events. */
  function Run(s: Sys, events: seq<Event>): (end: Sys)
    requires Sound(s)
    decreases |events|
  {
    if events == [] then s else Run(Step(s, events[0]), events[1..])
  }

  function RunFromStart(policy: Tx.RetryPolicy, events: seq<Event>): Sys {
    Run(PowerUp(policy), events)
  }

  lemma {:induction false} RunKeepsInv(s: Sys, events: seq<Event>)
    requires Inv(s)
    ensures Inv(Run(s, events))
    decreases |events|
  {
    hide Inv, Step;
    InvIsSound(s);
    if events != [] {
      StepKeepsInv(s, events[0]);
      RunKeepsInv(Step(s, events[0]), events[1..]);
    }
  }

  lemma InvIsSound(s: Sys)
    requires Inv(s)
    ensures Sound(s)
  {
  }

  lemma EveryRunKeepsInv(policy: Tx.RetryPolicy, events: seq<Event>)
    ensures Inv(RunFromStart(policy, events))
  {
    PowerUpIsInv(policy);
    RunKeepsInv(PowerUp(policy), events);
  }

  /**
    Exactly once, for every retry policy and every sequence of offers, polls,
    losses, corruptions and stray words: what was handed over is a prefix of
    what was offered, and the sender's count of acknowledged bytes is never ahead of it
    and never more than one behind.
   */
  lemma ExactlyOnce(policy: Tx.RetryPolicy, events: seq<Event>)
    ensures
      var end := RunFromStart(policy, events);
      && end.delivered <= end.offered
      && end.acked <= |end.delivered| <= end.acked + 1
      && end.tx.num == SeqOf(end.acked)
      && end.rx.expected == SeqOf(|end.delivered|)
  {
    hide RunFromStart, Sound, ReplyOk, DataChannelOk, AckChannelOk, Reading;
    EveryRunKeepsInv(policy, events);
  }

  /** A finished transfer is a complete one, on the receiver's word alone. */
  lemma CompletionIsExact(policy: Tx.RetryPolicy, events: seq<Event>)
    ensures
      var end := RunFromStart(policy, events);
      && (end.tx.state == Tx.TxState.Finished ==> end.rx.finishSeq.Some?)
      && (end.rx.finishSeq.Some? ==> end.delivered == end.offered)
  {
    hide RunFromStart, Sound, ReplyOk, DataChannelOk, AckChannelOk, Reading;
    EveryRunKeepsInv(policy, events);
  }

  /**
    A lost ACK never causes a second delivery: whenever the receiver takes in a
    frame whose byte it already handed over, what it will do once the reply is
    out is ignore it; and a frame whose byte it has not is never ignored.
   */
  lemma RetransmissionIsNotDelivered(s: Sys)
    requires Inv(s) && s.rx.out.Idle() && s.data != []
    requires FromBytes(s.data[0].word).Good? && FromBytes(s.data[0].word).frame.kind == FrameType.Data
    ensures Handled(s).rx.pending ==
      Some(if s.data[0].ix < |s.delivered| then Rx.PendingAction.Duplicate
           else Rx.PendingAction.Deliver(s.offered[|s.delivered|]))
  {
    OldestIsExpectedOrPrevious(s);
    hide FromBytes, ToBytes;
  }
}
