/**
  The selective-repeat pair: one sender, one receiver, and two FIFO channels of
  whole frames that may lose any frame, corrupt it so that it no longer
  decodes, or let one appear that does not decode.  Frames carry the unbounded index of the byte they are about; the
  code sees only the SEQ byte.  A run is any sequence of events.
 */
module SelectiveRepeat {
  import opened Prelude
  import opened Wire
  import opened Framing
  import WindowRx
  import Tx
  import opened WindowTx
  import SendWindow

  /** What travels: four bytes as they will decode, and the index they are about. */
  datatype Packet = Packet(d: Decoded, ix: nat)

  datatype Sys = Sys(
    w: SendWindow.Tracked,   // the sender and its indices
    rx: WindowRx.Model,      // the receiver
    data: seq<Packet>,       // sender to receiver, oldest first
    acks: seq<Packet>,       // receiver to sender, oldest first
    offered: seq<u8>,        // every byte the application offered
    delivered: seq<u8>,      // every byte the application was given
    got: nat,                // the receiver's expected index
    replyIx: nat,            // the index the reply being written is about
    acked: set<nat>,         // indices whose slot an ACK has freed
    finishing: bool)         // FINISH has been offered

  /** `limit` is the window both sides agreed on; `n` and `m` their compile-time lengths. */
  function PowerUp(n: nat, m: nat, limit: nat, policy: Tx.RetryPolicy): (s: Sys)
    requires 1 <= n <= MAX_WINDOW && 1 <= m <= MAX_WINDOW && 1 <= limit <= n && limit <= m
    ensures s.w.tx.Coherent() && |s.w.ix| == |s.w.tx.slots| && s.rx.Coherent()
  {
    Sys(SendWindow.Start(n, limit, policy), WindowRx.SetLimit(WindowRx.Fresh(m), limit),
        [], [], [], [], 0, 0, {}, false)
  }

  // ------------------------------------------------------------ events

  datatype Event =
    | OfferByte(byte: u8)
    | OfferEnd
    | TxPoll(writeOk: bool)
    | TxFrame
    | RxPoll(writeOk: bool)
    | RxFrame(writeOk: bool)
    | LoseData(at: nat)
    | LoseAck(at: nat)
    | CorruptData(at: nat, error: FrameError)
    | CorruptAck(at: nat, error: FrameError)
    | StrayData(at: nat, error: FrameError)
    | StrayAck(at: nat, error: FrameError)

  /** Both halves are in a state their code can be in: all that a step needs. */
  predicate Sound(s: Sys) {
    SendWindow.Sound(s.w) && s.rx.Coherent()
  }

  function OfferStep(s: Sys, byte: u8): Sys
    requires s.w.tx.Coherent() && |s.w.ix| == |s.w.tx.slots|
  {
    var r := Offer(s.w.tx, byte).1;
    s.(w := SendWindow.StepOffer(s.w, byte),
       offered := if r.Ok? then s.offered + [byte] else s.offered)
  }

  function OfferEndStep(s: Sys): Sys
    requires s.w.tx.Coherent() && |s.w.ix| == |s.w.tx.slots|
  {
    s.(w := SendWindow.StepOfferFinish(s.w), finishing := s.finishing || OfferFinish(s.w.tx).1.Ok?)
  }

  /** The bytes the sender is in the middle of writing, loading them if it is about to start. */
  function Loaded(t: Model): Outgoing
    requires t.Coherent() && WillWrite(t)
  {
    if t.out.Idle() then Load(FrameOf(t.slots[SendWindow.Target(t)].value)) else t.out
  }

  /** The sender polls and the transport has nothing to read. */
  function TxPollStep(s: Sys, writeOk: bool): Sys
    requires s.w.tx.Coherent() && |s.w.ix| == |s.w.tx.slots|
  {
    var w' := SendWindow.StepPoll(s.w, Io(writeOk, NoByte));
    if !Terminal(s.w.tx.state) && WillWrite(s.w.tx) && w'.tx.out.Idle() then
      var p := Packet(FromBytes(Loaded(s.w.tx).bytes), s.w.ix[SendWindow.Target(s.w.tx)]);
      s.(w := w', data := s.data + [p])
    else s.(w := w')
  }

  /** The index of the DATA slot an ACK of `num` frees. */
  function Freed(w: SendWindow.Tracked, num: seqno): (r: set<nat>)
    requires |w.ix| == |w.tx.slots|
  {
    match FindSeq(w.tx.slots, num)
    case None => {}
    case Some(i) =>
      if w.tx.slots[i].value.written && w.tx.slots[i].value.kind.Data? then {w.ix[i]} else {}
  }

  /** The sender reads the oldest frame of the reply channel. */
  function TxFrameStep(s: Sys): Sys
    requires s.w.tx.Coherent() && |s.w.ix| == |s.w.tx.slots|
  {
    if !WillRead(s.w.tx) || s.acks == [] then s
    else
      match s.acks[0].d
      case Bad(_) => s.(acks := s.acks[1..])
      case Good(f) =>
        s.(w := s.w.(tx := OnControl(s.w.tx, f).0),
           acks := s.acks[1..],
           acked := if f.kind == Ack then s.acked + Freed(s.w, f.num) else s.acked)
  }

  /** The receiver polls and the transport has nothing to read. */
  function RxPollStep(s: Sys, writeOk: bool): Sys
    requires s.rx.Coherent()
  {
    var p := WindowRx.Poll(s.rx, Io(writeOk, NoByte));
    var replied := !s.rx.out.Idle() && p.next.out.Idle();
    s.(rx := p.next,
       acks := if replied then s.acks + [Packet(FromBytes(s.rx.out.bytes), s.replyIx)] else s.acks,
       got := if replied && s.rx.pending == Some(WindowRx.PendingAction.Drain)
              then s.got + WindowRx.Run(s.rx.buf) else s.got,
       delivered := match p.result
                    case Ok(Delivered(byte)) => s.delivered + [byte]
                    case _ => s.delivered)
  }

  /** The receiver reads the oldest frame of the data channel. */
  function RxFrameStep(s: Sys, writeOk: bool): Sys
    requires s.rx.Coherent()
  {
    if !WindowRx.WillRead(s.rx) || s.data == [] then s
    else
      var p := WindowRx.OnWord(s.rx, s.data[0].d, writeOk);
      s.(rx := p.next, data := s.data[1..], replyIx := s.data[0].ix)
  }

  function Drop(c: seq<Packet>, at: nat): seq<Packet> {
    if at < |c| then c[..at] + c[at + 1..] else c
  }

  function Corrupt(c: seq<Packet>, at: nat, error: FrameError): seq<Packet> {
    if at < |c| then c[at := c[at].(d := Bad(error))] else c
  }

  /** A word nobody wrote, which does not decode: a window rejected while a demultiplexer looks for the next frame. */
  function Stray(c: seq<Packet>, at: nat, error: FrameError): seq<Packet> {
    if at <= |c| then c[..at] + [Packet(Bad(error), 0)] + c[at..] else c
  }

  function Step(s: Sys, e: Event): (n: Sys)
    requires Sound(s)
    ensures Sound(n)
  {
    match e
    case OfferByte(byte) => OfferStep(s, byte)
    case OfferEnd => OfferEndStep(s)
    case TxPoll(writeOk) => TxPollStep(s, writeOk)
    case TxFrame => TxFrameStep(s)
    case RxPoll(writeOk) => RxPollStep(s, writeOk)
    case RxFrame(writeOk) => RxFrameStep(s, writeOk)
    case LoseData(at) => s.(data := Drop(s.data, at))
    case LoseAck(at) => s.(acks := Drop(s.acks, at))
    case CorruptData(at, error) => s.(data := Corrupt(s.data, at, error))
    case CorruptAck(at, error) => s.(acks := Corrupt(s.acks, at, error))
    case StrayData(at, error) => s.(data := Stray(s.data, at, error))
    case StrayAck(at, error) => s.(acks := Stray(s.acks, at, error))
  }

  // ------------------------------------------------------------ the invariant

  /**
    Index `k` was accepted: delivered in order, or stored behind a gap.  The
    head of the buffer does not count until its drain has been performed.
   */
  ghost predicate Accepted(got: nat, buf: seq<Option<u8>>, k: int) {
    0 <= k < got || (got < k < got + |buf| && buf[k - got].Some?)
  }

  /** Index `k` was received: accepted, or the head of the buffer waiting for its drain. */
  ghost predicate Stored(got: nat, buf: seq<Option<u8>>, k: int) {
    0 <= k < got || (got <= k < got + |buf| && buf[k - got].Some?)
  }

  ghost predicate InSlot(w: SendWindow.Tracked, k: nat)
    requires |w.ix| == |w.tx.slots|
  {
    exists i :: 0 <= i < |w.ix| && w.tx.slots[i].Some? && w.tx.slots[i].value.kind.Data? && w.ix[i] == k
  }

  ghost predicate SenderOk(w: SendWindow.Tracked, offered: seq<u8>, acked: set<nat>, finishing: bool) {
    && SendWindow.Inv(w)
    && |offered| == w.next
    && w.tx.state != Tx.TxState.Aborted
    && (forall i :: 0 <= i < |w.ix| && w.tx.slots[i].Some? && w.tx.slots[i].value.kind.Data? ==>
          w.tx.slots[i].value.payload == offered[w.ix[i]])
    && (forall k :: k in acked ==> k < w.next)
    && (w.tx.state != Tx.TxState.Failed ==> forall k: nat :: k < w.next && k !in acked ==> InSlot(w, k))
    && (finishing ==> forall k: nat :: k < w.next ==> k in acked)
    && (finishing <==> HasSession(w.tx.slots) || w.tx.state == Tx.TxState.Finished
                       || (finishing && w.tx.state == Tx.TxState.Failed))
    && (!w.tx.out.Idle() ==>
          FromBytes(w.tx.out.bytes) == Good(FrameOf(w.tx.slots[w.tx.writing.value].value)))
  }

  /** Slot `o` of the reorder buffer holds the offered byte `o` places after the expected one. */
  ghost predicate HoldsOffered(buf: seq<Option<u8>>, got: nat, offered: seq<u8>) {
    forall o :: 0 <= o < |buf| && buf[o].Some? ==> got + o < |offered| && buf[o].value == offered[got + o]
  }

  /** What was handed out and what is queued are the first `got` offered bytes. */
  ghost predicate Delivers(delivered: seq<u8>, rx: WindowRx.Model, offered: seq<u8>, got: nat)
    requires rx.Valid() && got <= |offered|
  {
    delivered + rx.Queue() == offered[..got]
  }

  ghost predicate ReceiverOk(s: Sys) {
    var next := s.w.next;
    && s.rx.Coherent()
    && s.rx.limit == s.w.tx.limit
    && s.rx.expected == SeqOf(s.got)
    && s.got <= next <= s.got + s.rx.limit
    && |s.offered| == next
    && HoldsOffered(s.rx.buf, s.got, s.offered)
    && Delivers(s.delivered, s.rx, s.offered, s.got)
    && !s.rx.abortLatched
    && (s.rx.finishSeq.Some? ==>
          s.finishing && s.got == next && s.rx.finishSeq.value == SeqOf(next) && s.rx.emit == [])
    && (s.w.tx.state == Tx.TxState.Finished ==> s.rx.finishSeq.Some?)
  }

  /** A reply about DATA index `ix` may still be outrun by at most a window. */
  ghost predicate ReplyInRange(s: Sys, ix: nat) {
    && s.w.next <= ix + 2 * s.rx.limit
    && forall k :: Accepted(s.got, s.rx.buf, k) ==> k < ix + s.rx.limit
  }

  ghost predicate ReplyOk(s: Sys) {
    match s.rx.pending
    case None => true
    case Some(Drain) =>
      && s.replyIx == s.got
      && FromBytes(s.rx.out.bytes) == Good(AckFrame(SeqOf(s.got)))
      && ReplyInRange(s, s.got)
    case Some(Quiet) =>
      && s.replyIx > s.got && Accepted(s.got, s.rx.buf, s.replyIx)
      && FromBytes(s.rx.out.bytes) == Good(AckFrame(SeqOf(s.replyIx)))
      && ReplyInRange(s, s.replyIx)
    case Some(Duplicate) =>
      && s.replyIx < s.got
      && FromBytes(s.rx.out.bytes) == Good(AckFrame(SeqOf(s.replyIx)))
      && ReplyInRange(s, s.replyIx)
    case Some(Finished) =>
      && s.replyIx == s.w.next && s.rx.finishSeq.Some?
      && FromBytes(s.rx.out.bytes) == Good(AckFrame(SeqOf(s.replyIx)))
    case Some(Rejected) => FromBytes(s.rx.out.bytes).Good? && FromBytes(s.rx.out.bytes).frame.kind == Nack
    case Some(CrcRejected) => FromBytes(s.rx.out.bytes).Good? && FromBytes(s.rx.out.bytes).frame.kind == Nack
    case _ => false
  }

  predicate IsData(p: Packet) {
    p.d.Good? && p.d.frame.kind == FrameType.Data
  }

  /** An ACK of a DATA byte, as opposed to the ACK of FINISH, whose index is `next`. */
  predicate IsDataAck(p: Packet, next: nat) {
    p.d.Good? && p.d.frame.kind == Ack && p.ix < next
  }

  ghost predicate DataPacketOk(s: Sys, p: Packet) {
    p.d.Good? ==>
      match p.d.frame.kind
      case Data => p.ix < |s.offered| && p.d.frame == DataFrame(SeqOf(p.ix), s.offered[p.ix])
      case Finish => p.ix == s.w.next && p.d.frame == FinishFrame(SeqOf(p.ix)) && s.finishing
      case _ => false
  }

  ghost predicate DataChannelOk(s: Sys) {
    && (forall i :: 0 <= i < |s.data| ==> DataPacketOk(s, s.data[i]))
    && (forall i, j :: 0 <= i < j < |s.data| && IsData(s.data[i]) && IsData(s.data[j]) ==>
          s.data[i].ix < s.data[j].ix + s.rx.limit)
    && (forall k, j :: 0 <= j < |s.data| && IsData(s.data[j]) && Stored(s.got, s.rx.buf, k) ==>
          k < s.data[j].ix + s.rx.limit)
  }

  ghost predicate AckPacketOk(s: Sys, p: Packet) {
    p.d.Good? ==>
      match p.d.frame.kind
      case Ack =>
        && p.d.frame == AckFrame(SeqOf(p.ix))
        && (Accepted(s.got, s.rx.buf, p.ix) || (p.ix == s.w.next && s.rx.finishSeq.Some?))
      case Nack => true
      case _ => false
  }

  ghost predicate AckChannelOk(s: Sys) {
    && (forall i :: 0 <= i < |s.acks| ==> AckPacketOk(s, s.acks[i]))
    && (forall i :: 0 <= i < |s.acks| && IsDataAck(s.acks[i], s.w.next) ==>
          s.w.next <= s.acks[i].ix + 2 * s.rx.limit)
    && (forall i, j :: 0 <= i < j < |s.acks| && IsDataAck(s.acks[i], s.w.next) && IsDataAck(s.acks[j], s.w.next) ==>
          s.acks[i].ix < s.acks[j].ix + s.rx.limit)
    && (forall k, j :: k in s.acked && 0 <= j < |s.acks| && IsDataAck(s.acks[j], s.w.next) ==>
          k < s.acks[j].ix + s.rx.limit)
    && (forall k :: k in s.acked ==> Accepted(s.got, s.rx.buf, k))
  }

  ghost predicate Inv(s: Sys) {
    && SenderOk(s.w, s.offered, s.acked, s.finishing)
    && ReceiverOk(s)
    && ReplyOk(s)
    && DataChannelOk(s)
    && AckChannelOk(s)
  }

  lemma PowerUpIsInv(n: nat, m: nat, limit: nat, policy: Tx.RetryPolicy)
    requires 1 <= n <= MAX_WINDOW && 1 <= m <= MAX_WINDOW && 1 <= limit <= n && limit <= m
    ensures Inv(PowerUp(n, m, limit, policy))
  {
    SendWindow.StartIsInv(n, limit, policy);
  }

  /** Whatever was accepted had been offered. */
  lemma AcceptedWasOffered(s: Sys, k: int)
    requires ReceiverOk(s) && Accepted(s.got, s.rx.buf, k)
    ensures 0 <= k < s.w.next && k != s.got
  {
  }

  lemma StoredWasOffered(s: Sys, k: int)
    requires ReceiverOk(s) && Stored(s.got, s.rx.buf, k)
    ensures 0 <= k < s.w.next
  {
  }

  // ------------------------------------------------------------ offering

  /** A byte is admitted only within two windows of any index no acknowledged index outruns by one. */
  lemma NotOutrun(s: Sys, ix: nat)
    requires SenderOk(s.w, s.offered, s.acked, s.finishing) && !Terminal(s.w.tx.state)
    requires forall k :: k in s.acked ==> k < ix + s.w.tx.limit
    requires forall j :: 0 <= j < |s.w.ix| && s.w.tx.slots[j].Some? ==> s.w.next + 1 <= s.w.ix[j] + s.w.tx.limit
    ensures s.w.next + 1 <= ix + 2 * s.w.tx.limit
  {
    hide HasSession;
    var k := ix + s.w.tx.limit;
    if k < s.w.next {
      assert k !in s.acked;
      assert InSlot(s.w, k);
    }
  }

  /** The reply being written is about a DATA byte. */
  predicate DataReply(s: Sys) {
    s.rx.pending == Some(WindowRx.PendingAction.Drain) || s.rx.pending == Some(WindowRx.PendingAction.Quiet)
    || s.rx.pending == Some(WindowRx.PendingAction.Duplicate)
  }

  /** While a byte is admitted, it stays within a window of everything the receiver lacks. */
  lemma AdmittedStaysInRange(s: Sys)
    requires Inv(s) && !HasSession(s.w.tx.slots) && !Terminal(s.w.tx.state)
    requires InSendWindow(s.w.tx, s.w.tx.nextSeq)
    ensures s.w.next + 1 <= s.got + s.rx.limit
    ensures forall i :: 0 <= i < |s.acks| && IsDataAck(s.acks[i], s.w.next) ==>
      s.w.next + 1 <= s.acks[i].ix + 2 * s.rx.limit
    ensures DataReply(s) ==> s.w.next + 1 <= s.replyIx + 2 * s.rx.limit
  {
    SendWindow.WindowTestIsExact(s.w);
    hide InSendWindow, HasSession, SendWindow.Inv, DataChannelOk;
    if s.got < s.w.next {
      assert s.got !in s.acked;
      assert InSlot(s.w, s.got);
    }
    forall i | 0 <= i < |s.acks| && IsDataAck(s.acks[i], s.w.next)
      ensures s.w.next + 1 <= s.acks[i].ix + 2 * s.rx.limit
    {
      NotOutrun(s, s.acks[i].ix);
    }
    if DataReply(s) {
      NotOutrun(s, s.replyIx);
    }
  }

  /** Every index not yet acknowledged still has its slot, the new one included. */
  lemma OfferKeepsSlots(s: Sys, byte: u8)
    requires Inv(s) && Offer(s.w.tx, byte).1.Ok?
    ensures
      var n := OfferStep(s, byte);
      |n.w.ix| == |n.w.tx.slots| && forall k: nat :: k < n.w.next && k !in n.acked ==> InSlot(n.w, k)
  {
    var n := OfferStep(s, byte);
    var f := FindFree(s.w.tx.slots).value;
    hide SendWindow.Inv, InSendWindow, FindFree, ReceiverOk, ReplyOk, DataChannelOk, AckChannelOk;
    forall k: nat | k < n.w.next && k !in n.acked
      ensures InSlot(n.w, k)
    {
      if k < s.w.next {
        assert InSlot(s.w, k);
        var i :| 0 <= i < |s.w.ix| && s.w.tx.slots[i].Some? && s.w.tx.slots[i].value.kind.Data? && s.w.ix[i] == k;
        assert n.w.tx.slots[i] == s.w.tx.slots[i] && n.w.ix[i] == k;
      } else {
        assert n.w.tx.slots[f].Some? && n.w.ix[f] == k;
      }
    }
  }

  lemma OfferSenderOk(s: Sys, byte: u8)
    requires Inv(s) && Offer(s.w.tx, byte).1.Ok?
    ensures
      var n := OfferStep(s, byte);
      SenderOk(n.w, n.offered, n.acked, n.finishing)
  {
    SendWindow.OfferKeepsInv(s.w, byte);
    OfferKeepsSlots(s, byte);
    var n := OfferStep(s, byte);
    var f := FindFree(s.w.tx.slots).value;
    hide SendWindow.Inv, InSendWindow, FindFree, InSlot, ReceiverOk, ReplyOk, DataChannelOk, AckChannelOk;
    forall i | 0 <= i < |n.w.ix| && n.w.tx.slots[i].Some? && n.w.tx.slots[i].value.kind.Data?
      ensures n.w.tx.slots[i].value.payload == n.offered[n.w.ix[i]]
    {
      SlotIndexBound(n.w, i);
      if i != f {
        SlotIndexBound(s.w, i);
      }
    }
  }

  lemma SlotIndexBound(w: SendWindow.Tracked, i: nat)
    requires SendWindow.Inv(w) && i < |w.ix| && w.tx.slots[i].Some?
    ensures w.tx.slots[i].value.num == SeqOf(w.ix[i])
    ensures w.ix[i] <= w.next <= w.ix[i] + w.tx.limit
    ensures w.tx.slots[i].value.kind.Data? ==> w.ix[i] < w.next
    ensures !w.tx.slots[i].value.kind.Data? ==> w.tx.slots[i].value.kind.Finish? && w.ix[i] == w.next
  {
    assert SendWindow.SlotOk(w.tx.slots[i], w.ix[i], w.next, w.tx.limit);
  }

  /** `n` is `s` after one more byte was admitted: only the sender's side changed. */
  ghost predicate Admitted(s: Sys, n: Sys, byte: u8) {
    && n == s.(w := n.w, offered := s.offered + [byte])
    && n.w.next == s.w.next + 1
    && n.w.tx.limit == s.w.tx.limit
    && !Terminal(n.w.tx.state)
    && !s.finishing
    && s.w.next + 1 <= s.got + s.rx.limit
    && (forall i :: 0 <= i < |s.acks| && IsDataAck(s.acks[i], s.w.next) ==>
          s.w.next + 1 <= s.acks[i].ix + 2 * s.rx.limit)
    && (DataReply(s) ==> s.w.next + 1 <= s.replyIx + 2 * s.rx.limit)
  }

  lemma AdmittedReceiverOk(s: Sys, n: Sys, byte: u8)
    requires ReceiverOk(s) && ReplyOk(s) && Admitted(s, n, byte)
    ensures ReceiverOk(n) && ReplyOk(n)
  {
    assert n.offered[..s.got] == s.offered[..s.got];
  }

  lemma AdmittedChannelsOk(s: Sys, n: Sys, byte: u8)
    requires ReceiverOk(s) && DataChannelOk(s) && AckChannelOk(s) && Admitted(s, n, byte)
    ensures DataChannelOk(n) && AckChannelOk(n)
  {
    forall i | 0 <= i < |n.data|
      ensures DataPacketOk(n, n.data[i])
    {
      assert DataPacketOk(s, s.data[i]);
    }
    forall i | 0 <= i < |n.acks|
      ensures AckPacketOk(n, n.acks[i])
      ensures IsDataAck(n.acks[i], n.w.next) ==> IsDataAck(s.acks[i], s.w.next)
    {
      assert AckPacketOk(s, s.acks[i]);
    }
  }

  lemma OfferKeepsInv(s: Sys, byte: u8)
    requires Inv(s)
    ensures Inv(OfferStep(s, byte))
  {
    if Offer(s.w.tx, byte).1.Ok? {
      AdmittedStaysInRange(s);
      OfferSenderOk(s, byte);
      var n := OfferStep(s, byte);
      assert !s.finishing;
      hide SenderOk, InSendWindow, ReceiverOk, ReplyOk, DataChannelOk, AckChannelOk;
      assert Admitted(s, n, byte);
      AdmittedReceiverOk(s, n, byte);
      AdmittedChannelsOk(s, n, byte);
    }
  }

  // ------------------------------------------------------------ steps of the sender alone

  /** Only the sender moved, and it neither admitted a byte nor finished. */
  ghost predicate SenderMoved(s: Sys, n: Sys) {
    && n == s.(w := n.w, finishing := n.finishing)
    && n.w.next == s.w.next
    && n.w.tx.limit == s.w.tx.limit
    && (s.finishing ==> n.finishing)
    && (n.w.tx.state == Tx.TxState.Finished ==> s.w.tx.state == Tx.TxState.Finished || s.rx.finishSeq.Some?)
  }

  lemma SenderMovedOk(s: Sys, n: Sys)
    requires ReceiverOk(s) && ReplyOk(s) && DataChannelOk(s) && AckChannelOk(s) && SenderMoved(s, n)
    ensures ReceiverOk(n) && ReplyOk(n) && DataChannelOk(n) && AckChannelOk(n)
  {
    forall i | 0 <= i < |n.data|
      ensures DataPacketOk(n, n.data[i])
    {
      assert DataPacketOk(s, s.data[i]);
    }
    forall i | 0 <= i < |n.acks|
      ensures AckPacketOk(n, n.acks[i])
    {
      assert AckPacketOk(s, s.acks[i]);
    }
  }

  lemma OfferEndKeepsInv(s: Sys)
    requires Inv(s)
    ensures Inv(OfferEndStep(s))
  {
    var n := OfferEndStep(s);
    SendWindow.OfferFinishKeepsInv(s.w);
    if OfferFinish(s.w.tx).1.Ok? {
      forall k: nat | k < s.w.next
        ensures k in s.acked
      {
        assert !InSlot(s.w, k);
      }
      assert IsSession(n.w.tx.slots[FindFree(s.w.tx.slots).value]);
    }
    hide SendWindow.Inv;
    assert SenderOk(n.w, n.offered, n.acked, n.finishing);
    assert SenderMoved(s, n);
    SenderMovedOk(s, n);
  }

  /** Every slot still holds the same flight. */
  ghost predicate SlotsKept(w: SendWindow.Tracked, n: SendWindow.Tracked) {
    && n.ix == w.ix && n.next == w.next
    && |n.tx.slots| == |w.tx.slots| == |w.ix|
    && forall i :: 0 <= i < |w.ix| ==> SameFlight(w.tx.slots[i], n.tx.slots[i])
  }

  predicate SameFlight(a: Option<TxSlot>, b: Option<TxSlot>) {
    match (a, b)
    case (None, None) => true
    case (Some(x), Some(y)) => y.kind == x.kind && y.num == x.num && y.payload == x.payload
    case _ => false
  }

  lemma KeptSenderOk(s: Sys, w: SendWindow.Tracked)
    requires SenderOk(s.w, s.offered, s.acked, s.finishing)
    requires SendWindow.Inv(w) && SlotsKept(s.w, w)
    requires !Terminal(s.w.tx.state) && !Terminal(w.tx.state)
    requires !w.tx.out.Idle() ==>
      FromBytes(w.tx.out.bytes) == Good(FrameOf(w.tx.slots[w.tx.writing.value].value))
    ensures SenderOk(w, s.offered, s.acked, s.finishing)
  {
    hide SendWindow.Inv;
    assert |w.ix| == |w.tx.slots| && |s.w.ix| == |s.w.tx.slots|;
    forall k: nat | k < w.next && k !in s.acked
      ensures InSlot(w, k)
    {
      assert InSlot(s.w, k);
      var i :| 0 <= i < |s.w.ix| && s.w.tx.slots[i].Some? && s.w.tx.slots[i].value.kind.Data? && s.w.ix[i] == k;
      assert SameFlight(s.w.tx.slots[i], w.tx.slots[i]);
    }
    forall i | 0 <= i < |w.ix|
      ensures IsSession(w.tx.slots[i]) <==> IsSession(s.w.tx.slots[i])
      ensures w.tx.slots[i].Some? && w.tx.slots[i].value.kind.Data? ==>
        w.ix[i] < |s.offered| && w.tx.slots[i].value.payload == s.offered[w.ix[i]]
    {
      assert SameFlight(s.w.tx.slots[i], w.tx.slots[i]);
      if w.tx.slots[i].Some? { SlotIndexBound(w, i); }
    }
  }

  lemma GaveUpSenderOk(s: Sys, w: SendWindow.Tracked)
    requires SenderOk(s.w, s.offered, s.acked, s.finishing)
    requires SendWindow.Inv(w) && w.next == s.w.next && w.tx.out.Idle()
    requires !Terminal(s.w.tx.state) && w.tx.state == Tx.TxState.Failed
    ensures SenderOk(w, s.offered, s.acked, s.finishing)
  {
    assert Empty(w.tx.slots);
  }

  lemma FrameOfDecodes(w: SendWindow.Tracked, i: nat)
    requires SendWindow.Inv(w) && i < |w.ix| && w.tx.slots[i].Some?
    ensures FromBytes(ToBytes(FrameOf(w.tx.slots[i].value))) == Good(FrameOf(w.tx.slots[i].value))
  {
    SlotIndexBound(w, i);
    DecodeEncode(FrameOf(w.tx.slots[i].value));
  }

  /** A tick ages slots in place, or gives the transfer up. */
  lemma {:induction false} TickKeepsFlights(t: Model, i: nat)
    requires t.Coherent() && i <= |t.slots| && t.out.Idle() && !Terminal(t.state)
    ensures
      var n := TickFrom(t, i).0;
      && n.out == t.out && n.writing == t.writing && |n.slots| == |t.slots|
      && (n.state == Tx.TxState.Failed || (!Terminal(n.state)
          && forall j :: 0 <= j < |t.slots| ==> SameFlight(t.slots[j], n.slots[j])))
    decreases |t.slots| - i
  {
    hide NextToWrite, SessionAlone, Empty;
    if i < |t.slots| {
      if !Ticks(t, i) {
        TickKeepsFlights(t, i + 1);
      } else {
        var s := TickSlot(t.slots[i].value, t.policy.timeoutTicks);
        if s.Some? {
          var u := TickedOnce(t, i);
          TickKeepsFlights(u, i + 1);
          var n := TickFrom(t, i).0;
          if !Terminal(n.state) {
            forall j | 0 <= j < |t.slots|
              ensures SameFlight(t.slots[j], n.slots[j])
            {
              assert SameFlight(u.slots[j], n.slots[j]);
            }
          }
        }
      }
    }
  }

  /** The state after slot `i` alone has ticked without giving up. */
  function TickedOnce(t: Model, i: nat): (u: Model)
    requires t.Coherent() && i < |t.slots| && t.out.Idle() && !Terminal(t.state) && Ticks(t, i)
    requires TickSlot(t.slots[i].value, t.policy.timeoutTicks).Some?
    ensures u.Coherent() && |u.slots| == |t.slots| && u.out.Idle() && !Terminal(u.state)
    ensures TickFrom(t, i) == TickFrom(u, i + 1)
  {
    var s := TickSlot(t.slots[i].value, t.policy.timeoutTicks);
    var q := t.(slots := t.slots[i := s]);
    if s.value.needsRetransmit then q.(state := Tx.TxState.Retrying, mark := t.mark.(retransmit := true)) else q
  }

  lemma TickSenderOk(s: Sys)
    requires Inv(s) && WillRead(s.w.tx)
    ensures
      var n := s.(w := s.w.(tx := TickTimeouts(s.w.tx).0));
      SenderOk(n.w, n.offered, n.acked, n.finishing) && SenderMoved(s, n)
  {
    SendWindow.TickKeepsInv(s.w);
    SendWindow.TickAges(s.w.tx, 0);
    TickKeepsFlights(s.w.tx, 0);
    hide TickFrom, NextToWrite, SendWindow.Inv, SenderOk;
    var w := s.w.(tx := TickTimeouts(s.w.tx).0);
    if w.tx.state == Tx.TxState.Failed {
      GaveUpSenderOk(s, w);
    } else {
      KeptSenderOk(s, w);
    }
  }

  /** A write step keeps every flight; a frame still being written is the one that was loaded. */
  lemma WriteKeepsFlights(t: Model, writeOk: bool)
    requires t.Coherent() && WillWrite(t) && !Terminal(t.state)
    ensures
      var n := WriteStep(t, writeOk).next;
      && |n.slots| == |t.slots| && n.limit == t.limit && !Terminal(n.state)
      && (forall j :: 0 <= j < |t.slots| ==> SameFlight(t.slots[j], n.slots[j]))
      && (!n.out.Idle() ==> n.out.bytes == Loaded(t).bytes && n.writing == Some(SendWindow.Target(t)))
  {
    hide NextToWrite, ToBytes, FromBytes, SessionAlone, Empty;
    TargetIs(t);
  }

  /** The frame being written is the frame of the slot it came from. */
  lemma LoadedDecodes(s: Sys)
    requires Inv(s) && WillWrite(s.w.tx)
    ensures FromBytes(Loaded(s.w.tx).bytes) == Good(FrameOf(s.w.tx.slots[SendWindow.Target(s.w.tx)].value))
  {
    FrameOfDecodes(s.w, SendWindow.Target(s.w.tx));
    TargetIs(s.w.tx);
    hide NextToWrite, SendWindow.Inv, FromBytes, ToBytes, SendWindow.Target;
  }

  lemma WriteSenderOk(s: Sys, writeOk: bool)
    requires Inv(s) && WillWrite(s.w.tx) && !Terminal(s.w.tx.state)
    ensures
      var w := SendWindow.StepWrite(s.w, writeOk);
      && SenderOk(w, s.offered, s.acked, s.finishing)
      && SenderMoved(s, s.(w := w))
  {
    SendWindow.WriteKeepsInv(s.w, writeOk);
    LoadedDecodes(s);
    WriteKeepsFlights(s.w.tx, writeOk);
    hide NextToWrite, SendWindow.Inv, FromBytes, ToBytes, SendWindow.Target, WriteStep, SenderOk, ReceiverOk,
      DataChannelOk, AckChannelOk, ReplyOk, SameFlight, Loaded;
    var w := SendWindow.StepWrite(s.w, writeOk);
    var i := SendWindow.Target(s.w.tx);
    assert FrameOf(w.tx.slots[i].value) == FrameOf(s.w.tx.slots[i].value) by {
      SameFrame(s.w.tx.slots[i], w.tx.slots[i]);
    }
    KeptSenderOk(s, w);
  }

  lemma SameFrame(a: Option<TxSlot>, b: Option<TxSlot>)
    requires SameFlight(a, b) && a.Some?
    ensures b.Some? && FrameOf(b.value) == FrameOf(a.value)
  {
  }

  lemma TargetIs(t: Model)
    requires t.Coherent() && WillWrite(t)
    ensures t.out.Idle() ==> NextToWrite(t.slots) == Some(SendWindow.Target(t))
    ensures !t.out.Idle() ==> t.writing == Some(SendWindow.Target(t))
  {
  }

  /** A frame just written lies within a window of everything in flight and everything accepted. */
  lemma AppendData(s: Sys, p: Packet)
    requires ReceiverOk(s) && DataChannelOk(s) && DataPacketOk(s, p)
    requires IsData(p) ==> s.w.next <= p.ix + s.rx.limit
    ensures DataChannelOk(s.(data := s.data + [p]))
  {
    var n := s.(data := s.data + [p]);
    forall i | 0 <= i < |n.data|
      ensures DataPacketOk(n, n.data[i])
      ensures IsData(n.data[i]) ==> n.data[i].ix < s.w.next
    {
      if i < |s.data| { assert DataPacketOk(s, s.data[i]); } else { assert DataPacketOk(s, p); }
    }
    forall k, j | 0 <= j < |n.data| && IsData(n.data[j]) && Stored(n.got, n.rx.buf, k)
      ensures k < n.data[j].ix + n.rx.limit
    {
      StoredWasOffered(s, k);
      assert Stored(s.got, s.rx.buf, k);
      if j < |s.data| { assert n.data[j] == s.data[j]; }
    }
  }

  lemma WrittenPacketOk(s: Sys, i: nat)
    requires Inv(s) && i < |s.w.ix| && s.w.tx.slots[i].Some?
    ensures
      var p := Packet(Good(FrameOf(s.w.tx.slots[i].value)), s.w.ix[i]);
      DataPacketOk(s, p) && s.w.next <= p.ix + s.rx.limit
  {
    SlotIndexBound(s.w, i);
    if !s.w.tx.slots[i].value.kind.Data? {
      assert IsSession(s.w.tx.slots[i]);
    }
  }

  lemma TxPollKeepsInv(s: Sys, writeOk: bool)
    requires Inv(s)
    ensures Inv(TxPollStep(s, writeOk))
  {
    var n := TxPollStep(s, writeOk);
    if Terminal(s.w.tx.state) {
    } else if WillWrite(s.w.tx) {
      WriteSenderOk(s, writeOk);
      LoadedDecodes(s);
      WrittenPacketOk(s, SendWindow.Target(s.w.tx));
      hide SenderOk, ReceiverOk, DataChannelOk, AckChannelOk, ReplyOk, NextToWrite, FromBytes, SendWindow.StepWrite,
        DataPacketOk;
      var m := s.(w := SendWindow.StepWrite(s.w, writeOk));
      SenderMovedOk(s, m);
      if m.w.tx.out.Idle() {
        var p := Packet(FromBytes(Loaded(s.w.tx).bytes), s.w.ix[SendWindow.Target(s.w.tx)]);
        PacketStaysOk(s, m, p);
        AppendData(m, p);
        assert n == m.(data := m.data + [p]);
        DataOnlyOk(m, n);
      }
    } else {
      TickSenderOk(s);
      hide SenderOk, ReceiverOk, DataChannelOk, AckChannelOk, ReplyOk, TickTimeouts;
      SenderMovedOk(s, n);
    }
  }

  lemma PacketStaysOk(s: Sys, n: Sys, p: Packet)
    requires DataPacketOk(s, p) && SenderMoved(s, n)
    ensures DataPacketOk(n, p)
  {
  }

  /** The other parts of the invariant do not look at the data channel. */
  lemma DataOnlyOk(s: Sys, n: Sys)
    requires n == s.(data := n.data)
    ensures ReceiverOk(s) ==> ReceiverOk(n)
    ensures ReplyOk(s) ==> ReplyOk(n)
    ensures AckChannelOk(s) ==> AckChannelOk(n)
  {
    assert forall p :: AckPacketOk(s, p) ==> AckPacketOk(n, p);
  }

  // ------------------------------------------------------------ the sender reads a reply

  /** The other parts of the invariant do not look at the reply channel or at what was acknowledged. */
  lemma AcksOnlyOk(s: Sys, n: Sys)
    requires n == s.(acks := n.acks, acked := n.acked)
    ensures ReceiverOk(s) ==> ReceiverOk(n)
    ensures ReplyOk(s) ==> ReplyOk(n)
    ensures DataChannelOk(s) ==> DataChannelOk(n)
  {
    assert forall p :: DataPacketOk(s, p) ==> DataPacketOk(n, p);
  }

  lemma AckTailOk(s: Sys)
    requires AckChannelOk(s) && s.acks != []
    ensures AckChannelOk(s.(acks := s.acks[1..]))
  {
    var n := s.(acks := s.acks[1..]);
    forall i | 0 <= i < |n.acks|
      ensures n.acks[i] == s.acks[i + 1] && AckPacketOk(n, n.acks[i])
    {
      assert AckPacketOk(s, s.acks[i + 1]);
    }
  }

  /**
    The slot an ACK frees holds exactly the index the ACK is about: the SEQ byte
    never stands for another index.
   */
  lemma AckIsUnambiguous(s: Sys, i: nat)
    requires Inv(s) && s.acks != [] && s.acks[0].d.Good? && s.acks[0].d.frame.kind == FrameType.Ack
    requires i < |s.w.ix| && Carries(s.w.tx.slots[i], s.acks[0].d.frame.num)
    ensures s.w.ix[i] == s.acks[0].ix
    ensures s.w.tx.slots[i].value.kind.Data? <==> s.acks[0].ix < s.w.next
    ensures s.acks[0].ix >= s.w.next ==> s.rx.finishSeq.Some?
  {
    var p := s.acks[0];
    assert AckPacketOk(s, p);
    SlotIndexBound(s.w, i);
    if Accepted(s.got, s.rx.buf, p.ix) {
      AcceptedWasOffered(s, p.ix);
    }
    SeqOfInjective(s.w.ix[i], p.ix);
  }

  lemma FreedSenderOk(s: Sys, i: nat, t: Model)
    requires SenderOk(s.w, s.offered, s.acked, s.finishing)
    requires i < |s.w.ix| && s.w.tx.slots[i].Some? && s.w.tx.slots[i].value.kind.Data?
    requires !Terminal(s.w.tx.state) && s.w.tx.out.Idle()
    requires t == s.w.tx.(slots := s.w.tx.slots[i := None], state := t.state) && !Terminal(t.state)
    requires SendWindow.Inv(s.w.(tx := t))
    ensures SenderOk(s.w.(tx := t), s.offered, s.acked + {s.w.ix[i]}, s.finishing)
  {
    SlotIndexBound(s.w, i);
    hide SendWindow.Inv;
    var w := s.w.(tx := t);
    assert |w.ix| == |w.tx.slots|;
    forall k: nat | k < w.next && k !in s.acked + {s.w.ix[i]}
      ensures InSlot(w, k)
    {
      assert InSlot(s.w, k);
      var j :| 0 <= j < |s.w.ix| && s.w.tx.slots[j].Some? && s.w.tx.slots[j].value.kind.Data? && s.w.ix[j] == k;
      assert w.tx.slots[j] == s.w.tx.slots[j];
    }
    assert forall j :: 0 <= j < |w.ix| ==> !IsSession(w.tx.slots[j]) && !IsSession(s.w.tx.slots[j]);
  }

  lemma AckedAckChannelOk(s: Sys, ix: nat)
    requires AckChannelOk(s) && s.acks != [] && IsDataAck(s.acks[0], s.w.next) && s.acks[0].ix == ix
    requires ReceiverOk(s)
    ensures AckChannelOk(s.(acks := s.acks[1..], acked := s.acked + {ix}))
  {
    AckTailOk(s);
    assert AckPacketOk(s, s.acks[0]);
    var n := s.(acks := s.acks[1..], acked := s.acked + {ix});
    var m := s.(acks := s.acks[1..]);
    forall i | 0 <= i < |n.acks|
      ensures AckPacketOk(n, n.acks[i])
    {
      assert AckPacketOk(m, m.acks[i]);
    }
    forall j | 0 <= j < |n.acks| && IsDataAck(n.acks[j], n.w.next)
      ensures ix < n.acks[j].ix + n.rx.limit
    {
      assert n.acks[j] == s.acks[j + 1];
    }
  }

  /** The effect of an ACK that finds its slot. */
  lemma AckStepFacts(s: Sys, i: nat)
    requires Inv(s) && WillRead(s.w.tx) && s.acks != []
    requires s.acks[0].d.Good? && s.acks[0].d.frame.kind == FrameType.Ack
    requires FindSeq(s.w.tx.slots, s.acks[0].d.frame.num) == Some(i)
    ensures
      var t, n := s.w.tx, TxFrameStep(s);
      && n == s.(w := n.w, acks := s.acks[1..], acked := n.acked)
      && n.w == s.w.(tx := n.w.tx)
      && n.w.tx == t.(slots := t.slots[i := None], state := n.w.tx.state)
      && (t.slots[i].value.kind.Data? ==> !Terminal(n.w.tx.state) && n.acked == s.acked + {s.w.ix[i]})
      && (t.slots[i].value.kind.Finish? ==> n.w.tx.state == Tx.TxState.Finished && n.acked == s.acked + {})
    ensures SendWindow.Inv(TxFrameStep(s).w)
  {
    SendWindow.ControlKeepsInv(s.w, s.acks[0].d.frame);
    SlotIndexBound(s.w, i);
    hide SendWindow.Inv;
    assert s.w.tx.slots[i].value.written;
  }

  lemma TxAckKeepsInv(s: Sys)
    requires Inv(s) && WillRead(s.w.tx) && s.acks != []
    requires s.acks[0].d.Good? && s.acks[0].d.frame.kind == FrameType.Ack
    ensures Inv(TxFrameStep(s))
  {
    var p, f := s.acks[0], s.acks[0].d.frame;
    var n := TxFrameStep(s);
    AckTailOk(s);
    match FindSeq(s.w.tx.slots, f.num) {
      case None =>
        hide SenderOk, ReceiverOk, DataChannelOk, AckChannelOk, ReplyOk;
        assert s.acked + {} == s.acked;
        AcksOnlyOk(s, n);
      case Some(i) =>
        AckIsUnambiguous(s, i);
        AckStepFacts(s, i);
        SlotIndexBound(s.w, i);
        hide ReceiverOk, DataChannelOk, AckChannelOk, ReplyOk, SendWindow.Inv, OnControl, TxFrameStep, FindSeq;
        var m := s.(acks := n.acks, acked := n.acked);
        if s.w.tx.slots[i].value.kind.Data? {
          FreedSenderOk(s, i, n.w.tx);
          AckedAckChannelOk(s, p.ix);
        } else {
          FinishedSenderOk(s, i, n.w.tx);
          assert s.acked + {} == s.acked;
        }
        hide SenderOk;
        AcksOnlyOk(s, m);
        SenderMovedOk(m, n);
    }
  }

  lemma FinishedSenderOk(s: Sys, i: nat, t: Model)
    requires SenderOk(s.w, s.offered, s.acked, s.finishing)
    requires i < |s.w.ix| && s.w.tx.slots[i].Some? && !s.w.tx.slots[i].value.kind.Data?
    requires !Terminal(s.w.tx.state) && s.w.tx.out.Idle()
    requires t == s.w.tx.(slots := s.w.tx.slots[i := None], state := Tx.TxState.Finished)
    requires SendWindow.Inv(s.w.(tx := t))
    ensures SenderOk(s.w.(tx := t), s.offered, s.acked, s.finishing)
  {
    assert IsSession(s.w.tx.slots[i]);
    assert Empty(t.slots);
  }

  lemma NackKeepsFlights(t: Model, num: seqno)
    requires t.Coherent() && WillRead(t)
    ensures
      var n := OnNack(t, num).0;
      && n.out == t.out && n.writing == t.writing && n.limit == t.limit && |n.slots| == |t.slots|
      && (n.state == Tx.TxState.Failed || (!Terminal(n.state)
          && forall j :: 0 <= j < |t.slots| ==> SameFlight(t.slots[j], n.slots[j])))
  {
    hide NextToWrite, SessionAlone, Empty;
  }

  lemma NackSenderOk(s: Sys, num: seqno)
    requires Inv(s) && WillRead(s.w.tx)
    ensures
      var n := s.(w := s.w.(tx := OnNack(s.w.tx, num).0));
      SenderOk(n.w, n.offered, n.acked, n.finishing) && SenderMoved(s, n)
  {
    SendWindow.ControlKeepsInv(s.w, NackFrame(num));
    NackKeepsFlights(s.w.tx, num);
    hide NextToWrite, SendWindow.Inv, SenderOk, ReceiverOk, DataChannelOk, AckChannelOk, ReplyOk, OnNack, SameFlight;
    var w := s.w.(tx := OnNack(s.w.tx, num).0);
    if w.tx.state == Tx.TxState.Failed {
      GaveUpSenderOk(s, w);
    } else {
      KeptSenderOk(s, w);
    }
  }

  lemma TxFrameKeepsInv(s: Sys)
    requires Inv(s)
    ensures Inv(TxFrameStep(s))
  {
    if WillRead(s.w.tx) && s.acks != [] {
      var p := s.acks[0];
      assert AckPacketOk(s, p);
      if p.d.Good? && p.d.frame.kind == FrameType.Ack {
        TxAckKeepsInv(s);
      } else {
        AckTailOk(s);
        var m := s.(acks := s.acks[1..]);
        if p.d.Good? {
          NackSenderOk(s, p.d.frame.num);
        }
        hide SenderOk, ReceiverOk, DataChannelOk, AckChannelOk, ReplyOk, OnNack;
        AcksOnlyOk(s, m);
        if p.d.Good? {
          SenderMovedOk(m, TxFrameStep(s));
        }
      }
    }
  }
}
