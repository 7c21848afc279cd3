/**
  What the stop-and-wait sender does with one flight, poll by poll: which bytes
  go on the wire for it, and what each word the peer can answer with does to it.
 */
module Flights {
  import opened Prelude
  import opened Wire
  import opened Framing
  import Tx
  import Exchange
  import opened Polls

  // ------------------------------------------------------------ onto the wire

  /** What a flight says to the peer. */
  function Meaning(f: Tx.Flight): Frame {
    match f.kind
    case Data(byte) => DataFrame(f.num, byte)
    case Start => StartFrame()
    case Finish => FinishFrame(f.num)
    case Abort => AbortFrame()
  }

  lemma MeaningOnWire(f: Tx.Flight)
    ensures FromBytes(ToBytes(Tx.FrameOf(f))) == Good(Meaning(f))
  {
    hide FromBytes, ToBytes;
    DecodeEncode(Meaning(f));
    assert Tx.FrameOf(f) == Meaning(f);
  }

  /** `k` bytes of the flight's frame are out. */
  function Out(t: Tx.Model): nat {
    if t.out.Idle() then 0 else t.out.pos
  }

  lemma WritesByte(t: Tx.Model, io: Io, word: Word)
    requires t.Coherent() && t.inflight.Some? && !t.inflight.value.waiting && io.writeOk
    requires word == ToBytes(Tx.FrameOf(t.inflight.value)) && (!t.out.Idle() ==> t.out.bytes == word)
    ensures Out(t) < FRAME_LEN
    ensures
      var p, k := Tx.Poll(t, io), Out(t);
      var n := t.(out := Outgoing(word, k + 1));
      && p.result == Ok(Tx.TxPoll.Pending) && p.calls == Calls(Some(word[k]), false)
      && p.next == if k < 3 then n.(state := Tx.TxState.Sending, mark := Tx.NO_MARK)
                   else n.(inflight := Some(t.inflight.value.(waiting := true, emptyTicks := 0)),
                           asm := t.asm.(buf := []), state := Tx.TxState.WaitingAck,
                           mark := Tx.IoMark(true, false, false))
  {
    hide ToBytes;
  }

  /** The flight is on the wire and nothing of an answer was read yet. */
  function Sent(t: Tx.Model, word: Word): Tx.Model
    requires t.inflight.Some?
  {
    t.(out := Outgoing(word, FRAME_LEN), inflight := Some(t.inflight.value.(waiting := true, emptyTicks := 0)),
       asm := t.asm.(buf := []), state := Tx.TxState.WaitingAck, mark := Tx.IoMark(true, false, false))
  }

  lemma FourBytesOut(t: Tx.Model, ios: seq<Io>, word: Word)
    requires t.Coherent() && t.inflight.Some? && !t.inflight.value.waiting && t.out.Idle()
    requires Takes(ios, FRAME_LEN) && word == ToBytes(Tx.FrameOf(t.inflight.value))
    ensures OfSender(t, ios) == Trace(Sent(t, word), AllPending(4), word)
  {
    hide Tx.Poll, ToBytes, OfSender;
    FourOfSender(t, ios);
    WritesByte(t, ios[0], word);
    var t1 := t.(out := Outgoing(word, 1), state := Tx.TxState.Sending, mark := Tx.NO_MARK);
    assert Tx.Poll(t, ios[0]).next == t1;
    WritesByte(t1, ios[1], word);
    var t2 := t1.(out := Outgoing(word, 2));
    assert Tx.Poll(t1, ios[1]).next == t2;
    WritesByte(t2, ios[2], word);
    var t3 := t1.(out := Outgoing(word, 3));
    assert Tx.Poll(t2, ios[2]).next == t3;
    WritesByte(t3, ios[3], word);
    assert [word[0]] + [word[1]] + [word[2]] + [word[3]] == word;
  }

  /** Four polls that can write put exactly the flight's frame on the wire, and then the sender waits. */
  lemma FlightGoesOut(t: Tx.Model, ios: seq<Io>)
    requires t.Coherent() && t.inflight.Some? && !t.inflight.value.waiting && t.out.Idle() && Takes(ios, FRAME_LEN)
    ensures
      var r := OfSender(t, ios);
      && r.said == AllPending(4)
      && |r.wrote| == FRAME_LEN && FromBytes(r.wrote) == Good(Meaning(t.inflight.value))
      && r.end == Sent(t, r.wrote)
  {
    hide ToBytes, FromBytes, OfSender, Sent;
    MeaningOnWire(t.inflight.value);
    FourBytesOut(t, ios, ToBytes(Tx.FrameOf(t.inflight.value)));
  }

  /**
    What every offer puts on the wire.  An ABORT replaces whatever was under
    way: of a frame half written no further byte goes out.
   */
  lemma OffersGoOut(t: Tx.Model, byte: u8, ios: seq<Io>)
    requires t.Coherent() && Takes(ios, FRAME_LEN)
    ensures
      var (n, r) := Tx.Offer(t, byte);
      r.Ok? ==> FromOffer(OfSender(n, ios), DataFrame(t.num, byte), t.policy)
    ensures
      var (n, r) := Tx.OfferStart(t);
      r.Ok? ==> FromOffer(OfSender(n, ios), StartFrame(), t.policy) && OfSender(n, ios).end.num == 0
    ensures
      var (n, r) := Tx.OfferFinish(t);
      r.Ok? ==> FromOffer(OfSender(n, ios), FinishFrame(t.num), t.policy)
    ensures
      var n := Tx.OfferAbort(t);
      n != t ==> FromOffer(OfSender(n, ios), AbortFrame(), t.policy) && OfSender(n, ios).end.num == 0
  {
    hide FromBytes, ToBytes, OfSender, FromOffer;
    var (d, rd) := Tx.Offer(t, byte);
    if rd.Ok? { OfferGoesOut(d, ios); }
    var (s, rs) := Tx.OfferStart(t);
    if rs.Ok? { OfferGoesOut(s, ios); }
    var (f, rf) := Tx.OfferFinish(t);
    if rf.Ok? { OfferGoesOut(f, ios); }
    var a := Tx.OfferAbort(t);
    if a != t { OfferGoesOut(a, ios); }
  }

  /**
    Bytes and FINISH are taken by an idle sender, START by any without a flight,
    ABORT always, though at most once; what is refused is refused with `NotIdle`
    and changes nothing.
   */
  lemma OffersTaken(t: Tx.Model, byte: u8)
    requires t.Coherent()
    ensures if t.state == Tx.TxState.Idle then Tx.Offer(t, byte).1 == Tx.OfferFinish(t).1 == Ok(())
            else Tx.Offer(t, byte) == Tx.OfferFinish(t) == (t, Err(NotIdle))
    ensures if t.inflight == None then Tx.OfferStart(t).1 == Ok(()) else Tx.OfferStart(t) == (t, Err(NotIdle))
    ensures Tx.OfferAbort(t) == t <==>
      if t.inflight == None then t.state == Tx.TxState.Aborted else t.inflight.value.kind.Abort?
    ensures Tx.OfferAbort(Tx.OfferAbort(t)) == Tx.OfferAbort(t)
  {
  }

  lemma OfferGoesOut(t: Tx.Model, ios: seq<Io>)
    requires t.Coherent() && t.inflight.Some? && !t.inflight.value.waiting && t.out.Idle() && Takes(ios, FRAME_LEN)
    requires t.inflight.value.retriesLeft == t.policy.maxRetries
    ensures FromOffer(OfSender(t, ios), Meaning(t.inflight.value), t.policy)
    ensures OfSender(t, ios).end.num == t.num
  {
    hide FromBytes, OfSender;
    FlightGoesOut(t, ios);
  }

  /** The four polls after an offer: the frame is out, and waits with every retry of the policy left. */
  predicate FromOffer(r: Trace<Tx.Model, Tx.TxPoll>, f: Frame, policy: Tx.RetryPolicy) {
    && r.said == AllPending(4)
    && |r.wrote| == FRAME_LEN && FromBytes(r.wrote) == Good(f)
    && Tx.WillRead(r.end) && Meaning(r.end.inflight.value) == f
    && r.end.inflight.value.retriesLeft == policy.maxRetries
  }

  // ------------------------------------------------------------ answers

  /** A waiting sender that has read nothing of the next word. */
  predicate Listening(t: Tx.Model) {
    t.Coherent() && Tx.WillRead(t) && t.asm == FRESH_PLAIN
  }

  function Acted(t: Tx.Model, d: Decoded): (n: (Tx.Model, Result<Tx.TxPoll>))
    requires t.Coherent() && Tx.WillRead(t)
    ensures n.0.Coherent()
  {
    if d.Good? then Tx.OnControl(t, d.frame) else (t, Ok(Tx.TxPoll.Pending))
  }

  lemma ReadsOne(t: Tx.Model, io: Io)
    requires t.Coherent() && Tx.WillRead(t) && io.read.GotByte? && |t.asm.buf| < 3
    ensures
      var u := t.(asm := t.asm.(buf := t.asm.buf + [io.read.byte]), mark := Tx.NO_MARK);
      && u.Coherent() && Tx.WillRead(u)
      && Tx.Poll(t, io) == Tx.Polled(u, Ok(Tx.TxPoll.Pending), Calls(None, true))
  {
    hide FromBytes;
    Exchange.TxReads(t, io);
  }

  /** Reading four bytes: the first three polls say nothing, the fourth acts on the word. */
  lemma FourReads(t: Tx.Model, ios: seq<Io>, word: Word)
    requires Listening(t) && Hears(ios, word)
    ensures t.(mark := Tx.NO_MARK).Coherent() && Tx.WillRead(t.(mark := Tx.NO_MARK))
    ensures
      var r, u := OfSender(t, ios), t.(mark := Tx.NO_MARK);
      r.said[..3] == AllPending(3) && r.wrote == [] && (r.end, r.said[3]) == Acted(u, FromBytes(word))
  {
    hide Tx.Poll, FromBytes, OfSender, Acted, Tx.WillRead, Tx.Model.Coherent;
    FourOfSender(t, ios);
    var u := t.(mark := Tx.NO_MARK);
    ReadsOne(t, ios[0]);
    var t1 := u.(asm := Assembly([] + [word[0]], false));
    ReadsOne(t1, ios[1]);
    var t2 := u.(asm := Assembly([] + [word[0]] + [word[1]], false));
    ReadsOne(t2, ios[2]);
    var t3 := u.(asm := Assembly([] + [word[0]] + [word[1]] + [word[2]], false));
    assert t3.asm.buf + [word[3]] == word;
    LastRead(t3, ios[3], word);
    assert t3.(asm := FRESH_PLAIN) == u;
  }

  lemma LastRead(t: Tx.Model, io: Io, word: Word)
    requires t.Coherent() && Tx.WillRead(t) && io.read.GotByte? && !t.asm.resync && t.mark == Tx.NO_MARK
    requires |t.asm.buf| == 3 && t.asm.buf + [io.read.byte] == word
    ensures
      var p, u := Tx.Poll(t, io), t.(asm := FRESH_PLAIN);
      && u.Coherent() && Tx.WillRead(u)
      && p.calls == Calls(None, true)
      && (p.next, p.result) == Acted(u, FromBytes(word))
  {
    hide FromBytes, KnownType, Tx.OnControl;
    assert Push(t.asm, io.read.byte) == (FRESH_PLAIN, Some(word));
  }

  /** ACK of the flight's own SEQ ends it, with the answer its kind calls for. */
  lemma AckSettles(t: Tx.Model, ios: seq<Io>, word: Word)
    requires Listening(t) && Hears(ios, word)
    requires FromBytes(word) == Good(AckFrame(t.inflight.value.num))
    ensures
      var r, kind := OfSender(t, ios), t.inflight.value.kind;
      && r.said == AllPending(3) + [Ok(Exchange.Settled(kind))] && r.wrote == []
      && r.end.inflight == None
      && r.end.state == (if kind.Finish? then Tx.TxState.Finished
                         else if kind.Abort? then Tx.TxState.Aborted
                         else Tx.TxState.Idle)
      && r.end.num == (if kind.Data? then Advance(t.num) else if kind.Start? then 0 else t.num)
  {
    hide FromBytes, OfSender;
    FourReads(t, ios, word);
    LastOfFour(OfSender(t, ios).said);
  }

  /**
    NACK of the flight's own SEQ, with retries left: none of the four polls that
    read it says anything, and the next four polls that can write put the same
    frame on the wire again, one retry poorer.
   */
  lemma NackSendsAgain(t: Tx.Model, ios: seq<Io>, word: Word, again: seq<Io>)
    requires Listening(t) && Hears(ios, word) && Takes(again, FRAME_LEN)
    requires FromBytes(word) == Good(NackFrame(t.inflight.value.num)) && t.inflight.value.retriesLeft > 0
    ensures
      var heard := OfSender(t, ios);
      var wrote := OfSender(heard.end, again);
      && heard.said == AllPending(4) && heard.wrote == []
      && wrote.said == AllPending(4)
      && |wrote.wrote| == FRAME_LEN && FromBytes(wrote.wrote) == Good(Meaning(t.inflight.value))
      && Listening(wrote.end)
      && wrote.end.inflight ==
         Some(t.inflight.value.(retriesLeft := t.inflight.value.retriesLeft - 1, waiting := true, emptyTicks := 0))
      && wrote.end.num == t.num && wrote.end.policy == t.policy
  {
    hide FromBytes, OfSender;
    FourReads(t, ios, word);
    LastOfFour(OfSender(t, ios).said);
    FlightGoesOut(OfSender(t, ios).end, again);
  }

  /** NACK of the flight's own SEQ with no retry left: the last of the four polls fails, and so does every later one. */
  lemma NackExhausts(t: Tx.Model, ios: seq<Io>, word: Word, later: seq<Io>)
    requires Listening(t) && Hears(ios, word)
    requires FromBytes(word) == Good(NackFrame(t.inflight.value.num)) && t.inflight.value.retriesLeft == 0
    ensures
      var r := OfSender(t, ios);
      && r.said == AllPending(3) + [Err(RetriesExhausted)] && r.wrote == []
      && OfSender(r.end, later).wrote == []
      && forall k :: 0 <= k < |later| ==> OfSender(r.end, later).said[k] == Err(RetriesExhausted)
  {
    hide FromBytes, OfSender;
    FourReads(t, ios, word);
    LastOfFour(OfSender(t, ios).said);
    Rests(OfSender(t, ios).end, later);
  }

  /** ACK or NACK of another SEQ does nothing but restart the timer of the flight. */
  lemma OtherSeqRestartsTimer(t: Tx.Model, ios: seq<Io>, word: Word, num: seqno)
    requires Listening(t) && Hears(ios, word) && num != t.inflight.value.num
    requires FromBytes(word) == Good(AckFrame(num)) || FromBytes(word) == Good(NackFrame(num))
    ensures OfSender(t, ios) ==
      Trace(t.(inflight := Some(t.inflight.value.(emptyTicks := 0)), mark := Tx.NO_MARK), AllPending(4), [])
  {
    hide FromBytes, OfSender;
    FourReads(t, ios, word);
    LastOfFour(OfSender(t, ios).said);
  }

  /** A word that is not a control frame at all leaves the flight and its timer alone. */
  lemma StrangersAreIgnored(t: Tx.Model, ios: seq<Io>, word: Word)
    requires Listening(t) && Hears(ios, word)
    requires FromBytes(word).Good? ==> FromBytes(word).frame.kind in {FrameType.Data, FrameType.Start, FrameType.Finish}
    ensures OfSender(t, ios) == Trace(t.(mark := Tx.NO_MARK), AllPending(4), [])
  {
    hide FromBytes, OfSender;
    FourReads(t, ios, word);
    LastOfFour(OfSender(t, ios).said);
  }

  /** The peer's ABORT ends the flight: the last of the four polls says so, and nothing is written until a new offer. */
  lemma AbortCutsOff(t: Tx.Model, ios: seq<Io>, word: Word, later: seq<Io>)
    requires Listening(t) && Hears(ios, word) && FromBytes(word) == Good(AbortFrame())
    ensures
      var r := OfSender(t, ios);
      && r.said == AllPending(3) + [Ok(Tx.TxPoll.Aborted)] && r.wrote == []
      && r.end.state == Tx.TxState.Aborted
      && OfSender(r.end, later).wrote == []
      && forall k :: 0 <= k < |later| ==> OfSender(r.end, later).said[k] == Ok(Tx.TxPoll.Aborted)
  {
    hide FromBytes, OfSender;
    FourReads(t, ios, word);
    LastOfFour(OfSender(t, ios).said);
    Rests(OfSender(t, ios).end, later);
  }

  // ------------------------------------------------------------ at rest, and faults

  /** Without a flight the same answer comes for ever, and nothing is written. */
  lemma {:induction false} Rests(t: Tx.Model, ios: seq<Io>)
    requires t.Coherent() && t.inflight == None
    ensures
      var r := OfSender(t, ios);
      && r.end == t.(mark := if ios == [] then t.mark else Tx.NO_MARK) && r.wrote == []
      && forall k :: 0 <= k < |ios| ==> r.said[k] == AtRest(t.state)
    decreases |ios|
  {
    if ios != [] {
      RestsOnce(t, ios[0]);
      hide Tx.Poll, AtRest;
      Rests(t.(mark := Tx.NO_MARK), ios[1..]);
    }
  }

  lemma RestsOnce(t: Tx.Model, io: Io)
    requires t.Coherent() && t.inflight == None
    ensures Tx.Poll(t, io) == Tx.Polled(t.(mark := Tx.NO_MARK), AtRest(t.state), NO_CALLS)
  {
  }

  /**
    A transport that fails costs nothing: the poll says so, no byte counts as
    written or read, and the poll after it does what this one would have done.
   */
  lemma FaultsAreHarmless(t: Tx.Model, fault: Io, io: Io)
    requires t.Coherent() && t.inflight.Some?
    requires if Tx.WillWrite(t) then !fault.writeOk else fault.read.ReadFault?
    ensures
      var p := Tx.Poll(t, fault);
      && p.result == Err(TransportFault) && p.calls.wrote == None
      && Tx.Poll(p.next, io) == Tx.Poll(t, io)
  {
    hide FromBytes, ToBytes, Push;
  }
}
