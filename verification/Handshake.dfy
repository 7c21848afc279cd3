/**
  Opening a session of the selective-repeat pair, poll by poll, from whatever
  the two ends were left with: START goes out, is answered and reported on both
  sides once, and the first byte after it is DATA 0 on both.
 */
module Handshake {
  import opened Prelude
  import opened Wire
  import opened Framing
  import Rx
  import Tx
  import WindowRx
  import WindowTx
  import Retry
  import Timers
  import Answers
  import opened Polls
  import opened WindowFlights

  /** Slot 0 is the only flight; its frame is out and has heard `k` ticks of silence. */
  predicate Waits(t: WindowTx.Model, f: Frame, k: nat) {
    && Listening(t)
    && t.slots[0].Some? && !t.slots[0].value.Unsent() && Meaning(t.slots[0].value) == f
    && t.slots[0].value.num == f.num && t.slots[0].value.emptyTicks == k < Retry.Patience(t.policy)
    && (forall j :: 0 < j < |t.slots| ==> t.slots[j] == None)
  }

  lemma WaitsOne(t: WindowTx.Model, f: Frame, k: nat, io: Io)
    requires Waits(t, f, k) && k + 1 < Retry.Patience(t.policy) && io.read.NoByte?
    ensures
      var p := WindowTx.Poll(t, io);
      && p.result == Ok(Tx.TxPoll.Pending) && p.calls.wrote == None
      && Waits(p.next, f, k + 1) && p.next.nextSeq == t.nextSeq && p.next.policy == t.policy
  {
    hide WindowTx.NextToWrite, WindowTx.SessionAlone, WindowTx.Empty;
    assert Timers.Counting(t);
    assert !Timers.AnyHopeless(t, 0);
    Timers.SilentPoll(t, io);
    hide WindowTx.Poll;
    StillListening(WindowTx.Poll(t, io).next);
  }

  lemma StillListening(t: WindowTx.Model)
    requires t.Coherent() && t.out.Idle() && !WindowTx.Terminal(t.state) && t.asm == FRESH_PLAIN
    requires t.slots[0].Some? && !t.slots[0].value.Unsent()
    requires forall j :: 0 < j < |t.slots| ==> t.slots[j] == None
    ensures Listening(t)
  {
    hide WindowTx.SessionAlone, WindowTx.Empty;
    AllSent(t);
  }

  /** Silence shorter than the timer waits for changes nothing but the timer. */
  lemma {:induction false} WaitsOut(t: WindowTx.Model, f: Frame, k: nat, ios: seq<Io>)
    requires t.Coherent() && Waits(t, f, k) && k + |ios| < Retry.Patience(t.policy) && Silent(ios)
    ensures
      var r := OfWindowSender(t, ios);
      && r.said == AllPending(|ios|) && r.wrote == []
      && Waits(r.end, f, k + |ios|) && r.end.nextSeq == t.nextSeq && r.end.policy == t.policy
    decreases |ios|
  {
    hide WindowTx.Poll, Waits;
    if ios != [] {
      WaitsOne(t, f, k, ios[0]);
      WaitsOut(WindowTx.Poll(t, ios[0]).next, f, k + 1, ios[1..]);
    }
  }

  /** Four polls after an offer into an empty window. */
  lemma OfferWaits(t: WindowTx.Model, n: WindowTx.Model, f: Frame, ios: seq<Io>)
    requires t.Coherent() && Inserted(t, n, f) && !t.asm.resync && Takes(ios, FRAME_LEN)
    ensures
      var r := OfWindowSender(n, ios);
      && r.said == AllPending(4)
      && |r.wrote| == FRAME_LEN && FromBytes(r.wrote) == Good(f)
      && Waits(r.end, f, 0) && r.end.nextSeq == n.nextSeq && r.end.policy == t.policy
  {
    hide OfWindowSender, FromBytes, WindowTx.NextToWrite, WindowTx.SessionAlone, WindowTx.Empty, Listening;
    OfferGoesOut(n, ios, 0);
  }

  /** The two ends after START has been answered: both are in a new session at SEQ 0. */
  predicate Open(t: WindowTx.Model, r: WindowRx.Model) {
    && t.Coherent() && WindowTx.Empty(t.slots) && t.state == Tx.TxState.Idle && t.nextSeq == 0 && t.asm == FRESH_PLAIN
    && Answers.Listening(r) && Answers.SessionOf(r) == Answers.Session(0, r.limit, None, false)
  }

  /** What the sender reports when its only flight, this frame, has been acknowledged. */
  function Report(f: Frame): Tx.TxPoll {
    match f.kind
    case Start => Tx.TxPoll.SessionReady
    case Finish => Tx.TxPoll.TransferDone
    case Abort => Tx.TxPoll.Aborted
    case _ => Tx.TxPoll.Acked
  }

  lemma WaitingSlot(t: WindowTx.Model, f: Frame, k: nat)
    requires Waits(t, f, k)
    ensures Listening(t) && IsAbout(t, f.num, 0)
    ensures Settled(t.slots[0].value.kind) == Report(f)
    ensures f.kind == FrameType.Start <==> t.slots[0].value.kind.Start?
    ensures WindowTx.Empty(t.slots[0 := None])
  {
  }

  /** The second half: the sender, however long it waited within its timeout, hears the ACK of its frame. */
  lemma {:induction false} FlightIsAcked(t: WindowTx.Model, f: Frame, wait: seq<Io>, hear: seq<Io>, word: Word)
    requires t.Coherent() && Waits(t, f, 0)
    requires Silent(wait) && |wait| < Retry.Patience(t.policy)
    requires Hears(hear, word) && FromBytes(word) == Good(AckFrame(f.num))
    ensures
      var c := OfWindowSender(t, wait);
      var d := OfWindowSender(c.end, hear);
      && c.said + d.said == AllPending(|wait| + 3) + [Ok(Report(f))]
      && d.end.Coherent() && WindowTx.Empty(d.end.slots) && d.end.asm == FRESH_PLAIN
      && d.end.nextSeq == (if f.kind == FrameType.Start then 0 else t.nextSeq)
      && (Report(f) == Tx.TxPoll.Acked || Report(f) == Tx.TxPoll.SessionReady ==> d.end.state == Tx.TxState.Idle)
  {
    hide OfWindowSender, FromBytes, WindowTx.SessionAlone, WindowTx.Empty, Listening, IsAbout, Waits, Hears;
    WaitsOut(t, f, 0, wait);
    var c := OfWindowSender(t, wait).end;
    WaitingSlot(c, f, |wait|);
    AckSettles(c, hear, word, 0);
    assert AllPending(|wait|) + (AllPending(3) + [Ok(Report(f))]) == AllPending(|wait| + 3) + [Ok(Report(f))];
  }

  /** The first half of any exchange the receiver answers: the frame is written, and its ACK. */
  lemma FlightIsAnswered(n: WindowTx.Model, t: WindowTx.Model, f: Frame, r: WindowRx.Model, write: seq<Io>,
                         reply: seq<Io>)
    requires t.Coherent() && Inserted(t, n, f) && !t.asm.resync && Takes(write, FRAME_LEN)
    requires Answers.Listening(r) && |reply| == 7 && Takes(reply[3..], FRAME_LEN)
    requires Hears(reply[..4], OfWindowSender(n, write).wrote)
    requires
      var v := Answers.Judge(Answers.SessionOf(r), Good(f));
      v.Owes? && v.reply == AckFrame(f.num)
    ensures
      var a := OfWindowSender(n, write);
      && a.said == AllPending(4) && |a.wrote| == FRAME_LEN && FromBytes(a.wrote) == Good(f)
      && Waits(a.end, f, 0) && a.end.nextSeq == n.nextSeq && a.end.policy == t.policy
    ensures
      var v := Answers.Judge(Answers.SessionOf(r), Good(f));
      var b := OfWindowReceiver(r, reply);
      && b.said == Answers.Nothings(6) + [Ok(v.report)]
      && |b.wrote| == FRAME_LEN && FromBytes(b.wrote) == Good(AckFrame(f.num))
      && (!v.report.Delivered? ==>
            Answers.SessionOf(b.end) == Answers.Entered(Answers.SessionOf(r), Good(f)) && Answers.Listening(b.end))
  {
    hide OfWindowSender, OfWindowReceiver, FromBytes, ToBytes, Waits, Answers.Judge, Answers.Entered, Hears;
    OfferWaits(t, n, f, write);
    Answers.WordIsAnswered(r, reply, OfWindowSender(n, write).wrote);
    DecodeEncode(AckFrame(f.num));
  }

  /**
    The whole handshake, whatever SEQ, latches and stored bytes the two ends were
    left with: the word written is START; the receiver reports `Started` once, in
    the poll that completes ACK 0; the sender reports `SessionReady` once, in the
    poll that reads its last byte, after any silence shorter than its timeout;
    and both ends are then at SEQ 0.
   */
  lemma StartHandshake(t: WindowTx.Model, r: WindowRx.Model, write: seq<Io>, reply: seq<Io>, wait: seq<Io>,
                       hear: seq<Io>)
    requires t.Coherent() && WindowTx.Empty(t.slots) && !t.asm.resync && Takes(write, FRAME_LEN)
    requires Answers.Listening(r) && |reply| == 7 && Takes(reply[3..], FRAME_LEN)
    requires Hears(reply[..4], OfWindowSender(WindowTx.OfferStart(t).0, write).wrote)
    requires Silent(wait) && |wait| < Retry.Patience(t.policy)
    requires Hears(hear, OfWindowReceiver(r, reply).wrote)
    ensures WindowTx.OfferStart(t).1.Ok?
    ensures
      var a := OfWindowSender(WindowTx.OfferStart(t).0, write);
      var b := OfWindowReceiver(r, reply);
      var c := OfWindowSender(a.end, wait);
      var d := OfWindowSender(c.end, hear);
      && |a.wrote| == FRAME_LEN && FromBytes(a.wrote) == Good(StartFrame())
      && |b.wrote| == FRAME_LEN && FromBytes(b.wrote) == Good(AckFrame(0))
      && a.said + (c.said + d.said) == AllPending(7 + |wait|) + [Ok(Tx.TxPoll.SessionReady)]
      && b.said == Answers.Nothings(6) + [Ok(Rx.PollOutcome.Started)]
      && Open(d.end, b.end)
  {
    hide OfWindowSender, OfWindowReceiver, FromBytes, Waits, WindowTx.OfferStart, WindowTx.Empty, Inserted, Hears;
    var n := WindowTx.OfferStart(t).0;
    OffersInsert(t, 0);
    FlightIsAnswered(n, t, StartFrame(), r, write, reply);
    FlightIsAcked(OfWindowSender(n, write).end, StartFrame(), wait, hear, OfWindowReceiver(r, reply).wrote);
    SaidInAll(|wait|, Tx.TxPoll.SessionReady);
  }

  lemma SaidInAll(n: nat, last: Tx.TxPoll)
    ensures AllPending(4) + (AllPending(n + 3) + [Ok(last)]) == AllPending(7 + n) + [Ok(last)]
  {
  }

  /** The first byte of the session is DATA 0, the receiver delivers it, and the sender is told once. */
  lemma FirstByteIsDataZero(t: WindowTx.Model, r: WindowRx.Model, byte: u8, write: seq<Io>, reply: seq<Io>,
                            wait: seq<Io>, hear: seq<Io>)
    requires Open(t, r) && Takes(write, FRAME_LEN)
    requires |reply| == 7 && Takes(reply[3..], FRAME_LEN)
    requires Hears(reply[..4], OfWindowSender(WindowTx.Offer(t, byte).0, write).wrote)
    requires Silent(wait) && |wait| < Retry.Patience(t.policy)
    requires Hears(hear, OfWindowReceiver(r, reply).wrote)
    ensures
      var a := OfWindowSender(WindowTx.Offer(t, byte).0, write);
      var b := OfWindowReceiver(r, reply);
      var c := OfWindowSender(a.end, wait);
      var d := OfWindowSender(c.end, hear);
      && |a.wrote| == FRAME_LEN && FromBytes(a.wrote) == Good(DataFrame(0, byte))
      && |b.wrote| == FRAME_LEN && FromBytes(b.wrote) == Good(AckFrame(0))
      && a.said + (c.said + d.said) == AllPending(7 + |wait|) + [Ok(Tx.TxPoll.Acked)]
      && b.said == Answers.Nothings(6) + [Ok(Rx.PollOutcome.Delivered(byte))]
      && WindowTx.Empty(d.end.slots) && d.end.nextSeq == 1
  {
    hide OfWindowSender, OfWindowReceiver, FromBytes, Waits, WindowTx.Offer, WindowTx.Empty, Inserted, Hears;
    var n := WindowTx.Offer(t, byte).0;
    OffersInsert(t, byte);
    FlightIsAnswered(n, t, DataFrame(0, byte), r, write, reply);
    FlightIsAcked(OfWindowSender(n, write).end, DataFrame(0, byte), wait, hear, OfWindowReceiver(r, reply).wrote);
    SaidInAll(|wait|, Tx.TxPoll.Acked);
  }

  /**
    ABORT, offered at any moment, even with half a frame out: it goes out in
    place of everything else, a receiver that is not finished reports `Aborted`
    once and is closed at SEQ 0, and so does the sender once it hears ACK 0.
   */
  lemma AbortHandshake(t: WindowTx.Model, r: WindowRx.Model, write: seq<Io>, reply: seq<Io>, wait: seq<Io>,
                       hear: seq<Io>)
    requires t.Coherent() && WindowTx.OfferAbort(t).0 != t && !t.asm.resync && Takes(write, FRAME_LEN)
    requires Answers.Listening(r) && r.finishSeq == None && |reply| == 7 && Takes(reply[3..], FRAME_LEN)
    requires Hears(reply[..4], OfWindowSender(WindowTx.OfferAbort(t).0, write).wrote)
    requires Silent(wait) && |wait| < Retry.Patience(t.policy)
    requires Hears(hear, OfWindowReceiver(r, reply).wrote)
    ensures
      var a := OfWindowSender(WindowTx.OfferAbort(t).0, write);
      var b := OfWindowReceiver(r, reply);
      var c := OfWindowSender(a.end, wait);
      var d := OfWindowSender(c.end, hear);
      && |a.wrote| == FRAME_LEN && FromBytes(a.wrote) == Good(AbortFrame())
      && |b.wrote| == FRAME_LEN && FromBytes(b.wrote) == Good(AckFrame(0))
      && a.said + (c.said + d.said) == AllPending(7 + |wait|) + [Ok(Tx.TxPoll.Aborted)]
      && b.said == Answers.Nothings(6) + [Ok(Rx.PollOutcome.Aborted)]
      && Answers.SessionOf(b.end) == Answers.Session(0, r.limit, None, true)
      && WindowTx.Empty(d.end.slots)
  {
    hide OfWindowSender, OfWindowReceiver, FromBytes, Waits, WindowTx.OfferAbort, WindowTx.Empty, Inserted, Hears;
    var n := WindowTx.OfferAbort(t).0;
    OffersInsert(t, 0);
    FlightIsAnswered(n, t, AbortFrame(), r, write, reply);
    FlightIsAcked(OfWindowSender(n, write).end, AbortFrame(), wait, hear, OfWindowReceiver(r, reply).wrote);
    SaidInAll(|wait|, Tx.TxPoll.Aborted);
  }
}
