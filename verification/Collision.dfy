/**
  Two sessions that end in the same poll, one in each direction: the pump
  reports one completion for both.  This is a run of the code from power-up in
  which it happens, poll by poll.
 */
module Collision {
  import opened Prelude
  import opened Wire
  import opened Framing
  import Rx
  import Tx
  import opened Pump
  import opened Exchange

  const FLIGHT: Tx.Flight := Tx.Flight(Tx.FlightKind.Finish, 0, 0, false, 0)

  /** The peer's FINISH, which is also ours, and the ACK that answers either. */
  function Finish(): Word { ToBytes(Tx.FrameOf(FLIGHT)) }
  function Ack(): Word { ToBytes(AckFrame(0)) }

  /** Our FINISH after `k` polls: written in the first four, its ACK read in the next four. */
  predicate Speaking(t: Tx.Model, k: nat)
    requires k <= 8
  {
    && t.Coherent() && !t.asm.resync && t.inflight.Some?
    && t.inflight.value.kind == FLIGHT.kind && t.inflight.value.num == 0
    && (t.inflight.value.waiting <==> k >= 4)
    && (if k == 0 || k >= 4 then t.out.Idle() else t.out == Outgoing(Finish(), k))
    && t.asm.buf == if k <= 4 then [] else Ack()[..k - 4]
  }

  /** The peer's FINISH after `k` polls: it comes one poll later, and its ACK is written in the last four. */
  predicate Listening(r: Rx.Model, k: nat)
    requires k <= 7
  {
    && r.Coherent() && !r.asm.resync && !r.abortLatched
    && if k <= 4 then
         r.out.Idle() && RxOpen(r, 0) && r.asm.buf == Finish()[..if k == 0 then 0 else k - 1]
       else
         r.out == Outgoing(Ack(), k - 4) && r.pending == Some(Reply(FLIGHT)) && r.asm.buf == []
  }

  predicate At(p: Model, k: nat)
    requires k <= 7
  {
    p.Coherent() && !p.pendingCompleted && !p.txDoneSeen && Speaking(p.tx, k) && Listening(p.rx, k)
  }

  /** Poll number `k`: what the two ports have to read in it. */
  function PollAt(k: nat): (e: Event)
    requires k <= 7
    ensures e.PollBoth?
  {
    PollBoth(Io(true, if 1 <= k <= 4 then GotByte(Finish()[k - 1]) else NoByte),
             Io(true, if k >= 4 then GotByte(Ack()[k - 4]) else NoByte))
  }

  lemma SameFrame(f: Tx.Flight)
    requires f.kind == FLIGHT.kind && f.num == 0
    ensures ToBytes(Tx.FrameOf(f)) == Finish()
  {
  }

  lemma Speaks(t: Tx.Model, k: nat)
    requires k <= 6 && Speaking(t, k)
    ensures
      var p := Tx.Poll(t, PollAt(k).txIo);
      p.result == Ok(Tx.TxPoll.Pending) && Speaking(p.next.(mark := Tx.NO_MARK), k + 1)
  {
    hide ToBytes, Tx.Poll;
    var io := PollAt(k).txIo;
    SameFrame(t.inflight.value);
    if k <= 3 {
      TxWrites(t, io);
    } else {
      NextByte(t.asm, Ack());
      TxReads(t, io);
    }
  }

  lemma Listens(r: Rx.Model, k: nat)
    requires k <= 6 && Listening(r, k)
    ensures
      var p := Rx.Poll(r, PollAt(k).rxIo);
      p.result == Ok(Rx.PollOutcome.Pending) && Listening(p.next, k + 1)
  {
    hide ToBytes, Rx.Poll;
    var io := PollAt(k).rxIo;
    if k == 0 {
      RxRests(r, io);
    } else if k <= 4 {
      NextByte(r.asm, Finish());
      if k <= 3 { RxReads(r, io); } else { RxAccepts(r, io, FLIGHT, 0); }
    } else {
      AnswerByte(r, io);
    }
  }

  /** Seven polls in which no session ends. */
  lemma NextPoll(p: Model, k: nat)
    requires k <= 6 && At(p, k)
    ensures WentWell(p, PollAt(k)) && Ends(p, PollAt(k)) == 0 && At(Next(p, PollAt(k)), k + 1)
  {
    hide Tx.Poll, Rx.Poll, Speaking, Listening, PollAt;
    Listens(p.rx, k);
    Speaks(p.tx, k);
    BothHalves(p, PollAt(k).rxIo, PollAt(k).txIo);
  }

  /** The eighth, in which both do. */
  lemma LastPoll(p: Model)
    requires At(p, 7)
    ensures WentWell(p, PollAt(7)) && Ends(p, PollAt(7)) == 2
    ensures Poll(p, PollAt(7).rxIo, PollAt(7).txIo).result == Ok(Completed)
    ensures !Next(p, PollAt(7)).pendingCompleted
  {
    hide ToBytes, Tx.Poll, Rx.Poll;
    AnswerLast(p.rx, PollAt(7).rxIo, FLIGHT, 0);
    NextByte(p.tx.asm, Ack());
    TxAcked(p.tx, PollAt(7).txIo, Ack());
    BothHalves(p, PollAt(7).rxIo, PollAt(7).txIo);
  }

  /** The polls from number `k` on. */
  function Rest(k: nat): seq<Event>
    requires k <= 8
    decreases 8 - k
  {
    if k == 8 then [] else [PollAt(k)] + Rest(k + 1)
  }

  lemma {:induction false} RestCollides(p: Model, k: nat)
    requires p.Coherent() && k <= 7 && At(p, k)
    ensures Clean(p, Rest(k)) && Collisions(p, Rest(k)) == 1
    decreases 8 - k
  {
    hide At, Next, Ends, WentWell, PollAt;
    assert Rest(k)[1..] == Rest(k + 1);
    if k == 7 {
      LastPoll(p);
    } else {
      NextPoll(p, k);
      RestCollides(Next(p, PollAt(k)), k + 1);
    }
  }

  /**
    Power up, offer FINISH, and let the peer's FINISH and its ACK of ours arrive
    a poll apart: no poll fails or reports ABORT, and at the end one of the two
    sessions that ended was never reported and never will be.
   */
  lemma TwoEndsOneReport(policy: Tx.RetryPolicy) returns (events: seq<Event>)
    ensures Clean(Fresh(policy), events)
    ensures Unreported(RunFromStart(policy, events)) == 1
  {
    hide ToBytes, Run;
    events := [OfferEnd] + Rest(0);
    var p := Next(Fresh(policy), OfferEnd);
    assert events[1..] == Rest(0);
    assert At(p, 0);
    RestCollides(p, 0);
    NothingIsLost(policy, events);
  }
}
