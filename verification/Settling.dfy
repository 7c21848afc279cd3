/**
  What the polls of the selective-repeat sender report, over every run against
  any peer: each flight that was offered is reported once, as what it was, or is
  still in its slot, unless the whole window was given up or cancelled.
 */
module Settling {
  import opened Prelude
  import opened Wire
  import opened Framing
  import Tx
  import opened WindowTx
  import Retry
  import Pair = SelectiveRepeat

  /** How many slots hold a flight of this kind. */
  function Count(slots: Slots, kind: FlightKind): nat {
    if slots == [] then 0
    else (if slots[0].Some? && slots[0].value.kind == kind then 1 else 0) + Count(slots[1..], kind)
  }

  function One(s: Option<TxSlot>, kind: FlightKind): nat {
    if s.Some? && s.value.kind == kind then 1 else 0
  }

  lemma {:induction false} CountUpdate(slots: Slots, i: nat, s: Option<TxSlot>, kind: FlightKind)
    requires i < |slots|
    ensures Count(slots[i := s], kind) + One(slots[i], kind) == Count(slots, kind) + One(s, kind)
    decreases |slots|
  {
    if i == 0 {
      assert slots[0 := s][1..] == slots[1..];
    } else {
      CountUpdate(slots[1..], i - 1, s, kind);
      assert slots[i := s][1..] == slots[1..][i - 1 := s];
    }
  }

  lemma {:induction false} CountSame(a: Slots, b: Slots, kind: FlightKind)
    requires |a| == |b| && forall j :: 0 <= j < |a| ==> One(a[j], kind) == One(b[j], kind)
    ensures Count(a, kind) == Count(b, kind)
    decreases |a|
  {
    hide One;
    if a != [] {
      assert One(a[0], kind) == One(b[0], kind);
      CountSame(a[1..], b[1..], kind);
      CountStep(a, kind);
      CountStep(b, kind);
    }
  }

  lemma CountStep(slots: Slots, kind: FlightKind)
    requires slots != []
    ensures Count(slots, kind) == One(slots[0], kind) + Count(slots[1..], kind)
  {
  }

  lemma {:induction false} CountEmpty(slots: Slots, kind: FlightKind)
    requires Empty(slots)
    ensures Count(slots, kind) == 0
    decreases |slots|
  {
    if slots != [] {
      CountEmpty(slots[1..], kind);
    }
  }

  /** The kind of flight an answer is about. */
  predicate Reports(said: Result<TxPoll>, kind: FlightKind) {
    match kind
    case Data => said == Ok(Tx.TxPoll.Acked)
    case Start => said == Ok(Tx.TxPoll.SessionReady)
    case Finish => said == Ok(Tx.TxPoll.TransferDone)
    case Abort => said == Ok(Tx.TxPoll.Aborted)
  }

  lemma FlightsKept(a: Slots, b: Slots, kind: FlightKind)
    requires |a| == |b| && forall j :: 0 <= j < |a| ==> Pair.SameFlight(a[j], b[j])
    ensures Count(a, kind) == Count(b, kind)
  {
    forall j | 0 <= j < |a|
      ensures One(a[j], kind) == One(b[j], kind)
    {
      assert Pair.SameFlight(a[j], b[j]);
    }
    CountSame(a, b, kind);
  }

  /** A poll went on with the session: it did not give up, and nobody aborted. */
  predicate WentOn(t: Model) {
    t.state != Tx.TxState.Failed && t.state != Tx.TxState.Aborted
  }

  predicate Settled(t: Model, n: Model, said: Result<TxPoll>, kind: FlightKind) {
    && Count(n.slots, kind) + (if Reports(said, kind) then 1 else 0) <= Count(t.slots, kind)
    && (WentOn(n) ==> Count(n.slots, kind) + (if Reports(said, kind) then 1 else 0) == Count(t.slots, kind))
  }

  lemma AckSettles(t: Model, num: seqno, kind: FlightKind)
    requires t.Coherent() && WillRead(t) && !kind.Abort?
    ensures Settled(t, OnAck(t, num).0, OnAck(t, num).1, kind)
  {
    hide NextToWrite, SessionAlone, Empty, Count;
    var i := FindSeq(t.slots, num);
    if i.Some? {
      CountUpdate(t.slots, i.value, None, kind);
    }
  }

  /** Giving up or being aborted drops what was outstanding. */
  lemma DroppedSettles(t: Model, n: Model, said: Result<TxPoll>, kind: FlightKind)
    requires Empty(n.slots) && !WentOn(n) && (said.Err? || said == Ok(Tx.TxPoll.Aborted)) && !kind.Abort?
    ensures Settled(t, n, said, kind)
  {
    CountEmpty(n.slots, kind);
  }

  lemma KeptSettles(t: Model, n: Model, said: Result<TxPoll>, kind: FlightKind)
    requires |t.slots| == |n.slots| && forall j :: 0 <= j < |t.slots| ==> Pair.SameFlight(t.slots[j], n.slots[j])
    requires !Reports(said, kind)
    ensures Settled(t, n, said, kind)
  {
    FlightsKept(t.slots, n.slots, kind);
  }

  lemma NackSettles(t: Model, num: seqno, kind: FlightKind)
    requires t.Coherent() && WillRead(t) && !kind.Abort?
    ensures Settled(t, OnNack(t, num).0, OnNack(t, num).1, kind)
  {
    Pair.NackKeepsFlights(t, num);
    NackSays(t, num);
    hide OnNack, NextToWrite, SessionAlone, Pair.SameFlight, Settled;
    var (n, said) := OnNack(t, num);
    if n.state == Tx.TxState.Failed { DroppedSettles(t, n, said, kind); } else { KeptSettles(t, n, said, kind); }
  }

  lemma NackSays(t: Model, num: seqno)
    requires t.Coherent() && WillRead(t)
    ensures
      var (n, said) := OnNack(t, num);
      && n.Coherent()
      && said == if n.state == Tx.TxState.Failed then Err(RetriesExhausted) else Ok(Tx.TxPoll.Pending)
  {
    hide NextToWrite, SessionAlone, Empty;
  }

  lemma {:induction false} TickSays(t: Model, i: nat)
    requires t.Coherent() && i <= |t.slots| && t.out.Idle() && !Terminal(t.state)
    ensures
      var (n, said) := TickFrom(t, i);
      && n.Coherent()
      && said == if n.state == Tx.TxState.Failed then Err(RetriesExhausted) else Ok(Tx.TxPoll.Pending)
    decreases |t.slots| - i
  {
    hide NextToWrite, SessionAlone, Empty, TickSlot;
    if i < |t.slots| {
      if !Ticks(t, i) {
        TickSays(t, i + 1);
      } else if TickSlot(t.slots[i].value, t.policy.timeoutTicks).Some? {
        TickSays(Pair.TickedOnce(t, i), i + 1);
      }
    }
  }

  lemma TickSettles(t: Model, kind: FlightKind)
    requires t.Coherent() && WillRead(t) && !kind.Abort?
    ensures Settled(t, TickTimeouts(t).0, TickTimeouts(t).1, kind)
  {
    TickSays(t, 0);
    Pair.TickKeepsFlights(t, 0);
    hide TickFrom, NextToWrite, SessionAlone, Pair.SameFlight, Settled;
    var (n, said) := TickTimeouts(t);
    if n.state == Tx.TxState.Failed { DroppedSettles(t, n, said, kind); } else { KeptSettles(t, n, said, kind); }
  }

  lemma ControlSettles(t: Model, f: Frame, kind: FlightKind)
    requires t.Coherent() && WillRead(t) && !kind.Abort?
    ensures Settled(t, OnControl(t, f).0, OnControl(t, f).1, kind)
  {
    hide OnAck, OnNack, NextToWrite, SessionAlone;
    if f.kind == FrameType.Ack {
      AckSettles(t, f.num, kind);
    } else if f.kind == FrameType.Nack {
      NackSettles(t, f.num, kind);
    } else if f.kind == FrameType.Abort {
      DroppedSettles(t, OnControl(t, f).0, OnControl(t, f).1, kind);
    }
  }

  lemma WriteSettles(t: Model, writeOk: bool, kind: FlightKind)
    requires t.Coherent() && WillWrite(t) && !Terminal(t.state)
    ensures Settled(t, WriteStep(t, writeOk).next, WriteStep(t, writeOk).result, kind)
  {
    Pair.WriteKeepsFlights(t, writeOk);
    WriteSays(t, writeOk);
    hide WriteStep, NextToWrite, SessionAlone, Pair.SameFlight, Settled;
    KeptSettles(t, WriteStep(t, writeOk).next, WriteStep(t, writeOk).result, kind);
  }

  lemma WriteSays(t: Model, writeOk: bool)
    requires t.Coherent() && WillWrite(t)
    ensures WriteStep(t, writeOk).result == if writeOk then Ok(Tx.TxPoll.Pending) else Err(TransportFault)
  {
    hide ToBytes, NextToWrite, SessionAlone, Empty;
  }

  /** One poll reports at most one flight, and takes exactly that one out of its slot. */
  lemma PollSettles(t: Model, io: Io, kind: FlightKind)
    requires t.Coherent() && !Terminal(t.state) && !kind.Abort?
    ensures Settled(t, Poll(t, io).next, Poll(t, io).result, kind)
  {
    if WillWrite(t) {
      WriteSettles(t, io.writeOk, kind);
      hide WriteStep, NextToWrite, SessionAlone, Settled;
    } else if io.read.NoByte? {
      TickSettles(t, kind);
      hide TickTimeouts, NextToWrite, SessionAlone, Settled;
    } else {
      hide FromBytes, Push, OnControl, NextToWrite, SessionAlone, Empty;
      if io.read.GotByte? {
        var (asm, word) := Push(t.asm, io.read.byte);
        if word.Some? && FromBytes(word.value).Good? {
          ControlSettles(t.(asm := asm), FromBytes(word.value).frame, kind);
        }
      }
    }
  }

  /** `TransferDone` is said exactly by a sender that is, or by this very poll becomes, finished. */
  lemma DoneMeansFinished(t: Model, io: Io)
    requires t.Coherent()
    ensures Poll(t, io).result == Ok(Tx.TxPoll.TransferDone) <==> Poll(t, io).next.state == Tx.TxState.Finished
  {
    hide FromBytes, Push, NextToWrite, SessionAlone, Empty, ToBytes, TickFrom;
    if !Terminal(t.state) {
      if WillWrite(t) {
        WriteSays(t, io.writeOk);
        Pair.WriteKeepsFlights(t, io.writeOk);
      } else if io.read.NoByte? {
        TickSays(t, 0);
        Pair.TickKeepsFlights(t, 0);
      }
    }
  }

  /** The frame that makes a poll say `TransferDone` leaves the sender finished. */
  lemma ControlDone(t: Model, f: Frame)
    requires t.Coherent() && WillRead(t)
    ensures OnControl(t, f).1 == Ok(Tx.TxPoll.TransferDone) ==> OnControl(t, f).0.state == Tx.TxState.Finished
  {
    hide NextToWrite, SessionAlone, Empty;
  }

  /** The poll that says `TransferDone` leaves no byte outstanding, and found none. */
  lemma DoneLeavesNothing(t: Model, io: Io)
    requires t.Coherent() && Poll(t, io).result == Ok(Tx.TxPoll.TransferDone)
    ensures Count(t.slots, FlightKind.Data) == 0
  {
    DoneMeansFinished(t, io);
    CountEmpty(Poll(t, io).next.slots, FlightKind.Data);
    if !Terminal(t.state) {
      PollSettles(t, io, FlightKind.Data);
    }
    hide Poll, SessionAlone, Empty, NextToWrite;
  }

  // ------------------------------------------------------------ every run

  /** For flights of one kind: how many were offered, how many reported, and whether any were ever dropped. */
  datatype Ledger = Ledger(tx: Model, offered: nat, reported: nat, cut: bool)

  function Offered(l: Ledger, n: (Model, Result<()>), counts: bool): Ledger {
    l.(tx := n.0, offered := if n.1.Ok? && counts then l.offered + 1 else l.offered)
  }

  function Step(l: Ledger, e: Retry.WindowEvent, kind: FlightKind): (r: Ledger)
    requires l.tx.Coherent()
    ensures r.tx.Coherent()
  {
    match e
    case WOfferByte(byte) => Offered(l, Offer(l.tx, byte), kind.Data?)
    case WOfferStart => Offered(l, OfferStart(l.tx), kind.Start?)
    case WOfferEnd => Offered(l, OfferFinish(l.tx), kind.Finish?)
    case WOfferAbort => l.(tx := OfferAbort(l.tx).0, cut := true)
    case WCancelHere => l.(tx := ForceAbort(l.tx), cut := true)
    case WPoll(io) =>
      var p := Poll(l.tx, io);
      if Terminal(l.tx.state) then l
      else Ledger(p.next, l.offered, if Reports(p.result, kind) then l.reported + 1 else l.reported,
                  l.cut || !WentOn(p.next))
  }

  predicate Balanced(l: Ledger, kind: FlightKind) {
    && l.tx.Coherent()
    && l.reported + Count(l.tx.slots, kind) <= l.offered
    && (!l.cut ==> l.reported + Count(l.tx.slots, kind) == l.offered)
  }

  /** One more flight of the kind offered, in the first free slot. */
  lemma InsertCounts(t: Model, made: FlightKind, num: seqno, payload: u8, kind: FlightKind)
    requires t.Valid()
    ensures
      var (n, r) := Insert(t, made, num, payload);
      Count(n.slots, kind) == Count(t.slots, kind) + (if r.Ok? && made == kind then 1 else 0)
  {
    var f := FindFree(t.slots);
    if f.Some? {
      CountUpdate(t.slots, f.value, Some(TxSlot(made, num, payload, t.policy.maxRetries, false, false, 0)), kind);
    }
  }

  /** A byte taken is one more outstanding; FINISH is none. */
  lemma OfferAddsOne(t: Model, byte: u8)
    requires t.Coherent()
    ensures
      var (n, r) := Offer(t, byte);
      Count(n.slots, FlightKind.Data) == Count(t.slots, FlightKind.Data) + (if r.Ok? then 1 else 0)
    ensures Count(OfferFinish(t).0.slots, FlightKind.Data) == Count(t.slots, FlightKind.Data)
    ensures Terminal(t.state) ==> Offer(t, byte).1.Err? && Offer(t, byte).0 == t && OfferFinish(t).0 == t
    ensures !Terminal(t.state) ==> !Terminal(Offer(t, byte).0.state) && !Terminal(OfferFinish(t).0.state)
  {
    hide InSendWindow, HasSession, SessionAlone, Empty, Count;
    InsertCounts(t, FlightKind.Data, t.nextSeq, byte, FlightKind.Data);
    InsertCounts(t, FlightKind.Finish, t.nextSeq, 0, FlightKind.Data);
  }

  lemma EmptyAgain(slots: Slots)
    requires Empty(slots)
    ensures slots == EmptySlots(|slots|)
  {
  }

  lemma OfferBalances(l: Ledger, e: Retry.WindowEvent, kind: FlightKind)
    requires Balanced(l, kind) && !kind.Abort? && (e.WOfferByte? || e.WOfferStart? || e.WOfferEnd?)
    ensures Balanced(Step(l, e, kind), kind)
  {
    hide Insert, InSendWindow, HasSession, SessionAlone, Empty, Count;
    match e
    case WOfferByte(byte) =>
      InsertCounts(l.tx, FlightKind.Data, l.tx.nextSeq, byte, kind);
    case WOfferStart =>
      if Empty(l.tx.slots) { EmptyAgain(l.tx.slots); }
      InsertCounts(l.tx.(nextSeq := 0), FlightKind.Start, 0, 0, kind);
    case WOfferEnd =>
      InsertCounts(l.tx, FlightKind.Finish, l.tx.nextSeq, 0, kind);
  }

  lemma AbortCounts(t: Model, kind: FlightKind)
    requires t.Coherent() && !kind.Abort?
    ensures Count(OfferAbort(t).0.slots, kind) <= Count(t.slots, kind)
    ensures Count(ForceAbort(t).slots, kind) == 0
  {
    hide Insert, SessionAlone;
    CountEmpty(ForceAbort(t).slots, kind);
    InsertCounts(ForceAbort(t).(nextSeq := 0, state := Tx.TxState.Sending), FlightKind.Abort, 0, 0, kind);
  }

  lemma StepBalances(l: Ledger, e: Retry.WindowEvent, kind: FlightKind)
    requires Balanced(l, kind) && !kind.Abort?
    ensures Balanced(Step(l, e, kind), kind)
  {
    if e.WPoll? {
      if !Terminal(l.tx.state) {
        PollSettles(l.tx, e.io, kind);
        hide Poll, Count, SessionAlone, Empty;
      }
    } else if e.WOfferAbort? || e.WCancelHere? {
      AbortCounts(l.tx, kind);
      hide OfferAbort, ForceAbort, Count, SessionAlone, Empty;
    } else {
      OfferBalances(l, e, kind);
    }
  }

  function Run(l: Ledger, events: seq<Retry.WindowEvent>, kind: FlightKind): (end: Ledger)
    requires l.tx.Coherent()
    ensures end.tx.Coherent()
    decreases |events|
  {
    if events == [] then l else Run(Step(l, events[0], kind), events[1..], kind)
  }

  lemma {:induction false} RunBalances(l: Ledger, events: seq<Retry.WindowEvent>, kind: FlightKind)
    requires l.tx.Coherent() && Balanced(l, kind) && !kind.Abort?
    ensures Balanced(Run(l, events, kind), kind)
    decreases |events|
  {
    hide Balanced, Step;
    if events != [] {
      StepBalances(l, events[0], kind);
      RunBalances(Step(l, events[0], kind), events[1..], kind);
    }
  }

  /**
    For every window, policy and run, whatever is offered, arrives or fails:
    bytes are reported `Acked`, STARTs `SessionReady` and FINISHes `TransferDone`
    never more often than they were offered; and as long as nothing was given up
    on or aborted, each exactly once, or it is still outstanding.
   */
  lemma EveryFlightIsReportedOnce(n: nat, limit: nat, policy: Tx.RetryPolicy, events: seq<Retry.WindowEvent>,
                                  kind: FlightKind)
    requires 1 <= n <= MAX_WINDOW && !kind.Abort?
    ensures
      var end := Run(Ledger(SetLimit(WindowTx.Fresh(n, policy), limit), 0, 0, false), events, kind);
      && end.reported + Count(end.tx.slots, kind) <= end.offered
      && (!end.cut ==> end.reported + Count(end.tx.slots, kind) == end.offered)
  {
    hide Run, Count;
    var l := Ledger(SetLimit(WindowTx.Fresh(n, policy), limit), 0, 0, false);
    CountEmpty(l.tx.slots, kind);
    RunBalances(l, events, kind);
  }
}
