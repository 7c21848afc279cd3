/**
  The pump: one sender and one receiver driven by the same poll, receiver
  first, with at most one event reported per poll.
 */
module Pump {
  import opened Prelude
  import opened Wire
  import opened Framing
  import Rx
  import Tx

  datatype PumpEvent = Idle | Progress | Sent | Received(byte: u8) | Completed | Aborted

  datatype Model = Model(
    tx: Tx.Model,
    rx: Rx.Model,
    lastAcked: bool,
    txDoneSeen: bool,
    pendingCompleted: bool)
  {
    predicate Coherent() {
      tx.Coherent() && rx.Coherent()
    }
  }

  /** One poll: the new state, the event, and the calls each half made on its own port. */
  datatype Polled = Polled(next: Model, result: Result<PumpEvent>, rxCalls: Calls, txCalls: Calls)

  function Fresh(policy: Tx.RetryPolicy): Model {
    Model(Tx.Fresh(policy), Rx.FRESH, false, false, false)
  }

  /** A peer's ABORT cancels local sending, but never our own START or ABORT. */
  function Cancelled(tx: Tx.Model, outcome: Rx.PollOutcome): (n: Tx.Model)
    requires tx.Coherent()
    ensures n.Coherent()
  {
    if outcome.Aborted? && !Tx.HoldsSessionControl(tx) then Tx.ForceAbort(tx) else tx
  }

  /** Which of the things that happened is reported; at most one can wait for the next poll. */
  function Report(outcome: Rx.PollOutcome, sent: Tx.TxPoll, mark: Tx.IoMark, doneEdge: bool): (PumpEvent, bool) {
    if outcome.Aborted? || sent.Aborted? then (PumpEvent.Aborted, false)
    else if outcome.Delivered? then (Received(outcome.byte), doneEdge)
    else if outcome.TransferFinished? || doneEdge then (Completed, false)
    else if sent.Acked? then (Sent, false)
    else if !outcome.Pending? || !sent.Pending? || mark != Tx.NO_MARK then (Progress, false)
    else (PumpEvent.Idle, false)
  }

  function Poll(p: Model, rxIo: Io, txIo: Io): (r: Polled)
    requires p.Coherent()
    ensures r.next.Coherent()
  {
    if p.pendingCompleted then Polled(p.(pendingCompleted := false), Ok(Completed), NO_CALLS, NO_CALLS)
    else
      var heard := Rx.Poll(p.rx, rxIo);
      if heard.result.Err? then Polled(p.(rx := heard.next), Err(heard.result.error), heard.calls, NO_CALLS)
      else
        var said := Tx.Poll(Cancelled(p.tx, heard.result.value), txIo);
        if said.result.Err? then
          Polled(p.(rx := heard.next, tx := said.next), Err(said.result.error), heard.calls, said.calls)
        else
          var done := said.result.value.TransferDone?;
          var (event, later) := Report(heard.result.value, said.result.value, said.next.mark, done && !p.txDoneSeen);
          Polled(Model(said.next.(mark := Tx.NO_MARK), heard.next, said.result.value.Acked?, done, later),
                 Ok(event), heard.calls, said.calls)
  }

  /** A poll in which neither half fails or hears ABORT. */
  lemma BothHalves(p: Model, rxIo: Io, txIo: Io)
    requires p.Coherent() && !p.pendingCompleted
    requires Rx.Poll(p.rx, rxIo).result.Ok? && !Rx.Poll(p.rx, rxIo).result.value.Aborted?
    requires Tx.Poll(p.tx, txIo).result.Ok? && !Tx.Poll(p.tx, txIo).result.value.Aborted?
    ensures
      var heard, said := Rx.Poll(p.rx, rxIo), Tx.Poll(p.tx, txIo);
      var done := said.result.value.TransferDone?;
      var edge := done && !p.txDoneSeen;
      var delivered := heard.result.value.Delivered?;
      var r := Poll(p, rxIo, txIo);
      && r.next == Model(said.next.(mark := Tx.NO_MARK), heard.next, said.result.value.Acked?, done, delivered && edge)
      && r.rxCalls == heard.calls && r.txCalls == said.calls
      && r.result.Ok?
      && (delivered ==> r.result.value == Received(heard.result.value.byte))
      && (!delivered ==> (r.result.value.Completed? <==> heard.result.value.TransferFinished? || edge))
      && (!delivered ==> !r.result.value.Received? && !r.result.value.Aborted?)
  {
    hide Rx.Poll, Tx.Poll;
  }

  // ------------------------------------------------------------ the object

  class Pump {
    const sender: Tx.Sender
    const receiver: Rx.Receiver
    var lastAcked: bool
    var txDoneSeen: bool
    var pendingCompleted: bool
    ghost const Repr: set<object>

    ghost predicate Valid()
      reads this, Repr
    {
      && Repr == {this} + sender.Repr + receiver.Repr
      && sender in Repr && receiver in Repr
      && this !in sender.Repr && this !in receiver.Repr
      && sender.Repr !! receiver.Repr
      && sender.Valid() && receiver.Valid()
    }

    ghost function View(): (m: Model)
      requires Valid()
      reads this, Repr
    {
      Model(sender.View(), receiver.View(), lastAcked, txDoneSeen, pendingCompleted)
    }

    constructor (policy: Tx.RetryPolicy)
      ensures Valid() && fresh(Repr)
      ensures View() == Fresh(policy) && View().Coherent()
    {
      var s := new Tx.Sender(policy);
      var r := new Rx.Receiver();
      sender, receiver := s, r;
      lastAcked, txDoneSeen, pendingCompleted := false, false, false;
      Repr := {this} + s.Repr + r.Repr;
    }

    /** Local cancel on a peer's ABORT, then the sender's poll. */
    method PollSender(outcome: Rx.PollOutcome, txIo: Io) returns (said: Result<Tx.TxPoll>, calls: Calls)
      requires Valid() && View().Coherent()
      modifies sender.Repr
      ensures Valid() && View().Coherent()
      ensures Tx.Polled(sender.View(), said, calls) == Tx.Poll(Cancelled(old(View()).tx, outcome), txIo)
    {
      hide Tx.Poll;
      var holds := sender.inflight.Some? && (sender.inflight.value.kind.Abort? || sender.inflight.value.kind.Start?);
      if outcome.Aborted? && !holds {
        sender.CancelLocally();
      }
      said, calls := sender.PollOnce(txIo);
    }

    method TakeMark() returns (mark: Tx.IoMark)
      requires Valid()
      modifies sender
      ensures Valid()
      ensures mark == old(View()).tx.mark && View() == old(View()).(tx := old(View()).tx.(mark := Tx.NO_MARK))
    {
      mark := sender.mark;
      sender.mark := Tx.NO_MARK;
    }

    /** The event of a poll in which neither half failed. */
    method TakeEvent(heard: Rx.PollOutcome, said: Tx.TxPoll, mark: Tx.IoMark) returns (event: PumpEvent)
      requires Valid() && !pendingCompleted
      modifies this
      ensures Valid()
      ensures View() == old(View()).(lastAcked := lastAcked, txDoneSeen := txDoneSeen,
                                     pendingCompleted := pendingCompleted)
      ensures lastAcked == said.Acked? && txDoneSeen == said.TransferDone?
      ensures (event, pendingCompleted) == Report(heard, said, mark, said.TransferDone? && !old(txDoneSeen))
    {
      lastAcked := said.Acked?;
      var doneEdge := said.TransferDone? && !txDoneSeen;
      txDoneSeen := said.TransferDone?;
      if heard.Aborted? || said.Aborted? {
        return PumpEvent.Aborted;
      }
      if heard.Delivered? {
        if doneEdge {
          pendingCompleted := true;
        }
        return Received(heard.byte);
      }
      if heard.TransferFinished? || doneEdge {
        return Completed;
      }
      if said.Acked? {
        return Sent;
      }
      var progress := !heard.Pending? || !said.Pending? || mark.frameOnWire || mark.retransmit || mark.nack;
      return if progress then Progress else PumpEvent.Idle;
    }

    /** One non-blocking step: receiver first, then sender. */
    method PollOnce(rxIo: Io, txIo: Io) returns (result: Result<PumpEvent>, rxCalls: Calls, txCalls: Calls)
      requires Valid() && View().Coherent()
      modifies Repr
      ensures Valid() && View().Coherent()
      ensures Polled(View(), result, rxCalls, txCalls) == Poll(old(View()), rxIo, txIo)
    {
      hide Rx.Poll, Tx.Poll, Tx.Model.Coherent, Rx.Model.Coherent, Report, Cancelled;
      if pendingCompleted {
        pendingCompleted := false;
        return Ok(Completed), NO_CALLS, NO_CALLS;
      }
      var heard;
      heard, rxCalls := receiver.PollOnce(rxIo);
      if heard.Err? {
        return Err(heard.error), rxCalls, NO_CALLS;
      }
      var said;
      said, txCalls := PollSender(heard.value, txIo);
      if said.Err? {
        return Err(said.error), rxCalls, txCalls;
      }
      var mark := TakeMark();
      var event := TakeEvent(heard.value, said.value, mark);
      UnmarkedIsCoherent(old(View()), rxIo, txIo);
      return Ok(event), rxCalls, txCalls;
    }
  }

  lemma UnmarkedIsCoherent(p: Model, rxIo: Io, txIo: Io)
    requires p.Coherent()
    ensures Poll(p, rxIo, txIo).next.Coherent()
  {
    hide Rx.Poll, Tx.Poll;
  }

  // ------------------------------------------------------------ what is reported

  /**
    A byte the receiver hands over is reported exactly when the sender's poll
    neither fails nor learns of an ABORT; both of those outrank it.
   */
  lemma DeliveryIsReported(p: Model, rxIo: Io, txIo: Io, byte: u8)
    requires p.Coherent() && !p.pendingCompleted
    requires Rx.Poll(p.rx, rxIo).result == Ok(Rx.PollOutcome.Delivered(byte))
    ensures
      var said := Tx.Poll(p.tx, txIo).result;
      Poll(p, rxIo, txIo).result == Ok(Received(byte)) <==> said.Ok? && !said.value.Aborted?
  {
    hide Rx.Poll, Tx.Poll;
  }

  /** The fourth byte of a frame went out in this poll. */
  predicate FrameOut(p: Tx.Polled<Tx.Model>) {
    p.calls.wrote.Some? && p.next.out.Idle()
  }

  /** A retry was spent in this poll. */
  predicate Retried(t: Tx.Model, n: Tx.Model) {
    t.inflight.Some? && n.inflight.Some? && n.inflight.value.retriesLeft < t.inflight.value.retriesLeft
  }

  /** The sender's one-shot marks say what it did. */
  lemma MarksTell(t: Tx.Model, io: Io)
    requires t.Coherent()
    ensures
      var p := Tx.Poll(t, io);
      && (p.next.mark.frameOnWire <==> FrameOut(p))
      && (p.result.Ok? ==> (p.next.mark.retransmit <==> Retried(t, p.next)))
      && (p.result.Ok? && p.next.mark.nack ==> Retried(t, p.next))
  {
    hide FromBytes, ToBytes, Push;
  }

  /**
    Short of a peer's ABORT: `Aborted` is reported exactly when the sender has
    learned of one, `Sent` exactly when our frame was acknowledged and the
    receiver handed over nothing and ended no session, and `Idle` exactly when
    neither half had anything to say, no frame went out whole and no retry was
    spent.
   */
  lemma QuietEvents(p: Model, rxIo: Io, txIo: Io)
    requires p.Coherent() && !p.pendingCompleted
    requires Rx.Poll(p.rx, rxIo).result.Ok? && !Rx.Poll(p.rx, rxIo).result.value.Aborted?
    requires Tx.Poll(p.tx, txIo).result.Ok?
    ensures
      var heard, said, r := Rx.Poll(p.rx, rxIo).result.value, Tx.Poll(p.tx, txIo), Poll(p, rxIo, txIo);
      && (r.result == Ok(PumpEvent.Aborted) <==> said.result.value.Aborted?)
      && (r.result == Ok(Sent) <==> said.result.value.Acked? && !heard.Delivered? && !heard.TransferFinished?)
      && (r.result == Ok(PumpEvent.Idle) <==>
            heard.Pending? && said.result.value.Pending?
            && !FrameOut(said) && !Retried(p.tx, said.next))
  {
    hide Rx.Poll, Tx.Poll;
    MarksTell(p.tx, txIo);
  }

  /** A port that fails is reported, and the half behind it is all that was polled: the other loses nothing. */
  lemma FailuresPassThrough(p: Model, rxIo: Io, txIo: Io)
    requires p.Coherent() && !p.pendingCompleted
    ensures
      var heard, r := Rx.Poll(p.rx, rxIo), Poll(p, rxIo, txIo);
      if heard.result.Err? then
        r.result == Err(heard.result.error) && r.txCalls == NO_CALLS && r.next == p.(rx := heard.next)
      else if !heard.result.value.Aborted? && Tx.Poll(p.tx, txIo).result.Err? then
        && r.result == Err(Tx.Poll(p.tx, txIo).result.error)
        && r.next == p.(rx := heard.next, tx := Tx.Poll(p.tx, txIo).next)
      else true
  {
    hide Rx.Poll, Tx.Poll;
  }

  /** What happens to a pump: its application offers a frame to its sender, or polls it. */
  datatype Event = OfferByte(byte: u8) | OfferStart | OfferEnd | PollBoth(rxIo: Io, txIo: Io)

  function Next(p: Model, e: Event): (n: Model)
    requires p.Coherent()
    ensures n.Coherent()
  {
    match e
    case OfferByte(byte) => p.(tx := Tx.Offer(p.tx, byte).0)
    case OfferStart => p.(tx := Tx.OfferStart(p.tx).0)
    case OfferEnd => p.(tx := Tx.OfferFinish(p.tx).0)
    case PollBoth(rxIo, txIo) => Poll(p, rxIo, txIo).next
  }

  /** The receiver announces the end of the peer's session in this poll. */
  predicate PeerEnds(p: Model, rxIo: Io)
    requires p.Coherent()
  {
    !p.pendingCompleted && Rx.Poll(p.rx, rxIo).result == Ok(Rx.PollOutcome.TransferFinished)
  }

  /** The sender announces the end of our own session in this poll, for the first time. */
  predicate OwnEnds(p: Model, rxIo: Io, txIo: Io)
    requires p.Coherent()
  {
    var heard := Rx.Poll(p.rx, rxIo).result;
    && !p.pendingCompleted
    && heard.Ok?
    && Tx.Poll(Cancelled(p.tx, heard.value), txIo).result == Ok(Tx.TxPoll.TransferDone)
    && !p.txDoneSeen
  }

  /** How many sessions end in this step: none, one, or one in each direction. */
  function Ends(p: Model, e: Event): nat
    requires p.Coherent()
  {
    if !e.PollBoth? then 0
    else (if PeerEnds(p, e.rxIo) then 1 else 0) + (if OwnEnds(p, e.rxIo, e.txIo) then 1 else 0)
  }

  /** The byte the receiver hands over in this step, if any. */
  function Handed(p: Model, e: Event): seq<u8>
    requires p.Coherent()
  {
    if !e.PollBoth? || p.pendingCompleted then []
    else
      match Rx.Poll(p.rx, e.rxIo).result
      case Ok(Delivered(byte)) => [byte]
      case _ => []
  }

  /** What the two halves did over a run, and what the pump said about it. */
  datatype Tally = Tally(p: Model, handed: seq<u8>, reported: seq<u8>, ends: nat, completions: nat)

  function Step(t: Tally, e: Event): (n: Tally)
    requires t.p.Coherent()
    ensures n.p == Next(t.p, e)
  {
    var said := if e.PollBoth? then Poll(t.p, e.rxIo, e.txIo).result else Ok(PumpEvent.Idle);
    Tally(Next(t.p, e),
          t.handed + Handed(t.p, e),
          match said case Ok(Received(byte)) => t.reported + [byte] case _ => t.reported,
          t.ends + Ends(t.p, e),
          if said == Ok(Completed) then t.completions + 1 else t.completions)
  }

  /** The poll, if it is one, neither failed nor reported ABORT. */
  predicate WentWell(p: Model, e: Event)
    requires p.Coherent()
  {
    e.PollBoth? ==> Poll(p, e.rxIo, e.txIo).result.Ok? && !Poll(p, e.rxIo, e.txIo).result.value.Aborted?
  }

  predicate Clean(p: Model, events: seq<Event>)
    requires p.Coherent()
    decreases |events|
  {
    events == [] || (WentWell(p, events[0]) && Clean(Next(p, events[0]), events[1..]))
  }

  /** In how many polls of the run a session ended in each direction. */
  function Collisions(p: Model, events: seq<Event>): nat
    requires p.Coherent()
    decreases |events|
  {
    if events == [] then 0
    else (if Ends(p, events[0]) == 2 then 1 else 0) + Collisions(Next(p, events[0]), events[1..])
  }

  function Run(t: Tally, events: seq<Event>): (end: Tally)
    requires t.p.Coherent()
    ensures end.p.Coherent()
    decreases |events|
  {
    if events == [] then t else Run(Step(t, events[0]), events[1..])
  }

  function RunFromStart(policy: Tx.RetryPolicy, events: seq<Event>): Tally {
    Run(Tally(Fresh(policy), [], [], 0, 0), events)
  }

  /** Sessions that ended and were neither reported nor are still owed a report. */
  function Unreported(t: Tally): int {
    t.ends - t.completions - (if t.p.pendingCompleted then 1 else 0)
  }

  /** A poll reports one end at most: a second end in the same poll is not reported, then or later. */
  lemma StepReports(t: Tally, e: Event)
    requires t.p.Coherent() && t.reported == t.handed && WentWell(t.p, e)
    ensures
      var n := Step(t, e);
      && n.reported == n.handed
      && Unreported(n) == Unreported(t) + (if Ends(t.p, e) == 2 then 1 else 0)
  {
    hide Rx.Poll, Tx.Poll;
  }

  lemma {:induction false} RunReports(t: Tally, events: seq<Event>)
    requires t.p.Coherent() && t.reported == t.handed && Clean(t.p, events)
    ensures
      var n := Run(t, events);
      && n.reported == n.handed
      && Unreported(n) == Unreported(t) + Collisions(t.p, events)
    decreases |events|
  {
    hide Next, Step, Ends, Unreported, WentWell;
    if events != [] {
      StepReports(t, events[0]);
      RunReports(Step(t, events[0]), events[1..]);
    }
  }

  /**
    In every run from power-up without a failing poll and without ABORT, each
    byte handed over is reported once and in order; and every session end is
    reported, at most one poll late, if and only if the peer's session and our
    own never end in the same poll.
   */
  lemma NothingIsLost(policy: Tx.RetryPolicy, events: seq<Event>)
    requires Clean(Fresh(policy), events)
    ensures
      var end := RunFromStart(policy, events);
      && end.reported == end.handed
      && (Unreported(end) == 0 <==> Collisions(Fresh(policy), events) == 0)
      && Unreported(end) == Collisions(Fresh(policy), events)
  {
    hide Run, Collisions, Clean;
    RunReports(Tally(Fresh(policy), [], [], 0, 0), events);
  }
}
