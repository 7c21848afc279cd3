/**
  Retry bounds.  Against any peer a flight goes on the wire at most once more
  than it has retries, and a sender gives up only when one has used them all;
  against a peer that stays silent, giving up takes an exact number of polls.
 */
module Retry {
  import opened Prelude
  import opened Wire
  import opened Framing
  import Tx
  import WindowTx

  // ------------------------------------------------------------ stop and wait, any peer

  datatype Event = OfferByte(byte: u8) | OfferStart | OfferEnd | OfferAbort | CancelHere | Poll(io: Io)

  /** A sender, and how often the frame of its current flight has gone on the wire whole. */
  datatype Observed = Observed(tx: Tx.Model, sent: nat)

  function Step(o: Observed, e: Event): (n: Observed)
    requires o.tx.Coherent()
    ensures n.tx.Coherent()
  {
    match e
    case OfferByte(byte) =>
      var (tx, r) := Tx.Offer(o.tx, byte);
      Observed(tx, if r.Ok? then 0 else o.sent)
    case OfferStart =>
      var (tx, r) := Tx.OfferStart(o.tx);
      Observed(tx, if r.Ok? then 0 else o.sent)
    case OfferEnd =>
      var (tx, r) := Tx.OfferFinish(o.tx);
      Observed(tx, if r.Ok? then 0 else o.sent)
    case OfferAbort =>
      var tx := Tx.OfferAbort(o.tx);
      Observed(tx, if tx == o.tx then o.sent else 0)
    case CancelHere => Observed(Tx.ForceAbort(o.tx), o.sent)
    case Poll(io) =>
      var p := Tx.Poll(o.tx, io);
      Observed(p.next, if p.calls.wrote.Some? && p.next.out.Idle() then o.sent + 1 else o.sent)
  }

  /** Every retry spent was a time on the wire; the attempt in progress is still to come. */
  predicate Tallied(o: Observed) {
    && o.tx.Coherent()
    && (o.tx.inflight.Some? ==>
          var f := o.tx.inflight.value;
          o.sent + f.retriesLeft + (if f.waiting then 0 else 1) == o.tx.policy.maxRetries + 1)
  }

  lemma StepTallies(o: Observed, e: Event)
    requires Tallied(o)
    ensures Tallied(Step(o, e)) && Step(o, e).tx.policy == o.tx.policy
  {
    hide FromBytes, ToBytes, Push;
  }

  /** The sender after any sequence of events. */
  function Run(o: Observed, events: seq<Event>): (end: Observed)
    requires o.tx.Coherent()
    ensures end.tx.Coherent()
    decreases |events|
  {
    if events == [] then o else Run(Step(o, events[0]), events[1..])
  }

  lemma {:induction false} RunTallies(o: Observed, events: seq<Event>)
    requires o.tx.Coherent() && Tallied(o)
    ensures Tallied(Run(o, events)) && Run(o, events).tx.policy == o.tx.policy
    decreases |events|
  {
    hide Step, Tallied;
    if events != [] {
      StepTallies(o, events[0]);
      RunTallies(Step(o, events[0]), events[1..]);
    }
  }

  /**
    For every policy, whatever is offered, whatever arrives, and whenever the
    transport fails: the current flight has been on the wire at most
    `max_retries + 1` times, and a poll that gives up on it does so after
    exactly that many.
   */
  lemma FlightsAreBounded(policy: Tx.RetryPolicy, events: seq<Event>, io: Io)
    ensures
      var end := Run(Observed(Tx.Fresh(policy), 0), events);
      && (end.tx.inflight.Some? ==> end.sent <= policy.maxRetries + 1)
      && (end.tx.state != Tx.TxState.Failed && Tx.Poll(end.tx, io).result == Err(RetriesExhausted) ==>
            end.tx.inflight.Some? && end.sent == policy.maxRetries + 1)
  {
    hide Run, Tx.Poll;
    RunTallies(Observed(Tx.Fresh(policy), 0), events);
    var end := Run(Observed(Tx.Fresh(policy), 0), events);
    if end.tx.state != Tx.TxState.Failed && Tx.Poll(end.tx, io).result == Err(RetriesExhausted) {
      GivesUpSpent(end, io);
    }
  }

  lemma GivesUpSpent(o: Observed, io: Io)
    requires Tallied(o) && o.tx.state != Tx.TxState.Failed && Tx.Poll(o.tx, io).result == Err(RetriesExhausted)
    ensures o.tx.inflight.Some? && o.sent == o.tx.policy.maxRetries + 1
  {
    hide FromBytes, ToBytes, Push;
  }

  // ------------------------------------------------------------ stop and wait, a silent peer

  /** The transport takes every byte and never has one to give. */
  const SILENCE := Io(true, NoByte)

  function AfterSilence(t: Tx.Model, n: nat): (end: Tx.Model)
    requires t.Coherent()
    ensures end.Coherent()
  {
    if n == 0 then t else Tx.Poll(AfterSilence(t, n - 1), SILENCE).next
  }

  lemma {:induction false} SilenceAdds(t: Tx.Model, m: nat, n: nat)
    requires t.Coherent()
    ensures AfterSilence(t, m + n) == AfterSilence(AfterSilence(t, m), n)
  {
    hide Tx.Poll;
    if n > 0 {
      SilenceAdds(t, m, n - 1);
    }
  }

  /** What poll number `k`, counted from 0, answers. */
  function Answer(t: Tx.Model, k: nat): Result<Tx.TxPoll>
    requires t.Coherent()
  {
    Tx.Poll(AfterSilence(t, k), SILENCE).result
  }

  /** Silent polls one attempt waits before its timer runs out. */
  function Patience(policy: Tx.RetryPolicy): nat {
    if policy.timeoutTicks == 0 then 1 else policy.timeoutTicks
  }

  /** Polls of one attempt: four bytes out, then silence. */
  function AttemptPolls(policy: Tx.RetryPolicy): nat {
    FRAME_LEN + Patience(policy)
  }

  /** An attempt about to be written, with `r` retries behind it. */
  predicate Ready(t: Tx.Model, r: nat) {
    && t.Coherent() && t.out.Idle()
    && t.inflight.Some? && !t.inflight.value.waiting && t.inflight.value.retriesLeft == r
  }

  /** An attempt on the wire that has heard `k` ticks of silence. */
  predicate Waiting(t: Tx.Model, r: nat, k: nat) {
    && t.Coherent() && Tx.WillRead(t)
    && t.inflight.value.retriesLeft == r && t.inflight.value.emptyTicks == k
  }

  /** Nothing but progress: every poll before number `n` is answered `Pending`. */
  predicate Pending(t: Tx.Model, n: nat)
    requires t.Coherent()
  {
    forall k: nat :: k < n ==> Answer(t, k) == Ok(Tx.TxPoll.Pending)
  }

  predicate MidFrame(t: Tx.Model, r: nat, pos: nat) {
    && t.Coherent() && t.out.pos == pos
    && t.inflight.Some? && !t.inflight.value.waiting && t.inflight.value.retriesLeft == r
  }

  lemma WriteFirst(t: Tx.Model, r: nat)
    requires Ready(t, r)
    ensures
      var p := Tx.Poll(t, SILENCE);
      p.result == Ok(Tx.TxPoll.Pending) && MidFrame(p.next, r, 1) && p.next.policy == t.policy
  {
    hide ToBytes;
  }

  lemma WriteMore(t: Tx.Model, r: nat, pos: nat)
    requires MidFrame(t, r, pos) && 1 <= pos < FRAME_LEN
    ensures
      var p := Tx.Poll(t, SILENCE);
      && p.result == Ok(Tx.TxPoll.Pending) && p.next.policy == t.policy
      && (if pos == 3 then Waiting(p.next, r, 0) else MidFrame(p.next, r, pos + 1))
  {
    hide ToBytes;
  }

  /** Four polls put the frame on the wire. */
  lemma FourWrites(t: Tx.Model, r: nat)
    requires Ready(t, r)
    ensures Pending(t, FRAME_LEN) && Waiting(AfterSilence(t, FRAME_LEN), r, 0)
    ensures AfterSilence(t, FRAME_LEN).policy == t.policy
  {
    hide Tx.Poll;
    var t1, t2, t3, t4 := AfterSilence(t, 1), AfterSilence(t, 2), AfterSilence(t, 3), AfterSilence(t, 4);
    assert AfterSilence(t, 0) == t;
    assert t1 == Tx.Poll(t, SILENCE).next;
    WriteFirst(t, r);
    assert t2 == Tx.Poll(t1, SILENCE).next;
    WriteMore(t1, r, 1);
    assert t3 == Tx.Poll(t2, SILENCE).next;
    WriteMore(t2, r, 2);
    assert t4 == Tx.Poll(t3, SILENCE).next;
    WriteMore(t3, r, 3);
  }

  lemma OneTick(t: Tx.Model, r: nat, k: nat)
    requires Waiting(t, r, k) && k < Patience(t.policy)
    ensures
      var p := Tx.Poll(t, SILENCE);
      if k + 1 < Patience(t.policy) then
        p.result == Ok(Tx.TxPoll.Pending) && Waiting(p.next, r, k + 1) && p.next.policy == t.policy
      else if r == 0 then p.result == Err(RetriesExhausted)
      else p.result == Ok(Tx.TxPoll.Pending) && Ready(p.next, r - 1) && p.next.policy == t.policy
  {
  }

  /** All ticks of an attempt but the last. */
  lemma {:induction false} SomeTicks(t: Tx.Model, r: nat, n: nat)
    requires Waiting(t, r, 0) && n < Patience(t.policy)
    ensures Pending(t, n) && Waiting(AfterSilence(t, n), r, n) && AfterSilence(t, n).policy == t.policy
  {
    hide Tx.Poll;
    if n > 0 {
      SomeTicks(t, r, n - 1);
      OneTick(AfterSilence(t, n - 1), r, n - 1);
    }
  }

  /** Runs of silence one after the other. */
  lemma PendingAdds(t: Tx.Model, m: nat, n: nat)
    requires t.Coherent() && Pending(t, m) && Pending(AfterSilence(t, m), n)
    ensures Pending(t, m + n)
    ensures Answer(t, m + n) == Answer(AfterSilence(t, m), n)
  {
    hide Tx.Poll;
    forall k: nat | k < m + n
      ensures Answer(t, k) == Ok(Tx.TxPoll.Pending)
    {
      if k >= m {
        SilenceAdds(t, m, k - m);
        assert Answer(AfterSilence(t, m), k - m) == Ok(Tx.TxPoll.Pending);
      }
    }
    SilenceAdds(t, m, n);
  }

  /** One attempt: its last poll gives up, or starts the next attempt. */
  lemma OneAttempt(t: Tx.Model, r: nat)
    requires Ready(t, r)
    ensures
      var n := AttemptPolls(t.policy);
      && Pending(t, n - 1)
      && (r == 0 ==> Answer(t, n - 1) == Err(RetriesExhausted))
      && (r > 0 ==> Pending(t, n) && Ready(AfterSilence(t, n), r - 1) && AfterSilence(t, n).policy == t.policy)
  {
    hide Tx.Poll, Ready, Waiting;
    ReadyIsCoherent(t, r);
    var n := AttemptPolls(t.policy);
    var ticks := Patience(t.policy) - 1;
    FourWrites(t, r);
    var w := AfterSilence(t, FRAME_LEN);
    SomeTicks(w, r, ticks);
    PendingAdds(t, FRAME_LEN, ticks);
    SilenceAdds(t, FRAME_LEN, ticks);
    OneTick(AfterSilence(w, ticks), r, ticks);
    assert AfterSilence(t, n - 1) == AfterSilence(w, ticks);
    assert AfterSilence(t, n) == Tx.Poll(AfterSilence(t, n - 1), SILENCE).next;
  }

  lemma ReadyIsCoherent(t: Tx.Model, r: nat)
    requires Ready(t, r)
    ensures t.Coherent()
  {
  }

  /** All attempts: exactly `(r + 1)` times the polls of one. */
  lemma {:induction false} GivesUpAfter(t: Tx.Model, r: nat)
    requires Ready(t, r)
    ensures
      var n := (r + 1) * AttemptPolls(t.policy);
      n >= 1 && Pending(t, n - 1) && Answer(t, n - 1) == Err(RetriesExhausted)
    decreases r
  {
    hide Tx.Poll, Ready, Pending;
    ReadyIsCoherent(t, r);
    var one := AttemptPolls(t.policy);
    OneAttempt(t, r);
    if r > 0 {
      var next := AfterSilence(t, one);
      GivesUpAfter(next, r - 1);
      assert (r + 1) * one == one + r * one;
      PendingAdds(t, one, r * one - 1);
    }
  }

  /** The model after a run of answers. */
  function After(t: Tx.Model, ios: seq<Io>): (end: Tx.Model)
    requires t.Coherent()
    ensures end.Coherent()
    decreases |ios|
  {
    if ios == [] then t else Tx.Poll(After(t, ios[..|ios| - 1]), ios[|ios| - 1]).next
  }

  /** What the last poll of a run of answers said. */
  function LastSaid(t: Tx.Model, ios: seq<Io>): Result<Tx.TxPoll>
    requires t.Coherent() && ios != []
  {
    Tx.Poll(After(t, ios[..|ios| - 1]), ios[|ios| - 1]).result
  }

  /** Every poll of the run said `Pending`. */
  predicate AllPending(t: Tx.Model, ios: seq<Io>)
    requires t.Coherent()
  {
    forall k :: 0 < k <= |ios| ==> LastSaid(t, ios[..k]) == Ok(Tx.TxPoll.Pending)
  }

  datatype SendResult = StillSending | Sent | CutOff(error: Error) | SessionAborted

  function ResultOf(said: Result<Tx.TxPoll>): SendResult {
    match said
    case Err(e) => CutOff(e)
    case Ok(Pending) => StillSending
    case Ok(Aborted) => SessionAborted
    case Ok(_) => Sent
  }

  /** `polls` polls after the offer, the first that did not say `Pending` decided. */
  predicate SendsByte(t: Tx.Model, byte: u8, ios: seq<Io>, result: SendResult, polls: nat, end: Tx.Model)
    requires t.Coherent()
  {
    var (offered, r) := Tx.Offer(t, byte);
    && polls <= |ios|
    && if r.Err? then result == CutOff(r.error) && polls == 0 && end == t
       else
         && end == After(offered, ios[..polls])
         && if result == StillSending then polls == |ios| && AllPending(offered, ios)
            else
              && polls > 0 && AllPending(offered, ios[..polls - 1])
              && LastSaid(offered, ios[..polls]) != Ok(Tx.TxPoll.Pending)
              && result == ResultOf(LastSaid(offered, ios[..polls]))
  }

  /** `send_byte`: offer, then poll until a poll says something other than `Pending`. */
  method SendByte(sender: Tx.Sender, byte: u8, ios: seq<Io>) returns (result: SendResult, polls: nat)
    requires sender.Valid() && sender.View().Coherent()
    modifies sender.Repr
    ensures sender.Valid() && sender.View().Coherent()
    ensures SendsByte(old(sender.View()), byte, ios, result, polls, sender.View())
  {
    hide Tx.Poll, Tx.Sender.View;
    polls := 0;
    var offered := sender.TryOffer(byte);
    if offered.Err? {
      return CutOff(offered.error), 0;
    }
    ghost var t := sender.View();
    while polls < |ios|
      invariant polls <= |ios|
      invariant sender.Valid() && sender.View().Coherent()
      invariant sender.View() == After(t, ios[..polls])
      invariant AllPending(t, ios[..polls])
    {
      var said, calls := sender.PollOnce(ios[polls]);
      assert ios[..polls + 1][..polls] == ios[..polls];
      polls := polls + 1;
      assert said == LastSaid(t, ios[..polls]);
      if said != Ok(Tx.TxPoll.Pending) {
        assert ios[..polls][..polls - 1] == ios[..polls - 1];
        return ResultOf(said), polls;
      }
      forall k | 0 < k <= polls
        ensures LastSaid(t, ios[..polls][..k]) == Ok(Tx.TxPoll.Pending)
      {
        assert ios[..polls][..k] == ios[..k];
        if k < polls {
          assert ios[..polls - 1][..k] == ios[..k];
        }
      }
    }
    assert ios[..polls] == ios;
    return StillSending, polls;
  }

  lemma {:induction false} AfterIsAfterSilence(t: Tx.Model, ios: seq<Io>)
    requires t.Coherent() && forall k :: 0 <= k < |ios| ==> ios[k] == SILENCE
    ensures After(t, ios) == AfterSilence(t, |ios|)
    ensures ios != [] ==> LastSaid(t, ios) == Answer(t, |ios| - 1)
    decreases |ios|
  {
    hide Tx.Poll;
    if ios != [] {
      AfterIsAfterSilence(t, ios[..|ios| - 1]);
    }
  }

  /**
    A silent peer, however long the caller is prepared to poll: `send_byte`
    fails with `RetriesExhausted` on poll number
    `(max_retries + 1) * (4 + max(1, timeout_ticks))`, neither sooner nor later.
   */
  lemma SilentPeerIsGivenUpOn(t: Tx.Model, byte: u8, ios: seq<Io>, result: SendResult, polls: nat, end: Tx.Model)
    requires t.Coherent() && Tx.Offer(t, byte).1.Ok?
    requires forall k :: 0 <= k < |ios| ==> ios[k] == SILENCE
    requires SendsByte(t, byte, ios, result, polls, end)
    ensures
      var n := (t.policy.maxRetries + 1) * AttemptPolls(t.policy);
      if |ios| < n then result == StillSending && polls == |ios|
      else result == CutOff(RetriesExhausted) && polls == n
  {
    hide Tx.Poll, Ready, After;
    var offered := Tx.Offer(t, byte).0;
    var n := (t.policy.maxRetries + 1) * AttemptPolls(t.policy);
    OfferedIsReady(t, byte);
    GivesUpAfter(offered, t.policy.maxRetries);
    assert Pending(offered, n - 1) && Answer(offered, n - 1) == Err(RetriesExhausted);
    if result == StillSending {
      if |ios| >= n {
        PendingMeans(offered, ios, n);
      }
    } else {
      AfterIsAfterSilence(offered, ios[..polls]);
      if polls > n {
        PendingMeans(offered, ios[..polls - 1], n);
      }
    }
  }

  lemma PendingMeans(t: Tx.Model, ios: seq<Io>, n: nat)
    requires t.Coherent() && (forall k :: 0 <= k < |ios| ==> ios[k] == SILENCE)
    requires AllPending(t, ios) && 0 < n <= |ios|
    ensures Answer(t, n - 1) == Ok(Tx.TxPoll.Pending)
  {
    hide Tx.Poll, After;
    AfterIsAfterSilence(t, ios[..n]);
  }

  lemma OfferedIsReady(t: Tx.Model, byte: u8)
    requires t.Coherent() && Tx.Offer(t, byte).1.Ok?
    ensures Ready(Tx.Offer(t, byte).0, t.policy.maxRetries) && Tx.Offer(t, byte).0.policy == t.policy
  {
  }

  // ------------------------------------------------------------ selective repeat, any peer

  datatype WindowEvent = WOfferByte(byte: u8) | WOfferStart | WOfferEnd | WOfferAbort | WCancelHere | WPoll(io: Io)

  /** A windowed sender, and how often each slot's current frame has gone on the wire whole. */
  datatype WindowObserved = WindowObserved(tx: WindowTx.Model, sent: seq<nat>)

  /** Offering leaves the tallies of the slots it leaves alone, and starts the others at nothing. */
  function Offered(o: WindowObserved, tx: WindowTx.Model): WindowObserved
    requires |o.sent| == |o.tx.slots| == |tx.slots|
  {
    WindowObserved(
      tx, seq(|o.sent|, i requires 0 <= i < |o.sent| => if tx.slots[i] == o.tx.slots[i] then o.sent[i] else 0))
  }

  /** The slot whose frame a poll completes, if it completes one. */
  function Completed(t: WindowTx.Model, io: Io): Option<nat>
    requires t.Coherent()
  {
    if WindowTx.Terminal(t.state) || !WindowTx.WillWrite(t) then None
    else if !io.writeOk || !WindowTx.Poll(t, io).next.out.Idle() then None
    else Some(if t.writing.Some? then t.writing.value else WindowTx.NextToWrite(t.slots).value)
  }

  function WindowStep(o: WindowObserved, e: WindowEvent): (r: WindowObserved)
    requires o.tx.Coherent() && |o.sent| == |o.tx.slots|
    ensures r.tx.Coherent() && |r.sent| == |r.tx.slots|
  {
    match e
    case WOfferByte(byte) => Offered(o, WindowTx.Offer(o.tx, byte).0)
    case WOfferStart => Offered(o, WindowTx.OfferStart(o.tx).0)
    case WOfferEnd => Offered(o, WindowTx.OfferFinish(o.tx).0)
    case WOfferAbort => Offered(o, WindowTx.OfferAbort(o.tx).0)
    case WCancelHere => Offered(o, WindowTx.ForceAbort(o.tx))
    case WPoll(io) =>
      var n := WindowTx.Poll(o.tx, io).next;
      match Completed(o.tx, io)
      case None => o.(tx := n)
      case Some(i) => WindowObserved(n, o.sent[i := o.sent[i] + 1])
  }

  predicate SlotTallied(s: Option<WindowTx.TxSlot>, sent: nat, policy: Tx.RetryPolicy) {
    s.Some? ==> sent + s.value.retriesLeft + (if s.value.Unsent() then 1 else 0) == policy.maxRetries + 1
  }

  predicate AllTallied(slots: WindowTx.Slots, sent: seq<nat>, policy: Tx.RetryPolicy) {
    |sent| == |slots| && forall i :: 0 <= i < |slots| ==> SlotTallied(slots[i], sent[i], policy)
  }

  predicate WindowTallied(o: WindowObserved) {
    o.tx.Coherent() && AllTallied(o.tx.slots, o.sent, o.tx.policy)
  }

  /** The timer scan spends a retry exactly where it asks for a retransmission. */
  lemma {:induction false} TickTallies(t: WindowTx.Model, i: nat, sent: seq<nat>)
    requires t.Coherent() && i <= |t.slots| && t.out.Idle() && !WindowTx.Terminal(t.state)
    requires AllTallied(t.slots, sent, t.policy)
    ensures AllTallied(WindowTx.TickFrom(t, i).0.slots, sent, t.policy)
    ensures WindowTx.TickFrom(t, i).0.policy == t.policy
    decreases |t.slots| - i
  {
    if i < |t.slots| {
      if !WindowTx.Ticks(t, i) {
        TickTallies(t, i + 1, sent);
      } else {
        var s := WindowTx.TickSlot(t.slots[i].value, t.policy.timeoutTicks);
        if s.Some? {
          var q := t.(slots := t.slots[i := s]);
          if s.value.needsRetransmit {
            TickTallies(q.(state := Tx.TxState.Retrying, mark := t.mark.(retransmit := true)), i + 1, sent);
          } else {
            TickTallies(q, i + 1, sent);
          }
        }
      }
    }
  }

  lemma ControlTallies(t: WindowTx.Model, f: Frame, sent: seq<nat>)
    requires t.Coherent() && WindowTx.WillRead(t) && AllTallied(t.slots, sent, t.policy)
    ensures AllTallied(WindowTx.OnControl(t, f).0.slots, sent, t.policy)
    ensures WindowTx.OnControl(t, f).0.policy == t.policy
  {
    hide WindowTx.SessionAlone, WindowTx.Empty;
  }

  lemma WriteTallies(o: WindowObserved, io: Io)
    requires WindowTallied(o) && !WindowTx.Terminal(o.tx.state) && WindowTx.WillWrite(o.tx)
    ensures
      var n := WindowStep(o, WPoll(io));
      AllTallied(n.tx.slots, n.sent, n.tx.policy) && n.tx.policy == o.tx.policy
  {
    hide ToBytes, WindowTx.SessionAlone, WindowTx.Empty;
  }

  lemma PollTallies(o: WindowObserved, io: Io)
    requires WindowTallied(o)
    ensures
      var n := WindowStep(o, WPoll(io));
      WindowTallied(n) && n.tx.policy == o.tx.policy
  {
    if !WindowTx.Terminal(o.tx.state) {
      if WindowTx.WillWrite(o.tx) {
        WriteTallies(o, io);
      } else {
        hide FromBytes, Push, WindowTx.OnControl, WindowTx.SessionAlone, WindowTx.Empty, AllTallied,
          WindowTx.NextToWrite;
        if io.read.NoByte? {
          TickTallies(o.tx, 0, o.sent);
        } else if io.read.GotByte? {
          var (asm, word) := Push(o.tx.asm, io.read.byte);
          if word.Some? && FromBytes(word.value).Good? {
            ControlTallies(o.tx.(asm := asm), FromBytes(word.value).frame, o.sent);
          }
        }
      }
    }
  }

  lemma OfferTallies(o: WindowObserved, e: WindowEvent)
    requires WindowTallied(o) && !e.WPoll?
    ensures WindowTallied(WindowStep(o, e)) && WindowStep(o, e).tx.policy == o.tx.policy
  {
    hide ToBytes, WindowTx.SessionAlone, WindowTx.InSendWindow, WindowTx.HasSession;
  }

  function WindowRun(o: WindowObserved, events: seq<WindowEvent>): (end: WindowObserved)
    requires o.tx.Coherent() && |o.sent| == |o.tx.slots|
    ensures end.tx.Coherent() && |end.sent| == |end.tx.slots|
    decreases |events|
  {
    if events == [] then o else WindowRun(WindowStep(o, events[0]), events[1..])
  }

  lemma WindowStepTallies(o: WindowObserved, e: WindowEvent)
    requires WindowTallied(o)
    ensures WindowTallied(WindowStep(o, e)) && WindowStep(o, e).tx.policy == o.tx.policy
  {
    hide WindowTallied, WindowStep;
    if e.WPoll? { PollTallies(o, e.io); } else { OfferTallies(o, e); }
  }

  lemma {:induction false} WindowRunTallies(o: WindowObserved, events: seq<WindowEvent>)
    requires o.tx.Coherent() && |o.sent| == |o.tx.slots| && WindowTallied(o)
    ensures WindowTallied(WindowRun(o, events)) && WindowRun(o, events).tx.policy == o.tx.policy
    decreases |events|
  {
    hide WindowStep, WindowTallied;
    if events != [] {
      WindowStepTallies(o, events[0]);
      WindowRunTallies(WindowStep(o, events[0]), events[1..]);
    }
  }

  function WindowStart(n: nat, limit: nat, policy: Tx.RetryPolicy): (o: WindowObserved)
    requires 1 <= n <= WindowTx.MAX_WINDOW
    ensures WindowTallied(o) && o.tx.policy == policy
  {
    WindowObserved(WindowTx.SetLimit(WindowTx.Fresh(n, policy), limit), seq(n, _ => 0))
  }

  /**
    The same bound for every slot of the windowed sender: whatever is offered,
    arrives or fails, no slot's frame has been on the wire more than
    `max_retries + 1` times, and one without retries left that is not waiting
    to be written has been on it exactly that often.
   */
  lemma WindowedFlightsAreBounded(n: nat, limit: nat, policy: Tx.RetryPolicy, events: seq<WindowEvent>, i: nat)
    requires 1 <= n <= WindowTx.MAX_WINDOW
    ensures
      var end := WindowRun(WindowStart(n, limit, policy), events);
      i < |end.tx.slots| && end.tx.slots[i].Some? ==>
        && end.sent[i] <= policy.maxRetries + 1
        && (end.tx.slots[i].value.retriesLeft == 0 && !end.tx.slots[i].value.Unsent() ==>
              end.sent[i] == policy.maxRetries + 1)
  {
    hide WindowRun;
    WindowRunTallies(WindowStart(n, limit, policy), events);
    var end := WindowRun(WindowStart(n, limit, policy), events);
    assert i < |end.tx.slots| ==> SlotTallied(end.tx.slots[i], end.sent[i], policy);
  }
}
