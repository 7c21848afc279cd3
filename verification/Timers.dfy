/**
  The timers of the selective-repeat sender.  Over every run against any peer, a
  slot's timer is the number of silent polls since its frame last went out whole,
  and the slot asks to be sent again on exactly the silent poll the policy names,
  each slot counting on its own.  A single flight facing a silent peer is given
  up on after exactly as many polls as the stop-and-wait sender takes.
 */
module Timers {
  import opened Prelude
  import opened Wire
  import opened Framing
  import Tx
  import opened WindowTx
  import Retry

  // ------------------------------------------------------------ one silent poll

  /** The timer of this slot runs: its frame is out and nobody asked for it again. */
  predicate Runs(s: Option<TxSlot>) {
    s.Some? && !s.value.Unsent()
  }

  /** Its next silent poll is the last it waits for. */
  predicate Expires(s: TxSlot, policy: Tx.RetryPolicy) {
    s.emptyTicks + 1 >= Retry.Patience(policy)
  }

  /** Nothing can be done for it then. */
  predicate Hopeless(s: Option<TxSlot>, policy: Tx.RetryPolicy) {
    Runs(s) && Expires(s.value, policy) && s.value.retriesLeft == 0
  }

  predicate AnyHopeless(t: Model, from: nat) {
    exists j :: from <= j < |t.slots| && Hopeless(t.slots[j], t.policy)
  }

  predicate AnyExpires(t: Model, from: nat) {
    exists j :: from <= j < |t.slots| && Runs(t.slots[j]) && Expires(t.slots[j].value, t.policy)
  }

  /** One silent poll later: one tick older, or asking to be sent again with a retry less. */
  function Older(s: Option<TxSlot>, policy: Tx.RetryPolicy): Option<TxSlot>
    requires !Hopeless(s, policy)
  {
    if !Runs(s) then s
    else if Expires(s.value, policy) then
      Some(s.value.(retriesLeft := s.value.retriesLeft - 1, needsRetransmit := true, emptyTicks := 0))
    else Some(s.value.(emptyTicks := s.value.emptyTicks + 1))
  }

  /** Every timer counts below what its slot waits for. */
  predicate Counting(t: Model) {
    forall j :: 0 <= j < |t.slots| && Runs(t.slots[j]) ==> t.slots[j].value.emptyTicks < Retry.Patience(t.policy)
  }

  lemma TickOne(s: TxSlot, policy: Tx.RetryPolicy)
    requires !s.Unsent() && s.emptyTicks < Retry.Patience(policy)
    ensures Hopeless(Some(s), policy) <==> TickSlot(s, policy.timeoutTicks) == None
    ensures !Hopeless(Some(s), policy) ==> TickSlot(s, policy.timeoutTicks) == Older(Some(s), policy)
    ensures !Hopeless(Some(s), policy) ==> (Older(Some(s), policy).value.needsRetransmit <==> Expires(s, policy))
  {
  }

  /** The timer scan from slot `i` on gives up at a hopeless slot, or ages every slot by itself. */
  predicate ScansFrom(t: Model, i: nat, n: Model, said: Result<TxPoll>)
    requires |n.slots| == |t.slots|
  {
    if AnyHopeless(t, i) then
      said == Err(RetriesExhausted) && n.state == Tx.TxState.Failed && Empty(n.slots) && n.policy == t.policy
    else
      && said == Ok(Tx.TxPoll.Pending) && !Terminal(n.state)
      && n == t.(slots := n.slots, state := if AnyExpires(t, i) then Tx.TxState.Retrying else t.state,
                 mark := t.mark.(retransmit := t.mark.retransmit || AnyExpires(t, i)))
      && (forall j :: 0 <= j < i && j < |t.slots| ==> n.slots[j] == t.slots[j])
      && (forall j :: i <= j < |t.slots| ==>
            !Hopeless(t.slots[j], t.policy) && n.slots[j] == Older(t.slots[j], t.policy))
  }

  /** Slot `i` alone has ticked. */
  function Ticked(t: Model, i: nat): (u: Model)
    requires t.Coherent() && i < |t.slots| && t.out.Idle() && !Terminal(t.state) && Ticks(t, i)
    requires TickSlot(t.slots[i].value, t.policy.timeoutTicks).Some?
    ensures u.Coherent() && |u.slots| == |t.slots| && u.out.Idle() && !Terminal(u.state)
    ensures TickFrom(t, i) == TickFrom(u, i + 1)
    ensures
      var s := TickSlot(t.slots[i].value, t.policy.timeoutTicks);
      var asks := s.value.needsRetransmit;
      u == t.(slots := t.slots[i := s], state := if asks then Tx.TxState.Retrying else t.state,
              mark := t.mark.(retransmit := t.mark.retransmit || asks))
  {
    var s := TickSlot(t.slots[i].value, t.policy.timeoutTicks);
    var q := t.(slots := t.slots[i := s]);
    if s.value.needsRetransmit then q.(state := Tx.TxState.Retrying, mark := t.mark.(retransmit := true)) else q
  }

  lemma {:induction false} Scans(t: Model, i: nat)
    requires t.Coherent() && i <= |t.slots| && t.out.Idle() && !Terminal(t.state) && Counting(t)
    ensures var (n, said) := TickFrom(t, i); ScansFrom(t, i, n, said)
    decreases |t.slots| - i
  {
    hide TickSlot, SessionAlone, Empty, Older;
    if i < |t.slots| {
      if !Ticks(t, i) {
        Scans(t, i + 1);
        SkipsOne(t, i);
      } else {
        TickOne(t.slots[i].value, t.policy);
        if TickSlot(t.slots[i].value, t.policy.timeoutTicks).Some? {
          var u := Ticked(t, i);
          StillCounting(t, u, i);
          Scans(u, i + 1);
          var (n, said) := TickFrom(t, i);
          AgesOne(t, u, i, n, said);
        } else {
          assert Hopeless(t.slots[i], t.policy);
        }
      }
    }
  }

  lemma SkipsOne(t: Model, i: nat)
    requires t.Coherent() && i < |t.slots| && t.out.Idle() && !Terminal(t.state) && !Ticks(t, i)
    requires var (n, said) := TickFrom(t, i + 1); ScansFrom(t, i + 1, n, said)
    ensures var (n, said) := TickFrom(t, i); ScansFrom(t, i, n, said)
  {
    hide SessionAlone, Empty;
    assert !Runs(t.slots[i]);
    assert AnyHopeless(t, i) <==> AnyHopeless(t, i + 1);
    assert AnyExpires(t, i) <==> AnyExpires(t, i + 1);
  }

  lemma StillCounting(t: Model, u: Model, i: nat)
    requires Counting(t) && i < |t.slots| && Runs(t.slots[i]) && !Hopeless(t.slots[i], t.policy)
    requires u.slots == t.slots[i := Older(t.slots[i], t.policy)] && u.policy == t.policy
    ensures Counting(u)
  {
  }

  lemma AgesOne(t: Model, u: Model, i: nat, n: Model, said: Result<TxPoll>)
    requires i < |t.slots| == |u.slots| == |n.slots| && !Hopeless(t.slots[i], t.policy)
    requires Runs(t.slots[i]) && t.slots[i].Some?
    requires
      var asks := Expires(t.slots[i].value, t.policy);
      u == t.(slots := t.slots[i := Older(t.slots[i], t.policy)],
              state := if asks then Tx.TxState.Retrying else t.state,
              mark := t.mark.(retransmit := t.mark.retransmit || asks))
    requires ScansFrom(u, i + 1, n, said)
    ensures ScansFrom(t, i, n, said)
  {
    hide Hopeless, Older, Empty, Expires, Runs;
    assert forall j :: i < j < |t.slots| ==> u.slots[j] == t.slots[j];
    assert AnyHopeless(t, i) <==> AnyHopeless(u, i + 1);
    assert AnyExpires(t, i) <==> Expires(t.slots[i].value, t.policy) || AnyExpires(u, i + 1);
  }

  /** A silent poll of a sender whose frames are all out. */
  lemma SilentPoll(t: Model, io: Io)
    requires t.Coherent() && WillRead(t) && Counting(t) && io.read.NoByte?
    ensures
      var p := Poll(t, io);
      ScansFrom(t, 0, p.next, p.result) && p.calls == Calls(None, true)
  {
    hide ScansFrom, NextToWrite, SessionAlone, Empty;
    Scans(t, 0);
  }

  // ------------------------------------------------------------ every run

  /** A sender, and for each slot the silent polls since its frame last went out whole. */
  datatype Clock = Clock(tx: Model, quiet: seq<nat>)

  predicate Sound(c: Clock) {
    c.tx.Coherent() && |c.quiet| == |c.tx.slots|
  }

  type Event = Retry.WindowEvent

  function Quieter(c: Clock, io: Io): (quiet: seq<nat>)
    requires Sound(c)
    ensures |quiet| == |c.quiet|
  {
    match Retry.Completed(c.tx, io)
    case Some(i) => c.quiet[i := 0]
    case None =>
      if Poll(c.tx, io).calls.didRead && io.read.NoByte?
      then seq(|c.quiet|, i requires 0 <= i < |c.quiet| => c.quiet[i] + 1)
      else c.quiet
  }

  function Step(c: Clock, e: Event): (n: Clock)
    requires Sound(c)
    ensures Sound(n)
  {
    match e
    case WOfferByte(byte) => c.(tx := Offer(c.tx, byte).0)
    case WOfferStart => c.(tx := OfferStart(c.tx).0)
    case WOfferEnd => c.(tx := OfferFinish(c.tx).0)
    case WOfferAbort => c.(tx := OfferAbort(c.tx).0)
    case WCancelHere => c.(tx := ForceAbort(c.tx))
    case WPoll(io) => Clock(Poll(c.tx, io).next, Quieter(c, io))
  }

  predicate TimerIs(s: Option<TxSlot>, quiet: nat, policy: Tx.RetryPolicy) {
    Runs(s) ==> s.value.emptyTicks == quiet < Retry.Patience(policy)
  }

  predicate Timed(c: Clock) {
    && Sound(c)
    && forall j :: 0 <= j < |c.quiet| ==> TimerIs(c.tx.slots[j], c.quiet[j], c.tx.policy)
  }

  lemma OfferTimed(c: Clock, e: Event)
    requires Timed(c) && !e.WPoll?
    ensures Timed(Step(c, e)) && Step(c, e).tx.policy == c.tx.policy
  {
    hide SessionAlone, InSendWindow, HasSession;
  }

  lemma WriteTimed(c: Clock, io: Io)
    requires Timed(c) && !Terminal(c.tx.state) && WillWrite(c.tx)
    ensures Timed(Step(c, Event.WPoll(io))) && Step(c, Event.WPoll(io)).tx.policy == c.tx.policy
  {
    hide ToBytes, SessionAlone, Empty;
  }

  /** An answer frees slots or asks for them again; it moves no timer. */
  lemma ControlTimed(c: Clock, f: Frame)
    requires Timed(c) && WillRead(c.tx)
    ensures Timed(c.(tx := OnControl(c.tx, f).0)) && OnControl(c.tx, f).0.policy == c.tx.policy
  {
    hide SessionAlone, Empty, NextToWrite, TimerIs, OnControl;
    var n := OnControl(c.tx, f).0;
    ControlMovesNoTimer(c.tx, f);
    forall j | 0 <= j < |c.quiet|
      ensures TimerIs(n.slots[j], c.quiet[j], n.policy)
    {
      assert TimerIs(c.tx.slots[j], c.quiet[j], c.tx.policy);
      TimerKept(c.tx.slots[j], n.slots[j], c.quiet[j], n.policy);
    }
  }

  lemma ControlMovesNoTimer(t: Model, f: Frame)
    requires t.Coherent() && WillRead(t)
    ensures
      var n := OnControl(t, f).0;
      && n.policy == t.policy
      && forall j :: 0 <= j < |t.slots| ==> !Runs(n.slots[j]) || n.slots[j] == t.slots[j]
  {
    hide SessionAlone, NextToWrite;
  }

  lemma TimerKept(a: Option<TxSlot>, b: Option<TxSlot>, quiet: nat, policy: Tx.RetryPolicy)
    requires TimerIs(a, quiet, policy) && (!Runs(b) || b == a)
    ensures TimerIs(b, quiet, policy)
  {
  }

  lemma SilenceTimed(c: Clock, io: Io)
    requires Timed(c) && WillRead(c.tx) && io.read.NoByte?
    ensures Timed(Step(c, Event.WPoll(io))) && Step(c, Event.WPoll(io)).tx.policy == c.tx.policy
  {
    SilentPoll(c.tx, io);
    hide Poll, SessionAlone, NextToWrite;
  }

  lemma ByteTimed(c: Clock, io: Io)
    requires Timed(c) && WillRead(c.tx) && !io.read.NoByte?
    ensures Timed(Step(c, Event.WPoll(io))) && Step(c, Event.WPoll(io)).tx.policy == c.tx.policy
  {
    hide FromBytes, Push, OnControl, SessionAlone, Empty, NextToWrite;
    if io.read.GotByte? {
      var (asm, word) := Push(c.tx.asm, io.read.byte);
      if word.Some? && FromBytes(word.value).Good? {
        ControlTimed(c.(tx := c.tx.(asm := asm)), FromBytes(word.value).frame);
      }
    }
  }

  lemma StepTimed(c: Clock, e: Event)
    requires Timed(c)
    ensures Timed(Step(c, e)) && Step(c, e).tx.policy == c.tx.policy
  {
    hide Timed, NextToWrite, Empty, SessionAlone;
    TimedIsSound(c);
    if !e.WPoll? {
      OfferTimed(c, e);
    } else if Terminal(c.tx.state) {
      RestTimed(c, e.io);
    } else if WillWrite(c.tx) {
      WriteTimed(c, e.io);
    } else if e.io.read.NoByte? {
      SilenceTimed(c, e.io);
    } else {
      ByteTimed(c, e.io);
    }
  }

  lemma TimedIsSound(c: Clock)
    requires Timed(c)
    ensures Sound(c)
  {
  }

  lemma RestTimed(c: Clock, io: Io)
    requires Timed(c) && Terminal(c.tx.state)
    ensures Step(c, Event.WPoll(io)) == c
  {
  }

  function Run(c: Clock, events: seq<Event>): (end: Clock)
    requires Sound(c)
    ensures Sound(end)
    decreases |events|
  {
    if events == [] then c else Run(Step(c, events[0]), events[1..])
  }

  lemma {:induction false} RunTimed(c: Clock, events: seq<Event>)
    requires Sound(c) && Timed(c)
    ensures Timed(Run(c, events)) && Run(c, events).tx.policy == c.tx.policy
    decreases |events|
  {
    hide Timed, Step;
    if events != [] {
      StepTimed(c, events[0]);
      RunTimed(Step(c, events[0]), events[1..]);
    }
  }

  function RunFromStart(n: nat, limit: nat, policy: Tx.RetryPolicy, events: seq<Event>): (end: Clock)
    requires 1 <= n <= MAX_WINDOW
    ensures Sound(end)
  {
    Run(Clock(SetLimit(WindowTx.Fresh(n, policy), limit), seq(n, _ => 0)), events)
  }

  /** This is the `max(1, timeout_ticks)`-th silent poll since the frame of slot `i` went out. */
  predicate TimeIsUp(c: Clock, i: nat)
    requires Sound(c) && i < |c.quiet|
  {
    c.tx.slots[i].Some? && c.quiet[i] + 1 == Retry.Patience(c.tx.policy)
  }

  /**
    For every window, policy and run, whatever the peer does: when a poll of a
    sender whose frames are all out finds nothing to read, it gives the window up
    if and only if the time of some slot without retries is up; otherwise exactly
    the slots whose time is up ask to be sent again, each a retry poorer, and no
    other slot does, whenever the others were written.
   */
  lemma EachSlotCountsOnItsOwn(n: nat, limit: nat, policy: Tx.RetryPolicy, events: seq<Event>, io: Io)
    requires 1 <= n <= MAX_WINDOW && io.read.NoByte?
    requires WillRead(RunFromStart(n, limit, policy, events).tx)
    ensures
      var c := RunFromStart(n, limit, policy, events);
      var p := Poll(c.tx, io);
      && c.tx.policy == policy
      && (p.result == Err(RetriesExhausted) <==>
            exists i :: 0 <= i < |c.quiet| && TimeIsUp(c, i) && c.tx.slots[i].value.retriesLeft == 0)
      && (p.result == Err(RetriesExhausted) || p.result == Ok(Tx.TxPoll.Pending))
      && (p.result.Ok? ==> forall i :: 0 <= i < |c.quiet| && c.tx.slots[i].Some? ==>
            && c.quiet[i] < Retry.Patience(policy)
            && p.next.slots[i].Some?
            && var s := p.next.slots[i].value;
               if TimeIsUp(c, i)
               then s.needsRetransmit && s.retriesLeft == c.tx.slots[i].value.retriesLeft - 1
               else !s.needsRetransmit && s.retriesLeft == c.tx.slots[i].value.retriesLeft)
  {
    hide Run, Poll, SessionAlone;
    var start := Clock(SetLimit(WindowTx.Fresh(n, policy), limit), seq(n, _ => 0));
    RunTimed(start, events);
    var c := RunFromStart(n, limit, policy, events);
    SilentPoll(c.tx, io);
    AllRun(c.tx);
    assert forall i :: 0 <= i < |c.quiet| ==> TimerIs(c.tx.slots[i], c.quiet[i], policy);
    assert AnyHopeless(c.tx, 0) <==>
      exists i :: 0 <= i < |c.quiet| && TimeIsUp(c, i) && c.tx.slots[i].value.retriesLeft == 0;
  }

  lemma AllRun(t: Model)
    requires WillRead(t)
    ensures forall i :: 0 <= i < |t.slots| && t.slots[i].Some? ==> Runs(t.slots[i])
  {
    hide FirstRetransmit, FirstNew;
  }

  // ------------------------------------------------------------ one flight, a silent peer

  function AfterSilence(t: Model, n: nat): (end: Model)
    requires t.Coherent()
    ensures end.Coherent()
  {
    if n == 0 then t else Poll(AfterSilence(t, n - 1), Retry.SILENCE).next
  }

  /** What poll number `k`, counted from 0, answers. */
  function Answer(t: Model, k: nat): Result<TxPoll>
    requires t.Coherent()
  {
    Poll(AfterSilence(t, k), Retry.SILENCE).result
  }

  /** Slot `i` is the only flight, at the point at which the stop-and-wait sender `u` is with its own. */
  predicate Alike(t: Model, i: nat, u: Tx.Model) {
    && t.Coherent() && u.Coherent() && !Terminal(t.state) && t.policy == u.policy
    && i < |t.slots| && t.slots[i].Some? && (forall j :: 0 <= j < |t.slots| && j != i ==> t.slots[j] == None)
    && u.inflight.Some? && u.out.pos == t.out.pos
    && var s, f := t.slots[i].value, u.inflight.value;
       && s.retriesLeft == f.retriesLeft && (f.waiting <==> !s.Unsent())
       && (f.waiting ==> s.emptyTicks == f.emptyTicks < Retry.Patience(t.policy))
  }

  lemma LoneIsDue(t: Model, i: nat)
    requires i < |t.slots| && t.slots[i].Some? && (forall j :: 0 <= j < |t.slots| && j != i ==> t.slots[j] == None)
    ensures NextToWrite(t.slots) == if t.slots[i].value.Unsent() then Some(i) else None
  {
    hide FirstRetransmit, FirstNew;
    assert NextToWrite(t.slots).Some? <==> t.slots[i].value.Unsent();
  }

  lemma WritesAlike(t: Model, i: nat, u: Tx.Model)
    requires Alike(t, i, u) && !u.inflight.value.waiting
    ensures
      var p, q := Poll(t, Retry.SILENCE), Tx.Poll(u, Retry.SILENCE);
      p.result == q.result == Ok(Tx.TxPoll.Pending) && Alike(p.next, i, q.next)
  {
    hide ToBytes, NextToWrite, SessionAlone;
    LoneIsDue(t, i);
  }

  lemma TicksAlike(t: Model, i: nat, u: Tx.Model)
    requires Alike(t, i, u) && u.inflight.value.waiting
    ensures
      var p, q := Poll(t, Retry.SILENCE), Tx.Poll(u, Retry.SILENCE);
      p.result == q.result && (p.result.Ok? ==> p.result == Ok(Tx.TxPoll.Pending) && Alike(p.next, i, q.next))
  {
    hide NextToWrite, SessionAlone, TickFrom;
    LoneIsDue(t, i);
    WaitingIsIdle(t, i, u);
    SilentPoll(t, Retry.SILENCE);
    assert Hopeless(t.slots[i], t.policy) <==> AnyHopeless(t, 0);
    hide Poll;
  }

  lemma WaitingIsIdle(t: Model, i: nat, u: Tx.Model)
    requires Alike(t, i, u) && u.inflight.value.waiting
    ensures t.out.Idle() && u.out.Idle() && Counting(t)
  {
  }

  lemma {:induction false} StaysAlike(t: Model, i: nat, u: Tx.Model, n: nat)
    requires Alike(t, i, u) && Retry.Pending(u, n)
    ensures Alike(AfterSilence(t, n), i, Retry.AfterSilence(u, n))
    ensures forall k :: 0 <= k <= n ==> Answer(t, k) == Retry.Answer(u, k)
  {
    hide Alike, Poll, Tx.Poll;
    AlikeIsCoherent(t, i, u);
    if n > 0 {
      assert Retry.Answer(u, n - 1) == Ok(Tx.TxPoll.Pending);
      StaysAlike(t, i, u, n - 1);
      PollsAlike(AfterSilence(t, n - 1), i, Retry.AfterSilence(u, n - 1));
    }
    PollsAlike(AfterSilence(t, n), i, Retry.AfterSilence(u, n));
  }

  lemma AlikeIsCoherent(t: Model, i: nat, u: Tx.Model)
    requires Alike(t, i, u)
    ensures t.Coherent() && u.Coherent()
  {
  }

  lemma PollsAlike(t: Model, i: nat, u: Tx.Model)
    requires Alike(t, i, u)
    ensures t.Coherent() && u.Coherent()
    ensures
      var p, q := Poll(t, Retry.SILENCE), Tx.Poll(u, Retry.SILENCE);
      p.result == q.result && (p.result.Ok? ==> Alike(p.next, i, q.next))
  {
    hide Poll, Tx.Poll;
    if u.inflight.value.waiting { TicksAlike(t, i, u); } else { WritesAlike(t, i, u); }
  }

  /**
    A single flight of the windowed sender, facing a silent peer: with `r`
    retries left every poll before number `(r + 1) * (4 + max(1, timeout_ticks))`
    says `Pending`, and that one gives up, as the stop-and-wait sender does.
   */
  lemma LoneFlightGivesUpAfter(t: Model, i: nat)
    requires t.Coherent() && !Terminal(t.state) && t.out.Idle() && i < |t.slots| && t.slots[i].Some?
    requires (forall j :: 0 <= j < |t.slots| && j != i ==> t.slots[j] == None) && t.slots[i].value.Unsent()
    ensures
      var n := (t.slots[i].value.retriesLeft + 1) * Retry.AttemptPolls(t.policy);
      && n >= 1 && Answer(t, n - 1) == Err(RetriesExhausted)
      && forall k :: 0 <= k < n - 1 ==> Answer(t, k) == Ok(Tx.TxPoll.Pending)
  {
    hide Poll, Tx.Poll, Alike, Answer, Retry.Answer, ToBytes, SessionAlone, Retry.AttemptPolls;
    var r := t.slots[i].value.retriesLeft;
    var u := TwinOf(t, r);
    assert Alike(t, i, u) by { IsTwin(t, i); }
    var n := (r + 1) * Retry.AttemptPolls(t.policy);
    Retry.GivesUpAfter(u, r);
    StaysAlike(t, i, u, n - 1);
    forall k | 0 <= k < n - 1
      ensures Answer(t, k) == Ok(Tx.TxPoll.Pending)
    {
      assert Retry.Answer(u, k) == Ok(Tx.TxPoll.Pending);
    }
  }

  /** A stop-and-wait sender with a flight about to be written and `r` retries behind it. */
  function TwinOf(t: Model, r: count8): (u: Tx.Model)
    ensures Retry.Ready(u, r)
  {
    Tx.Model(0, Tx.TxState.Sending, t.policy, FRESH_PLAIN,
             Some(Tx.Flight(Tx.FlightKind.Start, 0, r, false, 0)), NOTHING_OUTGOING, Tx.NO_MARK)
  }

  lemma IsTwin(t: Model, i: nat)
    requires t.Coherent() && !Terminal(t.state) && t.out.Idle() && i < |t.slots| && t.slots[i].Some?
    requires (forall j :: 0 <= j < |t.slots| && j != i ==> t.slots[j] == None) && t.slots[i].value.Unsent()
    ensures Alike(t, i, TwinOf(t, t.slots[i].value.retriesLeft))
  {
  }
}
