/**
  `DuplexWire::copy`: a byte source pumped through a stop-and-wait pair, two
  demultiplexed lanes and one-byte polls into a byte sink.
 */
module Copy {
  import opened Prelude
  import Tx
  import Demux
  import Pump
  import StopAndWait
  import opened Duplex
  import Pace

  const POLLS := 1_000_000

  datatype CopyError = Source | Sink | Protocol | Stalled

  datatype CopyResult = Copied(n: nat) | Failed(error: CopyError)

  function Min(a: nat, b: nat): nat {
    if a < b then a else b
  }

  /** What was read from the source was offered, but for the byte in hand. */
  predicate Offered(offered: seq<u8>, hold: Option<u8>, source: seq<u8>, taken: nat)
    requires taken <= |source|
  {
    offered + (if hold.Some? then [hold.value] else []) == source[..taken]
  }

  lemma HoldIsNext(offered: seq<u8>, hold: Option<u8>, source: seq<u8>, taken: nat)
    requires taken <= |source| && Offered(offered, hold, source, taken)
    ensures hold.Some? ==> |offered| < |source| && source[|offered|] == hold.value
    ensures hold == None ==> |offered| == taken
  {
    if hold.Some? {
      assert source[..taken][|offered|] == hold.value;
    }
  }

  /** Take the next byte of the source in hand, unless one is held or the source has ended. */
  method TakeNext(source: seq<u8>, sourceFault: Option<nat>, ghost offered: seq<u8>,
                  hold: Option<u8>, exhausted: bool, taken: nat)
    returns (ok: bool, hold': Option<u8>, exhausted': bool, taken': nat)
    requires taken <= |source| && Offered(offered, hold, source, taken)
    requires exhausted ==> taken == |source|
    ensures taken' <= |source| && Offered(offered, hold', source, taken')
    ensures exhausted' ==> taken' == |source|
    ensures !ok <==> hold == None && !exhausted && sourceFault == Some(taken)
    ensures ok ==> hold'.Some? || exhausted'
    ensures exhausted ==> exhausted' && hold' == hold
    ensures hold.Some? ==> hold' == hold && exhausted' == exhausted
    ensures hold == None && !exhausted && exhausted' ==> hold' == None
  {
    ok, hold', exhausted', taken' := true, hold, exhausted, taken;
    if hold == None && !exhausted {
      if sourceFault == Some(taken) {
        ok := false;
      } else if taken < |source| {
        hold' := Some(source[taken]);
        taken' := taken + 1;
        assert offered + [source[taken]] == source[..taken + 1];
      } else {
        exhausted' := true;
      }
    }
  }

  /** Offer the byte in hand to an idle sender, or FINISH when the source has ended. */
  method OfferNext(ghost s: StopAndWait.Sys, a: Pump.Model, ghost b: Pump.Model, ghost ab: Demux.Model,
                   ghost ba: Demux.Model,
                   hold: Option<u8>, exhausted: bool, finishOffered: bool, ghost source: seq<u8>, ghost taken: nat)
    returns (ghost n: StopAndWait.Sys, a': Pump.Model, hold': Option<u8>, finishOffered': bool)
    requires Running(s, a, b, ab, ba) && a.tx.state == Tx.TxState.Idle
    requires taken <= |source| && Offered(s.offered, hold, source, taken)
    requires !finishOffered && (hold.Some? || exhausted) && (exhausted ==> taken == |source|)
    requires Pace.Between(SeqOf(|s.offered|), a, b, ab, ba)
    ensures Running(n, a', b, ab, ba)
    ensures Offered(n.offered, hold', source, taken)
    ensures n.delivered == s.delivered
    ensures Pace.Underway(14 * |s.offered|, |s.offered|, 0, finishOffered', source, a', b, ab, ba)
    ensures |n.offered| == |s.offered| + (if finishOffered' then 0 else 1)
    ensures hold' == None && (finishOffered' <==> hold == None)
    ensures n.finishing ==> finishOffered' || s.finishing
  {
    hide StopAndWait.Inv, Wired, Pace.Between, Pace.At;
    n, a', hold', finishOffered' := s, a, hold, finishOffered;
    Pace.OfferStarts(SeqOf(|s.offered|), if hold.Some? then hold.value else 0, a, b, ab, ba);
    HoldIsNext(s.offered, hold, source, taken);
    if hold.Some? {
      n := OfferRuns(s, a, b, ab, ba, hold.value);
      a' := a.(tx := Tx.Offer(a.tx, hold.value).0);
      hold' := if Tx.Offer(a.tx, hold.value).1.Ok? then None else hold;
      assert n.offered + [] == n.offered;
    } else if exhausted && !finishOffered {
      n := OfferEndRuns(s, a, b, ab, ba);
      a' := a.(tx := Tx.OfferFinish(a.tx).0);
      finishOffered' := Tx.OfferFinish(a.tx).1.Ok?;
    }
  }

  lemma BetweenOnPace(polls: nat, done: nat, phase: nat, finishing: bool, source: seq<u8>,
                      a: Pump.Model, b: Pump.Model, ab: Demux.Model, ba: Demux.Model)
    requires Pace.OnPace(polls, done, phase, finishing, source, a, b, ab, ba) && phase == 0
    ensures !finishing && polls == 14 * done && Pace.Between(SeqOf(done), a, b, ab, ba)
  {
    hide Pace.Between, Pace.At;
  }

  /** The loop's middle: offer if the sender is idle, and leave it alone if not. */
  method OfferIfIdle(ghost s: StopAndWait.Sys, a: Pump.Model, ghost b: Pump.Model, ghost ab: Demux.Model,
                     ghost ba: Demux.Model,
                     hold: Option<u8>, exhausted: bool, finishOffered: bool, ghost source: seq<u8>, ghost taken: nat,
                     ghost polls: nat, ghost done: nat, ghost phase: nat)
    returns (ghost n: StopAndWait.Sys, a': Pump.Model, hold': Option<u8>, finishOffered': bool)
    requires Running(s, a, b, ab, ba)
    requires taken <= |source| && Offered(s.offered, hold, source, taken)
    requires hold.Some? || exhausted
    requires exhausted ==> taken == |source|
    requires finishOffered ==> exhausted && hold == None
    requires s.finishing ==> finishOffered
    requires Pace.OnPace(polls, done, phase, finishOffered, source, a, b, ab, ba)
    requires |s.offered| == done + (if phase > 0 && !finishOffered then 1 else 0)
    ensures Running(n, a', b, ab, ba)
    ensures Offered(n.offered, hold', source, taken)
    ensures n.delivered == s.delivered
    ensures hold' == if phase == 0 then None else hold
    ensures finishOffered' <==> finishOffered || (phase == 0 && hold == None)
    ensures n.finishing ==> finishOffered'
    ensures Pace.Underway(polls, done, phase, finishOffered', source, a', b, ab, ba)
    ensures |n.offered| == done + (if finishOffered' then 0 else 1)
  {
    hide Running, Offered, Pace.OnPace, Pace.Underway, Pace.Between;
    n, a', hold', finishOffered' := s, a, hold, finishOffered;
    Pace.IdleIsBetween(polls, done, phase, finishOffered, source, a, b, ab, ba);
    if a.tx.state == Tx.TxState.Idle {
      BetweenOnPace(polls, done, phase, finishOffered, source, a, b, ab, ba);
      n, a', hold', finishOffered' := OfferNext(s, a, b, ab, ba, hold, exhausted, finishOffered, source, taken);
    }
  }

  /** Poll both peers, the sending one first: `None` when either fails or reports ABORT. */
  method PollBoth(ghost s: StopAndWait.Sys, a: Pump.Model, b: Pump.Model, ab: Demux.Model, ba: Demux.Model)
    returns (ghost n: StopAndWait.Sys, a': Pump.Model, b': Pump.Model, ab': Demux.Model, ba': Demux.Model,
             event: Option<Pump.PumpEvent>)
    requires Running(s, a, b, ab, ba)
    ensures a.Coherent() && b.Coherent() && ab.Valid() && ba.Valid()
    ensures
      var r := Pace.Round(a, b, ab, ba);
      && (event.Some? <==> Pace.WentWell(r.0) && Pace.WentWell(r.1))
      && (event.Some? ==>
            && a' == r.0.poll.next && b' == r.1.poll.next && ab' == r.1.inLane && ba' == r.1.outLane
            && event.value == r.1.poll.result.value)
    ensures event.Some? ==>
      && Running(n, a', b', ab', ba')
      && n.offered == s.offered && n.finishing == s.finishing
      && n.delivered == (if event.value.Received? then s.delivered + [event.value.byte] else s.delivered)
      && (event.value.Completed? ==> n.rx.finishSeq.Some?)
  {
    hide StopAndWait.Inv, Running, Serve;
    RunningIsSound(s, a, b, ab, ba);
    n, a', b', ab', ba', event := s, a, b, ab, ba, None;
    var fromA := Serve(a, ab, ba);
    n := ServeSender(s, a, b, ab, ba);
    if fromA.poll.result.Err? || fromA.poll.result.value.Aborted? {
      return;
    }
    a', ab', ba' := fromA.poll.next, fromA.outLane, fromA.inLane;
    RunningIsSound(n, a', b, ab', ba');
    var fromB := Serve(b, ba', ab');
    n := ServeReceiver(n, a', b, ab', ba');
    if fromB.poll.result.Err? || fromB.poll.result.value.Aborted? {
      return;
    }
    b', ba', ab' := fromB.poll.next, fromB.outLane, fromB.inLane;
    event := Some(fromB.poll.result.value);
  }

  // ------------------------------------------------------------ which fault comes first

  /** The round, counted from 0, in which the source is read for the time number `k`. */
  function ReadAt(k: nat): nat {
    if k == 0 then 0 else 14 * (k - 1) + 1
  }

  /** The round in which the sink is given byte number `k`. */
  function WriteAt(k: nat): nat {
    14 * k + 9
  }

  /** The round in which the source fails, if it fails at all before a copy of `length` bytes is over. */
  function SourceFails(length: nat, sourceFault: Option<nat>): Option<nat> {
    if sourceFault.Some? && sourceFault.value <= length then Some(ReadAt(sourceFault.value)) else None
  }

  function SinkFails(length: nat, sinkRoom: Option<nat>): Option<nat> {
    if sinkRoom.Some? && sinkRoom.value < length then Some(WriteAt(sinkRoom.value)) else None
  }

  /** No fault falls in a round before `polls`. */
  predicate FaultFree(polls: nat, length: nat, sourceFault: Option<nat>, sinkRoom: Option<nat>) {
    var source, sink := SourceFails(length, sourceFault), SinkFails(length, sinkRoom);
    (source.Some? ==> polls <= source.value) && (sink.Some? ==> polls <= sink.value)
  }

  /** How a copy ends: by whichever comes first of a fault, the end of the transfer, and the last round. */
  function Outcome(length: nat, sourceFault: Option<nat>, sinkRoom: Option<nat>): Option<CopyError> {
    var source, sink := SourceFails(length, sourceFault), SinkFails(length, sinkRoom);
    if source.Some? && source.value < POLLS && (sink.Some? ==> source.value <= sink.value) then Some(Source)
    else if sink.Some? && sink.value < POLLS then Some(Sink)
    else if Pace.PollsFor(length) <= POLLS then None
    else Some(Stalled)
  }

  /** A copy is complete exactly if neither end fails on the way and the rounds suffice. */
  lemma CopiedIffFaultless(length: nat, sourceFault: Option<nat>, sinkRoom: Option<nat>)
    ensures Outcome(length, sourceFault, sinkRoom) == None <==>
      && Pace.PollsFor(length) <= POLLS
      && (sourceFault.Some? ==> sourceFault.value > length)
      && (sinkRoom.Some? ==> sinkRoom.value >= length)
  {
  }

  /** The source is read at the start, and then once more as soon as the byte last read is offered. */
  predicate ReadsNow(polls: nat, phase: nat, finishOffered: bool) {
    polls == 0 || (phase == 1 && !finishOffered)
  }

  /** A source fault comes due exactly in the round in which that read is made. */
  lemma SourceOnTime(polls: nat, done: nat, phase: nat, finishOffered: bool, taken: nat, length: nat,
                     sourceFault: Option<nat>, sinkRoom: Option<nat>)
    requires polls == 14 * done + phase && phase <= 13 && done <= length && taken <= length
    requires phase > 0 ==> (finishOffered <==> done == length)
    requires ReadsNow(polls, phase, finishOffered) ==> taken == done + phase
    requires FaultFree(polls, length, sourceFault, sinkRoom)
    ensures SourceFails(length, sourceFault) == Some(polls) <==>
      ReadsNow(polls, phase, finishOffered) && sourceFault == Some(taken)
    ensures SourceFails(length, sourceFault) == Some(polls) ==>
      HandedOver(polls) == (if taken == 0 then 0 else taken - 1)
    ensures SourceFails(length, sourceFault) == Some(polls) && polls < POLLS ==>
      Outcome(length, sourceFault, sinkRoom) == Some(Source)
  {
  }

  /** A sink fault comes due exactly in the round in which that byte is handed over. */
  lemma SinkOnTime(polls: nat, done: nat, phase: nat, finishOffered: bool, length: nat,
                   sourceFault: Option<nat>, sinkRoom: Option<nat>)
    requires polls == 14 * done + phase && phase <= 13 && done <= length
    requires finishOffered <==> done == length
    requires FaultFree(polls, length, sourceFault, sinkRoom) && SourceFails(length, sourceFault) != Some(polls)
    ensures SinkFails(length, sinkRoom) == Some(polls) <==> phase == 9 && !finishOffered && sinkRoom == Some(done)
    ensures SinkFails(length, sinkRoom) == Some(polls) && polls < POLLS ==>
      Outcome(length, sourceFault, sinkRoom) == Some(Sink)
    ensures SinkFails(length, sinkRoom) != Some(polls) ==> FaultFree(polls + 1, length, sourceFault, sinkRoom)
  {
  }

  /** A copy without a fault until its last round, and one without a fault until the rounds are used up. */
  lemma EndsWithoutFault(polls: nat, length: nat, sourceFault: Option<nat>, sinkRoom: Option<nat>)
    requires FaultFree(polls, length, sourceFault, sinkRoom)
    ensures polls == Pace.PollsFor(length) <= POLLS ==> Outcome(length, sourceFault, sinkRoom) == None
    ensures polls == POLLS < Pace.PollsFor(length) ==> Outcome(length, sourceFault, sinkRoom) == Some(Stalled)
  {
  }

  /** How many bytes the sink was given in the rounds before `polls`, if the transfer is not over. */
  function HandedOver(polls: nat): nat {
    (polls + 4) / 14
  }

  lemma HandedOverOnPace(polls: nat, done: nat, phase: nat)
    requires polls == 14 * done + phase && phase <= 13
    ensures HandedOver(polls) == done + (if phase >= 10 then 1 else 0)
    ensures HandedOver(polls + 1) == HandedOver(polls) + (if phase == 9 then 1 else 0)
  {
  }

  // ------------------------------------------------------------ one round

  /** What was taken from the source is offered or in hand, and the end of the source was met before FINISH. */
  ghost predicate Books(s: StopAndWait.Sys, hold: Option<u8>, exhausted: bool, finishOffered: bool, source: seq<u8>,
                        taken: nat) {
    && taken <= |source| && Offered(s.offered, hold, source, taken)
    && (exhausted ==> taken == |source| && hold == None)
    && (finishOffered ==> exhausted)
    && (s.finishing ==> finishOffered)
  }

  /** The copy before round number `polls`. */
  ghost predicate Copying(s: StopAndWait.Sys, a: Pump.Model, b: Pump.Model, ab: Demux.Model, ba: Demux.Model,
                          hold: Option<u8>, exhausted: bool, finishOffered: bool, source: seq<u8>, taken: nat,
                          polls: nat, done: nat, phase: nat) {
    && Running(s, a, b, ab, ba)
    && Books(s, hold, exhausted, finishOffered, source, taken)
    && Pace.OnPace(polls, done, phase, finishOffered, source, a, b, ab, ba)
    && |s.offered| == done + (if phase > 0 && !finishOffered then 1 else 0)
    && (hold == None && !exhausted <==> ReadsNow(polls, phase, finishOffered))
  }

  /** The copy in that round, the source read and the next frame offered. */
  ghost predicate Ready(s: StopAndWait.Sys, a: Pump.Model, b: Pump.Model, ab: Demux.Model, ba: Demux.Model,
                        hold: Option<u8>, exhausted: bool, finishOffered: bool, source: seq<u8>, taken: nat,
                        polls: nat, done: nat, phase: nat) {
    && Running(s, a, b, ab, ba)
    && Books(s, hold, exhausted, finishOffered, source, taken)
    && Pace.Underway(polls, done, phase, finishOffered, source, a, b, ab, ba) && phase <= 13
    && |s.offered| == done + (if finishOffered then 0 else 1)
    && (hold == None && !exhausted <==> phase == 0 && !finishOffered)
  }

  lemma CopyingFacts(s: StopAndWait.Sys, a: Pump.Model, b: Pump.Model, ab: Demux.Model, ba: Demux.Model,
                     hold: Option<u8>, exhausted: bool, finishOffered: bool, source: seq<u8>, taken: nat,
                     polls: nat, done: nat, phase: nat)
    requires Copying(s, a, b, ab, ba, hold, exhausted, finishOffered, source, taken, polls, done, phase)
    ensures polls == 14 * done + phase && phase <= 13 && done <= |source| && taken <= |source|
    ensures phase > 0 ==> (finishOffered <==> done == |source|)
    ensures phase == 0 ==> !finishOffered
    ensures hold == None && !exhausted <==> ReadsNow(polls, phase, finishOffered)
    ensures ReadsNow(polls, phase, finishOffered) ==> taken == done + phase
  {
    hide Running, Offered, Pace.OnPace;
    HoldIsNext(s.offered, hold, source, taken);
    Pace.PaceFacts(polls, done, phase, finishOffered, source, a, b, ab, ba);
  }

  /** Read the source if nothing is in hand, then offer to an idle sender. */
  method PrepareRound(ghost s: StopAndWait.Sys, a: Pump.Model, ghost b: Pump.Model, ghost ab: Demux.Model,
                      ghost ba: Demux.Model,
                      hold: Option<u8>, exhausted: bool, finishOffered: bool, source: seq<u8>, taken: nat,
                      ghost polls: nat, ghost done: nat, ghost phase: nat, sourceFault: Option<nat>,
                      ghost sinkRoom: Option<nat>)
    returns (ok: bool, ghost n: StopAndWait.Sys, a': Pump.Model, hold': Option<u8>, exhausted': bool,
             finishOffered': bool,
             taken': nat)
    requires Copying(s, a, b, ab, ba, hold, exhausted, finishOffered, source, taken, polls, done, phase)
    requires FaultFree(polls, |source|, sourceFault, sinkRoom)
    ensures !ok <==> SourceFails(|source|, sourceFault) == Some(polls)
    ensures !ok ==> HandedOver(polls) == if sourceFault.value == 0 then 0 else sourceFault.value - 1
    ensures !ok && polls < POLLS ==> Outcome(|source|, sourceFault, sinkRoom) == Some(Source)
    ensures ok ==> Ready(n, a', b, ab, ba, hold', exhausted', finishOffered', source, taken', polls, done, phase)
    ensures ok ==> n.delivered == s.delivered
  {
    hide Running, Offered, Pace.OnPace, Pace.Underway, Pace.Between, Outcome, FaultFree, SourceFails, HandedOver;
    CopyingFacts(s, a, b, ab, ba, hold, exhausted, finishOffered, source, taken, polls, done, phase);
    SourceOnTime(polls, done, phase, finishOffered, taken, |source|, sourceFault, sinkRoom);
    n, a', finishOffered' := s, a, finishOffered;
    ok, hold', exhausted', taken' := TakeNext(source, sourceFault, s.offered, hold, exhausted, taken);
    if ok {
      n, a', hold', finishOffered' :=
        OfferIfIdle(s, a, b, ab, ba, hold', exhausted', finishOffered, source, taken', polls, done, phase);
    }
  }

  /** A round that did not report the end leads to the next. */
  lemma RoundIsOver(s: StopAndWait.Sys, a: Pump.Model, b: Pump.Model, ab: Demux.Model, ba: Demux.Model,
                    hold: Option<u8>, exhausted: bool, finishOffered: bool, source: seq<u8>, taken: nat,
                    polls: nat, done: nat, phase: nat,
                    n: StopAndWait.Sys, a': Pump.Model, b': Pump.Model, ab': Demux.Model, ba': Demux.Model)
    requires Ready(s, a, b, ab, ba, hold, exhausted, finishOffered, source, taken, polls, done, phase)
    requires Running(n, a', b', ab', ba') && n.offered == s.offered && n.finishing == s.finishing
    requires phase == 13 ==> !finishOffered
    requires Pace.OnPace(polls + 1, if phase == 13 then done + 1 else done, if phase == 13 then 0 else phase + 1,
                         finishOffered, source, a', b', ab', ba')
    ensures Copying(n, a', b', ab', ba', hold, exhausted, finishOffered, source, taken,
                    polls + 1, if phase == 13 then done + 1 else done, if phase == 13 then 0 else phase + 1)
  {
    hide Running, Offered, Pace.OnPace, Pace.Underway;
  }

  lemma ReadyFacts(s: StopAndWait.Sys, a: Pump.Model, b: Pump.Model, ab: Demux.Model, ba: Demux.Model,
                   hold: Option<u8>, exhausted: bool, finishOffered: bool, source: seq<u8>, taken: nat,
                   polls: nat, done: nat, phase: nat)
    requires Ready(s, a, b, ab, ba, hold, exhausted, finishOffered, source, taken, polls, done, phase)
    ensures Running(s, a, b, ab, ba) && Pace.Underway(polls, done, phase, finishOffered, source, a, b, ab, ba)
    ensures polls == 14 * done + phase && phase <= 13 && done <= |source|
    ensures finishOffered <==> done == |source|
    ensures s.offered <= source
    ensures s.finishing ==> s.offered == source
  {
    hide Running, Pace.At;
    assert s.offered <= source[..taken] <= source;
    assert source[..|source|] == source;
  }

  /** What the system's invariant says about the sink. */
  lemma RunningDelivers(s: StopAndWait.Sys, a: Pump.Model, b: Pump.Model, ab: Demux.Model, ba: Demux.Model,
                        source: seq<u8>)
    requires Running(s, a, b, ab, ba) && s.offered <= source && (s.finishing ==> s.offered == source)
    ensures s.delivered <= source
    ensures s.rx.finishSeq.Some? ==> s.delivered == source
  {
    hide Wired;
  }

  /**
    The source gives `source` and then its end, unless its read number
    `sourceFault` fails; the sink takes `sinkRoom` bytes before a write fails.
    `usizeMax` is the largest count the platform's `usize` can hold.
   */
  method CopyWire(source: seq<u8>, sourceFault: Option<nat>, sinkRoom: Option<nat>, usizeMax: nat)
    returns (result: CopyResult, sink: seq<u8>)
    ensures sink <= source
    ensures result.Copied? <==>
      && Pace.PollsFor(|source|) <= POLLS
      && (sourceFault.Some? ==> sourceFault.value > |source|)
      && (sinkRoom.Some? ==> sinkRoom.value >= |source|)
    ensures result.Copied? ==> sink == source && result.n == Min(|source|, usizeMax)
    ensures result.Copied? && usizeMax >= POLLS ==> result.n == |source|
    ensures result.Failed? ==> Outcome(|source|, sourceFault, sinkRoom) == Some(result.error)
    ensures result == Failed(Source) ==> |sink| == (if sourceFault.value == 0 then 0 else sourceFault.value - 1)
    ensures result == Failed(Sink) ==> |sink| == sinkRoom.value
    ensures result == Failed(Stalled) ==> |sink| == HandedOver(POLLS)
  {
    hide Running, Books, Copying, Ready, ReadsNow, Pace.OnPace, Pace.Underway, Pace.Between, Pace.Round, Pace.PollsFor,
      Pace.WentWell,
      Outcome, FaultFree, SourceFails, SinkFails, HandedOver;
    var a, b := Pump.Fresh(Tx.DEFAULT_POLICY), Pump.Fresh(Tx.DEFAULT_POLICY);
    var ab, ba := Demux.EMPTY, Demux.EMPTY;
    var hold: Option<u8> := None;
    var exhausted, finishOffered := false, false;
    var n: nat, taken: nat := 0, 0;
    sink := [];
    ghost var s := StopAndWait.PowerUp(Tx.DEFAULT_POLICY);
    ghost var done: nat, phase: nat := 0, 0;
    StartsCopying(source, sourceFault, sinkRoom);
    CopiedIffFaultless(|source|, sourceFault, sinkRoom);
    for polls := 0 to POLLS
      invariant Copying(s, a, b, ab, ba, hold, exhausted, finishOffered, source, taken, polls, done, phase)
      invariant FaultFree(polls, |source|, sourceFault, sinkRoom)
      invariant sink == s.delivered <= source && |sink| <= polls && n == Min(|sink|, usizeMax)
      invariant |sink| == HandedOver(polls)
    {
      var sourceOk;
      sourceOk, s, a, hold, exhausted, finishOffered, taken :=
        PrepareRound(s, a, b, ab, ba, hold, exhausted, finishOffered, source, taken, polls, done, phase, sourceFault,
                     sinkRoom);
      if !sourceOk {
        return Failed(Source), sink;
      }
      ReadyFacts(s, a, b, ab, ba, hold, exhausted, finishOffered, source, taken, polls, done, phase);
      Pace.RoundOnPace(polls, done, phase, finishOffered, source, a, b, ab, ba);
      HandedOverOnPace(polls, done, phase);
      SinkOnTime(polls, done, phase, finishOffered, |source|, sourceFault, sinkRoom);
      ghost var s0, a0, b0, ab0, ba0 := s, a, b, ab, ba;
      var event;
      s, a, b, ab, ba, event := PollBoth(s, a, b, ab, ba);
      if event == None {
        return Failed(Protocol), sink;
      }
      RunningDelivers(s, a, b, ab, ba, source);
      match event.value {
        case Received(byte) =>
          if sinkRoom == Some(|sink|) {
            return Failed(Sink), sink;
          }
          sink := sink + [byte];
          n := SaturatingIncrement(n, usizeMax);
        case Completed =>
          EndsWithoutFault(polls + 1, |source|, sourceFault, sinkRoom);
          return Copied(n), sink;
        case _ =>
      }
      RoundIsOver(s0, a0, b0, ab0, ba0, hold, exhausted, finishOffered, source, taken, polls, done, phase, s, a, b, ab,
                  ba);
      done, phase := if phase == 13 then done + 1 else done, if phase == 13 then 0 else phase + 1;
    }
    CopyIsShort(s, a, b, ab, ba, hold, exhausted, finishOffered, source, taken, POLLS, done, phase);
    EndsWithoutFault(POLLS, |source|, sourceFault, sinkRoom);
    return Failed(Stalled), sink;
  }

  lemma StartsCopying(source: seq<u8>, sourceFault: Option<nat>, sinkRoom: Option<nat>)
    ensures Copying(StopAndWait.PowerUp(Tx.DEFAULT_POLICY), Pump.Fresh(Tx.DEFAULT_POLICY),
                    Pump.Fresh(Tx.DEFAULT_POLICY),
                    Demux.EMPTY, Demux.EMPTY, None, false, false, source, 0, 0, 0, 0)
    ensures FaultFree(0, |source|, sourceFault, sinkRoom)
    ensures HandedOver(0) == 0
  {
    hide Running, Pace.OnPace;
    StartsRunning(Tx.DEFAULT_POLICY);
    Pace.StartsOnPace(source);
  }

  /** A copy still under way has not had all the rounds it needs. */
  lemma CopyIsShort(s: StopAndWait.Sys, a: Pump.Model, b: Pump.Model, ab: Demux.Model, ba: Demux.Model,
                    hold: Option<u8>, exhausted: bool, finishOffered: bool, source: seq<u8>, taken: nat,
                    polls: nat, done: nat, phase: nat)
    requires Copying(s, a, b, ab, ba, hold, exhausted, finishOffered, source, taken, polls, done, phase)
    ensures polls < Pace.PollsFor(|source|)
  {
    hide Running, Books, Pace.OnPace, Pace.PollsFor;
    Pace.PaceIsShort(polls, done, phase, finishOffered, source, a, b, ab, ba);
  }
}
