/**
  What a peer's ABORT does to our own sending: a byte or FINISH under way is
  dropped and nothing more is written, our own START or ABORT goes out whole,
  and a peer whose turn it is keeps the turn and what it had to say.
 */
module Aborting {
  import opened Prelude
  import opened Wire
  import opened Framing
  import Rx
  import Tx
  import Pump
  import Turn
  import opened Flights

  /** What the transports of both halves of a pump do in one poll. */
  datatype Ios = Ios(rx: Io, tx: Io)

  /** A pump after some polls, and the bytes it has written on its sender's port. */
  datatype Trace = Trace(end: Pump.Model, wrote: seq<u8>)

  function Over(p: Pump.Model, ios: seq<Ios>): (t: Trace)
    requires p.Coherent()
    ensures t.end.Coherent()
    decreases |ios|
  {
    if ios == [] then Trace(p, [])
    else
      var r := Pump.Poll(p, ios[0].rx, ios[0].tx);
      var rest := Over(r.next, ios[1..]);
      Trace(rest.end, (if r.txCalls.wrote.Some? then [r.txCalls.wrote.value] else []) + rest.wrote)
  }

  // ------------------------------------------------------------ DATA and FINISH

  /** Our own sending is over, until the next offer. */
  predicate CutOff(p: Pump.Model) {
    p.Coherent() && p.tx.state == Tx.TxState.Aborted && p.tx.inflight == None
  }

  lemma StaysCutOff(p: Pump.Model, ios: Ios)
    requires CutOff(p)
    ensures
      var r := Pump.Poll(p, ios.rx, ios.tx);
      CutOff(r.next) && r.txCalls == NO_CALLS
  {
    hide Rx.Poll;
  }

  lemma {:induction false} StaysCutOffFor(p: Pump.Model, ios: seq<Ios>)
    requires p.Coherent() && CutOff(p)
    ensures Over(p, ios).wrote == [] && CutOff(Over(p, ios).end)
    decreases |ios|
  {
    hide Pump.Poll, CutOff;
    if ios != [] {
      StaysCutOff(p, ios[0]);
      StaysCutOffFor(Pump.Poll(p, ios[0].rx, ios[0].tx).next, ios[1..]);
    }
  }

  /**
    When the receiver has acknowledged the peer's ABORT and neither START nor
    ABORT of our own is under way, that poll and all later ones before the next
    offer write nothing on the sender's port, however much of a frame was out.
   */
  lemma PeerAbortStopsSending(p: Pump.Model, ios: Ios, later: seq<Ios>)
    requires p.Coherent() && !p.pendingCompleted
    requires Rx.Poll(p.rx, ios.rx).result == Ok(Rx.PollOutcome.Aborted)
    requires p.tx.inflight.Some? ==> p.tx.inflight.value.kind.Data? || p.tx.inflight.value.kind.Finish?
    ensures
      var r := Pump.Poll(p, ios.rx, ios.tx);
      && r.result == Ok(Pump.PumpEvent.Aborted) && r.txCalls == NO_CALLS
      && CutOff(r.next) && !r.next.pendingCompleted
      && Over(r.next, later).wrote == [] && CutOff(Over(r.next, later).end)
  {
    hide Rx.Poll, Over;
    StaysCutOffFor(Pump.Poll(p, ios.rx, ios.tx).next, later);
  }

  // ------------------------------------------------------------ START and ABORT

  predicate IsControl(kind: Tx.FlightKind) {
    kind.Start? || kind.Abort?
  }

  /** The receiver fails in none of these polls; what it reports is left open. */
  predicate RxFine(r: Rx.Model, ios: seq<Ios>)
    requires r.Coherent()
    decreases |ios|
  {
    ios == [] || (Rx.Poll(r, ios[0].rx).result.Ok? && RxFine(Rx.Poll(r, ios[0].rx).next, ios[1..]))
  }

  lemma ControlByteGoesOut(p: Pump.Model, ios: Ios, word: Word)
    requires p.Coherent() && !p.pendingCompleted && Rx.Poll(p.rx, ios.rx).result.Ok?
    requires p.tx.inflight.Some? && IsControl(p.tx.inflight.value.kind) && !p.tx.inflight.value.waiting
    requires word == ToBytes(Tx.FrameOf(p.tx.inflight.value)) && (!p.tx.out.Idle() ==> p.tx.out.bytes == word)
    requires ios.tx.writeOk
    ensures Out(p.tx) < FRAME_LEN
    ensures
      var r, k := Pump.Poll(p, ios.rx, ios.tx), Out(p.tx);
      && r.txCalls.wrote == Some(word[k])
      && r.result.Ok? && (r.result.value.Completed? ==> Rx.Poll(p.rx, ios.rx).result.value.TransferFinished?)
      && !r.next.pendingCompleted && r.next.rx == Rx.Poll(p.rx, ios.rx).next
      && r.next.tx.inflight == Some(if k < 3 then p.tx.inflight.value
                                    else p.tx.inflight.value.(waiting := true, emptyTicks := 0))
      && r.next.tx.out == Outgoing(word, k + 1)
  {
    hide Rx.Poll, Tx.Poll, ToBytes;
    WritesByte(p.tx, ios.tx, word);
  }

  lemma {:induction false} RestGoesOut(p: Pump.Model, ios: seq<Ios>, word: Word)
    requires p.Coherent() && !p.pendingCompleted && RxFine(p.rx, ios)
    requires p.tx.inflight.Some? && IsControl(p.tx.inflight.value.kind) && !p.tx.inflight.value.waiting
    requires word == ToBytes(Tx.FrameOf(p.tx.inflight.value)) && (!p.tx.out.Idle() ==> p.tx.out.bytes == word)
    requires |ios| == FRAME_LEN - Out(p.tx) && forall k :: 0 <= k < |ios| ==> ios[k].tx.writeOk
    ensures
      var t := Over(p, ios);
      && t.wrote == word[Out(p.tx)..]
      && t.end.tx.inflight == Some(p.tx.inflight.value.(waiting := true, emptyTicks := 0))
    decreases |ios|
  {
    hide Pump.Poll, Rx.Poll, ToBytes;
    ControlByteGoesOut(p, ios[0], word);
    var k := Out(p.tx);
    var n := Pump.Poll(p, ios[0].rx, ios[0].tx).next;
    if k == 3 {
      assert ios[1..] == [];
      assert word[3..] == [word[3]] + [];
    } else {
      RestGoesOut(n, ios[1..], word);
      assert word[k..] == [word[k]] + word[k + 1..];
    }
  }

  /**
    Our own START or ABORT under way survives: its remaining bytes go out one
    per poll, whatever the receiver reports meanwhile, a peer's ABORT included,
    and then it waits for its ACK like any flight.
   */
  lemma OwnControlGoesOut(p: Pump.Model, ios: seq<Ios>)
    requires p.Coherent() && !p.pendingCompleted && RxFine(p.rx, ios)
    requires p.tx.inflight.Some? && IsControl(p.tx.inflight.value.kind) && !p.tx.inflight.value.waiting
    requires !p.tx.out.Idle() ==> p.tx.out.bytes == ToBytes(Meaning(p.tx.inflight.value))
    requires |ios| == FRAME_LEN - Out(p.tx) && forall k :: 0 <= k < |ios| ==> ios[k].tx.writeOk
    ensures Out(p.tx) < FRAME_LEN
    ensures
      var t, f := Over(p, ios), p.tx.inflight.value;
      && t.wrote == ToBytes(Meaning(f))[Out(p.tx)..]
      && t.end.tx.inflight == Some(f.(waiting := true, emptyTicks := 0))
  {
    hide ToBytes, Over, RxFine;
    RestGoesOut(p, ios, ToBytes(Meaning(p.tx.inflight.value)));
  }

  /** On the wire, too, it is left alone: the sender's poll is the one it would have made. */
  lemma OwnControlIsLeftAlone(p: Pump.Model, ios: Ios)
    requires p.Coherent() && !p.pendingCompleted && Rx.Poll(p.rx, ios.rx).result.Ok?
    requires p.tx.inflight.Some? && IsControl(p.tx.inflight.value.kind)
    ensures
      var r, said := Pump.Poll(p, ios.rx, ios.tx), Tx.Poll(p.tx, ios.tx);
      && r.txCalls == said.calls
      && r.next.tx == (if said.result.Ok? then said.next.(mark := Tx.NO_MARK) else said.next)
      && (r.result.Err? <==> said.result.Err?)
      && (r.result.Ok? && Rx.Poll(p.rx, ios.rx).result.value.Aborted? ==> r.result == Ok(Pump.PumpEvent.Aborted))
  {
    hide Rx.Poll, Tx.Poll;
  }

  // ------------------------------------------------------------ whose turn it is

  /** A speaker inside its session. */
  predicate Speaking(t: Turn.Model) {
    && t.Valid() && t.speak && t.queue != [] && !t.needStart && !t.pump.pendingCompleted
    && (t.pump.tx.inflight.Some? ==> t.pump.tx.inflight.value.kind.Data? || t.pump.tx.inflight.value.kind.Finish?)
  }

  /** A poll in which no transport fails and the peer's session does not end. */
  predicate GoesOn(r: Rx.Model, ios: Ios)
    requires r.Coherent()
  {
    var heard := Rx.Poll(r, ios.rx).result;
    heard.Ok? && !heard.value.TransferFinished? && ios.tx.writeOk
  }

  /**
    A speaker whose session the peer aborts keeps the turn and its queue, and
    the next poll that can write begins a new session: START, then the queue
    from byte 0.
   */
  lemma AbortedSpeakerReopens(t: Turn.Model, ios: Ios, next: Ios)
    requires Speaking(t) && Rx.Poll(t.pump.rx, ios.rx).result == Ok(Rx.PollOutcome.Aborted)
    ensures
      var cut := Turn.Poll(t, ios.rx, ios.tx);
      && cut.result == Ok(Turn.TurnEvent.Idle) && cut.txCalls == NO_CALLS
      && cut.next.speak && cut.next.queue == t.queue && CutOff(cut.next.pump)
      && (GoesOn(cut.next.pump.rx, next) ==>
            var again := Turn.Poll(cut.next, next.rx, next.tx);
            && again.txCalls.wrote == Some(TypeByte(FrameType.Start))
            && again.next.pump.tx.inflight.Some? && again.next.pump.tx.inflight.value.kind.Start?
            && again.next.queue == t.queue && again.next.index == 0)
  {
    hide Pump.Poll, Rx.Poll, Turn.Poll, GoesOn, ToBytes;
    SpeakerIsCutOff(t, ios);
    if GoesOn(Turn.Poll(t, ios.rx, ios.tx).next.pump.rx, next) {
      SpeakerReopens(Turn.Poll(t, ios.rx, ios.tx).next, next);
    }
  }

  lemma SpeakerIsCutOff(t: Turn.Model, ios: Ios)
    requires Speaking(t) && Rx.Poll(t.pump.rx, ios.rx).result == Ok(Rx.PollOutcome.Aborted)
    ensures
      var cut := Turn.Poll(t, ios.rx, ios.tx);
      && cut.result == Ok(Turn.TurnEvent.Idle) && cut.txCalls == NO_CALLS
      && cut.next == t.(pump := cut.next.pump, needStart := true, index := 0, finishOffered := false)
      && CutOff(cut.next.pump) && !cut.next.pump.pendingCompleted
  {
    hide Pump.Poll, Rx.Poll, Turn.DriveTx;
    DrivesNoControl(t);
    PeerAbortStopsSending(Turn.DriveTx(t).pump, ios, []);
  }

  lemma SpeakerReopens(t: Turn.Model, ios: Ios)
    requires t.Valid() && t.speak && t.queue != [] && t.needStart && CutOff(t.pump) && !t.pump.pendingCompleted
    requires GoesOn(t.pump.rx, ios)
    ensures
      var r := Turn.Poll(t, ios.rx, ios.tx);
      && r.txCalls.wrote == Some(TypeByte(FrameType.Start))
      && r.next.pump.tx.inflight.Some? && r.next.pump.tx.inflight.value.kind.Start?
      && r.next.queue == t.queue && r.next.index == 0
  {
    hide Pump.Poll, Rx.Poll, Turn.DriveTx, ToBytes;
    DrivesStart(t);
    var d := Turn.DriveTx(t);
    ControlByteGoesOut(d.pump, ios, ToBytes(Tx.FrameOf(d.pump.tx.inflight.value)));
  }

  /** What is offered inside a session is no START. */
  lemma DrivesNoControl(t: Turn.Model)
    requires Speaking(t)
    ensures
      var d := Turn.DriveTx(t);
      && d == t.(pump := t.pump.(tx := d.pump.tx), index := d.index, finishOffered := d.finishOffered)
      && (d.pump.tx.inflight.Some? ==>
            d.pump.tx.inflight.value.kind.Data? || d.pump.tx.inflight.value.kind.Finish?)
  {
  }

  lemma DrivesStart(t: Turn.Model)
    requires t.Valid() && t.speak && t.queue != [] && t.needStart && CutOff(t.pump)
    ensures
      var d := Turn.DriveTx(t);
      && d.pump == t.pump.(tx := d.pump.tx) && d.queue == t.queue && d.index == 0
      && d.pump.tx.inflight.Some? && d.pump.tx.inflight.value.kind.Start? && !d.pump.tx.inflight.value.waiting
      && d.pump.tx.out.Idle()
  {
  }

  /** Once the new session is ready, byte 0 of the queue is the first to go out. */
  lemma SessionBeginsAtByteZero(t: Turn.Model, ios: Ios)
    requires t.Valid() && t.speak && t.queue != [] && !t.needStart && t.index == 0
    requires t.pump.tx.state == Tx.TxState.Idle && !t.pump.pendingCompleted
    requires Rx.Poll(t.pump.rx, ios.rx).result.Ok? && !Rx.Poll(t.pump.rx, ios.rx).result.value.Aborted?
    requires ios.tx.writeOk
    ensures
      var r := Turn.Poll(t, ios.rx, ios.tx);
      && r.txCalls.wrote == Some(TypeByte(FrameType.Data))
      && r.next.pump.tx.inflight.Some?
      && Meaning(r.next.pump.tx.inflight.value) == DataFrame(t.pump.tx.num, t.queue[0])
      && (r.next.speak ==> r.next.index == 1)
  {
    hide Rx.Poll, ToBytes;
  }
}
