/**
  Two turn-taking peers over lossless channels, with no retry timer firing: the
  turn is never held by both, a session is never spoken over, and each session
  is heard exactly as it was queued, for any number of alternations.
 */
module TurnTaking {
  import opened Prelude
  import opened Wire
  import opened Framing
  import Rx
  import Tx
  import Demux
  import Pump
  import Turn
  import opened Exchange

  /** One direction: words still on their way, then sorted for the two readers at the far end. */
  datatype Pipe = Pipe(flying: seq<Word>, control: seq<Word>, payload: seq<Word>)

  const QUIET := Pipe([], [], [])

  /** A peer, what it has heard of the session in progress, and both histories of whole sessions. */
  datatype Peer = Peer(turn: Turn.Model, current: seq<u8>, heard: seq<seq<u8>>, said: seq<seq<u8>>)
  {
    function Tx(): Tx.Model { turn.pump.tx }
    function Rx(): Rx.Model { turn.pump.rx }
  }

  datatype Sys = Sys(a: Peer, b: Peer, ab: Pipe, ba: Pipe)

  function PowerUp(policyA: Tx.RetryPolicy, policyB: Tx.RetryPolicy, capacityA: nat, capacityB: nat): Sys {
    Sys(Peer(Turn.Fresh(policyA, capacityA, true), [], [], []),
        Peer(Turn.Fresh(policyB, capacityB, false), [], [], []), QUIET, QUIET)
  }

  datatype Event = Queue(isA: bool, bytes: seq<u8>) | Poll(isA: bool) | Arrive(toA: bool)

  /** The oldest word on its way reaches the demultiplexer of the far end. */
  function Arrived(p: Pipe): Pipe {
    if p.flying == [] then p
    else if Demux.IsControl(p.flying[0]) then Pipe(p.flying[1..], p.control + [p.flying[0]], p.payload)
    else Pipe(p.flying[1..], p.control, p.payload + [p.flying[0]])
  }

  /** The next byte of a queue of words whose first `held` bytes were read. */
  function ReadFrom(queue: seq<Word>, held: nat): ReadAnswer {
    if queue != [] && held < FRAME_LEN then GotByte(queue[0][held]) else NoByte
  }

  function AfterRead(queue: seq<Word>, held: nat, didRead: bool): seq<Word> {
    if didRead && held == 3 && queue != [] then queue[1..] else queue
  }

  function RxIo(x: Peer, incoming: Pipe): Io {
    Io(true, ReadFrom(incoming.payload, |x.Rx().asm.buf|))
  }

  function TxIo(x: Peer, incoming: Pipe): Io {
    Io(true, ReadFrom(incoming.control, |x.Tx().asm.buf|))
  }

  function Noted(x: Peer, r: Turn.Polled): Peer {
    var n := x.(turn := r.next);
    match r.result
    case Ok(Received(byte)) => n.(current := x.current + [byte])
    case Ok(Yielded) => n.(said := x.said + [x.turn.queue])
    case Ok(Granted) => n.(heard := x.heard + [x.current], current := [])
    case _ => n
  }

  /** One poll of a peer: what becomes of it, of the words it sends, and of those it reads. */
  function PollStep(x: Peer, outgoing: Pipe, incoming: Pipe): (Peer, Pipe, Pipe)
    requires x.turn.Valid()
  {
    var r := Turn.Poll(x.turn, RxIo(x, incoming), TxIo(x, incoming));
    (Noted(x, r),
     outgoing.(flying := outgoing.flying + Finished(r.rxCalls, r.next.pump.rx.out)
                                         + Finished(r.txCalls, r.next.pump.tx.out)),
     incoming.(payload := AfterRead(incoming.payload, |x.Rx().asm.buf|, r.rxCalls.didRead),
               control := AfterRead(incoming.control, |x.Tx().asm.buf|, r.txCalls.didRead)))
  }

  function Step(s: Sys, e: Event): (n: Sys)
    requires s.a.turn.Valid() && s.b.turn.Valid()
    ensures n.a.turn.Valid() && n.b.turn.Valid()
  {
    match e
    case Queue(isA, bytes) =>
      if isA then s.(a := s.a.(turn := Turn.Push(s.a.turn, bytes)))
      else s.(b := s.b.(turn := Turn.Push(s.b.turn, bytes)))
    case Poll(isA) =>
      if isA then
        var (a, ab, ba) := PollStep(s.a, s.ab, s.ba);
        Sys(a, s.b, ab, ba)
      else
        var (b, ba, ab) := PollStep(s.b, s.ba, s.ab);
        Sys(s.a, b, ab, ba)
    case Arrive(toA) => if toA then s.(ba := Arrived(s.ba)) else s.(ab := Arrived(s.ab))
  }

  /** This poll does not let a retry timer run out. */
  predicate Patient(x: Peer, incoming: Pipe) {
    Tx.WillRead(x.Tx()) && TxIo(x, incoming).read.NoByte? ==>
      SaturatingIncrement(x.Tx().inflight.value.emptyTicks, U16_MAX) < x.Tx().policy.timeoutTicks
  }

  predicate Timely(s: Sys, e: Event) {
    e.Poll? ==> if e.isA then Patient(s.a, s.ba) else Patient(s.b, s.ab)
  }

  // ------------------------------------------------------------ the invariant

  /** A pipe holds `control` and then `payload`, in order, some of it already arrived. */
  predicate Carries(p: Pipe, control: seq<Word>, payload: seq<Word>) {
    && p.control + p.payload + p.flying == control + payload
    && |p.control| <= |control|
    && (p.payload != [] ==> p.control == control)
    && (forall w :: w in control ==> Demux.IsControl(w))
    && (forall w :: w in payload ==> !Demux.IsControl(w))
  }

  /** A reader holds the first bytes of the oldest word of its queue. */
  predicate Holding(asm: Assembly, queue: seq<Word>) {
    && !asm.resync
    && |asm.buf| < FRAME_LEN
    && (asm.buf != [] ==> queue != [] && asm.buf == queue[0][..|asm.buf|])
  }

  ghost predicate Healthy(x: Peer) {
    && x.turn.Valid()
    && !x.turn.pump.pendingCompleted
    && (x.turn.pump.txDoneSeen <==> x.Tx().state == Tx.TxState.Finished)
    && x.Tx().state != Tx.TxState.Aborted && x.Tx().state != Tx.TxState.Failed
    && !x.Tx().asm.resync && !x.Rx().asm.resync
    && !x.Rx().abortLatched
  }

  predicate FlightOk(f: Tx.Flight, t: Turn.Model) {
    match f.kind
    case Start => t.index == 0 && f.num == 0 && !t.finishOffered
    case Data(byte) =>
      1 <= t.index <= |t.queue| && byte == t.queue[t.index - 1] && f.num == SeqOf(t.index - 1) && !t.finishOffered
    case Finish => t.index == |t.queue| && f.num == SeqOf(t.index) && t.finishOffered
    case Abort => false
  }

  /** How many bytes of the session lie before what the sender is doing now. */
  function Before(t: Turn.Model): nat {
    match t.pump.tx.inflight
    case None => t.index
    case Some(f) => if f.kind.Data? && t.index > 0 then t.index - 1 else t.index
  }

  /** The speaker's own books. */
  ghost predicate Speaks(x: Peer)
    requires x.turn.Valid()
  {
    var t, tx := x.turn, x.Tx();
    && t.speak
    && RxQuiet(x.Rx())
    && (tx.inflight == None ==> tx.asm.buf == [] && !t.finishOffered)
    && (t.needStart ==> tx.inflight == None && t.index == 0)
    && (!t.needStart && tx.inflight == None ==> tx.state == Tx.TxState.Idle && tx.num == SeqOf(t.index))
    && (tx.inflight.Some? ==> FlightOk(tx.inflight.value, t) && tx.num == tx.inflight.value.num)
    && (!tx.out.Idle() ==> tx.out.bytes == ToBytes(Tx.FrameOf(tx.inflight.value)))
    && (tx.inflight.Some? && !tx.inflight.value.waiting ==> tx.asm.buf == [])
    && x.current == []
  }

  datatype Stage = Resting | Writing | Sent | Answering | Answered

  /** Where the flight of the speaker `x` is, as far as the listener `y` has got with it. */
  function StageOf(x: Peer, y: Peer, yx: Pipe): Stage {
    if x.Tx().inflight == None then Resting
    else if !x.Tx().inflight.value.waiting then Writing
    else if y.Rx().pending.Some? then Answering
    else if yx.flying != [] || yx.control != [] then Answered
    else Sent
  }

  /** What the listener has heard, and what it is doing about the speaker's flight. */
  ghost predicate Listens(x: Peer, y: Peer, stage: Stage)
    requires x.turn.Valid() && (stage != Resting ==> x.Tx().inflight.Some?)
  {
    var t, r := x.turn, y.Rx();
    && (stage == Answered ==> !x.Tx().inflight.value.kind.Finish?)
    && y.current == t.queue[..if stage == Answered then t.index else Before(t)]
    && (match stage
        case Resting => RxQuiet(r) && (!t.needStart ==> RxOpen(r, |y.current|))
        case Writing => RxQuiet(r) && (!x.Tx().inflight.value.kind.Start? ==> RxOpen(r, |y.current|))
        case Sent => r.out.Idle() && (!x.Tx().inflight.value.kind.Start? ==> RxOpen(r, |y.current|))
        case Answering =>
          && r.asm.buf == []
          && r.pending == Some(Reply(x.Tx().inflight.value))
          && r.out.bytes == ToBytes(AckFrame(x.Tx().inflight.value.num))
          && (!x.Tx().inflight.value.kind.Finish? ==> RxOpen(r, |y.current|))
        case Answered => RxQuiet(r) && RxOpen(r, |y.current|))
  }

  /** The frame on its way to the listener, if it is. */
  function Flown(x: Peer, stage: Stage): seq<Word> {
    if stage == Sent && x.Tx().inflight.Some? then [ToBytes(Tx.FrameOf(x.Tx().inflight.value))] else []
  }

  /** The acknowledgement on its way to the speaker, if it is. */
  function Owed(x: Peer, stage: Stage): seq<Word> {
    if stage == Answered && x.Tx().inflight.Some? then [ToBytes(AckFrame(x.Tx().inflight.value.num))] else []
  }

  /** The listener's last session is over, but its FINISH's ACK, the only word for its sender, is not all read. */
  ghost predicate Ending(y: Peer) {
    var tx := y.Tx();
    && y.turn.speak && !y.turn.needStart && y.turn.finishOffered && y.turn.index == |y.turn.queue|
    && tx.inflight.Some? && tx.inflight.value.kind.Finish? && tx.inflight.value.waiting && tx.out.Idle()
    && |y.Rx().asm.buf| <= |tx.asm.buf|
  }

  /** The listener's sender has nothing to do. */
  ghost predicate Waits(y: Peer) {
    var tx := y.Tx();
    && !y.turn.speak && y.turn.needStart && !y.turn.finishOffered && y.turn.index == 0
    && tx.inflight == None && tx.asm.buf == []
  }

  function LastAck(y: Peer): seq<Word> {
    if y.turn.speak && y.Tx().inflight.Some? then [ToBytes(AckFrame(y.Tx().inflight.value.num))] else []
  }

  /** `x` is the speaker and `y` the listener. */
  ghost predicate Converse(x: Peer, y: Peer, xy: Pipe, yx: Pipe) {
    var stage := StageOf(x, y, yx);
    && Healthy(x) && Healthy(y)
    && Speaks(x)
    && (if y.turn.speak then Ending(y) else Waits(y))
    && (y.turn.speak ==> x.turn.needStart || (x.Tx().inflight.Some? && x.Tx().inflight.value.kind.Start?
                                               && (stage == Writing || stage == Sent)))
    && Listens(x, y, stage)
    && Carries(xy, LastAck(y), Flown(x, stage))
    && Carries(yx, Owed(x, stage), [])
    && Holding(x.Tx().asm, yx.control)
    && Holding(y.Tx().asm, xy.control)
    && Holding(y.Rx().asm, xy.payload)
    && y.heard == x.said
    && x.heard == y.said + (if y.turn.speak then [y.turn.queue] else [])
  }

  ghost predicate Inv(s: Sys) {
    Converse(s.a, s.b, s.ab, s.ba) || Converse(s.b, s.a, s.ba, s.ab)
  }

  lemma PowerUpIsInv(policyA: Tx.RetryPolicy, policyB: Tx.RetryPolicy, capacityA: nat, capacityB: nat)
    ensures Inv(PowerUp(policyA, policyB, capacityA, capacityB))
  {
    var s := PowerUp(policyA, policyB, capacityA, capacityB);
    hide Demux.IsControl, ToBytes;
    assert Healthy(s.a) && Healthy(s.b) && Speaks(s.a) && Waits(s.b);
    assert StageOf(s.a, s.b, s.ba) == Resting;
    assert Listens(s.a, s.b, Resting);
    hide Healthy, Speaks, Waits, Listens, Ending, StageOf;
    assert Converse(s.a, s.b, s.ab, s.ba);
  }

  // ------------------------------------------------------------ queueing and arriving

  /** How far along the words of a pipe are: the first `arrived` of them have reached the far end. */
  predicate CutAt(p: Pipe, control: seq<Word>, payload: seq<Word>, arrived: nat) {
    var all := control + payload;
    && |p.flying| + arrived == |all|
    && p.flying == all[arrived..]
    && p.control == (if arrived <= |control| then control[..arrived] else control)
    && p.payload == (if arrived <= |control| then [] else payload[..arrived - |control|])
  }

  lemma CarriesCut(p: Pipe, control: seq<Word>, payload: seq<Word>)
    requires Carries(p, control, payload)
    ensures CutAt(p, control, payload, |p.control| + |p.payload|)
  {
    hide Demux.IsControl;
    var done, all := p.control + p.payload, control + payload;
    assert done + p.flying == all;
    assert done == all[..|done|] && p.flying == all[|done|..];
    if p.payload == [] {
      assert p.control == done == control[..|done|];
    } else {
      assert p.payload == done[|control|..] == all[|control|..|done|] == payload[..|p.payload|];
      assert control[..|control|] == control;
    }
  }

  lemma CarriesClasses(p: Pipe, control: seq<Word>, payload: seq<Word>)
    requires Carries(p, control, payload)
    ensures forall w :: w in control ==> Demux.IsControl(w)
    ensures forall w :: w in payload ==> !Demux.IsControl(w)
  {
  }

  lemma CutCarries(p: Pipe, control: seq<Word>, payload: seq<Word>, arrived: nat)
    requires CutAt(p, control, payload, arrived)
    requires forall w :: w in control ==> Demux.IsControl(w)
    requires forall w :: w in payload ==> !Demux.IsControl(w)
    ensures Carries(p, control, payload)
  {
    hide Demux.IsControl;
    var all := control + payload;
    assert p.control + p.payload == all[..arrived];
    assert all[..arrived] + all[arrived..] == all;
  }

  /** Queueing more bytes leaves every promise about the session in progress as it was. */
  lemma QueueSpeaker(x: Peer, y: Peer, xy: Pipe, yx: Pipe, bytes: seq<u8>)
    requires Converse(x, y, xy, yx)
    ensures Converse(x.(turn := Turn.Push(x.turn, bytes)), y, xy, yx)
  {
    hide ToBytes, Demux.IsControl, Carries, Holding, Ending, Waits;
    var n := x.(turn := Turn.Push(x.turn, bytes));
    assert StageOf(n, y, yx) == StageOf(x, y, yx);
    assert Healthy(n) && Speaks(n);
    assert Before(n.turn) == Before(x.turn);
    forall k | 0 <= k <= |x.turn.queue|
      ensures n.turn.queue[..k] == x.turn.queue[..k]
    {
    }
    assert Listens(n, y, StageOf(x, y, yx));
  }

  lemma QueueListener(x: Peer, y: Peer, xy: Pipe, yx: Pipe, bytes: seq<u8>)
    requires Converse(x, y, xy, yx)
    ensures Converse(x, y.(turn := Turn.Push(y.turn, bytes)), xy, yx)
  {
    hide ToBytes, Demux.IsControl, Carries, Holding, Speaks;
    var n := y.(turn := Turn.Push(y.turn, bytes));
    assert n.turn.finishOffered ==> n.turn.queue == y.turn.queue + [] == y.turn.queue;
    assert Listens(x, n, StageOf(x, y, yx));
    assert StageOf(x, n, yx) == StageOf(x, y, yx);
    hide Listens;
  }

  lemma ArriveCarries(p: Pipe, control: seq<Word>, payload: seq<Word>)
    requires Carries(p, control, payload)
    ensures Carries(Arrived(p), control, payload)
    ensures p.control <= Arrived(p).control && p.payload <= Arrived(p).payload
    ensures payload == [] ==>
      (p.flying != [] || p.control != [] <==> Arrived(p).flying != [] || Arrived(p).control != [])
  {
    hide Demux.IsControl, Carries;
    var all := control + payload;
    var arrived := |p.control| + |p.payload|;
    CarriesCut(p, control, payload);
    CarriesClasses(p, control, payload);
    if p.flying != [] {
      var w := p.flying[0];
      assert w == all[arrived];
      assert p.flying[1..] == all[arrived + 1..];
      if arrived < |control| {
        assert w == control[arrived] && Demux.IsControl(w);
        assert control[..arrived + 1] == control[..arrived] + [w];
      } else {
        assert w == payload[arrived - |control|] && !Demux.IsControl(w);
        assert control[..|control|] == control;
        assert payload[..arrived + 1 - |control|] == payload[..arrived - |control|] + [w];
      }
      CutCarries(Arrived(p), control, payload, arrived + 1);
    }
  }

  lemma HoldingGrows(asm: Assembly, before: seq<Word>, after: seq<Word>)
    requires Holding(asm, before) && before <= after
    ensures Holding(asm, after)
  {
  }

  /** The stage depends on the way back only through whether a word is on it. */
  lemma StageArrives(x: Peer, y: Peer, p: Pipe, q: Pipe)
    requires p.flying != [] || p.control != [] <==> q.flying != [] || q.control != []
    ensures StageOf(x, y, p) == StageOf(x, y, q)
  {
  }

  lemma ArriveAtListener(x: Peer, y: Peer, xy: Pipe, yx: Pipe)
    requires Converse(x, y, xy, yx)
    ensures Converse(x, y, Arrived(xy), yx)
  {
    hide ToBytes, Arrived, Carries, Holding, Healthy, Speaks, Listens, Ending, Waits, StageOf;
    var stage := StageOf(x, y, yx);
    ArriveCarries(xy, LastAck(y), Flown(x, stage));
    HoldingGrows(y.Tx().asm, xy.control, Arrived(xy).control);
    HoldingGrows(y.Rx().asm, xy.payload, Arrived(xy).payload);
  }

  lemma ArriveAtSpeaker(x: Peer, y: Peer, xy: Pipe, yx: Pipe)
    requires Converse(x, y, xy, yx)
    ensures Converse(x, y, xy, Arrived(yx))
  {
    hide ToBytes, Arrived, Carries, Holding, Healthy, Speaks, Listens, Ending, Waits, StageOf;
    var stage := StageOf(x, y, yx);
    ArriveCarries(yx, Owed(x, stage), []);
    HoldingGrows(x.Tx().asm, yx.control, Arrived(yx).control);
    StageArrives(x, y, yx, Arrived(yx));
  }

  // ------------------------------------------------------------ the two halves together

  /** What a peer makes of a poll in which neither half fails or hears ABORT; `d` is what it offered. */
  function Joined(x: Peer, d: Turn.Model, heard: Rx.Polled<Rx.Model>, said: Tx.Polled<Tx.Model>): (n: Peer)
    requires d.Valid() && heard.result.Ok? && said.result.Ok?
  {
    var done := said.result.value.TransferDone?;
    var edge := done && !d.pump.txDoneSeen;
    var delivered := heard.result.value.Delivered?;
    var q := d.(pump := Pump.Model(said.next.(mark := Tx.NO_MARK), heard.next, said.result.value.Acked?, done,
                                   delivered && edge));
    if delivered then x.(turn := q, current := x.current + [heard.result.value.byte])
    else if edge || heard.result.value.TransferFinished? then
      if d.speak then
        x.(turn := q.(speak := false, queue := [], index := 0, needStart := true, finishOffered := false),
           said := x.said + [x.turn.queue])
      else
        x.(turn := q.(speak := true, needStart := true, index := 0, finishOffered := false),
           heard := x.heard + [x.current], current := [])
    else x.(turn := q)
  }

  lemma PollJoins(x: Peer, outgoing: Pipe, incoming: Pipe, d: Turn.Model, heard: Rx.Polled<Rx.Model>,
                  said: Tx.Polled<Tx.Model>)
    requires x.turn.Valid() && !x.turn.pump.pendingCompleted
    requires d == Turn.DriveTx(x.turn)
    requires heard == Rx.Poll(x.Rx(), RxIo(x, incoming)) && heard.result.Ok? && !heard.result.value.Aborted?
    requires said == Tx.Poll(d.pump.tx, TxIo(x, incoming)) && said.result.Ok? && !said.result.value.Aborted?
    ensures
      var (n, sent, left) := PollStep(x, outgoing, incoming);
      && n == Joined(x, d, heard, said)
      && sent == outgoing.(flying := outgoing.flying + Finished(heard.calls, heard.next.out)
                                                     + Finished(said.calls, said.next.out))
      && left == incoming.(payload := AfterRead(incoming.payload, |x.Rx().asm.buf|, heard.calls.didRead),
                           control := AfterRead(incoming.control, |x.Tx().asm.buf|, said.calls.didRead))
  {
    hide Tx.Poll, Rx.Poll, Turn.DriveTx, Turn.Poll, Finished, AfterRead, RxIo, TxIo, Joined;
    TurnJoins(x, RxIo(x, incoming), TxIo(x, incoming), d, heard, said);
  }

  lemma TurnJoins(x: Peer, rxIo: Io, txIo: Io, d: Turn.Model, heard: Rx.Polled<Rx.Model>, said: Tx.Polled<Tx.Model>)
    requires x.turn.Valid() && !x.turn.pump.pendingCompleted && d == Turn.DriveTx(x.turn)
    requires heard == Rx.Poll(x.Rx(), rxIo) && heard.result.Ok? && !heard.result.value.Aborted?
    requires said == Tx.Poll(d.pump.tx, txIo) && said.result.Ok? && !said.result.value.Aborted?
    ensures
      var r := Turn.Poll(x.turn, rxIo, txIo);
      && r.rxCalls == heard.calls && r.txCalls == said.calls
      && r.next.pump.rx.out == heard.next.out && r.next.pump.tx.out == said.next.out
      && Noted(x, r) == Joined(x, d, heard, said)
  {
    DriveKeeps(x.turn);
    hide Tx.Poll, Rx.Poll, Turn.DriveTx, Pump.Poll;
    Pump.BothHalves(d.pump, rxIo, txIo);
  }

  lemma DriveKeeps(t: Turn.Model)
    requires t.Valid()
    ensures
      var d := Turn.DriveTx(t);
      && d.pump == t.pump.(tx := d.pump.tx)
      && d == t.(pump := d.pump, needStart := d.needStart, index := d.index, finishOffered := d.finishOffered)
  {
    hide Tx.OfferStart, Tx.Offer, Tx.OfferFinish;
  }

  // ------------------------------------------------------------ the speaker's polls

  lemma NoPayload(p: Pipe, control: seq<Word>)
    requires Carries(p, control, [])
    ensures p.payload == []
    ensures p.control != [] ==> p.control[0] == control[0]
  {
    hide Demux.IsControl;
    CarriesCut(p, control, []);
  }

  /** A speaker's poll is its sender's poll: its receiver hears nothing. */
  lemma SpeakerMoves(x: Peer, xy: Pipe, yx: Pipe, back: seq<Word>, d: Turn.Model, said: Tx.Polled<Tx.Model>)
    requires Healthy(x) && RxQuiet(x.Rx()) && Carries(yx, back, [])
    requires d == Turn.DriveTx(x.turn) && said == Tx.Poll(d.pump.tx, TxIo(x, yx))
    requires said.result.Ok? && !said.result.value.Aborted?
    requires said.result.value.TransferDone? ==> x.turn.pump.txDoneSeen
    ensures
      var (n, sent, left) := PollStep(x, xy, yx);
      && n == x.(turn := d.(pump := n.turn.pump)) && n.turn.Valid()
      && !n.turn.pump.pendingCompleted && (n.turn.pump.txDoneSeen <==> said.result.value.TransferDone?)
      && n.Tx() == said.next.(mark := Tx.NO_MARK)
      && n.Rx() == x.Rx().(state := n.Rx().state)
      && sent == xy.(flying := xy.flying + Finished(said.calls, said.next.out))
      && left == yx.(control := AfterRead(yx.control, |x.Tx().asm.buf|, said.calls.didRead))
  {
    NoPayload(yx, back);
    RxRests(x.Rx(), RxIo(x, yx));
    DriveKeeps(x.turn);
    hide Tx.Poll, Rx.Poll, Turn.DriveTx, Carries, PollStep;
    PollJoins(x, xy, yx, d, Rx.Poll(x.Rx(), RxIo(x, yx)), said);
    assert xy.flying + [] == xy.flying;
    PollIsValid(x, xy, yx);
  }

  lemma PollIsValid(x: Peer, outgoing: Pipe, incoming: Pipe)
    requires x.turn.Valid()
    ensures PollStep(x, outgoing, incoming).0.turn.Valid()
  {
    hide Turn.Poll;
  }

  /** The pieces of the invariant that a speaker's poll leaves alone. */
  lemma StillConverse(x: Peer, y: Peer, xy: Pipe, yx: Pipe, n: Peer, sent: Pipe, left: Pipe)
    requires Converse(x, y, xy, yx)
    requires n == x.(turn := n.turn) && Healthy(n) && Speaks(n)
    requires
      var stage := StageOf(n, y, left);
      && Listens(n, y, stage)
      && Carries(sent, LastAck(y), Flown(n, stage))
      && Carries(left, Owed(n, stage), [])
      && (y.turn.speak ==> n.turn.needStart || (n.Tx().inflight.Some? && n.Tx().inflight.value.kind.Start?
                                                 && (stage == Writing || stage == Sent)))
    requires sent.control == xy.control && sent.payload == xy.payload
    requires Holding(n.Tx().asm, left.control)
    ensures Converse(n, y, sent, left)
  {
    hide Healthy, Speaks, Listens, Carries, Holding, Ending, Waits, StageOf;
  }

  lemma SpeakerRests(x: Peer, y: Peer, xy: Pipe, yx: Pipe)
    requires Converse(x, y, xy, yx) && x.Tx().inflight == None && Turn.DriveTx(x.turn) == x.turn
    ensures
      var (n, sent, left) := PollStep(x, xy, yx);
      Converse(n, y, sent, left)
  {
    hide Carries, PollStep, Holding, Ending, Waits, ToBytes;
    var (n, sent, left) := PollStep(x, xy, yx);
    TxRests(x.Tx(), TxIo(x, yx));
    SpeakerMoves(x, xy, yx, [], x.turn, Tx.Poll(x.Tx(), TxIo(x, yx)));
    assert xy.flying + [] == xy.flying;
    StillConverse(x, y, xy, yx, n, sent, left);
  }

  /** An idle speaker with something queued always offers its next frame. */
  lemma DriveOffers(x: Peer)
    requires Healthy(x) && Speaks(x) && x.Tx().inflight == None && x.turn.queue != []
    ensures
      var d := Turn.DriveTx(x.turn);
      var tx := d.pump.tx;
      && d.Valid() && d.speak && !d.needStart && d.queue == x.turn.queue
      && d.pump == x.turn.pump.(tx := tx)
      && tx.Coherent() && tx.inflight.Some? && !tx.inflight.value.waiting
      && FlightOk(tx.inflight.value, d) && tx.num == tx.inflight.value.num
      && tx.asm == x.Tx().asm && tx.out.Idle() && tx.policy == x.Tx().policy
      && (tx.inflight.value.kind.Start? <==> x.turn.needStart)
      && Before(d) == x.turn.index
  {
  }

  /** `d` is the speaker with a frame of the session to write, which the listener is ready for. */
  ghost predicate HasFrame(x: Peer, y: Peer, d: Turn.Model) {
    var tx := d.pump.tx;
    && d.Valid() && d.pump == x.turn.pump.(tx := tx) && d.speak && !d.needStart && d.queue == x.turn.queue
    && tx.inflight.Some? && !tx.inflight.value.waiting
    && FlightOk(tx.inflight.value, d) && tx.num == tx.inflight.value.num
    && tx.asm.buf == [] && tx.asm == x.Tx().asm
    && (!tx.out.Idle() ==> tx.out.bytes == ToBytes(Tx.FrameOf(tx.inflight.value)))
    && y.current == d.queue[..Before(d)]
    && (tx.inflight.value.kind.Start? || RxOpen(y.Rx(), |y.current|))
    && (y.turn.speak ==> tx.inflight.value.kind.Start?)
  }

  /** Writing a byte of the flight: from the offer on, and until the frame is on its way. */
  lemma SpeakerWrites(x: Peer, y: Peer, xy: Pipe, yx: Pipe)
    requires Converse(x, y, xy, yx) && HasFrame(x, y, Turn.DriveTx(x.turn))
    requires RxQuiet(y.Rx()) && Carries(xy, LastAck(y), []) && Carries(yx, [], [])
    ensures
      var (n, sent, left) := PollStep(x, xy, yx);
      Converse(n, y, sent, left)
  {
    hide Carries, PollStep, Holding, Ending, Waits, ToBytes, Turn.DriveTx;
    var d := Turn.DriveTx(x.turn);
    var (n, sent, left) := PollStep(x, xy, yx);
    var f := d.pump.tx.inflight.value;
    TxWrites(d.pump.tx, TxIo(x, yx));
    SpeakerMoves(x, xy, yx, [], d, Tx.Poll(d.pump.tx, TxIo(x, yx)));
    WroteFrame(x, y, n, d);
    if n.Tx().inflight.value.waiting {
      FlightIsPayload(f);
      CarriesAppend(xy, LastAck(y), ToBytes(Tx.FrameOf(f)));
      NothingOnTheWay(yx);
    } else {
      assert xy.flying + [] == xy.flying;
    }
    StillConverse(x, y, xy, yx, n, sent, left);
  }

  /** The speaker's books after it wrote a byte of its frame. */
  lemma WroteFrame(x: Peer, y: Peer, n: Peer, d: Turn.Model)
    requires Healthy(x) && x.turn.Valid() && Speaks(x) && HasFrame(x, y, d) && RxQuiet(y.Rx())
    requires n == x.(turn := d.(pump := n.turn.pump)) && n.turn.Valid()
    requires !n.turn.pump.pendingCompleted && !n.turn.pump.txDoneSeen
    requires n.Rx() == x.Rx().(state := n.Rx().state)
    requires n.Tx().inflight.Some? && n.Tx().out.bytes == ToBytes(Tx.FrameOf(d.pump.tx.inflight.value))
    requires n.Tx().inflight.value.kind == d.pump.tx.inflight.value.kind
    requires n.Tx().inflight.value.num == d.pump.tx.inflight.value.num
    requires n.Tx().inflight.value.waiting <==> n.Tx().out.Idle()
    requires n.Tx().num == d.pump.tx.num && n.Tx().asm == x.Tx().asm
    ensures Healthy(n) && Speaks(n)
    ensures Listens(n, y, if n.Tx().inflight.value.waiting then Sent else Writing)
    ensures Tx.FrameOf(n.Tx().inflight.value) == Tx.FrameOf(d.pump.tx.inflight.value)
  {
    hide ToBytes;
    assert Before(n.turn) == Before(d);
  }

  lemma CarriesAppend(p: Pipe, control: seq<Word>, word: Word)
    requires Carries(p, control, []) && !Demux.IsControl(word)
    ensures Carries(p.(flying := p.flying + [word]), control, [word])
  {
    hide Demux.IsControl;
    assert control + [] == control;
  }

  lemma CarriesAck(p: Pipe, word: Word)
    requires Carries(p, [], []) && Demux.IsControl(word)
    ensures Carries(p.(flying := p.flying + [word]), [word], [])
  {
    hide Carries, Demux.IsControl;
    NothingOnTheWay(p);
    assert p.(flying := p.flying + [word]) == Pipe([word], [], []);
    OneAck(word);
  }

  lemma OneAck(word: Word)
    requires Demux.IsControl(word)
    ensures Carries(Pipe([word], [], []), [word], [])
  {
    hide Demux.IsControl;
    var all := [word] + [];
    assert all == [word];
  }

  lemma NothingOnTheWay(p: Pipe)
    requires Carries(p, [], [])
    ensures p.flying == [] && p.control == [] && p.payload == []
  {
  }

  /** Waiting for an answer that has not arrived. */
  lemma SpeakerWaits(x: Peer, y: Peer, xy: Pipe, yx: Pipe)
    requires Converse(x, y, xy, yx) && Tx.WillRead(x.Tx()) && yx.control == [] && Patient(x, yx)
    ensures
      var (n, sent, left) := PollStep(x, xy, yx);
      Converse(n, y, sent, left)
  {
    hide Carries, PollStep, Holding, Ending, Waits, ToBytes, RxOpen;
    var (n, sent, left) := PollStep(x, xy, yx);
    TxTicks(x.Tx(), TxIo(x, yx));
    SpeakerMoves(x, xy, yx, Owed(x, StageOf(x, y, yx)), x.turn, Tx.Poll(x.Tx(), TxIo(x, yx)));
    assert xy.flying + [] == xy.flying;
    assert left == yx && sent == xy;
    TickedStill(x, y, n, yx);
    HoldingSame(x, n, yx);
    StillConverse(x, y, xy, yx, n, sent, left);
  }

  /** Counting an idle tick changes nobody's books. */
  lemma TickedStill(x: Peer, y: Peer, n: Peer, yx: Pipe)
    requires Healthy(x) && x.turn.Valid() && Speaks(x) && x.Tx().inflight.Some? && x.Tx().inflight.value.waiting
    requires Listens(x, y, StageOf(x, y, yx))
    requires n == x.(turn := x.turn.(pump := n.turn.pump)) && n.turn.Valid()
    requires !n.turn.pump.pendingCompleted && !n.turn.pump.txDoneSeen
    requires n.Rx() == x.Rx().(state := n.Rx().state)
    requires n.Tx().inflight.Some? && n.Tx() == x.Tx().(inflight := n.Tx().inflight, mark := Tx.NO_MARK)
    requires n.Tx().inflight.value == x.Tx().inflight.value.(emptyTicks := n.Tx().inflight.value.emptyTicks)
    ensures Healthy(n) && Speaks(n)
    ensures StageOf(n, y, yx) == StageOf(x, y, yx)
    ensures Listens(n, y, StageOf(x, y, yx))
    ensures Flown(n, StageOf(x, y, yx)) == Flown(x, StageOf(x, y, yx))
    ensures Owed(n, StageOf(x, y, yx)) == Owed(x, StageOf(x, y, yx))
  {
    hide ToBytes, RxOpen;
    assert Before(n.turn) == Before(x.turn);
    assert Tx.FrameOf(n.Tx().inflight.value) == Tx.FrameOf(x.Tx().inflight.value);
  }

  lemma HoldingSame(x: Peer, n: Peer, p: Pipe)
    requires n.Tx().asm == x.Tx().asm
    ensures Holding(x.Tx().asm, p.control) ==> Holding(n.Tx().asm, p.control)
  {
  }

  /** A byte of the acknowledgement that is not its last. */
  lemma SpeakerHearsSome(x: Peer, y: Peer, xy: Pipe, yx: Pipe)
    requires Converse(x, y, xy, yx) && StageOf(x, y, yx) == Answered && yx.control != [] && |x.Tx().asm.buf| < 3
    ensures
      var (n, sent, left) := PollStep(x, xy, yx);
      Converse(n, y, sent, left)
  {
    hide Carries, PollStep, Ending, Waits, ToBytes, RxOpen;
    var (n, sent, left) := PollStep(x, xy, yx);
    NextByte(x.Tx().asm, yx.control[0]);
    assert xy.flying + [] == xy.flying;
    TxReads(x.Tx(), TxIo(x, yx));
    SpeakerMoves(x, xy, yx, Owed(x, Answered), x.turn, Tx.Poll(x.Tx(), TxIo(x, yx)));
    HeardSome(x, y, n, yx);
    StillConverse(x, y, xy, yx, n, sent, left);
  }

  /** The last byte of the acknowledgement. */
  lemma SpeakerHearsLast(x: Peer, y: Peer, xy: Pipe, yx: Pipe)
    requires Converse(x, y, xy, yx) && StageOf(x, y, yx) == Answered && yx.control != [] && |x.Tx().asm.buf| == 3
    ensures
      var (n, sent, left) := PollStep(x, xy, yx);
      Converse(n, y, sent, left)
  {
    hide Carries, PollStep, Ending, Waits, ToBytes, RxOpen;
    var (n, sent, left) := PollStep(x, xy, yx);
    OneAckHere(yx, ToBytes(AckFrame(x.Tx().inflight.value.num)));
    NextByte(x.Tx().asm, yx.control[0]);
    assert xy.flying + [] == xy.flying;
    TxAcked(x.Tx(), TxIo(x, yx), yx.control[0]);
    SpeakerMoves(x, xy, yx, Owed(x, Answered), x.turn, Tx.Poll(x.Tx(), TxIo(x, yx)));
    HeardAll(x, y, n);
    NothingCarried(left);
    StillConverse(x, y, xy, yx, n, sent, left);
  }

  lemma HoldsLess(asm: Assembly, queue: seq<Word>)
    requires Holding(asm, queue)
    ensures |asm.buf| < FRAME_LEN
  {
  }

  lemma OneAckHere(p: Pipe, word: Word)
    requires Carries(p, [word], []) && p.control != []
    ensures p == Pipe([], [word], [])
  {
    hide Demux.IsControl;
    assert [word] + [] == [word];
  }

  lemma NothingCarried(p: Pipe)
    requires p == QUIET
    ensures Carries(p, [], [])
  {
    hide Demux.IsControl;
  }

  lemma HeardSome(x: Peer, y: Peer, n: Peer, yx: Pipe)
    requires Healthy(x) && x.turn.Valid() && Speaks(x) && StageOf(x, y, yx) == Answered && Listens(x, y, Answered)
    requires n == x.(turn := x.turn.(pump := n.turn.pump)) && n.turn.Valid()
    requires !n.turn.pump.pendingCompleted && !n.turn.pump.txDoneSeen
    requires n.Rx() == x.Rx().(state := n.Rx().state)
    requires n.Tx() == x.Tx().(asm := n.Tx().asm, mark := Tx.NO_MARK) && n.Tx().asm.resync == x.Tx().asm.resync
    ensures Healthy(n) && Speaks(n) && StageOf(n, y, yx) == Answered && Listens(n, y, Answered)
  {
    hide ToBytes, RxOpen;
  }

  lemma HeardAll(x: Peer, y: Peer, n: Peer)
    requires Healthy(x) && x.turn.Valid() && Speaks(x) && x.Tx().inflight.Some? && Listens(x, y, Answered)
    requires n == x.(turn := x.turn.(pump := n.turn.pump)) && n.turn.Valid()
    requires !n.turn.pump.pendingCompleted && !n.turn.pump.txDoneSeen
    requires n.Rx() == x.Rx().(state := n.Rx().state)
    requires n.Tx().inflight == None && n.Tx().asm == FRESH_PLAIN && n.Tx().state == Tx.TxState.Idle
    requires n.Tx().out == x.Tx().out
    requires n.Tx().num == (match x.Tx().inflight.value.kind
                            case Data(_) => Advance(x.Tx().num) case Start => 0 case _ => x.Tx().num)
    ensures Healthy(n) && Speaks(n) && Listens(n, y, Resting)
  {
    hide ToBytes;
    if x.Tx().inflight.value.kind.Data? {
      AdvanceOfIndex(x.turn.index - 1);
    }
  }

  /** The speaker's poll keeps the conversation going, with the same speaker. */
  lemma SpeakerPolls(x: Peer, y: Peer, xy: Pipe, yx: Pipe)
    requires Converse(x, y, xy, yx) && Patient(x, yx)
    ensures
      var (n, sent, left) := PollStep(x, xy, yx);
      Converse(n, y, sent, left)
  {
    hide Carries, PollStep, Holding, Ending, Waits, ToBytes, RxOpen;
    var stage := StageOf(x, y, yx);
    if stage == Resting {
      if x.turn.queue == [] {
        SpeakerRests(x, y, xy, yx);
      } else {
        DriveOffers(x);
        SpeakerWrites(x, y, xy, yx);
      }
    } else if stage == Writing {
      WritingHasFrame(x, y, xy, yx);
      SpeakerWrites(x, y, xy, yx);
    } else if yx.control == [] {
      SpeakerWaits(x, y, xy, yx);
    } else {
      BackIsForSpeaker(x, y, yx);
      HoldsLess(x.Tx().asm, yx.control);
      if |x.Tx().asm.buf| < 3 {
        SpeakerHearsSome(x, y, xy, yx);
      } else {
        SpeakerHearsLast(x, y, xy, yx);
      }
    }
  }

  lemma WritingHasFrame(x: Peer, y: Peer, xy: Pipe, yx: Pipe)
    requires Converse(x, y, xy, yx) && StageOf(x, y, yx) == Writing
    ensures HasFrame(x, y, Turn.DriveTx(x.turn))
  {
    hide Carries, Holding, ToBytes;
    assert Turn.DriveTx(x.turn) == x.turn;
  }

  lemma BackIsForSpeaker(x: Peer, y: Peer, yx: Pipe)
    requires Carries(yx, Owed(x, StageOf(x, y, yx)), []) && yx.control != []
    ensures StageOf(x, y, yx) == Answered
  {
    hide ToBytes, Demux.IsControl;
  }

  // ------------------------------------------------------------ the listener's polls

  /** A listener offers nothing: its poll is what its two halves do. */
  lemma ListenerMoves(y: Peer, yx: Pipe, xy: Pipe, heard: Rx.Polled<Rx.Model>, said: Tx.Polled<Tx.Model>)
    requires Healthy(y) && Turn.DriveTx(y.turn) == y.turn
    requires heard == Rx.Poll(y.Rx(), RxIo(y, xy)) && heard.result.Ok? && !heard.result.value.Aborted?
    requires said == Tx.Poll(y.Tx(), TxIo(y, xy)) && said.result.Ok? && !said.result.value.Aborted?
    requires said.calls.wrote == None
    requires said.result.value.TransferDone? && !y.turn.pump.txDoneSeen ==> !heard.result.value.Delivered?
    ensures
      var (n, sent, left) := PollStep(y, yx, xy);
      && n == Joined(y, y.turn, heard, said) && n.turn.Valid()
      && n.Rx() == heard.next && n.Tx() == said.next.(mark := Tx.NO_MARK)
      && !n.turn.pump.pendingCompleted
      && (n.turn.pump.txDoneSeen <==> said.result.value.TransferDone?)
      && sent == yx.(flying := yx.flying + Finished(heard.calls, heard.next.out))
      && left == xy.(payload := AfterRead(xy.payload, |y.Rx().asm.buf|, heard.calls.didRead),
                     control := AfterRead(xy.control, |y.Tx().asm.buf|, said.calls.didRead))
  {
    hide Tx.Poll, Rx.Poll, Turn.DriveTx, PollStep;
    PollJoins(y, yx, xy, y.turn, heard, said);
    PollIsValid(y, yx, xy);
    assert yx.flying + Finished(heard.calls, heard.next.out) + [] == yx.flying + Finished(heard.calls, heard.next.out);
  }

  /** The pieces of the invariant after a listener's poll that leaves it the listener. */
  lemma StillListens(x: Peer, y: Peer, xy: Pipe, yx: Pipe, n: Peer, sent: Pipe, left: Pipe, stage: Stage)
    requires Converse(x, y, xy, yx)
    requires StageOf(x, n, sent) == stage && (stage != Resting ==> x.Tx().inflight.Some?)
    requires Healthy(n) && Listens(x, n, stage)
    requires if n.turn.speak then Ending(n) else Waits(n)
    requires n.turn.speak ==> x.turn.needStart || (x.Tx().inflight.Some? && x.Tx().inflight.value.kind.Start?
                                                   && (stage == Writing || stage == Sent))
    requires Carries(left, LastAck(n), Flown(x, stage)) && Carries(sent, Owed(x, stage), [])
    requires sent.control == yx.control
    requires Holding(n.Tx().asm, left.control) && Holding(n.Rx().asm, left.payload)
    requires n.heard == y.heard
    requires n.said + (if n.turn.speak then [n.turn.queue] else [])
      == y.said + (if y.turn.speak then [y.turn.queue] else [])
    ensures Converse(x, n, left, sent)
  {
    hide Healthy, Speaks, Listens, Carries, Holding, Ending, Waits, StageOf;
  }

  lemma PopPayload(p: Pipe, control: seq<Word>, word: Word)
    requires Carries(p, control, [word]) && p.payload != [] && |control| <= 1
    ensures p == Pipe([], control, [word])
    ensures Carries(p.(payload := []), control, [])
  {
    hide Demux.IsControl;
    CarriesCut(p, control, [word]);
    assert control + [] == control;
  }

  lemma PopControl(p: Pipe, word: Word, payload: seq<Word>)
    requires Carries(p, [word], payload) && p.control != [] && |payload| <= 1
    ensures p.control == [word]
    ensures Carries(p.(control := []), [], payload)
  {
    hide Demux.IsControl;
    CarriesCut(p, [word], payload);
    assert [word][..1] == [word];
    assert p.payload + p.flying == ([word] + payload)[1..] == payload;
    assert [] + p.payload + p.flying == p.payload + p.flying;
  }

  lemma ControlArrivesFirst(p: Pipe, word: Word, payload: seq<Word>)
    requires Carries(p, [word], payload) && p.control == []
    ensures p.payload == []
  {
    hide Demux.IsControl;
    CarriesCut(p, [word], payload);
  }

  /** What a listener's sender does while it waits for its next turn: nothing. */
  lemma WaitingSender(y: Peer, xy: Pipe)
    requires Healthy(y) && Waits(y)
    ensures Turn.DriveTx(y.turn) == y.turn
    ensures Tx.Poll(y.Tx(), TxIo(y, xy)) ==
      Tx.Polled(y.Tx().(mark := Tx.NO_MARK),
                Ok(if y.Tx().state == Tx.TxState.Finished then Tx.TxPoll.TransferDone else Tx.TxPoll.Pending), NO_CALLS)
  {
    TxRests(y.Tx(), TxIo(y, xy));
  }

  /** A waiting listener that hears nothing, or writes a byte that does not complete its answer. */
  lemma WaitingIdles(x: Peer, y: Peer, xy: Pipe, yx: Pipe)
    requires Converse(x, y, xy, yx) && !y.turn.speak
    requires y.Rx().out.Idle() && xy.payload == []
    ensures
      var (n, sent, left) := PollStep(y, yx, xy);
      Converse(x, n, left, sent)
  {
    hide Carries, PollStep, Holding, Ending, ToBytes, RxOpen;
    var (n, sent, left) := PollStep(y, yx, xy);
    WaitingSender(y, xy);
    RxRests(y.Rx(), RxIo(y, xy));
    ListenerMoves(y, yx, xy, Rx.Poll(y.Rx(), RxIo(y, xy)), Tx.Poll(y.Tx(), TxIo(y, xy)));
    assert sent == yx && left == xy by {
      assert yx.flying + [] == yx.flying;
    }
    SameEars(x, y, n, yx);
    HoldingNow(y, n, xy);
    StillListens(x, y, xy, yx, n, sent, left, StageOf(x, y, yx));
  }

  lemma HoldingNow(y: Peer, n: Peer, p: Pipe)
    requires n.Tx().asm == y.Tx().asm && n.Rx().asm == y.Rx().asm
    ensures Holding(y.Tx().asm, p.control) ==> Holding(n.Tx().asm, p.control)
    ensures Holding(y.Rx().asm, p.payload) ==> Holding(n.Rx().asm, p.payload)
  {
  }

  /** A listener whose receiver changed only its coarse state or its position in a reply. */
  lemma SameEars(x: Peer, y: Peer, n: Peer, yx: Pipe)
    requires x.turn.Valid() && Healthy(y) && n.turn.Valid()
    requires StageOf(x, y, yx) != Resting ==> x.Tx().inflight.Some?
    requires Listens(x, y, StageOf(x, y, yx)) && n.current == y.current
    requires n.Rx() == y.Rx().(out := n.Rx().out, state := n.Rx().state) && n.Rx().out.bytes == y.Rx().out.bytes
    requires n.Rx().out.Idle() <==> y.Rx().out.Idle()
    ensures StageOf(x, n, yx) == StageOf(x, y, yx) && Listens(x, n, StageOf(x, y, yx))
    ensures !n.Rx().abortLatched && !n.Rx().asm.resync
  {
    hide ToBytes;
  }

  lemma PayloadIsAll(p: Pipe, control: seq<Word>, payload: seq<Word>)
    requires Carries(p, control, payload) && p.payload != [] && |control| <= 1 && |payload| <= 1
    ensures |payload| == 1 && p == Pipe([], control, payload)
    ensures Carries(p.(payload := []), control, [])
  {
    hide Demux.IsControl;
    CarriesCut(p, control, payload);
    PopPayload(p, control, payload[0]);
  }

  /** A frame has arrived for the listener: it is the speaker's flight, and nothing else can be. */
  lemma FrameIsFlight(x: Peer, y: Peer, xy: Pipe, yx: Pipe)
    requires Converse(x, y, xy, yx) && xy.payload != []
    ensures StageOf(x, y, yx) == Sent
    ensures xy.flying == [] && xy.control == LastAck(y)
    ensures xy.payload == [ToBytes(Tx.FrameOf(x.Tx().inflight.value))]
    ensures Carries(xy.(payload := []), LastAck(y), [])
    ensures y.Rx().pending == None && y.Rx().out.Idle()
  {
    hide ToBytes, Carries, Holding, Ending, Waits, Speaks, RxOpen;
    var stage := StageOf(x, y, yx);
    PayloadIsAll(xy, LastAck(y), Flown(x, stage));
  }

  /** The listener's receiver after one more byte of the flight. */
  lemma EarsHearSome(x: Peer, y: Peer, n: Peer, yx: Pipe)
    requires x.turn.Valid() && Healthy(y) && n.turn.Valid() && StageOf(x, y, yx) == Sent && Listens(x, y, Sent)
    requires n.current == y.current
    requires n.Rx() == y.Rx().(asm := n.Rx().asm, state := n.Rx().state) && !n.Rx().asm.resync
    ensures StageOf(x, n, yx) == Sent && Listens(x, n, Sent) && !n.Rx().abortLatched
  {
    hide ToBytes;
  }

  /** The listener's receiver after the last byte of the flight. */
  lemma EarsHearAll(x: Peer, y: Peer, n: Peer, yx: Pipe)
    requires x.turn.Valid() && Healthy(x) && Speaks(x) && n.turn.Valid()
    requires StageOf(x, y, yx) == Sent && Listens(x, y, Sent)
    requires n.current == y.current
    requires
      var f := x.Tx().inflight.value;
      && n.Rx().out.bytes == ToBytes(AckFrame(f.num)) && !n.Rx().out.Idle()
      && n.Rx().pending == Some(Reply(f)) && n.Rx().asm == FRESH_PLAIN
      && (f.kind.Start? ==> RxOpen(n.Rx(), 0))
      && (f.kind.Data? ==> RxOpen(n.Rx(), |y.current|))
    ensures StageOf(x, n, yx) == Answering && Listens(x, n, Answering)
  {
    hide ToBytes, RxOpen;
  }

  /** The flight the listener is waiting for carries the number it expects. */
  lemma FlightIsExpected(x: Peer, y: Peer, yx: Pipe)
    requires x.turn.Valid() && Healthy(x) && Speaks(x) && StageOf(x, y, yx) == Sent && Listens(x, y, Sent)
    ensures
      var f := x.Tx().inflight.value;
      && (f.kind.Start? ==> f.num == 0)
      && (f.kind.Data? || f.kind.Finish? ==> RxOpen(y.Rx(), |y.current|) && f.num == SeqOf(|y.current|))
      && !f.kind.Abort?
  {
    hide ToBytes, RxOpen;
  }

  /** What the listener's receiver does with the next byte of the flight, whatever its sender does. */
  lemma EarsRead(x: Peer, y: Peer, xy: Pipe, yx: Pipe)
    requires Converse(x, y, xy, yx) && xy.payload != []
    ensures
      var heard := Rx.Poll(y.Rx(), RxIo(y, xy));
      var f := x.Tx().inflight.value;
      && heard.result == Ok(Rx.PollOutcome.Pending) && heard.calls.didRead
      && Finished(heard.calls, heard.next.out) == []
      && (|y.Rx().asm.buf| < 3 ==>
            && heard.next == y.Rx().(asm := heard.next.asm, state := heard.next.state)
            && |heard.next.asm.buf| == |y.Rx().asm.buf| + 1
            && Holding(heard.next.asm, xy.payload))
      && (|y.Rx().asm.buf| == 3 ==>
            && !heard.next.out.Idle() && heard.next.out.bytes == ToBytes(AckFrame(f.num))
            && heard.next.pending == Some(Reply(f)) && heard.next.asm == FRESH_PLAIN && !heard.next.abortLatched
            && (f.kind.Start? ==> RxOpen(heard.next, 0))
            && (f.kind.Data? ==> RxOpen(heard.next, |y.current|)))
  {
    hide Carries, Ending, Waits, ToBytes, RxOpen;
    FrameIsFlight(x, y, xy, yx);
    var word := xy.payload[0];
    NextByte(y.Rx().asm, word);
    if |y.Rx().asm.buf| < 3 {
      RxReads(y.Rx(), RxIo(y, xy));
    } else {
      FlightIsExpected(x, y, yx);
      RxAccepts(y.Rx(), RxIo(y, xy), x.Tx().inflight.value, |y.current|);
    }
  }

  lemma WaitingReads(x: Peer, y: Peer, xy: Pipe, yx: Pipe)
    requires Converse(x, y, xy, yx) && !y.turn.speak && xy.payload != []
    ensures
      var (n, sent, left) := PollStep(y, yx, xy);
      Converse(x, n, left, sent)
  {
    hide Carries, PollStep, Ending, ToBytes, RxOpen, Rx.Poll;
    var (n, sent, left) := PollStep(y, yx, xy);
    FrameIsFlight(x, y, xy, yx);
    EarsRead(x, y, xy, yx);
    WaitingSender(y, xy);
    ListenerMoves(y, yx, xy, Rx.Poll(y.Rx(), RxIo(y, xy)), Tx.Poll(y.Tx(), TxIo(y, xy)));
    assert yx.flying + [] == yx.flying;
    if |y.Rx().asm.buf| < 3 {
      EarsHearSome(x, y, n, yx);
      StillListens(x, y, xy, yx, n, sent, left, Sent);
    } else {
      assert left == xy.(payload := []);
      EarsHearAll(x, y, n, yx);
      StillListens(x, y, xy, yx, n, sent, left, Answering);
    }
  }

  /** Answering: nothing is on its way in either direction, and the listener is not ending a session of its own. */
  lemma AnsweringAlone(x: Peer, y: Peer, xy: Pipe, yx: Pipe)
    requires Converse(x, y, xy, yx) && !y.Rx().out.Idle()
    ensures StageOf(x, y, yx) == Answering && !y.turn.speak
    ensures xy == QUIET && yx == QUIET
    ensures x.Tx().asm.buf == [] && y.Tx().asm.buf == []
  {
    hide ToBytes, Carries, Ending, RxOpen;
    assert StageOf(x, y, yx) == Answering;
    NothingOnTheWay(xy);
    NothingOnTheWay(yx);
  }

  lemma AnswersSome(x: Peer, y: Peer, xy: Pipe, yx: Pipe)
    requires Converse(x, y, xy, yx) && !y.Rx().out.Idle() && !y.Rx().out.Commit().Idle()
    ensures
      var (n, sent, left) := PollStep(y, yx, xy);
      Converse(x, n, left, sent)
  {
    hide Carries, PollStep, Holding, Ending, ToBytes, RxOpen;
    var (n, sent, left) := PollStep(y, yx, xy);
    AnsweringAlone(x, y, xy, yx);
    WaitingSender(y, xy);
    AnswerByte(y.Rx(), RxIo(y, xy));
    ListenerMoves(y, yx, xy, Rx.Poll(y.Rx(), RxIo(y, xy)), Tx.Poll(y.Tx(), TxIo(y, xy)));
    assert sent == yx && left == xy by {
      assert yx.flying + [] == yx.flying;
    }
    SameEars(x, y, n, yx);
    HoldingNow(y, n, xy);
    StillListens(x, y, xy, yx, n, sent, left, Answering);
  }

  /** The acknowledgement of START or DATA is out: the byte, if any, is handed over. */
  lemma AnswersLast(x: Peer, y: Peer, xy: Pipe, yx: Pipe)
    requires Converse(x, y, xy, yx) && !y.Rx().out.Idle() && y.Rx().out.Commit().Idle()
    requires !x.Tx().inflight.value.kind.Finish?
    ensures
      var (n, sent, left) := PollStep(y, yx, xy);
      Converse(x, n, left, sent)
  {
    hide Carries, PollStep, Holding, Ending, ToBytes, RxOpen, Rx.Poll;
    var (n, sent, left) := PollStep(y, yx, xy);
    var f := x.Tx().inflight.value;
    AnsweringAlone(x, y, xy, yx);
    WaitingSender(y, xy);
    AnswerLast(y.Rx(), RxIo(y, xy), f, |y.current|);
    ListenerMoves(y, yx, xy, Rx.Poll(y.Rx(), RxIo(y, xy)), Tx.Poll(y.Tx(), TxIo(y, xy)));
    assert left == xy;
    AckIsControl(f.num);
    CarriesAck(yx, ToBytes(AckFrame(f.num)));
    HeardFlight(x, y, n, sent);
    HoldingNow(y, n, xy);
    StillListens(x, y, xy, yx, n, sent, left, Answered);
  }

  lemma HeardFlight(x: Peer, y: Peer, n: Peer, sent: Pipe)
    requires x.turn.Valid() && Healthy(x) && Speaks(x) && n.turn.Valid()
    requires x.Tx().inflight.Some? && x.Tx().inflight.value.waiting && !x.Tx().inflight.value.kind.Finish?
    requires Listens(x, y, Answering) && RxQuiet(n.Rx()) && sent.flying != []
    requires
      var kind := x.Tx().inflight.value.kind;
      && n.current == (match kind case Data(byte) => y.current + [byte] case _ => y.current)
      && RxOpen(n.Rx(), if kind.Data? then |y.current| + 1 else |y.current|)
    ensures StageOf(x, n, sent) == Answered && Listens(x, n, Answered)
  {
    hide ToBytes, RxOpen;
    var t := x.turn;
    if x.Tx().inflight.value.kind.Data? {
      assert t.queue[..t.index] == t.queue[..t.index - 1] + [t.queue[t.index - 1]];
    }
  }

  /** The acknowledgement of FINISH is out: the turn flips, and the old speaker has only that word left to read. */
  lemma FinishFlips(x: Peer, y: Peer, xy: Pipe, yx: Pipe)
    requires Converse(x, y, xy, yx) && !y.Rx().out.Idle() && y.Rx().out.Commit().Idle()
    requires x.Tx().inflight.value.kind.Finish?
    ensures
      var (n, sent, left) := PollStep(y, yx, xy);
      Converse(n, x, sent, left)
  {
    hide Carries, PollStep, Holding, ToBytes, RxOpen, Rx.Poll;
    var (n, sent, left) := PollStep(y, yx, xy);
    var f := x.Tx().inflight.value;
    AnsweringAlone(x, y, xy, yx);
    WaitingSender(y, xy);
    AnswerLast(y.Rx(), RxIo(y, xy), f, |y.current|);
    ListenerMoves(y, yx, xy, Rx.Poll(y.Rx(), RxIo(y, xy)), Tx.Poll(y.Tx(), TxIo(y, xy)));
    assert left == xy;
    AckIsControl(f.num);
    CarriesAck(yx, ToBytes(AckFrame(f.num)));
    assert x.turn.queue[..|x.turn.queue|] == x.turn.queue;
    NewSpeaker(x, n);
    assert StageOf(n, x, left) == Resting;
    NothingHeld(x, n, sent, left);
    hide Healthy, Speaks, Listens, Ending;
  }

  lemma NewSpeaker(x: Peer, n: Peer)
    requires Healthy(x) && x.turn.Valid() && Speaks(x) && n.turn.Valid()
    requires x.Tx().inflight.Some? && x.Tx().inflight.value.kind.Finish? && x.Tx().inflight.value.waiting
    requires x.Tx().out.Idle()
    requires n.turn.speak && n.turn.needStart && n.turn.index == 0 && !n.turn.finishOffered && n.current == []
    requires RxQuiet(n.Rx()) && n.Tx().inflight == None && n.Tx().asm.buf == []
    ensures Speaks(n) && Ending(x) && Listens(n, x, Resting)
  {
    hide ToBytes, RxOpen;
  }

  lemma NothingHeld(x: Peer, n: Peer, sent: Pipe, left: Pipe)
    requires Healthy(x) && Healthy(n) && x.Tx().asm.buf == [] && x.Rx().asm.buf == [] && n.Tx().asm.buf == []
    ensures Holding(x.Tx().asm, sent.control) && Holding(x.Rx().asm, sent.payload) && Holding(n.Tx().asm, left.control)
  {
  }

  // ------------------------------------------------------------ a listener whose own session is ending

  lemma EndingDrives(y: Peer)
    requires y.turn.Valid() && Ending(y)
    ensures Turn.DriveTx(y.turn) == y.turn && Tx.WillRead(y.Tx())
  {
  }

  /** The last acknowledgement has not arrived, so neither has anything after it. */
  lemma EndingWaits(x: Peer, y: Peer, xy: Pipe, yx: Pipe)
    requires Converse(x, y, xy, yx) && y.turn.speak && xy.control == [] && Patient(y, xy)
    ensures
      var (n, sent, left) := PollStep(y, yx, xy);
      Converse(x, n, left, sent)
  {
    hide Carries, PollStep, Holding, ToBytes, RxOpen;
    var (n, sent, left) := PollStep(y, yx, xy);
    EndingDrives(y);
    ControlArrivesFirst(xy, LastAck(y)[0], Flown(x, StageOf(x, y, yx)));
    TxTicks(y.Tx(), TxIo(y, xy));
    RxRests(y.Rx(), RxIo(y, xy));
    ListenerMoves(y, yx, xy, Rx.Poll(y.Rx(), RxIo(y, xy)), Tx.Poll(y.Tx(), TxIo(y, xy)));
    assert sent == yx && left == xy by {
      assert yx.flying + [] == yx.flying;
    }
    SameEars(x, y, n, yx);
    HoldingNow(y, n, xy);
    StillListens(x, y, xy, yx, n, sent, left, StageOf(x, y, yx));
  }

  /** What the listener's receiver does in the same poll: nothing, or one more byte of the new speaker's START. */
  lemma EndingEars(x: Peer, y: Peer, xy: Pipe, yx: Pipe)
    requires Converse(x, y, xy, yx) && y.turn.speak
    ensures
      var heard := Rx.Poll(y.Rx(), RxIo(y, xy));
      && heard.result == Ok(Rx.PollOutcome.Pending) && heard.calls.didRead
      && Finished(heard.calls, heard.next.out) == []
      && (xy.payload == [] ==> heard.next == y.Rx().(state := heard.next.state))
  {
    hide Carries, Ending, ToBytes, RxOpen;
    if xy.payload == [] {
      RxRests(y.Rx(), RxIo(y, xy));
    } else {
      EarsRead(x, y, xy, yx);
    }
  }

  /** A byte of the last acknowledgement that does not complete it. */
  lemma EndingReads(x: Peer, y: Peer, xy: Pipe, yx: Pipe)
    requires Converse(x, y, xy, yx) && y.turn.speak && xy.control != [] && |y.Tx().asm.buf| < 3
    ensures
      var (n, sent, left) := PollStep(y, yx, xy);
      Converse(x, n, left, sent)
  {
    hide Carries, PollStep, ToBytes, RxOpen, Rx.Poll;
    var (n, sent, left) := PollStep(y, yx, xy);
    EndingDrives(y);
    NextByte(y.Tx().asm, xy.control[0]);
    TxReads(y.Tx(), TxIo(y, xy));
    EndingEars(x, y, xy, yx);
    ListenerMoves(y, yx, xy, Rx.Poll(y.Rx(), RxIo(y, xy)), Tx.Poll(y.Tx(), TxIo(y, xy)));
    assert sent == yx && left == xy by {
      assert yx.flying + [] == yx.flying;
    }
    if xy.payload == [] {
      SameEars(x, y, n, yx);
    } else {
      FrameIsFlight(x, y, xy, yx);
      EarsRead(x, y, xy, yx);
      EarsHearSome(x, y, n, yx);
    }
    StillListens(x, y, xy, yx, n, sent, left, StageOf(x, y, yx));
  }

  /** The last byte of the last acknowledgement: the old speaker yields and is a plain listener from now on. */
  lemma EndingYields(x: Peer, y: Peer, xy: Pipe, yx: Pipe)
    requires Converse(x, y, xy, yx) && y.turn.speak && xy.control != [] && |y.Tx().asm.buf| == 3
    ensures
      var (n, sent, left) := PollStep(y, yx, xy);
      Converse(x, n, left, sent)
  {
    hide Carries, PollStep, ToBytes, RxOpen, Rx.Poll;
    var (n, sent, left) := PollStep(y, yx, xy);
    var stage := StageOf(x, y, yx);
    EndingDrives(y);
    NextByte(y.Tx().asm, xy.control[0]);
    PopControl(xy, LastAck(y)[0], Flown(x, stage));
    TxAcked(y.Tx(), TxIo(y, xy), xy.control[0]);
    EndingEars(x, y, xy, yx);
    ListenerMoves(y, yx, xy, Rx.Poll(y.Rx(), RxIo(y, xy)), Tx.Poll(y.Tx(), TxIo(y, xy)));
    assert sent == yx by {
      assert yx.flying + [] == yx.flying;
    }
    if xy.payload == [] {
      SameEars(x, y, n, yx);
      assert left == xy.(control := []);
      StillListens(x, y, xy, yx, n, sent, left, stage);
    } else {
      FrameIsFlight(x, y, xy, yx);
      EarsRead(x, y, xy, yx);
      if |y.Rx().asm.buf| < 3 {
        EarsHearSome(x, y, n, yx);
        assert left == xy.(control := []);
        StillListens(x, y, xy, yx, n, sent, left, Sent);
      } else {
        EarsHearAll(x, y, n, yx);
        assert left == QUIET;
        NothingCarried(left);
        StillListens(x, y, xy, yx, n, sent, left, Answering);
      }
    }
  }

  // ------------------------------------------------------------ every run

  /** The listener's poll keeps the conversation going, perhaps with the turn flipped. */
  lemma ListenerPolls(x: Peer, y: Peer, xy: Pipe, yx: Pipe)
    requires Converse(x, y, xy, yx) && Patient(y, xy)
    ensures
      var (n, sent, left) := PollStep(y, yx, xy);
      Converse(x, n, left, sent) || Converse(n, x, sent, left)
  {
    hide Carries, PollStep, Healthy, Speaks, ToBytes, RxOpen;
    if y.turn.speak {
      HoldsLess(y.Tx().asm, xy.control);
      if xy.control == [] {
        EndingWaits(x, y, xy, yx);
      } else if |y.Tx().asm.buf| < 3 {
        EndingReads(x, y, xy, yx);
      } else {
        EndingYields(x, y, xy, yx);
      }
    } else if !y.Rx().out.Idle() {
      if !y.Rx().out.Commit().Idle() {
        AnswersSome(x, y, xy, yx);
      } else if x.Tx().inflight.value.kind.Finish? {
        FinishFlips(x, y, xy, yx);
      } else {
        AnswersLast(x, y, xy, yx);
      }
    } else if xy.payload == [] {
      WaitingIdles(x, y, xy, yx);
    } else {
      WaitingReads(x, y, xy, yx);
    }
  }

  /** One event, whoever speaks: `x` does if `Converse(x, y, xy, yx)`. */
  lemma StepKeepsInv(s: Sys, e: Event)
    requires Inv(s) && s.a.turn.Valid() && s.b.turn.Valid() && Timely(s, e)
    ensures Inv(Step(s, e))
  {
    hide Converse, PollStep, Patient, Arrived;
    if Converse(s.a, s.b, s.ab, s.ba) {
      match e
      case Queue(isA, bytes) =>
        if isA { QueueSpeaker(s.a, s.b, s.ab, s.ba, bytes); } else { QueueListener(s.a, s.b, s.ab, s.ba, bytes); }
      case Poll(isA) =>
        if isA { SpeakerPolls(s.a, s.b, s.ab, s.ba); } else { ListenerPolls(s.a, s.b, s.ab, s.ba); }
      case Arrive(toA) =>
        if toA { ArriveAtSpeaker(s.a, s.b, s.ab, s.ba); } else { ArriveAtListener(s.a, s.b, s.ab, s.ba); }
    } else {
      match e
      case Queue(isA, bytes) =>
        if isA { QueueListener(s.b, s.a, s.ba, s.ab, bytes); } else { QueueSpeaker(s.b, s.a, s.ba, s.ab, bytes); }
      case Poll(isA) =>
        if isA { ListenerPolls(s.b, s.a, s.ba, s.ab); } else { SpeakerPolls(s.b, s.a, s.ba, s.ab); }
      case Arrive(toA) =>
        if toA { ArriveAtListener(s.b, s.a, s.ba, s.ab); } else { ArriveAtSpeaker(s.b, s.a, s.ba, s.ab); }
    }
  }

  /** The state after a sequence of events, up to the first that would let a retry timer run out. */
  function Run(s: Sys, events: seq<Event>): (end: Sys)
    requires s.a.turn.Valid() && s.b.turn.Valid()
    decreases |events|
  {
    if events == [] || !Timely(s, events[0]) then s else Run(Step(s, events[0]), events[1..])
  }

  function RunFromStart(policyA: Tx.RetryPolicy, policyB: Tx.RetryPolicy, capacityA: nat, capacityB: nat,
                        events: seq<Event>): Sys
  {
    Run(PowerUp(policyA, policyB, capacityA, capacityB), events)
  }

  lemma {:induction false} RunKeepsInv(s: Sys, events: seq<Event>)
    requires s.a.turn.Valid() && s.b.turn.Valid() && Inv(s)
    ensures Inv(Run(s, events))
    decreases |events|
  {
    hide Inv, Step, Timely;
    if events != [] && Timely(s, events[0]) {
      StepKeepsInv(s, events[0]);
      RunKeepsInv(Step(s, events[0]), events[1..]);
    }
  }

  lemma EveryRunKeepsInv(policyA: Tx.RetryPolicy, policyB: Tx.RetryPolicy, capacityA: nat, capacityB: nat,
                         events: seq<Event>)
    ensures Inv(RunFromStart(policyA, policyB, capacityA, capacityB, events))
  {
    hide Inv, Run;
    PowerUpIsInv(policyA, policyB, capacityA, capacityB);
    RunKeepsInv(PowerUp(policyA, policyB, capacityA, capacityB), events);
  }

  /** Every session the listener heard is a session the speaker said, whole and in order. */
  ghost predicate Hears(listener: Peer, speaker: Peer) {
    || listener.heard == speaker.said
    || (listener.heard == speaker.said + [speaker.turn.queue] && Ending(speaker))
  }

  /**
    For any queues, policies, arrival delays and any number of alternations:
    each peer has heard exactly the sessions the other said, in order and whole
    (the last one possibly before the other has learnt that it was heard), and
    what it has heard of the one in progress is a prefix of what is queued.
   */
  lemma SessionsAreHeardExactly(policyA: Tx.RetryPolicy, policyB: Tx.RetryPolicy, capacityA: nat, capacityB: nat,
                                events: seq<Event>)
    ensures
      var end := RunFromStart(policyA, policyB, capacityA, capacityB, events);
      && Hears(end.a, end.b) && Hears(end.b, end.a)
      && end.a.current <= end.b.turn.queue && end.b.current <= end.a.turn.queue
  {
    hide RunFromStart, Converse;
    EveryRunKeepsInv(policyA, policyB, capacityA, capacityB, events);
    var end := RunFromStart(policyA, policyB, capacityA, capacityB, events);
    if Converse(end.a, end.b, end.ab, end.ba) {
      HeardSoFar(end.a, end.b, end.ab, end.ba);
    } else {
      HeardSoFar(end.b, end.a, end.ba, end.ab);
    }
  }

  lemma HeardSoFar(x: Peer, y: Peer, xy: Pipe, yx: Pipe)
    requires Converse(x, y, xy, yx)
    ensures Hears(x, y) && Hears(y, x)
    ensures y.current <= x.turn.queue && x.current == []
  {
    hide Carries, Holding, ToBytes, RxOpen;
    assert x.said + [] == x.said && y.said + [] == y.said;
    assert Before(x.turn) <= |x.turn.queue|;
  }

  /** What a peer that has START, DATA or FINISH to write knows about the other. */
  ghost predicate HasTheFloor(x: Peer, y: Peer) {
    && !Tx.WillWrite(y.Tx())
    && (y.turn.speak ==> Ending(y))
  }

  /**
    Nobody is spoken over: whenever a peer has a frame of its own session to
    write, the other has none, and the other's session is over but for reading
    the acknowledgement of its FINISH.  Nor does a peer ever interleave a frame
    of its own with a reply on the one pin its two halves share.
   */
  lemma NobodyIsSpokenOver(policyA: Tx.RetryPolicy, policyB: Tx.RetryPolicy, capacityA: nat, capacityB: nat,
                           events: seq<Event>)
    ensures
      var end := RunFromStart(policyA, policyB, capacityA, capacityB, events);
      && (Tx.WillWrite(end.a.Tx()) ==> HasTheFloor(end.a, end.b))
      && (Tx.WillWrite(end.b.Tx()) ==> HasTheFloor(end.b, end.a))
      && (end.a.Tx().out.Idle() || end.a.Rx().out.Idle())
      && (end.b.Tx().out.Idle() || end.b.Rx().out.Idle())
  {
    hide RunFromStart, Carries, Holding, ToBytes, RxOpen, Listens;
    EveryRunKeepsInv(policyA, policyB, capacityA, capacityB, events);
    var end := RunFromStart(policyA, policyB, capacityA, capacityB, events);
  }
}
