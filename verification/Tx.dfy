/**
  The stop-and-wait sender: one flight (DATA, START, FINISH or ABORT) at a
  time, written one byte per poll, then acknowledged, retried or given up.
 */
module Tx {
  import opened Prelude
  import opened Wire
  import opened Framing

  datatype RetryPolicy = RetryPolicy(timeoutTicks: u16, maxRetries: count8)

  const DEFAULT_POLICY := RetryPolicy(1000, 5)

  datatype TxState = Idle | Sending | WaitingAck | Retrying | Finished | Aborted | Failed

  datatype TxPoll = Pending | Acked | SessionReady | TransferDone | Aborted

  datatype FlightKind = Data(byte: u8) | Start | Finish | Abort

  datatype Flight = Flight(kind: FlightKind, num: seqno, retriesLeft: count8, waiting: bool, emptyTicks: u16)

  /** One-shot hints for the pump's tallies. */
  datatype IoMark = IoMark(frameOnWire: bool, nack: bool, retransmit: bool)

  const NO_MARK := IoMark(false, false, false)

  /** One poll: the new state, what the caller sees, and the transport calls made. */
  datatype Polled<S> = Polled(next: S, result: Result<TxPoll>, calls: Calls)

  datatype Model = Model(
    num: seqno,
    state: TxState,
    policy: RetryPolicy,
    asm: Assembly,
    inflight: Option<Flight>,
    out: Outgoing,
    mark: IoMark)
  {
    predicate Valid() {
      asm.Valid() && out.Valid()
    }

    /**
      What holds between polls: bytes are being written only for a flight that
      is not yet waiting, and there is a flight exactly in the active states.
     */
    predicate Coherent() {
      && Valid()
      && (!out.Idle() ==> inflight.Some? && !inflight.value.waiting)
      && (inflight == None <==> Resting())
    }

    predicate Resting() {
      state == TxState.Idle || state == TxState.Finished || state == TxState.Aborted || state == TxState.Failed
    }
  }

  function Fresh(policy: RetryPolicy): Model {
    Model(0, TxState.Idle, policy, FRESH_PLAIN, None, NOTHING_OUTGOING, NO_MARK)
  }

  function FrameOf(f: Flight): Frame {
    match f.kind
    case Data(byte) => DataFrame(f.num, byte)
    case Start => StartFrame()
    case Finish => FinishFrame(f.num)
    case Abort => AbortFrame()
  }

  // ------------------------------------------------------------ offers

  function Begin(t: Model, kind: FlightKind, num: seqno): Model {
    t.(inflight := Some(Flight(kind, num, t.policy.maxRetries, false, 0)), state := TxState.Sending)
  }

  predicate CanOfferData(t: Model) {
    t.state == TxState.Idle && t.inflight == None && t.out.Idle()
  }

  function OfferStart(t: Model): (n: (Model, Result<()>))
    requires t.Coherent()
    ensures n.0.Coherent()
  {
    if !t.Resting() || !t.out.Idle() then (t, Err(NotIdle))
    else (Begin(t.(inflight := None, num := 0), FlightKind.Start, 0), Ok(()))
  }

  function Offer(t: Model, byte: u8): (n: (Model, Result<()>))
    requires t.Coherent()
    ensures n.0.Coherent()
  {
    if !CanOfferData(t) then (t, Err(NotIdle))
    else (Begin(t, FlightKind.Data(byte), t.num), Ok(()))
  }

  function OfferFinish(t: Model): (n: (Model, Result<()>))
    requires t.Coherent()
    ensures n.0.Coherent()
  {
    if !CanOfferData(t) then (t, Err(NotIdle))
    else (Begin(t, FlightKind.Finish, t.num), Ok(()))
  }

  function OfferAbort(t: Model): (n: Model)
    requires t.Coherent()
    ensures n.Coherent()
  {
    if t.state == TxState.Aborted && t.inflight == None then t
    else if t.inflight.Some? && t.inflight.value.kind.Abort? then t
    else
      Begin(t.(inflight := None, out := NOTHING_OUTGOING, asm := t.asm.(buf := []), num := 0),
            FlightKind.Abort, 0)
  }

  function ForceAbort(t: Model): (n: Model)
    requires t.Coherent()
    ensures n.Coherent()
  {
    t.(inflight := None, out := NOTHING_OUTGOING, asm := t.asm.(buf := []), state := TxState.Aborted)
  }

  predicate HoldsSessionControl(t: Model) {
    t.inflight.Some? && (t.inflight.value.kind.Abort? || t.inflight.value.kind.Start?)
  }

  // ------------------------------------------------------------ polling

  /** Whether the next poll writes: a frame is half written or not yet begun. */
  predicate WillWrite(t: Model) {
    !t.out.Idle() || (t.inflight.Some? && !t.inflight.value.waiting)
  }

  /** Whether the next poll reads: the flight is on the wire. */
  predicate WillRead(t: Model) {
    t.out.Idle() && t.inflight.Some? && t.inflight.value.waiting
  }

  /** Write one byte of the flight's frame, loading it first if need be. */
  function WriteStep(t: Model, writeOk: bool): (p: Polled<Model>)
    requires t.Coherent() && WillWrite(t)
    ensures p.next.Coherent()
  {
    var l := if t.out.Idle() then t.(out := Load(FrameOf(t.inflight.value)), state := TxState.Sending) else t;
    if !writeOk then Polled(l, Err(TransportFault), NO_CALLS)
    else
      var o := l.out.Commit();
      var n := if o.Idle() then OnWire(l.(out := o)) else l.(out := o, state := TxState.Sending);
      Polled(n, Ok(TxPoll.Pending), Calls(Some(l.out.Unsent()[0]), false))
  }

  /** The fourth byte is out: wait for the answer. */
  function OnWire(t: Model): Model
    requires t.inflight.Some?
  {
    t.(inflight := Some(t.inflight.value.(waiting := true, emptyTicks := 0)),
       asm := t.asm.(buf := []),
       state := TxState.WaitingAck,
       mark := t.mark.(frameOnWire := true))
  }

  function OnAck(t: Model): (n: (Model, Result<TxPoll>))
    requires t.Coherent() && WillRead(t)
    ensures n.0.Coherent()
  {
    var q := t.(inflight := None);
    match t.inflight.value.kind
    case Data(_) => (q.(num := Advance(t.num), state := TxState.Idle), Ok(TxPoll.Acked))
    case Start => (q.(num := 0, state := TxState.Idle), Ok(TxPoll.SessionReady))
    case Finish => (q.(state := TxState.Finished), Ok(TxPoll.TransferDone))
    case Abort => (q.(state := TxState.Aborted), Ok(TxPoll.Aborted))
  }

  function OnAttemptFailed(t: Model): (n: (Model, Result<TxPoll>))
    requires t.Coherent() && WillRead(t)
    ensures n.0.Coherent()
  {
    var f := t.inflight.value;
    if f.retriesLeft == 0 then (t.(inflight := None, state := TxState.Failed), Err(RetriesExhausted))
    else
      (t.(inflight := Some(f.(retriesLeft := f.retriesLeft - 1, waiting := false, emptyTicks := 0)),
          state := TxState.Retrying,
          mark := t.mark.(retransmit := true)),
       Ok(TxPoll.Pending))
  }

  /** A complete, valid frame read while waiting. */
  function OnControl(t: Model, f: Frame): (n: (Model, Result<TxPoll>))
    requires t.Coherent() && WillRead(t)
    ensures n.0.Coherent()
  {
    var flight := t.inflight.value;
    match f.kind
    case Abort => (ForceAbort(t), Ok(TxPoll.Aborted))
    case Ack =>
      if f.num == flight.num then OnAck(t)
      else (t.(inflight := Some(flight.(emptyTicks := 0))), Ok(TxPoll.Pending))
    case Nack =>
      if f.num == flight.num then OnAttemptFailed(t.(mark := t.mark.(nack := true)))
      else (t.(inflight := Some(flight.(emptyTicks := 0))), Ok(TxPoll.Pending))
    case Data => (t, Ok(TxPoll.Pending))
    case Start => (t, Ok(TxPoll.Pending))
    case Finish => (t, Ok(TxPoll.Pending))
  }

  /** The transport was silent: count it, and retry or give up when the count is reached. */
  function Tick(t: Model): (n: (Model, Result<TxPoll>))
    requires t.Coherent() && WillRead(t)
    ensures n.0.Coherent()
  {
    var f := t.inflight.value.(emptyTicks := SaturatingIncrement(t.inflight.value.emptyTicks, U16_MAX));
    var q := t.(inflight := Some(f));
    if f.emptyTicks >= t.policy.timeoutTicks then OnAttemptFailed(q) else (q, Ok(TxPoll.Pending))
  }

  /** What a read answer does to a waiting sender. */
  function ReadStep(t: Model, read: ReadAnswer): (n: (Model, Result<TxPoll>))
    requires t.Coherent() && WillRead(t)
    ensures n.0.Coherent()
  {
    match read
    case ReadFault => (t, Err(TransportFault))
    case NoByte => Tick(t)
    case GotByte(byte) =>
      var (asm, word) := Push(t.asm, byte);
      var q := t.(asm := asm);
      match word
      case None => (q, Ok(TxPoll.Pending))
      case Some(w) =>
        match FromBytes(w)
        case Bad(_) => (q, Ok(TxPoll.Pending))
        case Good(f) => OnControl(q, f)
  }

  /** One poll: a byte written while the frame of the flight is not out, a byte read while it is. */
  function Poll(t: Model, io: Io): (p: Polled<Model>)
    requires t.Coherent()
    ensures p.next.Coherent()
  {
    var t0 := t.(mark := NO_MARK);
    if t.state == TxState.Failed then Polled(t0, Err(RetriesExhausted), NO_CALLS)
    else if t.state == TxState.Aborted then Polled(t0, Ok(TxPoll.Aborted), NO_CALLS)
    else if t.state == TxState.Finished then Polled(t0, Ok(TxPoll.TransferDone), NO_CALLS)
    else if WillWrite(t0) then WriteStep(t0, io.writeOk)
    else if t0.inflight == None then Polled(t0, Ok(TxPoll.Pending), NO_CALLS)
    else
      var (n, result) := ReadStep(t0, io.read);
      Polled(n, result, Calls(None, true))
  }

  // ------------------------------------------------------------ the object

  class Sender {
    var num: seqno
    var state: TxState
    const policy: RetryPolicy
    const assembler: FrameAssembler
    var inflight: Option<Flight>
    const out: OutBuf
    var mark: IoMark
    ghost const Repr: set<object>

    ghost predicate Valid()
      reads this, Repr
    {
      && Repr == {this} + assembler.Repr + out.Repr
      && assembler in Repr && out in Repr
      && this !in assembler.Repr && this !in out.Repr
      && assembler.Repr !! out.Repr
      && assembler.Valid()
      && out.Valid()
    }

    ghost function View(): (m: Model)
      requires Valid()
      reads this, Repr
      ensures m.Valid()
    {
      Model(num, state, policy, assembler.View(), inflight, out.View(), mark)
    }

    constructor (policy: RetryPolicy)
      ensures Valid() && fresh(Repr)
      ensures View() == Fresh(policy) && View().Coherent()
    {
      var a := new FrameAssembler(false);
      var o := new OutBuf();
      num, state, inflight, mark := 0, TxState.Idle, None, NO_MARK;
      this.policy := policy;
      assembler, out := a, o;
      Repr := {this} + a.Repr + o.Repr;
    }

    /** `Sender::state`. */
    function State(): TxState
      requires Valid()
      reads this, Repr
    {
      state
    }

    lemma StateIsView()
      requires Valid()
      ensures View().state == State()
    {
    }

    method BeginFlight(kind: FlightKind, seqNum: seqno)
      requires Valid()
      modifies this
      ensures Valid() && View() == Begin(old(View()), kind, seqNum)
    {
      inflight := Some(Flight(kind, seqNum, policy.maxRetries, false, 0));
      state := TxState.Sending;
    }

    /** Opens a session. Refused while a flight is active. */
    method TryOfferStart() returns (result: Result<()>)
      requires Valid() && View().Coherent()
      modifies this
      ensures Valid() && (View(), result) == OfferStart(old(View()))
    {
      match state {
        case Idle =>
        case Finished =>
        case Aborted =>
        case Failed =>
        case _ => return Err(NotIdle);
      }
      if !out.IsIdle() {
        return Err(NotIdle);
      }
      inflight := None;
      num := 0;
      BeginFlight(FlightKind.Start, 0);
      return Ok(());
    }

    method TryOffer(byte: u8) returns (result: Result<()>)
      requires Valid() && View().Coherent()
      modifies this
      ensures Valid() && (View(), result) == Offer(old(View()), byte)
    {
      if !(state == TxState.Idle && inflight == None && out.IsIdle()) {
        return Err(NotIdle);
      }
      BeginFlight(FlightKind.Data(byte), num);
      return Ok(());
    }

    method TryOfferFinish() returns (result: Result<()>)
      requires Valid() && View().Coherent()
      modifies this
      ensures Valid() && (View(), result) == OfferFinish(old(View()))
    {
      if !(state == TxState.Idle && inflight == None && out.IsIdle()) {
        return Err(NotIdle);
      }
      BeginFlight(FlightKind.Finish, num);
      return Ok(());
    }

    /** Cancels the session: drops any flight, even half written, and sends ABORT. */
    method TryOfferAbort()
      requires Valid() && View().Coherent()
      modifies Repr
      ensures Valid() && View() == OfferAbort(old(View()))
    {
      if state == TxState.Aborted && inflight == None {
        return;
      }
      if inflight.Some? && inflight.value.kind.Abort? {
        return;
      }
      inflight := None;
      out.Clear();
      assembler.Reset();
      num := 0;
      BeginFlight(FlightKind.Abort, 0);
    }

    /** Local cancel without writing ABORT. */
    method CancelLocally()
      requires Valid() && View().Coherent()
      modifies Repr
      ensures Valid() && View() == ForceAbort(old(View()))
    {
      inflight := None;
      out.Clear();
      assembler.Reset();
      state := TxState.Aborted;
    }

    /** Write the next byte of the buffer, if any: whether all of it is out now. */
    method PumpOut(writeOk: bool) returns (result: Result<bool>, wrote: Option<u8>)
      requires Valid()
      modifies out
      ensures Valid()
      ensures old(View()).out.Idle() ==> View() == old(View()) && result == Ok(true) && wrote == None
      ensures !old(View()).out.Idle() && !writeOk ==>
        View() == old(View()) && result == Err(TransportFault) && wrote == None
      ensures !old(View()).out.Idle() && writeOk ==>
        var o := old(View()).out;
        && View() == old(View()).(out := o.Commit())
        && result == Ok(o.Commit().Idle())
        && wrote == Some(o.Unsent()[0])
    {
      var byte := out.Peek();
      if byte == None {
        return Ok(true), None;
      }
      if !writeOk {
        return Err(TransportFault), None;
      }
      out.Commit();
      return Ok(out.IsIdle()), byte;
    }

    method FrameOnWire()
      requires Valid() && inflight.Some?
      modifies this, assembler
      ensures Valid() && View() == OnWire(old(View()))
    {
      inflight := Some(inflight.value.(waiting := true, emptyTicks := 0));
      assembler.Reset();
      state := TxState.WaitingAck;
      mark := mark.(frameOnWire := true);
    }

    method AttemptFailed() returns (result: Result<TxPoll>)
      requires Valid() && View().Coherent() && WillRead(View())
      modifies this
      ensures Valid() && (View(), result) == OnAttemptFailed(old(View()))
    {
      var flight := inflight.value;
      if flight.retriesLeft == 0 {
        inflight := None;
        state := TxState.Failed;
        return Err(RetriesExhausted);
      }
      inflight := Some(flight.(retriesLeft := flight.retriesLeft - 1, waiting := false, emptyTicks := 0));
      state := TxState.Retrying;
      mark := mark.(retransmit := true);
      return Ok(TxPoll.Pending);
    }

    method Acknowledged() returns (result: Result<TxPoll>)
      requires Valid() && View().Coherent() && WillRead(View())
      modifies this
      ensures Valid() && (View(), result) == OnAck(old(View()))
    {
      var kind := inflight.value.kind;
      inflight := None;
      match kind {
        case Data(_) =>
          num := Advance(num);
          state := TxState.Idle;
          result := Ok(TxPoll.Acked);
        case Start =>
          num := 0;
          state := TxState.Idle;
          result := Ok(TxPoll.SessionReady);
        case Finish =>
          state := TxState.Finished;
          result := Ok(TxPoll.TransferDone);
        case Abort =>
          state := TxState.Aborted;
          result := Ok(TxPoll.Aborted);
      }
    }

    method Control(f: Frame) returns (result: Result<TxPoll>)
      requires Valid() && View().Coherent() && WillRead(View())
      modifies Repr
      ensures Valid() && (View(), result) == OnControl(old(View()), f)
    {
      var current := inflight.value.num;
      match f.kind {
        case Abort =>
          CancelLocally();
          result := Ok(TxPoll.Aborted);
        case Ack =>
          if f.num == current {
            result := Acknowledged();
          } else {
            inflight := Some(inflight.value.(emptyTicks := 0));
            result := Ok(TxPoll.Pending);
          }
        case Nack =>
          if f.num == current {
            mark := mark.(nack := true);
            result := AttemptFailed();
          } else {
            inflight := Some(inflight.value.(emptyTicks := 0));
            result := Ok(TxPoll.Pending);
          }
        case _ =>
          result := Ok(TxPoll.Pending);
      }
    }

    /** The write half of a poll. */
    method WriteOne(writeOk: bool) returns (result: Result<TxPoll>, calls: Calls)
      requires Valid() && View().Coherent() && WillWrite(View())
      modifies Repr
      ensures Valid()
      ensures Polled(View(), result, calls) == WriteStep(old(View()), writeOk)
    {
      hide ToBytes, FromBytes;
      if out.IsIdle() {
        out.LoadFrame(FrameOf(inflight.value));
        state := TxState.Sending;
      }
      var done, wrote := PumpOut(writeOk);
      if done.Err? {
        return Err(done.error), NO_CALLS;
      }
      if done.value {
        FrameOnWire();
      } else {
        state := TxState.Sending;
      }
      return Ok(TxPoll.Pending), Calls(wrote, false);
    }

    /** The read half of a poll. */
    method ReadOne(read: ReadAnswer) returns (result: Result<TxPoll>)
      requires Valid() && View().Coherent() && WillRead(View())
      modifies Repr
      ensures Valid() && (View(), result) == ReadStep(old(View()), read)
    {
      hide FromBytes, Push;
      match read {
        case ReadFault =>
          return Err(TransportFault);
        case NoByte =>
          var flight := inflight.value;
          flight := flight.(emptyTicks := SaturatingIncrement(flight.emptyTicks, U16_MAX));
          inflight := Some(flight);
          if flight.emptyTicks >= policy.timeoutTicks {
            result := AttemptFailed();
          } else {
            result := Ok(TxPoll.Pending);
          }
        case GotByte(byte) =>
          var decoded := assembler.Accept(byte);
          if decoded == None || decoded.value.Bad? {
            return Ok(TxPoll.Pending);
          }
          result := Control(decoded.value.frame);
      }
    }

    /** The poll of `Poll`, on the fields of this object. */
    method PollOnce(io: Io) returns (result: Result<TxPoll>, calls: Calls)
      requires Valid() && View().Coherent()
      modifies Repr
      ensures Valid() && View().Coherent()
      ensures Polled(View(), result, calls) == Poll(old(View()), io)
    {
      hide WriteStep, ReadStep;
      mark := NO_MARK;
      if state == TxState.Failed {
        return Err(RetriesExhausted), NO_CALLS;
      }
      if state == TxState.Aborted && inflight == None {
        return Ok(TxPoll.Aborted), NO_CALLS;
      }
      if state == TxState.Finished && inflight == None {
        return Ok(TxPoll.TransferDone), NO_CALLS;
      }
      if !out.IsIdle() || (inflight.Some? && !inflight.value.waiting) {
        result, calls := WriteOne(io.writeOk);
        return;
      }
      if inflight == None {
        return Ok(TxPoll.Pending), NO_CALLS;
      }
      result := ReadOne(io.read);
      calls := Calls(None, true);
    }
  }
}
