/**
  The stop-and-wait receiver.  `Poll` is the step as a function of the
  receiver's state and of what the transport answers; class `Receiver` is the
  object that takes that step in place.
 */
module Rx {
  import opened Prelude
  import opened Wire
  import opened Framing

  datatype RxState = Idle | Receiving | Validating | Acknowledging | Finished | Aborted

  /** What the application learns from one poll. Only `Delivered` carries data. */
  datatype PollOutcome =
    | Pending
    | Delivered(byte: u8)
    | DuplicateIgnored
    | Started
    | TransferFinished
    | Rejected
    | CrcRejected
    | Aborted

  /** What happens once the reply is completely on the wire. */
  datatype PendingAction =
    | Deliver(byte: u8)
    | Duplicate
    | Started
    | Finished
    | Aborted
    | Rejected
    | CrcRejected

  /** One poll: the new state, what the caller sees, and the transport calls made. */
  datatype Polled<S> = Polled(next: S, result: Result<PollOutcome>, calls: Calls)

  datatype Model = Model(
    expected: seqno,
    state: RxState,
    asm: Assembly,
    out: Outgoing,
    pending: Option<PendingAction>,
    finishSeq: Option<seqno>,
    abortLatched: bool)
  {
    predicate Valid() {
      asm.Valid() && out.Valid()
    }

    /** Between polls an action is pending exactly while a reply is being written. */
    predicate Coherent() {
      Valid() && (pending == None <==> out.Idle())
    }

    predicate Closed() {
      abortLatched || finishSeq.Some?
    }
  }

  const FRESH := Model(0, RxState.Idle, FRESH_PLAIN, NOTHING_OUTGOING, None, None, false)

  function SettleIdle(r: Model): Model {
    r.(state := if r.abortLatched then RxState.Aborted
                else if r.finishSeq.Some? then RxState.Finished
                else RxState.Idle)
  }

  function BeginReply(r: Model, f: Frame, action: PendingAction): (n: Model)
    requires r.Valid()
    ensures n.Coherent()
  {
    r.(out := Load(f), pending := Some(action), state := RxState.Acknowledging)
  }

  /** The reply is out: perform the action it was waiting for. */
  function TakePending(r: Model): (n: (Model, Option<PollOutcome>))
    requires r.Valid() && r.out.Idle()
    ensures n.0.Coherent()
  {
    var q := r.(pending := None);
    match r.pending
    case None => (r, None)
    case Some(Deliver(byte)) =>
      (q.(expected := Advance(q.expected), state := RxState.Idle), Some(PollOutcome.Delivered(byte)))
    case Some(Duplicate) => (SettleIdle(q), Some(PollOutcome.DuplicateIgnored))
    case Some(Started) => (q.(finishSeq := None, state := RxState.Idle), Some(PollOutcome.Started))
    case Some(Finished) => (q.(state := RxState.Finished), Some(PollOutcome.TransferFinished))
    case Some(Aborted) => (q.(state := RxState.Aborted), Some(PollOutcome.Aborted))
    case Some(Rejected) => (SettleIdle(q), Some(PollOutcome.Rejected))
    case Some(CrcRejected) => (SettleIdle(q), Some(PollOutcome.CrcRejected))
  }

  /** One byte of a reply goes out; with its last byte the pending action is performed. */
  function PumpReply(r: Model, writeOk: bool, didRead: bool): (p: Polled<Model>)
    requires r.Coherent()
    ensures p.next.Coherent()
  {
    if r.out.Idle() then
      var (n, outcome) := TakePending(r);
      Polled(n, Ok(OrPending(outcome)), Calls(None, didRead))
    else if !writeOk then
      Polled(r, Err(TransportFault), Calls(None, didRead))
    else
      var byte := r.out.Unsent()[0];
      var q := r.(out := r.out.Commit());
      if q.out.Idle() then
        var (n, outcome) := TakePending(q);
        Polled(n, Ok(OrPending(outcome)), Calls(Some(byte), didRead))
      else
        Polled(q.(state := RxState.Acknowledging), Ok(PollOutcome.Pending), Calls(Some(byte), didRead))
  }

  function OrPending(outcome: Option<PollOutcome>): PollOutcome {
    match outcome
    case None => PollOutcome.Pending
    case Some(o) => o
  }

  function HandleStart(r: Model): (n: Model)
    requires r.Coherent()
    ensures n.Coherent()
  {
    BeginReply(r.(expected := 0, finishSeq := None, abortLatched := false), AckFrame(0), PendingAction.Started)
  }

  function HandleAbort(r: Model): (n: Model)
    requires r.Coherent()
    ensures n.Coherent()
  {
    if r.finishSeq.Some? then r.(state := RxState.Finished)
    else BeginReply(r.(abortLatched := true, expected := 0), AckFrame(0), PendingAction.Aborted)
  }

  function HandleFinish(r: Model, num: seqno): (n: Model)
    requires r.Coherent()
    ensures n.Coherent()
  {
    if r.abortLatched then r.(state := RxState.Aborted)
    else if r.finishSeq.Some? then
      if num == r.finishSeq.value then BeginReply(r, AckFrame(num), PendingAction.Finished)
      else r.(state := RxState.Finished)
    else if num != r.expected then BeginReply(r, NackFrame(num), PendingAction.Rejected)
    else BeginReply(r.(finishSeq := Some(num)), AckFrame(num), PendingAction.Finished)
  }

  function HandleData(r: Model, f: Frame): (n: Model)
    requires r.Coherent()
    ensures n.Coherent()
  {
    if r.abortLatched then r.(state := RxState.Aborted)
    else if r.finishSeq.Some? then r.(state := RxState.Finished)
    else if f.num == r.expected then BeginReply(r, AckFrame(r.expected), PendingAction.Deliver(f.data))
    else if f.num == Previous(r.expected) then BeginReply(r, AckFrame(f.num), PendingAction.Duplicate)
    else BeginReply(r, NackFrame(f.num), PendingAction.Rejected)
  }

  /** What a complete candidate frame does, before any reply byte is written. */
  function Handle(r: Model, d: Decoded): (n: Model)
    requires r.Coherent()
    ensures n.Coherent()
  {
    match d
    case Bad(error) =>
      if r.Closed() then SettleIdle(r)
      else BeginReply(r, NackFrame(r.expected),
                      if error.CrcMismatch? then PendingAction.CrcRejected else PendingAction.Rejected)
    case Good(f) =>
      match f.kind
      case Data => HandleData(r, f)
      case Start => HandleStart(r)
      case Finish => HandleFinish(r, f.num)
      case Abort => HandleAbort(r)
      case Ack => SettleIdle(r)
      case Nack => SettleIdle(r)
  }

  /** Whether the next poll reads from the transport before anything else. */
  predicate WillRead(r: Model) {
    r.out.Idle()
  }

  /** One poll: writes a reply byte, or reads a byte and perhaps starts the reply. */
  function Poll(r: Model, io: Io): (p: Polled<Model>)
    requires r.Coherent()
    ensures p.next.Coherent()
  {
    if !r.out.Idle() then PumpReply(r, io.writeOk, false)
    else
      var q := r.(state := RxState.Receiving);
      match io.read
      case ReadFault => Polled(q, Err(TransportFault), Calls(None, true))
      case NoByte => Polled(SettleIdle(q), Ok(PollOutcome.Pending), Calls(None, true))
      case GotByte(byte) =>
        var (asm, word) := Push(q.asm, byte);
        match word
        case None => Polled(q.(asm := asm), Ok(PollOutcome.Pending), Calls(None, true))
        case Some(w) => OnWord(q.(asm := asm), FromBytes(w), io.writeOk)
  }

  /** The fourth byte arrived: handle the candidate and write the first reply byte. */
  function OnWord(r: Model, d: Decoded, writeOk: bool): (p: Polled<Model>)
    requires r.Coherent()
    ensures p.next.Coherent()
  {
    PumpReply(Handle(r.(state := RxState.Validating), d), writeOk, true)
  }

  lemma RepliesStartWhole(r: Model, d: Decoded)
    requires r.Coherent() && r.out.Idle()
    ensures Handle(r, d).out.Idle() || Handle(r, d).out.pos == 0
  {
    hide ToBytes;
  }

  lemma NothingPending(r: Model)
    requires r.Coherent() && r.out.Idle()
    ensures TakePending(r) == (r, None)
  {
  }

  /** The fourth byte of a word: the receiver handles the word and may write one reply byte. */
  lemma WordPoll(r: Model, io: Io, word: Word)
    requires r.Coherent() && r.out.Idle()
    requires io.read.GotByte? && Push(r.asm, io.read.byte).1 == Some(word)
    ensures
      var h := Handle(r.(asm := Push(r.asm, io.read.byte).0, state := RxState.Validating), FromBytes(word));
      var p := Poll(r, io);
      && p.next == h.(out := p.next.out, state := p.next.state)
      && p.next.out.bytes == h.out.bytes
      && p.calls.didRead
      && !(p.calls.wrote.Some? && p.next.out.Idle())
      && !(p.result.Ok? && p.result.value.Delivered?)
      && (h.out.Idle() <==> p.next.out.Idle())
      && (!h.out.Idle() && io.writeOk ==>
            && p.result == Ok(PollOutcome.Pending)
            && p.next.out == h.out.Commit() && p.calls.wrote == Some(h.out.Unsent()[0]))
  {
    hide FromBytes, Push, Handle, TakePending;
    var q := r.(asm := Push(r.asm, io.read.byte).0, state := RxState.Validating);
    RepliesStartWhole(q, FromBytes(word));
    if Handle(q, FromBytes(word)).out.Idle() {
      NothingPending(Handle(q, FromBytes(word)));
    }
  }

  lemma HandlingKeepsAssembler(r: Model, d: Decoded)
    requires r.Coherent()
    ensures Handle(r, d).asm == r.asm
  {
    hide ToBytes;
  }

  // ------------------------------------------------------------ the object

  class Receiver {
    var expectedSeq: seqno
    var state: RxState
    const assembler: FrameAssembler
    const out: OutBuf
    var pending: Option<PendingAction>
    var finishSeq: Option<seqno>
    var abortLatched: bool
    ghost const Repr: set<object>

    ghost predicate Valid()
      reads this, Repr
    {
      && Repr == {this} + assembler.Repr + out.Repr
      && assembler in Repr && out in Repr
      && this !in assembler.Repr && this !in out.Repr
      && assembler.Repr !! out.Repr
      && assembler.Valid()
      && out.Valid()
    }

    ghost function View(): (m: Model)
      requires Valid()
      reads this, Repr
      ensures m.Valid()
    {
      Model(expectedSeq, state, assembler.View(), out.View(), pending, finishSeq, abortLatched)
    }

    constructor ()
      ensures Valid() && fresh(Repr)
      ensures View() == FRESH && View().Coherent()
    {
      var a := new FrameAssembler(false);
      var o := new OutBuf();
      expectedSeq, state, pending, finishSeq, abortLatched := 0, RxState.Idle, None, None, false;
      assembler, out := a, o;
      Repr := {this} + a.Repr + o.Repr;
    }

    method Settle()
      requires Valid()
      modifies this
      ensures Valid() && View() == SettleIdle(old(View()))
    {
      if abortLatched {
        state := RxState.Aborted;
      } else if finishSeq.Some? {
        state := RxState.Finished;
      } else {
        state := RxState.Idle;
      }
    }

    method Reply(f: Frame, action: PendingAction)
      requires Valid()
      modifies Repr
      ensures Valid() && View() == BeginReply(old(View()), f, action)
    {
      out.LoadFrame(f);
      pending := Some(action);
      state := RxState.Acknowledging;
    }

    method PerformPending() returns (outcome: Option<PollOutcome>)
      requires Valid() && View().out.Idle()
      modifies this
      ensures Valid() && (View(), outcome) == TakePending(old(View()))
    {
      if pending == None {
        return None;
      }
      var action := pending.value;
      pending := None;
      match action {
        case Deliver(byte) =>
          expectedSeq := Advance(expectedSeq);
          state := RxState.Idle;
          outcome := Some(PollOutcome.Delivered(byte));
        case Duplicate =>
          Settle();
          outcome := Some(PollOutcome.DuplicateIgnored);
        case Started =>
          finishSeq := None;
          state := RxState.Idle;
          outcome := Some(PollOutcome.Started);
        case Finished =>
          state := RxState.Finished;
          outcome := Some(PollOutcome.TransferFinished);
        case Aborted =>
          state := RxState.Aborted;
          outcome := Some(PollOutcome.Aborted);
        case Rejected =>
          Settle();
          outcome := Some(PollOutcome.Rejected);
        case CrcRejected =>
          Settle();
          outcome := Some(PollOutcome.CrcRejected);
      }
    }

    method Pump(writeOk: bool, ghost didRead: bool)
      returns (result: Result<Option<PollOutcome>>, wrote: Option<u8>)
      requires Valid() && View().Coherent()
      modifies Repr
      ensures Valid()
      ensures
        var p := PumpReply(old(View()), writeOk, didRead);
        && View() == p.next
        && wrote == p.calls.wrote
        && p.result == (match result case Err(e) => Err(e) case Ok(o) => Ok(OrPending(o)))
    {
      var byte := out.Peek();
      if byte == None {
        var outcome := PerformPending();
        return Ok(outcome), None;
      }
      if !writeOk {
        return Err(TransportFault), None;
      }
      out.Commit();
      if out.IsIdle() {
        var outcome := PerformPending();
        result := Ok(outcome);
      } else {
        state := RxState.Acknowledging;
        result := Ok(None);
      }
      wrote := byte;
    }

    method OnStart()
      requires Valid() && View().Coherent()
      modifies Repr
      ensures Valid() && View() == HandleStart(old(View()))
    {
      expectedSeq := 0;
      finishSeq := None;
      abortLatched := false;
      Reply(AckFrame(0), PendingAction.Started);
    }

    method OnAbort()
      requires Valid() && View().Coherent()
      modifies Repr
      ensures Valid() && View() == HandleAbort(old(View()))
    {
      if finishSeq.Some? {
        state := RxState.Finished;
        return;
      }
      abortLatched := true;
      expectedSeq := 0;
      Reply(AckFrame(0), PendingAction.Aborted);
    }

    method OnFinish(num: seqno)
      requires Valid() && View().Coherent()
      modifies Repr
      ensures Valid() && View() == HandleFinish(old(View()), num)
    {
      if abortLatched {
        state := RxState.Aborted;
        return;
      }
      if finishSeq.Some? {
        if num == finishSeq.value {
          Reply(AckFrame(num), PendingAction.Finished);
        } else {
          state := RxState.Finished;
        }
        return;
      }
      if num != expectedSeq {
        Reply(NackFrame(num), PendingAction.Rejected);
        return;
      }
      finishSeq := Some(num);
      Reply(AckFrame(num), PendingAction.Finished);
    }

    method OnData(f: Frame)
      requires Valid() && View().Coherent()
      modifies Repr
      ensures Valid() && View() == HandleData(old(View()), f)
    {
      if abortLatched {
        state := RxState.Aborted;
        return;
      }
      if finishSeq.Some? {
        state := RxState.Finished;
        return;
      }
      var expected := expectedSeq;
      if f.num == expected {
        Reply(AckFrame(expected), PendingAction.Deliver(f.data));
        return;
      }
      if f.num == Previous(expectedSeq) {
        Reply(AckFrame(f.num), PendingAction.Duplicate);
        return;
      }
      Reply(NackFrame(f.num), PendingAction.Rejected);
    }

    /** The match on a candidate frame. `quiet` is the early return that skips the reply. */
    method Dispatch(d: Decoded) returns (quiet: bool)
      requires Valid() && View().Coherent() && out.IsIdle()
      modifies Repr
      ensures Valid() && View() == Handle(old(View()), d)
      ensures quiet ==> View().out.Idle()
    {
      match d {
        case Bad(error) =>
          if abortLatched || finishSeq.Some? {
            Settle();
            return true;
          }
          var action := if error.CrcMismatch? then PendingAction.CrcRejected else PendingAction.Rejected;
          Reply(NackFrame(expectedSeq), action);
        case Good(f) =>
          match f.kind {
            case Data => OnData(f);
            case Start => OnStart();
            case Finish => OnFinish(f.num);
            case Abort => OnAbort();
            case Ack => Settle(); return true;
            case Nack => Settle(); return true;
          }
      }
      return false;
    }

    /** The poll of `Poll`, on the fields of this object. */
    method PollOnce(io: Io) returns (result: Result<PollOutcome>, calls: Calls)
      requires Valid() && View().Coherent()
      modifies Repr
      ensures Valid() && View().Coherent()
      ensures Polled(View(), result, calls) == Poll(old(View()), io)
    {
      hide FromBytes, ToBytes, Push, Handle;
      if !out.IsIdle() {
        var pumped, wrote := Pump(io.writeOk, false);
        return Flat(pumped), Calls(wrote, false);
      }
      state := RxState.Receiving;
      match io.read {
        case ReadFault =>
          return Err(TransportFault), Calls(None, true);
        case NoByte =>
          Settle();
          return Ok(PollOutcome.Pending), Calls(None, true);
        case GotByte(byte) =>
          var decoded := assembler.Accept(byte);
          if decoded == None {
            return Ok(PollOutcome.Pending), Calls(None, true);
          }
          state := RxState.Validating;
          var quiet := Dispatch(decoded.value);
          if quiet {
            return Ok(PollOutcome.Pending), Calls(None, true);
          }
          var pumped, wrote := Pump(io.writeOk, true);
          return Flat(pumped), Calls(wrote, true);
      }
    }

    static function Flat(r: Result<Option<PollOutcome>>): Result<PollOutcome> {
      match r
      case Err(e) => Err(e)
      case Ok(o) => Ok(OrPending(o))
    }
  }
}
