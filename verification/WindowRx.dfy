/**
  The selective-repeat receiver: a reorder buffer of at most `N <= 8` payload
  bytes, an emit queue for the bytes a gap was holding back, and a window of
  past SEQ values that are acknowledged again without being delivered again.
 */
module WindowRx {
  import opened Prelude
  import opened Wire
  import opened Framing
  import Rx

  const MAX_WINDOW := 8

  type RxState = Rx.RxState
  type PollOutcome = Rx.PollOutcome
  type Polled = Rx.Polled<Model>

  datatype PendingAction = Drain | Duplicate | Quiet | Started | Finished | Aborted | Rejected | CrcRejected

  /** `emit` is the filled part of the emit array; `emitAt` is the next byte to hand out. */
  datatype Model = Model(
    expected: seqno,
    buf: seq<Option<u8>>,
    emit: seq<u8>,
    emitAt: nat,
    limit: nat,
    state: RxState,
    asm: Assembly,
    out: Outgoing,
    pending: Option<PendingAction>,
    finishSeq: Option<seqno>,
    abortLatched: bool)
  {
    predicate Valid() {
      && asm.Valid()
      && out.Valid()
      && 1 <= limit <= |buf| <= MAX_WINDOW
      && |emit| <= |buf|
      && emitAt <= |emit|
      && (emitAt == |emit| ==> emit == [])
    }

    /**
      What holds between polls: an action is pending exactly while a reply is
      being written, nothing waits in the emit queue meanwhile, the head of the
      reorder buffer is filled exactly while its drain is pending, and nothing
      is stored beyond the window.
     */
    predicate Coherent() {
      && Valid()
      && (pending == None <==> out.Idle())
      && (pending.Some? ==> emit == [])
      && (buf[0].Some? <==> pending == Some(PendingAction.Drain))
      && Blank(buf, if Closed() then 0 else limit)
    }

    predicate Closed() {
      abortLatched || finishSeq.Some?
    }

    /** Bytes already in order that the application has not been given yet. */
    function Queue(): seq<u8>
      requires emitAt <= |emit|
    {
      emit[emitAt..]
    }
  }

  /** Nothing is stored in the slots from `first` on. */
  predicate Blank(buf: seq<Option<u8>>, first: nat) {
    forall k :: first <= k < |buf| ==> buf[k] == None
  }

  function EmptyBuf(n: nat): (b: seq<Option<u8>>)
    ensures |b| == n && forall k :: 0 <= k < n ==> b[k] == None
  {
    seq(n, _ => None)
  }

  function Fresh(n: nat): (m: Model)
    requires 1 <= n <= MAX_WINDOW
    ensures m.Coherent()
  {
    Model(0, EmptyBuf(n), [], 0, n, Rx.RxState.Idle, FRESH_PLAIN, NOTHING_OUTGOING, None, None, false)
  }

  function SettleIdle(r: Model): Model {
    r.(state := if r.abortLatched then Rx.RxState.Aborted
                else if r.finishSeq.Some? then Rx.RxState.Finished
                else Rx.RxState.Idle)
  }

  function ClearWindow(r: Model): Model {
    r.(buf := EmptyBuf(|r.buf|), emit := [], emitAt := 0)
  }

  /** How far into the accept window `num` lies, if it lies in it. */
  function Offset(r: Model, num: seqno): (off: Option<nat>)
    ensures off.Some? ==> off.value < r.limit
  {
    var delta := WrapSub(num, r.expected);
    if delta < r.limit then Some(delta) else None
  }

  predicate IsDuplicate(r: Model, num: seqno) {
    1 <= WrapSub(r.expected, num) <= r.limit
  }

  // ------------------------------------------------------------ draining

  /** Length of the gap-free run at the head of the reorder buffer. */
  function Run(buf: seq<Option<u8>>): (k: nat)
    ensures k <= |buf|
    ensures forall i :: 0 <= i < k ==> buf[i].Some?
    ensures k < |buf| ==> buf[k] == None
  {
    if buf == [] || buf[0] == None then 0 else 1 + Run(buf[1..])
  }

  /** The payloads of the first `k` slots, all filled. */
  function Payloads(buf: seq<Option<u8>>, k: nat): (s: seq<u8>)
    requires k <= |buf| && forall i :: 0 <= i < k ==> buf[i].Some?
    ensures |s| == k
  {
    seq(k, i requires 0 <= i < k => buf[i].value)
  }

  /** `k` shifts towards slot 0. */
  function Shifted(buf: seq<Option<u8>>, k: nat): (s: seq<Option<u8>>)
    requires k <= |buf|
    ensures |s| == |buf|
  {
    buf[k..] + EmptyBuf(k)
  }

  /** `push_emit` of each byte: a byte that finds the array full is dropped. */
  function PushEmit(emit: seq<u8>, bytes: seq<u8>, capacity: nat): seq<u8>
    requires |emit| <= capacity
  {
    var all := emit + bytes;
    if |all| <= capacity then all else all[..capacity]
  }

  /** Move the gap-free run out of the reorder buffer and into the emit queue. */
  function DrainInOrder(r: Model): (n: Model)
    requires r.Valid()
    ensures n.Valid()
  {
    DrainSome(r, Run(r.buf))
  }

  /** The first `k` bytes of the run moved. */
  function DrainSome(r: Model, k: nat): (n: Model)
    requires r.Valid() && k <= Run(r.buf)
    ensures n.Valid()
  {
    r.(buf := Shifted(r.buf, k),
       expected := (r.expected + k) % 256,
       emit := PushEmit(r.emit, Payloads(r.buf, k), |r.buf|))
  }

  function PopEmit(r: Model): (n: (Model, Option<u8>))
    requires r.Valid()
    ensures n.0.Valid()
    ensures n.1 == None <==> r.Queue() == []
    ensures n.1.Some? ==> r.Queue() == [n.1.value] + n.0.Queue()
  {
    if r.emitAt >= |r.emit| then (r.(emit := [], emitAt := 0), None)
    else if r.emitAt + 1 >= |r.emit| then (r.(emit := [], emitAt := 0), Some(r.emit[r.emitAt]))
    else (r.(emitAt := r.emitAt + 1), Some(r.emit[r.emitAt]))
  }

  // ------------------------------------------------------------ replies

  function BeginReply(r: Model, f: Frame, action: PendingAction): Model {
    r.(out := Load(f), pending := Some(action), state := Rx.RxState.Acknowledging)
  }

  /** The reply is out: perform the action it was waiting for. */
  function TakePending(r: Model): (n: (Model, Option<PollOutcome>))
    requires r.Valid()
  {
    var q := r.(pending := None);
    match r.pending
    case None => (r, None)
    case Some(Drain) =>
      var (e, byte) := PopEmit(DrainInOrder(q).(state := Rx.RxState.Idle));
      (e, if byte == None then None else Some(Rx.PollOutcome.Delivered(byte.value)))
    case Some(Duplicate) => (SettleIdle(q), Some(Rx.PollOutcome.DuplicateIgnored))
    case Some(Quiet) => (SettleIdle(q), Some(Rx.PollOutcome.Pending))
    case Some(Started) =>
      (q.(finishSeq := None, abortLatched := false, state := Rx.RxState.Idle), Some(Rx.PollOutcome.Started))
    case Some(Finished) => (q.(state := Rx.RxState.Finished), Some(Rx.PollOutcome.TransferFinished))
    case Some(Aborted) => (q.(state := Rx.RxState.Aborted), Some(Rx.PollOutcome.Aborted))
    case Some(Rejected) => (SettleIdle(q), Some(Rx.PollOutcome.Rejected))
    case Some(CrcRejected) => (SettleIdle(q), Some(Rx.PollOutcome.CrcRejected))
  }

  function PumpReply(r: Model, writeOk: bool, didRead: bool): (p: Polled)
    requires r.Coherent()
    ensures p.next.Coherent()
  {
    if r.out.Idle() then
      Rx.Polled(r, Ok(Rx.PollOutcome.Pending), Calls(None, didRead))
    else if !writeOk then
      Rx.Polled(r, Err(TransportFault), Calls(None, didRead))
    else
      var byte := r.out.Unsent()[0];
      var q := r.(out := r.out.Commit());
      if q.out.Idle() then
        var (n, outcome) := TakePending(q);
        TakePendingIsCoherent(q);
        Rx.Polled(n, Ok(Rx.OrPending(outcome)), Calls(Some(byte), didRead))
      else
        Rx.Polled(q.(state := Rx.RxState.Acknowledging), Ok(Rx.PollOutcome.Pending), Calls(Some(byte), didRead))
  }

  /** A reply that has just been completed: coherent but for the action not yet taken. */
  predicate ReplyDone(q: Model) {
    && q.Valid()
    && q.out.Idle()
    && q.pending.Some?
    && q.emit == []
    && (q.buf[0].Some? <==> q.pending == Some(PendingAction.Drain))
    && Blank(q.buf, if q.Closed() then 0 else q.limit)
  }

  /** Completing a reply restores every between-polls invariant. */
  lemma TakePendingIsCoherent(q: Model)
    requires ReplyDone(q)
    ensures TakePending(q).0.Coherent()
  {
    if q.pending == Some(PendingAction.Drain) {
      DrainDeliversRun(q);
      hide DrainInOrder, PopEmit, Run, Shifted, Payloads;
    }
  }

  /** Draining delivers the whole gap-free run in order: no byte is dropped, none is left. */
  lemma DrainDeliversRun(q: Model)
    requires ReplyDone(q) && q.pending == Some(PendingAction.Drain)
    ensures
      var (n, outcome) := TakePending(q);
      var k := Run(q.buf);
      && n.Coherent()
      && k >= 1
      && outcome.Some? && outcome.value.Delivered?
      && [outcome.value.byte] + n.Queue() == Payloads(q.buf, k)
      && n.buf == Shifted(q.buf, k)
      && n.expected == (q.expected + k) % 256
  {
    var k := Run(q.buf);
    var d := DrainInOrder(q.(pending := None)).(state := Rx.RxState.Idle);
    DrainIntoEmptyQueue(q.(pending := None));
    hide DrainInOrder, Run, Shifted, Payloads;
    assert TakePending(q).0 == PopEmit(d).0;
    assert d.Queue() == Payloads(q.buf, k);
    assert PopEmit(d).1.Some?;
  }

  lemma DrainIntoEmptyQueue(r: Model)
    requires r.Valid() && r.emit == []
    ensures
      var d := DrainInOrder(r);
      && d.emit == Payloads(r.buf, Run(r.buf))
      && d.buf == Shifted(r.buf, Run(r.buf))
      && d.buf[0] == None
      && (Blank(r.buf, r.limit) ==> Blank(d.buf, r.limit))
  {
    var k := Run(r.buf);
    assert [] + Payloads(r.buf, k) == Payloads(r.buf, k);
  }

  // ------------------------------------------------------------ handling a candidate

  function HandleStart(r: Model): (n: Model)
    requires r.Coherent() && r.emit == []
    ensures n.Coherent()
  {
    BeginReply(ClearWindow(r.(expected := 0, finishSeq := None, abortLatched := false)),
               AckFrame(0), PendingAction.Started)
  }

  function HandleAbort(r: Model): (n: Model)
    requires r.Coherent() && r.emit == [] && r.out.Idle()
    ensures n.Coherent()
  {
    if r.finishSeq.Some? then r.(state := Rx.RxState.Finished)
    else BeginReply(ClearWindow(r.(abortLatched := true, expected := 0)), AckFrame(0), PendingAction.Aborted)
  }

  function HandleFinish(r: Model, num: seqno): (n: Model)
    requires r.Coherent() && r.emit == [] && r.out.Idle()
    ensures n.Coherent()
  {
    if r.abortLatched then r.(state := Rx.RxState.Aborted)
    else if r.finishSeq.Some? then
      if num == r.finishSeq.value then BeginReply(r, AckFrame(num), PendingAction.Finished)
      else r.(state := Rx.RxState.Finished)
    else if num != r.expected then BeginReply(r, NackFrame(num), PendingAction.Rejected)
    else BeginReply(ClearWindow(r.(finishSeq := Some(num))), AckFrame(num), PendingAction.Finished)
  }

  function HandleData(r: Model, f: Frame): (n: Model)
    requires r.Coherent() && r.emit == [] && r.out.Idle()
    ensures n.Coherent()
  {
    if r.abortLatched then r.(state := Rx.RxState.Aborted)
    else if r.finishSeq.Some? then r.(state := Rx.RxState.Finished)
    else
      match Offset(r, f.num)
      case Some(off) =>
        var buf := if r.buf[off] == None then r.buf[off := Some(f.data)] else r.buf;
        BeginReply(r.(buf := buf), AckFrame(f.num),
                   if off == 0 then PendingAction.Drain else PendingAction.Quiet)
      case None =>
        if IsDuplicate(r, f.num) then BeginReply(r, AckFrame(f.num), PendingAction.Duplicate)
        else BeginReply(r, NackFrame(f.num), PendingAction.Rejected)
  }

  function Handle(r: Model, d: Decoded): (n: Model)
    requires r.Coherent() && r.emit == [] && r.out.Idle()
    ensures n.Coherent()
  {
    match d
    case Bad(error) =>
      if r.Closed() then SettleIdle(r)
      else BeginReply(r, NackFrame(r.expected),
                      if error.CrcMismatch? then PendingAction.CrcRejected else PendingAction.Rejected)
    case Good(f) =>
      match f.kind
      case Data => HandleData(r, f)
      case Start => HandleStart(r)
      case Finish => HandleFinish(r, f.num)
      case Abort => HandleAbort(r)
      case Ack => SettleIdle(r)
      case Nack => SettleIdle(r)
  }

  /** Whether the next poll reads from the transport before anything else. */
  predicate WillRead(r: Model) {
    r.emit == [] && r.out.Idle()
  }

  /** One poll: hands out a queued byte, or writes a reply byte, or reads a byte. */
  function Poll(r: Model, io: Io): (p: Polled)
    requires r.Coherent()
    ensures p.next.Coherent()
  {
    if r.emitAt < |r.emit| then
      var (n, byte) := PopEmit(r);
      Rx.Polled(n, Ok(Rx.PollOutcome.Delivered(byte.value)), NO_CALLS)
    else if !r.out.Idle() then PumpReply(r, io.writeOk, false)
    else
      var q := r.(state := Rx.RxState.Receiving);
      match io.read
      case ReadFault => Rx.Polled(q, Err(TransportFault), Calls(None, true))
      case NoByte => Rx.Polled(SettleIdle(q), Ok(Rx.PollOutcome.Pending), Calls(None, true))
      case GotByte(byte) =>
        var (asm, word) := Push(q.asm, byte);
        match word
        case None => Rx.Polled(q.(asm := asm), Ok(Rx.PollOutcome.Pending), Calls(None, true))
        case Some(w) => OnWord(q.(asm := asm), FromBytes(w), io.writeOk)
  }

  /** The fourth byte arrived: handle the candidate and write the first reply byte. */
  function OnWord(r: Model, d: Decoded, writeOk: bool): (p: Polled)
    requires r.Coherent() && WillRead(r)
    ensures p.next.Coherent()
  {
    PumpReply(Handle(r.(state := Rx.RxState.Validating), d), writeOk, true)
  }

  /** `set_window_limit`: clamp to `1..=N`; no effect unless the window is quiet. */
  function SetLimit(r: Model, limit: nat): (n: Model)
    requires r.Coherent()
    ensures n.Coherent()
  {
    if (exists k :: 0 <= k < |r.buf| && r.buf[k].Some?) || r.emit != [] || !r.out.Idle() then r
    else r.(limit := if limit == 0 then 1 else if limit > |r.buf| then |r.buf| else limit)
  }

  // ------------------------------------------------------------ the loops

  lemma PushEmitTwice(emit: seq<u8>, a: seq<u8>, b: seq<u8>, capacity: nat)
    requires |emit| <= capacity
    ensures PushEmit(PushEmit(emit, a, capacity), b, capacity) == PushEmit(emit, a + b, capacity)
  {
    assert emit + (a + b) == (emit + a) + b;
  }

  lemma ShiftForgetsHead(buf: seq<Option<u8>>)
    requires |buf| > 0
    ensures Shifted(buf[0 := None], 1) == Shifted(buf, 1)
  {
    assert buf[0 := None][1..] == buf[1..];
  }

  lemma DrainNone(r: Model)
    requires r.Valid()
    ensures DrainSome(r, 0) == r
  {
    assert Shifted(r.buf, 0) == r.buf;
    assert r.emit + Payloads(r.buf, 0) == r.emit;
  }

  /** One iteration of the loop: head byte out, shift, advance, push. */
  lemma DrainOne(r: Model, j: nat)
    requires r.Valid() && j <= Run(r.buf)
    requires DrainSome(r, j).buf[0].Some?
    ensures j + 1 <= Run(r.buf)
    ensures
      var d := DrainSome(r, j);
      DrainSome(r, j + 1) == d.(buf := Shifted(d.buf, 1),
                                expected := Advance(d.expected),
                                emit := PushEmit(d.emit, [d.buf[0].value], |r.buf|))
  {
    hide Run;
    var d := DrainSome(r, j);
    ShiftOnce(r.buf, j);
    RunReaches(r.buf, j);
    assert Payloads(r.buf, j + 1) == Payloads(r.buf, j) + [d.buf[0].value];
    hide Payloads, Shifted, PushEmit;
    PushEmitTwice(r.emit, Payloads(r.buf, j), [d.buf[0].value], |r.buf|);
  }

  lemma ShiftOnce(buf: seq<Option<u8>>, j: nat)
    requires j <= |buf| && |buf| > 0 && Shifted(buf, j)[0].Some?
    ensures j < |buf| && Shifted(buf, j)[0] == buf[j]
    ensures Shifted(buf, j + 1) == Shifted(Shifted(buf, j), 1)
  {
  }

  lemma RunReaches(buf: seq<Option<u8>>, j: nat)
    requires j <= Run(buf) && j < |buf| && buf[j].Some?
    ensures j + 1 <= Run(buf)
  {
  }

  /** The loop stops exactly at the first gap. */
  lemma DrainEnds(r: Model, j: nat)
    requires r.Valid() && j <= Run(r.buf)
    requires DrainSome(r, j).buf[0] == None
    ensures j == Run(r.buf)
  {
  }

  // ------------------------------------------------------------ the object

  class WindowedReceiver {
    var expectedSeq: seqno
    const buf: array<Option<u8>>
    const emit: array<u8>
    var emitAt: nat
    var emitLen: nat
    var limit: nat
    var state: RxState
    const assembler: FrameAssembler
    const out: OutBuf
    var pending: Option<PendingAction>
    var finishSeq: Option<seqno>
    var abortLatched: bool
    ghost const Repr: set<object>

    ghost predicate Valid()
      reads this, Repr
    {
      && Repr == {this, buf, emit} + assembler.Repr + out.Repr
      && assembler in Repr && out in Repr
      && this !in assembler.Repr && this !in out.Repr
      && emit !in assembler.Repr && emit !in out.Repr
      && buf !in assembler.Repr && buf !in out.Repr
      && (buf as object) != emit
      && assembler.Repr !! out.Repr
      && assembler.Valid()
      && out.Valid()
      && 1 <= limit <= buf.Length <= MAX_WINDOW
      && emit.Length == buf.Length
      && emitLen <= emit.Length
      && emitAt <= emitLen
      && (emitAt == emitLen ==> emitLen == 0)
    }

    ghost function View(): (m: Model)
      requires Valid()
      reads this, Repr
      ensures m.Valid()
    {
      Model(expectedSeq, buf[..], emit[..emitLen], emitAt, limit, state,
            assembler.View(), out.View(), pending, finishSeq, abortLatched)
    }

    constructor (n: nat)
      requires 1 <= n <= MAX_WINDOW
      ensures Valid() && fresh(Repr)
      ensures View() == Fresh(n)
    {
      var a := new FrameAssembler(false);
      var o := new OutBuf();
      var b := new Option<u8>[n](_ => None);
      var e := new u8[n](_ => 0);
      expectedSeq, state, pending, finishSeq, abortLatched := 0, Rx.RxState.Idle, None, None, false;
      emitAt, emitLen, limit := 0, 0, n;
      assembler, out, buf, emit := a, o, b, e;
      Repr := {this, b, e} + a.Repr + o.Repr;
      new;
      assert buf[..] == EmptyBuf(n);
    }

    method SetWindowLimit(newLimit: nat)
      requires Valid() && View().Coherent()
      modifies this
      ensures Valid() && View() == SetLimit(old(View()), newLimit)
    {
      var busy := false;
      var i := 0;
      while i < buf.Length
        invariant 0 <= i <= buf.Length
        invariant busy <==> exists k :: 0 <= k < i && buf[k].Some?
      {
        if buf[i].Some? {
          busy := true;
        }
        i := i + 1;
      }
      if busy || emitLen != 0 || !out.IsIdle() {
        return;
      }
      limit := if newLimit == 0 then 1 else if newLimit > buf.Length then buf.Length else newLimit;
    }

    method Settle()
      requires Valid()
      modifies this
      ensures Valid() && View() == SettleIdle(old(View()))
    {
      if abortLatched {
        state := Rx.RxState.Aborted;
      } else if finishSeq.Some? {
        state := Rx.RxState.Finished;
      } else {
        state := Rx.RxState.Idle;
      }
    }

    method Clear()
      requires Valid()
      modifies this, buf
      ensures Valid() && View() == ClearWindow(old(View()))
    {
      forall i | 0 <= i < buf.Length {
        buf[i] := None;
      }
      emitAt, emitLen := 0, 0;
      assert buf[..] == EmptyBuf(buf.Length);
    }

    /** One shift of the reorder buffer towards slot 0, in place. */
    method ShiftBuf()
      requires Valid()
      modifies buf
      ensures Valid() && buf[..] == Shifted(old(buf[..]), 1)
      ensures View() == old(View()).(buf := buf[..])
    {
      ghost var was := buf[..];
      var i := 0;
      while i < buf.Length - 1
        invariant 0 <= i <= buf.Length - 1
        invariant forall k :: 0 <= k < i ==> buf[k] == was[k + 1]
        invariant forall k :: i <= k < buf.Length ==> buf[k] == was[k]
      {
        buf[i] := buf[i + 1];
        i := i + 1;
      }
      buf[buf.Length - 1] := None;
      assert buf[..] == Shifted(was, 1);
    }

    method PushEmitByte(byte: u8)
      requires Valid()
      modifies this, emit
      ensures Valid()
      ensures View() == old(View()).(emit := PushEmit(old(View().emit), [byte], buf.Length))
    {
      if emitLen >= emit.Length {
        assert PushEmit(View().emit, [byte], buf.Length) == View().emit;
        return;
      }
      emit[emitLen] := byte;
      emitLen := emitLen + 1;
      assert emit[..emitLen] == old(View().emit) + [byte];
    }

    method PopEmitByte() returns (byte: Option<u8>)
      requires Valid()
      modifies this
      ensures Valid() && (View(), byte) == PopEmit(old(View()))
    {
      if emitAt >= emitLen {
        emitAt, emitLen := 0, 0;
        return None;
      }
      var b := emit[emitAt];
      emitAt := emitAt + 1;
      if emitAt >= emitLen {
        emitAt, emitLen := 0, 0;
      }
      return Some(b);
    }

    /** The byte at the head of the reorder buffer goes to the emit queue, and the buffer moves up. */
    method DrainHead()
      requires Valid() && buf[0].Some?
      modifies this, buf, emit
      ensures Valid()
      ensures
        var r := old(View());
        View() == r.(buf := Shifted(r.buf, 1),
                     expected := Advance(r.expected),
                     emit := PushEmit(r.emit, [r.buf[0].value], |r.buf|))
    {
      hide Shifted, PushEmit;
      var byte := buf[0].value;
      ghost var was := buf[..];
      buf[0] := None;
      ShiftBuf();
      assert buf[..] == Shifted(was, 1) by { ShiftForgetsHead(was); }
      expectedSeq := Advance(expectedSeq);
      PushEmitByte(byte);
    }

    /** The loop that empties the gap-free run, one slot per iteration. */
    method Drain()
      requires Valid()
      modifies this, buf, emit
      ensures Valid() && View() == DrainInOrder(old(View()))
    {
      hide DrainSome, Shifted, PushEmit, Run;
      ghost var was := View();
      ghost var j := 0;
      DrainNone(was);
      while buf[0].Some?
        invariant Valid()
        invariant 0 <= j <= Run(was.buf)
        invariant View() == DrainSome(was, j)
        decreases Run(was.buf) - j
      {
        DrainOne(was, j);
        DrainHead();
        j := j + 1;
      }
      DrainEnds(was, j);
    }

    method Reply(f: Frame, action: PendingAction)
      requires Valid()
      modifies Repr
      ensures Valid() && View() == BeginReply(old(View()), f, action)
    {
      out.LoadFrame(f);
      pending := Some(action);
      state := Rx.RxState.Acknowledging;
    }

    method PerformPending() returns (outcome: Option<PollOutcome>)
      requires Valid()
      modifies this, buf, emit
      ensures Valid() && (View(), outcome) == TakePending(old(View()))
    {
      hide DrainInOrder, PopEmit, SettleIdle, EmptyBuf, Run;
      if pending == None {
        return None;
      }
      var action := pending.value;
      pending := None;
      match action {
        case Drain =>
          Drain();
          state := Rx.RxState.Idle;
          var byte := PopEmitByte();
          outcome := if byte == None then None else Some(Rx.PollOutcome.Delivered(byte.value));
        case Duplicate =>
          Settle();
          outcome := Some(Rx.PollOutcome.DuplicateIgnored);
        case Quiet =>
          Settle();
          outcome := Some(Rx.PollOutcome.Pending);
        case Started =>
          finishSeq := None;
          abortLatched := false;
          state := Rx.RxState.Idle;
          outcome := Some(Rx.PollOutcome.Started);
        case Finished =>
          state := Rx.RxState.Finished;
          outcome := Some(Rx.PollOutcome.TransferFinished);
        case Aborted =>
          state := Rx.RxState.Aborted;
          outcome := Some(Rx.PollOutcome.Aborted);
        case Rejected =>
          Settle();
          outcome := Some(Rx.PollOutcome.Rejected);
        case CrcRejected =>
          Settle();
          outcome := Some(Rx.PollOutcome.CrcRejected);
      }
    }

    method Pump(writeOk: bool, ghost didRead: bool)
      returns (result: Result<Option<PollOutcome>>, wrote: Option<u8>)
      requires Valid() && View().Coherent()
      modifies Repr
      ensures Valid()
      ensures
        var p := PumpReply(old(View()), writeOk, didRead);
        && View() == p.next
        && p.calls == Calls(wrote, didRead)
        && p.result == Rx.Receiver.Flat(result)
    {
      var byte := out.Peek();
      if byte == None {
        var outcome := PerformPending();
        return Ok(outcome), None;
      }
      if !writeOk {
        return Err(TransportFault), None;
      }
      out.Commit();
      if out.IsIdle() {
        var outcome := PerformPending();
        result := Ok(outcome);
      } else {
        state := Rx.RxState.Acknowledging;
        result := Ok(None);
      }
      wrote := byte;
    }

    method OnStart()
      requires Valid() && View().Coherent() && WillRead(View())
      modifies Repr
      ensures Valid() && View() == HandleStart(old(View()))
    {
      expectedSeq := 0;
      finishSeq := None;
      abortLatched := false;
      Clear();
      Reply(AckFrame(0), PendingAction.Started);
    }

    method OnAbort()
      requires Valid() && View().Coherent() && WillRead(View())
      modifies Repr
      ensures Valid() && View() == HandleAbort(old(View()))
    {
      if finishSeq.Some? {
        state := Rx.RxState.Finished;
        return;
      }
      abortLatched := true;
      expectedSeq := 0;
      Clear();
      Reply(AckFrame(0), PendingAction.Aborted);
    }

    method OnFinish(num: seqno)
      requires Valid() && View().Coherent() && WillRead(View())
      modifies Repr
      ensures Valid() && View() == HandleFinish(old(View()), num)
    {
      if abortLatched {
        state := Rx.RxState.Aborted;
        return;
      }
      if finishSeq.Some? {
        if num == finishSeq.value {
          Reply(AckFrame(num), PendingAction.Finished);
        } else {
          state := Rx.RxState.Finished;
        }
        return;
      }
      if num != expectedSeq {
        Reply(NackFrame(num), PendingAction.Rejected);
        return;
      }
      finishSeq := Some(num);
      Clear();
      Reply(AckFrame(num), PendingAction.Finished);
    }

    method OnData(f: Frame)
      requires Valid() && View().Coherent() && WillRead(View())
      modifies Repr
      ensures Valid() && View() == HandleData(old(View()), f)
    {
      if abortLatched {
        state := Rx.RxState.Aborted;
        return;
      }
      if finishSeq.Some? {
        state := Rx.RxState.Finished;
        return;
      }
      var delta := WrapSub(f.num, expectedSeq);
      if delta < limit {
        ghost var was := buf[..];
        if buf[delta] == None {
          buf[delta] := Some(f.data);
        }
        assert buf[..] == if was[delta] == None then was[delta := Some(f.data)] else was;
        Reply(AckFrame(f.num), if delta == 0 then PendingAction.Drain else PendingAction.Quiet);
        return;
      }
      var back := WrapSub(expectedSeq, f.num);
      if back >= 1 && back <= limit {
        Reply(AckFrame(f.num), PendingAction.Duplicate);
        return;
      }
      Reply(NackFrame(f.num), PendingAction.Rejected);
    }

    /** The match on a candidate frame. `quiet` is the early return that skips the reply. */
    method Dispatch(d: Decoded) returns (quiet: bool)
      requires Valid() && View().Coherent() && WillRead(View())
      modifies Repr
      ensures Valid() && View() == Handle(old(View()), d)
      ensures quiet ==> View().out.Idle()
    {
      hide FromBytes, ToBytes, SettleIdle, HandleData, HandleStart, HandleFinish, HandleAbort, BeginReply, Blank;
      match d {
        case Bad(error) =>
          if abortLatched || finishSeq.Some? {
            Settle();
            return true;
          }
          var action := if error.CrcMismatch? then PendingAction.CrcRejected else PendingAction.Rejected;
          Reply(NackFrame(expectedSeq), action);
        case Good(f) =>
          match f.kind {
            case Data => OnData(f);
            case Start => OnStart();
            case Finish => OnFinish(f.num);
            case Abort => OnAbort();
            case Ack => Settle(); return true;
            case Nack => Settle(); return true;
          }
      }
      return false;
    }

    /** The poll of `Poll`, on the fields of this object. */
    method PollOnce(io: Io) returns (result: Result<PollOutcome>, calls: Calls)
      requires Valid() && View().Coherent()
      modifies Repr
      ensures Valid() && View().Coherent()
      ensures Rx.Polled(View(), result, calls) == Poll(old(View()), io)
    {
      hide FromBytes, ToBytes, Push, OnWord, TakePending, SettleIdle;
      var queued := PopEmitByte();
      if queued.Some? {
        return Ok(Rx.PollOutcome.Delivered(queued.value)), NO_CALLS;
      }
      assert View() == old(View());
      if !out.IsIdle() {
        var pumped, wrote := Pump(io.writeOk, false);
        return Rx.Receiver.Flat(pumped), Calls(wrote, false);
      }
      result, calls := ReadOne(io);
    }

    /** The read half of a poll. */
    method ReadOne(io: Io) returns (result: Result<PollOutcome>, calls: Calls)
      requires Valid() && View().Coherent() && WillRead(View())
      modifies Repr
      ensures Valid()
      ensures Rx.Polled(View(), result, calls) == Poll(old(View()), io)
    {
      hide FromBytes, ToBytes, Push, OnWord, SettleIdle, PopEmit;
      state := Rx.RxState.Receiving;
      match io.read {
        case ReadFault =>
          return Err(TransportFault), Calls(None, true);
        case NoByte =>
          Settle();
          return Ok(Rx.PollOutcome.Pending), Calls(None, true);
        case GotByte(byte) =>
          var decoded := assembler.Accept(byte);
          if decoded == None {
            return Ok(Rx.PollOutcome.Pending), Calls(None, true);
          }
          result, calls := TakeWord(decoded.value, io.writeOk);
      }
    }

    /** What a completed word leads to in the same poll. */
    method TakeWord(d: Decoded, writeOk: bool) returns (result: Result<PollOutcome>, calls: Calls)
      requires Valid() && View().Coherent() && WillRead(View())
      modifies Repr
      ensures Valid()
      ensures Rx.Polled(View(), result, calls) == OnWord(old(View()), d, writeOk)
    {
      hide Handle, TakePending, SettleIdle, PopEmit;
      state := Rx.RxState.Validating;
      var quiet := Dispatch(d);
      if quiet {
        return Ok(Rx.PollOutcome.Pending), Calls(None, true);
      }
      var pumped, wrote := Pump(writeOk, true);
      return Rx.Receiver.Flat(pumped), Calls(wrote, true);
    }
  }
}
