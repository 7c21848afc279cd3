/**
  The selective-repeat sender: up to `limit` frames of `N <= 8` slots in
  flight, each with its own acknowledgement, retries and timer.
 */
module WindowTx {
  import opened Prelude
  import opened Wire
  import opened Framing
  import Tx
  import WindowRx

  type TxState = Tx.TxState
  type TxPoll = Tx.TxPoll
  type Polled = Tx.Polled<Model>

  const MAX_WINDOW := WindowRx.MAX_WINDOW

  datatype FlightKind = Data | Start | Finish | Abort

  datatype TxSlot = TxSlot(
    kind: FlightKind,
    num: seqno,
    payload: u8,
    retriesLeft: count8,
    written: bool,
    needsRetransmit: bool,
    emptyTicks: u16)
  {
    /** Its frame has to go out: for the first time, or again. */
    predicate Unsent() {
      needsRetransmit || !written
    }
  }

  type Slots = seq<Option<TxSlot>>

  datatype Model = Model(
    nextSeq: seqno,
    slots: Slots,
    limit: nat,
    state: TxState,
    policy: Tx.RetryPolicy,
    asm: Assembly,
    out: Outgoing,
    writing: Option<nat>,
    mark: Tx.IoMark)
  {
    predicate Valid() {
      && asm.Valid()
      && out.Valid()
      && 1 <= limit <= |slots| <= MAX_WINDOW
      && (writing.Some? ==> writing.value < |slots|)
    }

    /**
      What holds between polls: the output buffer is busy exactly while some
      unsent slot is being written, a terminal state has no slots, and a
      session flight is alone.
     */
    predicate Coherent() {
      && Valid()
      && (out.Idle() <==> writing == None)
      && (writing.Some? ==> slots[writing.value].Some? && slots[writing.value].value.Unsent())
      && (Terminal(state) ==> Empty(slots))
      && SessionAlone(slots)
    }
  }

  predicate Terminal(state: TxState) {
    state == Tx.TxState.Finished || state == Tx.TxState.Aborted || state == Tx.TxState.Failed
  }

  predicate Empty(slots: Slots) {
    forall i :: 0 <= i < |slots| ==> slots[i] == None
  }

  predicate IsSession(s: Option<TxSlot>) {
    s.Some? && !s.value.kind.Data?
  }

  predicate HasSession(slots: Slots) {
    exists i :: 0 <= i < |slots| && IsSession(slots[i])
  }

  predicate SessionAlone(slots: Slots) {
    forall i, j :: 0 <= i < |slots| && 0 <= j < |slots| && i != j && IsSession(slots[i]) ==> slots[j] == None
  }

  function EmptySlots(n: nat): (s: Slots)
    ensures |s| == n && Empty(s)
  {
    seq(n, _ => None)
  }

  function Fresh(n: nat, policy: Tx.RetryPolicy): (t: Model)
    requires 1 <= n <= MAX_WINDOW
    ensures t.Coherent()
  {
    Model(0, EmptySlots(n), n, Tx.TxState.Idle, policy, FRESH_PLAIN, NOTHING_OUTGOING, None, Tx.NO_MARK)
  }

  // ------------------------------------------------------------ searching the slots

  /** `outstanding()`: how many slots are occupied. */
  function Outstanding(slots: Slots): (n: nat)
    ensures n == 0 <==> Empty(slots)
  {
    if slots == [] then 0
    else
      assert slots == [slots[0]] + slots[1..];
      (if slots[0].Some? then 1 else 0) + Outstanding(slots[1..])
  }

  predicate Carries(s: Option<TxSlot>, num: seqno) {
    s.Some? && s.value.num == num
  }

  /** The first slot carrying `num`, searching from index `from`. */
  function FindSeq(slots: Slots, num: seqno, from: nat := 0): (r: Option<nat>)
    requires from <= |slots|
    ensures r == None <==> forall j :: from <= j < |slots| ==> !Carries(slots[j], num)
    ensures r.Some? ==> from <= r.value < |slots| && Carries(slots[r.value], num)
    ensures r.Some? ==> forall j :: from <= j < r.value ==> !Carries(slots[j], num)
    decreases |slots| - from
  {
    if from == |slots| then None
    else if Carries(slots[from], num) then Some(from)
    else FindSeq(slots, num, from + 1)
  }

  /** The first free slot, searching from index `from`. */
  function FindFree(slots: Slots, from: nat := 0): (r: Option<nat>)
    requires from <= |slots|
    ensures r == None <==> forall j :: from <= j < |slots| ==> slots[j].Some?
    ensures r.Some? ==> from <= r.value < |slots| && slots[r.value] == None
    ensures r.Some? ==> forall j :: from <= j < r.value ==> slots[j].Some?
    decreases |slots| - from
  {
    if from == |slots| then None
    else if slots[from] == None then Some(from)
    else FindFree(slots, from + 1)
  }

  /** One comparison of the scan for the oldest SEQ: keep `base` unless `num` lies behind it. */
  function Older(base: Option<seqno>, num: seqno, limit: nat): seqno {
    match base
    case None => num
    case Some(b) => if WrapSub(num, b) <= limit then b else num
  }

  /** The scan for the oldest SEQ over the first `k` slots. */
  function OldestOf(slots: Slots, limit: nat, k: nat): (r: Option<seqno>)
    requires k <= |slots|
    ensures r == None <==> forall j :: 0 <= j < k ==> slots[j] == None
  {
    if k == 0 then None
    else
      var base := OldestOf(slots, limit, k - 1);
      if slots[k - 1] == None then base else Some(Older(base, slots[k - 1].value.num, limit))
  }

  function OldestUnacked(t: Model): Option<seqno> {
    OldestOf(t.slots, t.limit, |t.slots|)
  }

  predicate InSendWindow(t: Model, num: seqno) {
    match OldestUnacked(t)
    case None => true
    case Some(base) => WrapSub(num, base) < t.limit
  }

  predicate Retransmits(s: Option<TxSlot>) {
    s.Some? && s.value.needsRetransmit
  }

  predicate New(s: Option<TxSlot>) {
    s.Some? && !s.value.written && !s.value.needsRetransmit
  }

  /** The first slot that asks for a retransmission. */
  function FirstRetransmit(slots: Slots, from: nat := 0): (r: Option<nat>)
    requires from <= |slots|
    ensures r == None <==> forall j :: from <= j < |slots| ==> !Retransmits(slots[j])
    ensures r.Some? ==> from <= r.value < |slots| && Retransmits(slots[r.value])
    ensures r.Some? ==> forall j :: from <= j < r.value ==> !Retransmits(slots[j])
    decreases |slots| - from
  {
    if from == |slots| then None
    else if Retransmits(slots[from]) then Some(from)
    else FirstRetransmit(slots, from + 1)
  }

  /** The first slot never written, when none asks for a retransmission. */
  function FirstNew(slots: Slots, from: nat := 0): (r: Option<nat>)
    requires from <= |slots|
    ensures r == None <==> forall j :: from <= j < |slots| ==> !New(slots[j])
    ensures r.Some? ==> from <= r.value < |slots| && New(slots[r.value])
    ensures r.Some? ==> forall j :: from <= j < r.value ==> !New(slots[j])
    decreases |slots| - from
  {
    if from == |slots| then None
    else if New(slots[from]) then Some(from)
    else FirstNew(slots, from + 1)
  }

  /** Retransmissions first, then the first unwritten slot. */
  function NextToWrite(slots: Slots): (r: Option<nat>)
    ensures r.Some? ==> r.value < |slots| && slots[r.value].Some? && slots[r.value].value.Unsent()
    ensures r == None <==> forall j :: 0 <= j < |slots| && slots[j].Some? ==> !slots[j].value.Unsent()
  {
    var again := FirstRetransmit(slots);
    if again.Some? then again else FirstNew(slots)
  }

  // ------------------------------------------------------------ offers

  function Insert(t: Model, kind: FlightKind, num: seqno, payload: u8): (n: (Model, Result<()>))
    requires t.Valid()
    ensures n.0.Valid()
  {
    match FindFree(t.slots)
    case None => (t, Err(WindowFull))
    case Some(i) =>
      var slot := TxSlot(kind, num, payload, t.policy.maxRetries, false, false, 0);
      (t.(slots := t.slots[i := Some(slot)], state := Tx.TxState.Sending), Ok(()))
  }

  function OfferStart(t: Model): (n: (Model, Result<()>))
    requires t.Coherent()
    ensures n.0.Coherent()
    ensures |n.0.slots| == |t.slots|
  {
    if !Empty(t.slots) || !t.out.Idle() then (t, Err(NotIdle))
    else Insert(t.(slots := EmptySlots(|t.slots|), nextSeq := 0), FlightKind.Start, 0, 0)
  }

  /** Queues one DATA byte while the send window has room. */
  function Offer(t: Model, byte: u8): (n: (Model, Result<()>))
    requires t.Coherent()
    ensures n.0.Coherent()
    ensures |n.0.slots| == |t.slots|
  {
    if Terminal(t.state) then (t, Err(NotIdle))
    else if HasSession(t.slots) then (t, Err(NotIdle))
    else if !InSendWindow(t, t.nextSeq) || FindFree(t.slots) == None then (t, Err(WindowFull))
    else
      var (n, r) := Insert(t, FlightKind.Data, t.nextSeq, byte);
      (n.(nextSeq := Advance(t.nextSeq)), r)
  }

  function OfferFinish(t: Model): (n: (Model, Result<()>))
    requires t.Coherent()
    ensures n.0.Coherent()
    ensures |n.0.slots| == |t.slots|
  {
    if Terminal(t.state) then (t, Err(NotIdle))
    else if !Empty(t.slots) then (t, Err(NotIdle))
    else Insert(t, FlightKind.Finish, t.nextSeq, 0)
  }

  function OfferAbort(t: Model): (n: (Model, Result<()>))
    requires t.Coherent()
    ensures n.0.Coherent()
    ensures |n.0.slots| == |t.slots|
  {
    if t.state == Tx.TxState.Aborted && Empty(t.slots) && t.out.Idle() then (t, Ok(()))
    else if exists i :: 0 <= i < |t.slots| && t.slots[i].Some? && t.slots[i].value.kind.Abort? then (t, Ok(()))
    else
      Insert(ForceAbort(t).(nextSeq := 0, state := Tx.TxState.Sending), FlightKind.Abort, 0, 0)
  }

  /** Local cancel without writing ABORT. */
  function ForceAbort(t: Model): (n: Model)
    requires t.Valid()
    ensures n.Coherent()
    ensures |n.slots| == |t.slots|
  {
    t.(slots := EmptySlots(|t.slots|), out := NOTHING_OUTGOING, writing := None,
       asm := t.asm.(buf := []), state := Tx.TxState.Aborted)
  }

  // ------------------------------------------------------------ writing

  function FrameOf(s: TxSlot): Frame {
    match s.kind
    case Data => DataFrame(s.num, s.payload)
    case Start => StartFrame()
    case Finish => FinishFrame(s.num)
    case Abort => AbortFrame()
  }

  /** Whether the next poll writes. */
  predicate WillWrite(t: Model) {
    !t.out.Idle() || NextToWrite(t.slots).Some?
  }

  /** Whether the next poll reads: every occupied slot is fully written and none asks to be again. */
  predicate WillRead(t: Model) {
    t.out.Idle() && NextToWrite(t.slots) == None && !Terminal(t.state)
  }

  function LoadSlot(t: Model, i: nat): (n: Model)
    requires t.Coherent() && t.out.Idle() && i < |t.slots| && t.slots[i].Some? && t.slots[i].value.Unsent()
    ensures n.Coherent()
    ensures |n.slots| == |t.slots|
  {
    t.(out := Load(FrameOf(t.slots[i].value)), writing := Some(i), state := Tx.TxState.Sending)
  }

  function Written(s: TxSlot): TxSlot {
    s.(written := true, needsRetransmit := false, emptyTicks := 0)
  }

  /** The fourth byte is out: mark the slot and drop any half-read reply. */
  function FinishWrite(t: Model): Model
    requires t.Valid() && t.writing.Some? && t.slots[t.writing.value].Some?
  {
    var i := t.writing.value;
    t.(slots := t.slots[i := Some(Written(t.slots[i].value))],
       writing := None,
       asm := t.asm.(buf := []),
       state := Tx.TxState.WaitingAck,
       mark := t.mark.(frameOnWire := true))
  }

  function WriteStep(t: Model, writeOk: bool): (p: Polled)
    requires t.Coherent() && WillWrite(t)
    ensures p.next.Coherent()
    ensures |p.next.slots| == |t.slots|
  {
    var l := if t.out.Idle() then LoadSlot(t, NextToWrite(t.slots).value) else t;
    if !writeOk then Tx.Polled(l, Err(TransportFault), NO_CALLS)
    else
      var o := l.out.Commit();
      var n := if o.Idle() then FinishWrite(l.(out := o)) else l.(out := o);
      Tx.Polled(n, Ok(Tx.TxPoll.Pending), Calls(Some(l.out.Unsent()[0]), false))
  }

  // ------------------------------------------------------------ reading

  function OnAck(t: Model, num: seqno): (n: (Model, Result<TxPoll>))
    requires t.Coherent() && WillRead(t)
    ensures n.0.Coherent()
    ensures |n.0.slots| == |t.slots|
  {
    match FindSeq(t.slots, num)
    case None => (t, Ok(Tx.TxPoll.Pending))
    case Some(i) =>
      if !t.slots[i].value.written then (t, Ok(Tx.TxPoll.Pending))
      else
        var q := t.(slots := t.slots[i := None]);
        match t.slots[i].value.kind
        case Data =>
          (q.(state := if Empty(q.slots) then Tx.TxState.Idle else Tx.TxState.WaitingAck), Ok(Tx.TxPoll.Acked))
        case Start => (q.(nextSeq := 0, state := Tx.TxState.Idle), Ok(Tx.TxPoll.SessionReady))
        case Finish => (q.(state := Tx.TxState.Finished), Ok(Tx.TxPoll.TransferDone))
        case Abort => (q.(state := Tx.TxState.Aborted), Ok(Tx.TxPoll.Aborted))
  }

  function GiveUp(t: Model): (n: Model)
    requires t.Coherent() && t.out.Idle()
    ensures n.Coherent()
    ensures |n.slots| == |t.slots|
  {
    t.(slots := EmptySlots(|t.slots|), state := Tx.TxState.Failed)
  }

  function Retry(s: TxSlot): TxSlot
    requires s.retriesLeft > 0
  {
    s.(retriesLeft := s.retriesLeft - 1, needsRetransmit := true, emptyTicks := 0)
  }

  function OnNack(t: Model, num: seqno): (n: (Model, Result<TxPoll>))
    requires t.Coherent() && WillRead(t)
    ensures n.0.Coherent()
    ensures |n.0.slots| == |t.slots|
  {
    match FindSeq(t.slots, num)
    case None => (t, Ok(Tx.TxPoll.Pending))
    case Some(i) =>
      var slot := t.slots[i].value;
      if !slot.written then (t, Ok(Tx.TxPoll.Pending))
      else if slot.retriesLeft == 0 then (GiveUp(t), Err(RetriesExhausted))
      else
        (t.(slots := t.slots[i := Some(Retry(slot))],
            state := Tx.TxState.Retrying,
            mark := t.mark.(nack := true, retransmit := true)),
         Ok(Tx.TxPoll.Pending))
  }

  function OnControl(t: Model, f: Frame): (n: (Model, Result<TxPoll>))
    requires t.Coherent() && WillRead(t)
    ensures n.0.Coherent()
    ensures |n.0.slots| == |t.slots|
  {
    match f.kind
    case Ack => OnAck(t, f.num)
    case Nack => OnNack(t, f.num)
    case Abort => (ForceAbort(t), Ok(Tx.TxPoll.Aborted))
    case Data => (t, Ok(Tx.TxPoll.Pending))
    case Start => (t, Ok(Tx.TxPoll.Pending))
    case Finish => (t, Ok(Tx.TxPoll.Pending))
  }

  /** A silent tick of one occupied, written slot: `None` when its retries are used up. */
  function TickSlot(s: TxSlot, timeout: u16): Option<TxSlot> {
    var ticks := SaturatingIncrement(s.emptyTicks, U16_MAX);
    if ticks < timeout then Some(s.(emptyTicks := ticks))
    else if s.retriesLeft == 0 then None
    else Some(Retry(s))
  }

  /** Whether the timer of slot `i` runs at all. */
  predicate Ticks(t: Model, i: nat)
    requires i < |t.slots|
  {
    t.writing != Some(i) && t.slots[i].Some? && !t.slots[i].value.Unsent()
  }

  /** The timer scan from slot `i` on; it stops at the first slot without retries left. */
  function TickFrom(t: Model, i: nat): (n: (Model, Result<TxPoll>))
    requires t.Coherent() && i <= |t.slots| && t.out.Idle() && !Terminal(t.state)
    ensures n.0.Coherent()
    ensures |n.0.slots| == |t.slots|
    decreases |t.slots| - i
  {
    if i == |t.slots| then (t, Ok(Tx.TxPoll.Pending))
    else if !Ticks(t, i) then TickFrom(t, i + 1)
    else
      match TickSlot(t.slots[i].value, t.policy.timeoutTicks)
      case None => (GiveUp(t), Err(RetriesExhausted))
      case Some(s) =>
        var q := t.(slots := t.slots[i := Some(s)]);
        if s.needsRetransmit then
          TickFrom(q.(state := Tx.TxState.Retrying, mark := t.mark.(retransmit := true)), i + 1)
        else TickFrom(q, i + 1)
  }

  function TickTimeouts(t: Model): (n: (Model, Result<TxPoll>))
    requires t.Coherent() && WillRead(t)
    ensures n.0.Coherent()
    ensures |n.0.slots| == |t.slots|
  {
    TickFrom(t, 0)
  }

  function ReadStep(t: Model, read: ReadAnswer): (n: (Model, Result<TxPoll>))
    requires t.Coherent() && WillRead(t)
    ensures n.0.Coherent()
    ensures |n.0.slots| == |t.slots|
  {
    match read
    case ReadFault => (t, Err(TransportFault))
    case NoByte => TickTimeouts(t)
    case GotByte(byte) =>
      var (asm, word) := Push(t.asm, byte);
      var q := t.(asm := asm);
      match word
      case None => (q, Ok(Tx.TxPoll.Pending))
      case Some(w) =>
        match FromBytes(w)
        case Bad(_) => (q, Ok(Tx.TxPoll.Pending))
        case Good(f) => OnControl(q, f)
  }

  /** One poll: a byte written while some slot is not out, a byte read while all are. */
  function Poll(t: Model, io: Io): (p: Polled)
    requires t.Coherent()
    ensures p.next.Coherent()
    ensures |p.next.slots| == |t.slots|
  {
    if t.state == Tx.TxState.Failed then Tx.Polled(t, Err(RetriesExhausted), NO_CALLS)
    else if t.state == Tx.TxState.Aborted then Tx.Polled(t, Ok(Tx.TxPoll.Aborted), NO_CALLS)
    else if t.state == Tx.TxState.Finished then Tx.Polled(t, Ok(Tx.TxPoll.TransferDone), NO_CALLS)
    else if WillWrite(t) then WriteStep(t, io.writeOk)
    else
      var (n, result) := ReadStep(t, io.read);
      Tx.Polled(n, result, Calls(None, true))
  }

  /** `set_window_limit`: clamp to `1..=N`; no effect while anything is outstanding. */
  function SetLimit(t: Model, limit: nat): (n: Model)
    requires t.Coherent()
    ensures n.Coherent()
  {
    if !Empty(t.slots) || !t.out.Idle() then t
    else t.(limit := if limit == 0 then 1 else if limit > |t.slots| then |t.slots| else limit)
  }

  // ------------------------------------------------------------ the object

  class WindowedSender {
    var nextSeq: seqno
    const slots: array<Option<TxSlot>>
    var limit: nat
    var state: TxState
    const policy: Tx.RetryPolicy
    const assembler: FrameAssembler
    const out: OutBuf
    var writing: Option<nat>
    var mark: Tx.IoMark
    ghost const Repr: set<object>

    ghost predicate Valid()
      reads this, Repr
    {
      && Repr == {this, slots} + assembler.Repr + out.Repr
      && assembler in Repr && out in Repr
      && this !in assembler.Repr && this !in out.Repr
      && slots !in assembler.Repr && slots !in out.Repr
      && assembler.Repr !! out.Repr
      && assembler.Valid()
      && out.Valid()
      && 1 <= limit <= slots.Length <= MAX_WINDOW
      && (writing.Some? ==> writing.value < slots.Length)
    }

    ghost function View(): (m: Model)
      requires Valid()
      reads this, Repr
      ensures m.Valid()
    {
      Model(nextSeq, slots[..], limit, state, policy, assembler.View(), out.View(), writing, mark)
    }

    constructor (n: nat, policy: Tx.RetryPolicy)
      requires 1 <= n <= MAX_WINDOW
      ensures Valid() && fresh(Repr)
      ensures View() == Fresh(n, policy)
    {
      var a := new FrameAssembler(false);
      var o := new OutBuf();
      var s := new Option<TxSlot>[n](_ => None);
      nextSeq, state, writing, mark, limit := 0, Tx.TxState.Idle, None, Tx.NO_MARK, n;
      this.policy := policy;
      assembler, out, slots := a, o, s;
      Repr := {this, s} + a.Repr + o.Repr;
      new;
      assert slots[..] == EmptySlots(n);
    }

    /** How many slots are occupied. */
    method CountOutstanding() returns (n: nat)
      requires Valid()
      ensures n == Outstanding(slots[..])
    {
      n := 0;
      var i := slots.Length;
      assert slots[i..] == [];
      while i > 0
        invariant 0 <= i <= slots.Length
        invariant n == Outstanding(slots[i..])
      {
        i := i - 1;
        assert slots[i..] == [slots[i]] + slots[i + 1..];
        if slots[i].Some? {
          n := n + 1;
        }
      }
      assert slots[0..] == slots[..];
    }

    method Find(num: seqno) returns (r: Option<nat>)
      requires Valid()
      ensures r == FindSeq(slots[..], num)
    {
      var i := 0;
      while i < slots.Length
        invariant 0 <= i <= slots.Length
        invariant FindSeq(slots[..], num) == FindSeq(slots[..], num, i)
      {
        if slots[i].Some? && slots[i].value.num == num {
          return Some(i);
        }
        i := i + 1;
      }
      return None;
    }

    method FindFreeSlot() returns (r: Option<nat>)
      requires Valid()
      ensures r == FindFree(slots[..])
    {
      var i := 0;
      while i < slots.Length
        invariant 0 <= i <= slots.Length
        invariant FindFree(slots[..]) == FindFree(slots[..], i)
      {
        if slots[i] == None {
          return Some(i);
        }
        i := i + 1;
      }
      return None;
    }

    method Oldest() returns (oldest: Option<seqno>)
      requires Valid()
      ensures oldest == OldestUnacked(View())
    {
      oldest := None;
      var i := 0;
      while i < slots.Length
        invariant 0 <= i <= slots.Length
        invariant oldest == OldestOf(slots[..], limit, i)
      {
        if slots[i].Some? {
          oldest := match oldest {
            case None => Some(slots[i].value.num)
            case Some(base) =>
              if WrapSub(slots[i].value.num, base) <= limit then Some(base) else Some(slots[i].value.num)
          };
        }
        i := i + 1;
      }
    }

    method HasSessionFlight() returns (found: bool)
      requires Valid()
      ensures found <==> HasSession(slots[..])
    {
      var i := 0;
      while i < slots.Length
        invariant 0 <= i <= slots.Length
        invariant forall j :: 0 <= j < i ==> !IsSession(slots[j])
      {
        if slots[i].Some? && !slots[i].value.kind.Data? {
          assert IsSession(slots[..][i]);
          return true;
        }
        i := i + 1;
      }
      return false;
    }

    method FindNextToWrite() returns (r: Option<nat>)
      requires Valid()
      ensures r == NextToWrite(slots[..])
    {
      var firstNew: Option<nat> := None;
      var i := 0;
      while i < slots.Length
        invariant 0 <= i <= slots.Length
        invariant FirstRetransmit(slots[..]) == FirstRetransmit(slots[..], i)
        invariant firstNew == None ==> FirstNew(slots[..]) == FirstNew(slots[..], i)
        invariant firstNew.Some? ==> FirstNew(slots[..]) == firstNew
      {
        if slots[i].Some? {
          if slots[i].value.needsRetransmit {
            return Some(i);
          }
          if !slots[i].value.written && firstNew == None {
            firstNew := Some(i);
          }
        }
        i := i + 1;
      }
      return firstNew;
    }

    method ClearSlots()
      requires Valid()
      modifies slots
      ensures Valid() && View() == old(View()).(slots := EmptySlots(slots.Length))
    {
      forall i | 0 <= i < slots.Length {
        slots[i] := None;
      }
      assert slots[..] == EmptySlots(slots.Length);
    }

    method InsertSlot(kind: FlightKind, num: seqno, payload: u8) returns (result: Result<()>)
      requires Valid()
      modifies this, slots
      ensures Valid() && (View(), result) == Insert(old(View()), kind, num, payload)
    {
      var free := FindFreeSlot();
      if free == None {
        return Err(WindowFull);
      }
      slots[free.value] := Some(TxSlot(kind, num, payload, policy.maxRetries, false, false, 0));
      if state != Tx.TxState.Sending {
        state := Tx.TxState.Sending;
      }
      return Ok(());
    }

    method TryOfferStart() returns (result: Result<()>)
      requires Valid() && View().Coherent()
      modifies Repr
      ensures Valid() && (View(), result) == OfferStart(old(View()))
    {
      var n := CountOutstanding();
      if n != 0 || !out.IsIdle() {
        return Err(NotIdle);
      }
      ClearSlots();
      nextSeq := 0;
      state := Tx.TxState.Sending;
      result := InsertSlot(FlightKind.Start, 0, 0);
    }

    method TryOffer(byte: u8) returns (result: Result<()>)
      requires Valid() && View().Coherent()
      modifies this, slots
      ensures Valid() && (View(), result) == Offer(old(View()), byte)
    {
      hide OldestOf, FindFree, SessionAlone, Empty;
      if state == Tx.TxState.Finished || state == Tx.TxState.Aborted || state == Tx.TxState.Failed {
        return Err(NotIdle);
      }
      var session := HasSessionFlight();
      if session {
        return Err(NotIdle);
      }
      var num := nextSeq;
      var oldest := Oldest();
      var free := FindFreeSlot();
      if (oldest.Some? && WrapSub(num, oldest.value) >= limit) || free == None {
        return Err(WindowFull);
      }
      result := InsertSlot(FlightKind.Data, num, byte);
      nextSeq := Advance(nextSeq);
    }

    method TryOfferFinish() returns (result: Result<()>)
      requires Valid() && View().Coherent()
      modifies this, slots
      ensures Valid() && (View(), result) == OfferFinish(old(View()))
    {
      if state == Tx.TxState.Finished || state == Tx.TxState.Aborted || state == Tx.TxState.Failed {
        return Err(NotIdle);
      }
      var n := CountOutstanding();
      if n != 0 {
        return Err(NotIdle);
      }
      result := InsertSlot(FlightKind.Finish, nextSeq, 0);
    }

    method CancelLocally()
      requires Valid()
      modifies Repr
      ensures Valid() && View() == ForceAbort(old(View()))
    {
      ClearSlots();
      out.Clear();
      writing := None;
      assembler.Reset();
      state := Tx.TxState.Aborted;
    }

    /** Whether some slot holds an ABORT. */
    method HasAbort() returns (found: bool)
      requires Valid()
      ensures found <==> exists i :: 0 <= i < slots.Length && View().slots[i].Some? && View().slots[i].value.kind.Abort?
    {
      var i := 0;
      while i < slots.Length
        invariant 0 <= i <= slots.Length
        invariant forall j :: 0 <= j < i ==> !(slots[j].Some? && slots[j].value.kind.Abort?)
      {
        if slots[i].Some? && slots[i].value.kind.Abort? {
          assert View().slots[i].Some? && View().slots[i].value.kind.Abort?;
          return true;
        }
        i := i + 1;
      }
      return false;
    }

    /** Cancels the session: every slot is dropped, even one half written, and ABORT takes their place. */
    method TryOfferAbort() returns (result: Result<()>)
      requires Valid() && View().Coherent()
      modifies Repr
      ensures Valid() && (View(), result) == OfferAbort(old(View()))
    {
      hide SessionAlone, Insert;
      var n := CountOutstanding();
      if state == Tx.TxState.Aborted && n == 0 && out.IsIdle() {
        return Ok(());
      }
      var aborting := HasAbort();
      if aborting {
        return Ok(());
      }
      CancelLocally();
      nextSeq := 0;
      state := Tx.TxState.Sending;
      result := InsertSlot(FlightKind.Abort, 0, 0);
    }

    /** Takes effect only while nothing is outstanding. */
    method SetWindowLimit(newLimit: nat)
      requires Valid() && View().Coherent()
      modifies this
      ensures Valid() && View() == SetLimit(old(View()), newLimit)
    {
      var n := CountOutstanding();
      if n != 0 || !out.IsIdle() {
        return;
      }
      limit := if newLimit == 0 then 1 else if newLimit > slots.Length then slots.Length else newLimit;
    }

    /** The write half of a poll: one byte of the frame being written or of the next one due. */
    method WriteOne(next: Option<nat>, writeOk: bool) returns (result: Result<TxPoll>, calls: Calls)
      requires Valid() && View().Coherent() && WillWrite(View())
      requires out.IsIdle() ==> next == NextToWrite(slots[..])
      modifies Repr
      ensures Valid()
      ensures Tx.Polled(View(), result, calls) == WriteStep(old(View()), writeOk)
    {
      hide ToBytes;
      if out.IsIdle() {
        LoadInto(next.value);
      }
      ghost var loaded := View();
      var byte := out.Peek();
      if !writeOk {
        return Err(TransportFault), NO_CALLS;
      }
      out.Commit();
      if out.IsIdle() {
        CompleteWrite();
      }
      return Ok(Tx.TxPoll.Pending), Calls(byte, false);
    }

    method LoadInto(i: nat)
      requires Valid() && View().Coherent() && out.IsIdle()
      requires i < slots.Length && slots[i].Some? && slots[i].value.Unsent()
      modifies this, out.Repr
      ensures Valid() && View() == LoadSlot(old(View()), i)
    {
      var slot := slots[i].value;
      out.LoadFrame(FrameOf(slot));
      writing := Some(i);
      state := Tx.TxState.Sending;
    }

    method CompleteWrite()
      requires Valid() && writing.Some? && slots[writing.value].Some?
      modifies this, slots, assembler
      ensures Valid() && View() == FinishWrite(old(View()))
    {
      var i := writing.value;
      writing := None;
      slots[i] := Some(slots[i].value.(written := true, needsRetransmit := false, emptyTicks := 0));
      assembler.Reset();
      var n := CountOutstanding();
      assert slots[..][i].Some?;
      state := if n == 0 then Tx.TxState.Idle else Tx.TxState.WaitingAck;
      mark := mark.(frameOnWire := true);
    }

    method Acknowledged(num: seqno) returns (result: Result<TxPoll>)
      requires Valid() && View().Coherent() && WillRead(View())
      modifies this, slots
      ensures Valid() && (View(), result) == OnAck(old(View()), num)
    {
      hide NextToWrite, SessionAlone;
      var found := Find(num);
      if found == None {
        return Ok(Tx.TxPoll.Pending);
      }
      var i := found.value;
      var slot := slots[i].value;
      if !slot.written {
        return Ok(Tx.TxPoll.Pending);
      }
      slots[i] := None;
      match slot.kind {
        case Data =>
          var n := CountOutstanding();
          state := if n == 0 then Tx.TxState.Idle else Tx.TxState.WaitingAck;
          result := Ok(Tx.TxPoll.Acked);
        case Start =>
          nextSeq := 0;
          state := Tx.TxState.Idle;
          result := Ok(Tx.TxPoll.SessionReady);
        case Finish =>
          state := Tx.TxState.Finished;
          result := Ok(Tx.TxPoll.TransferDone);
        case Abort =>
          state := Tx.TxState.Aborted;
          result := Ok(Tx.TxPoll.Aborted);
      }
    }

    method Rejected(num: seqno) returns (result: Result<TxPoll>)
      requires Valid() && View().Coherent() && WillRead(View())
      modifies this, slots
      ensures Valid() && (View(), result) == OnNack(old(View()), num)
    {
      hide NextToWrite, SessionAlone;
      var found := Find(num);
      if found == None {
        return Ok(Tx.TxPoll.Pending);
      }
      var i := found.value;
      var slot := slots[i].value;
      if !slot.written {
        return Ok(Tx.TxPoll.Pending);
      }
      if slot.retriesLeft == 0 {
        ClearSlots();
        state := Tx.TxState.Failed;
        return Err(RetriesExhausted);
      }
      slot := slot.(retriesLeft := slot.retriesLeft - 1, needsRetransmit := true, emptyTicks := 0);
      PutSlot(i, slot);
      state := Tx.TxState.Retrying;
      mark := mark.(nack := true, retransmit := true);
      return Ok(Tx.TxPoll.Pending);
    }

    method Control(f: Frame) returns (result: Result<TxPoll>)
      requires Valid() && View().Coherent() && WillRead(View())
      modifies Repr
      ensures Valid() && (View(), result) == OnControl(old(View()), f)
    {
      hide OnAck, OnNack, NextToWrite;
      match f.kind {
        case Ack => result := Acknowledged(f.num);
        case Nack => result := Rejected(f.num);
        case Abort =>
          CancelLocally();
          result := Ok(Tx.TxPoll.Aborted);
        case _ =>
          result := Ok(Tx.TxPoll.Pending);
      }
    }

    method PutSlot(i: nat, slot: TxSlot)
      requires Valid() && i < slots.Length && slots[i].Some?
      modifies slots
      ensures Valid() && View() == old(View()).(slots := old(View()).slots[i := Some(slot)])
    {
      slots[i] := Some(slot);
    }

    /** The timer of one slot: it ages, and is retried or gives the whole transfer up. */
    method TickOne(i: nat) returns (gaveUp: bool)
      requires Valid() && View().Coherent() && out.IsIdle() && !Terminal(state)
      requires i < slots.Length
      modifies this, slots
      ensures Valid() && View().Coherent() && out.IsIdle()
      ensures gaveUp ==> TickFrom(old(View()), i) == (View(), Err(RetriesExhausted))
      ensures !gaveUp ==> !Terminal(state) && TickFrom(old(View()), i) == TickFrom(View(), i + 1)
    {
      if slots[i] == None || writing == Some(i) || !slots[i].value.written || slots[i].value.needsRetransmit {
        return false;
      }
      var slot := slots[i].value;
      slot := slot.(emptyTicks := SaturatingIncrement(slot.emptyTicks, U16_MAX));
      if slot.emptyTicks < policy.timeoutTicks {
        PutSlot(i, slot);
        return false;
      }
      if slot.retriesLeft == 0 {
        ClearSlots();
        state := Tx.TxState.Failed;
        return true;
      }
      slot := slot.(retriesLeft := slot.retriesLeft - 1, needsRetransmit := true, emptyTicks := 0);
      PutSlot(i, slot);
      state := Tx.TxState.Retrying;
      mark := mark.(retransmit := true);
      return false;
    }

    /** The timer loop over the slots. */
    method Tick() returns (result: Result<TxPoll>)
      requires Valid() && View().Coherent() && WillRead(View())
      modifies this, slots
      ensures Valid() && (View(), result) == TickTimeouts(old(View()))
    {
      hide NextToWrite, SessionAlone, Empty;
      ghost var was := View();
      var i := 0;
      while i < slots.Length
        invariant 0 <= i <= slots.Length
        invariant Valid() && View().Coherent() && out.IsIdle() && !Terminal(state)
        invariant TickFrom(was, 0) == TickFrom(View(), i)
      {
        var gaveUp := TickOne(i);
        if gaveUp {
          return Err(RetriesExhausted);
        }
        i := i + 1;
      }
      return Ok(Tx.TxPoll.Pending);
    }

    method ReadOne(read: ReadAnswer) returns (result: Result<TxPoll>)
      requires Valid() && View().Coherent() && WillRead(View())
      modifies Repr
      ensures Valid() && (View(), result) == ReadStep(old(View()), read)
    {
      hide FromBytes, Push, OnControl, TickTimeouts, NextToWrite;
      match read {
        case ReadFault =>
          return Err(TransportFault);
        case NoByte =>
          result := Tick();
        case GotByte(byte) =>
          var decoded := assembler.Accept(byte);
          if decoded == None || decoded.value.Bad? {
            return Ok(Tx.TxPoll.Pending);
          }
          result := Control(decoded.value.frame);
      }
    }

    /** The poll of `Poll`, on the fields of this object. */
    method PollOnce(io: Io) returns (result: Result<TxPoll>, calls: Calls)
      requires Valid() && View().Coherent()
      modifies Repr
      ensures Valid() && View().Coherent()
      ensures Tx.Polled(View(), result, calls) == Poll(old(View()), io)
    {
      hide WriteStep, ReadStep, NextToWrite;
      if state == Tx.TxState.Failed {
        return Err(RetriesExhausted), NO_CALLS;
      }
      var n := CountOutstanding();
      if state == Tx.TxState.Aborted && n == 0 {
        return Ok(Tx.TxPoll.Aborted), NO_CALLS;
      }
      if state == Tx.TxState.Finished && n == 0 {
        return Ok(Tx.TxPoll.TransferDone), NO_CALLS;
      }
      if !out.IsIdle() {
        result, calls := WriteOne(None, io.writeOk);
        return;
      }
      var next := FindNextToWrite();
      if next.Some? {
        result, calls := WriteOne(next, io.writeOk);
        return;
      }
      result := ReadOne(io.read);
      calls := Calls(None, true);
    }
  }
}
