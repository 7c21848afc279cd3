/**
  What the selective-repeat sender does with one slot, poll by poll: which bytes
  go on the wire for it, and what each word the peer can answer with does to it.
 */
module WindowFlights {
  import opened Prelude
  import opened Wire
  import opened Framing
  import Tx
  import WindowTx
  import opened Polls

  // ------------------------------------------------------------ onto the wire

  /** What a slot says to the peer. */
  function Meaning(s: WindowTx.TxSlot): Frame {
    match s.kind
    case Data => DataFrame(s.num, s.payload)
    case Start => StartFrame()
    case Finish => FinishFrame(s.num)
    case Abort => AbortFrame()
  }

  lemma MeaningOnWire(s: WindowTx.TxSlot)
    ensures FromBytes(ToBytes(WindowTx.FrameOf(s))) == Good(Meaning(s))
  {
    hide FromBytes, ToBytes;
    DecodeEncode(Meaning(s));
    assert WindowTx.FrameOf(s) == Meaning(s);
  }

  /** Slot `i` is the one being written, or the next one due. */
  predicate Due(t: WindowTx.Model, i: nat) {
    && i < |t.slots| && t.slots[i].Some?
    && (if t.out.Idle() then WindowTx.NextToWrite(t.slots) == Some(i) else t.writing == Some(i))
  }

  function Out(t: WindowTx.Model): nat {
    if t.out.Idle() then 0 else t.out.pos
  }

  /** `k` bytes of the frame in slot `i` are out. */
  function Writing(t: WindowTx.Model, i: nat, word: Word, k: nat): WindowTx.Model {
    t.(out := Outgoing(word, k), writing := Some(i), state := Tx.TxState.Sending)
  }

  /** All four are, and nothing of an answer was read yet. */
  function Sent(t: WindowTx.Model, i: nat, word: Word): WindowTx.Model
    requires i < |t.slots| && t.slots[i].Some?
  {
    t.(out := Outgoing(word, FRAME_LEN), writing := None, state := Tx.TxState.WaitingAck,
       slots := t.slots[i := Some(t.slots[i].value.(written := true, needsRetransmit := false, emptyTicks := 0))],
       asm := t.asm.(buf := []), mark := t.mark.(frameOnWire := true))
  }

  lemma WritesFirst(t: WindowTx.Model, io: Io, i: nat, word: Word)
    requires t.Coherent() && !WindowTx.Terminal(t.state) && t.out.Idle() && Due(t, i) && io.writeOk
    requires word == ToBytes(WindowTx.FrameOf(t.slots[i].value))
    ensures WindowTx.Poll(t, io) ==
      Tx.Polled(Writing(t, i, word, 1), Ok(Tx.TxPoll.Pending), Calls(Some(word[0]), false))
  {
    hide ToBytes, WindowTx.NextToWrite, WindowTx.SessionAlone;
  }

  lemma WritesNext(t: WindowTx.Model, io: Io, i: nat, word: Word, k: nat)
    requires t.Coherent() && !WindowTx.Terminal(t.state) && t.writing == Some(i) && io.writeOk
    requires t.out == Outgoing(word, k) && k < 4
    ensures i < |t.slots| && t.slots[i].Some?
    ensures WindowTx.Poll(t, io) ==
      Tx.Polled(if k < 3 then t.(out := Outgoing(word, k + 1)) else Sent(t, i, word),
                Ok(Tx.TxPoll.Pending), Calls(Some(word[k]), false))
  {
    hide WindowTx.NextToWrite, WindowTx.SessionAlone;
  }

  lemma FourBytesOut(t: WindowTx.Model, ios: seq<Io>, i: nat, word: Word)
    requires t.Coherent() && !WindowTx.Terminal(t.state) && t.out.Idle() && Due(t, i) && Takes(ios, FRAME_LEN)
    requires word == ToBytes(WindowTx.FrameOf(t.slots[i].value))
    ensures OfWindowSender(t, ios) == Trace(Sent(t, i, word), AllPending(4), word)
  {
    hide WindowTx.Poll, ToBytes, OfWindowSender, WindowTx.NextToWrite, WindowTx.SessionAlone, WindowTx.Empty;
    FourOfWindowSender(t, ios);
    WritesFirst(t, ios[0], i, word);
    WritesNext(Writing(t, i, word, 1), ios[1], i, word, 1);
    WritesNext(Writing(t, i, word, 2), ios[2], i, word, 2);
    WritesNext(Writing(t, i, word, 3), ios[3], i, word, 3);
    assert Sent(Writing(t, i, word, 3), i, word) == Sent(t, i, word);
    assert [word[0]] + [word[1]] + [word[2]] + [word[3]] == word;
  }

  /** Four polls that can write put exactly the frame of the slot that is due on the wire. */
  lemma SlotGoesOut(t: WindowTx.Model, ios: seq<Io>, i: nat)
    requires t.Coherent() && !WindowTx.Terminal(t.state) && t.out.Idle() && Due(t, i) && Takes(ios, FRAME_LEN)
    ensures
      var r := OfWindowSender(t, ios);
      && r.said == AllPending(4)
      && |r.wrote| == FRAME_LEN && FromBytes(r.wrote) == Good(Meaning(t.slots[i].value))
      && r.end == Sent(t, i, r.wrote)
  {
    hide ToBytes, FromBytes, OfWindowSender, Sent, Due, WindowTx.SessionAlone, WindowTx.Empty;
    DueSlot(t, i);
    MeaningOnWire(t.slots[i].value);
    FourBytesOut(t, ios, i, ToBytes(WindowTx.FrameOf(t.slots[i].value)));
  }

  lemma DueSlot(t: WindowTx.Model, i: nat)
    requires Due(t, i)
    ensures i < |t.slots| && t.slots[i].Some?
  {
  }

  /** Slot `i` is the only one there is something to write for. */
  predicate OnlyUnsent(t: WindowTx.Model, i: nat) {
    && i < |t.slots| && t.slots[i].Some? && t.slots[i].value.Unsent()
    && forall j :: 0 <= j < |t.slots| && j != i && t.slots[j].Some? ==> !t.slots[j].value.Unsent()
  }

  lemma OnlyUnsentIsDue(t: WindowTx.Model, i: nat)
    requires OnlyUnsent(t, i) && t.out.Idle()
    ensures Due(t, i)
  {
    hide WindowTx.FirstRetransmit, WindowTx.FirstNew;
    var r := WindowTx.NextToWrite(t.slots);
    assert r.Some?;
  }

  /** The four polls after an offer into slot `i`: its frame is out, and waits with every retry of the policy left. */
  predicate FromOffer(r: Trace<WindowTx.Model, Tx.TxPoll>, i: nat, f: Frame, policy: Tx.RetryPolicy) {
    && r.said == AllPending(4)
    && |r.wrote| == FRAME_LEN && FromBytes(r.wrote) == Good(f)
    && i < |r.end.slots| && r.end.slots[i].Some?
    && Meaning(r.end.slots[i].value) == f
    && r.end.slots[i].value.retriesLeft == policy.maxRetries && r.end.slots[i].value.emptyTicks == 0
    && !r.end.slots[i].value.Unsent()
  }

  lemma OfferGoesOut(t: WindowTx.Model, ios: seq<Io>, i: nat)
    requires t.Coherent() && !WindowTx.Terminal(t.state) && t.out.Idle() && OnlyUnsent(t, i) && Takes(ios, FRAME_LEN)
    requires t.slots[i].value.retriesLeft == t.policy.maxRetries
    ensures FromOffer(OfWindowSender(t, ios), i, Meaning(t.slots[i].value), t.policy)
    ensures OfWindowSender(t, ios).end.slots[i].value.num == t.slots[i].value.num
    ensures OfWindowSender(t, ios).end.nextSeq == t.nextSeq && OfWindowSender(t, ios).end.policy == t.policy
    ensures !t.asm.resync ==> Listening(OfWindowSender(t, ios).end)
    ensures forall j :: 0 <= j < |t.slots| && j != i ==> OfWindowSender(t, ios).end.slots[j] == t.slots[j]
  {
    hide FromBytes, OfWindowSender, Due, WindowTx.NextToWrite, WindowTx.SessionAlone, WindowTx.Empty, Listening;
    OnlyUnsentIsDue(t, i);
    SlotGoesOut(t, ios, i);
    if !t.asm.resync {
      AllSent(OfWindowSender(t, ios).end);
    }
  }

  lemma AllSent(t: WindowTx.Model)
    requires t.Coherent() && t.out.Idle() && !WindowTx.Terminal(t.state) && t.asm == FRESH_PLAIN
    requires forall j :: 0 <= j < |t.slots| && t.slots[j].Some? ==> !t.slots[j].value.Unsent()
    ensures Listening(t)
  {
    hide WindowTx.FirstRetransmit, WindowTx.FirstNew;
  }

  /** One more flight, in the first free slot, with the SEQ and retries it starts with. */
  predicate Inserted(t: WindowTx.Model, n: WindowTx.Model, f: Frame) {
    && n.Coherent() && !WindowTx.Terminal(n.state) && n.out.Idle()
    && OnlyUnsent(n, 0) && Meaning(n.slots[0].value) == f && n.slots[0].value.num == f.num
    && n.slots[0].value.retriesLeft == n.policy.maxRetries
    && n.policy == t.policy && n.asm.resync == t.asm.resync && |n.slots| == |t.slots|
    && (forall j :: 0 < j < |n.slots| ==> n.slots[j] == None)
  }

  /** What an offer into an empty window puts in slot 0; an ABORT empties the window itself. */
  lemma OffersInsert(t: WindowTx.Model, byte: u8)
    requires t.Coherent()
    ensures
      var (n, r) := WindowTx.OfferStart(t);
      && (r.Ok? <==> WindowTx.Empty(t.slots))
      && (r.Ok? ==> Inserted(t, n, StartFrame()) && n.nextSeq == 0)
    ensures
      var (n, r) := WindowTx.Offer(t, byte);
      WindowTx.Empty(t.slots) && !WindowTx.Terminal(t.state) ==>
        r.Ok? && Inserted(t, n, DataFrame(t.nextSeq, byte)) && n.nextSeq == Advance(t.nextSeq)
    ensures
      var (n, r) := WindowTx.OfferFinish(t);
      && (r.Ok? <==> WindowTx.Empty(t.slots) && !WindowTx.Terminal(t.state))
      && (r.Ok? ==> Inserted(t, n, FinishFrame(t.nextSeq)) && n.nextSeq == t.nextSeq)
    ensures
      var (n, r) := WindowTx.OfferAbort(t);
      && r == Ok(())
      && (n != t ==> Inserted(t, n, AbortFrame()) && n.nextSeq == 0)
  {
    hide WindowTx.SessionAlone;
  }

  /** What every offer into an empty window puts on the wire; for ABORT the window need not be empty. */
  lemma OffersGoOut(t: WindowTx.Model, byte: u8, ios: seq<Io>)
    requires t.Coherent() && Takes(ios, FRAME_LEN)
    ensures
      var (n, r) := WindowTx.OfferStart(t);
      r.Ok? ==> FromOffer(OfWindowSender(n, ios), 0, StartFrame(), t.policy)
    ensures
      var (n, r) := WindowTx.Offer(t, byte);
      r.Ok? && WindowTx.Empty(t.slots) ==> FromOffer(OfWindowSender(n, ios), 0, DataFrame(t.nextSeq, byte), t.policy)
    ensures
      var (n, r) := WindowTx.OfferFinish(t);
      r.Ok? ==> FromOffer(OfWindowSender(n, ios), 0, FinishFrame(t.nextSeq), t.policy)
    ensures
      var (n, r) := WindowTx.OfferAbort(t);
      n != t ==> FromOffer(OfWindowSender(n, ios), 0, AbortFrame(), t.policy)
  {
    hide FromBytes, OfWindowSender, FromOffer, WindowTx.OfferStart, WindowTx.OfferAbort, WindowTx.OfferFinish,
      WindowTx.SessionAlone;
    OffersInsert(t, byte);
    if WindowTx.OfferStart(t).1.Ok? { OfferGoesOut(WindowTx.OfferStart(t).0, ios, 0); }
    if WindowTx.Offer(t, byte).1.Ok? && WindowTx.Empty(t.slots) { OfferGoesOut(WindowTx.Offer(t, byte).0, ios, 0); }
    if WindowTx.OfferFinish(t).1.Ok? { OfferGoesOut(WindowTx.OfferFinish(t).0, ios, 0); }
    if WindowTx.OfferAbort(t).0 != t { OfferGoesOut(WindowTx.OfferAbort(t).0, ios, 0); }
  }

  /**
    What is refused changes nothing, and why is told: `WindowFull` asks for
    patience, `NotIdle` says that the session is ending, over or not yet open.
   */
  lemma OffersRefused(t: WindowTx.Model, byte: u8)
    requires t.Coherent()
    ensures
      var (n, r) := WindowTx.Offer(t, byte);
      r.Err? ==> n == t && r == Err(if WindowTx.Terminal(t.state) || SessionOutstanding(t) then NotIdle else WindowFull)
    ensures WindowTx.Offer(t, byte).1.Ok? ==> !WindowTx.Terminal(t.state) && !SessionOutstanding(t)
    ensures WindowTx.OfferStart(t).1.Err? ==> WindowTx.OfferStart(t) == (t, Err(NotIdle))
    ensures WindowTx.OfferFinish(t).1.Err? ==> WindowTx.OfferFinish(t) == (t, Err(NotIdle))
  {
    hide WindowTx.InSendWindow, WindowTx.SessionAlone;
    assert SessionOutstanding(t) <==> exists i :: 0 <= i < |t.slots| && WindowTx.IsSession(t.slots[i]);
  }

  /** START, FINISH or ABORT is under way. */
  predicate SessionOutstanding(t: WindowTx.Model) {
    exists i :: 0 <= i < |t.slots| && t.slots[i].Some? && t.slots[i].value.kind != WindowTx.FlightKind.Data
  }

  // ------------------------------------------------------------ answers

  /** Every frame is out, and nothing of the next word was read. */
  predicate Listening(t: WindowTx.Model) {
    t.Coherent() && WindowTx.WillRead(t) && t.asm == FRESH_PLAIN
  }

  function Acted(t: WindowTx.Model, d: Decoded): (n: (WindowTx.Model, Result<Tx.TxPoll>))
    requires t.Coherent() && WindowTx.WillRead(t)
    ensures n.0.Coherent()
  {
    if d.Good? then WindowTx.OnControl(t, d.frame) else (t, Ok(Tx.TxPoll.Pending))
  }

  lemma ReadsOne(t: WindowTx.Model, io: Io)
    requires t.Coherent() && WindowTx.WillRead(t) && io.read.GotByte? && |t.asm.buf| < 3
    ensures
      var u := t.(asm := t.asm.(buf := t.asm.buf + [io.read.byte]));
      && u.Coherent() && WindowTx.WillRead(u)
      && WindowTx.Poll(t, io) == Tx.Polled(u, Ok(Tx.TxPoll.Pending), Calls(None, true))
  {
    hide FromBytes, WindowTx.OnControl, WindowTx.NextToWrite, WindowTx.SessionAlone, WindowTx.Empty;
  }

  lemma ReadsLast(t: WindowTx.Model, io: Io, word: Word)
    requires t.Coherent() && WindowTx.WillRead(t) && io.read.GotByte? && !t.asm.resync
    requires |t.asm.buf| == 3 && t.asm.buf + [io.read.byte] == word
    ensures
      var p, u := WindowTx.Poll(t, io), t.(asm := FRESH_PLAIN);
      && u.Coherent() && WindowTx.WillRead(u)
      && p.calls == Calls(None, true)
      && (p.next, p.result) == Acted(u, FromBytes(word))
  {
    hide FromBytes, KnownType, WindowTx.OnControl, WindowTx.NextToWrite, WindowTx.SessionAlone, WindowTx.Empty;
    assert Push(t.asm, io.read.byte) == (FRESH_PLAIN, Some(word));
  }

  /** Reading four bytes: the first three polls say nothing, the fourth acts on the word. */
  lemma FourReads(t: WindowTx.Model, ios: seq<Io>, word: Word)
    requires Listening(t) && Hears(ios, word)
    ensures
      var r := OfWindowSender(t, ios);
      r.said[..3] == AllPending(3) && r.wrote == [] && (r.end, r.said[3]) == Acted(t, FromBytes(word))
  {
    hide WindowTx.Poll, FromBytes, OfWindowSender, Acted, WindowTx.WillRead, WindowTx.Model.Coherent;
    FourOfWindowSender(t, ios);
    ReadsOne(t, ios[0]);
    var t1 := t.(asm := Assembly([] + [word[0]], false));
    ReadsOne(t1, ios[1]);
    var t2 := t.(asm := Assembly([] + [word[0]] + [word[1]], false));
    ReadsOne(t2, ios[2]);
    var t3 := t.(asm := Assembly([] + [word[0]] + [word[1]] + [word[2]], false));
    assert t3.asm.buf + [word[3]] == word;
    ReadsLast(t3, ios[3], word);
    assert t3.(asm := FRESH_PLAIN) == t;
  }

  /** The slot that an answer about `num` is about. */
  predicate IsAbout(t: WindowTx.Model, num: seqno, i: nat) {
    && i < |t.slots| && t.slots[i].Some? && t.slots[i].value.num == num
    && forall j :: 0 <= j < i && t.slots[j].Some? ==> t.slots[j].value.num != num
  }

  lemma FoundAbout(t: WindowTx.Model, num: seqno, i: nat)
    requires WindowTx.WillRead(t) && IsAbout(t, num, i)
    ensures WindowTx.FindSeq(t.slots, num) == Some(i)
    ensures t.slots[i].value.written && !t.slots[i].value.needsRetransmit
  {
    hide WindowTx.NextToWrite;
    var r := WindowTx.FindSeq(t.slots, num);
    assert WindowTx.Carries(t.slots[i], num);
    assert r.Some?;
  }

  /** What the sender reports when a slot is acknowledged. */
  function Settled(kind: WindowTx.FlightKind): Tx.TxPoll {
    match kind
    case Data => Tx.TxPoll.Acked
    case Start => Tx.TxPoll.SessionReady
    case Finish => Tx.TxPoll.TransferDone
    case Abort => Tx.TxPoll.Aborted
  }

  /** ACK frees exactly the slot it is about, whatever the order of the answers, and is reported by that slot's kind. */
  lemma AckSettles(t: WindowTx.Model, ios: seq<Io>, word: Word, i: nat)
    requires Listening(t) && Hears(ios, word) && FromBytes(word).Good?
    requires FromBytes(word).frame == AckFrame(FromBytes(word).frame.num) && IsAbout(t, FromBytes(word).frame.num, i)
    ensures
      var r, kind := OfWindowSender(t, ios), t.slots[i].value.kind;
      && r.said == AllPending(3) + [Ok(Settled(kind))] && r.wrote == []
      && r.end.slots == t.slots[i := None] && r.end.asm == FRESH_PLAIN
      && r.end.nextSeq == (if kind.Start? then 0 else t.nextSeq)
      && r.end.state == (if kind.Finish? then Tx.TxState.Finished
                         else if kind.Abort? then Tx.TxState.Aborted
                         else if WindowTx.Empty(r.end.slots) then Tx.TxState.Idle
                         else Tx.TxState.WaitingAck)
  {
    hide FromBytes, OfWindowSender, WindowTx.FindSeq, WindowTx.NextToWrite;
    FourReads(t, ios, word);
    LastOfFour(OfWindowSender(t, ios).said);
    FoundAbout(t, FromBytes(word).frame.num, i);
    assert WindowTx.IsSession(t.slots[i]) ==> WindowTx.Empty(t.slots[i := None]);
  }

  /**
    NACK with retries left: none of the four polls that read it says anything,
    and the next four polls that can write put the frame of that slot on the
    wire again, one retry poorer.  No other slot changes, not even its timer.
   */
  lemma NackSendsAgain(t: WindowTx.Model, ios: seq<Io>, word: Word, i: nat, again: seq<Io>)
    requires Listening(t) && Hears(ios, word) && Takes(again, FRAME_LEN) && FromBytes(word).Good?
    requires FromBytes(word).frame == NackFrame(FromBytes(word).frame.num) && IsAbout(t, FromBytes(word).frame.num, i)
    requires t.slots[i].value.retriesLeft > 0
    ensures
      var s := t.slots[i].value;
      var heard := OfWindowSender(t, ios);
      var wrote := OfWindowSender(heard.end, again);
      && heard.said == AllPending(4) && heard.wrote == []
      && wrote.said == AllPending(4)
      && |wrote.wrote| == FRAME_LEN && FromBytes(wrote.wrote) == Good(Meaning(s))
      && wrote.end.slots == t.slots[i := Some(s.(retriesLeft := s.retriesLeft - 1, emptyTicks := 0))]
      && Listening(wrote.end)
      && wrote.end.nextSeq == t.nextSeq && wrote.end.limit == t.limit && wrote.end.policy == t.policy
  {
    hide FromBytes, OfWindowSender, WindowTx.NextToWrite, Acted, WindowTx.SessionAlone, WindowTx.Empty, Due;
    var num := FromBytes(word).frame.num;
    FourReads(t, ios, word);
    LastOfFour(OfWindowSender(t, ios).said);
    Nacked(t, num, i);
    var n := OfWindowSender(t, ios).end;
    OnlyUnsentIsDue(n, i);
    SlotGoesOut(n, again, i);
    AllSent(OfWindowSender(n, again).end);
  }

  lemma Nacked(t: WindowTx.Model, num: seqno, i: nat)
    requires Listening(t) && IsAbout(t, num, i) && t.slots[i].value.retriesLeft > 0
    ensures
      var s := t.slots[i].value;
      var (n, said) := Acted(t, Good(NackFrame(num)));
      && said == Ok(Tx.TxPoll.Pending)
      && n.slots == t.slots[i := Some(s.(retriesLeft := s.retriesLeft - 1, needsRetransmit := true, emptyTicks := 0))]
      && n == t.(slots := n.slots, state := Tx.TxState.Retrying, mark := n.mark)
      && OnlyUnsent(n, i)
  {
    hide WindowTx.FindSeq, WindowTx.NextToWrite, WindowTx.SessionAlone, WindowTx.Empty;
    FoundAbout(t, num, i);
  }

  /** NACK with no retry left: the whole window is given up on, for good. */
  lemma NackExhausts(t: WindowTx.Model, ios: seq<Io>, word: Word, i: nat, later: seq<Io>)
    requires Listening(t) && Hears(ios, word) && FromBytes(word).Good?
    requires FromBytes(word).frame == NackFrame(FromBytes(word).frame.num) && IsAbout(t, FromBytes(word).frame.num, i)
    requires t.slots[i].value.retriesLeft == 0
    ensures
      var r := OfWindowSender(t, ios);
      && r.said == AllPending(3) + [Err(RetriesExhausted)] && r.wrote == []
      && WindowTx.Empty(r.end.slots)
      && OfWindowSender(r.end, later).wrote == []
      && forall k :: 0 <= k < |later| ==> OfWindowSender(r.end, later).said[k] == Err(RetriesExhausted)
  {
    hide FromBytes, OfWindowSender, WindowTx.FindSeq, WindowTx.NextToWrite, WindowTx.SessionAlone, WindowTx.Empty;
    FourReads(t, ios, word);
    LastOfFour(OfWindowSender(t, ios).said);
    FoundAbout(t, FromBytes(word).frame.num, i);
    Rests(OfWindowSender(t, ios).end, later);
  }

  /** An answer about a SEQ no slot carries, and a word that is no answer, change nothing at all. */
  lemma OthersAreIgnored(t: WindowTx.Model, ios: seq<Io>, word: Word)
    requires Listening(t) && Hears(ios, word)
    requires FromBytes(word).Good? ==>
      var f := FromBytes(word).frame;
      if f.kind == FrameType.Ack || f.kind == FrameType.Nack
      then forall j :: 0 <= j < |t.slots| && t.slots[j].Some? ==> t.slots[j].value.num != f.num
      else f.kind != FrameType.Abort
    ensures OfWindowSender(t, ios) == Trace(t, AllPending(4), [])
  {
    hide FromBytes, OfWindowSender, WindowTx.NextToWrite, WindowTx.SessionAlone, WindowTx.Empty;
    FourReads(t, ios, word);
    LastOfFour(OfWindowSender(t, ios).said);
  }

  /** The peer's ABORT empties the window; nothing is written until a new offer. */
  lemma AbortCutsOff(t: WindowTx.Model, ios: seq<Io>, word: Word, later: seq<Io>)
    requires Listening(t) && Hears(ios, word) && FromBytes(word) == Good(AbortFrame())
    ensures
      var r := OfWindowSender(t, ios);
      && r.said == AllPending(3) + [Ok(Tx.TxPoll.Aborted)] && r.wrote == []
      && WindowTx.Empty(r.end.slots)
      && OfWindowSender(r.end, later).wrote == []
      && forall k :: 0 <= k < |later| ==> OfWindowSender(r.end, later).said[k] == Ok(Tx.TxPoll.Aborted)
  {
    hide FromBytes, OfWindowSender, WindowTx.NextToWrite, WindowTx.SessionAlone, WindowTx.Empty;
    FourReads(t, ios, word);
    LastOfFour(OfWindowSender(t, ios).said);
    EmptyIsEmpty(|t.slots|);
    Rests(OfWindowSender(t, ios).end, later);
  }

  lemma EmptyIsEmpty(n: nat)
    ensures WindowTx.Empty(WindowTx.EmptySlots(n))
  {
  }

  // ------------------------------------------------------------ at rest, and faults

  /** A sender that failed, aborted or finished gives the same answer for ever, and writes nothing. */
  lemma {:induction false} Rests(t: WindowTx.Model, ios: seq<Io>)
    requires t.Coherent() && WindowTx.Terminal(t.state)
    ensures
      var r := OfWindowSender(t, ios);
      && r.end == t && r.wrote == []
      && forall k :: 0 <= k < |ios| ==> r.said[k] == AtRest(t.state)
    decreases |ios|
  {
    if ios != [] {
      RestsOnce(t, ios[0]);
      hide WindowTx.Poll, AtRest;
      Rests(t, ios[1..]);
    }
  }

  lemma RestsOnce(t: WindowTx.Model, io: Io)
    requires t.Coherent() && WindowTx.Terminal(t.state)
    ensures WindowTx.Poll(t, io) == Tx.Polled(t, AtRest(t.state), NO_CALLS)
  {
  }

  /** A transport that fails costs nothing: the poll after it does what this one would have done. */
  lemma FaultsAreHarmless(t: WindowTx.Model, fault: Io, io: Io)
    requires t.Coherent() && !WindowTx.Terminal(t.state)
    requires if WindowTx.WillWrite(t) then !fault.writeOk else fault.read.ReadFault?
    ensures
      var p := WindowTx.Poll(t, fault);
      && p.result == Err(TransportFault) && p.calls.wrote == None
      && WindowTx.Poll(p.next, io) == WindowTx.Poll(t, io)
  {
    hide FromBytes, ToBytes, Push, WindowTx.NextToWrite, WindowTx.SessionAlone, WindowTx.Empty, WindowTx.OnControl,
      WindowTx.TickTimeouts;
  }
}
