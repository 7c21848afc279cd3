/**
  The send window over whole runs.  Every DATA byte gets an unbounded index (how
  many were offered before it); the code only ever sees the index modulo 256.
  Against any peer, with any bytes arriving and any write failing, the slots
  stay inside one window of `limit` indices, so the code's wrapping comparison
  finds the true oldest, and first transmissions happen in index order.
 */
module SendWindow {
  import opened Prelude
  import opened Wire
  import opened Framing
  import Tx
  import opened WindowTx

  /**
    A sender together with the indices its code forgets: the index held by each
    slot, the number of bytes offered, and the log of first transmissions.
   */
  datatype Tracked = Tracked(tx: Model, ix: seq<nat>, next: nat, log: seq<nat>)

  /** What the index of one slot must be. */
  ghost predicate SlotOk(s: Option<TxSlot>, ix: nat, next: nat, limit: nat) {
    s.Some? ==>
      && s.value.num == SeqOf(ix)
      && (!s.value.written ==> !s.value.needsRetransmit)
      && match s.value.kind
         case Data => ix < next <= ix + limit
         case Finish => ix == next
         case _ => false
  }

  predicate IsNewData(s: Option<TxSlot>) {
    s.Some? && s.value.kind.Data? && !s.value.written
  }

  predicate IsOldData(s: Option<TxSlot>) {
    s.Some? && s.value.kind.Data? && s.value.written
  }

  /** No two occupied slots hold the same index. */
  ghost predicate Distinct(slots: Slots, ix: seq<nat>)
    requires |ix| == |slots|
  {
    forall i, j :: 0 <= i < j < |slots| && slots[i].Some? && slots[j].Some? ==> ix[i] != ix[j]
  }

  /** Never-written slots appear in index order, ahead of every free slot. */
  ghost predicate NewInOrder(slots: Slots, ix: seq<nat>)
    requires |ix| == |slots|
  {
    forall i, j :: 0 <= i < j < |slots| && IsNewData(slots[j]) ==>
      slots[i].Some? && (IsNewData(slots[i]) ==> ix[i] < ix[j])
  }

  /** Exactly the indices below `sent` were written at least once. */
  ghost predicate Split(slots: Slots, ix: seq<nat>, sent: nat)
    requires |ix| == |slots|
  {
    forall i :: 0 <= i < |slots| ==>
      (IsNewData(slots[i]) ==> sent <= ix[i]) && (IsOldData(slots[i]) ==> ix[i] < sent)
  }

  ghost predicate NewAt(slots: Slots, ix: seq<nat>, i: int, k: nat)
    requires |ix| == |slots|
  {
    0 <= i < |slots| && IsNewData(slots[i]) && ix[i] == k
  }

  ghost predicate Held(slots: Slots, ix: seq<nat>, k: nat)
    requires |ix| == |slots|
  {
    exists i :: NewAt(slots, ix, i, k)
  }

  /** Every index not yet transmitted sits in a slot. */
  ghost predicate Waiting(slots: Slots, ix: seq<nat>, sent: nat, next: nat)
    requires |ix| == |slots|
  {
    forall k: nat :: sent <= k < next ==> Held(slots, ix, k)
  }

  ghost predicate Counted(log: seq<nat>) {
    forall k :: 0 <= k < |log| ==> log[k] == k
  }

  ghost predicate Inv(w: Tracked) {
    var t, sent := w.tx, |w.log|;
    && t.Coherent()
    && |w.ix| == |t.slots|
    && t.nextSeq == SeqOf(w.next)
    && Counted(w.log)
    && sent <= w.next
    && (forall i :: 0 <= i < |w.ix| ==> SlotOk(t.slots[i], w.ix[i], w.next, t.limit))
    && Distinct(t.slots, w.ix)
    && NewInOrder(t.slots, w.ix)
    && Split(t.slots, w.ix, sent)
    && (!Terminal(t.state) ==> Waiting(t.slots, w.ix, sent, w.next))
    && (t.writing.Some? && IsNewData(t.slots[t.writing.value]) ==> w.ix[t.writing.value] == sent)
  }

  /** A sender at power-up with its window limit set. */
  function Start(n: nat, limit: nat, policy: Tx.RetryPolicy): (w: Tracked)
    requires 1 <= n <= MAX_WINDOW
    ensures w.tx.Coherent() && |w.ix| == |w.tx.slots|
  {
    Tracked(SetLimit(WindowTx.Fresh(n, policy), limit), seq(n, _ => 0), 0, [])
  }

  lemma StartIsInv(n: nat, limit: nat, policy: Tx.RetryPolicy)
    requires 1 <= n <= MAX_WINDOW
    ensures Inv(Start(n, limit, policy))
  {
  }

  // ------------------------------------------------------------ the true oldest

  /** Occupied slots carry their index modulo 256 and lie within `limit` indices from `low`. */
  ghost predicate InOneWindow(slots: Slots, ix: seq<nat>, low: int, limit: nat)
    requires |ix| == |slots|
  {
    forall i :: 0 <= i < |slots| && slots[i].Some? ==>
      slots[i].value.num == SeqOf(ix[i]) && low <= ix[i] < low + limit
  }

  lemma SlotsInOneWindow(w: Tracked) returns (low: int)
    requires Inv(w)
    ensures InOneWindow(w.tx.slots, w.ix, low, w.tx.limit)
    ensures !HasSession(w.tx.slots) ==> low == w.next - w.tx.limit
    ensures low <= w.next
  {
    low := w.next - w.tx.limit;
    if i :| 0 <= i < |w.ix| && IsSession(w.tx.slots[i]) {
      low := w.next;
      forall j | 0 <= j < |w.ix| && w.tx.slots[j].Some?
        ensures w.ix[j] == w.next
      {
        assert j == i;
        assert SlotOk(w.tx.slots[i], w.ix[i], w.next, w.tx.limit);
      }
    }
    forall j | 0 <= j < |w.ix| && w.tx.slots[j].Some?
      ensures w.tx.slots[j].value.num == SeqOf(w.ix[j]) && low <= w.ix[j] < low + w.tx.limit
    {
      assert SlotOk(w.tx.slots[j], w.ix[j], w.next, w.tx.limit);
    }
  }

  ghost predicate IsOldest(slots: Slots, ix: seq<nat>, k: nat, i: int)
    requires |ix| == |slots| && k <= |slots|
  {
    && 0 <= i < k
    && slots[i].Some?
    && forall j :: 0 <= j < k && slots[j].Some? ==> ix[i] <= ix[j]
  }

  /** One wrapping comparison picks the smaller of two nearby indices. */
  lemma OlderIsSmaller(base: nat, other: nat, limit: nat)
    requires limit <= MAX_WINDOW && -(limit as int) < other - base < limit
    ensures Older(Some(SeqOf(base)), SeqOf(other), limit) == SeqOf(if other < base then other else base)
  {
    WrapSubOfIndices(other, base);
  }

  /** The wrapping scan over the first `k` slots finds the slot with the least index. */
  lemma {:induction false} OldestIsLeast(slots: Slots, ix: seq<nat>, low: int, limit: nat, k: nat) returns (i: nat)
    requires |ix| == |slots| && limit <= MAX_WINDOW && k <= |slots|
    requires InOneWindow(slots, ix, low, limit)
    requires exists j :: 0 <= j < k && slots[j].Some?
    ensures IsOldest(slots, ix, k, i)
    ensures OldestOf(slots, limit, k) == Some(SeqOf(ix[i]))
  {
    hide Older;
    if exists j :: 0 <= j < k - 1 && slots[j].Some? {
      i := OldestIsLeast(slots, ix, low, limit, k - 1);
      if slots[k - 1].Some? {
        OlderIsSmaller(ix[i], ix[k - 1], limit);
        if ix[k - 1] < ix[i] {
          i := k - 1;
        }
      }
    } else {
      i := k - 1;
      assert OldestOf(slots, limit, k - 1) == None;
      assert Older(None, slots[i].value.num, limit) == slots[i].value.num by { OlderOfNone(slots[i].value.num, limit); }
    }
  }

  lemma OlderOfNone(num: seqno, limit: nat)
    ensures Older(None, num, limit) == num
  {
  }

  /**
    In every reachable state outstanding SEQ bytes are distinct, all lie in
    `[oldest, oldest + limit)`, and `oldest_unacked` is the true oldest.
   */
  lemma OutstandingInWindow(w: Tracked) returns (oldest: int)
    requires Inv(w)
    ensures OldestUnacked(w.tx) == None <==> Empty(w.tx.slots)
    ensures !Empty(w.tx.slots) ==>
      && IsOldest(w.tx.slots, w.ix, |w.ix|, oldest)
      && OldestUnacked(w.tx) == Some(SeqOf(w.ix[oldest]))
      && forall j :: 0 <= j < |w.ix| && w.tx.slots[j].Some? ==> w.ix[oldest] <= w.ix[j] < w.ix[oldest] + w.tx.limit
    ensures forall i, j :: 0 <= i < j < |w.ix| && w.tx.slots[i].Some? && w.tx.slots[j].Some? ==>
      w.tx.slots[i].value.num != w.tx.slots[j].value.num
  {
    hide OldestOf;
    var low := SlotsInOneWindow(w);
    oldest := 0;
    if !Empty(w.tx.slots) {
      oldest := OldestIsLeast(w.tx.slots, w.ix, low, w.tx.limit, |w.ix|);
    }
    forall i, j | 0 <= i < j < |w.ix| && w.tx.slots[i].Some? && w.tx.slots[j].Some?
      ensures w.tx.slots[i].value.num != w.tx.slots[j].value.num
    {
      SeqOfInjective(w.ix[i], w.ix[j]);
    }
  }

  lemma BehindBy(next: nat, ix: nat, limit: nat)
    requires 0 <= next - ix <= limit <= MAX_WINDOW
    ensures WrapSub(SeqOf(next), SeqOf(ix)) == next - ix
  {
    WrapSubOfIndices(next, ix);
  }

  /** The window test admits a new byte exactly when every outstanding index stays within `limit` of it. */
  lemma WindowTestIsExact(w: Tracked)
    requires Inv(w) && !HasSession(w.tx.slots)
    ensures InSendWindow(w.tx, w.tx.nextSeq) <==>
      forall j :: 0 <= j < |w.ix| && w.tx.slots[j].Some? ==> w.next + 1 <= w.ix[j] + w.tx.limit
  {
    hide OldestOf, HasSession, WrapSub, SeqOf, Distinct, NewInOrder, Split, Waiting, Counted;
    var low := SlotsInOneWindow(w);
    if !Empty(w.tx.slots) {
      var i := OldestIsLeast(w.tx.slots, w.ix, low, w.tx.limit, |w.ix|);
      assert 0 <= w.next - w.ix[i] <= w.tx.limit;
      BehindBy(w.next, w.ix[i], w.tx.limit);
      assert InSendWindow(w.tx, w.tx.nextSeq) <==> w.next - w.ix[i] < w.tx.limit;
    }
  }

  // ------------------------------------------------------------ steps

  /** Offer one byte. */
  function StepOffer(w: Tracked, byte: u8): Tracked
    requires w.tx.Coherent() && |w.ix| == |w.tx.slots|
  {
    var (t, r) := Offer(w.tx, byte);
    if r.Ok? then w.(tx := t, ix := w.ix[FindFree(w.tx.slots).value := w.next], next := w.next + 1)
    else w
  }

  function StepOfferFinish(w: Tracked): Tracked
    requires w.tx.Coherent() && |w.ix| == |w.tx.slots|
  {
    var (t, r) := OfferFinish(w.tx);
    if r.Ok? then w.(tx := t, ix := w.ix[FindFree(w.tx.slots).value := w.next])
    else w
  }

  /** The slot a write step is writing. */
  function Target(t: Model): (i: nat)
    requires t.Coherent() && WillWrite(t)
    ensures i < |t.slots| && t.slots[i].Some? && t.slots[i].value.Unsent()
  {
    if t.out.Idle() then NextToWrite(t.slots).value else t.writing.value
  }

  /** Write one byte; completing a DATA frame for the first time is logged. */
  function StepWrite(w: Tracked, writeOk: bool): Tracked
    requires w.tx.Coherent() && WillWrite(w.tx) && |w.ix| == |w.tx.slots|
  {
    var i := Target(w.tx);
    var t := WriteStep(w.tx, writeOk).next;
    w.(tx := t, log := if t.out.Idle() && IsNewData(w.tx.slots[i]) then w.log + [w.ix[i]] else w.log)
  }

  lemma OfferKeepsInv(w: Tracked, byte: u8)
    requires Inv(w)
    ensures Inv(StepOffer(w, byte))
  {
    if Offer(w.tx, byte).1.Ok? {
      WindowTestIsExact(w);
      AdvanceOfIndex(w.next);
      hide InSendWindow, Distinct, NewInOrder, Split, Waiting, SlotOk, FindFree, SessionAlone, Empty, Counted,
        Advance, SeqOf;
      OfferedKeepsInv(w, StepOffer(w, byte), FindFree(w.tx.slots).value);
    }
  }

  lemma OfferedKeepsInv(w: Tracked, n: Tracked, f: nat)
    requires Inv(w) && !HasSession(w.tx.slots) && !Terminal(w.tx.state)
    requires f < |w.ix| && w.tx.slots[f] == None && forall j :: 0 <= j < f ==> w.tx.slots[j].Some?
    requires forall j :: 0 <= j < |w.ix| && w.tx.slots[j].Some? ==> w.next + 1 <= w.ix[j] + w.tx.limit
    requires n.tx.Coherent() && n.tx.writing == w.tx.writing && n.tx.limit == w.tx.limit
    requires |n.tx.slots| == |w.ix| && IsNewData(n.tx.slots[f])
    requires n.tx.slots[f].value.num == SeqOf(w.next) && !n.tx.slots[f].value.needsRetransmit
    requires n.tx.slots == w.tx.slots[f := n.tx.slots[f]]
    requires n.ix == w.ix[f := w.next] && n.next == w.next + 1 && n.log == w.log
    requires n.tx.nextSeq == SeqOf(n.next)
    ensures Inv(n)
  {
    forall i | 0 <= i < |n.ix|
      ensures SlotOk(n.tx.slots[i], n.ix[i], n.next, n.tx.limit)
    {
      assert SlotOk(w.tx.slots[i], w.ix[i], w.next, w.tx.limit);
      assert !IsSession(w.tx.slots[i]);
    }
    assert forall i :: 0 <= i < |w.ix| && w.tx.slots[i].Some? ==> w.ix[i] < w.next;
    assert NewInOrder(n.tx.slots, n.ix) && Split(n.tx.slots, n.ix, |n.log|);
    WaitingAfterInsert(w, n, f);
  }

  lemma WaitingAfterInsert(w: Tracked, n: Tracked, f: nat)
    requires |w.ix| == |w.tx.slots| == |n.ix| == |n.tx.slots| && f < |w.ix|
    requires w.tx.slots[f] == None && IsNewData(n.tx.slots[f])
    requires n.tx.slots == w.tx.slots[f := n.tx.slots[f]] && n.ix == w.ix[f := w.next]
    requires n.next == w.next + 1 && n.log == w.log
    requires Waiting(w.tx.slots, w.ix, |w.log|, w.next)
    ensures Waiting(n.tx.slots, n.ix, |n.log|, n.next)
  {
    forall k: nat | |n.log| <= k < n.next
      ensures Held(n.tx.slots, n.ix, k)
    {
      if k == w.next {
        assert NewAt(n.tx.slots, n.ix, f, k);
      } else {
        assert Held(w.tx.slots, w.ix, k);
        var i :| NewAt(w.tx.slots, w.ix, i, k);
        assert NewAt(n.tx.slots, n.ix, i, k);
      }
    }
  }

  lemma OfferFinishKeepsInv(w: Tracked)
    requires Inv(w)
    ensures Inv(StepOfferFinish(w))
    ensures OfferFinish(w.tx).1.Ok? ==> |w.log| == w.next
  {
    var (t, r) := OfferFinish(w.tx);
    if r.Ok? {
      NothingWaits(w);
    }
  }

  /** With no slot occupied, everything offered was transmitted. */
  lemma NothingWaits(w: Tracked)
    requires Inv(w) && !Terminal(w.tx.state) && Empty(w.tx.slots)
    ensures |w.log| == w.next
  {
    assert !Held(w.tx.slots, w.ix, |w.log|);
  }

  /** The slot chosen for a first transmission holds the least index not yet transmitted. */
  lemma FirstTransmissionInOrder(w: Tracked)
    requires Inv(w) && WillWrite(w.tx) && !Terminal(w.tx.state)
    requires IsNewData(w.tx.slots[Target(w.tx)])
    ensures w.ix[Target(w.tx)] == |w.log| < w.next
  {
    var i := Target(w.tx);
    assert SlotOk(w.tx.slots[i], w.ix[i], w.next, w.tx.limit);
    if w.tx.out.Idle() {
      assert Held(w.tx.slots, w.ix, |w.log|);
      var j :| NewAt(w.tx.slots, w.ix, j, |w.log|);
      assert SlotOk(w.tx.slots[j], w.ix[j], w.next, w.tx.limit);
      assert New(w.tx.slots[j]);
      assert i <= j;
    }
  }

  lemma WriteKeepsInv(w: Tracked, writeOk: bool)
    requires Inv(w) && WillWrite(w.tx) && !Terminal(w.tx.state)
    ensures Inv(StepWrite(w, writeOk))
  {
    hide ToBytes, NextToWrite;
    var i := Target(w.tx);
    var n := StepWrite(w, writeOk);
    if IsNewData(w.tx.slots[i]) {
      FirstTransmissionInOrder(w);
    }
    assert SlotOk(w.tx.slots[i], w.ix[i], w.next, w.tx.limit);
    if n.tx.out.Idle() {
      WrittenKeepsInv(w, n, i);
    }
  }

  lemma WrittenKeepsInv(w: Tracked, n: Tracked, i: nat)
    requires Inv(w) && i < |w.ix| && w.tx.slots[i].Some?
    requires !Terminal(w.tx.state)
    requires n.tx.Coherent() && n.tx.writing == None && n.tx.nextSeq == w.tx.nextSeq && n.tx.limit == w.tx.limit
    requires n.tx.slots == w.tx.slots[i := Some(Written(w.tx.slots[i].value))]
    requires n.ix == w.ix && n.next == w.next
    requires IsNewData(w.tx.slots[i]) ==> w.ix[i] == |w.log| < w.next
    requires n.log == if IsNewData(w.tx.slots[i]) then w.log + [w.ix[i]] else w.log
    ensures Inv(n)
  {
    assert SlotOk(w.tx.slots[i], w.ix[i], w.next, w.tx.limit);
    forall k: nat | |n.log| <= k < n.next
      ensures Held(n.tx.slots, n.ix, k)
    {
      assert Held(w.tx.slots, w.ix, k);
      var j :| NewAt(w.tx.slots, w.ix, j, k);
      assert NewAt(n.tx.slots, n.ix, j, k);
    }
  }

  /**
    Slots that changed only in timers, retry counts and retransmission marks of
    already written slots, or that were freed while nothing was unwritten.
   */
  ghost predicate Aged(a: Option<TxSlot>, b: Option<TxSlot>) {
    b == None || (a.Some? && b.value.kind == a.value.kind && b.value.num == a.value.num
      && b.value.payload == a.value.payload && b.value.written == a.value.written
      && a.value.written)
  }

  /** A step that only ages or frees written slots keeps the invariant. */
  lemma AgedKeepsInv(w: Tracked, t: Model)
    requires Inv(w) && t.Coherent() && |t.slots| == |w.ix|
    requires w.tx.out.Idle() && t.out.Idle() && NextToWrite(w.tx.slots) == None
    requires t.nextSeq == w.tx.nextSeq && t.limit == w.tx.limit
    requires !Terminal(t.state) ==> !Terminal(w.tx.state)
    requires forall i :: 0 <= i < |w.ix| ==> Aged(w.tx.slots[i], t.slots[i])
    ensures Inv(w.(tx := t))
  {
    hide NextToWrite;
    var n := w.(tx := t);
    forall i | 0 <= i < |w.ix|
      ensures SlotOk(t.slots[i], w.ix[i], w.next, t.limit)
      ensures !IsNewData(t.slots[i]) && !IsNewData(w.tx.slots[i])
      ensures IsOldData(t.slots[i]) ==> IsOldData(w.tx.slots[i])
    {
      assert SlotOk(w.tx.slots[i], w.ix[i], w.next, w.tx.limit);
      assert Aged(w.tx.slots[i], t.slots[i]);
    }
    assert !Held(w.tx.slots, w.ix, |w.log|);
  }

  lemma ControlKeepsInv(w: Tracked, f: Frame)
    requires Inv(w) && WillRead(w.tx)
    ensures Inv(w.(tx := OnControl(w.tx, f).0))
  {
    hide OnControl, Aged, Distinct, NewInOrder, Split, Waiting, Counted;
    var t := OnControl(w.tx, f).0;
    ControlAges(w.tx, f);
    AckKeepsSession(w, f);
    if t != w.tx {
      AgedKeepsInv(w, t);
    }
  }

  /** A control frame frees a written slot or asks for it again, and leaves everything else alone. */
  lemma ControlAges(t: Model, f: Frame)
    requires t.Coherent() && WillRead(t)
    ensures
      var n := OnControl(t, f).0;
      && (forall i :: 0 <= i < |t.slots| ==> Aged(t.slots[i], n.slots[i]))
      && n.out.Idle() && n.limit == t.limit && !Terminal(t.state)
  {
    var n := OnControl(t, f).0;
    forall i | 0 <= i < |t.slots|
      ensures Aged(t.slots[i], n.slots[i])
    {
      assert t.slots[i].Some? ==> !t.slots[i].value.Unsent();
    }
  }

  /** START flights do not occur inside a session, so no control frame resets the counter. */
  lemma AckKeepsSession(w: Tracked, f: Frame)
    requires Inv(w) && WillRead(w.tx)
    ensures OnControl(w.tx, f).0.nextSeq == w.tx.nextSeq
  {
    var i := FindSeq(w.tx.slots, f.num);
    if i.Some? {
      assert SlotOk(w.tx.slots[i.value], w.ix[i.value], w.next, w.tx.limit);
    }
  }

  lemma {:induction false} TickAges(t: Model, i: nat)
    requires t.Coherent() && i <= |t.slots| && t.out.Idle() && !Terminal(t.state)
    ensures
      var n := TickFrom(t, i).0;
      && n.out == t.out && n.nextSeq == t.nextSeq && n.limit == t.limit && |n.slots| == |t.slots|
      && (Terminal(n.state) ==> n.state == Tx.TxState.Failed)
      && (!Terminal(n.state) ==> forall j :: 0 <= j < |t.slots| ==> (n.slots[j].Some? <==> t.slots[j].Some?))
      && forall j :: 0 <= j < |t.slots| ==> n.slots[j] == t.slots[j] || Aged(t.slots[j], n.slots[j])
    decreases |t.slots| - i
  {
    hide NextToWrite;
    if i < |t.slots| {
      if !Ticks(t, i) {
        TickAges(t, i + 1);
      } else {
        var s := TickSlot(t.slots[i].value, t.policy.timeoutTicks);
        if s.Some? {
          var q := t.(slots := t.slots[i := s]);
          var u := if s.value.needsRetransmit
                   then q.(state := Tx.TxState.Retrying, mark := t.mark.(retransmit := true)) else q;
          assert u.Coherent();
          TickAges(u, i + 1);
          var n := TickFrom(t, i).0;
          forall j | 0 <= j < |t.slots|
            ensures n.slots[j] == t.slots[j] || Aged(t.slots[j], n.slots[j])
          {
            assert n.slots[j] == u.slots[j] || Aged(u.slots[j], n.slots[j]);
            assert u.slots[j] == t.slots[j] || Aged(t.slots[j], u.slots[j]);
          }
        }
      }
    }
  }

  lemma TickKeepsInv(w: Tracked)
    requires Inv(w) && WillRead(w.tx)
    ensures Inv(w.(tx := TickTimeouts(w.tx).0))
  {
    hide TickFrom;
    TickAges(w.tx, 0);
    var t := TickTimeouts(w.tx).0;
    forall i | 0 <= i < |w.ix|
      ensures Aged(w.tx.slots[i], t.slots[i])
    {
      assert w.tx.slots[i].Some? ==> !w.tx.slots[i].value.Unsent();
    }
    AgedKeepsInv(w, t);
  }

  // ------------------------------------------------------------ whole runs against any peer

  /** What can happen to a sender inside one session. `io` may carry any byte at all. */
  datatype Event = OfferByte(byte: u8) | OfferEnd | PollWith(io: Io)

  function StepPoll(w: Tracked, io: Io): Tracked
    requires w.tx.Coherent() && |w.ix| == |w.tx.slots|
  {
    if Terminal(w.tx.state) then w
    else if WillWrite(w.tx) then StepWrite(w, io.writeOk)
    else w.(tx := ReadStep(w.tx, io.read).0)
  }

  /** The tracked step is the code's poll; tracking changes nothing the code sees. */
  lemma StepPollIsPoll(w: Tracked, io: Io)
    requires w.tx.Coherent() && |w.ix| == |w.tx.slots|
    ensures StepPoll(w, io).tx == Poll(w.tx, io).next
  {
  }

  lemma PollKeepsInv(w: Tracked, io: Io)
    requires Inv(w)
    ensures Inv(StepPoll(w, io))
  {
    hide FromBytes, Push, OnControl, TickTimeouts, StepWrite;
    if Terminal(w.tx.state) {
    } else if WillWrite(w.tx) {
      WriteKeepsInv(w, io.writeOk);
    } else if io.read.NoByte? {
      TickKeepsInv(w);
    } else if io.read.GotByte? {
      var (asm, word) := Push(w.tx.asm, io.read.byte);
      var v := w.(tx := w.tx.(asm := asm));
      assert Inv(v);
      if word.Some? && FromBytes(word.value).Good? {
        ControlKeepsInv(v, FromBytes(word.value).frame);
      }
    }
  }

  /** A sender in a state its code can be in, with an index for each slot: all that a step needs. */
  predicate Sound(w: Tracked) {
    w.tx.Coherent() && |w.ix| == |w.tx.slots|
  }

  function Step(w: Tracked, e: Event): (n: Tracked)
    requires Sound(w)
    ensures Sound(n)
  {
    match e
    case OfferByte(byte) => StepOffer(w, byte)
    case OfferEnd => StepOfferFinish(w)
    case PollWith(io) => StepPoll(w, io)
  }

  /** The state after a sequence of events. */
  function Run(w: Tracked, events: seq<Event>): (end: Tracked)
    requires Sound(w)
    ensures Sound(end)
    decreases |events|
  {
    if events == [] then w else Run(Step(w, events[0]), events[1..])
  }

  lemma StepKeepsInv(w: Tracked, e: Event)
    requires Inv(w)
    ensures Inv(Step(w, e))
  {
    hide Inv, StepPoll, StepOffer, StepOfferFinish;
    match e
    case OfferByte(byte) => OfferKeepsInv(w, byte);
    case OfferEnd => OfferFinishKeepsInv(w);
    case PollWith(io) => PollKeepsInv(w, io);
  }

  lemma {:induction false} RunKeepsInv(w: Tracked, events: seq<Event>)
    requires Sound(w) && Inv(w)
    ensures Inv(Run(w, events))
    decreases |events|
  {
    hide Inv, Step;
    if events != [] {
      StepKeepsInv(w, events[0]);
      RunKeepsInv(Step(w, events[0]), events[1..]);
    }
  }

  /**
    For every run, whatever the peer and the transport do: DATA frames are put
    on the wire for the first time strictly in the order they were offered, each
    index once, with no index skipped; and when nothing waits in a slot, every
    offered byte has been transmitted.
   */
  lemma FirstTransmissionsInOrder(n: nat, limit: nat, policy: Tx.RetryPolicy, events: seq<Event>)
    requires 1 <= n <= MAX_WINDOW
    ensures
      var end := Run(Start(n, limit, policy), events);
      && (forall k :: 0 <= k < |end.log| ==> end.log[k] == k)
      && |end.log| <= end.next
      && (Empty(end.tx.slots) && !Terminal(end.tx.state) ==> |end.log| == end.next)
  {
    StartIsInv(n, limit, policy);
    RunKeepsInv(Start(n, limit, policy), events);
    hide Run, Start;
    var end := Run(Start(n, limit, policy), events);
    if Empty(end.tx.slots) && !Terminal(end.tx.state) {
      NothingWaits(end);
    }
  }

  /**
    For every run: outstanding SEQ bytes are distinct, the scan of the slots
    finds the true oldest despite the wrap, and all lie within `limit` of it.
   */
  lemma RunsStayInWindow(n: nat, limit: nat, policy: Tx.RetryPolicy, events: seq<Event>)
    returns (end: Tracked, oldest: int)
    requires 1 <= n <= MAX_WINDOW
    ensures end == Run(Start(n, limit, policy), events) && |end.ix| == |end.tx.slots|
    ensures forall i, j :: 0 <= i < j < |end.ix| && end.tx.slots[i].Some? && end.tx.slots[j].Some? ==>
      end.tx.slots[i].value.num != end.tx.slots[j].value.num
    ensures !Empty(end.tx.slots) ==>
      && 0 <= oldest < |end.ix| && end.tx.slots[oldest].Some?
      && OldestUnacked(end.tx) == Some(SeqOf(end.ix[oldest]))
      && forall j :: 0 <= j < |end.ix| && end.tx.slots[j].Some? ==>
           end.ix[oldest] <= end.ix[j] < end.ix[oldest] + end.tx.limit
  {
    hide Run, Start, OldestOf;
    StartIsInv(n, limit, policy);
    RunKeepsInv(Start(n, limit, policy), events);
    end := Run(Start(n, limit, policy), events);
    oldest := OutstandingInWindow(end);
  }

  /** A poll reads, and so can process an ACK or NACK, exactly when every slot's frame is on the wire whole. */
  lemma ReadsOnlyWhenAllWritten(t: Model, io: Io)
    requires t.Coherent() && !Terminal(t.state)
    ensures Poll(t, io).calls.didRead <==>
      t.out.Idle() && forall i :: 0 <= i < |t.slots| && t.slots[i].Some? ==>
        t.slots[i].value.written && !t.slots[i].value.needsRetransmit
  {
    hide ReadStep, WriteStep;
    WriteReadsNothing(t, io);
  }

  lemma WriteReadsNothing(t: Model, io: Io)
    requires t.Coherent()
    ensures WillWrite(t) ==> !WriteStep(t, io.writeOk).calls.didRead
  {
  }

  // ------------------------------------------------------------ how many fit

  function Least(a: nat, b: nat): nat {
    if a < b then a else b
  }

  /** The sender after it was offered all these bytes, one after the other. */
  function OfferAll(w: Tracked, bytes: seq<u8>): (end: Tracked)
    requires Sound(w)
    ensures Sound(end)
    decreases |bytes|
  {
    if bytes == [] then w else OfferAll(StepOffer(w, bytes[0]), bytes[1..])
  }

  /** The first `k` slots hold the first `k` bytes, in order, and nothing was sent yet. */
  ghost predicate Filled(w: Tracked, k: nat) {
    && Inv(w) && !Terminal(w.tx.state) && w.next == k <= |w.ix|
    && (forall i :: 0 <= i < k ==> w.tx.slots[i].Some? && w.tx.slots[i].value.kind.Data? && w.ix[i] == i)
    && (forall i :: k <= i < |w.ix| ==> w.tx.slots[i] == None)
  }

  lemma FreeIs(w: Tracked, k: nat)
    requires Filled(w, k)
    ensures FindFree(w.tx.slots) == if k < |w.ix| then Some(k) else None
    ensures !HasSession(w.tx.slots)
  {
    hide Inv;
    FilledIsSound(w, k);
    var r := FindFree(w.tx.slots);
    if k < |w.ix| {
      assert w.tx.slots[k] == None;
      assert r.Some? && w.tx.slots[r.value] == None;
    }
  }

  lemma FilledIsSound(w: Tracked, k: nat)
    requires Filled(w, k)
    ensures Sound(w)
  {
  }

  lemma TakesWithinLimit(w: Tracked, k: nat, byte: u8)
    requires Filled(w, k) && k <= w.tx.limit
    ensures Sound(w) && Sound(StepOffer(w, byte))
    ensures Filled(StepOffer(w, byte), Least(k + 1, w.tx.limit)) && StepOffer(w, byte).tx.limit == w.tx.limit
  {
    hide InSendWindow, HasSession, SessionAlone, Inv, FindFree;
    FilledIsSound(w, k);
    FreeIs(w, k);
    WindowTestIsExact(w);
    OfferKeepsInv(w, byte);
    assert k > 0 ==> w.tx.slots[0].Some?;
  }

  lemma {:induction false} TakesUpToLimit(w: Tracked, k: nat, bytes: seq<u8>)
    requires Sound(w) && Filled(w, k) && k <= w.tx.limit
    ensures Filled(OfferAll(w, bytes), Least(k + |bytes|, w.tx.limit))
    decreases |bytes|
  {
    hide Filled, StepOffer;
    if bytes != [] {
      TakesWithinLimit(w, k, bytes[0]);
      TakesUpToLimit(StepOffer(w, bytes[0]), Least(k + 1, w.tx.limit), bytes[1..]);
    }
  }

  /**
    What `set_window_limit` is for: a fresh sender takes as many bytes before it
    hears anything as the limit says, at least one and at most its `N` slots.
   */
  lemma LimitIsHowManyFit(n: nat, limit: nat, policy: Tx.RetryPolicy, bytes: seq<u8>)
    requires 1 <= n <= MAX_WINDOW
    ensures OfferAll(Start(n, limit, policy), bytes).next == Least(|bytes|, if limit == 0 then 1 else Least(limit, n))
  {
    hide OfferAll, Inv;
    StartIsInv(n, limit, policy);
    TakesUpToLimit(Start(n, limit, policy), 0, bytes);
  }
}
