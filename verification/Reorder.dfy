/**
  What the reorder buffer is for, against any peer at all.  Fed any bytes in any
  order, with any transport faults, the receiver hands out exactly the longest
  gap-free prefix of the payloads it stored first, and its emit queue never
  drops a byte.
 */
module Reorder {
  import opened Prelude
  import opened Wire
  import opened Framing
  import Rx
  import opened WindowRx

  /**
    A receiver with what its code forgets: the unbounded index it expects, the
    first payload stored for each index of this session, and what the
    application was given in this session.
   */
  datatype Observed = Observed(rx: Model, got: nat, stored: map<nat, u8>, delivered: seq<u8>)

  /** The candidate a poll completes, if it completes one. */
  function Candidate(r: Model, io: Io): Option<Decoded>
    requires r.Coherent()
  {
    if !WillRead(r) || !io.read.GotByte? then None
    else
      match Push(r.asm, io.read.byte).1
      case None => None
      case Some(word) => Some(FromBytes(word))
  }

  /** Whether the frame opens or cancels a session, which starts the accounting afresh. */
  predicate Resets(r: Model, d: Decoded) {
    d.Good? && (d.frame.kind == Start || (d.frame.kind == Abort && r.finishSeq == None))
  }

  /** The index at which a frame is stored, if it is. */
  function StoredAt(o: Observed, d: Decoded): Option<nat> {
    if d.Good? && d.frame.kind == Data && !o.rx.Closed() && Offset(o.rx, d.frame.num).Some?
    then Some(o.got + Offset(o.rx, d.frame.num).value)
    else None
  }

  /** The payload stored first for an index stays. */
  function StoreFirst(stored: map<nat, u8>, index: nat, byte: u8): map<nat, u8> {
    if index in stored then stored else stored[index := byte]
  }

  function Given(delivered: seq<u8>, result: Result<PollOutcome>): seq<u8> {
    match result
    case Ok(Delivered(byte)) => delivered + [byte]
    case _ => delivered
  }

  function Step(o: Observed, io: Io): (n: Observed)
    requires o.rx.Coherent()
    ensures n.rx.Coherent()
  {
    var p := Poll(o.rx, io);
    match Candidate(o.rx, io)
    case Some(d) =>
      if Resets(o.rx, d) then Observed(p.next, 0, map[], [])
      else
        var stored := match StoredAt(o, d)
                      case Some(index) => StoreFirst(o.stored, index, d.frame.data)
                      case None => o.stored;
        Observed(p.next, o.got, stored, Given(o.delivered, p.result))
    case None =>
      var drained := o.rx.pending == Some(PendingAction.Drain) && p.next.pending == None;
      Observed(p.next, if drained then o.got + WindowRx.Run(o.rx.buf) else o.got, o.stored,
               Given(o.delivered, p.result))
  }

  /** The stored payloads of the indices below `k`, in order. */
  function Prefix(stored: map<nat, u8>, k: nat): (s: seq<u8>)
    requires forall i: nat :: i < k ==> i in stored
    ensures |s| == k && forall i: nat :: i < k ==> s[i] == stored[i]
  {
    seq(k, i requires 0 <= i < k => stored[i])
  }

  /** The reorder buffer holds exactly the stored payloads from `got` on. */
  ghost predicate Mirrors(buf: seq<Option<u8>>, got: nat, stored: map<nat, u8>) {
    && (forall o :: 0 <= o < |buf| ==> (buf[o].Some? <==> got + o in stored))
    && (forall o :: 0 <= o < |buf| && buf[o].Some? ==> buf[o].value == stored[got + o])
    && (forall k :: k in stored ==> k < got + |buf|)
  }

  ghost predicate GapFree(stored: map<nat, u8>, k: nat) {
    forall i: nat :: i < k ==> i in stored
  }

  ghost predicate HandedOut(o: Observed)
    requires o.rx.Valid() && GapFree(o.stored, o.got)
  {
    o.delivered + o.rx.Queue() == Prefix(o.stored, o.got)
  }

  ghost predicate Inv(o: Observed) {
    && o.rx.Coherent()
    && o.rx.expected == SeqOf(o.got)
    && GapFree(o.stored, o.got)
    && HandedOut(o)
    && (!o.rx.Closed() ==> Mirrors(o.rx.buf, o.got, o.stored))
    && (o.rx.pending != Some(PendingAction.Drain) ==> o.got !in o.stored)
    && (o.rx.pending == Some(PendingAction.Started) ==> !o.rx.Closed())
  }

  lemma FreshIsInv(n: nat, limit: nat)
    requires 1 <= n <= MAX_WINDOW
    ensures Inv(Observed(SetLimit(WindowRx.Fresh(n), limit), 0, map[], []))
  {
  }

  // ------------------------------------------------------------ steps

  /** The poll neither completed a candidate nor a drain nor handed out a byte. */
  lemma CosmeticKeepsInv(o: Observed, n: Observed)
    requires Inv(o) && n == o.(rx := n.rx) && n.rx.Coherent()
    requires n.rx == o.rx.(asm := n.rx.asm, out := n.rx.out, state := n.rx.state, pending := n.rx.pending)
    requires n.rx.pending != Some(PendingAction.Drain) ==> o.rx.pending != Some(PendingAction.Drain)
    requires n.rx.pending == Some(PendingAction.Started) ==> o.rx.pending == Some(PendingAction.Started)
    ensures Inv(n)
  {
    hide Blank, Prefix, Mirrors, GapFree;
  }

  lemma PopKeepsInv(o: Observed, io: Io)
    requires Inv(o) && o.rx.emit != []
    ensures Inv(Step(o, io))
  {
    hide Blank, Prefix, Mirrors, GapFree;
    var (r, byte) := PopEmit(o.rx);
    assert (o.delivered + [byte.value]) + r.Queue() == o.delivered + ([byte.value] + r.Queue());
  }

  /** A drain hands out or queues exactly the run that became gap-free. */
  lemma DrainKeepsInv(o: Observed, n: Observed, r: nat, byte: u8)
    requires Inv(o) && !o.rx.Closed() && o.rx.emit == []
    requires 1 <= r <= |o.rx.buf| && forall i :: 0 <= i < r ==> o.rx.buf[i].Some?
    requires r < |o.rx.buf| ==> o.rx.buf[r] == None
    requires n == Observed(n.rx, o.got + r, o.stored, o.delivered + [byte])
    requires n.rx.Coherent() && n.rx.pending == None && !n.rx.Closed()
    requires n.rx.buf == Shifted(o.rx.buf, r) && n.rx.expected == (o.rx.expected + r) % 256
    requires [byte] + n.rx.Queue() == Payloads(o.rx.buf, r)
    ensures Inv(n)
  {
    hide Blank, SeqOf, Shifted, Payloads, Mirrors, Prefix, WindowRx.Run;
    AddToIndex(o.got, r);
    DrainedMirrors(o.rx.buf, o.got, o.stored, r);
    PrefixGrows(o, r, byte, n.rx.Queue());
  }

  lemma DrainedMirrors(buf: seq<Option<u8>>, got: nat, stored: map<nat, u8>, r: nat)
    requires Mirrors(buf, got, stored) && GapFree(stored, got)
    requires 1 <= r <= |buf| && (forall i :: 0 <= i < r ==> buf[i].Some?) && (r < |buf| ==> buf[r] == None)
    ensures Mirrors(Shifted(buf, r), got + r, stored)
    ensures GapFree(stored, got + r) && got + r !in stored
  {
    var after := Shifted(buf, r);
    forall o | 0 <= o < |buf|
      ensures after[o] == if o + r < |buf| then buf[o + r] else None
    {
    }
    forall k: nat | k < got + r
      ensures k in stored
    {
      if k >= got { assert buf[k - got].Some?; }
    }
    forall o | 0 <= o < |buf|
      ensures after[o].Some? <==> got + r + o in stored
    {
      if o + r < |buf| { assert buf[o + r].Some? <==> got + (o + r) in stored; }
    }
  }

  lemma PrefixGrows(o: Observed, r: nat, byte: u8, rest: seq<u8>)
    requires o.rx.Valid() && o.rx.emit == [] && GapFree(o.stored, o.got) && HandedOut(o)
    requires Mirrors(o.rx.buf, o.got, o.stored)
    requires r <= |o.rx.buf| && (forall i :: 0 <= i < r ==> o.rx.buf[i].Some?)
    requires GapFree(o.stored, o.got + r)
    requires [byte] + rest == Payloads(o.rx.buf, r)
    ensures (o.delivered + [byte]) + rest == Prefix(o.stored, o.got + r)
  {
    hide Prefix, Payloads, Mirrors, GapFree;
    assert o.delivered + o.rx.Queue() == o.delivered;
    PrefixSplits(o.rx.buf, o.got, o.stored, r);
    assert (o.delivered + [byte]) + rest == o.delivered + ([byte] + rest);
  }

  lemma PrefixSplits(buf: seq<Option<u8>>, got: nat, stored: map<nat, u8>, r: nat)
    requires Mirrors(buf, got, stored) && GapFree(stored, got) && GapFree(stored, got + r)
    requires r <= |buf| && (forall i :: 0 <= i < r ==> buf[i].Some?)
    ensures Prefix(stored, got + r) == Prefix(stored, got) + Payloads(buf, r)
  {
    var all, first, rest := Prefix(stored, got + r), Prefix(stored, got), Payloads(buf, r);
    assert |all| == |first + rest|;
    forall i | 0 <= i < got + r
      ensures all[i] == (first + rest)[i]
    {
      if i >= got {
        assert buf[i - got].Some?;
      }
    }
  }

  /** Completing a reply: a drain hands out its run, anything else moves no byte. */
  lemma ReplyKeepsInv(o: Observed, io: Io)
    requires Inv(o) && !o.rx.out.Idle()
    ensures Inv(Step(o, io))
  {
    var q := o.rx.(out := o.rx.out.Commit());
    if io.writeOk && q.out.Idle() {
      if o.rx.pending == Some(PendingAction.Drain) {
        DrainStep(o, io);
      } else {
        OtherReplyStep(o, io);
      }
    } else {
      hide Blank, Prefix, Mirrors, GapFree, HandedOut, WindowRx.Run, TakePending;
      CosmeticKeepsInv(o, Step(o, io));
    }
  }

  lemma DrainStep(o: Observed, io: Io)
    requires Inv(o) && o.rx.pending == Some(PendingAction.Drain) && io.writeOk && o.rx.out.Commit().Idle()
    ensures Inv(Step(o, io))
  {
    var q := o.rx.(out := o.rx.out.Commit());
    hide Prefix, Mirrors, GapFree, HandedOut, WindowRx.Run, Shifted, Payloads, PushEmit;
    DrainDeliversRun(q);
    DrainLeaves(q);
    hide TakePending;
    var n := Step(o, io);
    var byte := TakePending(q).1.value.byte;
    DrainKeepsInv(o, n, WindowRx.Run(o.rx.buf), byte);
  }

  /** What a drain leaves alone. */
  lemma DrainLeaves(q: Model)
    requires ReplyDone(q) && q.pending == Some(PendingAction.Drain)
    ensures
      var n := TakePending(q).0;
      n.finishSeq == q.finishSeq && n.abortLatched == q.abortLatched && n.pending == None && n.out == q.out
  {
    hide WindowRx.Run, Shifted, Payloads, PushEmit, Blank;
  }

  lemma OtherReplyStep(o: Observed, io: Io)
    requires Inv(o) && o.rx.pending.Some? && o.rx.pending != Some(PendingAction.Drain)
    requires io.writeOk && o.rx.out.Commit().Idle()
    ensures Inv(Step(o, io))
  {
    var q := o.rx.(out := o.rx.out.Commit());
    hide Prefix, Mirrors, GapFree, HandedOut, WindowRx.Run, Blank;
    CosmeticKeepsInv(o, Step(o, io));
  }

  // ------------------------------------------------------------ candidates

  /** Storing a payload where none was stored, or leaving the one that was. */
  lemma StoreKeepsMirror(buf: seq<Option<u8>>, got: nat, stored: map<nat, u8>, off: nat, byte: u8)
    requires Mirrors(buf, got, stored) && GapFree(stored, got) && off < |buf|
    ensures
      var after := if buf[off] == None then buf[off := Some(byte)] else buf;
      var kept := StoreFirst(stored, got + off, byte);
      && Mirrors(after, got, kept)
      && GapFree(kept, got)
      && Prefix(kept, got) == Prefix(stored, got)
      && (got in kept <==> got in stored || off == 0)
  {
    var after := if buf[off] == None then buf[off := Some(byte)] else buf;
    var kept := StoreFirst(stored, got + off, byte);
    assert buf[off].Some? <==> got + off in stored;
    forall o | 0 <= o < |buf|
      ensures after[o].Some? <==> got + o in kept
      ensures after[o].Some? ==> after[o].value == kept[got + o]
    {
      assert buf[o].Some? <==> got + o in stored;
    }
  }

  /** The accounting of a candidate, before any reply byte is written. */
  function Accounted(o: Observed, r: Model, d: Decoded): Observed
    requires o.rx.Valid()
  {
    if Resets(o.rx, d) then Observed(r, 0, map[], [])
    else
      match StoredAt(o, d)
      case Some(index) => Observed(r, o.got, StoreFirst(o.stored, index, d.frame.data), o.delivered)
      case None => Observed(r, o.got, o.stored, o.delivered)
  }

  lemma StoringKeepsInv(o: Observed, n: Observed, off: nat, byte: u8)
    requires Inv(o) && !o.rx.Closed() && off < |o.rx.buf|
    requires n == Observed(n.rx, o.got, StoreFirst(o.stored, o.got + off, byte), o.delivered)
    requires n.rx.Coherent()
    requires n.rx == o.rx.(buf := n.rx.buf, out := n.rx.out, state := n.rx.state, pending := n.rx.pending)
    requires n.rx.buf == if o.rx.buf[off] == None then o.rx.buf[off := Some(byte)] else o.rx.buf
    requires o.rx.pending == None && n.rx.pending.Some? && !n.rx.pending.value.Started?
    requires off == 0 ==> n.rx.pending == Some(PendingAction.Drain)
    ensures Inv(n)
  {
    hide Prefix, Mirrors, GapFree, Blank, StoreFirst;
    StoreKeepsMirror(o.rx.buf, o.got, o.stored, off, byte);
  }

  lemma DataKeepsInv(o: Observed, d: Decoded)
    requires Inv(o) && o.rx.emit == [] && o.rx.out.Idle() && d.Good? && d.frame.kind == FrameType.Data
    ensures Inv(Accounted(o, HandleData(o.rx, d.frame), d))
  {
    hide Prefix, Mirrors, GapFree, HandedOut, Blank, StoreFirst, Offset, IsDuplicate, ToBytes;
    var n := Accounted(o, HandleData(o.rx, d.frame), d);
    if !o.rx.Closed() && Offset(o.rx, d.frame.num).Some? {
      StoringKeepsInv(o, n, Offset(o.rx, d.frame.num).value, d.frame.data);
    } else {
      CosmeticKeepsInv(o, n);
    }
  }

  /** START and ABORT empty the receiver and the books alike. */
  lemma ResetKeepsInv(o: Observed, d: Decoded)
    requires Inv(o) && o.rx.emit == [] && o.rx.out.Idle() && Resets(o.rx, d)
    ensures Inv(Accounted(o, Handle(o.rx, d), d))
  {
    var n := Accounted(o, Handle(o.rx, d), d);
    hide ToBytes, Inv, Blank;
    assert n.rx.emit == [] && n.rx.buf == EmptyBuf(|o.rx.buf|) && n.rx.expected == 0;
    assert n.stored == map[] && n.got == 0 && n.delivered == [];
    EmptyBooks(n);
  }

  lemma EmptyBooks(n: Observed)
    requires n.rx.Coherent() && n.rx.emit == [] && n.rx.buf == EmptyBuf(|n.rx.buf|) && n.rx.expected == 0
    requires n.stored == map[] && n.got == 0 && n.delivered == []
    requires n.rx.pending == Some(PendingAction.Started) ==> !n.rx.Closed()
    ensures Inv(n)
  {
    hide Blank;
  }

  lemma ControlKeepsInv(o: Observed, d: Decoded)
    requires Inv(o) && o.rx.emit == [] && o.rx.out.Idle() && !(d.Good? && d.frame.kind == FrameType.Data)
    ensures Inv(Accounted(o, Handle(o.rx, d), d))
  {
    hide HandleData, Offset, Prefix, Mirrors, GapFree, Blank;
    if Resets(o.rx, d) {
      ResetKeepsInv(o, d);
    }
  }

  lemma RepliesStartWhole(r: Model, d: Decoded)
    requires r.Coherent() && WillRead(r)
    ensures Handle(r, d).out.Idle() || Handle(r, d).out.pos == 0
  {
    hide ToBytes, Blank, Offset, IsDuplicate;
  }

  /** The reply's first byte does not complete it: a candidate never hands out a byte by itself. */
  lemma CandidatePoll(r: Model, io: Io)
    requires r.Coherent() && Candidate(r, io).Some?
    ensures
      var h := Handle(r.(asm := Push(r.asm, io.read.byte).0, state := Rx.RxState.Validating), Candidate(r, io).value);
      var p := Poll(r, io);
      && p.next == h.(out := p.next.out, state := p.next.state)
      && !(p.result.Ok? && p.result.value.Delivered?)
  {
    hide FromBytes, Push, Blank, TakePending, Handle;
    RepliesStartWhole(r.(asm := Push(r.asm, io.read.byte).0, state := Rx.RxState.Validating), Candidate(r, io).value);
  }

  lemma CandidateStep(o: Observed, io: Io)
    requires Inv(o) && Candidate(o.rx, io).Some?
    ensures
      var d := Candidate(o.rx, io).value;
      var a := o.(rx := o.rx.(asm := Push(o.rx.asm, io.read.byte).0, state := Rx.RxState.Validating));
      var h := Accounted(a, Handle(a.rx, d), d);
      var n := Step(o, io);
      && n == h.(rx := n.rx)
      && n.rx == h.rx.(out := n.rx.out, state := n.rx.state)
  {
    hide FromBytes, Push, Blank, Prefix, Mirrors, GapFree, HandedOut, Handle, WrapSub, StoreFirst, Poll;
    CandidatePoll(o.rx, io);
  }

  lemma CandidateKeepsInv(o: Observed, io: Io)
    requires Inv(o) && Candidate(o.rx, io).Some?
    ensures Inv(Step(o, io))
  {
    hide FromBytes, Push, Inv, Accounted, Handle, Step;
    InvIsCoherent(o);
    var d := Candidate(o.rx, io).value;
    var a := o.(rx := o.rx.(asm := Push(o.rx.asm, io.read.byte).0, state := Rx.RxState.Validating));
    CandidateStep(o, io);
    TakingKeepsInv(o, a);
    HandlingKeepsInv(a, d);
    SameBooks(Accounted(a, Handle(a.rx, d), d), Step(o, io));
  }

  lemma InvIsCoherent(o: Observed)
    requires Inv(o)
    ensures o.rx.Coherent()
  {
  }

  /** The word is complete, and nothing was done about it yet. */
  lemma TakingKeepsInv(o: Observed, a: Observed)
    requires Inv(o) && WillRead(o.rx)
    requires a == o.(rx := o.rx.(asm := a.rx.asm, state := Rx.RxState.Validating)) && a.rx.asm.Valid()
    ensures Inv(a) && WillRead(a.rx) && a.rx.Coherent()
  {
    hide Prefix, Mirrors, GapFree, HandedOut, Blank;
    CosmeticKeepsInv(o, a);
  }

  lemma HandlingKeepsInv(a: Observed, d: Decoded)
    requires Inv(a) && WillRead(a.rx) && a.rx.Coherent()
    ensures Inv(Accounted(a, Handle(a.rx, d), d))
  {
    hide Inv, Accounted, HandleData, HandleStart, HandleAbort, HandleFinish, Blank;
    if d.Good? && d.frame.kind == FrameType.Data {
      DataKeepsInv(a, d);
    } else {
      ControlKeepsInv(a, d);
    }
  }

  lemma SameBooks(o: Observed, n: Observed)
    requires Inv(o) && n == o.(rx := n.rx) && n.rx.Coherent()
    requires n.rx == o.rx.(out := n.rx.out, state := n.rx.state)
    ensures Inv(n)
  {
    hide Prefix, Mirrors, GapFree, HandedOut, Blank;
    CosmeticKeepsInv(o, n);
  }

  lemma StepKeepsInv(o: Observed, io: Io)
    requires Inv(o)
    ensures Inv(Step(o, io))
  {
    if o.rx.emit != [] {
      PopKeepsInv(o, io);
    } else if !o.rx.out.Idle() {
      ReplyKeepsInv(o, io);
    } else if Candidate(o.rx, io).Some? {
      CandidateKeepsInv(o, io);
    } else {
      hide FromBytes, Push, Blank, Prefix, Mirrors, GapFree, HandedOut;
      CosmeticKeepsInv(o, Step(o, io));
    }
  }

  // ------------------------------------------------------------ every run

  /** The receiver after any sequence of polls. */
  function Run(o: Observed, ios: seq<Io>): (end: Observed)
    requires o.rx.Coherent()
    ensures end.rx.Coherent()
    decreases |ios|
  {
    if ios == [] then o else Run(Step(o, ios[0]), ios[1..])
  }

  function RunFromStart(n: nat, limit: nat, ios: seq<Io>): (end: Observed)
    requires 1 <= n <= MAX_WINDOW
    ensures end.rx.Coherent()
  {
    Run(Observed(SetLimit(WindowRx.Fresh(n), limit), 0, map[], []), ios)
  }

  lemma {:induction false} RunKeepsInv(o: Observed, ios: seq<Io>)
    requires o.rx.Coherent() && Inv(o)
    ensures Inv(Run(o, ios))
    decreases |ios|
  {
    hide Inv, Step;
    if ios != [] {
      StepKeepsInv(o, ios[0]);
      RunKeepsInv(Step(o, ios[0]), ios[1..]);
    }
  }

  lemma EveryRunKeepsInv(n: nat, limit: nat, ios: seq<Io>)
    requires 1 <= n <= MAX_WINDOW
    ensures Inv(RunFromStart(n, limit, ios))
  {
    hide Inv, Run;
    FreshIsInv(n, limit);
    RunKeepsInv(Observed(SetLimit(WindowRx.Fresh(n), limit), 0, map[], []), ios);
  }

  /** The longest gap-free prefix: every index below `k` was stored, and `k` was not. */
  ghost predicate FirstGap(stored: map<nat, u8>, k: nat) {
    GapFree(stored, k) && k !in stored
  }

  /**
    Whatever bytes arrive, in whatever order the DATA frames among them come,
    and whenever the transport fails: what was handed out, followed by what is
    queued, is the gap-free prefix of the payloads first stored, up to the
    first gap; the one index that may lie beyond it is the one whose ACK is
    still being written.
   */
  lemma DeliversFirstGapFreePrefix(n: nat, limit: nat, ios: seq<Io>)
    requires 1 <= n <= MAX_WINDOW
    ensures
      var end := RunFromStart(n, limit, ios);
      && end.rx.expected == SeqOf(end.got)
      && GapFree(end.stored, end.got)
      && end.delivered + end.rx.Queue() == Prefix(end.stored, end.got)
      && (end.rx.pending != Some(PendingAction.Drain) ==> FirstGap(end.stored, end.got))
  {
    hide RunFromStart, Prefix, Mirrors, GapFree, Blank;
    EveryRunKeepsInv(n, limit, ios);
  }

  /**
    A drain always starts from an empty emit queue, so the silent drop of a byte
    that finds the queue full never happens.
   */
  lemma DrainNeverDrops(n: nat, limit: nat, ios: seq<Io>)
    requires 1 <= n <= MAX_WINDOW
    ensures
      var r := RunFromStart(n, limit, ios).rx;
      r.pending == Some(PendingAction.Drain) ==>
        && r.emit == []
        && PushEmit(r.emit, Payloads(r.buf, WindowRx.Run(r.buf)), |r.buf|) == Payloads(r.buf, WindowRx.Run(r.buf))
  {
    hide RunFromStart, Prefix, Mirrors, GapFree, Blank;
    EveryRunKeepsInv(n, limit, ios);
    var r := RunFromStart(n, limit, ios).rx;
    var all := Payloads(r.buf, WindowRx.Run(r.buf));
    assert [] + all == all;
  }

  // ------------------------------------------------------------ FINISH and holes

  /**
    FINISH is checked against the expected number only.  Accepting it throws
    away exactly what is stored behind a gap: nothing is lost if and only if
    nothing is stored.
   */
  lemma FinishKeepsIffNothingStored(r: Model, num: seqno)
    requires r.Coherent() && WillRead(r) && !r.Closed() && num == r.expected
    ensures HandleFinish(r, num).finishSeq == Some(num)
    ensures HandleFinish(r, num).buf == r.buf <==> Blank(r.buf, 0)
  {
    hide ToBytes;
    if Blank(r.buf, 0) {
      assert EmptyBuf(|r.buf|) == r.buf;
    }
  }

  /** A receiver whose reply has just gone out whole. */
  function Replied(r: Model): Model
    requires r.Valid()
  {
    TakePending(r.(out := NOTHING_OUTGOING)).0
  }

  /**
    A peer that is not this crate's sender can make it happen: DATA 1 is stored
    and acknowledged, FINISH 0 is then accepted, and the stored byte is gone.
   */
  lemma FinishCanDropAcknowledgedByte(byte: u8)
    ensures
      var stored := Replied(HandleData(WindowRx.Fresh(2), DataFrame(1, byte)));
      && stored.Coherent() && WillRead(stored)
      && stored.buf == [None, Some(byte)]
      && HandleFinish(stored, 0).finishSeq == Some(0)
      && HandleFinish(stored, 0).buf == [None, None]
  {
    hide ToBytes;
    var start := WindowRx.Fresh(2);
    assert start.buf == [None, None];
    var taken := HandleData(start, DataFrame(1, byte));
    assert taken.buf == [None, Some(byte)];
    assert EmptyBuf(2) == [None, None];
  }
}
