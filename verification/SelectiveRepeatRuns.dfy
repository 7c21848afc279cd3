/**
  The receiver's steps, the channel's faults, and what every run of the
  selective-repeat pair satisfies.
 */
module SelectiveRepeatRuns {
  import opened Prelude
  import opened Wire
  import opened Framing
  import Rx
  import WindowRx
  import Tx
  import WindowTx
  import Reorder
  import SendWindow
  import Settling
  import opened SelectiveRepeat

  // ------------------------------------------------------------ the receiver reads a frame

  /** The receiver changed only in what it has written of its reply and in its coarse state. */
  lemma CosmeticOk(s: Sys, n: Sys)
    requires n == s.(rx := n.rx)
    requires n.rx == s.rx.(out := n.rx.out, state := n.rx.state) && n.rx.out.bytes == s.rx.out.bytes
    requires n.rx.Coherent()
    requires ReceiverOk(s) && ReplyOk(s) && DataChannelOk(s) && AckChannelOk(s)
    ensures ReceiverOk(n) && ReplyOk(n) && DataChannelOk(n) && AckChannelOk(n)
  {
    forall i | 0 <= i < |n.data|
      ensures DataPacketOk(n, n.data[i])
    {
      assert DataPacketOk(s, s.data[i]);
    }
    forall i | 0 <= i < |n.acks|
      ensures AckPacketOk(n, n.acks[i])
    {
      assert AckPacketOk(s, s.acks[i]);
    }
  }

  /** What is left of the channel once its oldest frame has been taken. */
  lemma DataTailOk(s: Sys)
    requires DataChannelOk(s) && s.data != []
    ensures DataChannelOk(s.(data := s.data[1..]))
    ensures DataPacketOk(s, s.data[0])
    ensures IsData(s.data[0]) ==> forall k :: Accepted(s.got, s.rx.buf, k) ==> k < s.data[0].ix + s.rx.limit
    ensures IsData(s.data[0]) ==>
      forall j :: 0 <= j < |s.data[1..]| && IsData(s.data[1..][j]) ==> s.data[0].ix < s.data[1..][j].ix + s.rx.limit
  {
    var n := s.(data := s.data[1..]);
    assert forall k :: Accepted(s.got, s.rx.buf, k) ==> Stored(s.got, s.rx.buf, k);
    forall i | 0 <= i < |n.data|
      ensures n.data[i] == s.data[i + 1] && DataPacketOk(n, n.data[i])
    {
      assert DataPacketOk(s, s.data[i + 1]);
    }
  }

  /** The wrapping comparisons are exact within a window either side. */
  lemma Classified(r: WindowRx.Model, got: nat, ix: nat)
    requires r.Valid() && r.expected == SeqOf(got)
    requires got - r.limit <= ix < got + r.limit
    ensures ix >= got ==> WindowRx.Offset(r, SeqOf(ix)) == Some(ix - got)
    ensures ix < got ==> WindowRx.Offset(r, SeqOf(ix)) == None && WindowRx.IsDuplicate(r, SeqOf(ix))
  {
    hide WrapSub, SeqOf;
    WrapSubOfIndices(ix, got);
    WrapSubOfIndices(got, ix);
    SeqOfSmall(ix - got);
    SeqOfSmall(got - ix);
  }

  lemma SeqOfSmall(d: int)
    requires -256 <= d < 256
    ensures SeqOf(d) == if d >= 0 then d else 256 + d
  {
  }

  /**
    Mod 256 is never ambiguous for data: every DATA frame in flight has its index
    within a window of the receiver's, either side, so the code's two wrapping
    comparisons classify it exactly and never reject it.
   */
  lemma DataIsUnambiguous(s: Sys, j: nat)
    requires Inv(s) && j < |s.data| && IsData(s.data[j])
    ensures s.got - s.rx.limit <= s.data[j].ix < s.got + s.rx.limit
    ensures s.data[j].d.frame.num == SeqOf(s.data[j].ix)
    ensures s.data[j].ix >= s.got ==> WindowRx.Offset(s.rx, s.data[j].d.frame.num) == Some(s.data[j].ix - s.got)
    ensures s.data[j].ix < s.got ==>
      WindowRx.Offset(s.rx, s.data[j].d.frame.num) == None && WindowRx.IsDuplicate(s.rx, s.data[j].d.frame.num)
  {
    hide SenderOk, ReplyOk, AckChannelOk, WindowRx.Offset, WindowRx.IsDuplicate;
    var p := s.data[j];
    assert DataPacketOk(s, p);
    if s.got > 0 {
      assert Stored(s.got, s.rx.buf, s.got - 1);
    }
    Classified(s.rx, s.got, p.ix);
  }

  /** The frame the receiver holds after taking `s.data[0]`, before it writes any reply byte. */
  function Taken(s: Sys): Sys
    requires s.rx.Coherent() && WindowRx.WillRead(s.rx) && s.data != []
  {
    s.(rx := WindowRx.Handle(s.rx.(state := Rx.RxState.Validating), s.data[0].d),
       data := s.data[1..],
       replyIx := s.data[0].ix)
  }

  ghost predicate RestOk(s: Sys) {
    ReceiverOk(s) && ReplyOk(s) && DataChannelOk(s) && AckChannelOk(s)
  }

  lemma LoadedReply(f: Frame)
    requires SemanticsOk(f)
    ensures FromBytes(Load(f).bytes) == Good(f)
  {
    DecodeEncode(f);
  }

  /** A frame that stores nothing: only the reply and perhaps the FINISH latch changed. */
  lemma NothingStored(s: Sys, n: Sys)
    requires ReceiverOk(s) && DataChannelOk(s) && AckChannelOk(s) && s.data != []
    requires n == s.(rx := n.rx, data := s.data[1..], replyIx := s.data[0].ix)
    requires n.rx.Coherent() && ReplyOk(n)
    requires n.rx == s.rx.(out := n.rx.out, state := n.rx.state, pending := n.rx.pending, finishSeq := n.rx.finishSeq)
    requires n.rx.finishSeq == s.rx.finishSeq
      || (s.finishing && s.got == s.w.next && n.rx.finishSeq == Some(SeqOf(s.w.next)) && s.rx.emit == [])
    ensures RestOk(n)
  {
    hide ReplyOk;
    DataTailOk(s);
    var m := s.(data := s.data[1..]);
    assert forall p :: DataPacketOk(m, p) ==> DataPacketOk(n, p);
    assert forall p :: AckPacketOk(s, p) ==> AckPacketOk(n, p);
  }

  /** A corrupt frame: refused with a NACK of the expected SEQ, or ignored once closed. */
  lemma BadReply(r: WindowRx.Model, error: FrameError)
    requires r.Coherent() && WindowRx.WillRead(r)
    ensures
      var n := WindowRx.Handle(r, Bad(error));
      && n == r.(out := n.out, state := n.state, pending := n.pending)
      && (r.Closed() ==> n.pending == None)
      && (!r.Closed() ==> FromBytes(n.out.bytes) == Good(NackFrame(r.expected)))
      && (!r.Closed() ==>
            n.pending == Some(WindowRx.PendingAction.Rejected) || n.pending == Some(WindowRx.PendingAction.CrcRejected))
  {
    LoadedReply(NackFrame(r.expected));
    hide FromBytes, ToBytes, WindowRx.Blank;
  }

  lemma ReceiverFacts(s: Sys)
    requires ReceiverOk(s)
    ensures s.rx.Coherent() && !s.rx.abortLatched
  {
  }

  /** No reply, or a NACK. */
  lemma PlainReplyOk(n: Sys)
    requires n.rx.pending == None
      || ((n.rx.pending == Some(WindowRx.PendingAction.Rejected)
           || n.rx.pending == Some(WindowRx.PendingAction.CrcRejected))
          && FromBytes(n.rx.out.bytes) == Good(NackFrame(n.rx.expected)))
    ensures ReplyOk(n)
  {
  }

  lemma TakenBad(s: Sys)
    requires Inv(s) && s.data != [] && WindowRx.WillRead(s.rx) && s.data[0].d.Bad?
    ensures RestOk(Taken(s))
  {
    ReceiverFacts(s);
    hide SenderOk, ReceiverOk, ReplyOk, DataChannelOk, AckChannelOk, FromBytes, WindowRx.Blank;
    BadReply(s.rx.(state := Rx.RxState.Validating), s.data[0].d.error);
    hide WindowRx.Handle;
    PlainReplyOk(Taken(s));
    NothingStored(s, Taken(s));
  }

  /** DATA after FINISH is neither delivered nor answered. */
  lemma DataAfterFinish(r: WindowRx.Model, f: Frame)
    requires r.Coherent() && WindowRx.WillRead(r) && r.finishSeq.Some? && !r.abortLatched
    requires f.kind == FrameType.Data
    ensures WindowRx.Handle(r, Good(f)) == r.(state := Rx.RxState.Finished)
  {
    hide WindowRx.Blank;
  }

  lemma TakenAfterFinish(s: Sys)
    requires Inv(s) && s.data != [] && WindowRx.WillRead(s.rx) && IsData(s.data[0])
    requires s.rx.finishSeq.Some?
    ensures RestOk(Taken(s))
  {
    ReceiverFacts(s);
    hide SenderOk, ReceiverOk, ReplyOk, DataChannelOk, AckChannelOk, FromBytes, WindowRx.Blank;
    DataAfterFinish(s.rx.(state := Rx.RxState.Validating), s.data[0].d.frame);
    hide WindowRx.Handle;
    PlainReplyOk(Taken(s));
    NothingStored(s, Taken(s));
  }

  lemma DuplicateReply(r: WindowRx.Model, f: Frame)
    requires r.Coherent() && WindowRx.WillRead(r) && !r.Closed()
    requires f.kind == FrameType.Data && WindowRx.Offset(r, f.num) == None && WindowRx.IsDuplicate(r, f.num)
    ensures
      var n := WindowRx.Handle(r, Good(f));
      && n == r.(out := n.out, state := n.state, pending := Some(WindowRx.PendingAction.Duplicate))
      && FromBytes(n.out.bytes) == Good(AckFrame(f.num))
  {
    LoadedReply(AckFrame(f.num));
    hide FromBytes, ToBytes, WindowRx.Blank, WindowRx.Offset, WindowRx.IsDuplicate;
  }

  /** What makes the DATA frame about to be read a duplicate. */
  lemma DuplicateFacts(s: Sys)
    requires Inv(s) && s.data != [] && WindowRx.WillRead(s.rx) && IsData(s.data[0])
    requires s.rx.finishSeq == None && s.data[0].ix < s.got
    ensures s.rx.Coherent() && !s.rx.Closed()
    ensures s.data[0].d.frame == DataFrame(SeqOf(s.data[0].ix), s.data[0].d.frame.data)
    ensures ReplyInRange(s, s.data[0].ix)
    ensures
      var q, num := s.rx.(state := Rx.RxState.Validating), s.data[0].d.frame.num;
      WindowRx.Offset(q, num) == None && WindowRx.IsDuplicate(q, num)
  {
    hide Inv, Accepted, Stored, WindowRx.Offset, WindowRx.IsDuplicate, SeqOf;
    TakenFacts(s);
  }

  /** Handling a duplicate changes nothing but the reply. */
  lemma DuplicateTaken(s: Sys)
    requires s.rx.Coherent() && !s.rx.Closed() && WindowRx.WillRead(s.rx) && s.data != [] && IsData(s.data[0])
    requires
      var q, num := s.rx.(state := Rx.RxState.Validating), s.data[0].d.frame.num;
      WindowRx.Offset(q, num) == None && WindowRx.IsDuplicate(q, num)
    ensures
      var n := Taken(s);
      && n == s.(rx := n.rx, data := s.data[1..], replyIx := s.data[0].ix)
      && n.rx == s.rx.(out := n.rx.out, state := n.rx.state, pending := Some(WindowRx.PendingAction.Duplicate))
      && n.rx.Coherent()
      && FromBytes(n.rx.out.bytes) == Good(AckFrame(s.data[0].d.frame.num))
  {
    hide FromBytes, WindowRx.Handle, WindowRx.Offset, WindowRx.IsDuplicate, WindowRx.Blank;
    DuplicateReply(s.rx.(state := Rx.RxState.Validating), s.data[0].d.frame);
  }

  lemma SameRange(s: Sys, n: Sys, ix: nat)
    requires n.w == s.w && n.got == s.got && n.rx.limit == s.rx.limit && n.rx.buf == s.rx.buf && ReplyInRange(s, ix)
    ensures ReplyInRange(n, ix)
  {
    hide Accepted;
  }

  lemma DuplicateReplyOk(n: Sys, ix: nat)
    requires n.rx.pending == Some(WindowRx.PendingAction.Duplicate) && n.replyIx == ix < n.got
    requires FromBytes(n.rx.out.bytes) == Good(AckFrame(SeqOf(ix))) && ReplyInRange(n, ix)
    ensures ReplyOk(n)
  {
    hide FromBytes, SeqOf, ReplyInRange;
  }

  lemma InvParts(s: Sys)
    requires Inv(s)
    ensures ReceiverOk(s) && DataChannelOk(s) && AckChannelOk(s)
  {
  }

  /** A duplicate: acknowledged again, delivered not at all. */
  lemma TakenDuplicate(s: Sys)
    requires Inv(s) && s.data != [] && WindowRx.WillRead(s.rx) && IsData(s.data[0])
    requires s.rx.finishSeq == None && s.data[0].ix < s.got
    ensures RestOk(Taken(s))
  {
    hide Inv, ReceiverOk, ReplyOk, DataChannelOk, AckChannelOk, RestOk, Taken, SeqOf, ReplyInRange, FromBytes,
      WindowRx.Offset, WindowRx.IsDuplicate, WindowRx.Blank;
    InvParts(s);
    DuplicateFacts(s);
    DuplicateTaken(s);
    SameRange(s, Taken(s), s.data[0].ix);
    DuplicateReplyOk(Taken(s), s.data[0].ix);
    NothingStored(s, Taken(s));
  }

  /** What is known of the DATA frame about to be read. */
  lemma TakenFacts(s: Sys)
    requires Inv(s) && s.data != [] && IsData(s.data[0])
    ensures s.rx.Coherent() && !s.rx.abortLatched && s.got <= s.w.next <= s.got + s.rx.limit
    ensures s.got - s.rx.limit <= s.data[0].ix < s.got + s.rx.limit
    ensures s.data[0].ix < s.w.next == |s.offered|
    ensures s.data[0].d.frame == DataFrame(SeqOf(s.data[0].ix), s.offered[s.data[0].ix])
    ensures forall k :: Accepted(s.got, s.rx.buf, k) ==> k < s.data[0].ix + s.rx.limit
    ensures
      var q, num := s.rx.(state := Rx.RxState.Validating), s.data[0].d.frame.num;
      && (s.data[0].ix >= s.got ==> WindowRx.Offset(q, num) == Some(s.data[0].ix - s.got))
      && (s.data[0].ix < s.got ==> WindowRx.Offset(q, num) == None && WindowRx.IsDuplicate(q, num))
  {
    DataTailOk(s);
    DataIsUnambiguous(s, 0);
    OffsetIgnoresState(s.rx, s.data[0].d.frame.num);
    hide SenderOk, ReplyOk, AckChannelOk, Accepted, Stored, WindowRx.Offset, WindowRx.IsDuplicate, WindowRx.Blank;
    assert DataPacketOk(s, s.data[0]);
  }

  /** Storing index `ix` accepts it, unless it is the head, which its drain will accept. */
  lemma StoredAccepted(got: nat, buf: seq<Option<u8>>, off: nat, byte: u8, k: int)
    requires off < |buf|
    ensures
      var buf' := if buf[off] == None then buf[off := Some(byte)] else buf;
      && (Accepted(got, buf', k) <==> Accepted(got, buf, k) || (k == got + off && off > 0))
      && (Stored(got, buf', k) <==> Stored(got, buf, k) || k == got + off)
  {
  }

  /** What handling a byte inside the window leaves behind. */
  lemma InWindowReply(r: WindowRx.Model, f: Frame, off: nat)
    requires r.Coherent() && WindowRx.WillRead(r) && !r.Closed()
    requires f.kind == FrameType.Data && WindowRx.Offset(r, f.num) == Some(off)
    ensures
      var n := WindowRx.Handle(r, Good(f));
      && n == r.(buf := if r.buf[off] == None then r.buf[off := Some(f.data)] else r.buf,
                 out := Load(AckFrame(f.num)), state := Rx.RxState.Acknowledging,
                 pending := Some(if off == 0 then WindowRx.PendingAction.Drain else WindowRx.PendingAction.Quiet))
      && FromBytes(n.out.bytes) == Good(AckFrame(f.num))
  {
    LoadedReply(AckFrame(f.num));
    hide FromBytes, ToBytes, WindowRx.Offset;
  }

  /** A byte inside the window: stored, acknowledged, and drained if it fills the first gap. */
  lemma TakenInWindow(s: Sys)
    requires Inv(s) && s.data != [] && WindowRx.WillRead(s.rx) && IsData(s.data[0])
    requires s.rx.finishSeq == None && s.data[0].ix >= s.got
    ensures RestOk(Taken(s))
  {
    TakenFacts(s);
    var p, off := s.data[0], s.data[0].ix - s.got;
    hide SenderOk, ReceiverOk, ReplyOk, DataChannelOk, AckChannelOk, Accepted, Stored, FromBytes, WindowRx.Offset,
      WindowRx.IsDuplicate, WindowRx.Blank, HoldsOffered;
    InWindowReply(s.rx.(state := Rx.RxState.Validating), p.d.frame, off);
    hide WindowRx.Handle, Load;
    var n := Taken(s);
    forall k
      ensures Accepted(n.got, n.rx.buf, k) <==> Accepted(s.got, s.rx.buf, k) || (k == p.ix && off > 0)
      ensures Stored(n.got, n.rx.buf, k) <==> Stored(s.got, s.rx.buf, k) || k == p.ix
    {
      StoredAccepted(s.got, s.rx.buf, off, p.d.frame.data, k);
    }
    StoredChannelsOk(s, n);
    StoredReceiverOk(s, n, off);
  }

  lemma OffsetIgnoresState(r: WindowRx.Model, num: seqno)
    ensures WindowRx.Offset(r.(state := Rx.RxState.Validating), num) == WindowRx.Offset(r, num)
    ensures WindowRx.IsDuplicate(r.(state := Rx.RxState.Validating), num) == WindowRx.IsDuplicate(r, num)
  {
  }

  lemma StoredChannelsOk(s: Sys, n: Sys)
    requires Inv(s) && s.data != [] && IsData(s.data[0])
    requires n == s.(rx := n.rx, data := s.data[1..], replyIx := n.replyIx)
    requires n.rx.limit == s.rx.limit && n.rx.finishSeq == s.rx.finishSeq
    requires forall k :: Stored(n.got, n.rx.buf, k) ==> Stored(s.got, s.rx.buf, k) || k == s.data[0].ix
    requires forall k :: Accepted(s.got, s.rx.buf, k) ==> Accepted(n.got, n.rx.buf, k)
    ensures DataChannelOk(n) && AckChannelOk(n)
  {
    hide SenderOk, ReceiverOk, ReplyOk;
    DataTailOk(s);
    var m := s.(data := s.data[1..]);
    assert forall q :: DataPacketOk(m, q) ==> DataPacketOk(n, q);
    assert forall q :: AckPacketOk(s, q) ==> AckPacketOk(n, q);
  }

  lemma StoredReceiverOk(s: Sys, n: Sys, off: nat)
    requires Inv(s) && s.data != [] && IsData(s.data[0]) && s.rx.finishSeq == None
    requires s.data[0].ix == s.got + off && off < s.rx.limit && s.data[0].ix < s.w.next
    requires s.data[0].d.frame == DataFrame(SeqOf(s.data[0].ix), s.offered[s.data[0].ix])
    requires n == s.(rx := n.rx, data := s.data[1..], replyIx := s.data[0].ix)
    requires n.rx.Coherent()
    requires n.rx == s.rx.(buf := n.rx.buf, out := n.rx.out, state := n.rx.state, pending := n.rx.pending)
    requires n.rx.buf == if s.rx.buf[off] == None then s.rx.buf[off := Some(s.data[0].d.frame.data)] else s.rx.buf
    requires n.rx.pending == Some(if off == 0 then WindowRx.PendingAction.Drain else WindowRx.PendingAction.Quiet)
    requires FromBytes(n.rx.out.bytes) == Good(AckFrame(SeqOf(s.data[0].ix)))
    requires forall k :: Accepted(n.got, n.rx.buf, k) ==> Accepted(s.got, s.rx.buf, k) || k == s.data[0].ix
    ensures ReceiverOk(n) && ReplyOk(n)
  {
    hide SenderOk, AckChannelOk, FromBytes, ReplyOk, Stored, WindowRx.Blank;
    DataTailOk(s);
    if off > 0 {
      StoredAccepted(s.got, s.rx.buf, off, s.data[0].d.frame.data, s.data[0].ix);
    }
    hide DataChannelOk, Accepted;
    StoredReplyOk(s, n, off);
    StoredHoldsOffered(s.rx.buf, s.got, s.offered, off);
    hide HoldsOffered;
  }

  lemma StoredHoldsOffered(buf: seq<Option<u8>>, got: nat, offered: seq<u8>, off: nat)
    requires HoldsOffered(buf, got, offered) && off < |buf| && got + off < |offered|
    ensures HoldsOffered(if buf[off] == None then buf[off := Some(offered[got + off])] else buf, got, offered)
  {
  }

  lemma StoredReplyOk(s: Sys, n: Sys, off: nat)
    requires s.got <= s.w.next <= s.got + s.rx.limit && n.w == s.w && n.got == s.got && n.rx.limit == s.rx.limit
    requires n.replyIx == s.got + off && n.rx.Coherent() && off < s.rx.limit
    requires n.rx.pending == Some(if off == 0 then WindowRx.PendingAction.Drain else WindowRx.PendingAction.Quiet)
    requires FromBytes(n.rx.out.bytes) == Good(AckFrame(SeqOf(n.replyIx)))
    requires forall k :: Accepted(n.got, n.rx.buf, k) ==> k < n.replyIx + s.rx.limit
    requires off > 0 ==> Accepted(n.got, n.rx.buf, n.replyIx)
    ensures ReplyOk(n)
  {
    hide FromBytes, Accepted;
  }

  lemma AllAccepted(s: Sys)
    requires SenderOk(s.w, s.offered, s.acked, s.finishing) && AckChannelOk(s) && s.finishing
    ensures forall k: nat :: k < s.w.next ==> Accepted(s.got, s.rx.buf, k)
  {
    hide SendWindow.Inv, WindowTx.HasSession, Accepted;
  }

  /** Once FINISH has been offered, everything before it was accepted and nothing is stored ahead. */
  lemma FinishFindsNothingStored(s: Sys)
    requires Inv(s) && s.finishing
    ensures s.got == s.w.next
    ensures forall o :: 0 <= o < |s.rx.buf| ==> s.rx.buf[o] == None
  {
    hide SenderOk, ReplyOk, DataChannelOk, AckChannelOk, Delivers, WindowRx.Blank;
    AllAccepted(s);
    assert !Accepted(s.got, s.rx.buf, s.got);
  }

  lemma FinishReply(r: WindowRx.Model, num: seqno)
    requires r.Coherent() && WindowRx.WillRead(r) && !r.abortLatched && num == r.expected
    requires r.finishSeq == None || r.finishSeq == Some(num)
    requires WindowRx.Blank(r.buf, 0)
    ensures
      var n := WindowRx.Handle(r, Good(FinishFrame(num)));
      && n == r.(out := n.out, state := n.state, pending := Some(WindowRx.PendingAction.Finished),
                 finishSeq := Some(num))
      && FromBytes(n.out.bytes) == Good(AckFrame(num))
  {
    LoadedReply(AckFrame(num));
    hide FromBytes, ToBytes;
    assert WindowRx.EmptyBuf(|r.buf|) == r.buf;
  }

  lemma TakenFinish(s: Sys)
    requires Inv(s) && s.data != [] && WindowRx.WillRead(s.rx)
    requires s.data[0].d.Good? && s.data[0].d.frame.kind == FrameType.Finish
    ensures RestOk(Taken(s))
    ensures Taken(s).rx.finishSeq.Some?
  {
    FinishFacts(s);
    var num := s.data[0].d.frame.num;
    hide SenderOk, ReceiverOk, ReplyOk, DataChannelOk, AckChannelOk, Accepted, Stored, HoldsOffered, FromBytes;
    FinishReply(s.rx.(state := Rx.RxState.Validating), num);
    hide WindowRx.Handle, WindowRx.Blank;
    TakenFinishReplyOk(s, Taken(s));
    NothingStored(s, Taken(s));
  }

  /** What is known of the FINISH frame about to be read. */
  lemma FinishFacts(s: Sys)
    requires Inv(s) && s.data != [] && WindowRx.WillRead(s.rx)
    requires s.data[0].d.Good? && s.data[0].d.frame.kind == FrameType.Finish
    ensures s.finishing && s.got == s.w.next && s.data[0].ix == s.w.next
    ensures
      var num := s.data[0].d.frame.num;
      && s.data[0].d.frame == FinishFrame(num)
      && num == s.rx.expected == SeqOf(s.w.next)
      && (s.rx.finishSeq == None || s.rx.finishSeq == Some(num))
    ensures s.rx.Coherent() && !s.rx.abortLatched && WindowRx.Blank(s.rx.buf, 0)
  {
    FinishWasOffered(s);
    FinishFindsNothingStored(s);
    hide SenderOk, ReplyOk, AckChannelOk, Accepted, Stored, HoldsOffered;
    assert DataPacketOk(s, s.data[0]);
  }

  lemma FinishWasOffered(s: Sys)
    requires DataChannelOk(s) && s.data != [] && s.data[0].d.Good? && s.data[0].d.frame.kind == FrameType.Finish
    ensures s.finishing
  {
    assert DataPacketOk(s, s.data[0]);
  }

  lemma TakenFinishReplyOk(s: Sys, n: Sys)
    requires n.rx.pending == Some(WindowRx.PendingAction.Finished) && n.rx.finishSeq.Some?
    requires n.replyIx == n.w.next && FromBytes(n.rx.out.bytes) == Good(AckFrame(SeqOf(n.replyIx)))
    ensures ReplyOk(n)
  {
  }

  lemma TakenKeepsRest(s: Sys)
    requires Inv(s) && s.data != [] && WindowRx.WillRead(s.rx)
    ensures RestOk(Taken(s))
  {
    DataTailOk(s);
    var p := s.data[0];
    hide SenderOk, ReplyOk, AckChannelOk, FromBytes, ToBytes;
    if p.d.Bad? {
      TakenBad(s);
    } else if p.d.frame.kind == FrameType.Finish {
      TakenFinish(s);
    } else if s.rx.finishSeq.Some? {
      TakenAfterFinish(s);
    } else if p.ix < s.got {
      TakenDuplicate(s);
    } else {
      TakenInWindow(s);
    }
  }

  /** Writing the first byte of a reply neither completes it nor changes what it says. */
  lemma FirstReplyByte(r: WindowRx.Model, writeOk: bool)
    requires r.Coherent() && (r.out.Idle() || r.out.pos == 0)
    ensures
      var n := WindowRx.PumpReply(r, writeOk, true).next;
      n == r.(out := n.out, state := n.state) && n.out.bytes == r.out.bytes && n.Coherent()
  {
  }

  lemma HandledReplyIsFresh(r: WindowRx.Model, d: Decoded)
    requires r.Coherent() && WindowRx.WillRead(r)
    ensures
      var h := WindowRx.Handle(r, d);
      h.out.Idle() || h.out.pos == 0
  {
  }

  /** The whole step is `Taken` followed by a cosmetic change. */
  lemma RxFrameIsTaken(s: Sys, writeOk: bool)
    requires s.rx.Coherent() && WindowRx.WillRead(s.rx) && s.data != []
    ensures
      var t, n := Taken(s), RxFrameStep(s, writeOk);
      && n == t.(rx := n.rx)
      && n.rx == t.rx.(out := n.rx.out, state := n.rx.state) && n.rx.out.bytes == t.rx.out.bytes
      && n.rx.Coherent()
      && n.w == s.w && n.offered == s.offered && n.acked == s.acked && n.finishing == s.finishing
  {
    HandledReplyIsFresh(s.rx.(state := Rx.RxState.Validating), s.data[0].d);
    FirstReplyByte(Taken(s).rx, writeOk);
    hide WindowRx.Handle, WindowRx.PumpReply;
  }

  lemma RxFrameKeepsInv(s: Sys, writeOk: bool)
    requires Inv(s)
    ensures Inv(RxFrameStep(s, writeOk))
  {
    assert s.rx.Coherent();
    hide SenderOk, ReceiverOk, ReplyOk, DataChannelOk, AckChannelOk;
    if WindowRx.WillRead(s.rx) && s.data != [] {
      TakenKeepsRest(s);
      RxFrameIsTaken(s, writeOk);
      hide RxFrameStep, Taken;
      CosmeticOk(Taken(s), RxFrameStep(s, writeOk));
    }
  }

  // ------------------------------------------------------------ the receiver writes its reply

  /** A reply just completed lies within a window of the replies ahead of it. */
  lemma AppendAck(s: Sys, p: Packet)
    requires ReceiverOk(s) && AckChannelOk(s) && AckPacketOk(s, p)
    requires IsDataAck(p, s.w.next) ==>
      s.w.next <= p.ix + 2 * s.rx.limit && forall k :: Accepted(s.got, s.rx.buf, k) ==> k < p.ix + s.rx.limit
    ensures AckChannelOk(s.(acks := s.acks + [p]))
  {
    var n := s.(acks := s.acks + [p]);
    forall i | 0 <= i < |n.acks|
      ensures AckPacketOk(n, n.acks[i])
      ensures IsDataAck(n.acks[i], n.w.next) ==> Accepted(s.got, s.rx.buf, n.acks[i].ix)
    {
      if i < |s.acks| { assert AckPacketOk(s, s.acks[i]); } else { assert AckPacketOk(s, p); }
    }
  }

  lemma AcksOnlyAppendOk(s: Sys, n: Sys)
    requires n == s.(acks := n.acks)
    ensures ReceiverOk(s) ==> ReceiverOk(n)
    ensures ReplyOk(s) ==> ReplyOk(n)
    ensures DataChannelOk(s) ==> DataChannelOk(n)
  {
    AcksOnlyOk(s, n);
  }

  /** The receiver after its drain, with the bytes it now counts. */
  function Drained(s: Sys): Sys
    requires WindowRx.ReplyDone(s.rx.(out := s.rx.out.Commit())) && s.rx.pending == Some(WindowRx.PendingAction.Drain)
  {
    var q := s.rx.(out := s.rx.out.Commit());
    WindowRx.DrainDeliversRun(q);
    var (n, outcome) := WindowRx.TakePending(q);
    s.(rx := n, got := s.got + WindowRx.Run(s.rx.buf), delivered := s.delivered + [outcome.value.byte])
  }

  /** `n` is `s` after its receiver performed a drain of `r` bytes, the first of which is `byte`. */
  ghost predicate DrainedBy(s: Sys, n: Sys, r: nat, byte: u8) {
    && n == s.(rx := n.rx, got := s.got + r, delivered := s.delivered + [byte])
    && n.rx.Coherent()
    && 1 <= r <= |s.rx.buf|
    && (forall i :: 0 <= i < r ==> s.rx.buf[i].Some?)
    && s.rx.emit == []
    && n.rx.expected == (s.rx.expected + r) % 256
    && [byte] + n.rx.Queue() == WindowRx.Payloads(s.rx.buf, r)
    && n.rx.limit == s.rx.limit && n.rx.finishSeq == s.rx.finishSeq && n.rx.abortLatched == s.rx.abortLatched
    && n.rx.pending == None && |n.rx.buf| == |s.rx.buf|
    && (forall o :: 0 <= o < |s.rx.buf| ==> n.rx.buf[o] == if o + r < |s.rx.buf| then s.rx.buf[o + r] else None)
  }

  /** What a drain leaves alone. */
  lemma DrainTouches(q: WindowRx.Model)
    requires WindowRx.ReplyDone(q) && q.pending == Some(WindowRx.PendingAction.Drain)
    ensures
      var n := WindowRx.TakePending(q).0;
      && n.limit == q.limit && n.finishSeq == q.finishSeq && n.abortLatched == q.abortLatched
      && n.pending == None && |n.buf| == |q.buf| && n.out == q.out
  {
    hide WindowRx.Run, WindowRx.Shifted, WindowRx.Payloads, WindowRx.PushEmit;
  }

  lemma DrainedIsDrainedBy(s: Sys) returns (byte: u8)
    requires WindowRx.ReplyDone(s.rx.(out := s.rx.out.Commit())) && s.rx.pending == Some(WindowRx.PendingAction.Drain)
    ensures DrainedBy(s, Drained(s), WindowRx.Run(s.rx.buf), byte)
  {
    var q := s.rx.(out := s.rx.out.Commit());
    WindowRx.DrainDeliversRun(q);
    DrainTouches(q);
    byte := WindowRx.TakePending(q).1.value.byte;
    hide WindowRx.TakePending, WindowRx.Run, WindowRx.PopEmit, WindowRx.Payloads;
  }

  lemma PrefixGrows(offered: seq<u8>, got: nat, r: nat, byte: u8, rest: seq<u8>)
    requires got + r <= |offered|
    requires [byte] + rest == offered[got..got + r]
    ensures (offered[..got] + [byte]) + rest == offered[..got + r]
  {
    assert offered[..got + r] == offered[..got] + offered[got..got + r];
    assert (offered[..got] + [byte]) + rest == offered[..got] + ([byte] + rest);
  }

  lemma PayloadsAre(buf: seq<Option<u8>>, r: nat, offered: seq<u8>, got: nat)
    requires r <= |buf| && got + r <= |offered|
    requires forall i :: 0 <= i < r ==> buf[i].Some? && buf[i].value == offered[got + i]
    ensures WindowRx.Payloads(buf, r) == offered[got..got + r]
  {
  }

  lemma DrainedHoldsOffered(s: Sys, n: Sys, r: nat, byte: u8)
    requires HoldsOffered(s.rx.buf, s.got, s.offered) && DrainedBy(s, n, r, byte)
    ensures HoldsOffered(n.rx.buf, n.got, n.offered)
    ensures n.got <= |n.offered|
    ensures forall i :: 0 <= i < r ==> s.rx.buf[i].value == s.offered[s.got + i]
  {
    hide WindowRx.Payloads;
    assert s.rx.buf[r - 1].Some?;
  }

  lemma DrainedDelivers(s: Sys, n: Sys, r: nat, byte: u8)
    requires HoldsOffered(s.rx.buf, s.got, s.offered) && DrainedBy(s, n, r, byte) && s.got <= |s.offered|
    requires s.rx.Valid()
    requires Delivers(s.delivered, s.rx, s.offered, s.got)
    ensures n.got <= |n.offered|
    ensures Delivers(n.delivered, n.rx, n.offered, n.got)
  {
    DrainedHoldsOffered(s, n, r, byte);
    PayloadsAre(s.rx.buf, r, s.offered, s.got);
    assert s.delivered + s.rx.Queue() == s.delivered;
    hide WindowRx.Payloads, HoldsOffered;
    PrefixGrows(s.offered, s.got, r, byte, n.rx.Queue());
  }

  lemma DrainedReceiverOk(s: Sys, n: Sys, r: nat, byte: u8)
    requires ReceiverOk(s) && DrainedBy(s, n, r, byte) && s.rx.finishSeq == None
    ensures ReceiverOk(n)
  {
    hide WindowRx.Payloads, HoldsOffered, Delivers, WindowRx.Blank, SeqOf;
    DrainedHoldsOffered(s, n, r, byte);
    DrainedDelivers(s, n, r, byte);
    AddToIndex(s.got, r);
  }

  /** Draining moves the boundary but not the set of received indices. */
  lemma DrainedIndices(got: nat, buf: seq<Option<u8>>, r: nat, buf': seq<Option<u8>>, k: int)
    requires 1 <= r <= |buf| == |buf'|
    requires forall i :: 0 <= i < r ==> buf[i].Some?
    requires forall o :: 0 <= o < |buf| ==> buf'[o] == if o + r < |buf| then buf[o + r] else None
    requires buf'[0] == None
    ensures Stored(got + r, buf', k) <==> Stored(got, buf, k)
    ensures Accepted(got + r, buf', k) <==> Stored(got, buf, k)
    ensures Stored(got, buf, k) <==> Accepted(got, buf, k) || k == got
  {
  }

  lemma DrainFacts(s: Sys)
    requires ReceiverOk(s) && s.rx.pending == Some(WindowRx.PendingAction.Drain)
    ensures s.rx.buf[0].Some? && s.got < s.w.next <= s.got + s.rx.limit
    ensures s.rx.limit >= 1
  {
  }

  lemma DrainedRestOk(s: Sys, n: Sys, r: nat, byte: u8)
    requires ReceiverOk(s) && ReplyOk(s) && DataChannelOk(s) && AckChannelOk(s)
    requires s.rx.pending == Some(WindowRx.PendingAction.Drain) && s.rx.finishSeq == None
    requires DrainedBy(s, n, r, byte) && n.rx.buf[0] == None
    ensures RestOk(n)
    ensures RestOk(n.(acks := s.acks + [Packet(FromBytes(s.rx.out.bytes), s.replyIx)]))
  {
    hide Accepted, Stored, ReceiverOk, FromBytes, HoldsOffered, WindowRx.Payloads, WindowRx.Blank;
    DrainFacts(s);
    DrainedReceiverOk(s, n, r, byte);
    var p := Packet(FromBytes(s.rx.out.bytes), s.replyIx);
    forall k
      ensures Stored(n.got, n.rx.buf, k) <==> Stored(s.got, s.rx.buf, k)
      ensures Accepted(n.got, n.rx.buf, k) <==> Stored(s.got, s.rx.buf, k)
      ensures Stored(s.got, s.rx.buf, k) <==> Accepted(s.got, s.rx.buf, k) || k == s.got
    {
      DrainedIndices(s.got, s.rx.buf, r, n.rx.buf, k);
    }
    DrainedChannelsOk(s, n);
    AppendAck(n, p);
    AcksOnlyAppendOk(n, n.(acks := s.acks + [p]));
  }

  lemma DrainedChannelsOk(s: Sys, n: Sys)
    requires DataChannelOk(s) && AckChannelOk(s)
    requires n == s.(rx := n.rx, got := n.got, delivered := n.delivered)
    requires n.rx.limit == s.rx.limit && n.rx.finishSeq == s.rx.finishSeq
    requires forall k :: Stored(n.got, n.rx.buf, k) <==> Stored(s.got, s.rx.buf, k)
    requires forall k :: Accepted(s.got, s.rx.buf, k) ==> Accepted(n.got, n.rx.buf, k)
    ensures DataChannelOk(n) && AckChannelOk(n)
  {
    hide Accepted, Stored;
    assert forall p :: DataPacketOk(s, p) ==> DataPacketOk(n, p);
    assert forall p :: AckPacketOk(s, p) ==> AckPacketOk(n, p);
  }

  /** A reply other than a drain completed: its packet joins the channel, nothing else moves. */
  lemma RepliedRestOk(s: Sys, n: Sys)
    requires ReceiverOk(s) && ReplyOk(s) && DataChannelOk(s) && AckChannelOk(s)
    requires s.rx.pending.Some? && s.rx.pending.value != WindowRx.PendingAction.Drain
    requires n == s.(rx := n.rx, acks := s.acks + [Packet(FromBytes(s.rx.out.bytes), s.replyIx)])
    requires n.rx.Coherent() && n.rx.pending == None
    requires n.rx == s.rx.(out := n.rx.out, state := n.rx.state, pending := None)
    ensures RestOk(n)
  {
    hide FromBytes;
    var p := Packet(FromBytes(s.rx.out.bytes), s.replyIx);
    AppendAck(s, p);
    var m := s.(acks := n.acks);
    AcksOnlyAppendOk(s, m);
    hide Accepted, Stored;
    assert forall q :: AckPacketOk(m, q) ==> AckPacketOk(n, q);
    assert forall q :: DataPacketOk(m, q) ==> DataPacketOk(n, q);
  }

  /** What completing a reply other than a drain does to the receiver. */
  lemma TakePendingIsCosmetic(q: WindowRx.Model)
    requires WindowRx.ReplyDone(q) && q.pending.value != WindowRx.PendingAction.Drain
    requires q.pending.value != WindowRx.PendingAction.Started
    ensures
      var (n, outcome) := WindowRx.TakePending(q);
      && n == q.(state := n.state, pending := None)
      && !Rx.OrPending(outcome).Delivered?
  {
  }

  lemma RxReplyKeepsRest(s: Sys, writeOk: bool)
    requires RestOk(s) && !s.rx.out.Idle()
    ensures RestOk(RxPollStep(s, writeOk))
  {
    var n := RxPollStep(s, writeOk);
    var q := s.rx.(out := s.rx.out.Commit());
    if writeOk && q.out.Idle() {
      WindowRx.TakePendingIsCoherent(q);
      if s.rx.pending == Some(WindowRx.PendingAction.Drain) {
        var byte := DrainedIsDrainedBy(s);
        RxDrainIs(s);
        hide WindowRx.Run, WindowRx.TakePending, RxPollStep, Drained, FromBytes;
        DrainedRestOk(s, Drained(s), WindowRx.Run(s.rx.buf), byte);
      } else {
        TakePendingIsCosmetic(q);
        hide WindowRx.Run, WindowRx.TakePending, FromBytes, ReceiverOk, DataChannelOk, AckChannelOk;
        RepliedRestOk(s, n);
      }
    } else {
      hide WindowRx.Run, WindowRx.TakePending, FromBytes, ReceiverOk, ReplyOk, DataChannelOk, AckChannelOk;
      CosmeticOk(s, n);
    }
  }

  lemma RxDrainIs(s: Sys)
    requires s.rx.Coherent() && s.rx.pending == Some(WindowRx.PendingAction.Drain) && s.rx.out.Commit().Idle()
    ensures WindowRx.ReplyDone(s.rx.(out := s.rx.out.Commit()))
    ensures RxPollStep(s, true) == Drained(s).(acks := s.acks + [Packet(FromBytes(s.rx.out.bytes), s.replyIx)])
  {
    hide FromBytes, WindowRx.Run, WindowRx.DrainInOrder, WindowRx.PopEmit;
    WindowRx.DrainDeliversRun(s.rx.(out := s.rx.out.Commit()));
    DrainTouches(s.rx.(out := s.rx.out.Commit()));
  }

  /** Handing out a queued byte moves it from the queue to the application. */
  lemma RxPopKeepsRest(s: Sys, writeOk: bool)
    requires RestOk(s) && s.rx.emit != []
    ensures RestOk(RxPollStep(s, writeOk))
  {
    var (r, byte) := WindowRx.PopEmit(s.rx);
    var n := RxPollStep(s, writeOk);
    assert n == s.(rx := r, delivered := s.delivered + [byte.value]);
    assert (s.delivered + [byte.value]) + r.Queue() == s.delivered + ([byte.value] + r.Queue());
    assert r == s.rx.(emit := r.emit, emitAt := r.emitAt);
    hide FromBytes, Accepted, Stored;
    assert forall q :: AckPacketOk(s, q) ==> AckPacketOk(n, q);
    assert forall q :: DataPacketOk(s, q) ==> DataPacketOk(n, q);
  }

  lemma RxPollKeepsInv(s: Sys, writeOk: bool)
    requires Inv(s)
    ensures Inv(RxPollStep(s, writeOk))
  {
    assert RestOk(s);
    if s.rx.emit != [] {
      RxPopKeepsRest(s, writeOk);
    } else if !s.rx.out.Idle() {
      RxReplyKeepsRest(s, writeOk);
    } else {
      var n := RxPollStep(s, writeOk);
      hide SenderOk, ReceiverOk, ReplyOk, DataChannelOk, AckChannelOk;
      CosmeticOk(s, n);
    }
  }

  // ------------------------------------------------------------ the channel's faults

  lemma LoseDataKeepsInv(s: Sys, at: nat)
    requires Inv(s)
    ensures Inv(s.(data := Drop(s.data, at)))
  {
    hide SenderOk, ReceiverOk, ReplyOk, AckChannelOk, Accepted, Stored;
    var n := s.(data := Drop(s.data, at));
    if at < |s.data| {
      forall i | 0 <= i < |n.data|
        ensures n.data[i] == s.data[if i < at then i else i + 1] && DataPacketOk(n, n.data[i])
      {
        assert DataPacketOk(s, s.data[if i < at then i else i + 1]);
      }
    }
    DataOnlyOk(s, n);
  }

  lemma CorruptDataKeepsInv(s: Sys, at: nat, error: FrameError)
    requires Inv(s)
    ensures Inv(s.(data := Corrupt(s.data, at, error)))
  {
    hide SenderOk, ReceiverOk, ReplyOk, AckChannelOk, Accepted, Stored;
    var n := s.(data := Corrupt(s.data, at, error));
    if at < |s.data| {
      forall i | 0 <= i < |n.data|
        ensures i != at ==> n.data[i] == s.data[i]
        ensures DataPacketOk(n, n.data[i])
      {
        assert DataPacketOk(s, s.data[i]);
      }
    }
    DataOnlyOk(s, n);
  }

  lemma LoseAckKeepsInv(s: Sys, at: nat)
    requires Inv(s)
    ensures Inv(s.(acks := Drop(s.acks, at)))
  {
    hide SenderOk, ReceiverOk, ReplyOk, DataChannelOk, Accepted, Stored;
    var n := s.(acks := Drop(s.acks, at));
    if at < |s.acks| {
      forall i | 0 <= i < |n.acks|
        ensures n.acks[i] == s.acks[if i < at then i else i + 1] && AckPacketOk(n, n.acks[i])
      {
        assert AckPacketOk(s, s.acks[if i < at then i else i + 1]);
      }
    }
    AcksOnlyOk(s, n);
  }

  lemma CorruptAckKeepsInv(s: Sys, at: nat, error: FrameError)
    requires Inv(s)
    ensures Inv(s.(acks := Corrupt(s.acks, at, error)))
  {
    hide SenderOk, ReceiverOk, ReplyOk, DataChannelOk, Accepted, Stored;
    var n := s.(acks := Corrupt(s.acks, at, error));
    if at < |s.acks| {
      forall i | 0 <= i < |n.acks|
        ensures i != at ==> n.acks[i] == s.acks[i]
        ensures AckPacketOk(n, n.acks[i])
      {
        assert AckPacketOk(s, s.acks[i]);
      }
    }
    AcksOnlyOk(s, n);
  }

  lemma StrayDataKeepsInv(s: Sys, at: nat, error: FrameError)
    requires Inv(s)
    ensures Inv(s.(data := Stray(s.data, at, error)))
  {
    hide SenderOk, ReceiverOk, ReplyOk, AckChannelOk, Accepted, Stored;
    var n := s.(data := Stray(s.data, at, error));
    if at <= |s.data| {
      forall i | 0 <= i < |n.data|
        ensures i != at ==> n.data[i] == s.data[if i < at then i else i - 1]
        ensures DataPacketOk(n, n.data[i])
      {
        assert i != at ==> DataPacketOk(s, s.data[if i < at then i else i - 1]);
      }
    }
    DataOnlyOk(s, n);
  }

  lemma StrayAckKeepsInv(s: Sys, at: nat, error: FrameError)
    requires Inv(s)
    ensures Inv(s.(acks := Stray(s.acks, at, error)))
  {
    hide SenderOk, ReceiverOk, ReplyOk, DataChannelOk, Accepted, Stored;
    var n := s.(acks := Stray(s.acks, at, error));
    if at <= |s.acks| {
      forall i | 0 <= i < |n.acks|
        ensures i != at ==> n.acks[i] == s.acks[if i < at then i else i - 1]
        ensures AckPacketOk(n, n.acks[i])
      {
        assert i != at ==> AckPacketOk(s, s.acks[if i < at then i else i - 1]);
      }
    }
    AcksOnlyOk(s, n);
  }

  // ------------------------------------------------------------ every run

  lemma InvIsSound(s: Sys)
    requires Inv(s)
    ensures Sound(s)
  {
    hide ReplyOk, DataChannelOk, AckChannelOk;
  }

  lemma StepKeepsInv(s: Sys, e: Event)
    requires Inv(s)
    ensures Inv(Step(s, e))
  {
    hide Inv, OfferStep, OfferEndStep, TxPollStep, TxFrameStep, RxPollStep, RxFrameStep, Drop, Corrupt, Stray,
      WindowTx.Model.Coherent, WindowRx.Model.Coherent;
    InvIsSound(s);
    match e
    case OfferByte(byte) => OfferKeepsInv(s, byte);
    case OfferEnd => OfferEndKeepsInv(s);
    case TxPoll(writeOk) => TxPollKeepsInv(s, writeOk);
    case TxFrame => TxFrameKeepsInv(s);
    case RxPoll(writeOk) => RxPollKeepsInv(s, writeOk);
    case RxFrame(writeOk) => RxFrameKeepsInv(s, writeOk);
    case LoseData(at) => LoseDataKeepsInv(s, at);
    case LoseAck(at) => LoseAckKeepsInv(s, at);
    case CorruptData(at, error) => CorruptDataKeepsInv(s, at, error);
    case CorruptAck(at, error) => CorruptAckKeepsInv(s, at, error);
    case StrayData(at, error) => StrayDataKeepsInv(s, at, error);
    case StrayAck(at, error) => StrayAckKeepsInv(s, at, error);
  }

  /** The state after any sequence of events. */
  function Run(s: Sys, events: seq<Event>): (end: Sys)
    requires Sound(s)
    ensures Sound(end)
    decreases |events|
  {
    if events == [] then s else Run(Step(s, events[0]), events[1..])
  }

  function RunFromStart(n: nat, m: nat, limit: nat, policy: Tx.RetryPolicy, events: seq<Event>): (end: Sys)
    requires 1 <= n <= WindowTx.MAX_WINDOW && 1 <= m <= WindowTx.MAX_WINDOW && 1 <= limit <= n && limit <= m
    ensures Sound(end)
  {
    Run(PowerUp(n, m, limit, policy), events)
  }

  lemma {:induction false} RunKeepsInv(s: Sys, events: seq<Event>)
    requires Sound(s) && Inv(s)
    ensures Inv(Run(s, events))
    decreases |events|
  {
    hide Inv, Step;
    if events != [] {
      StepKeepsInv(s, events[0]);
      RunKeepsInv(Step(s, events[0]), events[1..]);
    }
  }

  lemma EveryRunKeepsInv(n: nat, m: nat, limit: nat, policy: Tx.RetryPolicy, events: seq<Event>)
    requires 1 <= n <= WindowTx.MAX_WINDOW && 1 <= m <= WindowTx.MAX_WINDOW && 1 <= limit <= n && limit <= m
    ensures Inv(RunFromStart(n, m, limit, policy, events))
  {
    hide Inv, Run, PowerUp;
    PowerUpIsInv(n, m, limit, policy);
    RunKeepsInv(PowerUp(n, m, limit, policy), events);
  }

  /** What the invariant says about the application's two ends. */
  lemma InvDelivers(s: Sys)
    requires Inv(s)
    ensures s.delivered <= s.offered
    ensures s.w.tx.state == Tx.TxState.Finished ==> s.rx.finishSeq.Some?
    ensures s.rx.finishSeq.Some? ==> s.delivered == s.offered
  {
    hide SenderOk, ReplyOk, DataChannelOk, AckChannelOk, HoldsOffered, WindowRx.Blank;
    DeliversIsPrefix(s.delivered, s.rx, s.offered, s.got);
    hide Delivers;
  }

  lemma DeliversIsPrefix(delivered: seq<u8>, rx: WindowRx.Model, offered: seq<u8>, got: nat)
    requires rx.Valid() && got <= |offered| && Delivers(delivered, rx, offered, got)
    ensures delivered <= offered
    ensures rx.emit == [] && got == |offered| ==> delivered == offered
  {
    assert delivered == offered[..|delivered|];
  }

  /**
    Safety, for every window, policy, and sequence of offers, polls, losses,
    corruptions and stray words, over any number of SEQ wraps: what the application was given is
    a prefix of what was offered.
   */
  lemma DeliveredIsPrefix(n: nat, m: nat, limit: nat, policy: Tx.RetryPolicy, events: seq<Event>)
    requires 1 <= n <= WindowTx.MAX_WINDOW && 1 <= m <= WindowTx.MAX_WINDOW && 1 <= limit <= n && limit <= m
    ensures
      var end := RunFromStart(n, m, limit, policy, events);
      end.delivered <= end.offered
  {
    hide Inv, RunFromStart;
    EveryRunKeepsInv(n, m, limit, policy, events);
    InvDelivers(RunFromStart(n, m, limit, policy, events));
  }

  /** What the sender answers when it polls or reads a frame. */
  function SenderSays(s: Sys, e: Event): Result<Tx.TxPoll>
    requires Sound(s)
  {
    match e
    case TxPoll(writeOk) => WindowTx.Poll(s.w.tx, Io(writeOk, NoByte)).result
    case TxFrame =>
      if WindowTx.WillRead(s.w.tx) && s.acks != [] && s.acks[0].d.Good?
      then WindowTx.OnControl(s.w.tx, s.acks[0].d.frame).1
      else Ok(Tx.TxPoll.Pending)
    case _ => Ok(Tx.TxPoll.Pending)
  }

  /** What the receiver answers when it polls or reads a frame. */
  function ReceiverSays(s: Sys, e: Event): Result<Rx.PollOutcome>
    requires Sound(s)
  {
    match e
    case RxPoll(writeOk) => WindowRx.Poll(s.rx, Io(writeOk, NoByte)).result
    case RxFrame(writeOk) =>
      if WindowRx.WillRead(s.rx) && s.data != [] then WindowRx.OnWord(s.rx, s.data[0].d, writeOk).result
      else Ok(Rx.PollOutcome.Pending)
    case _ => Ok(Rx.PollOutcome.Pending)
  }

  /** After a step that says so the sender is finished, and the step left the receiver alone. */
  lemma DoneFinishes(s: Sys, e: Event)
    requires Sound(s) && SenderSays(s, e) == Ok(Tx.TxPoll.TransferDone)
    ensures
      var n := Step(s, e);
      n.w.tx.state == Tx.TxState.Finished && n.rx == s.rx && n.delivered == s.delivered && n.offered == s.offered
  {
    match e {
      case TxPoll(writeOk) =>
        Settling.DoneMeansFinished(s.w.tx, Io(writeOk, NoByte));
        SendWindow.StepPollIsPoll(s.w, Io(writeOk, NoByte));
        hide WindowTx.Poll, SendWindow.StepPoll, FromBytes;
      case TxFrame =>
        Settling.ControlDone(s.w.tx, s.acks[0].d.frame);
        hide WindowTx.OnControl, WindowTx.NextToWrite, WindowTx.SessionAlone;
      case _ =>
    }
  }

  /** The receiver reports the end of a transfer only when it has acknowledged a FINISH. */
  lemma FinishedIsLatched(s: Sys, e: Event)
    requires Sound(s) && ReplyOk(s) && ReceiverSays(s, e) == Ok(Rx.PollOutcome.TransferFinished)
    ensures s.rx.finishSeq.Some?
  {
    match e {
      case RxPoll(writeOk) =>
        FinishedIsPending(s.rx, Io(writeOk, NoByte));
        hide WindowRx.Poll, FromBytes;
      case RxFrame(writeOk) =>
        BeginningReportsNothing(s.rx, s.data[0].d, writeOk);
        hide WindowRx.OnWord, FromBytes;
      case _ =>
    }
  }

  lemma FinishedIsPending(r: WindowRx.Model, io: Io)
    requires r.Coherent() && !io.read.GotByte?
    requires WindowRx.Poll(r, io).result == Ok(Rx.PollOutcome.TransferFinished)
    ensures r.pending == Some(WindowRx.PendingAction.Finished)
  {
    hide WindowRx.DrainInOrder, WindowRx.Blank;
  }

  lemma BeginningReportsNothing(r: WindowRx.Model, d: Decoded, writeOk: bool)
    requires r.Coherent() && WindowRx.WillRead(r)
    ensures WindowRx.OnWord(r, d, writeOk).result == Ok(Rx.PollOutcome.Pending)
      || WindowRx.OnWord(r, d, writeOk).result == Err(TransportFault)
  {
    hide ToBytes, WindowRx.TakePending, WindowRx.Handle, WindowRx.Blank;
    Reorder.RepliesStartWhole(r.(state := Rx.RxState.Validating), d);
  }

  lemma DoneIsExact(s: Sys, e: Event)
    requires Sound(s) && Inv(s)
    ensures SenderSays(s, e) == Ok(Tx.TxPoll.TransferDone) ==> s.rx.finishSeq.Some? && s.delivered == s.offered
    ensures ReceiverSays(s, e) == Ok(Rx.PollOutcome.TransferFinished) ==>
      s.rx.finishSeq.Some? && s.delivered == s.offered
  {
    hide Inv, Step, SenderSays, ReceiverSays;
    InvDelivers(s);
    if SenderSays(s, e) == Ok(Tx.TxPoll.TransferDone) {
      DoneFinishes(s, e);
      StepKeepsInv(s, e);
      InvDelivers(Step(s, e));
    }
    if ReceiverSays(s, e) == Ok(Rx.PollOutcome.TransferFinished) {
      InvReplies(s);
      FinishedIsLatched(s, e);
    }
  }

  lemma InvReplies(s: Sys)
    requires Inv(s)
    ensures ReplyOk(s)
  {
  }

  /**
    Completion is exact, by what the polls report: when a poll of the sender says
    `TransferDone`, or one of the receiver `TransferFinished`, FINISH is latched
    and the application holds exactly the offered bytes; so it does whenever the
    sender is finished, and the latch alone is already enough.
   */
  lemma CompletionIsExact(n: nat, m: nat, limit: nat, policy: Tx.RetryPolicy, events: seq<Event>)
    requires 1 <= n <= WindowTx.MAX_WINDOW && 1 <= m <= WindowTx.MAX_WINDOW && 1 <= limit <= n && limit <= m
    ensures
      var end := RunFromStart(n, m, limit, policy, events);
      && (end.w.tx.state == Tx.TxState.Finished ==> end.rx.finishSeq.Some?)
      && (end.rx.finishSeq.Some? ==> end.delivered == end.offered)
      && (forall e :: SenderSays(end, e) == Ok(Tx.TxPoll.TransferDone) ==>
            end.rx.finishSeq.Some? && end.delivered == end.offered)
      && (forall e :: ReceiverSays(end, e) == Ok(Rx.PollOutcome.TransferFinished) ==>
            end.rx.finishSeq.Some? && end.delivered == end.offered)
  {
    hide Inv, RunFromStart, SenderSays, ReceiverSays;
    EveryRunKeepsInv(n, m, limit, policy, events);
    var end := RunFromStart(n, m, limit, policy, events);
    InvDelivers(end);
    forall e
      ensures SenderSays(end, e) == Ok(Tx.TxPoll.TransferDone) ==>
        end.rx.finishSeq.Some? && end.delivered == end.offered
      ensures ReceiverSays(end, e) == Ok(Rx.PollOutcome.TransferFinished) ==>
        end.rx.finishSeq.Some? && end.delivered == end.offered
    {
      DoneIsExact(end, e);
    }
  }

  /** FINISH at the head of the data channel finds nothing stored, and is the one expected. */
  lemma FinishFindsWindowClear(s: Sys)
    requires Inv(s) && WindowRx.WillRead(s.rx) && s.data != []
    requires s.data[0].d.Good? && s.data[0].d.frame.kind == FrameType.Finish
    ensures WindowRx.ClearWindow(s.rx) == s.rx
    ensures s.data[0].d.frame.num == s.rx.expected
    ensures s.delivered == s.offered
  {
    assert DataPacketOk(s, s.data[0]);
    FinishFindsNothingStored(s);
    assert s.rx.buf == WindowRx.EmptyBuf(|s.rx.buf|);
    DeliversIsPrefix(s.delivered, s.rx, s.offered, s.got);
  }

  /**
    In every reachable state, a FINISH the receiver is about to read is the one
    it expects, and its reorder buffer and emit queue are already empty: clearing
    the window discards nothing, and every offered byte was delivered.
   */
  lemma FinishDiscardsNothing(n: nat, m: nat, limit: nat, policy: Tx.RetryPolicy, events: seq<Event>)
    requires 1 <= n <= WindowTx.MAX_WINDOW && 1 <= m <= WindowTx.MAX_WINDOW && 1 <= limit <= n && limit <= m
    ensures
      var s := RunFromStart(n, m, limit, policy, events);
      WindowRx.WillRead(s.rx) && s.data != [] && s.data[0].d.Good? && s.data[0].d.frame.kind == FrameType.Finish ==>
        && WindowRx.ClearWindow(s.rx) == s.rx
        && s.data[0].d.frame.num == s.rx.expected
        && s.delivered == s.offered
  {
    hide Inv, RunFromStart, WindowRx.ClearWindow;
    EveryRunKeepsInv(n, m, limit, policy, events);
    var s := RunFromStart(n, m, limit, policy, events);
    if WindowRx.WillRead(s.rx) && s.data != [] && s.data[0].d.Good? && s.data[0].d.frame.kind == FrameType.Finish {
      FinishFindsWindowClear(s);
    }
  }

  /**
    Mod 256 is never ambiguous for replies: an ACK in flight is about an index
    within two windows of the next one to be offered, and the slot it frees
    holds exactly that index.
   */
  lemma AcksAreUnambiguous(s: Sys, j: nat)
    requires Inv(s) && j < |s.acks| && s.acks[j].d.Good? && s.acks[j].d.frame.kind == FrameType.Ack
    ensures s.w.next - 2 * s.rx.limit <= s.acks[j].ix <= s.w.next
    ensures forall i :: 0 <= i < |s.w.ix| && WindowTx.Carries(s.w.tx.slots[i], s.acks[j].d.frame.num) ==>
      s.w.ix[i] == s.acks[j].ix
  {
    var p := s.acks[j];
    assert AckPacketOk(s, p);
    if Accepted(s.got, s.rx.buf, p.ix) {
      AcceptedWasOffered(s, p.ix);
      assert IsDataAck(p, s.w.next);
    }
    forall i | 0 <= i < |s.w.ix| && WindowTx.Carries(s.w.tx.slots[i], p.d.frame.num)
      ensures s.w.ix[i] == p.ix
    {
      SlotIndexBound(s.w, i);
      SeqOfInjective(s.w.ix[i], p.ix);
    }
  }

  /** The receiver takes the frame for the index it is about: a place in its window, or a past one. */
  ghost predicate ReadAsMeant(s: Sys, p: Packet)
    requires p.d.Good?
  {
    && s.got - s.rx.limit <= p.ix < s.got + s.rx.limit
    && (p.ix >= s.got ==> WindowRx.Offset(s.rx, p.d.frame.num) == Some(p.ix - s.got))
    && (p.ix < s.got ==> WindowRx.Offset(s.rx, p.d.frame.num) == None && WindowRx.IsDuplicate(s.rx, p.d.frame.num))
  }

  /** No slot but that of the index an ACK is about can be freed by it. */
  ghost predicate FreesAsMeant(s: Sys, p: Packet)
    requires p.d.Good? && |s.w.ix| == |s.w.tx.slots|
  {
    && s.w.next - 2 * s.rx.limit <= p.ix <= s.w.next
    && forall i :: 0 <= i < |s.w.ix| && WindowTx.Carries(s.w.tx.slots[i], p.d.frame.num) ==> s.w.ix[i] == p.ix
  }

  /**
    Mod 256 is never ambiguous: in every reachable state each DATA frame in
    flight is about an index within a window of the expected one, and is read as
    that index, never rejected; each ACK in flight is within two windows of the
    next index, and can free only the slot of the index it is about.
   */
  lemma NothingIsAmbiguous(n: nat, m: nat, limit: nat, policy: Tx.RetryPolicy, events: seq<Event>)
    requires 1 <= n <= WindowTx.MAX_WINDOW && 1 <= m <= WindowTx.MAX_WINDOW && 1 <= limit <= n && limit <= m
    ensures
      var end := RunFromStart(n, m, limit, policy, events);
      && |end.w.ix| == |end.w.tx.slots|
      && (forall j :: 0 <= j < |end.data| && IsData(end.data[j]) ==> ReadAsMeant(end, end.data[j]))
      && (forall j :: 0 <= j < |end.acks| && end.acks[j].d.Good? && end.acks[j].d.frame.kind == FrameType.Ack ==>
            FreesAsMeant(end, end.acks[j]))
  {
    hide Inv, RunFromStart, ReadAsMeant, FreesAsMeant;
    EveryRunKeepsInv(n, m, limit, policy, events);
    var end := RunFromStart(n, m, limit, policy, events);
    SlotsAreIndexed(end);
    forall j | 0 <= j < |end.data| && IsData(end.data[j])
      ensures ReadAsMeant(end, end.data[j])
    {
      DataReadAsMeant(end, j);
    }
    forall j | 0 <= j < |end.acks| && end.acks[j].d.Good? && end.acks[j].d.frame.kind == FrameType.Ack
      ensures FreesAsMeant(end, end.acks[j])
    {
      AckFreesAsMeant(end, j);
    }
  }

  lemma SlotsAreIndexed(s: Sys)
    requires Inv(s)
    ensures |s.w.ix| == |s.w.tx.slots|
  {
  }

  lemma DataReadAsMeant(s: Sys, j: nat)
    requires Inv(s) && j < |s.data| && IsData(s.data[j])
    ensures ReadAsMeant(s, s.data[j])
  {
    hide Inv;
    DataIsUnambiguous(s, j);
  }

  lemma AckFreesAsMeant(s: Sys, j: nat)
    requires Inv(s) && j < |s.acks| && s.acks[j].d.Good? && s.acks[j].d.frame.kind == FrameType.Ack
    ensures |s.w.ix| == |s.w.tx.slots| && FreesAsMeant(s, s.acks[j])
  {
    hide Inv;
    SlotsAreIndexed(s);
    AcksAreUnambiguous(s, j);
  }

  // ------------------------------------------------------------ from polls to frames

  /** A byte that does not complete a frame only accumulates. */
  lemma PollAccumulates(t: WindowTx.Model, byte: u8, writeOk: bool)
    requires t.Coherent() && WindowTx.WillRead(t) && |t.asm.buf| < 3
    ensures WindowTx.Poll(t, Io(writeOk, GotByte(byte))).next == t.(asm := t.asm.(buf := t.asm.buf + [byte]))
  {
    hide FromBytes, WindowTx.OnControl, WindowTx.NextToWrite, WindowTx.SessionAlone, WindowTx.Empty;
  }

  /** The byte that completes a frame hands it to the sender. */
  lemma PollCompletes(t: WindowTx.Model, byte: u8, f: Frame, writeOk: bool)
    requires t.Coherent() && WindowTx.WillRead(t) && |t.asm.buf| == 3 && !t.asm.resync
    requires FromBytes(t.asm.buf + [byte]) == Good(f)
    ensures
      var p := WindowTx.Poll(t, Io(writeOk, GotByte(byte)));
      (p.next, p.result) == WindowTx.OnControl(t.(asm := FRESH_PLAIN), f)
  {
    hide FromBytes, WindowTx.OnControl, WindowTx.NextToWrite, WindowTx.SessionAlone, WindowTx.Empty, KnownType;
    assert Push(t.asm, byte) == (FRESH_PLAIN, Some(t.asm.buf + [byte]));
  }

  /** A waiting sender that is fed the four bytes of a frame does exactly what `TxFrame` says. */
  lemma FourPollsReadOneFrame(t: WindowTx.Model, word: Word, f: Frame, writeOk: bool)
    requires t.Coherent() && WindowTx.WillRead(t) && t.asm == FRESH_PLAIN && FromBytes(word) == Good(f)
    ensures
      var t1 := WindowTx.Poll(t, Io(writeOk, GotByte(word[0]))).next;
      var t2 := WindowTx.Poll(t1, Io(writeOk, GotByte(word[1]))).next;
      var t3 := WindowTx.Poll(t2, Io(writeOk, GotByte(word[2]))).next;
      var p4 := WindowTx.Poll(t3, Io(writeOk, GotByte(word[3])));
      (p4.next, p4.result) == WindowTx.OnControl(t, f)
  {
    hide FromBytes, WindowTx.OnControl, WindowTx.NextToWrite, WindowTx.Poll, WindowTx.SessionAlone, WindowTx.Empty;
    PollAccumulates(t, word[0], writeOk);
    var t1 := t.(asm := Assembly([] + [word[0]], false));
    PollAccumulates(t1, word[1], writeOk);
    var t2 := t.(asm := Assembly([] + [word[0]] + [word[1]], false));
    PollAccumulates(t2, word[2], writeOk);
    var t3 := t.(asm := Assembly([] + [word[0]] + [word[1]] + [word[2]], false));
    assert t3.asm.buf + [word[3]] == word;
    PollCompletes(t3, word[3], f, writeOk);
    assert t3.(asm := FRESH_PLAIN) == t;
  }

  lemma RxPollAccumulates(r: WindowRx.Model, byte: u8, writeOk: bool)
    requires r.Coherent() && WindowRx.WillRead(r) && |r.asm.buf| < 3
    ensures WindowRx.Poll(r, Io(writeOk, GotByte(byte))).next ==
      r.(asm := r.asm.(buf := r.asm.buf + [byte]), state := Rx.RxState.Receiving)
  {
    hide FromBytes, WindowRx.Handle, WindowRx.PumpReply, WindowRx.Blank;
  }

  lemma RxPollCompletes(r: WindowRx.Model, byte: u8, writeOk: bool)
    requires r.Coherent() && WindowRx.WillRead(r) && |r.asm.buf| == 3 && !r.asm.resync
    ensures WindowRx.Poll(r, Io(writeOk, GotByte(byte))) ==
      WindowRx.OnWord(r.(asm := FRESH_PLAIN), FromBytes(r.asm.buf + [byte]), writeOk)
  {
    hide FromBytes, WindowRx.Handle, WindowRx.PumpReply, WindowRx.Blank, KnownType;
    assert Push(r.asm, byte) == (FRESH_PLAIN, Some(r.asm.buf + [byte]));
  }

  /** A receiver that is fed the four bytes of any word does exactly what `RxFrame` says. */
  lemma FourPollsReadOneWord(r: WindowRx.Model, word: Word, writeOk: bool)
    requires r.Coherent() && WindowRx.WillRead(r) && r.asm == FRESH_PLAIN
    ensures
      var r1 := WindowRx.Poll(r, Io(writeOk, GotByte(word[0]))).next;
      var r2 := WindowRx.Poll(r1, Io(writeOk, GotByte(word[1]))).next;
      var r3 := WindowRx.Poll(r2, Io(writeOk, GotByte(word[2]))).next;
      WindowRx.Poll(r3, Io(writeOk, GotByte(word[3]))) == WindowRx.OnWord(r, FromBytes(word), writeOk)
  {
    hide FromBytes, WindowRx.Handle, WindowRx.PumpReply, WindowRx.Blank, WindowRx.Poll;
    var q := r.(state := Rx.RxState.Receiving);
    RxPollAccumulates(r, word[0], writeOk);
    var r1 := q.(asm := Assembly([] + [word[0]], false));
    RxPollAccumulates(r1, word[1], writeOk);
    var r2 := q.(asm := Assembly([] + [word[0]] + [word[1]], false));
    RxPollAccumulates(r2, word[2], writeOk);
    var r3 := q.(asm := Assembly([] + [word[0]] + [word[1]] + [word[2]], false));
    assert r3.asm.buf + [word[3]] == word;
    RxPollCompletes(r3, word[3], writeOk);
    assert r3.(asm := FRESH_PLAIN, state := Rx.RxState.Validating) == r.(state := Rx.RxState.Validating);
  }

  // ------------------------------------------------------------ what was acknowledged

  /** How many steps of a run the sender answered `Acked`. */
  function AckedAnswers(s: Sys, events: seq<Event>): nat
    requires Sound(s)
    decreases |events|
  {
    if events == [] then 0
    else Acks(s, events[0]) + AckedAnswers(Step(s, events[0]), events[1..])
  }

  function Acks(s: Sys, e: Event): nat
    requires Sound(s)
  {
    if SenderSays(s, e) == Ok(Tx.TxPoll.Acked) then 1 else 0
  }

  /** No byte still in a slot has been acknowledged. */
  ghost predicate NotYetAcked(w: SendWindow.Tracked, acked: set<nat>) {
    && |w.ix| == |w.tx.slots|
    && forall i :: 0 <= i < |w.ix| && w.tx.slots[i].Some? && w.tx.slots[i].value.kind.Data? ==> w.ix[i] !in acked
  }

  lemma SameFlightsNotYetAcked(w: SendWindow.Tracked, n: SendWindow.Tracked, acked: set<nat>)
    requires NotYetAcked(w, acked) && |n.tx.slots| == |w.ix| && n.ix == w.ix
    requires forall j :: 0 <= j < |w.ix| ==> SameFlight(w.tx.slots[j], n.tx.slots[j]) || n.tx.slots[j] == None
    ensures NotYetAcked(n, acked)
  {
    forall i | 0 <= i < |n.ix| && n.tx.slots[i].Some? && n.tx.slots[i].value.kind.Data?
      ensures n.ix[i] !in acked
    {
      assert SameFlight(w.tx.slots[i], n.tx.slots[i]);
    }
  }

  /** A step that acknowledges nothing and leaves unacknowledged what is in the slots. */
  ghost predicate NothingAcked(s: Sys, n: Sys, said: Result<Tx.TxPoll>) {
    NotYetAcked(n.w, n.acked) && n.acked == s.acked && said != Ok(Tx.TxPoll.Acked)
  }

  lemma OfferAcksNothing(s: Sys, byte: u8)
    requires SenderOk(s.w, s.offered, s.acked, s.finishing) && NotYetAcked(s.w, s.acked)
    ensures NotYetAcked(OfferStep(s, byte).w, s.acked) && NotYetAcked(OfferEndStep(s).w, s.acked)
  {
    hide WindowTx.InSendWindow, WindowTx.HasSession, WindowTx.SessionAlone, SendWindow.Distinct, SendWindow.NewInOrder,
      SendWindow.Split, SendWindow.Waiting, SendWindow.SlotOk;
  }

  lemma WriteAcksNothing(s: Sys, writeOk: bool)
    requires Sound(s) && NotYetAcked(s.w, s.acked) && !WindowTx.Terminal(s.w.tx.state) && WindowTx.WillWrite(s.w.tx)
    ensures NothingAcked(s, TxPollStep(s, writeOk), SenderSays(s, TxPoll(writeOk)))
  {
    WriteKeepsFlights(s.w.tx, writeOk);
    Settling.WriteSays(s.w.tx, writeOk);
    hide WindowTx.WriteStep, WindowTx.NextToWrite, SameFlight, FromBytes, Loaded, WindowTx.SessionAlone;
    SameFlightsNotYetAcked(s.w, TxPollStep(s, writeOk).w, s.acked);
  }

  lemma TickAcksNothing(s: Sys, writeOk: bool)
    requires Sound(s) && NotYetAcked(s.w, s.acked) && WindowTx.WillRead(s.w.tx)
    ensures NothingAcked(s, TxPollStep(s, writeOk), SenderSays(s, TxPoll(writeOk)))
  {
    TickKeepsFlights(s.w.tx, 0);
    Settling.TickSays(s.w.tx, 0);
    hide WindowTx.TickFrom, WindowTx.NextToWrite, SameFlight, FromBytes, WindowTx.SessionAlone;
    SameFlightsNotYetAcked(s.w, TxPollStep(s, writeOk).w, s.acked);
  }

  lemma RestAcksNothing(s: Sys, writeOk: bool)
    requires Sound(s) && NotYetAcked(s.w, s.acked) && WindowTx.Terminal(s.w.tx.state)
    ensures NothingAcked(s, TxPollStep(s, writeOk), SenderSays(s, TxPoll(writeOk)))
  {
    hide FromBytes, WindowTx.NextToWrite, WindowTx.SessionAlone;
  }

  lemma NackAcksNothing(s: Sys, num: seqno)
    requires Sound(s) && NotYetAcked(s.w, s.acked) && WindowTx.WillRead(s.w.tx)
    ensures
      var (t, said) := WindowTx.OnNack(s.w.tx, num);
      NothingAcked(s, s.(w := s.w.(tx := t)), said)
  {
    NackKeepsFlights(s.w.tx, num);
    Settling.NackSays(s.w.tx, num);
    hide WindowTx.OnNack, WindowTx.NextToWrite, SameFlight, WindowTx.SessionAlone;
    SameFlightsNotYetAcked(s.w, s.w.(tx := WindowTx.OnNack(s.w.tx, num).0), s.acked);
  }

  /** What the sender says to an ACK that finds its slot: `Acked` for a byte and for nothing else. */
  lemma AckSays(t: WindowTx.Model, num: seqno, i: nat)
    requires t.Coherent() && WindowTx.WillRead(t) && WindowTx.FindSeq(t.slots, num) == Some(i)
    ensures WindowTx.OnAck(t, num).1 == Ok(Tx.TxPoll.Acked) <==> t.slots[i].value.kind.Data?
  {
    hide WindowTx.SessionAlone, WindowTx.Empty;
  }

  /** An ACK read: the byte it frees is acknowledged for the first time. */
  lemma AckCounts(s: Sys)
    requires Sound(s) && Inv(s) && NotYetAcked(s.w, s.acked) && WindowTx.WillRead(s.w.tx) && s.acks != []
    requires s.acks[0].d.Good? && s.acks[0].d.frame.kind == FrameType.Ack
    ensures NotYetAcked(TxFrameStep(s).w, TxFrameStep(s).acked)
    ensures |TxFrameStep(s).acked| == |s.acked| + Acks(s, TxFrame)
  {
    hide Inv, WindowTx.NextToWrite, WindowTx.SessionAlone, WindowTx.Empty, WindowTx.Model.Coherent;
    match WindowTx.FindSeq(s.w.tx.slots, s.acks[0].d.frame.num) {
      case None =>
        assert s.acked + {} == s.acked;
      case Some(i) =>
        AckStepFacts(s, i);
        AckSays(s.w.tx, s.acks[0].d.frame.num, i);
        SlotKind(s, i);
        hide WindowTx.OnAck, TxFrameStep, WindowTx.FindSeq, NotYetAcked;
        FreedOnce(s, TxFrameStep(s), i);
    }
  }

  lemma FreedOnce(s: Sys, n: Sys, i: nat)
    requires NotYetAcked(s.w, s.acked) && i < |s.w.ix| && s.w.tx.slots[i].Some?
    requires n.w.ix == s.w.ix && n.w.tx.slots == s.w.tx.slots[i := None]
    requires forall j :: 0 <= j < |s.w.ix| && j != i && s.w.tx.slots[j].Some? ==> s.w.ix[j] != s.w.ix[i]
    requires n.acked == s.acked + if s.w.tx.slots[i].value.kind.Data? then {s.w.ix[i]} else {}
    ensures NotYetAcked(n.w, n.acked)
    ensures |n.acked| == |s.acked| + if s.w.tx.slots[i].value.kind.Data? then 1 else 0
  {
    if !s.w.tx.slots[i].value.kind.Data? {
      assert n.acked == s.acked;
    }
  }

  /** Inside a session a slot holds a byte or FINISH, and no other slot holds the same index. */
  lemma SlotKind(s: Sys, i: nat)
    requires Inv(s) && i < |s.w.ix| && s.w.tx.slots[i].Some?
    ensures |s.w.ix| == |s.w.tx.slots|
    ensures s.w.tx.slots[i].value.kind.Data? || s.w.tx.slots[i].value.kind.Finish?
    ensures forall j :: 0 <= j < |s.w.ix| && j != i && s.w.tx.slots[j].Some? ==> s.w.ix[j] != s.w.ix[i]
  {
    hide ReceiverOk, ReplyOk, DataChannelOk, AckChannelOk, WindowTx.SessionAlone, SendWindow.NewInOrder,
      SendWindow.Split, SendWindow.Waiting, SendWindow.Counted;
    assert SendWindow.SlotOk(s.w.tx.slots[i], s.w.ix[i], s.w.next, s.w.tx.limit);
  }

  lemma FrameCounts(s: Sys)
    requires Sound(s) && Inv(s) && NotYetAcked(s.w, s.acked)
    ensures NotYetAcked(TxFrameStep(s).w, TxFrameStep(s).acked)
    ensures |TxFrameStep(s).acked| == |s.acked| + Acks(s, TxFrame)
  {
    hide Inv, WindowTx.OnNack, WindowTx.OnAck, NotYetAcked, WindowTx.NextToWrite, WindowTx.SessionAlone, WindowTx.Empty;
    if WindowTx.WillRead(s.w.tx) && s.acks != [] && s.acks[0].d.Good? {
      if s.acks[0].d.frame.kind == FrameType.Ack {
        AckCounts(s);
      } else {
        HeadIsReply(s);
        NackAcksNothing(s, s.acks[0].d.frame.num);
      }
    }
  }

  lemma HeadIsReply(s: Sys)
    requires Inv(s) && s.acks != [] && s.acks[0].d.Good?
    ensures s.acks[0].d.frame.kind == FrameType.Ack || s.acks[0].d.frame.kind == FrameType.Nack
  {
    hide SenderOk, ReceiverOk, ReplyOk, DataChannelOk;
    assert AckPacketOk(s, s.acks[0]);
  }

  lemma InvSender(s: Sys)
    requires Inv(s)
    ensures SenderOk(s.w, s.offered, s.acked, s.finishing)
  {
  }

  /** The step is accounted for. */
  ghost predicate Counted(s: Sys, n: Sys, acks: nat) {
    NotYetAcked(n.w, n.acked) && |n.acked| == |s.acked| + acks
  }

  lemma PollCounts(s: Sys, writeOk: bool)
    requires Sound(s) && NotYetAcked(s.w, s.acked)
    ensures Counted(s, TxPollStep(s, writeOk), Acks(s, TxPoll(writeOk)))
  {
    hide NotYetAcked, TxPollStep, SenderSays, WindowTx.NextToWrite;
    if WindowTx.Terminal(s.w.tx.state) {
      RestAcksNothing(s, writeOk);
    } else if WindowTx.WillWrite(s.w.tx) {
      WriteAcksNothing(s, writeOk);
    } else {
      TickAcksNothing(s, writeOk);
    }
  }

  lemma OfferCounts(s: Sys, byte: u8)
    requires Sound(s) && Inv(s) && NotYetAcked(s.w, s.acked)
    ensures Counted(s, OfferStep(s, byte), 0) && Counted(s, OfferEndStep(s), 0)
  {
    hide Inv, NotYetAcked, OfferStep, OfferEndStep, SenderOk;
    InvSender(s);
    OfferAcksNothing(s, byte);
    OffersLeaveAcked(s, byte);
  }

  lemma StepCountsAcks(s: Sys, e: Event)
    requires Sound(s) && Inv(s) && NotYetAcked(s.w, s.acked)
    ensures Counted(s, Step(s, e), Acks(s, e))
  {
    hide Inv, NotYetAcked, OfferStep, OfferEndStep, TxPollStep, TxFrameStep, RxPollStep, RxFrameStep, Sound;
    match e
    case OfferByte(byte) => OfferCounts(s, byte);
    case OfferEnd => OfferCounts(s, 0);
    case TxPoll(writeOk) => PollCounts(s, writeOk);
    case TxFrame => FrameCounts(s);
    case RxPoll(writeOk) => ReceiverLeavesAcked(s, writeOk);
    case RxFrame(writeOk) => ReceiverLeavesAcked(s, writeOk);
    case _ =>
  }

  lemma OffersLeaveAcked(s: Sys, byte: u8)
    requires Sound(s)
    ensures OfferStep(s, byte).acked == s.acked && OfferEndStep(s).acked == s.acked
  {
    hide WindowTx.Offer, WindowTx.OfferFinish;
  }

  lemma ReceiverLeavesAcked(s: Sys, writeOk: bool)
    requires Sound(s)
    ensures RxPollStep(s, writeOk).acked == s.acked && RxPollStep(s, writeOk).w == s.w
    ensures RxFrameStep(s, writeOk).acked == s.acked && RxFrameStep(s, writeOk).w == s.w
  {
    hide WindowRx.Poll, WindowRx.OnWord, FromBytes;
  }

  lemma {:induction false} RunCountsAcks(s: Sys, events: seq<Event>)
    requires Sound(s) && Inv(s) && NotYetAcked(s.w, s.acked)
    ensures |Run(s, events).acked| == |s.acked| + AckedAnswers(s, events)
    decreases |events|
  {
    hide Inv, Step, NotYetAcked, Acks;
    if events != [] {
      StepKeepsInv(s, events[0]);
      StepCountsAcks(s, events[0]);
      RunCountsAcks(Step(s, events[0]), events[1..]);
    }
  }

  /** In every run the sender answers `Acked` exactly once for each byte that was acknowledged. */
  lemma AckedAnswersAreCounted(n: nat, m: nat, limit: nat, policy: Tx.RetryPolicy, events: seq<Event>)
    requires 1 <= n <= WindowTx.MAX_WINDOW && 1 <= m <= WindowTx.MAX_WINDOW && 1 <= limit <= n && limit <= m
    ensures AckedAnswers(PowerUp(n, m, limit, policy), events) == |RunFromStart(n, m, limit, policy, events).acked|
  {
    hide Inv, Run, AckedAnswers;
    PowerUpIsInv(n, m, limit, policy);
    RunCountsAcks(PowerUp(n, m, limit, policy), events);
  }
}
