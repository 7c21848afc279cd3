/**
  A window of one is stop-and-wait: with `limit == 1` the selective-repeat
  receiver and the stop-and-wait receiver cannot be told apart by any input
  stream and any pattern of transport faults.
 */
module WindowOne {
  import opened Prelude
  import opened Wire
  import opened Framing
  import Rx
  import WindowRx

  /** Corresponding pending actions; a drain stands for the byte it will hand out. */
  predicate SameAction(a: Option<Rx.PendingAction>, b: Option<WindowRx.PendingAction>, head: Option<u8>) {
    match (a, b)
    case (None, None) => true
    case (Some(Deliver(byte)), Some(Drain)) => head == Some(byte)
    case (Some(Duplicate), Some(Duplicate)) => true
    case (Some(Started), Some(Started)) => true
    case (Some(Finished), Some(Finished)) => true
    case (Some(Aborted), Some(Aborted)) => true
    case (Some(Rejected), Some(Rejected)) => true
    case (Some(CrcRejected), Some(CrcRejected)) => true
    case _ => false
  }

  predicate SameState(r: Rx.Model, w: WindowRx.Model) {
    && r.Valid()
    && w.Valid()
    && w.limit == 1
    && w.expected == r.expected
    && w.state == r.state
    && w.asm == r.asm
    && w.out == r.out
    && w.finishSeq == r.finishSeq
    && w.abortLatched == r.abortLatched
    && w.emit == []
    && SameAction(r.pending, w.pending, w.buf[0])
    && (r.pending == Some(Rx.PendingAction.Started) ==> !r.abortLatched)
  }

  predicate Corresponds(r: Rx.Model, w: WindowRx.Model) {
    r.Coherent() && w.Coherent() && SameState(r, w)
  }

  /** With one slot in use a drain moves exactly one byte. */
  lemma DrainOfOne(w: WindowRx.Model)
    requires w.Valid() && w.emit == [] && w.buf[0].Some? && WindowRx.Blank(w.buf, 1)
    ensures WindowRx.Run(w.buf) == 1
    ensures
      var (n, byte) := WindowRx.PopEmit(WindowRx.DrainInOrder(w));
      && byte == w.buf[0]
      && n == w.(buf := WindowRx.Shifted(w.buf, 1), expected := Advance(w.expected))
  {
    assert WindowRx.Run(w.buf) == 1 by {
      assert WindowRx.Run(w.buf[1..]) == 0;
    }
    assert [] + WindowRx.Payloads(w.buf, 1) == [w.buf[0].value];
  }

  /** Completing a reply does the same thing on both sides. */
  lemma CompletionsAgree(r: Rx.Model, w: WindowRx.Model)
    requires SameState(r, w) && r.out.Idle() && WindowRx.ReplyDone(w)
    ensures
      var (n, o) := Rx.TakePending(r);
      var (m, p) := WindowRx.TakePending(w);
      Rx.OrPending(o) == Rx.OrPending(p) && SameState(n, m)
  {
    hide WindowRx.Run, WindowRx.Shifted, WindowRx.DrainInOrder, WindowRx.PopEmit;
    if w.pending == Some(WindowRx.PendingAction.Drain) {
      var q := w.(pending := None);
      DrainOfOne(q.(state := Rx.RxState.Idle));
      DrainKeepsState(q);
    }
  }

  lemma RepliesAgree(r: Rx.Model, w: WindowRx.Model, writeOk: bool, didRead: bool)
    requires Corresponds(r, w)
    ensures
      var p, q := Rx.PumpReply(r, writeOk, didRead), WindowRx.PumpReply(w, writeOk, didRead);
      p.result == q.result && p.calls == q.calls && Corresponds(p.next, q.next)
  {
    hide WindowRx.TakePending;
    if !r.out.Idle() && writeOk && r.out.Commit().Idle() {
      CompletionsAgree(r.(out := r.out.Commit()), w.(out := w.out.Commit()));
    }
  }

  lemma DrainKeepsState(w: WindowRx.Model)
    requires w.Valid()
    ensures WindowRx.DrainInOrder(w.(state := Rx.RxState.Idle)) == WindowRx.DrainInOrder(w).(state := Rx.RxState.Idle)
  {
  }

  lemma DataHandlersAgree(r: Rx.Model, w: WindowRx.Model, f: Frame)
    requires Corresponds(r, w) && r.out.Idle()
    ensures SameState(Rx.HandleData(r, f), WindowRx.HandleData(w, f))
  {
    hide ToBytes, WindowRx.Blank;
    assert w.buf[0] == None;
    assert WindowRx.Offset(w, f.num) == (if f.num == r.expected then Some(0) else None);
    assert WindowRx.IsDuplicate(w, f.num) <==> f.num == Previous(r.expected);
  }

  lemma ControlHandlersAgree(r: Rx.Model, w: WindowRx.Model, num: seqno)
    requires Corresponds(r, w) && r.out.Idle()
    ensures SameState(Rx.HandleStart(r), WindowRx.HandleStart(w))
    ensures SameState(Rx.HandleFinish(r, num), WindowRx.HandleFinish(w, num))
    ensures SameState(Rx.HandleAbort(r), WindowRx.HandleAbort(w))
  {
    hide ToBytes, WindowRx.Blank;
  }

  lemma HandlersAgree(r: Rx.Model, w: WindowRx.Model, d: Decoded)
    requires Corresponds(r, w) && r.out.Idle()
    ensures Corresponds(Rx.Handle(r, d), WindowRx.Handle(w, d))
  {
    hide ToBytes, WindowRx.Blank, Rx.HandleData, Rx.HandleStart, Rx.HandleFinish, Rx.HandleAbort,
      WindowRx.HandleData, WindowRx.HandleStart, WindowRx.HandleFinish, WindowRx.HandleAbort;
    if d.Good? {
      DataHandlersAgree(r, w, d.frame);
      ControlHandlersAgree(r, w, d.frame.num);
    }
  }

  /** The two receivers agree poll by poll: outcome, bytes written, reads made, and state. */
  lemma PollsAgree(r: Rx.Model, w: WindowRx.Model, io: Io)
    requires Corresponds(r, w)
    ensures
      var p, q := Rx.Poll(r, io), WindowRx.Poll(w, io);
      p.result == q.result && p.calls == q.calls && Corresponds(p.next, q.next)
  {
    hide FromBytes, ToBytes, Push, Rx.Handle, WindowRx.Handle, Rx.PumpReply, WindowRx.PumpReply;
    if !r.out.Idle() {
      RepliesAgree(r, w, io.writeOk, false);
    } else if io.read.GotByte? {
      var (asm, word) := Push(r.asm, io.read.byte);
      if word.Some? {
        var r1 := r.(state := Rx.RxState.Validating, asm := asm);
        var w1 := w.(state := Rx.RxState.Validating, asm := asm);
        HandlersAgree(r1, w1, FromBytes(word.value));
        var d := FromBytes(word.value);
        RepliesAgree(Rx.Handle(r1, d), WindowRx.Handle(w1, d), io.writeOk, true);
      }
    }
  }

  // ------------------------------------------------------------ whole runs

  /** What an observer of one poll sees. */
  datatype Seen = Seen(result: Result<Rx.PollOutcome>, calls: Calls, expected: seqno, state: Rx.RxState)

  function RunStopAndWait(r: Rx.Model, ios: seq<Io>): seq<Seen>
    requires r.Coherent()
    decreases |ios|
  {
    if ios == [] then []
    else
      var p := Rx.Poll(r, ios[0]);
      [Seen(p.result, p.calls, p.next.expected, p.next.state)] + RunStopAndWait(p.next, ios[1..])
  }

  function RunWindowed(w: WindowRx.Model, ios: seq<Io>): seq<Seen>
    requires w.Coherent()
    decreases |ios|
  {
    if ios == [] then []
    else
      var p := WindowRx.Poll(w, ios[0]);
      [Seen(p.result, p.calls, p.next.expected, p.next.state)] + RunWindowed(p.next, ios[1..])
  }

  lemma {:induction false} RunsAgree(r: Rx.Model, w: WindowRx.Model, ios: seq<Io>)
    requires Corresponds(r, w)
    ensures RunStopAndWait(r, ios) == RunWindowed(w, ios)
    decreases |ios|
  {
    hide Rx.Poll, WindowRx.Poll;
    if ios != [] {
      PollsAgree(r, w, ios[0]);
      RunsAgree(Rx.Poll(r, ios[0]).next, WindowRx.Poll(w, ios[0]).next, ios[1..]);
    }
  }

  /**
    From power-up, whatever bytes arrive, whenever the transport is silent or
    fails, the two receivers show the same outcomes, reply bytes, expected SEQ
    and coarse state on every poll, for every compile-time window length.
   */
  lemma WindowOfOneIsStopAndWait(n: nat, ios: seq<Io>)
    requires 1 <= n <= WindowRx.MAX_WINDOW
    ensures RunStopAndWait(Rx.FRESH, ios) == RunWindowed(WindowRx.SetLimit(WindowRx.Fresh(n), 1), ios)
  {
    RunsAgree(Rx.FRESH, WindowRx.SetLimit(WindowRx.Fresh(n), 1), ios);
  }
}
