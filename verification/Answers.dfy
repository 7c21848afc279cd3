/**
  What a receiver answers, said by the words it reads: one table for both
  receivers, with a window of one for stop-and-wait.  Whatever arrives and
  whenever the transport fails, the bytes written are exactly the replies the
  table asks for, each in order and whole, and each is reported by the poll that
  writes its last byte, and not otherwise.
 */
module Answers {
  import opened Prelude
  import opened Wire
  import opened Framing
  import Rx
  import WindowRx
  import WindowOne
  import Crc
  import opened Polls

  type Outcome = Rx.PollOutcome

  /** All that decides how a word is answered. */
  datatype Session = Session(expected: seqno, limit: nat, finishSeq: Option<seqno>, aborted: bool) {
    predicate Closed() {
      aborted || finishSeq.Some?
    }

    /** The SEQ of the FINISH that closed the session, or of the one that would. */
    function ClosingSeq(): seqno {
      if finishSeq.Some? then finishSeq.value else expected
    }
  }

  /** No answer, or a reply and what is reported once it is out. */
  datatype Verdict = Silence | Owes(reply: Frame, report: Outcome)

  function Judge(s: Session, d: Decoded): Verdict {
    match d
    case Bad(error) =>
      if s.Closed() then Silence
      else Owes(NackFrame(s.expected),
                if error.CrcMismatch? then Rx.PollOutcome.CrcRejected else Rx.PollOutcome.Rejected)
    case Good(f) =>
      match f.kind
      case Start => Owes(AckFrame(0), Rx.PollOutcome.Started)
      case Abort => if s.finishSeq.Some? then Silence else Owes(AckFrame(0), Rx.PollOutcome.Aborted)
      case Finish => JudgeFinish(s, f.num)
      case Data => if s.Closed() then Silence else JudgeData(s, f)
      case Ack => Silence
      case Nack => Silence
  }

  /** FINISH closes at the expected SEQ, and once closed is acknowledged again at the SEQ that closed. */
  function JudgeFinish(s: Session, num: seqno): Verdict {
    if s.aborted then Silence
    else if num == s.ClosingSeq() then Owes(AckFrame(num), Rx.PollOutcome.TransferFinished)
    else if s.finishSeq.Some? then Silence
    else Owes(NackFrame(num), Rx.PollOutcome.Rejected)
  }

  /** The byte due next is delivered; one ahead in the window is kept quietly, one behind it is a duplicate. */
  function JudgeData(s: Session, f: Frame): Verdict {
    if f.num == s.expected then Owes(AckFrame(f.num), Rx.PollOutcome.Delivered(f.data))
    else if WrapSub(f.num, s.expected) < s.limit then Owes(AckFrame(f.num), Rx.PollOutcome.Pending)
    else if WrapSub(s.expected, f.num) <= s.limit then Owes(AckFrame(f.num), Rx.PollOutcome.DuplicateIgnored)
    else Owes(NackFrame(f.num), Rx.PollOutcome.Rejected)
  }

  /** The session once the word has been read; the SEQ only moves when its reply is out. */
  function Entered(s: Session, d: Decoded): Session {
    if d.Bad? then s
    else
      match d.frame.kind
      case Start => Session(0, s.limit, None, false)
      case Abort => if s.finishSeq.Some? then s else Session(0, s.limit, None, true)
      case Finish => if !s.Closed() && d.frame.num == s.expected then s.(finishSeq := Some(d.frame.num)) else s
      case _ => s
  }

  /** A reply under way: `sent` of its bytes are out. */
  datatype Due = Due(word: Word, sent: nat, report: Outcome)

  /** A receiver as its peer and its application see it. */
  datatype Books = Books(session: Session, asm: Assembly, queue: seq<u8>, due: Option<Due>)

  /** The word a poll completes. */
  function Completed(b: Books, io: Io): Option<Word>
    requires b.asm.Valid()
  {
    if b.queue == [] && b.due == None && io.read.GotByte? then Push(b.asm, io.read.byte).1 else None
  }

  /** What is owed in a poll: the reply under way, or the one to the word it completes. */
  function OwedIn(b: Books, io: Io): (d: Option<Due>)
    requires b.asm.Valid()
  {
    match Completed(b, io)
    case None => b.due
    case Some(word) =>
      match Judge(b.session, FromBytes(word))
      case Silence => None
      case Owes(reply, report) => Some(Due(ToBytes(reply), 0, report))
  }

  /** What a poll answers. */
  function Says(b: Books, io: Io): Result<Outcome>
    requires b.asm.Valid()
  {
    if b.queue != [] then Ok(Rx.PollOutcome.Delivered(b.queue[0]))
    else
      match OwedIn(b, io)
      case Some(due) =>
        if !io.writeOk then Err(TransportFault)
        else if due.sent == 3 then Ok(due.report)
        else Ok(Rx.PollOutcome.Pending)
      case None => if io.read.ReadFault? then Err(TransportFault) else Ok(Rx.PollOutcome.Pending)
  }

  /** What a poll writes. */
  function Writes(b: Books, io: Io): (wrote: Option<u8>)
    requires b.asm.Valid() && (b.due.Some? ==> b.due.value.sent <= 3)
  {
    if b.queue != [] || !io.writeOk then None
    else
      match OwedIn(b, io)
      case Some(due) => Some(due.word[due.sent])
      case None => None
  }

  /** What is owed after a poll. */
  function OwedAfter(b: Books, io: Io): (d: Option<Due>)
    requires b.asm.Valid() && (b.due.Some? ==> b.due.value.sent <= 3)
    ensures d.Some? ==> d.value.sent <= 3
  {
    match OwedIn(b, io)
    case None => None
    case Some(due) =>
      if Writes(b, io) == None then Some(due)
      else if due.sent == 3 then None
      else Some(due.(sent := due.sent + 1))
  }

  /** The bytes of an unfinished word after a poll. */
  function Collects(b: Books, io: Io): Assembly
    requires b.asm.Valid()
  {
    if b.queue == [] && b.due == None && io.read.GotByte? then Push(b.asm, io.read.byte).0 else b.asm
  }

  /** What a poll makes of the session: a word read may open, close or abort it, and a delivery moves its SEQ. */
  predicate Moves(b: Books, io: Io, s: Session)
    requires b.asm.Valid()
  {
    match Completed(b, io)
    case Some(word) => s == Entered(b.session, FromBytes(word))
    case None =>
      if b.queue == [] && Says(b, io).Ok? && Says(b, io).value.Delivered? then
        && s == b.session.(expected := s.expected)
        && 1 <= WrapSub(s.expected, b.session.expected) <= b.session.limit
      else s == b.session
  }

  // ------------------------------------------------------------ the windowed receiver

  function SessionOf(r: WindowRx.Model): Session {
    Session(r.expected, r.limit, r.finishSeq, r.abortLatched)
  }

  datatype Observed = Observed(rx: WindowRx.Model, due: Option<Due>)

  function BooksOf(o: Observed): (b: Books)
    requires o.rx.Coherent()
    ensures b.asm.Valid()
  {
    Books(SessionOf(o.rx), o.rx.asm, o.rx.Queue(), o.due)
  }

  /** The action the code has noted for a report. */
  predicate Promises(action: WindowRx.PendingAction, report: Outcome, head: Option<u8>) {
    match action
    case Drain => head.Some? && report == Rx.PollOutcome.Delivered(head.value)
    case Duplicate => report == Rx.PollOutcome.DuplicateIgnored
    case Quiet => report == Rx.PollOutcome.Pending
    case Started => report == Rx.PollOutcome.Started
    case Finished => report == Rx.PollOutcome.TransferFinished
    case Aborted => report == Rx.PollOutcome.Aborted
    case Rejected => report == Rx.PollOutcome.Rejected
    case CrcRejected => report == Rx.PollOutcome.CrcRejected
  }

  /** A reply under way is in the output buffer, its report noted; FINISH is reported only when it has been latched. */
  predicate Owing(o: Observed) {
    && o.rx.Coherent()
    && (o.due == None <==> o.rx.pending == None)
    && (o.due.Some? ==>
          var due := o.due.value;
          && due.sent <= 3 && o.rx.out == Outgoing(due.word, due.sent)
          && Promises(o.rx.pending.value, due.report, o.rx.buf[0])
          && LatchedFirst(o))
  }

  predicate LatchedFirst(o: Observed)
    requires o.due.Some?
  {
    && (o.due.value.report == Rx.PollOutcome.TransferFinished ==>
          o.rx.finishSeq.Some? && !o.rx.abortLatched && o.due.value.word == ToBytes(AckFrame(o.rx.finishSeq.value)))
    && (o.due.value.report == Rx.PollOutcome.Started ==> !o.rx.Closed())
    && (o.due.value.report == Rx.PollOutcome.Aborted ==> o.rx.abortLatched)
  }

  /** All that a step needs. */
  predicate Sound(o: Observed) {
    o.rx.Coherent() && (o.due.Some? ==> o.due.value.sent <= 3)
  }

  function Step(o: Observed, io: Io): (n: Observed)
    requires Sound(o)
    ensures Sound(n)
  {
    Observed(WindowRx.Poll(o.rx, io).next, OwedAfter(BooksOf(o), io))
  }

  /** The handled word `d` left the receiver `h` owing what the table says. */
  predicate Owed(r: WindowRx.Model, h: WindowRx.Model, d: Decoded)
    requires h.Coherent()
  {
    var v := Judge(SessionOf(r), d);
    && SessionOf(h) == Entered(SessionOf(r), d)
    && h.emit == [] && h.asm == r.asm
    && (v.Silence? ==> h.pending == None)
    && (v.Owes? ==>
          && h.pending.Some? && h.out == Outgoing(ToBytes(v.reply), 0)
          && Promises(h.pending.value, v.report, h.buf[0])
          && LatchedFirst(Observed(h, Some(Due(ToBytes(v.reply), 0, v.report)))))
  }

  lemma DataOwes(r: WindowRx.Model, f: Frame)
    requires r.Coherent() && WindowRx.WillRead(r) && f.kind == FrameType.Data
    ensures Owed(r, WindowRx.HandleData(r, f), Good(f))
  {
    hide ToBytes, WindowRx.Blank, WindowRx.Offset, WindowRx.IsDuplicate;
    WhereItLies(r, f.num);
  }

  /** The code's two window tests, and the table's. */
  lemma WhereItLies(r: WindowRx.Model, num: seqno)
    requires r.limit >= 1
    ensures num == r.expected ==> WindowRx.Offset(r, num) == Some(0)
    ensures num != r.expected && WrapSub(num, r.expected) < r.limit ==>
      WindowRx.Offset(r, num) == Some(WrapSub(num, r.expected)) && WindowRx.Offset(r, num).value > 0
    ensures WrapSub(num, r.expected) >= r.limit ==> WindowRx.Offset(r, num) == None
    ensures num != r.expected ==> (WindowRx.IsDuplicate(r, num) <==> WrapSub(r.expected, num) <= r.limit)
  {
  }

  lemma FinishOwes(r: WindowRx.Model, num: seqno)
    requires r.Coherent() && WindowRx.WillRead(r)
    ensures Owed(r, WindowRx.HandleFinish(r, num), Good(FinishFrame(num)))
  {
    hide ToBytes, WindowRx.Blank;
  }

  lemma BadOwes(r: WindowRx.Model, error: FrameError)
    requires r.Coherent() && WindowRx.WillRead(r)
    ensures Owed(r, WindowRx.Handle(r, Bad(error)), Bad(error))
  {
    hide ToBytes, WindowRx.Blank;
  }

  lemma ControlOwes(r: WindowRx.Model, f: Frame)
    requires r.Coherent() && WindowRx.WillRead(r) && f.kind != FrameType.Data && f.kind != FrameType.Finish
    ensures Owed(r, WindowRx.Handle(r, Good(f)), Good(f))
  {
    hide ToBytes, WindowRx.Blank;
  }

  lemma HandleOwes(r: WindowRx.Model, d: Decoded)
    requires r.Coherent() && WindowRx.WillRead(r)
    requires d.Good? && d.frame.kind == FrameType.Finish ==> d.frame.data == 0
    ensures Owed(r, WindowRx.Handle(r, d), d)
  {
    hide Owed, WindowRx.HandleData, WindowRx.HandleFinish, WindowRx.HandleStart, WindowRx.HandleAbort;
    if d.Bad? {
      BadOwes(r, d.error);
    } else if d.frame.kind == FrameType.Data {
      DataOwes(r, d.frame);
    } else if d.frame.kind == FrameType.Finish {
      FinishOwes(r, d.frame.num);
      assert d.frame == FinishFrame(d.frame.num);
    } else {
      ControlOwes(r, d.frame);
    }
  }

  lemma FinishHasNoData(word: Word)
    ensures FromBytes(word).Good? && FromBytes(word).frame.kind == FrameType.Finish ==> FromBytes(word).frame.data == 0
  {
    hide Crc.Crc8;
  }

  // ------------------------------------------------------------ poll by poll

  /** A poll is what the table says, and what is owed afterwards is what the receiver is about to write. */
  predicate Answered(o: Observed, io: Io)
    requires Owing(o)
  {
    var p, b := WindowRx.Poll(o.rx, io), BooksOf(o);
    && p.result == Says(b, io) && p.calls.wrote == Writes(b, io)
    && Moves(b, io, SessionOf(p.next)) && p.next.asm == Collects(b, io)
    && Owing(Step(o, io))
  }

  lemma QueuedAnswered(o: Observed, io: Io)
    requires Owing(o) && o.rx.Queue() != []
    ensures Answered(o, io)
  {
    hide WindowRx.PumpReply, FromBytes, ToBytes, Push, WindowRx.Blank;
  }

  /** A byte of a reply that is not its last, or a failed write. */
  lemma ReplyGoesOn(o: Observed, io: Io)
    requires Owing(o) && o.due.Some? && (o.due.value.sent < 3 || !io.writeOk)
    ensures Answered(o, io)
  {
    hide WindowRx.TakePending, FromBytes, ToBytes, Push, WindowRx.Blank;
  }

  /** What completing a reply other than a drain does. */
  lemma QuietCompletion(q: WindowRx.Model, report: Outcome)
    requires q.Valid() && q.pending.Some? && q.pending.value != WindowRx.PendingAction.Drain
    requires Promises(q.pending.value, report, q.buf[0])
    requires report == Rx.PollOutcome.Started ==> !q.Closed()
    ensures
      var (n, outcome) := WindowRx.TakePending(q);
      && n.pending == None && SessionOf(n) == SessionOf(q) && n.asm == q.asm && outcome == Some(report)
      && !report.Delivered?
  {
    hide WindowRx.Model.Valid, WindowRx.DrainInOrder, WindowRx.PopEmit;
  }

  lemma DrainKeepsSession(q: WindowRx.Model)
    requires WindowRx.ReplyDone(q) && q.pending == Some(WindowRx.PendingAction.Drain)
    ensures
      var n := WindowRx.TakePending(q).0;
      SessionOf(n) == SessionOf(q).(expected := n.expected) && n.pending == None && n.asm == q.asm
  {
    hide WindowRx.Run, WindowRx.Shifted, WindowRx.Payloads, WindowRx.PushEmit;
  }

  lemma RunIsShort(q: WindowRx.Model)
    requires WindowRx.ReplyDone(q) && q.pending == Some(WindowRx.PendingAction.Drain)
    ensures 1 <= WindowRx.Run(q.buf) <= q.limit
    ensures WindowRx.Payloads(q.buf, WindowRx.Run(q.buf))[0] == q.buf[0].value
  {
    var k := WindowRx.Run(q.buf);
    assert q.buf[0].Some? && q.buf[k - 1].Some?;
  }

  lemma DrainPromised(o: Observed)
    requires Owing(o) && o.rx.pending == Some(WindowRx.PendingAction.Drain)
    ensures o.due.Some? && o.rx.buf[0].Some? && o.due.value.report == Rx.PollOutcome.Delivered(o.rx.buf[0].value)
  {
  }

  lemma HeadOf(byte: u8, rest: seq<u8>, all: seq<u8>)
    requires [byte] + rest == all
    ensures all[0] == byte
  {
  }

  lemma MovedBy(s: seqno, k: nat)
    requires k < 256
    ensures WrapSub((s + k) % 256, s) == k
  {
  }

  /** A drain reports the byte at the head of the buffer and moves the SEQ by at most a window. */
  lemma DrainReports(q: WindowRx.Model)
    requires WindowRx.ReplyDone(q) && q.pending == Some(WindowRx.PendingAction.Drain) && q.buf[0].Some?
    requires 1 <= q.limit <= WindowRx.MAX_WINDOW
    ensures
      var (n, outcome) := WindowRx.TakePending(q);
      && outcome == Some(Rx.PollOutcome.Delivered(q.buf[0].value))
      && 1 <= WrapSub(n.expected, q.expected) <= q.limit
  {
    WindowRx.DrainDeliversRun(q);
    RunIsShort(q);
    hide WindowRx.TakePending, WindowRx.Run, WindowRx.Shifted, WindowRx.ReplyDone, WindowRx.Payloads, WrapSub;
    var (n, outcome) := WindowRx.TakePending(q);
    HeadOf(outcome.value.byte, n.Queue(), WindowRx.Payloads(q.buf, WindowRx.Run(q.buf)));
    MovedBy(q.expected, WindowRx.Run(q.buf));
  }

  lemma DrainCompletion(q: WindowRx.Model, o: Observed)
    requires Owing(o) && o.due.Some? && q == o.rx.(out := q.out) && WindowRx.ReplyDone(q)
    requires q.pending == Some(WindowRx.PendingAction.Drain)
    ensures
      var (n, outcome) := WindowRx.TakePending(q);
      && n.pending == None && n.asm == q.asm
      && outcome == Some(o.due.value.report) && o.due.value.report.Delivered?
      && SessionOf(n) == SessionOf(o.rx).(expected := n.expected)
      && 1 <= WrapSub(n.expected, o.rx.expected) <= o.rx.limit
  {
    DrainPromised(o);
    OwingParts(o);
    hide WindowRx.TakePending, WindowRx.Blank, WrapSub, Owing;
    DrainReports(q);
    DrainKeepsSession(q);
  }

  /** The last byte of a reply: its report is due. */
  lemma ReplyEnds(o: Observed, io: Io)
    requires Owing(o) && o.due.Some? && o.due.value.sent == 3 && io.writeOk
    ensures Answered(o, io)
  {
    var q := o.rx.(out := o.rx.out.Commit());
    assert WindowRx.ReplyDone(q) by { hide FromBytes, ToBytes; }
    hide WindowRx.TakePending, FromBytes, ToBytes, Push, WindowRx.Blank, WindowRx.ReplyDone, WrapSub, Judge, Entered;
    if q.pending == Some(WindowRx.PendingAction.Drain) {
      DrainCompletion(q, o);
    } else {
      QuietCompletion(q, o.due.value.report);
    }
  }

  /** Nothing owed and no word completed. */
  lemma NothingRead(o: Observed, io: Io)
    requires Owing(o) && o.due == None && o.rx.Queue() == [] && Completed(BooksOf(o), io) == None
    ensures Answered(o, io)
  {
    hide WindowRx.OnWord, FromBytes, ToBytes, WindowRx.Blank, KnownType;
  }

  /** The first byte of a reply, or a failed write of it, in the poll that began it. */
  lemma FirstByte(h: WindowRx.Model, word: Word, writeOk: bool)
    requires h.Coherent() && h.pending.Some? && h.out == Outgoing(word, 0)
    ensures
      var p := WindowRx.PumpReply(h, writeOk, true);
      && p.result == (if writeOk then Ok(Rx.PollOutcome.Pending) else Err(TransportFault))
      && p.calls.wrote == (if writeOk then Some(word[0]) else None)
      && p.next == h.(out := Outgoing(word, if writeOk then 1 else 0), state := p.next.state)
  {
    hide WindowRx.TakePending;
  }

  lemma ReadingIsHandling(o: Observed, io: Io, word: Word)
    requires o.rx.Coherent() && WindowRx.WillRead(o.rx) && io.read.GotByte?
    requires Push(o.rx.asm, io.read.byte).1 == Some(word)
    ensures
      var r := o.rx.(asm := Push(o.rx.asm, io.read.byte).0, state := Rx.RxState.Validating);
      && r.Coherent() && WindowRx.WillRead(r) && SessionOf(r) == SessionOf(o.rx)
      && WindowRx.Poll(o.rx, io) == WindowRx.PumpReply(WindowRx.Handle(r, FromBytes(word)), io.writeOk, true)
  {
    hide WindowRx.Handle, FromBytes, Push, WindowRx.Blank, WindowRx.PumpReply;
  }

  /** A word completed: its reply begins in the same poll. */
  lemma WordRead(o: Observed, io: Io)
    requires Owing(o) && o.due == None && o.rx.Queue() == [] && Completed(BooksOf(o), io).Some?
    ensures Answered(o, io)
  {
    hide WindowRx.Handle, WindowRx.PumpReply, WindowRx.Poll, FromBytes, ToBytes, Push, WindowRx.Blank, Judge,
      Entered, Promises;
    var word := Completed(BooksOf(o), io).value;
    ReadingIsHandling(o, io, word);
    var r := o.rx.(asm := Push(o.rx.asm, io.read.byte).0, state := Rx.RxState.Validating);
    var d := FromBytes(word);
    FinishHasNoData(word);
    HandleOwes(r, d);
    var h := WindowRx.Handle(r, d);
    if Judge(SessionOf(r), d).Owes? {
      FirstByte(h, ToBytes(Judge(SessionOf(r), d).reply), io.writeOk);
    } else {
      Nothing(h, io.writeOk);
    }
  }

  lemma Nothing(h: WindowRx.Model, writeOk: bool)
    requires h.Coherent() && h.pending == None
    ensures WindowRx.PumpReply(h, writeOk, true) == Rx.Polled(h, Ok(Rx.PollOutcome.Pending), Calls(None, true))
  {
    hide WindowRx.TakePending;
  }

  lemma PollAnswered(o: Observed, io: Io)
    requires Owing(o)
    ensures Answered(o, io)
  {
    hide Answered, Owing, WindowRx.Poll;
    OwingParts(o);
    if o.rx.Queue() != [] {
      QueuedAnswered(o, io);
    } else if o.due.Some? {
      if o.due.value.sent == 3 && io.writeOk { ReplyEnds(o, io); } else { ReplyGoesOn(o, io); }
    } else if Completed(BooksOf(o), io).Some? {
      WordRead(o, io);
    } else {
      NothingRead(o, io);
    }
  }

  lemma OwingParts(o: Observed)
    requires Owing(o)
    ensures Sound(o)
  {
  }

  // ------------------------------------------------------------ every run

  function Run(o: Observed, ios: seq<Io>): (end: Observed)
    requires Sound(o)
    ensures Sound(end)
    decreases |ios|
  {
    if ios == [] then o else Run(Step(o, ios[0]), ios[1..])
  }

  lemma {:induction false} RunOwes(o: Observed, ios: seq<Io>)
    requires Sound(o) && Owing(o)
    ensures Owing(Run(o, ios))
    decreases |ios|
  {
    if ios != [] {
      PollAnswered(o, ios[0]);
      hide Owing, Step;
      RunOwes(Step(o, ios[0]), ios[1..]);
    }
  }

  function RunFromStart(n: nat, limit: nat, ios: seq<Io>): (end: Observed)
    requires 1 <= n <= WindowRx.MAX_WINDOW
    ensures Sound(end)
  {
    Run(Observed(WindowRx.SetLimit(WindowRx.Fresh(n), limit), None), ios)
  }

  lemma EveryRunOwes(n: nat, limit: nat, ios: seq<Io>)
    requires 1 <= n <= WindowRx.MAX_WINDOW
    ensures Owing(RunFromStart(n, limit, ios))
  {
    hide Run;
    RunOwes(Observed(WindowRx.SetLimit(WindowRx.Fresh(n), limit), None), ios);
  }

  /**
    For every window limit and every run, whatever arrives and whenever the
    transport fails: each poll writes the next byte of the reply that the table
    asks for, or nothing; it reports what the table says in the poll that writes
    the last one, and only queued bytes or `Pending` in all others; and the
    session moves as the table says.
   */
  lemma EveryWordIsAnswered(n: nat, limit: nat, ios: seq<Io>, io: Io)
    requires 1 <= n <= WindowRx.MAX_WINDOW
    ensures
      var end := RunFromStart(n, limit, ios);
      var p, b := WindowRx.Poll(end.rx, io), BooksOf(end);
      && p.result == Says(b, io) && p.calls.wrote == Writes(b, io) && Moves(b, io, SessionOf(p.next))
  {
    hide RunFromStart, Owing;
    EveryRunOwes(n, limit, ios);
    PollAnswered(RunFromStart(n, limit, ios), io);
  }

  /**
    For every window limit and every run: the end of a transfer is reported only
    by the poll that writes the last byte of the ACK of a FINISH that is latched.
   */
  lemma OnlyFinishIsReportedFinished(n: nat, limit: nat, ios: seq<Io>, io: Io)
    requires 1 <= n <= WindowRx.MAX_WINDOW
    requires WindowRx.Poll(RunFromStart(n, limit, ios).rx, io).result == Ok(Rx.PollOutcome.TransferFinished)
    ensures
      var r := RunFromStart(n, limit, ios).rx;
      && r.finishSeq.Some? && !r.abortLatched && r.Queue() == []
      && FromBytes(r.out.bytes) == Good(AckFrame(r.finishSeq.value)) && r.out.pos == 3
      && WindowRx.Poll(r, io).calls.wrote == Some(r.out.bytes[3])
  {
    hide RunFromStart, Push, FromBytes, ToBytes, WindowRx.Poll, WindowRx.Blank;
    EveryRunOwes(n, limit, ios);
    var o := RunFromStart(n, limit, ios);
    PollAnswered(o, io);
    DecodeEncode(AckFrame(o.rx.finishSeq.value));
  }

  // ------------------------------------------------------------ the coarse state

  /** The coarse state tells a caller no more than is so. */
  predicate Tells(r: WindowRx.Model) {
    && (r.pending.Some? <==> r.state == Rx.RxState.Acknowledging)
    && r.state != Rx.RxState.Validating
    && (r.state == Rx.RxState.Idle ==> !r.Closed())
    && (r.state == Rx.RxState.Finished ==> r.finishSeq.Some?)
    && (r.state == Rx.RxState.Aborted ==> r.abortLatched)
  }

  lemma CompletionTells(q: WindowRx.Model, report: Outcome)
    requires q.Valid() && q.pending.Some? && Promises(q.pending.value, report, q.buf[0])
    requires LatchedFirst(Observed(q, Some(Due(q.out.bytes, 3, report))))
    requires q.pending == Some(WindowRx.PendingAction.Drain) ==> !q.Closed()
    ensures
      var n := WindowRx.TakePending(q).0;
      && n.pending == None && n.state != Rx.RxState.Acknowledging && n.state != Rx.RxState.Validating
      && (n.state == Rx.RxState.Idle ==> !n.Closed())
      && (n.state == Rx.RxState.Finished ==> n.finishSeq.Some?)
      && (n.state == Rx.RxState.Aborted ==> n.abortLatched)
  {
    hide WindowRx.Model.Valid, WindowRx.Run, WindowRx.Shifted, WindowRx.PushEmit, WindowRx.Payloads, ToBytes;
  }

  lemma HandlingTells(r: WindowRx.Model, d: Decoded)
    requires r.Coherent() && WindowRx.WillRead(r) && r.state == Rx.RxState.Validating
    ensures Tells(WindowRx.Handle(r, d)) && (WindowRx.Handle(r, d).out.Idle() || WindowRx.Handle(r, d).out.pos == 0)
  {
    hide ToBytes, WindowRx.Blank, WindowRx.Offset, WindowRx.IsDuplicate;
  }

  lemma ReplyTells(o: Observed, io: Io)
    requires Owing(o) && Tells(o.rx) && o.due.Some?
    ensures Tells(WindowRx.Poll(o.rx, io).next)
  {
    hide ToBytes, FromBytes, Push, WindowRx.TakePending, Promises;
    if io.writeOk && o.due.value.sent == 3 {
      NoDrainWhenClosed(o);
      CompletionTells(o.rx.(out := o.rx.out.Commit()), o.due.value.report);
    }
    hide WindowRx.Blank;
  }

  lemma NoDrainWhenClosed(o: Observed)
    requires Owing(o)
    ensures o.rx.pending == Some(WindowRx.PendingAction.Drain) ==> !o.rx.Closed()
  {
  }

  lemma ReadTells(o: Observed, io: Io)
    requires Owing(o) && Tells(o.rx) && o.due == None
    ensures Tells(WindowRx.Poll(o.rx, io).next)
  {
    hide ToBytes, FromBytes, Push, WindowRx.Handle, WindowRx.Blank, WindowRx.TakePending;
    if o.rx.Queue() == [] && io.read.GotByte? {
      var (asm, word) := Push(o.rx.asm, io.read.byte);
      if word.Some? {
        var r := o.rx.(asm := asm, state := Rx.RxState.Validating);
        HandlingTells(r, FromBytes(word.value));
        PumpingTells(WindowRx.Handle(r, FromBytes(word.value)), io.writeOk);
      }
    }
  }

  lemma PumpingTells(h: WindowRx.Model, writeOk: bool)
    requires h.Coherent() && Tells(h) && (h.out.Idle() || h.out.pos == 0)
    ensures Tells(WindowRx.PumpReply(h, writeOk, true).next)
  {
    hide WindowRx.TakePending, WindowRx.Blank;
  }

  lemma {:induction false} RunTells(o: Observed, ios: seq<Io>)
    requires Sound(o) && Owing(o) && Tells(o.rx)
    ensures Tells(Run(o, ios).rx)
    decreases |ios|
  {
    hide Owing, Step, Tells, Answered;
    if ios != [] {
      PollAnswered(o, ios[0]);
      StepTells(o, ios[0]);
      RunTells(Step(o, ios[0]), ios[1..]);
    }
  }

  lemma StepTells(o: Observed, io: Io)
    requires Sound(o) && Owing(o) && Tells(o.rx)
    ensures Owing(Step(o, io)) && Tells(Step(o, io).rx)
  {
    PollAnswered(o, io);
    hide Owing, Tells, WindowRx.Poll;
    if o.due.Some? { ReplyTells(o, io); } else { ReadTells(o, io); }
  }

  /** In every run the coarse state is true of the latches and of the reply being written, on every poll. */
  lemma StateIsTruthful(n: nat, limit: nat, ios: seq<Io>)
    requires 1 <= n <= WindowRx.MAX_WINDOW
    ensures Tells(RunFromStart(n, limit, ios).rx)
  {
    hide Run;
    RunTells(Observed(WindowRx.SetLimit(WindowRx.Fresh(n), limit), None), ios);
  }

  // ------------------------------------------------------------ one word, start to end

  function Nothings(n: nat): (said: seq<Result<Outcome>>)
    ensures |said| == n
  {
    seq(n, _ => Ok(Rx.PollOutcome.Pending))
  }

  /** A receiver that has read `k` bytes of a word. */
  predicate Reading(r: WindowRx.Model, word: Word, k: nat) {
    && Owing(Observed(r, None)) && r.Queue() == []
    && k <= 3 && r.asm == Assembly(word[..k], false)
  }

  lemma Collected(r: WindowRx.Model, io: Io, word: Word, k: nat)
    requires Reading(r, word, k) && k < 3 && io.read == GotByte(word[k])
    ensures r.Coherent()
    ensures
      var p := WindowRx.Poll(r, io);
      && Reading(p.next, word, k + 1) && SessionOf(p.next) == SessionOf(r)
      && p.result == Ok(Rx.PollOutcome.Pending) && p.calls.wrote == None
  {
    PollAnswered(Observed(r, None), io);
    hide WindowRx.Handle, WindowRx.PumpReply, FromBytes, WindowRx.Blank;
    assert word[..k] + [word[k]] == word[..k + 1];
  }

  /** Three bytes of a word: nothing is said or written. */
  lemma ThreeCollected(r: WindowRx.Model, ios: seq<Io>, word: Word)
    requires r.Coherent() && Reading(r, word, 0) && |ios| == 3 && Hears(ios, word[..3])
    ensures
      var t := OfWindowReceiver(r, ios);
      t.said == Nothings(3) && t.wrote == [] && Reading(t.end, word, 3) && SessionOf(t.end) == SessionOf(r)
  {
    hide WindowRx.Poll, Reading, WindowRx.Model.Coherent;
    Collected(r, ios[0], word, 0);
    var r1 := WindowRx.Poll(r, ios[0]).next;
    Collected(r1, ios[1], word, 1);
    var r2 := WindowRx.Poll(r1, ios[1]).next;
    Collected(r2, ios[2], word, 2);
    var end := WindowRx.Poll(r2, ios[2]).next;
    assert ios[2..][1..] == [];
    assert OfWindowReceiver(r2, ios[2..]) == Trace(end, [Ok(Rx.PollOutcome.Pending)], []);
    assert ios[1..][1..] == ios[2..];
    assert OfWindowReceiver(r1, ios[1..]) == Trace(end, Nothings(2), []);
  }

  /** A receiver that is about to read the first byte of a word. */
  predicate Listening(r: WindowRx.Model) {
    r.Coherent() && WindowRx.WillRead(r) && r.asm == FRESH_PLAIN
  }

  lemma ListeningReads(r: WindowRx.Model, word: Word)
    requires Listening(r)
    ensures r.Coherent() && Reading(r, word, 0)
  {
    hide WindowRx.Blank;
    assert word[..0] == [];
  }

  /** A receiver that owes byte `sent` of a reply. */
  predicate Replying(o: Observed, word: Word, report: Outcome, sent: nat) {
    Owing(o) && o.due == Some(Due(word, sent, report)) && sent <= 3 && o.rx.asm == FRESH_PLAIN
  }

  /** The word is complete: its reply has begun. */
  lemma Completing(r: WindowRx.Model, io: Io, word: Word)
    requires Reading(r, word, 3) && io.read == GotByte(word[3]) && io.writeOk
    requires Judge(SessionOf(r), FromBytes(word)).Owes?
    ensures r.Coherent()
    ensures
      var v := Judge(SessionOf(r), FromBytes(word));
      var p := WindowRx.Poll(r, io);
      && Replying(Observed(p.next, Some(Due(ToBytes(v.reply), 1, v.report))), ToBytes(v.reply), v.report, 1)
      && SessionOf(p.next) == Entered(SessionOf(r), FromBytes(word))
      && p.result == Ok(Rx.PollOutcome.Pending) && p.calls.wrote == Some(ToBytes(v.reply)[0])
  {
    hide Owing, WindowRx.Poll, FromBytes, ToBytes, Judge, Entered, KnownType;
    var o := Observed(r, None);
    OwingParts(o);
    PollAnswered(o, io);
    assert word[..3] + [word[3]] == word;
    assert Push(r.asm, word[3]) == (FRESH_PLAIN, Some(word));
  }

  lemma Continuing(o: Observed, io: Io, word: Word, report: Outcome, sent: nat)
    requires Replying(o, word, report, sent) && sent < 3 && io.writeOk
    ensures o.rx.Coherent()
    ensures
      var p := WindowRx.Poll(o.rx, io);
      && Replying(Observed(p.next, Some(Due(word, sent + 1, report))), word, report, sent + 1)
      && SessionOf(p.next) == SessionOf(o.rx)
      && p.result == Ok(Rx.PollOutcome.Pending) && p.calls.wrote == Some(word[sent])
  {
    hide WindowRx.Poll, Owing, FromBytes, ToBytes, Judge, Entered, Push;
    ReplyingQueuesNothing(o);
    PollAnswered(o, io);
  }

  lemma ReplyingQueuesNothing(o: Observed)
    requires Owing(o) && o.due.Some?
    ensures o.rx.Coherent() && o.rx.Queue() == []
  {
    hide WindowRx.Blank;
  }

  lemma Ending(o: Observed, io: Io, word: Word, report: Outcome)
    requires Replying(o, word, report, 3) && io.writeOk
    ensures o.rx.Coherent()
    ensures
      var p := WindowRx.Poll(o.rx, io);
      && p.result == Ok(report) && p.calls.wrote == Some(word[3])
      && SessionOf(p.next) == SessionOf(o.rx).(expected := p.next.expected)
      && (if report.Delivered? then 1 <= WrapSub(p.next.expected, o.rx.expected) <= o.rx.limit
          else p.next.expected == o.rx.expected && Listening(p.next))
      && p.next.asm == FRESH_PLAIN && p.next.pending == None
  {
    hide WindowRx.Poll, Owing, FromBytes, ToBytes, Judge, Entered, Push;
    ReplyingQueuesNothing(o);
    PollAnswered(o, io);
    NothingPending(Step(o, io));
    if !report.Delivered? {
      QuietEnding(o, io, word, report);
    }
  }

  lemma NothingPending(o: Observed)
    requires Owing(o) && o.due == None
    ensures o.rx.pending == None
  {
  }

  /** Only a delivery can leave something queued. */
  lemma QuietEnding(o: Observed, io: Io, word: Word, report: Outcome)
    requires Replying(o, word, report, 3) && io.writeOk && !report.Delivered?
    ensures WindowRx.Poll(o.rx, io).next.emit == []
  {
    hide WindowRx.DrainInOrder, WindowRx.PopEmit, WindowRx.Blank, FromBytes, ToBytes, Push;
  }

  /**
    Any word at all, fed to a listening receiver byte by byte: if the table asks
    for a reply, seven polls read the word and write the reply, and only the
    last of them reports anything.
   */
  lemma WordIsAnswered(r: WindowRx.Model, ios: seq<Io>, word: Word)
    requires Listening(r) && |ios| == 7 && Hears(ios[..4], word) && Takes(ios[3..], 4)
    requires Judge(SessionOf(r), FromBytes(word)).Owes?
    ensures
      var v := Judge(SessionOf(r), FromBytes(word));
      var t := OfWindowReceiver(r, ios);
      && t.said == Nothings(6) + [Ok(v.report)]
      && t.wrote == ToBytes(v.reply)
      && SessionOf(t.end) == Entered(SessionOf(r), FromBytes(word)).(expected := t.end.expected)
      && (!v.report.Delivered? ==>
            t.end.expected == Entered(SessionOf(r), FromBytes(word)).expected && Listening(t.end))
      && t.end.asm == FRESH_PLAIN && t.end.pending == None
  {
    hide WindowRx.Poll, Judge, Entered, FromBytes, ToBytes, Listening, Reading, Replying, OfWindowReceiver,
      WindowRx.Model.Coherent;
    var v := Judge(SessionOf(r), FromBytes(word));
    var out := ToBytes(v.reply);
    assert ios[..3] + ios[3..] == ios;
    assert forall k :: 0 <= k < 3 ==> ios[..3][k] == ios[..4][k];
    assert ios[3] == ios[..4][3];
    ListeningReads(r, word);
    ThreeCollected(r, ios[..3], word);
    JoinOfWindowReceiver(r, ios[..3], ios[3..]);
    var r0 := OfWindowReceiver(r, ios[..3]).end;
    ReplyOut(r0, ios[3..], word);
    assert Nothings(3) + (Nothings(3) + [Ok(v.report)]) == Nothings(6) + [Ok(v.report)];
    assert [] + out == out;
  }

  /** The poll that completes the word, and the three after it. */
  lemma ReplyOut(r0: WindowRx.Model, ios: seq<Io>, word: Word)
    requires r0.Coherent() && Reading(r0, word, 3)
    requires Takes(ios, 4) && ios[0].read == GotByte(word[3])
    requires Judge(SessionOf(r0), FromBytes(word)).Owes?
    ensures
      var v := Judge(SessionOf(r0), FromBytes(word));
      var t := OfWindowReceiver(r0, ios);
      && t.said == Nothings(3) + [Ok(v.report)] && t.wrote == ToBytes(v.reply)
      && SessionOf(t.end) == Entered(SessionOf(r0), FromBytes(word)).(expected := t.end.expected)
      && (!v.report.Delivered? ==>
            t.end.expected == Entered(SessionOf(r0), FromBytes(word)).expected && Listening(t.end))
      && t.end.asm == FRESH_PLAIN && t.end.pending == None
  {
    hide WindowRx.Poll, Judge, Entered, FromBytes, ToBytes, Replying, Reading, Listening, WindowRx.Model.Coherent;
    var v := Judge(SessionOf(r0), FromBytes(word));
    var out := ToBytes(v.reply);
    Completing(r0, ios[0], word);
    var o1 := Observed(WindowRx.Poll(r0, ios[0]).next, Some(Due(out, 1, v.report)));
    Continuing(o1, ios[1], out, v.report, 1);
    var o2 := Observed(WindowRx.Poll(o1.rx, ios[1]).next, Some(Due(out, 2, v.report)));
    Continuing(o2, ios[2], out, v.report, 2);
    var o3 := Observed(WindowRx.Poll(o2.rx, ios[2]).next, Some(Due(out, 3, v.report)));
    Ending(o3, ios[3], out, v.report);
    var end := WindowRx.Poll(o3.rx, ios[3]).next;
    assert ios[3..][1..] == [];
    assert OfWindowReceiver(o3.rx, ios[3..]) == Trace(end, [Ok(v.report)], [out[3]]);
    assert ios[2..][1..] == ios[3..];
    assert OfWindowReceiver(o2.rx, ios[2..]) == Trace(end, Nothings(1) + [Ok(v.report)], [out[2], out[3]]);
    assert ios[1..][1..] == ios[2..];
    assert OfWindowReceiver(o1.rx, ios[1..]) == Trace(end, Nothings(2) + [Ok(v.report)], [out[1], out[2], out[3]]);
    assert [out[0], out[1], out[2], out[3]] == out;
  }

  // ------------------------------------------------------------ the stop-and-wait receiver

  datatype Single = Single(rx: Rx.Model, due: Option<Due>)

  /** It queues nothing, and its window is one. */
  function SingleBooks(o: Single): (b: Books)
    requires o.rx.Coherent()
    ensures b.asm.Valid()
  {
    Books(Session(o.rx.expected, 1, o.rx.finishSeq, o.rx.abortLatched), o.rx.asm, [], o.due)
  }

  predicate SingleSound(o: Single) {
    o.rx.Coherent() && (o.due.Some? ==> o.due.value.sent <= 3)
  }

  function SingleRun(o: Single, ios: seq<Io>): (end: Single)
    requires SingleSound(o)
    ensures SingleSound(end)
    decreases |ios|
  {
    if ios == [] then o
    else SingleRun(Single(Rx.Poll(o.rx, ios[0]).next, OwedAfter(SingleBooks(o), ios[0])), ios[1..])
  }

  ghost predicate Twins(o: Single, w: Observed) {
    WindowOne.Corresponds(o.rx, w.rx) && Owing(w) && o.due == w.due
  }

  lemma TwinBooks(o: Single, w: Observed)
    requires Twins(o, w)
    ensures SingleSound(o) && Sound(w) && SingleBooks(o) == BooksOf(w)
  {
    hide WindowRx.Blank;
  }

  lemma TwinPoll(o: Single, w: Observed, io: Io)
    requires Twins(o, w) && SingleSound(o) && Sound(w)
    ensures Twins(Single(Rx.Poll(o.rx, io).next, OwedAfter(SingleBooks(o), io)), Step(w, io))
  {
    TwinBooks(o, w);
    PollAnswered(w, io);
    WindowOne.PollsAgree(o.rx, w.rx, io);
    hide Owing, WindowOne.Corresponds, Rx.Poll, WindowRx.Poll;
  }

  lemma {:induction false} TwinRun(o: Single, w: Observed, ios: seq<Io>) returns (end: Observed)
    requires Twins(o, w) && SingleSound(o)
    ensures Twins(SingleRun(o, ios), end)
    decreases |ios|
  {
    hide Twins, Rx.Poll, Step;
    end := w;
    if ios != [] {
      TwinBooks(o, w);
      TwinPoll(o, w, ios[0]);
      end := TwinRun(Single(Rx.Poll(o.rx, ios[0]).next, OwedAfter(SingleBooks(o), ios[0])), Step(w, ios[0]), ios[1..]);
    }
  }

  /** The same of the stop-and-wait receiver, by the same table: each word is answered, and only words are. */
  lemma EveryWordIsAnsweredSingly(ios: seq<Io>, io: Io)
    ensures
      var end := SingleRun(Single(Rx.FRESH, None), ios);
      var p, b := Rx.Poll(end.rx, io), SingleBooks(end);
      && p.result == Says(b, io) && p.calls.wrote == Writes(b, io)
      && Moves(b, io, Session(p.next.expected, 1, p.next.finishSeq, p.next.abortLatched))
  {
    hide SingleRun, Rx.Poll, WindowRx.Poll, Says, Writes, Moves, Collects, Promises, LatchedFirst, WindowRx.Blank;
    var o, w := Single(Rx.FRESH, None), Observed(WindowRx.SetLimit(WindowRx.Fresh(1), 1), None);
    assert Twins(o, w);
    w := TwinRun(o, w, ios);
    o := SingleRun(o, ios);
    TwinBooks(o, w);
    PollAnswered(w, io);
    WindowOne.PollsAgree(o.rx, w.rx, io);
  }
}
