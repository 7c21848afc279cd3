/**
  The selective-repeat pair byte by byte.  Each poll reads or writes at most one
  byte, the two ends read four-byte words at their own pace, and the sender may
  drop a half-read reply at any byte.  Every poll here is at most two events of
  the pair over whole frames, so what holds of all its runs holds of these.

  The channels are those behind a demultiplexer: replies that do not decode
  never reach the sender's port, so a corrupted reply is a lost one.
 */
module SelectiveRepeatBytes {
  import opened Prelude
  import opened Wire
  import opened Framing
  import Rx
  import Tx
  import WindowRx
  import WindowTx
  import SendWindow
  import Settling
  import Reorder
  import opened Torn
  import Frames = SelectiveRepeat
  import Runs = SelectiveRepeatRuns

  /**
    The two ends and the words on their way, oldest first; `dataPos` and
    `ackPos` bytes of the oldest are read, and `last` is the reply read before.
   */
  datatype Sys = Sys(
    tx: WindowTx.Model,
    rx: WindowRx.Model,
    data: seq<Word>,
    dataPos: nat,
    acks: seq<Word>,
    ackPos: nat,
    last: Word,
    offered: seq<u8>,
    delivered: seq<u8>)

  predicate Sound(s: Sys) {
    s.tx.Coherent() && s.rx.Coherent()
  }

  function PowerUp(n: nat, m: nat, limit: nat, policy: Tx.RetryPolicy): (s: Sys)
    requires 1 <= n <= WindowTx.MAX_WINDOW && 1 <= m <= WindowTx.MAX_WINDOW && 1 <= limit <= n && limit <= m
    ensures Sound(s)
  {
    Sys(WindowTx.SetLimit(WindowTx.Fresh(n, policy), limit), WindowRx.SetLimit(WindowRx.Fresh(m), limit),
        [], 0, [], 0, ToBytes(AckFrame(0)), [], [])
  }

  /** What the environment lets a poll read; silence and faults may come between any two bytes. */
  datatype Choice = Take | Silent | Fault

  datatype Event =
    | OfferByte(byte: u8)
    | OfferEnd
    | TxPoll(writeOk: bool, choice: Choice)
    | RxPoll(writeOk: bool, choice: Choice)
    | LoseData(at: nat)
    | LoseAck(at: nat)
    | CorruptData(at: nat, word: Word)
    | StrayData(at: nat, word: Word)

  function Reads(channel: seq<Word>, pos: nat, choice: Choice): ReadAnswer {
    match choice
    case Fault => ReadFault
    case Silent => NoByte
    case Take => if channel != [] && pos < FRAME_LEN then GotByte(channel[0][pos]) else NoByte
  }

  /** A channel and the place in its oldest word, one byte further. */
  function Onward(channel: seq<Word>, pos: nat): (seq<Word>, nat)
    requires channel != []
  {
    if pos == 3 then (channel[1..], 0) else (channel, pos + 1)
  }

  function TxStep(s: Sys, writeOk: bool, choice: Choice): Sys
    requires Sound(s)
  {
    var read := Reads(s.acks, s.ackPos, choice);
    var p := WindowTx.Poll(s.tx, Io(writeOk, read));
    var n := s.(tx := p.next,
                data := if p.calls.wrote.Some? && p.next.out.Idle() then s.data + [p.next.out.bytes] else s.data);
    if p.calls.didRead && read.GotByte? then
      var (acks, pos) := Onward(s.acks, s.ackPos);
      n.(acks := acks, ackPos := pos, last := if pos == 0 then s.acks[0] else s.last)
    else n
  }

  function RxStep(s: Sys, writeOk: bool, choice: Choice): Sys
    requires Sound(s)
  {
    var read := Reads(s.data, s.dataPos, choice);
    var p := WindowRx.Poll(s.rx, Io(writeOk, read));
    var n := s.(rx := p.next,
                acks := if p.calls.wrote.Some? && p.next.out.Idle() then s.acks + [p.next.out.bytes] else s.acks,
                delivered := Reorder.Given(s.delivered, p.result));
    if p.calls.didRead && read.GotByte? then
      var (data, pos) := Onward(s.data, s.dataPos);
      n.(data := data, dataPos := pos)
    else n
  }

  /** A word that is being read can no longer be lost, corrupted, or preceded by another. */
  predicate Free(pos: nat, at: nat) {
    at > 0 || pos == 0
  }

  function Step(s: Sys, e: Event): (n: Sys)
    requires Sound(s)
    ensures Sound(n)
  {
    match e
    case OfferByte(byte) =>
      var (tx, r) := WindowTx.Offer(s.tx, byte);
      s.(tx := tx, offered := if r.Ok? then s.offered + [byte] else s.offered)
    case OfferEnd => s.(tx := WindowTx.OfferFinish(s.tx).0)
    case TxPoll(writeOk, choice) => TxStep(s, writeOk, choice)
    case RxPoll(writeOk, choice) => RxStep(s, writeOk, choice)
    case LoseData(at) =>
      if at < |s.data| && Free(s.dataPos, at) then s.(data := s.data[..at] + s.data[at + 1..]) else s
    case LoseAck(at) =>
      if at < |s.acks| && Free(s.ackPos, at) then s.(acks := s.acks[..at] + s.acks[at + 1..]) else s
    case CorruptData(at, word) =>
      if at < |s.data| && Free(s.dataPos, at) && FromBytes(word).Bad? then s.(data := s.data[at := word]) else s
    case StrayData(at, word) =>
      if at <= |s.data| && Free(s.dataPos, at) && FromBytes(word).Bad?
      then s.(data := s.data[..at] + [word] + s.data[at..])
      else s
  }

  function Run(s: Sys, events: seq<Event>): (end: Sys)
    requires Sound(s)
    ensures Sound(end)
    decreases |events|
  {
    if events == [] then s else Run(Step(s, events[0]), events[1..])
  }

  // ------------------------------------------------------------ what the frames are

  /** The reply being read was torn: the sender does not hold its first bytes, and nothing else. */
  predicate HeadLost(s: Sys) {
    s.ackPos > 0 && |s.tx.asm.buf| != s.ackPos
  }

  /** The replies the sender can still hear whole. */
  function Audible(s: Sys): seq<Word> {
    if HeadLost(s) && s.acks != [] then s.acks[1..] else s.acks
  }

  /** What the sender's port gave last: the reply before, and the bytes read of the oldest. */
  function Heard(s: Sys): seq<u8> {
    s.last + (if s.acks != [] && s.ackPos <= FRAME_LEN then s.acks[0][..s.ackPos] else [])
  }

  /** The sender's assembler holds the last few bytes its port gave. */
  predicate Collecting(s: Sys) {
    var buf := s.tx.asm.buf;
    && !s.tx.asm.resync && |buf| < FRAME_LEN
    && s.ackPos < FRAME_LEN && (s.ackPos > 0 ==> s.acks != [])
    && buf == Heard(s)[|Heard(s)| - |buf|..]
  }

  ghost predicate OnlyReplies(words: seq<Word>) {
    forall i :: 0 <= i < |words| ==> IsReply(words[i])
  }

  /** The receiver's assembler holds the first bytes of the oldest word, or nothing. */
  predicate Aligned(s: Sys) {
    && s.dataPos < FRAME_LEN && (s.dataPos > 0 ==> s.data != [])
    && s.rx.asm == Assembly(if s.dataPos > 0 then s.data[0][..s.dataPos] else [], false)
  }

  /** The frames of a channel are what its words decode to. */
  ghost predicate Decodes(packets: seq<Frames.Packet>, words: seq<Word>) {
    |packets| == |words| && forall i :: 0 <= i < |words| ==> packets[i].d == FromBytes(words[i])
  }

  ghost predicate Ends(s: Sys, f: Frames.Sys) {
    && f.w.tx == s.tx.(asm := FRESH_PLAIN)
    && f.rx == s.rx.(asm := FRESH_PLAIN, state := f.rx.state)
    && f.offered == s.offered && f.delivered == s.delivered
  }

  /** The pair over bytes `s` is in the state that the pair over frames calls `f`. */
  ghost predicate Coupled(s: Sys, f: Frames.Sys) {
    && Sound(s) && Frames.Sound(f)
    && Ends(s, f)
    && Collecting(s) && Aligned(s)
    && OnlyReplies(s.acks) && IsReply(s.last)
    && Decodes(f.data, s.data) && Decodes(f.acks, Audible(s))
  }

  lemma PowerUpIsCoupled(n: nat, m: nat, limit: nat, policy: Tx.RetryPolicy)
    requires 1 <= n <= WindowTx.MAX_WINDOW && 1 <= m <= WindowTx.MAX_WINDOW && 1 <= limit <= n && limit <= m
    ensures Coupled(PowerUp(n, m, limit, policy), Frames.PowerUp(n, m, limit, policy))
  {
    hide FromBytes, ToBytes;
    DecodeEncode(AckFrame(0));
    var s := PowerUp(n, m, limit, policy);
    assert Heard(s)[|Heard(s)|..] == [];
  }

  // ------------------------------------------------------------ polls that read nothing of note

  /** Nothing but reading and the end of a write looks at the sender's half-read word. */
  lemma OfferForgets(t: WindowTx.Model, byte: u8)
    requires t.Coherent()
    ensures
      var u := t.(asm := FRESH_PLAIN);
      && u.Coherent()
      && WindowTx.Offer(u, byte) == (WindowTx.Offer(t, byte).0.(asm := FRESH_PLAIN), WindowTx.Offer(t, byte).1)
      && WindowTx.OfferFinish(u) == (WindowTx.OfferFinish(t).0.(asm := FRESH_PLAIN), WindowTx.OfferFinish(t).1)
      && WindowTx.Offer(t, byte).0.asm == t.asm && WindowTx.OfferFinish(t).0.asm == t.asm
      && (WindowTx.Offer(u, byte).1.Err? ==> WindowTx.Offer(u, byte).0 == u)
      && (WindowTx.OfferFinish(u).1.Err? ==> WindowTx.OfferFinish(u).0 == u)
  {
    hide WindowTx.InSendWindow, WindowTx.SessionAlone, WindowTx.HasSession;
    OfferWindow(t);
  }

  lemma OfferWindow(t: WindowTx.Model)
    requires t.Valid()
    ensures WindowTx.InSendWindow(t.(asm := FRESH_PLAIN), t.nextSeq) == WindowTx.InSendWindow(t, t.nextSeq)
  {
  }

  lemma WriteForgets(t: WindowTx.Model, writeOk: bool)
    requires t.Coherent() && WindowTx.WillWrite(t)
    ensures
      var u := t.(asm := FRESH_PLAIN);
      var p, q := WindowTx.WriteStep(t, writeOk), WindowTx.WriteStep(u, writeOk);
      && q.next == p.next.(asm := FRESH_PLAIN)
      && p.next.asm == (if p.next.out.Idle() then t.asm.(buf := []) else t.asm)
      && (p.calls.wrote.Some? && p.next.out.Idle() <==> p.next.out.Idle())
      && p.next.out.bytes == Frames.Loaded(u).bytes
      && !p.calls.didRead
  {
    hide ToBytes, WindowTx.SessionAlone, WindowTx.NextToWrite;
  }

  lemma {:induction false} TickForgets(t: WindowTx.Model, i: nat)
    requires t.Coherent() && i <= |t.slots| && t.out.Idle() && !WindowTx.Terminal(t.state)
    ensures
      var u := t.(asm := FRESH_PLAIN);
      && u.Coherent()
      && WindowTx.TickFrom(u, i).0 == WindowTx.TickFrom(t, i).0.(asm := FRESH_PLAIN)
      && WindowTx.TickFrom(t, i).0.asm == t.asm
    decreases |t.slots| - i
  {
    if i < |t.slots| {
      if !WindowTx.Ticks(t, i) {
        TickForgets(t, i + 1);
      } else {
        var s := WindowTx.TickSlot(t.slots[i].value, t.policy.timeoutTicks);
        if s.Some? {
          var q := t.(slots := t.slots[i := s]);
          if s.value.needsRetransmit {
            TickForgets(q.(state := Tx.TxState.Retrying, mark := t.mark.(retransmit := true)), i + 1);
          } else {
            TickForgets(q, i + 1);
          }
        }
      }
    }
  }

  // ------------------------------------------------------------ offers and faults

  /** The sender's reading looks at its own half-read word and at the replies only. */
  lemma SameReading(s: Sys, n: Sys)
    requires n.tx.asm == s.tx.asm && n.acks == s.acks && n.ackPos == s.ackPos && n.last == s.last
    ensures Collecting(s) ==> Collecting(n)
    ensures Audible(n) == Audible(s)
  {
  }

  lemma OfferIsCoupled(s: Sys, f: Frames.Sys, byte: u8)
    requires Coupled(s, f)
    ensures Coupled(Step(s, OfferByte(byte)), Frames.Step(f, Frames.OfferByte(byte)))
    ensures Coupled(Step(s, OfferEnd), Frames.Step(f, Frames.OfferEnd))
  {
    hide WindowTx.Offer, WindowTx.OfferFinish, Collecting, Audible, Aligned, OnlyReplies, Decodes, IsReply;
    OfferForgets(s.tx, byte);
    SameReading(s, Step(s, OfferByte(byte)));
    SameReading(s, Step(s, OfferEnd));
    SameListening(s, Step(s, OfferByte(byte)));
    SameListening(s, Step(s, OfferEnd));
  }

  lemma SameListening(s: Sys, n: Sys)
    requires n.rx.asm == s.rx.asm && s.data <= n.data && n.dataPos == s.dataPos
    ensures Aligned(s) ==> Aligned(n)
  {
  }

  /** A fault that leaves alone the word being read is the same fault among the frames. */
  lemma DataFaultIsCoupled(s: Sys, f: Frames.Sys, data: seq<Word>, packets: seq<Frames.Packet>)
    requires Coupled(s, f) && Decodes(packets, data)
    requires s.dataPos > 0 ==> data != [] && data[0] == s.data[0]
    ensures Coupled(s.(data := data), f.(data := packets))
  {
    hide Collecting, Audible, OnlyReplies, Decodes, IsReply;
    SameReading(s, s.(data := data));
  }

  lemma DropDecodes(packets: seq<Frames.Packet>, words: seq<Word>, at: nat)
    requires Decodes(packets, words) && at < |words|
    ensures Decodes(Frames.Drop(packets, at), words[..at] + words[at + 1..])
  {
    hide FromBytes;
  }

  lemma CorruptDecodes(packets: seq<Frames.Packet>, words: seq<Word>, at: nat, word: Word)
    requires Decodes(packets, words) && at < |words| && FromBytes(word).Bad?
    ensures Decodes(Frames.Corrupt(packets, at, FromBytes(word).error), words[at := word])
  {
    hide FromBytes;
  }

  lemma StrayDecodes(packets: seq<Frames.Packet>, words: seq<Word>, at: nat, word: Word)
    requires Decodes(packets, words) && at <= |words| && FromBytes(word).Bad?
    ensures Decodes(Frames.Stray(packets, at, FromBytes(word).error), words[..at] + [word] + words[at..])
  {
    hide FromBytes;
  }

  lemma LoseDataIsCoupled(s: Sys, f: Frames.Sys, at: nat) returns (g: Frames.Sys)
    requires Coupled(s, f) && Frames.Inv(f)
    ensures Coupled(Step(s, LoseData(at)), g) && Frames.Inv(g)
  {
    hide Frames.Inv, Frames.Drop, Collecting, Audible, OnlyReplies, IsReply, FromBytes;
    g := f;
    if at < |s.data| && Free(s.dataPos, at) {
      DropDecodes(f.data, s.data, at);
      Runs.StepKeepsInv(f, Frames.LoseData(at));
      g := Frames.Step(f, Frames.LoseData(at));
      DataFaultIsCoupled(s, f, s.data[..at] + s.data[at + 1..], g.data);
    }
  }

  lemma CorruptDataIsCoupled(s: Sys, f: Frames.Sys, at: nat, word: Word) returns (g: Frames.Sys)
    requires Coupled(s, f) && Frames.Inv(f)
    ensures Coupled(Step(s, CorruptData(at, word)), g) && Frames.Inv(g)
  {
    hide Frames.Inv, Frames.Corrupt, Collecting, Audible, OnlyReplies, IsReply, FromBytes;
    g := f;
    if at < |s.data| && Free(s.dataPos, at) && FromBytes(word).Bad? {
      CorruptDecodes(f.data, s.data, at, word);
      Runs.StepKeepsInv(f, Frames.CorruptData(at, FromBytes(word).error));
      g := Frames.Step(f, Frames.CorruptData(at, FromBytes(word).error));
      DataFaultIsCoupled(s, f, s.data[at := word], g.data);
    }
  }

  lemma StrayDataIsCoupled(s: Sys, f: Frames.Sys, at: nat, word: Word) returns (g: Frames.Sys)
    requires Coupled(s, f) && Frames.Inv(f)
    ensures Coupled(Step(s, StrayData(at, word)), g) && Frames.Inv(g)
  {
    hide Frames.Inv, Frames.Stray, Collecting, Audible, OnlyReplies, IsReply, FromBytes;
    g := f;
    if at <= |s.data| && Free(s.dataPos, at) && FromBytes(word).Bad? {
      StrayDecodes(f.data, s.data, at, word);
      Runs.StepKeepsInv(f, Frames.StrayData(at, FromBytes(word).error));
      g := Frames.Step(f, Frames.StrayData(at, FromBytes(word).error));
      DataFaultIsCoupled(s, f, s.data[..at] + [word] + s.data[at..], g.data);
    }
  }

  /** Which of the replies the sender can still hear is reply number `at` of its channel. */
  function Place(s: Sys, at: nat): nat {
    if HeadLost(s) && at > 0 then at - 1 else at
  }

  lemma LostAudible(s: Sys, n: Sys, at: nat)
    requires Collecting(s) && at < |s.acks| && Free(s.ackPos, at)
    requires n == s.(acks := s.acks[..at] + s.acks[at + 1..])
    ensures Collecting(n) && Place(s, at) < |Audible(s)|
    ensures Audible(n) == Audible(s)[..Place(s, at)] + Audible(s)[Place(s, at) + 1..]
  {
    assert Heard(n) == Heard(s);
  }

  lemma FewerReplies(words: seq<Word>, at: nat)
    requires OnlyReplies(words) && at < |words|
    ensures OnlyReplies(words[..at] + words[at + 1..])
  {
    hide IsReply;
  }

  /** A lost reply is lost among the frames, where a torn one before it is not counted any more. */
  lemma LoseAckIsCoupled(s: Sys, f: Frames.Sys, at: nat) returns (g: Frames.Sys)
    requires Coupled(s, f) && Frames.Inv(f)
    ensures Coupled(Step(s, LoseAck(at)), g) && Frames.Inv(g)
  {
    hide Frames.Inv, Frames.Drop, Aligned, IsReply, OnlyReplies, FromBytes, Decodes, Collecting, Audible, Place;
    g := f;
    if at < |s.acks| && Free(s.ackPos, at) {
      var n := Step(s, LoseAck(at));
      SameListening(s, n);
      LostAudible(s, n, at);
      FewerReplies(s.acks, at);
      DropDecodes(f.acks, Audible(s), Place(s, at));
      Runs.StepKeepsInv(f, Frames.LoseAck(Place(s, at)));
      g := Frames.Step(f, Frames.LoseAck(Place(s, at)));
    }
  }

  // ------------------------------------------------------------ the sender's polls

  lemma AppendDecodes(packets: seq<Frames.Packet>, words: seq<Word>, word: Word, ix: nat)
    requires Decodes(packets, words)
    ensures Decodes(packets + [Frames.Packet(FromBytes(word), ix)], words + [word])
  {
    hide FromBytes;
  }

  lemma TailDecodes(packets: seq<Frames.Packet>, words: seq<Word>)
    requires Decodes(packets, words) && words != []
    ensures Decodes(packets[1..], words[1..])
    ensures Frames.Drop(packets, 0) == packets[1..]
  {
    hide FromBytes;
  }

  /** The poll of a sender that writes, as far as the pair over bytes sees it. */
  lemma TxWrites(s: Sys, f: Frames.Sys, writeOk: bool, choice: Choice)
    requires Coupled(s, f) && !WindowTx.Terminal(s.tx.state) && WindowTx.WillWrite(s.tx)
    ensures
      var n, g := TxStep(s, writeOk, choice), Frames.Step(f, Frames.TxPoll(writeOk));
      && n == s.(tx := n.tx, data := n.data) && s.data <= n.data
      && n.tx.asm == (if n.tx.out.Idle() then s.tx.asm.(buf := []) else s.tx.asm)
      && g == f.(w := g.w, data := g.data)
      && Sound(n) && Frames.Sound(g) && Ends(n, g)
      && Decodes(g.data, n.data)
  {
    hide Collecting, Audible, Aligned, OnlyReplies, IsReply, FromBytes, WindowTx.WriteStep, Decodes;
    WriteForgets(s.tx, writeOk);
    var n, g := TxStep(s, writeOk, choice), Frames.Step(f, Frames.TxPoll(writeOk));
    if n.tx.out.Idle() {
      AppendDecodes(f.data, s.data, n.tx.out.bytes, f.w.ix[SendWindow.Target(f.w.tx)]);
    }
  }

  /** With its frame the sender has written, it drops what it holds of a reply: that reply is torn. */
  predicate Tears(s: Sys, n: Sys) {
    n.tx.out.Idle() && s.ackPos > 0 && !HeadLost(s)
  }

  lemma WroteAudible(s: Sys, n: Sys)
    requires Collecting(s) && n == s.(tx := n.tx, data := n.data)
    requires n.tx.asm == if n.tx.out.Idle() then s.tx.asm.(buf := []) else s.tx.asm
    ensures Collecting(n)
    ensures Tears(s, n) ==> s.acks != [] && Audible(s) == s.acks && Audible(n) == s.acks[1..]
    ensures !Tears(s, n) ==> Audible(n) == Audible(s)
  {
    assert Heard(n) == Heard(s);
    assert Heard(n)[|Heard(n)|..] == [];
  }

  lemma TxWriteIsCoupled(s: Sys, f: Frames.Sys, writeOk: bool, choice: Choice) returns (g: Frames.Sys)
    requires Coupled(s, f) && Frames.Inv(f) && !WindowTx.Terminal(s.tx.state) && WindowTx.WillWrite(s.tx)
    ensures Coupled(TxStep(s, writeOk, choice), g) && Frames.Inv(g)
  {
    hide Frames.Inv, TxStep, Aligned, IsReply, Decodes, Frames.Drop, Collecting, Audible, Tears, OnlyReplies,
      WindowTx.WillWrite;
    var n := TxStep(s, writeOk, choice);
    TxWrites(s, f, writeOk, choice);
    SameListening(s, n);
    WroteAudible(s, n);
    Runs.StepKeepsInv(f, Frames.TxPoll(writeOk));
    g := Frames.Step(f, Frames.TxPoll(writeOk));
    if Tears(s, n) {
      g := LosesHead(g, s.acks);
    }
  }

  /** One reply fewer among the frames, when the one being read was torn. */
  lemma LosesHead(f: Frames.Sys, acks: seq<Word>) returns (g: Frames.Sys)
    requires Frames.Inv(f) && Frames.Sound(f) && acks != [] && Decodes(f.acks, acks)
    ensures Frames.Inv(g) && Frames.Sound(g) && g == f.(acks := g.acks) && Decodes(g.acks, acks[1..])
  {
    hide Frames.Inv, Decodes;
    TailDecodes(f.acks, acks);
    Runs.StepKeepsInv(f, Frames.LoseAck(0));
    g := Frames.Step(f, Frames.LoseAck(0));
  }

  lemma TxTickIsCoupled(s: Sys, f: Frames.Sys, writeOk: bool, choice: Choice) returns (g: Frames.Sys)
    requires Coupled(s, f) && Frames.Inv(f) && WindowTx.WillRead(s.tx) && Reads(s.acks, s.ackPos, choice).NoByte?
    ensures Coupled(TxStep(s, writeOk, choice), g) && Frames.Inv(g)
  {
    hide Frames.Inv, Collecting, Audible, Aligned, OnlyReplies, IsReply, Decodes, WindowTx.TickFrom,
      WindowTx.NextToWrite;
    var n := TxStep(s, writeOk, choice);
    TickForgets(s.tx, 0);
    SameReading(s, n);
    SameListening(s, n);
    Runs.StepKeepsInv(f, Frames.TxPoll(writeOk));
    g := Frames.Step(f, Frames.TxPoll(writeOk));
  }

  /** The four bytes a read completes: a whole reply, or a piece of two. */
  lemma WindowOf(s: Sys, byte: u8)
    requires Collecting(s) && s.acks != [] && |s.tx.asm.buf| == 3 && byte == s.acks[0][s.ackPos]
    ensures s.tx.asm.buf + [byte] == (s.last + s.acks[0])[s.ackPos + 1..s.ackPos + 1 + FRAME_LEN]
    ensures s.ackPos == 3 ==> s.tx.asm.buf + [byte] == s.acks[0]
  {
  }

  lemma HeardOn(s: Sys, n: Sys, byte: u8)
    requires Collecting(s) && s.acks != [] && byte == s.acks[0][s.ackPos]
    requires (n.acks, n.ackPos) == Onward(s.acks, s.ackPos) && n.last == (if n.ackPos == 0 then s.acks[0] else s.last)
    requires n.tx.asm == Push(s.tx.asm, byte).0
    ensures Collecting(n)
  {
    hide KnownType;
    var was := Heard(s);
    assert s.acks[0][..s.ackPos] + [byte] == s.acks[0][..s.ackPos + 1];
    assert was + [byte] == s.last + s.acks[0][..s.ackPos + 1];
    assert s.acks[0][..FRAME_LEN] == s.acks[0];
    if |s.tx.asm.buf| < 3 {
      assert (was + [byte])[|was| - |s.tx.asm.buf|..] == s.tx.asm.buf + [byte];
    }
  }

  /** A byte that completes nothing, or a torn window, leaves the sender as it was. */
  lemma ByteIsQuiet(t: WindowTx.Model, byte: u8, writeOk: bool)
    requires t.Coherent() && WindowTx.WillRead(t)
    requires Push(t.asm, byte).1.Some? ==> !Acts(FromBytes(Push(t.asm, byte).1.value))
    ensures
      var p := WindowTx.Poll(t, Io(writeOk, GotByte(byte)));
      p.next == t.(asm := Push(t.asm, byte).0) && p.calls == Calls(None, true)
  {
    hide FromBytes, Push, WindowTx.NextToWrite, WindowTx.SessionAlone, WindowTx.OnAck, WindowTx.OnNack,
      WindowTx.ForceAbort;
  }

  /** The byte that completes a reply. */
  lemma ByteIsReply(t: WindowTx.Model, byte: u8, word: Word, writeOk: bool)
    requires t.Coherent() && WindowTx.WillRead(t)
    requires Push(t.asm, byte) == (FRESH_PLAIN, Some(word)) && IsReply(word)
    ensures
      var p := WindowTx.Poll(t, Io(writeOk, GotByte(byte)));
      var u := t.(asm := FRESH_PLAIN);
      && u.Coherent() && WindowTx.WillRead(u)
      && p.next == WindowTx.OnControl(u, FromBytes(word).frame).0 && p.calls == Calls(None, true)
      && p.next.asm == FRESH_PLAIN
  {
    hide FromBytes, Push, WindowTx.NextToWrite, WindowTx.SessionAlone, WindowTx.Empty;
  }

  /** A byte of a reply whose first bytes went before it, or of a torn one. */
  lemma TxByteIsCoupled(s: Sys, f: Frames.Sys, writeOk: bool) returns (g: Frames.Sys)
    requires Coupled(s, f) && Frames.Inv(f) && WindowTx.WillRead(s.tx) && s.acks != []
    requires !(|s.tx.asm.buf| == 3 && s.ackPos == 3)
    ensures Coupled(TxStep(s, writeOk, Take), g) && Frames.Inv(g)
  {
    hide Frames.Inv, Aligned, IsReply, Decodes, Collecting, Audible, OnlyReplies, WindowTx.Poll, WindowTx.NextToWrite,
      Frames.Sound, FromBytes, Acts;
    CollectingFacts(s);
    var byte := s.acks[0][s.ackPos];
    BytesAreTorn(s, byte);
    ByteIsQuiet(s.tx, byte, writeOk);
    var n := TxStep(s, writeOk, Take);
    HeardOn(s, n, byte);
    SameListening(s, n);
    RepliesGoOn(s, n);
    ByteAudible(s, n, byte);
    g := f;
    if s.ackPos == 0 && s.tx.asm.buf != [] {
      g := LosesHead(f, s.acks);
    }
  }

  lemma CollectingFacts(s: Sys)
    requires Collecting(s)
    ensures s.ackPos < FRAME_LEN && (s.ackPos > 0 ==> s.acks != []) && |s.tx.asm.buf| < FRAME_LEN && !s.tx.asm.resync
  {
  }

  lemma BytesAreTorn(s: Sys, byte: u8)
    requires Collecting(s) && OnlyReplies(s.acks) && IsReply(s.last) && s.acks != [] && byte == s.acks[0][s.ackPos]
    requires !(|s.tx.asm.buf| == 3 && s.ackPos == 3)
    ensures Push(s.tx.asm, byte).1.Some? ==> !Acts(FromBytes(Push(s.tx.asm, byte).1.value))
  {
    hide FromBytes, IsReply, Acts, KnownType;
    if |s.tx.asm.buf| == 3 {
      WindowOf(s, byte);
      TornWindowIsIgnored(s.last, s.acks[0], s.ackPos + 1);
    }
  }

  lemma RepliesGoOn(s: Sys, n: Sys)
    requires OnlyReplies(s.acks) && IsReply(s.last) && s.acks != []
    requires (n.acks, n.ackPos) == Onward(s.acks, s.ackPos) && n.last == (if n.ackPos == 0 then s.acks[0] else s.last)
    ensures OnlyReplies(n.acks) && IsReply(n.last)
  {
    hide IsReply;
  }

  lemma ByteAudible(s: Sys, n: Sys, byte: u8)
    requires Collecting(s) && s.acks != [] && byte == s.acks[0][s.ackPos]
    requires !(|s.tx.asm.buf| == 3 && s.ackPos == 3)
    requires (n.acks, n.ackPos) == Onward(s.acks, s.ackPos) && n.tx.asm == Push(s.tx.asm, byte).0
    ensures s.ackPos == 0 && s.tx.asm.buf != [] ==> Audible(s) == s.acks && Audible(n) == s.acks[1..]
    ensures !(s.ackPos == 0 && s.tx.asm.buf != []) ==> Audible(n) == Audible(s)
  {
    hide KnownType;
  }

  /** The last byte of a reply that was not torn: the sender hears it. */
  lemma TxReplyIsCoupled(s: Sys, f: Frames.Sys, writeOk: bool) returns (g: Frames.Sys)
    requires Coupled(s, f) && Frames.Inv(f) && WindowTx.WillRead(s.tx) && s.acks != []
    requires |s.tx.asm.buf| == 3 && s.ackPos == 3
    ensures Coupled(TxStep(s, writeOk, Take), g) && Frames.Inv(g)
  {
    hide Frames.Inv, Aligned, IsReply, Decodes, Collecting, OnlyReplies, WindowTx.Poll, WindowTx.NextToWrite,
      FromBytes, WindowTx.OnControl;
    CollectingFacts(s);
    var byte := s.acks[0][s.ackPos];
    WholeReply(s, f, byte);
    ByteIsReply(s.tx, byte, s.acks[0], writeOk);
    var n := TxStep(s, writeOk, Take);
    HeardOn(s, n, byte);
    SameListening(s, n);
    RepliesGoOn(s, n);
    TailDecodes(f.acks, s.acks);
    Runs.StepKeepsInv(f, Frames.TxFrame);
    g := Frames.Step(f, Frames.TxFrame);
  }

  lemma WholeReply(s: Sys, f: Frames.Sys, byte: u8)
    requires Collecting(s) && OnlyReplies(s.acks) && s.acks != [] && byte == s.acks[0][s.ackPos]
    requires |s.tx.asm.buf| == 3 && s.ackPos == 3 && Decodes(f.acks, Audible(s))
    ensures Audible(s) == s.acks && IsReply(s.acks[0])
    ensures f.acks != [] && f.acks[0].d == FromBytes(s.acks[0]) && f.acks[0].d.Good?
    ensures Push(s.tx.asm, byte) == (FRESH_PLAIN, Some(s.acks[0]))
  {
    hide FromBytes, KnownType;
    WindowOf(s, byte);
  }

  lemma TxPollIsCoupled(s: Sys, f: Frames.Sys, writeOk: bool, choice: Choice) returns (g: Frames.Sys)
    requires Coupled(s, f) && Frames.Inv(f)
    ensures Coupled(TxStep(s, writeOk, choice), g) && Frames.Inv(g)
  {
    hide Frames.Inv, Aligned, IsReply, Decodes, Collecting, Audible, OnlyReplies, WindowTx.NextToWrite, FromBytes;
    if WindowTx.Terminal(s.tx.state) {
      g := f;
    } else if WindowTx.WillWrite(s.tx) {
      g := TxWriteIsCoupled(s, f, writeOk, choice);
    } else {
      match Reads(s.acks, s.ackPos, choice) {
        case ReadFault =>
          g := f;
        case NoByte =>
          g := TxTickIsCoupled(s, f, writeOk, choice);
        case GotByte(_) =>
          if |s.tx.asm.buf| == 3 && s.ackPos == 3 {
            g := TxReplyIsCoupled(s, f, writeOk);
          } else {
            g := TxByteIsCoupled(s, f, writeOk);
          }
      }
    }
  }

  // ------------------------------------------------------------ the receiver's polls

  lemma DrainForgets(r: WindowRx.Model, v: WindowRx.Model)
    requires r.Valid() && v == r.(asm := FRESH_PLAIN, state := v.state)
    ensures v.Valid()
    ensures WindowRx.DrainInOrder(v) == WindowRx.DrainInOrder(r).(asm := FRESH_PLAIN, state := v.state)
    ensures WindowRx.DrainInOrder(r).asm == r.asm && WindowRx.DrainInOrder(r).out == r.out
  {
    hide WindowRx.Run, WindowRx.Shifted, WindowRx.PushEmit, WindowRx.Payloads;
  }

  lemma PopForgets(r: WindowRx.Model, v: WindowRx.Model)
    requires r.Valid() && v.Valid() && v == r.(asm := FRESH_PLAIN, state := v.state)
    ensures WindowRx.PopEmit(v).0 == WindowRx.PopEmit(r).0.(asm := FRESH_PLAIN, state := v.state)
    ensures WindowRx.PopEmit(v).1 == WindowRx.PopEmit(r).1
    ensures WindowRx.PopEmit(r).0.asm == r.asm && WindowRx.PopEmit(r).0.out == r.out
  {
  }

  lemma PendingForgets(r: WindowRx.Model, v: WindowRx.Model)
    requires r.Valid() && v == r.(asm := FRESH_PLAIN, state := v.state)
    ensures v.Valid()
    ensures
      var (p, o), (q, o') := WindowRx.TakePending(r), WindowRx.TakePending(v);
      && q == p.(asm := FRESH_PLAIN, state := q.state) && o == o'
      && p.asm == r.asm && p.out == r.out
  {
    hide WindowRx.DrainInOrder, WindowRx.PopEmit;
    var a, b := r.(pending := None), v.(pending := None);
    DrainForgets(a, b);
    PopForgets(WindowRx.DrainInOrder(a).(state := Rx.RxState.Idle),
               WindowRx.DrainInOrder(b).(state := Rx.RxState.Idle));
  }

  lemma PumpForgets(r: WindowRx.Model, v: WindowRx.Model, writeOk: bool)
    requires r.Coherent() && v.Coherent() && !r.out.Idle() && v == r.(asm := FRESH_PLAIN, state := v.state)
    ensures
      var p, q := WindowRx.PumpReply(r, writeOk, false), WindowRx.PumpReply(v, writeOk, false);
      && q.next == p.next.(asm := FRESH_PLAIN, state := q.next.state)
      && p.next.asm == r.asm && q.result == p.result && !p.calls.didRead
      && p.next.out.bytes == r.out.bytes
      && (p.calls.wrote.Some? && p.next.out.Idle() <==> q.next.out.Idle())
  {
    hide WindowRx.TakePending;
    PendingForgets(r.(out := r.out.Commit()), v.(out := v.out.Commit()));
  }

  lemma CoherentForgets(r: WindowRx.Model, v: WindowRx.Model)
    requires r.Coherent() && v == r.(asm := FRESH_PLAIN, state := v.state)
    ensures v.Coherent() && (!r.out.Idle() ==> r.emit == [] && r.pending.Some?)
  {
  }

  /** A receiver with a byte to hand out or a reply to write does not look at what it reads. */
  lemma BusyForgets(r: WindowRx.Model, v: WindowRx.Model, io: Io)
    requires r.Coherent() && !WindowRx.WillRead(r) && v == r.(asm := FRESH_PLAIN, state := v.state)
    ensures v.Coherent()
    ensures
      var p, q := WindowRx.Poll(r, io), WindowRx.Poll(v, Io(io.writeOk, NoByte));
      && q.next == p.next.(asm := FRESH_PLAIN, state := q.next.state)
      && p.next.asm == r.asm && q.result == p.result && !p.calls.didRead
      && p.next.out.bytes == r.out.bytes
      && (p.calls.wrote.Some? && p.next.out.Idle() <==> !v.out.Idle() && q.next.out.Idle())
      && (p.calls.wrote.Some? ==> r.pending.Some?)
  {
    hide WindowRx.PumpReply, WindowRx.OnWord, Push;
    CoherentForgets(r, v);
    if !r.out.Idle() {
      PumpForgets(r, v, io.writeOk);
    }
  }

  /** What the receiver writes is an ACK or a NACK. */
  lemma RepliesOnly(f: Frames.Sys)
    requires Frames.Inv(f) && f.rx.pending.Some?
    ensures IsReply(f.rx.out.bytes)
  {
    hide Frames.SenderOk, Frames.ReceiverOk, Frames.DataChannelOk, Frames.AckChannelOk, FromBytes, Frames.ReplyInRange,
      Frames.Accepted;
  }

  /** One more reply at the end of the channel. */
  lemma ReplySent(s: Sys, n: Sys, word: Word)
    requires Collecting(s) && n.tx.asm == s.tx.asm && n.ackPos == s.ackPos && n.last == s.last
    requires n.acks == s.acks + [word]
    ensures Collecting(n) && Audible(n) == Audible(s) + [word]
  {
    assert Heard(n) == Heard(s);
  }

  lemma MoreReplies(words: seq<Word>, word: Word)
    requires OnlyReplies(words) && IsReply(word)
    ensures OnlyReplies(words + [word])
  {
    hide IsReply;
  }

  lemma RxBusyIsCoupled(s: Sys, f: Frames.Sys, writeOk: bool, choice: Choice) returns (g: Frames.Sys)
    requires Coupled(s, f) && Frames.Inv(f) && !WindowRx.WillRead(s.rx)
    ensures Coupled(RxStep(s, writeOk, choice), g) && Frames.Inv(g)
  {
    hide Frames.Inv, Aligned, IsReply, Decodes, Collecting, Audible, OnlyReplies, WindowRx.Poll, FromBytes;
    var io := Io(writeOk, Reads(s.data, s.dataPos, choice));
    var n := RxStep(s, writeOk, choice);
    BusyForgets(s.rx, f.rx, io);
    SameListening(s, n);
    Runs.StepKeepsInv(f, Frames.RxPoll(writeOk));
    g := Frames.Step(f, Frames.RxPoll(writeOk));
    if |n.acks| > |s.acks| {
      RepliesOnly(f);
      ReplySent(s, n, s.rx.out.bytes);
      MoreReplies(s.acks, s.rx.out.bytes);
      AppendDecodes(f.acks, Audible(s), s.rx.out.bytes, f.replyIx);
    } else {
      SameReading(s, n);
    }
  }

  /** Silence, a fault, or a byte that completes no word. */
  lemma ReadIsQuiet(r: WindowRx.Model, io: Io)
    requires r.Coherent() && WindowRx.WillRead(r)
    requires io.read.GotByte? ==> Push(r.asm, io.read.byte).1 == None
    ensures
      var p := WindowRx.Poll(r, io);
      && p.next == r.(asm := p.next.asm, state := p.next.state)
      && p.next.asm == (if io.read.GotByte? then Push(r.asm, io.read.byte).0 else r.asm)
      && p.calls == Calls(None, true) && !(p.result.Ok? && p.result.value.Delivered?)
  {
    hide FromBytes, Push, WindowRx.OnWord;
  }

  /** A byte of the oldest word follows the bytes before it. */
  lemma PushAligned(s: Sys, byte: u8)
    requires Aligned(s) && s.data != [] && byte == s.data[0][s.dataPos]
    ensures s.dataPos < 3 ==> Push(s.rx.asm, byte) == (Assembly(s.data[0][..s.dataPos + 1], false), None)
    ensures s.dataPos == 3 ==> Push(s.rx.asm, byte) == (FRESH_PLAIN, Some(s.data[0]))
  {
    hide KnownType;
    assert s.data[0][..s.dataPos] + [byte] == s.data[0][..s.dataPos + 1];
    assert s.data[0][..FRAME_LEN] == s.data[0];
  }

  lemma RxQuietIsCoupled(s: Sys, f: Frames.Sys, writeOk: bool, choice: Choice)
    requires Coupled(s, f) && WindowRx.WillRead(s.rx)
    requires Reads(s.data, s.dataPos, choice).GotByte? ==> s.dataPos < 3
    ensures Coupled(RxStep(s, writeOk, choice), f)
  {
    hide IsReply, Decodes, Collecting, Audible, OnlyReplies, WindowRx.Poll, FromBytes, Push;
    var io := Io(writeOk, Reads(s.data, s.dataPos, choice));
    if io.read.GotByte? {
      PushAligned(s, io.read.byte);
    }
    ReadIsQuiet(s.rx, io);
    SameReading(s, RxStep(s, writeOk, choice));
  }

  /** The poll that completes a word begins its reply and hands out nothing. */
  lemma WordBeginsReply(r: WindowRx.Model, d: Decoded, writeOk: bool)
    requires r.Coherent() && WindowRx.WillRead(r)
    ensures
      var p := WindowRx.OnWord(r, d, writeOk);
      && p.next.asm == r.asm
      && p.calls.didRead && !(p.calls.wrote.Some? && p.next.out.Idle())
      && !(p.result.Ok? && p.result.value.Delivered?)
  {
    hide FromBytes, WindowRx.TakePending, WindowRx.Handle;
    var q := r.(state := Rx.RxState.Validating);
    Reorder.RepliesStartWhole(q, d);
    HandlingKeepsAssembler(q, d);
  }

  lemma HandlingKeepsAssembler(r: WindowRx.Model, d: Decoded)
    requires r.Coherent() && WindowRx.WillRead(r)
    ensures WindowRx.Handle(r, d).asm == r.asm
  {
    hide ToBytes, WindowRx.Offset, WindowRx.IsDuplicate, WindowRx.Blank;
  }

  lemma ReadCompletes(r: WindowRx.Model, byte: u8, word: Word, writeOk: bool)
    requires r.Coherent() && WindowRx.WillRead(r) && Push(r.asm, byte) == (FRESH_PLAIN, Some(word))
    ensures r.(asm := FRESH_PLAIN).Coherent()
    ensures WindowRx.Poll(r, Io(writeOk, GotByte(byte)))
      == WindowRx.OnWord(r.(asm := FRESH_PLAIN, state := Rx.RxState.Receiving), FromBytes(word), writeOk)
  {
    hide FromBytes, Push, WindowRx.Handle, WindowRx.PumpReply;
  }

  /** Handling a word does not depend on the coarse state it is handled in. */
  lemma WordForgetsState(r: WindowRx.Model, v: WindowRx.Model, d: Decoded, writeOk: bool)
    requires r.Coherent() && WindowRx.WillRead(r) && v == r.(state := v.state)
    ensures v.Coherent() && WindowRx.WillRead(v)
    ensures WindowRx.OnWord(r, d, writeOk) == WindowRx.OnWord(v, d, writeOk)
  {
    hide WindowRx.Handle, WindowRx.PumpReply;
    assert r.(state := Rx.RxState.Validating) == v.(state := Rx.RxState.Validating);
  }

  lemma RxWordIsCoupled(s: Sys, f: Frames.Sys, writeOk: bool) returns (g: Frames.Sys)
    requires Coupled(s, f) && Frames.Inv(f) && WindowRx.WillRead(s.rx) && s.data != [] && s.dataPos == 3
    ensures Coupled(RxStep(s, writeOk, Take), g) && Frames.Inv(g)
  {
    hide Frames.Inv, IsReply, Decodes, Collecting, Audible, OnlyReplies, WindowRx.Poll, WindowRx.OnWord, FromBytes,
      Push;
    var byte, d := s.data[0][3], FromBytes(s.data[0]);
    var n := RxStep(s, writeOk, Take);
    PushAligned(s, byte);
    ReadCompletes(s.rx, byte, s.data[0], writeOk);
    var r := s.rx.(asm := FRESH_PLAIN, state := Rx.RxState.Receiving);
    WordForgetsState(r, f.rx, d, writeOk);
    WordBeginsReply(r, d, writeOk);
    SameReading(s, n);
    HeadDecodes(f.data, s.data);
    TailDecodes(f.data, s.data);
    Runs.StepKeepsInv(f, Frames.RxFrame(writeOk));
    g := Frames.Step(f, Frames.RxFrame(writeOk));
  }

  lemma HeadDecodes(packets: seq<Frames.Packet>, words: seq<Word>)
    requires Decodes(packets, words) && words != []
    ensures packets != [] && packets[0].d == FromBytes(words[0])
  {
    hide FromBytes;
  }

  lemma RxPollIsCoupled(s: Sys, f: Frames.Sys, writeOk: bool, choice: Choice) returns (g: Frames.Sys)
    requires Coupled(s, f) && Frames.Inv(f)
    ensures Coupled(RxStep(s, writeOk, choice), g) && Frames.Inv(g)
  {
    hide Frames.Inv, IsReply, Decodes, Collecting, Audible, OnlyReplies, RxStep, FromBytes;
    g := f;
    if !WindowRx.WillRead(s.rx) {
      g := RxBusyIsCoupled(s, f, writeOk, choice);
    } else if Reads(s.data, s.dataPos, choice).GotByte? && s.dataPos == 3 {
      g := RxWordIsCoupled(s, f, writeOk);
    } else {
      RxQuietIsCoupled(s, f, writeOk, choice);
    }
  }

  // ------------------------------------------------------------ every run

  /** Every step over bytes is at most two over frames. */
  lemma StepIsCoupled(s: Sys, f: Frames.Sys, e: Event) returns (g: Frames.Sys)
    requires Coupled(s, f) && Frames.Inv(f)
    ensures Coupled(Step(s, e), g) && Frames.Inv(g)
  {
    hide Frames.Inv, Frames.Step, TxStep, RxStep, Collecting, Audible, Aligned, OnlyReplies, IsReply, Decodes, Ends,
      FromBytes;
    match e {
      case OfferByte(byte) =>
        OfferIsCoupled(s, f, byte);
        Runs.StepKeepsInv(f, Frames.OfferByte(byte));
        g := Frames.Step(f, Frames.OfferByte(byte));
      case OfferEnd =>
        OfferIsCoupled(s, f, 0);
        Runs.StepKeepsInv(f, Frames.OfferEnd);
        g := Frames.Step(f, Frames.OfferEnd);
      case TxPoll(writeOk, choice) => g := TxPollIsCoupled(s, f, writeOk, choice);
      case RxPoll(writeOk, choice) => g := RxPollIsCoupled(s, f, writeOk, choice);
      case LoseData(at) => g := LoseDataIsCoupled(s, f, at);
      case LoseAck(at) => g := LoseAckIsCoupled(s, f, at);
      case CorruptData(at, word) => g := CorruptDataIsCoupled(s, f, at, word);
      case StrayData(at, word) => g := StrayDataIsCoupled(s, f, at, word);
    }
  }

  lemma {:induction false} RunIsCoupled(s: Sys, f: Frames.Sys, events: seq<Event>) returns (g: Frames.Sys)
    requires Sound(s) && Coupled(s, f) && Frames.Inv(f)
    ensures Coupled(Run(s, events), g) && Frames.Inv(g)
    decreases |events|
  {
    hide Coupled, Frames.Inv, Step;
    g := f;
    if events != [] {
      g := StepIsCoupled(s, f, events[0]);
      g := RunIsCoupled(Step(s, events[0]), g, events[1..]);
    }
  }

  lemma CoupledEnds(s: Sys, f: Frames.Sys)
    requires Coupled(s, f)
    ensures f.offered == s.offered && f.delivered == s.delivered
    ensures f.w.tx.state == s.tx.state && f.rx.finishSeq == s.rx.finishSeq
  {
    hide Collecting, Audible, Aligned, OnlyReplies, Decodes;
  }

  /** What the sender's poll answers. */
  function TxSays(s: Sys, writeOk: bool, choice: Choice): Result<Tx.TxPoll>
    requires Sound(s)
  {
    WindowTx.Poll(s.tx, Io(writeOk, Reads(s.acks, s.ackPos, choice))).result
  }

  /** What the receiver's poll answers. */
  function RxSays(s: Sys, writeOk: bool, choice: Choice): Result<Rx.PollOutcome>
    requires Sound(s)
  {
    WindowRx.Poll(s.rx, Io(writeOk, Reads(s.data, s.dataPos, choice))).result
  }

  /** A sender's poll leaves the receiver and the application alone. */
  lemma TxStepLeaves(s: Sys, writeOk: bool, choice: Choice)
    requires Sound(s)
    ensures
      var n := Step(s, TxPoll(writeOk, choice));
      && n.rx == s.rx && n.delivered == s.delivered && n.offered == s.offered
      && n.tx == WindowTx.Poll(s.tx, Io(writeOk, Reads(s.acks, s.ackPos, choice))).next
  {
    hide WindowTx.Poll;
  }

  lemma DoneIsExact(s: Sys, f: Frames.Sys, writeOk: bool, choice: Choice)
    requires Sound(s) && Coupled(s, f) && Frames.Inv(f)
    ensures TxSays(s, writeOk, choice) == Ok(Tx.TxPoll.TransferDone) ==>
      s.rx.finishSeq.Some? && s.delivered == s.offered
  {
    hide Coupled, Frames.Inv, Step, WindowTx.Poll;
    if TxSays(s, writeOk, choice) == Ok(Tx.TxPoll.TransferDone) {
      Settling.DoneMeansFinished(s.tx, Io(writeOk, Reads(s.acks, s.ackPos, choice)));
      TxStepLeaves(s, writeOk, choice);
      var g := StepIsCoupled(s, f, TxPoll(writeOk, choice));
      CoupledEnds(Step(s, TxPoll(writeOk, choice)), g);
      Runs.InvDelivers(g);
    }
  }

  lemma FinishedIsPending(r: WindowRx.Model, io: Io)
    requires r.Coherent() && WindowRx.Poll(r, io).result == Ok(Rx.PollOutcome.TransferFinished)
    ensures r.pending == Some(WindowRx.PendingAction.Finished)
  {
    hide WindowRx.DrainInOrder, WindowRx.OnWord, WindowRx.Blank, FromBytes, Push;
    if WindowRx.WillRead(r) && io.read.GotByte? {
      var (asm, word) := Push(r.asm, io.read.byte);
      if word.Some? {
        var q := r.(state := Rx.RxState.Receiving, asm := asm);
        Runs.BeginningReportsNothing(q, FromBytes(word.value), io.writeOk);
      }
    }
  }

  lemma FinishedIsLatched(s: Sys, f: Frames.Sys, io: Io)
    requires Coupled(s, f) && Frames.Inv(f)
    requires WindowRx.Poll(s.rx, io).result == Ok(Rx.PollOutcome.TransferFinished)
    ensures s.rx.finishSeq.Some?
  {
    hide WindowRx.Poll, Frames.SenderOk, Frames.ReceiverOk, Frames.DataChannelOk, Frames.AckChannelOk, Collecting,
      Audible, Aligned, OnlyReplies, Decodes, IsReply, FromBytes;
    FinishedIsPending(s.rx, io);
  }

  /**
    Safety and exact completion byte by byte, for every window, policy and
    sequence of offers, one-byte polls, losses, corruptions and stray words, and
    whichever replies the sender tears: what was handed out is a prefix of what
    was offered, and all of it once the receiver has latched FINISH, which it
    has when the sender is finished, when a poll of the sender says
    `TransferDone` and when one of the receiver says `TransferFinished`.
   */
  lemma DeliveredIsPrefix(n: nat, m: nat, limit: nat, policy: Tx.RetryPolicy, events: seq<Event>)
    requires 1 <= n <= WindowTx.MAX_WINDOW && 1 <= m <= WindowTx.MAX_WINDOW && 1 <= limit <= n && limit <= m
    ensures
      var end := Run(PowerUp(n, m, limit, policy), events);
      && end.delivered <= end.offered
      && (end.tx.state == Tx.TxState.Finished ==> end.rx.finishSeq.Some?)
      && (end.rx.finishSeq.Some? ==> end.delivered == end.offered)
      && (forall writeOk, choice :: TxSays(end, writeOk, choice) == Ok(Tx.TxPoll.TransferDone) ==>
            end.rx.finishSeq.Some? && end.delivered == end.offered)
      && (forall writeOk, choice :: RxSays(end, writeOk, choice) == Ok(Rx.PollOutcome.TransferFinished) ==>
            end.rx.finishSeq.Some? && end.delivered == end.offered)
  {
    hide Coupled, Frames.Inv, Run, PowerUp, Frames.PowerUp, TxSays;
    PowerUpIsCoupled(n, m, limit, policy);
    Frames.PowerUpIsInv(n, m, limit, policy);
    var f := RunIsCoupled(PowerUp(n, m, limit, policy), Frames.PowerUp(n, m, limit, policy), events);
    var end := Run(PowerUp(n, m, limit, policy), events);
    CoupledEnds(end, f);
    Runs.InvDelivers(f);
    forall writeOk, choice
      ensures TxSays(end, writeOk, choice) == Ok(Tx.TxPoll.TransferDone) ==>
        end.rx.finishSeq.Some? && end.delivered == end.offered
      ensures RxSays(end, writeOk, choice) == Ok(Rx.PollOutcome.TransferFinished) ==>
        end.rx.finishSeq.Some? && end.delivered == end.offered
    {
      DoneIsExact(end, f, writeOk, choice);
      if RxSays(end, writeOk, choice) == Ok(Rx.PollOutcome.TransferFinished) {
        FinishedIsLatched(end, f, Io(writeOk, Reads(end.data, end.dataPos, choice)));
      }
    }
  }

  // ------------------------------------------------------------ what the sender's polls add up to

  function Acks(s: Sys, e: Event): nat
    requires Sound(s)
  {
    if e.TxPoll? && TxSays(s, e.writeOk, e.choice) == Ok(Tx.TxPoll.Acked) then 1 else 0
  }

  /** How many polls of a run said `Acked`. */
  function AckedAnswers(s: Sys, events: seq<Event>): nat
    requires Sound(s)
    decreases |events|
  {
    if events == [] then 0 else Acks(s, events[0]) + AckedAnswers(Step(s, events[0]), events[1..])
  }

  /** How many bytes are in the sender's slots. */
  function Outstanding(t: WindowTx.Model): nat {
    Settling.Count(t.slots, WindowTx.FlightKind.Data)
  }

  /** `acks` answers and the bytes outstanding make up all that was offered. */
  predicate Balanced(s: Sys, acks: nat) {
    Settling.WentOn(s.tx) ==> acks + Outstanding(s.tx) == |s.offered|
  }

  lemma OthersLeaveTx(s: Sys, e: Event)
    requires Sound(s) && !e.OfferByte? && !e.OfferEnd? && !e.TxPoll?
    ensures Step(s, e).tx == s.tx && Step(s, e).offered == s.offered
  {
    hide WindowRx.Poll, FromBytes;
  }

  lemma StepBalances(s: Sys, e: Event, acks: nat)
    requires Sound(s) && Balanced(s, acks)
    ensures Balanced(Step(s, e), acks + Acks(s, e))
  {
    hide RxStep, WindowTx.Offer, WindowTx.OfferFinish, WindowTx.Model.Coherent, WindowRx.Model.Coherent, Settling.Count,
      FromBytes;
    match e {
      case OfferByte(byte) => Settling.OfferAddsOne(s.tx, byte);
      case OfferEnd => Settling.OfferAddsOne(s.tx, 0);
      case TxPoll(writeOk, choice) =>
        TxStepLeaves(s, writeOk, choice);
        PollBalances(s.tx, Io(writeOk, Reads(s.acks, s.ackPos, choice)));
        hide WindowTx.Poll;
      case _ => OthersLeaveTx(s, e);
    }
  }

  lemma PollBalances(t: WindowTx.Model, io: Io)
    requires t.Coherent()
    ensures
      var p := WindowTx.Poll(t, io);
      Settling.WentOn(p.next) ==>
        && Settling.WentOn(t)
        && Outstanding(p.next) + (if p.result == Ok(Tx.TxPoll.Acked) then 1 else 0) == Outstanding(t)
  {
    hide WindowTx.WriteStep, WindowTx.ReadStep, WindowTx.NextToWrite, Settling.Count;
    if !WindowTx.Terminal(t.state) {
      Settling.PollSettles(t, io, WindowTx.FlightKind.Data);
    }
  }

  lemma {:induction false} RunBalances(s: Sys, events: seq<Event>, acks: nat)
    requires Sound(s) && Balanced(s, acks)
    ensures Balanced(Run(s, events), acks + AckedAnswers(s, events))
    decreases |events|
  {
    hide Balanced, Step, Acks;
    if events != [] {
      StepBalances(s, events[0], acks);
      RunBalances(Step(s, events[0]), events[1..], acks + Acks(s, events[0]));
    }
  }

  lemma NothingOffered(n: nat, m: nat, limit: nat, policy: Tx.RetryPolicy)
    requires 1 <= n <= WindowTx.MAX_WINDOW && 1 <= m <= WindowTx.MAX_WINDOW && 1 <= limit <= n && limit <= m
    ensures Balanced(PowerUp(n, m, limit, policy), 0)
  {
    Settling.CountEmpty(PowerUp(n, m, limit, policy).tx.slots, WindowTx.FlightKind.Data);
  }

  /**
    Counting the answers is counting the bytes: in every run of the pair, unless
    the sender has given up, the polls that said `Acked` and the bytes still in
    slots make up the bytes offered; and when a poll says `TransferDone`, every
    byte has been answered `Acked`, exactly once.
   */
  lemma EveryByteIsAckedOnce(n: nat, m: nat, limit: nat, policy: Tx.RetryPolicy, events: seq<Event>, writeOk: bool,
                             choice: Choice)
    requires 1 <= n <= WindowTx.MAX_WINDOW && 1 <= m <= WindowTx.MAX_WINDOW && 1 <= limit <= n && limit <= m
    ensures
      var start := PowerUp(n, m, limit, policy);
      var end := Run(start, events);
      && (end.tx.state != Tx.TxState.Failed ==> AckedAnswers(start, events) + Outstanding(end.tx) == |end.offered|)
      && (TxSays(end, writeOk, choice) == Ok(Tx.TxPoll.TransferDone) ==> AckedAnswers(start, events) == |end.offered|)
  {
    hide Run, AckedAnswers, PowerUp, Frames.PowerUp, Coupled, Frames.Inv, WindowTx.Poll;
    var start := PowerUp(n, m, limit, policy);
    var end := Run(start, events);
    NothingOffered(n, m, limit, policy);
    RunBalances(start, events, 0);
    PowerUpIsCoupled(n, m, limit, policy);
    Frames.PowerUpIsInv(n, m, limit, policy);
    var f := RunIsCoupled(start, Frames.PowerUp(n, m, limit, policy), events);
    CoupledEnds(end, f);
    NeverAborted(f);
    if TxSays(end, writeOk, choice) == Ok(Tx.TxPoll.TransferDone) {
      Settling.DoneLeavesNothing(end.tx, Io(writeOk, Reads(end.acks, end.ackPos, choice)));
      DoneWentOn(end.tx, Io(writeOk, Reads(end.acks, end.ackPos, choice)));
    }
  }

  lemma NeverAborted(f: Frames.Sys)
    requires Frames.Inv(f)
    ensures f.w.tx.state != Tx.TxState.Aborted
  {
  }

  lemma DoneWentOn(t: WindowTx.Model, io: Io)
    requires t.Coherent() && WindowTx.Poll(t, io).result == Ok(Tx.TxPoll.TransferDone)
    ensures Settling.WentOn(t)
  {
    hide WindowTx.WriteStep, WindowTx.ReadStep, WindowTx.NextToWrite;
  }
}
