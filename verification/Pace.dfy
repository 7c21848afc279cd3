/**
  How many polls a copy takes.  On the in-memory wire everything is
  deterministic: a byte takes exactly fourteen polls of both peers from offer to
  acknowledgement, and FINISH is reported ten polls after it was offered.
 */
module Pace {
  import opened Prelude
  import opened Wire
  import opened Framing
  import Rx
  import Tx
  import Demux
  import Pump
  import opened Duplex
  import opened Exchange

  // ------------------------------------------------------------ what reading a lane does

  /** A lane that holds nothing but `ring` for one end. */
  function Holds(forTx: bool, ring: seq<u8>): Demux.Model {
    if forTx then Demux.EMPTY.(control := ring) else Demux.EMPTY.(payload := ring)
  }

  /** A lane on which `part` of a word has been looked at and `wire` not yet. */
  function Carrying(part: seq<u8>, wire: seq<u8>): Demux.Model {
    Demux.EMPTY.(asm := Assembly(part, true), wire := wire)
  }

  lemma ReadHeld(forTx: bool, ring: seq<u8>)
    requires |ring| <= FRAME_LEN
    ensures Holds(forTx, ring).Valid()
    ensures Demux.Read(Holds(forTx, ring), forTx) ==
      (if ring == [] then (Holds(forTx, ring), None) else (Holds(forTx, ring[1..]), Some(ring[0])))
    ensures Demux.Read(Holds(forTx, ring), !forTx) == (Holds(forTx, ring), None)
  {
    var lane := Holds(forTx, ring);
    assert Demux.Ingest(lane) == lane;
  }

  lemma ReadPart(part: seq<u8>, wire: seq<u8>, forTx: bool)
    requires |part| + |wire| < FRAME_LEN && |wire| <= 1
    ensures Carrying(part, wire).Valid()
    ensures Demux.Read(Carrying(part, wire), forTx) == (Carrying(part + wire, []), None)
  {
    hide Demux.IsControl;
    var lane := Carrying(part, wire);
    if wire == [] {
      assert part + wire == part;
      assert Demux.Ingest(lane) == lane;
    } else {
      assert wire[1..] == [] && [wire[0]] == wire;
      assert Push(lane.asm, wire[0]) == (Assembly(part + wire, true), None);
      assert Demux.DrainWire(Carrying(part + wire, [])) == Carrying(part + wire, []);
      assert Demux.Ingest(lane) == Demux.DrainWire(lane) == Carrying(part + wire, []);
    }
  }

  /** The byte that completes a word makes all of it readable at its end. */
  lemma ReadLast(word: Word, forTx: bool)
    requires FrameFor(word, forTx)
    ensures Carrying(word[..3], [word[3]]).Valid()
    ensures Demux.Read(Carrying(word[..3], [word[3]]), forTx) == (Holds(forTx, word[1..]), Some(word[0]))
    ensures Demux.Read(Carrying(word[..3], [word[3]]), !forTx) == (Holds(forTx, word), None)
  {
    GoodIsKnown(word);
    WordCompletes(word, forTx, Demux.IsControl(word));
  }

  lemma WordCompletes(word: Word, forTx: bool, control: bool)
    requires KnownType(word[0]) && control == Demux.IsControl(word) == forTx
    ensures Demux.Ingest(Carrying(word[..3], [word[3]])) == Holds(forTx, word)
  {
    hide Demux.IsControl, KnownType;
    var lane := Carrying(word[..3], [word[3]]);
    assert word[..3] + [word[3]] == word;
    assert lane.wire[1..] == [];
    assert Push(lane.asm, word[3]) == (FRESH_RESYNC, Some(word));
    var n := lane.(wire := [], asm := FRESH_RESYNC);
    assert [] + word == word;
    assert Demux.Store(n, Demux.Held(word, control)) == Holds(forTx, word);
    assert Demux.DrainWire(Holds(forTx, word)) == Holds(forTx, word);
  }

  // ------------------------------------------------------------ where an exchange has got to

  function FrameOf(kind: Tx.FlightKind, num: seqno): Frame {
    Tx.FrameOf(Tx.Flight(kind, num, 0, false, 0))
  }

  /** The frame on its way to the receiving peer, and the answer to it. */
  function Sent(kind: Tx.FlightKind, num: seqno): Word { ToBytes(FrameOf(kind, num)) }
  function Back(num: seqno): Word { ToBytes(AckFrame(num)) }

  /** A pump whose other half has nothing to do in this copy. */
  predicate SendsOnly(a: Pump.Model) {
    && a.Coherent() && a.rx == Rx.FRESH && !a.pendingCompleted && !a.tx.asm.resync
    && a.tx.policy == Tx.DEFAULT_POLICY
  }

  predicate ReceivesOnly(b: Pump.Model) {
    && b.Coherent() && b.tx == Tx.Fresh(b.tx.policy) && !b.pendingCompleted
    && !b.rx.asm.resync && !b.rx.abortLatched
  }

  /** Nothing in flight; the next frame of either kind will carry `num`. */
  predicate Between(num: seqno, a: Pump.Model, b: Pump.Model, ab: Demux.Model, ba: Demux.Model) {
    && SendsOnly(a) && ReceivesOnly(b)
    && a.tx.state == Tx.TxState.Idle && a.tx.num == num && a.tx.asm.buf == []
    && RxQuiet(b.rx) && b.rx.finishSeq == None && b.rx.expected == num
    && ab == Demux.EMPTY && ba == Demux.EMPTY
  }

  /** The sender is writing: `pos` bytes of the frame are out. */
  predicate Writing(a: Pump.Model, kind: Tx.FlightKind, num: seqno, pos: nat) {
    var tx := a.tx;
    && tx.inflight.Some? && tx.inflight.value.kind == kind && tx.inflight.value.num == num
    && !tx.inflight.value.waiting && tx.num == num && tx.asm.buf == []
    && (if pos == 0 then tx.out.Idle() else tx.out == Outgoing(Sent(kind, num), pos))
  }

  /** The sender is waiting: it has been silent for `ticks` polls and read `heard` bytes of the answer. */
  predicate Waiting(a: Pump.Model, kind: Tx.FlightKind, num: seqno, ticks: nat, heard: nat)
    requires heard <= FRAME_LEN
  {
    var tx := a.tx;
    && Tx.WillRead(tx) && tx.inflight.value.kind == kind && tx.inflight.value.num == num && tx.num == num
    && tx.inflight.value.emptyTicks == ticks
    && tx.asm.buf == Back(num)[..heard]
  }

  /** The receiver has read `held` bytes of the frame and expects its number. */
  predicate Reading(b: Pump.Model, kind: Tx.FlightKind, num: seqno, held: nat)
    requires held < FRAME_LEN
  {
    && b.rx.out.Idle() && b.rx.finishSeq == None && b.rx.expected == num
    && b.rx.asm.buf == Sent(kind, num)[..held]
  }

  /** The receiver has written `pos` bytes of its answer. */
  predicate Answering(b: Pump.Model, kind: Tx.FlightKind, num: seqno, pos: nat) {
    && b.rx.out == Outgoing(Back(num), pos) && b.rx.asm.buf == []
    && b.rx.pending == Some(Reply(Tx.Flight(kind, num, 0, false, 0)))
    && (kind.Data? ==> b.rx.finishSeq == None && b.rx.expected == num)
  }

  /** The exchange of one frame, `phase` polls of both peers after it was offered. */
  predicate At(phase: nat, kind: Tx.FlightKind, num: seqno, a: Pump.Model, b: Pump.Model, ab: Demux.Model,
               ba: Demux.Model) {
    && SendsOnly(a) && ReceivesOnly(b) && (kind.Data? || kind.Finish?)
    && if phase <= 3 then
         Writing(a, kind, num, phase) && Reading(b, kind, num, 0)
         && ab == Carrying(Sent(kind, num)[..phase], []) && ba == Demux.EMPTY
       else if phase <= 6 then
         Waiting(a, kind, num, phase - 4, 0) && Reading(b, kind, num, phase - 3)
         && ab == Holds(false, Sent(kind, num)[phase - 3..]) && ba == Demux.EMPTY
       else if phase <= 9 then
         Waiting(a, kind, num, phase - 4, 0) && Answering(b, kind, num, phase - 6)
         && ab == Demux.EMPTY && ba == Carrying(Back(num)[..phase - 7], [Back(num)[phase - 7]])
       else
         && phase <= 13 && kind.Data?
         && Waiting(a, kind, num, 6, phase - 10)
         && RxQuiet(b.rx) && b.rx.finishSeq == None && b.rx.expected == Advance(num)
         && ab == Demux.EMPTY
         && ba == (if phase == 10 then Carrying(Back(num)[..3], [Back(num)[3]])
                   else Holds(true, Back(num)[phase - 10..]))
  }

  // ------------------------------------------------------------ one poll of one peer

  /** The sending peer's poll went well. */
  predicate WentWell(r: Served) {
    r.poll.result.Ok? && !r.poll.result.value.Aborted?
  }

  lemma SenderWrites(a: Pump.Model, kind: Tx.FlightKind, num: seqno, pos: nat, ab: Demux.Model)
    requires SendsOnly(a) && Writing(a, kind, num, pos) && pos <= 3 && ab.Valid() && Room(ab)
    ensures
      var r := Serve(a, ab, Demux.EMPTY);
      && WentWell(r) && SendsOnly(r.poll.next)
      && (if pos < 3 then Writing(r.poll.next, kind, num, pos + 1) else Waiting(r.poll.next, kind, num, 0, 0))
      && r.outLane == Written(ab, Some(Sent(kind, num)[pos])) && r.inLane == Demux.EMPTY
  {
    hide ToBytes, Serve, Demux.Read;
    ReadHeld(true, []);
    QuietReceiver(a, ab, Demux.EMPTY);
    FrameOfFlight(a.tx.inflight.value, kind, num);
    TxWrites(a.tx, Io(true, NoByte));
  }

  lemma FrameOfFlight(f: Tx.Flight, kind: Tx.FlightKind, num: seqno)
    requires f.kind == kind && f.num == num
    ensures Tx.FrameOf(f) == FrameOf(kind, num)
  {
  }

  lemma SenderWaits(a: Pump.Model, kind: Tx.FlightKind, num: seqno, ticks: nat, ab: Demux.Model, ba: Demux.Model,
                    looked: Demux.Model, left: Demux.Model)
    requires SendsOnly(a) && Waiting(a, kind, num, ticks, 0) && ticks < 10 && ab.Valid() && Room(ab)
    requires ba.Valid() && Demux.Read(ba, false) == (looked, None)
    requires looked.Valid() && Demux.Read(looked, true) == (left, None)
    ensures
      var r := Serve(a, ab, ba);
      && WentWell(r) && SendsOnly(r.poll.next) && Waiting(r.poll.next, kind, num, ticks + 1, 0)
      && r.outLane == ab && r.inLane == left
  {
    hide ToBytes, Serve, Demux.Read;
    QuietReceiver(a, ab, ba);
    TxTicks(a.tx, Io(true, NoByte));
    TicksOnce(a.tx);
  }

  lemma TicksOnce(t: Tx.Model)
    requires t.Coherent() && Tx.WillRead(t)
    requires SaturatingIncrement(t.inflight.value.emptyTicks, U16_MAX) < t.policy.timeoutTicks
    ensures
      var n := Tx.Poll(t, Io(true, NoByte)).next;
      n.inflight.Some? && n.inflight.value.emptyTicks == SaturatingIncrement(t.inflight.value.emptyTicks, U16_MAX)
  {
  }

  lemma SenderHears(a: Pump.Model, byte: u8, num: seqno, ticks: nat, heard: nat, ab: Demux.Model, ba: Demux.Model,
                    looked: Demux.Model, left: Demux.Model)
    requires heard <= 3
    requires SendsOnly(a) && Waiting(a, Tx.FlightKind.Data(byte), num, ticks, heard) && ab.Valid() && Room(ab)
    requires ba.Valid() && Demux.Read(ba, false) == (looked, None)
    requires looked.Valid() && Demux.Read(looked, true) == (left, Some(Back(num)[heard]))
    ensures
      var r := Serve(a, ab, ba);
      var tx := r.poll.next.tx;
      && WentWell(r) && SendsOnly(r.poll.next)
      && r.outLane == ab && r.inLane == left
      && (if heard < 3 then Waiting(r.poll.next, Tx.FlightKind.Data(byte), num, ticks, heard + 1)
          else tx.state == Tx.TxState.Idle && tx.num == Advance(num) && tx.asm.buf == [])
  {
    hide ToBytes, Serve, Demux.Read;
    QuietReceiver(a, ab, ba);
    var io := Io(true, GotByte(Back(num)[heard]));
    NextByte(a.tx.asm, Back(num));
    if heard < 3 {
      TxReads(a.tx, io);
    } else {
      TxAcked(a.tx, io, Back(num));
      AckedPolicy(a.tx, io);
    }
  }

  lemma AckedPolicy(t: Tx.Model, io: Io)
    requires t.Coherent()
    ensures Tx.Poll(t, io).next.policy == t.policy
  {
    hide FromBytes, ToBytes, Push;
  }

  /** The receiving peer's poll went well and reports nothing of interest. */
  predicate Uneventful(r: Served) {
    WentWell(r) && !r.poll.result.value.Received? && !r.poll.result.value.Completed?
  }

  lemma ReceiverRests(b: Pump.Model, ba: Demux.Model, ab: Demux.Model, left: Demux.Model)
    requires ReceivesOnly(b) && b.rx.out.Idle() && ba.Valid() && ab.Valid() && Demux.Read(ab, false) == (left, None)
    ensures
      var r := Serve(b, ba, ab);
      && Uneventful(r) && ReceivesOnly(r.poll.next)
      && r.poll.next.rx == b.rx.(state := r.poll.next.rx.state)
      && r.outLane == ba && r.inLane == left
  {
    hide Serve, Demux.Read;
    QuietSender(b, ba, ab);
    RxRests(b.rx, Io(Room(ba), NoByte));
  }

  lemma ReceiverReads(b: Pump.Model, kind: Tx.FlightKind, num: seqno, held: nat, ba: Demux.Model, ab: Demux.Model,
                      left: Demux.Model)
    requires held < FRAME_LEN && (kind.Data? || kind.Finish?)
    requires ReceivesOnly(b) && Reading(b, kind, num, held) && ba.Valid() && Room(ba)
    requires ab.Valid() && Demux.Read(ab, false) == (left, Some(Sent(kind, num)[held]))
    ensures
      var r := Serve(b, ba, ab);
      && Uneventful(r) && ReceivesOnly(r.poll.next) && r.inLane == left
      && (if held < 3 then Reading(r.poll.next, kind, num, held + 1) && r.outLane == ba
          else Answering(r.poll.next, kind, num, 1) && r.outLane == Written(ba, Some(Back(num)[0])))
  {
    hide ToBytes, Serve, Demux.Read;
    QuietSender(b, ba, ab);
    var io := Io(true, GotByte(Sent(kind, num)[held]));
    NextByte(b.rx.asm, Sent(kind, num));
    if held < 3 {
      RxReads(b.rx, io);
    } else {
      RxAccepts(b.rx, io, Tx.Flight(kind, num, 0, false, 0), num);
    }
  }

  lemma ReceiverAnswers(b: Pump.Model, kind: Tx.FlightKind, num: seqno, pos: nat, ba: Demux.Model, ab: Demux.Model)
    requires 1 <= pos <= 3 && (kind.Data? || kind.Finish?)
    requires ReceivesOnly(b) && Answering(b, kind, num, pos) && ba.Valid() && Room(ba) && ab.Valid()
    ensures
      var r := Serve(b, ba, ab);
      && WentWell(r) && ReceivesOnly(r.poll.next)
      && r.outLane == Written(ba, Some(Back(num)[pos])) && r.inLane == ab
      && (if pos < 3 then Uneventful(r) && Answering(r.poll.next, kind, num, pos + 1)
          else
            && RxQuiet(r.poll.next.rx)
            && (kind.Data? ==>
                  && r.poll.result.value == Pump.PumpEvent.Received(kind.byte)
                  && r.poll.next.rx.finishSeq == None && r.poll.next.rx.expected == Advance(num))
            && (kind.Finish? ==> r.poll.result.value == Pump.PumpEvent.Completed))
  {
    hide ToBytes, Serve, Demux.Read;
    QuietSender(b, ba, ab);
    var io := Io(true, Answer(Demux.Read(ab, false).1));
    if pos < 3 {
      AnswerByte(b.rx, io);
    } else {
      AnswerLast(b.rx, io, Tx.Flight(kind, num, 0, false, 0), num);
    }
  }

  // ------------------------------------------------------------ one poll of both peers

  /** The copy loop's two polls, the sending peer's first. */
  function Round(a: Pump.Model, b: Pump.Model, ab: Demux.Model, ba: Demux.Model): (r: (Served, Served))
    requires a.Coherent() && b.Coherent() && ab.Valid() && ba.Valid()
    ensures r.0.poll.next.Coherent() && r.1.poll.next.Coherent() && r.1.outLane.Valid() && r.1.inLane.Valid()
  {
    var fromA := Serve(a, ab, ba);
    (fromA, Serve(b, fromA.inLane, fromA.outLane))
  }

  /** A round in which neither peer failed, after which the copy is at `phase`. */
  predicate Reaches(r: (Served, Served), phase: nat, kind: Tx.FlightKind, num: seqno) {
    && WentWell(r.0) && WentWell(r.1)
    && At(phase, kind, num, r.0.poll.next, r.1.poll.next, r.1.inLane, r.1.outLane)
  }

  lemma WritingPhase(phase: nat, kind: Tx.FlightKind, num: seqno, a: Pump.Model, b: Pump.Model, ab: Demux.Model,
                     ba: Demux.Model)
    requires phase <= 3 && At(phase, kind, num, a, b, ab, ba)
    ensures a.Coherent() && b.Coherent() && ab.Valid() && ba.Valid()
    ensures Reaches(Round(a, b, ab, ba), phase + 1, kind, num) && Uneventful(Round(a, b, ab, ba).1)
  {
    hide ToBytes, Serve, Demux.Read;
    var word := Sent(kind, num);
    SenderWrites(a, kind, num, phase, ab);
    assert Written(ab, Some(word[phase])) == Carrying(word[..phase], [word[phase]]);
    if phase < 3 {
      ReadPart(word[..phase], [word[phase]], false);
      assert word[..phase] + [word[phase]] == word[..phase + 1];
      ReceiverRests(b, Demux.EMPTY, Written(ab, Some(word[phase])), Carrying(word[..phase + 1], []));
    } else {
      WordForReceiver(kind, num);
      ReadLast(word, false);
      ReceiverReads(b, kind, num, 0, Demux.EMPTY, Written(ab, Some(word[phase])), Holds(false, word[1..]));
    }
  }

  lemma WordForReceiver(kind: Tx.FlightKind, num: seqno)
    requires kind.Data? || kind.Finish?
    ensures FrameFor(Sent(kind, num), false)
  {
    hide FromBytes, ToBytes;
    DecodeEncode(FrameOf(kind, num));
    Duplex.FlightIsPayload(Sent(kind, num), Tx.Flight(kind, num, 0, false, 0));
  }

  lemma WordForSender(num: seqno)
    ensures FrameFor(Back(num), true)
  {
    hide FromBytes, ToBytes;
    DecodeEncode(AckFrame(num));
  }

  lemma ReadingPhase(phase: nat, kind: Tx.FlightKind, num: seqno, a: Pump.Model, b: Pump.Model, ab: Demux.Model,
                     ba: Demux.Model)
    requires 4 <= phase <= 6 && At(phase, kind, num, a, b, ab, ba)
    ensures a.Coherent() && b.Coherent() && ab.Valid() && ba.Valid()
    ensures Reaches(Round(a, b, ab, ba), phase + 1, kind, num) && Uneventful(Round(a, b, ab, ba).1)
  {
    hide ToBytes, Serve, Demux.Read;
    var word := Sent(kind, num);
    ReadHeld(true, []);
    SenderWaits(a, kind, num, phase - 4, ab, ba, ba, ba);
    ReadHeld(false, word[phase - 3..]);
    assert word[phase - 3..][1..] == word[phase - 2..];
    ReceiverReads(b, kind, num, phase - 3, ba, ab, Holds(false, word[phase - 2..]));
    if phase == 6 {
      assert word[4..] == [];
      assert Written(ba, Some(Back(num)[0])) == Carrying(Back(num)[..0], [Back(num)[0]]);
    }
  }

  lemma AnsweringPhase(phase: nat, kind: Tx.FlightKind, num: seqno, a: Pump.Model, b: Pump.Model, ab: Demux.Model,
                       ba: Demux.Model)
    requires 7 <= phase <= 9 && At(phase, kind, num, a, b, ab, ba)
    ensures a.Coherent() && b.Coherent() && ab.Valid() && ba.Valid()
    ensures
      var r := Round(a, b, ab, ba);
      && WentWell(r.0) && WentWell(r.1)
      && (phase < 9 ==> Reaches(r, phase + 1, kind, num) && Uneventful(r.1))
      && (phase == 9 && kind.Data? ==>
            Reaches(r, 10, kind, num) && r.1.poll.result.value == Pump.PumpEvent.Received(kind.byte))
      && (phase == 9 && kind.Finish? ==> r.1.poll.result.value == Pump.PumpEvent.Completed)
  {
    hide ToBytes, Serve, Demux.Read;
    var back := Back(num);
    var part := back[..phase - 6];
    ReadPart(back[..phase - 7], [back[phase - 7]], false);
    assert back[..phase - 7] + [back[phase - 7]] == part;
    ReadPart(part, [], true);
    assert part + [] == part;
    SenderWaits(a, kind, num, phase - 4, ab, ba, Carrying(part, []), Carrying(part, []));
    ReceiverAnswers(b, kind, num, phase - 6, Carrying(part, []), ab);
    assert Written(Carrying(part, []), Some(back[phase - 6])) == Carrying(part, [back[phase - 6]]);
    assert back[..0] == [];
  }

  lemma HearingPhase(phase: nat, byte: u8, num: seqno, a: Pump.Model, b: Pump.Model, ab: Demux.Model, ba: Demux.Model)
    requires 10 <= phase <= 13 && At(phase, Tx.FlightKind.Data(byte), num, a, b, ab, ba)
    ensures a.Coherent() && b.Coherent() && ab.Valid() && ba.Valid()
    ensures
      var r := Round(a, b, ab, ba);
      && WentWell(r.0) && Uneventful(r.1)
      && (phase < 13 ==> Reaches(r, phase + 1, Tx.FlightKind.Data(byte), num))
      && (phase == 13 ==> Between(Advance(num), r.0.poll.next, r.1.poll.next, r.1.inLane, r.1.outLane))
  {
    hide ToBytes, Serve, Demux.Read;
    var back := Back(num);
    var looked := Holds(true, back[phase - 10..]);
    if phase == 10 {
      WordForSender(num);
      ReadLast(back, true);
      assert back[0..] == back;
    } else {
      ReadHeld(true, back[phase - 10..]);
    }
    ReadHeld(true, back[phase - 10..]);
    assert back[phase - 10..][1..] == back[phase - 9..];
    SenderHears(a, byte, num, 6, phase - 10, ab, ba, looked, Holds(true, back[phase - 9..]));
    ReadHeld(false, []);
    ReceiverRests(b, Holds(true, back[phase - 9..]), ab, ab);
    assert back[4..] == [];
  }

  /**
    One round, from any point of an exchange: nobody fails, and the exchange is
    one phase on, or over, or FINISH has just been reported.
   */
  lemma NextPhase(phase: nat, kind: Tx.FlightKind, num: seqno, a: Pump.Model, b: Pump.Model, ab: Demux.Model,
                  ba: Demux.Model)
    requires At(phase, kind, num, a, b, ab, ba)
    ensures phase <= 13 && (kind.Finish? ==> phase <= 9)
    ensures a.Coherent() && b.Coherent() && ab.Valid() && ba.Valid()
    ensures
      var r := Round(a, b, ab, ba);
      && WentWell(r.0) && WentWell(r.1)
      && (r.1.poll.result.value.Completed? <==> kind.Finish? && phase == 9)
      && (r.1.poll.result.value.Received? <==> kind.Data? && phase == 9)
      && (!r.1.poll.result.value.Completed? && phase < 13 ==> Reaches(r, phase + 1, kind, num))
      && (phase == 13 ==> Between(Advance(num), r.0.poll.next, r.1.poll.next, r.1.inLane, r.1.outLane))
  {
    PhaseBounds(phase, kind, num, a, b, ab, ba);
    hide At, Between, Round, Reaches;
    if phase <= 3 {
      WritingPhase(phase, kind, num, a, b, ab, ba);
    } else if phase <= 6 {
      ReadingPhase(phase, kind, num, a, b, ab, ba);
    } else if phase <= 9 {
      AnsweringPhase(phase, kind, num, a, b, ab, ba);
      PhaseTenIsReached(Round(a, b, ab, ba), phase, kind, num);
    } else {
      HearingPhase(phase, kind.byte, num, a, b, ab, ba);
    }
  }

  lemma PhaseBounds(phase: nat, kind: Tx.FlightKind, num: seqno, a: Pump.Model, b: Pump.Model, ab: Demux.Model,
                    ba: Demux.Model)
    requires At(phase, kind, num, a, b, ab, ba)
    ensures phase <= 13 && (kind.Data? || (kind.Finish? && phase <= 9))
  {
  }

  lemma PhaseTenIsReached(r: (Served, Served), phase: nat, kind: Tx.FlightKind, num: seqno)
    requires WentWell(r.1) && phase <= 9 && (kind.Data? || kind.Finish?)
    requires phase < 9 ==> Reaches(r, phase + 1, kind, num) && Uneventful(r.1)
    requires phase == 9 && kind.Data? ==>
      Reaches(r, 10, kind, num) && r.1.poll.result.value == Pump.PumpEvent.Received(kind.byte)
    requires phase == 9 && kind.Finish? ==> r.1.poll.result.value == Pump.PumpEvent.Completed
    ensures r.1.poll.result.value.Completed? <==> kind.Finish? && phase == 9
    ensures r.1.poll.result.value.Received? <==> kind.Data? && phase == 9
    ensures !r.1.poll.result.value.Completed? ==> Reaches(r, phase + 1, kind, num)
  {
    hide Reaches;
  }

  /** Offering a frame starts its exchange. */
  lemma OfferStarts(num: seqno, byte: u8, a: Pump.Model, b: Pump.Model, ab: Demux.Model, ba: Demux.Model)
    requires Between(num, a, b, ab, ba)
    ensures Tx.Offer(a.tx, byte).1.Ok? && Tx.OfferFinish(a.tx).1.Ok?
    ensures At(0, Tx.FlightKind.Data(byte), num, a.(tx := Tx.Offer(a.tx, byte).0), b, ab, ba)
    ensures At(0, Tx.FlightKind.Finish, num, a.(tx := Tx.OfferFinish(a.tx).0), b, ab, ba)
  {
    hide ToBytes;
  }

  /** Polls a whole copy of `n` bytes takes. */
  function PollsFor(n: nat): nat {
    14 * n + 10
  }

  /**
    The copy after `polls` rounds: `done` bytes are acknowledged, and the next
    exchange, of a byte or of FINISH, is `phase` rounds old.
   */
  ghost predicate OnPace(polls: nat, done: nat, phase: nat, finishing: bool, source: seq<u8>,
                         a: Pump.Model, b: Pump.Model, ab: Demux.Model, ba: Demux.Model) {
    && polls == 14 * done + phase && phase <= 13 && done <= |source|
    && (phase == 0 ==> !finishing && Between(SeqOf(done), a, b, ab, ba))
    && (phase > 0 && finishing ==>
          && done == |source| && phase <= 9
          && At(phase, Tx.FlightKind.Finish, SeqOf(done), a, b, ab, ba))
    && (phase > 0 && !finishing ==>
          done < |source| && At(phase, Tx.FlightKind.Data(source[done]), SeqOf(done), a, b, ab, ba))
  }

  /** The exchange a round is about to advance, its frame offered. */
  ghost predicate Underway(polls: nat, done: nat, phase: nat, finishing: bool, source: seq<u8>,
                           a: Pump.Model, b: Pump.Model, ab: Demux.Model, ba: Demux.Model) {
    && polls == 14 * done + phase
    && (finishing ==> done == |source| && At(phase, Tx.FlightKind.Finish, SeqOf(done), a, b, ab, ba))
    && (!finishing ==> done < |source| && At(phase, Tx.FlightKind.Data(source[done]), SeqOf(done), a, b, ab, ba))
  }

  lemma StartsOnPace(source: seq<u8>)
    ensures OnPace(0, 0, 0, false, source, Pump.Fresh(Tx.DEFAULT_POLICY), Pump.Fresh(Tx.DEFAULT_POLICY), Demux.EMPTY,
                   Demux.EMPTY)
  {
  }

  /** The sender is idle exactly between exchanges. */
  lemma IdleIsBetween(polls: nat, done: nat, phase: nat, finishing: bool, source: seq<u8>,
                      a: Pump.Model, b: Pump.Model, ab: Demux.Model, ba: Demux.Model)
    requires OnPace(polls, done, phase, finishing, source, a, b, ab, ba)
    ensures a.tx.state == Tx.TxState.Idle <==> phase == 0
    ensures phase > 0 ==> Underway(polls, done, phase, finishing, source, a, b, ab, ba)
  {
    hide ToBytes;
  }

  /** A round keeps the copy on pace; if it reports the end, it is the last of `PollsFor` all bytes. */
  lemma RoundOnPace(polls: nat, done: nat, phase: nat, finishing: bool, source: seq<u8>,
                    a: Pump.Model, b: Pump.Model, ab: Demux.Model, ba: Demux.Model)
    requires Underway(polls, done, phase, finishing, source, a, b, ab, ba)
    ensures phase == 13 ==> !finishing
    ensures a.Coherent() && b.Coherent() && ab.Valid() && ba.Valid()
    ensures
      var r := Round(a, b, ab, ba);
      && WentWell(r.0) && WentWell(r.1)
      && (r.1.poll.result.value.Completed? ==> polls + 1 == PollsFor(|source|))
      && (r.1.poll.result.value.Completed? <==> finishing && phase == 9)
      && (r.1.poll.result.value.Received? <==> !finishing && phase == 9)
      && (!r.1.poll.result.value.Completed? ==>
            if phase == 13 then
              OnPace(polls + 1, done + 1, 0, finishing, source, r.0.poll.next, r.1.poll.next, r.1.inLane, r.1.outLane)
            else
              OnPace(polls + 1, done, phase + 1, finishing, source, r.0.poll.next, r.1.poll.next, r.1.inLane,
                     r.1.outLane))
  {
    hide At, Between, Round;
    var kind := if finishing then Tx.FlightKind.Finish else Tx.FlightKind.Data(source[done]);
    AdvanceOfIndex(done);
    NextPhase(phase, kind, SeqOf(done), a, b, ab, ba);
  }

  lemma PaceFacts(polls: nat, done: nat, phase: nat, finishing: bool, source: seq<u8>,
                  a: Pump.Model, b: Pump.Model, ab: Demux.Model, ba: Demux.Model)
    requires OnPace(polls, done, phase, finishing, source, a, b, ab, ba)
    ensures polls == 14 * done + phase && phase <= 13 && done <= |source|
    ensures phase == 0 ==> !finishing
    ensures phase > 0 ==> (finishing <==> done == |source|)
  {
    hide At, Between;
  }

  /** A copy that is still on pace has not had all the polls it needs. */
  lemma PaceIsShort(polls: nat, done: nat, phase: nat, finishing: bool, source: seq<u8>,
                    a: Pump.Model, b: Pump.Model, ab: Demux.Model, ba: Demux.Model)
    requires OnPace(polls, done, phase, finishing, source, a, b, ab, ba)
    ensures polls < PollsFor(|source|)
  {
    hide At, Between;
  }
}
