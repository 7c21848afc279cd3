/**
  The in-memory duplex wire between two stop-and-wait pumps: each pump's ports
  share two demultiplexed lanes, and polls of the pumps are steps of the lossy
  stop-and-wait system in which nothing happens to be lost.
 */
module Duplex {
  import opened Prelude
  import opened Wire
  import opened Framing
  import Rx
  import Tx
  import Demux
  import Pump
  import StopAndWait

  type Packet = StopAndWait.Packet

  // ------------------------------------------------------------ one lane

  /** The bytes of the words in flight. */
  function Bytes(channel: seq<Packet>): seq<u8> {
    if channel == [] then [] else channel[0].word + Bytes(channel[1..])
  }

  lemma {:induction false} BytesAppend(channel: seq<Packet>, p: Packet)
    ensures Bytes(channel + [p]) == Bytes(channel) + p.word
  {
    if channel == [] {
      assert channel + [p] == [p];
      assert Bytes([p][1..]) == [];
      assert p.word + [] == p.word;
    } else {
      assert (channel + [p])[1..] == channel[1..] + [p];
      BytesAppend(channel[1..], p);
    }
  }

  /**
    A lane carries a channel to the end `forTx`: what the reader holds and what
    the lane owes it are the words in flight, the other end is owed nothing, and
    `partial` is the frame still being written.
   */
  ghost predicate Linked(lane: Demux.Model, forTx: bool, held: seq<u8>, channel: seq<Packet>, partial: seq<u8>) {
    && lane.Valid()
    && held + Demux.Owed(lane, forTx) == Bytes(channel)
    && Demux.Owed(lane, !forTx) == []
    && FeedAll(lane.asm, lane.wire).0 == Assembly(partial, true)
    && Whole(|held| + |lane.Ring(forTx)|)
  }

  /** So many bytes are a number of whole words. */
  predicate Whole(n: nat) {
    n % FRAME_LEN == 0
  }

  /** Taking `got` bytes off a ring that grew by whole words, and holding them. */
  lemma StaysWhole(held: nat, before: nat, after: nat, got: nat)
    requires Whole(held + before) && (after + got) % FRAME_LEN == before % FRAME_LEN
    ensures Whole(held + got + after)
    ensures held + got == FRAME_LEN ==> Whole(after)
    ensures held < FRAME_LEN && after == 0 && got == 0 ==> held == 0
  {
    var k := (after + got) / FRAME_LEN - before / FRAME_LEN;
    assert after + got == before + FRAME_LEN * k;
  }

  /** A port's `write_byte` that succeeded. */
  function Written(lane: Demux.Model, byte: Option<u8>): (n: Demux.Model)
    requires lane.Valid()
    ensures n.Valid()
  {
    match byte
    case None => lane
    case Some(b) => lane.(wire := lane.wire + [b])
  }

  lemma WriteInside(lane: Demux.Model, forTx: bool, held: seq<u8>, channel: seq<Packet>, partial: seq<u8>, byte: u8)
    requires Linked(lane, forTx, held, channel, partial) && |partial| < 3
    ensures Linked(Written(lane, Some(byte)), forTx, held, channel, partial + [byte])
  {
    hide Demux.Owed, FeedAll, Demux.IsControl, Whole;
    Demux.ArriveOwes(lane, [byte], forTx);
    Demux.ArriveOwes(lane, [byte], !forTx);
    FeedShort(Assembly(partial, true), [byte]);
    assert Demux.Owed(lane, forTx) + [] == Demux.Owed(lane, forTx);
  }

  lemma WriteLast(lane: Demux.Model, forTx: bool, held: seq<u8>, channel: seq<Packet>, partial: seq<u8>, byte: u8,
                  p: Packet)
    requires Linked(lane, forTx, held, channel, partial) && |partial| == 3
    requires p.word == partial + [byte] && KnownType(p.word[0]) && Demux.IsControl(p.word) == forTx
    ensures Linked(Written(lane, Some(byte)), forTx, held, channel + [p], [])
  {
    hide Demux.Owed, Demux.IsControl, KnownType, Demux.Share, Whole;
    Demux.ArriveOwes(lane, [byte], forTx);
    Demux.ArriveOwes(lane, [byte], !forTx);
    LastByteCompletes(partial, byte, p.word);
    Demux.ShareOfOne(p.word, [], forTx);
    Demux.ShareOfOne(p.word, [], !forTx);
    NoShare(forTx);
    NoShare(!forTx);
    assert [p.word] + [] == [p.word];
    BytesAppend(channel, p);
    assert (held + Demux.Owed(lane, forTx)) + p.word == held + (Demux.Owed(lane, forTx) + p.word);
  }

  lemma NoShare(control: bool)
    ensures Demux.Share([], control) == []
  {
  }

  lemma LastByteCompletes(partial: seq<u8>, byte: u8, word: Word)
    requires |partial| == 3 && word == partial + [byte] && KnownType(word[0])
    ensures FeedAll(Assembly(partial, true), [byte]) == (FRESH_RESYNC, [word])
  {
    hide KnownType;
    assert Push(Assembly(partial, true), byte) == (FRESH_RESYNC, Some(word));
    assert [byte][1..] == [];
    assert FeedAll(FRESH_RESYNC, []) == (FRESH_RESYNC, []);
    assert [word] + [] == [word];
  }

  /** What a port's `read_byte` answers. */
  function Answer(byte: Option<u8>): ReadAnswer {
    match byte
    case None => NoByte
    case Some(b) => GotByte(b)
  }

  /** The reader gets the next byte of the oldest word, or silence between words. */
  lemma ReadOwn(lane: Demux.Model, forTx: bool, asm: Assembly, channel: seq<Packet>, partial: seq<u8>)
    requires Linked(lane, forTx, asm.buf, channel, partial) && StopAndWait.Reading(asm, channel)
    ensures lane.Valid()
    ensures
      var (n, byte) := Demux.Read(lane, forTx);
      var choice := if byte.Some? then StopAndWait.Take else StopAndWait.Silent;
      && StopAndWait.Reads(channel, |asm.buf|, choice) == Answer(byte)
      && Linked(n, forTx,
                if byte.Some? then Push(asm, byte.value).0.buf else asm.buf,
                StopAndWait.AfterRead(channel, |asm.buf|, Answer(byte), true),
                partial)
  {
    hide Demux.Owed, FeedAll, Demux.Read, KnownType, Whole;
    Demux.ReadConserves(lane, forTx);
    ReadIsAligned(lane, forTx, |asm.buf|);
    var (n, byte) := Demux.Read(lane, forTx);
    if byte.Some? {
      var got := [byte.value];
      assert asm.buf + (got + Demux.Owed(n, forTx)) == (asm.buf + got) + Demux.Owed(n, forTx);
      assert Bytes(channel)[|asm.buf|] == byte.value;
      NextByteIsOldest(asm, channel);
      if |asm.buf| == 3 {
        assert asm.buf + got == channel[0].word;
        assert Demux.Owed(n, forTx) == Bytes(channel)[FRAME_LEN..];
        assert Bytes(channel[1..]) == Bytes(channel)[FRAME_LEN..];
        assert [] + Demux.Owed(n, forTx) == Demux.Owed(n, forTx);
      }
    }
  }

  lemma NextByteIsOldest(asm: Assembly, channel: seq<Packet>)
    requires StopAndWait.Reading(asm, channel) && |asm.buf| < |Bytes(channel)|
    ensures channel != [] && Bytes(channel)[|asm.buf|] == channel[0].word[|asm.buf|]
    ensures asm.buf + [channel[0].word[|asm.buf|]] == channel[0].word[..|asm.buf| + 1]
  {
  }

  lemma ReadIsAligned(lane: Demux.Model, forTx: bool, held: nat)
    requires lane.Valid()
    ensures
      var (n, byte) := Demux.Read(lane, forTx);
      var got := if byte.Some? then 1 else 0;
      && (Whole(held + |lane.Ring(forTx)|) ==>
            && Whole(held + got + |n.Ring(forTx)|)
            && (held + got == FRAME_LEN ==> Whole(|n.Ring(forTx)|))
            && (held < FRAME_LEN && byte == None ==> held == 0))
      && (Whole(held + |lane.Ring(!forTx)|) ==> Whole(held + |n.Ring(!forTx)|))
  {
    hide Demux.Ingest, Whole;
    Demux.IngestIsWhole(lane, true);
    Demux.IngestIsWhole(lane, false);
    var (n, byte) := Demux.Read(lane, forTx);
    var got := if byte.Some? then 1 else 0;
    if Whole(held + |lane.Ring(forTx)|) {
      StaysWhole(held, |lane.Ring(forTx)|, |n.Ring(forTx)|, got);
    }
    if Whole(held + |lane.Ring(!forTx)|) {
      StaysWhole(held, |lane.Ring(!forTx)|, |n.Ring(!forTx)|, 0);
    }
  }

  /** The end that is owed nothing taken nothing and disturbs nothing. */
  lemma ReadOther(lane: Demux.Model, forTx: bool, held: seq<u8>, channel: seq<Packet>, partial: seq<u8>)
    requires Linked(lane, forTx, held, channel, partial)
    ensures Demux.Read(lane, !forTx).1 == None
    ensures Linked(Demux.Read(lane, !forTx).0, forTx, held, channel, partial)
  {
    hide Demux.Owed, FeedAll, Demux.Read, Whole;
    Demux.ReadConserves(lane, !forTx);
    ReadIsAligned(lane, !forTx, |held|);
  }

  /** The bytes of the frame being written that are already on the wire. */
  function Partial(o: Outgoing): seq<u8> {
    if o.Idle() then [] else o.bytes[..o.pos]
  }

  /** A frame of the end it is for. */
  predicate FrameFor(word: Word, forTx: bool) {
    FromBytes(word).Good? && Demux.IsControl(word) == forTx
  }

  lemma GoodIsKnown(word: Word)
    requires FromBytes(word).Good?
    ensures KnownType(word[0])
  {
  }

  /** Writing the next byte of a frame; its last byte puts the whole frame in flight. */
  lemma WriteNext(lane: Demux.Model, forTx: bool, held: seq<u8>, channel: seq<Packet>, o: Outgoing, ix: nat)
    requires o.Valid() && !o.Idle() && FrameFor(o.bytes, forTx)
    requires Linked(lane, forTx, held, channel, Partial(o))
    ensures Linked(Written(lane, Some(o.Unsent()[0])), forTx, held,
                   if o.Commit().Idle() then channel + [StopAndWait.Packet(o.bytes, ix)] else channel,
                   Partial(o.Commit()))
  {
    hide Linked, FromBytes, Demux.IsControl, KnownType;
    var byte := o.Unsent()[0];
    if o.pos == 3 {
      GoodIsKnown(o.bytes);
      assert o.bytes == o.bytes[..3] + [byte];
      WriteLast(lane, forTx, held, channel, Partial(o), byte, StopAndWait.Packet(o.bytes, ix));
    } else {
      assert o.bytes[..o.pos + 1] == o.bytes[..o.pos] + [byte];
      WriteInside(lane, forTx, held, channel, Partial(o), byte);
    }
  }

  // ------------------------------------------------------------ the wire between two pumps

  /** A stop-and-wait system whose two channels are the two lanes of a wire. */
  ghost predicate Wired(s: StopAndWait.Sys, ab: Demux.Model, ba: Demux.Model) {
    && Linked(ab, false, s.rx.asm.buf, s.data, Partial(s.tx.out))
    && Linked(ba, true, s.tx.asm.buf, s.acks, Partial(s.rx.out))
  }

  function Room(lane: Demux.Model): bool {
    |lane.wire| < Demux.RING
  }

  function ChoiceOf(byte: Option<u8>): StopAndWait.Choice {
    if byte.Some? then StopAndWait.Take else StopAndWait.Silent
  }

  /** The sender's frames are for the peer's receiver. */
  lemma FlightIsPayload(word: Word, f: Tx.Flight)
    requires FromBytes(word) == Good(Tx.FrameOf(f))
    ensures FrameFor(word, false)
  {
  }

  /** The sender's poll on the wire is its poll in the system. */
  lemma TxOnWire(s: StopAndWait.Sys, ab: Demux.Model, ba: Demux.Model)
    requires StopAndWait.Inv(s) && Wired(s, ab, ba)
    ensures
      var (n, byte) := Demux.Read(ba, true);
      var io := Io(Room(ab), Answer(byte));
      var p := Tx.Poll(s.tx, io);
      var after := StopAndWait.TxStep(s, Room(ab), ChoiceOf(byte));
      && after.tx == p.next
      && Wired(after, Written(ab, p.calls.wrote), if p.calls.didRead then n else ba)
  {
    hide Linked, FromBytes, Demux.Read, StopAndWait.Inv, Tx.Poll;
    InvFacts(s);
    ReadOwn(ba, true, s.tx.asm, s.acks, Partial(s.rx.out));
    var byte := Demux.Read(ba, true).1;
    if s.tx.Resting() {
      TxRestOnWire(s.tx, Io(Room(ab), Answer(byte)));
    } else if Tx.WillWrite(s.tx) {
      TxWriteOnWire(s, ab, Io(Room(ab), Answer(byte)));
    } else {
      TxReadOnWire(s, Room(ab), ChoiceOf(byte));
    }
  }

  lemma InvFacts(s: StopAndWait.Sys)
    requires StopAndWait.Inv(s)
    ensures s.tx.Coherent() && s.rx.Coherent()
    ensures StopAndWait.Reading(s.tx.asm, s.acks) && StopAndWait.Reading(s.rx.asm, s.data)
  {
  }

  lemma TxRestOnWire(t: Tx.Model, io: Io)
    requires t.Coherent() && t.Resting()
    ensures Tx.Poll(t, io).next == t.(mark := Tx.NO_MARK) && Tx.Poll(t, io).calls == NO_CALLS
  {
  }

  lemma TxWriteOnWire(s: StopAndWait.Sys, ab: Demux.Model, io: Io)
    requires StopAndWait.Inv(s) && !s.tx.Resting() && Tx.WillWrite(s.tx)
    requires Linked(ab, false, s.rx.asm.buf, s.data, Partial(s.tx.out))
    ensures
      var p := Tx.Poll(s.tx, io);
      && !p.calls.didRead && p.next.asm.buf == s.tx.asm.buf
      && Linked(Written(ab, p.calls.wrote), false, s.rx.asm.buf,
                if p.calls.wrote.Some? && p.next.out.Idle()
                then s.data + [StopAndWait.Packet(p.next.out.bytes, s.acked)] else s.data,
                Partial(p.next.out))
  {
    var p := Tx.Poll(s.tx, io);
    StopAndWait.SenderWrites(s.tx, s.offered, s.acked, s.finishing, io);
    hide Linked, FromBytes, StopAndWait.Inv, StopAndWait.SenderOk;
    var o := if s.tx.out.Idle() then Load(Tx.FrameOf(s.tx.inflight.value)) else s.tx.out;
    if p.calls.wrote.Some? {
      assert p.next.out == o.Commit() && p.calls.wrote == Some(o.Unsent()[0]);
      StopAndWait.SenderFlight(s.tx, s.offered, s.acked, s.finishing);
      FlightIsPayload(o.bytes, s.tx.inflight.value);
      WriteNext(ab, false, s.rx.asm.buf, s.data, o, s.acked);
    }
  }

  lemma TxReadOnWire(s: StopAndWait.Sys, writeOk: bool, choice: StopAndWait.Choice)
    requires StopAndWait.Inv(s) && Tx.WillRead(s.tx)
    ensures
      var io := Io(writeOk, StopAndWait.Reads(s.acks, |s.tx.asm.buf|, choice));
      var p := Tx.Poll(s.tx, io);
      && p.calls == Calls(None, true) && p.next.out == s.tx.out
      && p.next.asm == (if io.read.GotByte? then Push(s.tx.asm, io.read.byte).0 else s.tx.asm)
  {
    var io := Io(writeOk, StopAndWait.Reads(s.acks, |s.tx.asm.buf|, choice));
    if io.read.GotByte? {
      StopAndWait.ReadContinues(s.tx.asm, s.acks, choice);
      assert StopAndWait.AckOk(s.acks[0], s);
    }
    hide FromBytes, Push;
  }

  /** The receiver's replies are for the peer's sender. */
  lemma ReplyIsControl(s: StopAndWait.Sys)
    requires StopAndWait.ReplyOk(s) && s.rx.pending.Some?
    ensures FrameFor(s.rx.out.bytes, true)
  {
    hide FromBytes;
  }

  /** The receiver's poll on the wire is its poll in the system. */
  lemma RxOnWire(s: StopAndWait.Sys, ab: Demux.Model, ba: Demux.Model)
    requires StopAndWait.Inv(s) && Wired(s, ab, ba)
    ensures
      var (n, byte) := Demux.Read(ab, false);
      var p := Rx.Poll(s.rx, Io(Room(ba), Answer(byte)));
      var after := StopAndWait.RxStep(s, Room(ba), ChoiceOf(byte));
      && StopAndWait.Reads(s.data, |s.rx.asm.buf|, ChoiceOf(byte)) == Answer(byte)
      && after.rx == p.next
      && Wired(after, if p.calls.didRead then n else ab, Written(ba, p.calls.wrote))
  {
    var (n, byte) := Demux.Read(ab, false);
    hide Linked, FromBytes, Demux.Read;
    ReadOwn(ab, false, s.rx.asm, s.data, Partial(s.tx.out));
    if !s.rx.out.Idle() {
      RxWriteOnWire(s, ba, Io(Room(ba), Answer(byte)));
    } else {
      RxReadOnWire(s, ba, Room(ba), ChoiceOf(byte));
    }
  }

  lemma RxWriteOnWire(s: StopAndWait.Sys, ba: Demux.Model, io: Io)
    requires StopAndWait.Inv(s) && !s.rx.out.Idle()
    requires Linked(ba, true, s.tx.asm.buf, s.acks, Partial(s.rx.out))
    ensures
      var p := Rx.Poll(s.rx, io);
      && !p.calls.didRead && p.next.asm == s.rx.asm
      && Linked(Written(ba, p.calls.wrote), true, s.tx.asm.buf,
                if p.calls.wrote.Some? && p.next.out.Idle()
                then s.acks + [StopAndWait.Packet(p.next.out.bytes, s.lastIx)] else s.acks,
                Partial(p.next.out))
  {
    hide Linked, FromBytes, StopAndWait.ReplyOk;
    ReplyIsControl(s);
    WriteNext(ba, true, s.tx.asm.buf, s.acks, s.rx.out, s.lastIx);
  }

  lemma RxReadOnWire(s: StopAndWait.Sys, ba: Demux.Model, writeOk: bool, choice: StopAndWait.Choice)
    requires StopAndWait.Inv(s) && s.rx.out.Idle()
    requires Linked(ba, true, s.tx.asm.buf, s.acks, Partial(s.rx.out))
    ensures
      var io := Io(writeOk, StopAndWait.Reads(s.data, |s.rx.asm.buf|, choice));
      var p := Rx.Poll(s.rx, io);
      && p.calls.didRead
      && p.next.asm.buf == (if io.read.GotByte? then Push(s.rx.asm, io.read.byte).0.buf else s.rx.asm.buf)
      && !(p.calls.wrote.Some? && p.next.out.Idle())
      && Linked(Written(ba, p.calls.wrote), true, s.tx.asm.buf, s.acks, Partial(p.next.out))
  {
    hide Linked, FromBytes, Push, Rx.Poll, StopAndWait.Inv, StopAndWait.Reads;
    InvFacts(s);
    var io := Io(writeOk, StopAndWait.Reads(s.data, |s.rx.asm.buf|, choice));
    if io.read.GotByte? {
      StopAndWait.ReadContinues(s.rx.asm, s.data, choice);
    }
    if io.read.GotByte? && |s.rx.asm.buf| == 3 {
      RxWordOnWire(s, ba, io);
    } else {
      RxListens(s.rx, io);
    }
  }

  /** A poll that completes no word writes nothing. */
  lemma RxListens(r: Rx.Model, io: Io)
    requires r.Coherent() && r.out.Idle() && (io.read.GotByte? ==> Push(r.asm, io.read.byte).1 == None)
    ensures
      var p := Rx.Poll(r, io);
      && p.calls == Calls(None, true) && p.next.out == r.out
      && p.next.asm == (if io.read.GotByte? then Push(r.asm, io.read.byte).0 else r.asm)
  {
    hide FromBytes, Push, Rx.OnWord;
  }

  lemma RxWordOnWire(s: StopAndWait.Sys, ba: Demux.Model, io: Io)
    requires StopAndWait.Inv(s) && s.rx.out.Idle() && s.data != []
    requires Linked(ba, true, s.tx.asm.buf, s.acks, Partial(s.rx.out))
    requires io.read.GotByte? && Push(s.rx.asm, io.read.byte) == (FRESH_PLAIN, Some(s.data[0].word))
    ensures
      var p := Rx.Poll(s.rx, io);
      && p.calls.didRead
      && p.next.asm == FRESH_PLAIN
      && !(p.calls.wrote.Some? && p.next.out.Idle())
      && Linked(Written(ba, p.calls.wrote), true, s.tx.asm.buf, s.acks, Partial(p.next.out))
  {
    var d := FromBytes(s.data[0].word);
    var h := StopAndWait.Handled(s);
    var q := s.rx.(asm := FRESH_PLAIN, state := Rx.RxState.Validating);
    StopAndWait.HandledIsOk(s);
    hide Linked, FromBytes, Push, Rx.Handle, StopAndWait.Inv, StopAndWait.ReplyOk, StopAndWait.ReceiverOk,
      Rx.TakePending;
    Rx.WordPoll(s.rx, io, s.data[0].word);
    Rx.RepliesStartWhole(q, d);
    Rx.HandlingKeepsAssembler(q, d);
    var p := Rx.Poll(s.rx, io);
    if !h.rx.out.Idle() {
      ReplyIsControl(h);
      assert h.rx.out.bytes[..0] == [];
      WriteNext(ba, true, s.tx.asm.buf, s.acks, h.rx.out, 0);
      assert Partial(h.rx.out) == [];
    } else {
      Rx.NothingPending(h.rx);
    }
  }

  // ------------------------------------------------------------ a pump on its two lanes

  datatype Served = Served(poll: Pump.Polled, outLane: Demux.Model, inLane: Demux.Model)

  /** One poll of a pump whose ports are on the wire: both halves share its two lanes. */
  function Serve(p: Pump.Model, outLane: Demux.Model, inLane: Demux.Model): (r: Served)
    requires p.Coherent() && outLane.Valid() && inLane.Valid()
    ensures r.poll.next.Coherent() && r.outLane.Valid() && r.inLane.Valid()
  {
    if p.pendingCompleted then Served(Pump.Poll(p, Io(true, NoByte), Io(true, NoByte)), outLane, inLane)
    else
      var (inRx, forRx) := Demux.Read(inLane, false);
      var rxIo := Io(Room(outLane), Answer(forRx));
      var rxCalls := Rx.Poll(p.rx, rxIo).calls;
      var in1 := if rxCalls.didRead then inRx else inLane;
      var out1 := Written(outLane, rxCalls.wrote);
      var (inTx, forTx) := Demux.Read(in1, true);
      var r := Pump.Poll(p, rxIo, Io(Room(out1), Answer(forTx)));
      Served(r, Written(out1, r.txCalls.wrote), if r.txCalls.didRead then inTx else in1)
  }

  /** One peer only sends, the other only receives, and the wire carries nothing else. */
  ghost predicate Running(s: StopAndWait.Sys, a: Pump.Model, b: Pump.Model, ab: Demux.Model, ba: Demux.Model) {
    && a.Coherent() && b.Coherent() && ab.Valid() && ba.Valid()
    && StopAndWait.Inv(s)
    && Wired(s, ab, ba)
    && a.tx == s.tx && a.rx == Rx.FRESH && !a.pendingCompleted
    && b.rx == s.rx && b.tx == Tx.Fresh(b.tx.policy) && !b.pendingCompleted
  }

  /** The tally hint of the last poll matters to nobody else. */
  lemma MarkIsApart(s: StopAndWait.Sys, mark: Tx.IoMark, ab: Demux.Model, ba: Demux.Model)
    requires StopAndWait.Inv(s) && Wired(s, ab, ba)
    ensures
      var n := s.(tx := s.tx.(mark := mark));
      StopAndWait.Inv(n) && Wired(n, ab, ba)
  {
    hide FromBytes, StopAndWait.ReplyOk, StopAndWait.ReceiverOk, Linked;
    var n := s.(tx := s.tx.(mark := mark));
    StopAndWait.OtherHalfOk(s, n);
  }

  /** A pump whose receiver hears nothing does what its sender does. */
  lemma QuietReceiver(a: Pump.Model, ab: Demux.Model, ba: Demux.Model)
    requires a.Coherent() && ab.Valid() && ba.Valid()
    requires a.rx == Rx.FRESH && !a.pendingCompleted && Demux.Read(ba, false).1 == None
    ensures
      var quiet := Demux.Read(ba, false).0;
      var (read, byte) := Demux.Read(quiet, true);
      var p := Tx.Poll(a.tx, Io(Room(ab), Answer(byte)));
      var r := Serve(a, ab, ba);
      && r.outLane == Written(ab, p.calls.wrote)
      && r.inLane == (if p.calls.didRead then read else quiet)
      && (r.poll.result.Ok? <==> p.result.Ok?)
      && (r.poll.result.Ok? ==>
            && (r.poll.result.value.Aborted? <==> p.result.value.Aborted?)
            && r.poll.next.tx == p.next.(mark := Tx.NO_MARK)
            && r.poll.next.rx == Rx.FRESH
            && !r.poll.next.pendingCompleted)
  {
    hide Rx.Poll, Tx.Poll, Demux.Read, Tx.Model.Coherent, Rx.Model.Coherent, Demux.Model.Valid;
    FreshHearsNothing(Room(ab));
  }

  lemma FreshHearsNothing(writeOk: bool)
    ensures Rx.FRESH.Coherent()
    ensures Rx.Poll(Rx.FRESH, Io(writeOk, NoByte)) == Rx.Polled(Rx.FRESH, Ok(Rx.PollOutcome.Pending), Calls(None, true))
  {
  }

  /** A pump whose sender rests does what its receiver does. */
  lemma QuietSender(b: Pump.Model, ba: Demux.Model, ab: Demux.Model)
    requires b.Coherent() && ab.Valid() && ba.Valid()
    requires b.tx == Tx.Fresh(b.tx.policy) && !b.pendingCompleted
    ensures
      var (read, byte) := Demux.Read(ab, false);
      var p := Rx.Poll(b.rx, Io(Room(ba), Answer(byte)));
      var r := Serve(b, ba, ab);
      && r.outLane == Written(ba, p.calls.wrote)
      && r.inLane == (if p.calls.didRead then read else ab)
      && (p.result != Ok(Rx.PollOutcome.Aborted) ==> (r.poll.result.Ok? <==> p.result.Ok?))
      && (p.result != Ok(Rx.PollOutcome.Aborted) && r.poll.result.Ok? ==>
            && !r.poll.result.value.Aborted?
            && r.poll.next.rx == p.next
            && r.poll.next.tx == b.tx
            && !r.poll.next.pendingCompleted
            && (p.result.value.Delivered? <==> r.poll.result.value.Received?)
            && (p.result.value.Delivered? ==> r.poll.result.value.byte == p.result.value.byte)
            && (r.poll.result.value.Completed? <==> p.result.value.TransferFinished?))
  {
    hide Rx.Poll, Demux.Read;
  }

  /** The sending peer's poll moves the system as its sender does, and hands over nothing. */
  lemma ServeSender(s: StopAndWait.Sys, a: Pump.Model, b: Pump.Model, ab: Demux.Model, ba: Demux.Model)
    returns (n: StopAndWait.Sys)
    requires Running(s, a, b, ab, ba)
    ensures n.offered == s.offered && n.delivered == s.delivered && n.finishing == s.finishing
    ensures
      var r := Serve(a, ab, ba);
      r.poll.result.Ok? ==> Running(n, r.poll.next, b, r.outLane, r.inLane)
  {
    var quiet := Demux.Read(ba, false).0;
    ReadOther(ba, true, s.tx.asm.buf, s.acks, Partial(s.rx.out));
    var choice := ChoiceOf(Demux.Read(quiet, true).1);
    hide StopAndWait.Inv, Linked, Rx.Poll, Tx.Poll, Demux.Read, Serve;
    QuietReceiver(a, ab, ba);
    TxOnWire(s, ab, quiet);
    var after := StopAndWait.TxStep(s, Room(ab), choice);
    StopAndWait.TxKeepsInv(s, Room(ab), choice);
    var r := Serve(a, ab, ba);
    MarkIsApart(after, Tx.NO_MARK, r.outLane, r.inLane);
    n := after.(tx := after.tx.(mark := Tx.NO_MARK));
  }

  /** What the receiver announces as the end of the transfer, it has latched. */
  lemma FinishedIsLatched(s: StopAndWait.Sys, io: Io)
    requires StopAndWait.Inv(s)
    ensures Rx.Poll(s.rx, io).result == Ok(Rx.PollOutcome.TransferFinished) ==> Rx.Poll(s.rx, io).next.finishSeq.Some?
    ensures Rx.Poll(s.rx, io).result != Ok(Rx.PollOutcome.Aborted)
  {
    hide FromBytes, Push, Rx.Handle;
    if s.rx.out.Idle() && io.read.GotByte? && Push(s.rx.asm, io.read.byte).1.Some? {
      NoOutcomeYet(s.rx, io);
    }
  }

  /** The poll that completes a word announces nothing: its reply is not out yet. */
  lemma NoOutcomeYet(r: Rx.Model, io: Io)
    requires r.Coherent() && r.out.Idle()
    requires io.read.GotByte? && Push(r.asm, io.read.byte).1.Some?
    ensures Rx.Poll(r, io).result == Ok(Rx.PollOutcome.Pending) || Rx.Poll(r, io).result == Err(TransportFault)
  {
    var d := FromBytes(Push(r.asm, io.read.byte).1.value);
    var q := r.(asm := Push(r.asm, io.read.byte).0, state := Rx.RxState.Validating);
    hide FromBytes, Push, Rx.Handle, Rx.TakePending;
    Rx.RepliesStartWhole(q, d);
    if Rx.Handle(q, d).out.Idle() {
      Rx.NothingPending(Rx.Handle(q, d));
    }
  }

  /**
    The receiving peer's poll moves the system as its receiver does, reports
    every byte handed over, and reports the end only once it is latched.
   */
  lemma ServeReceiver(s: StopAndWait.Sys, a: Pump.Model, b: Pump.Model, ab: Demux.Model, ba: Demux.Model)
    returns (n: StopAndWait.Sys)
    requires Running(s, a, b, ab, ba)
    ensures n.offered == s.offered && n.finishing == s.finishing
    ensures
      var r := Serve(b, ba, ab);
      r.poll.result.Ok? ==>
        && Running(n, a, r.poll.next, r.inLane, r.outLane)
        && n.delivered == (if r.poll.result.value.Received? then s.delivered + [r.poll.result.value.byte]
                           else s.delivered)
        && (r.poll.result.value.Completed? ==> n.rx.finishSeq.Some?)
  {
    var (n1, byte) := Demux.Read(ab, false);
    var io := Io(Room(ba), Answer(byte));
    FinishedIsLatched(s, io);
    hide StopAndWait.Inv, Linked, Rx.Poll, Demux.Read, Serve;
    QuietSender(b, ba, ab);
    RxOnWire(s, ab, ba);
    StopAndWait.RxKeepsInv(s, Room(ba), ChoiceOf(byte));
    n := StopAndWait.RxStep(s, Room(ba), ChoiceOf(byte));
  }

  /** Powering up the two pumps and the two lanes. */
  lemma StartsRunning(policy: Tx.RetryPolicy)
    ensures Running(StopAndWait.PowerUp(policy), Pump.Fresh(policy), Pump.Fresh(policy), Demux.EMPTY, Demux.EMPTY)
  {
    StopAndWait.PowerUpIsInv(policy);
    hide StopAndWait.Inv;
    assert FeedAll(FRESH_RESYNC, []) == (FRESH_RESYNC, []);
    assert Demux.Share([], true) == [] && Demux.Share([], false) == [];
  }

  lemma OfferRuns(s: StopAndWait.Sys, a: Pump.Model, b: Pump.Model, ab: Demux.Model, ba: Demux.Model, byte: u8)
    returns (n: StopAndWait.Sys)
    requires Running(s, a, b, ab, ba) && a.tx.state == Tx.TxState.Idle
    ensures Tx.Offer(a.tx, byte).1.Ok?
    ensures Running(n, a.(tx := Tx.Offer(a.tx, byte).0), b, ab, ba)
    ensures n.offered == s.offered + [byte] && n.delivered == s.delivered && n.finishing == s.finishing
  {
    n := StopAndWait.Step(s, StopAndWait.OfferByte(byte));
    StopAndWait.OfferKeepsInv(s, byte);
    hide StopAndWait.Inv, Linked;
  }

  lemma OfferEndRuns(s: StopAndWait.Sys, a: Pump.Model, b: Pump.Model, ab: Demux.Model, ba: Demux.Model)
    returns (n: StopAndWait.Sys)
    requires Running(s, a, b, ab, ba) && a.tx.state == Tx.TxState.Idle
    ensures Tx.OfferFinish(a.tx).1.Ok?
    ensures Running(n, a.(tx := Tx.OfferFinish(a.tx).0), b, ab, ba)
    ensures n.offered == s.offered && n.delivered == s.delivered && n.finishing
  {
    n := StopAndWait.Step(s, StopAndWait.OfferEnd);
    StopAndWait.OfferEndKeepsInv(s);
    hide StopAndWait.Inv, Linked;
  }

  lemma RunningIsSound(s: StopAndWait.Sys, a: Pump.Model, b: Pump.Model, ab: Demux.Model, ba: Demux.Model)
    requires Running(s, a, b, ab, ba)
    ensures a.Coherent() && b.Coherent() && ab.Valid() && ba.Valid()
    ensures StopAndWait.Inv(s)
  {
  }
}
