/**
  The objects behind `Demux`: a 64-byte ring filled and emptied in place, one
  lane of the in-memory duplex wire, and the face of a single physical port.
 */
module Ports {
  import opened Prelude
  import opened Wire
  import opened Framing
  import Demux

  const RING := Demux.RING

  /** A position at most one lap past the end of the buffer, brought back into it. */
  function Wrap(x: nat): (k: nat)
    requires x < 2 * RING
    ensures k == x % RING
  {
    if x < RING then x else x - RING
  }

  /** A ring buffer; `contents` is what it holds, oldest first. */
  class Ring {
    const buf: array<u8>
    var head: nat
    var tail: nat
    var len: nat
    ghost var contents: seq<u8>
    ghost const Repr: set<object>

    ghost predicate Valid()
      reads this, Repr
    {
      && Repr == {this, buf}
      && buf.Length == RING
      && head < RING && len <= RING && tail == Wrap(head + len)
      && |contents| == len
      && forall i :: 0 <= i < len ==> contents[i] == buf[Wrap(head + i)]
    }

    constructor ()
      ensures Valid() && fresh(Repr) && contents == []
    {
      var b := new u8[RING](_ => 0);
      buf, head, tail, len, contents := b, 0, 0, 0, [];
      Repr := {this, b};
    }

    method Append(byte: u8)
      requires Valid() && len < RING
      modifies Repr
      ensures Valid() && contents == old(contents) + [byte]
    {
      buf[tail] := byte;
      tail := (tail + 1) % RING;
      len := len + 1;
      contents := contents + [byte];
    }

    /** Take in one byte, if there is room for it. */
    method Push(byte: u8) returns (ok: bool)
      requires Valid()
      modifies Repr
      ensures Valid()
      ensures ok <==> |old(contents)| < RING
      ensures contents == if ok then old(contents) + [byte] else old(contents)
    {
      if len == RING {
        return false;
      }
      Append(byte);
      return true;
    }

    method Pop() returns (byte: Option<u8>)
      requires Valid()
      modifies this
      ensures Valid()
      ensures byte == if old(contents) == [] then None else Some(old(contents)[0])
      ensures contents == if old(contents) == [] then [] else old(contents)[1..]
    {
      if len == 0 {
        return None;
      }
      byte := Some(buf[head]);
      head := (head + 1) % RING;
      len := len - 1;
      contents := contents[1..];
      forall i | 0 <= i < len
        ensures contents[i] == buf[Wrap(head + i)]
      {
        assert old(contents)[i + 1] == buf[Wrap(old(head) + (i + 1))];
      }
    }

    /** Four bytes or none: `false` when the whole frame does not fit. */
    method PushFrame(bytes: Word) returns (ok: bool)
      requires Valid()
      modifies Repr
      ensures Valid()
      ensures ok <==> |old(contents)| <= RING - FRAME_LEN
      ensures contents == if ok then old(contents) + bytes else old(contents)
    {
      if len > RING - FRAME_LEN {
        return false;
      }
      var i := 0;
      while i < FRAME_LEN
        invariant 0 <= i <= FRAME_LEN
        invariant Valid()
        invariant contents == old(contents) + bytes[..i]
      {
        Append(bytes[i]);
        i := i + 1;
      }
      return true;
    }
  }

  /** What a lane and a face have in common: one assembler, two rings, and the window held back. */
  class Sorter {
    const assembler: FrameAssembler
    const control: Ring
    const payload: Ring
    var pending: Option<Demux.Held>
    ghost const Repr: set<object>

    ghost predicate Valid()
      reads this, Repr
    {
      && Repr == {this} + assembler.Repr + control.Repr + payload.Repr
      && assembler in Repr && control in Repr && payload in Repr
      && this !in assembler.Repr && this !in control.Repr && this !in payload.Repr
      && assembler.Repr !! control.Repr !! payload.Repr
      && assembler.Valid() && control.Valid() && payload.Valid()
      && assembler.resync
    }

    ghost function View(): (m: Demux.Model)
      requires Valid()
      reads this, Repr
      ensures m.Valid()
    {
      Demux.Model([], assembler.View(), control.contents, payload.contents, pending)
    }

    constructor ()
      ensures Valid() && fresh(Repr) && View() == Demux.EMPTY
    {
      var a := new FrameAssembler(true);
      var c := new Ring();
      var p := new Ring();
      assembler, control, payload, pending := a, c, p, None;
      Repr := {this} + a.Repr + c.Repr + p.Repr;
    }

    /** `false`, and nothing changed, when the window's ring is full. */
    method Store(held: Demux.Held) returns (ok: bool)
      requires Valid()
      modifies control.Repr, payload.Repr
      ensures Valid()
      ensures ok <==> Demux.Fits(old(View()), held)
      ensures View() == if ok then Demux.Store(old(View()), held) else old(View())
    {
      if held.control {
        ok := control.PushFrame(held.bytes);
      } else {
        ok := payload.PushFrame(held.bytes);
      }
    }

    /** Store the window held back; `false` when it still does not fit. */
    method Release() returns (ok: bool)
      requires Valid()
      modifies Repr
      ensures Valid()
      ensures (View(), ok) == Demux.Release(old(View()))
    {
      if pending.Some? {
        ok := Store(pending.value);
        if ok {
          pending := None;
        }
      } else {
        ok := true;
      }
    }

    /** One byte off the wire. */
    method Accept(byte: u8)
      requires Valid() && View().pending == None
      modifies Repr
      ensures Valid() && View() == Demux.Look(old(View()), byte)
    {
      hide FromBytes, ToBytes, Push, Demux.IsControl, Demux.Fits, Demux.Store, IsControlFrame, Wrap;
      var result := assembler.Accept(byte);
      if result == None {
        return;
      }
      var window := assembler.LastBytes();
      var held := Demux.Held(if result.value.Good? then ToBytes(result.value.frame) else window,
                             IsControlFrame(result.value));
      SameBytes(window);
      var ok := Store(held);
      if !ok {
        pending := Some(held);
      }
    }

    method PopEnd(forTx: bool) returns (byte: Option<u8>)
      requires Valid()
      modifies control, payload
      ensures Valid() && (View(), byte) == Demux.Pop(old(View()), forTx)
    {
      if forTx {
        byte := control.Pop();
      } else {
        byte := payload.Pop();
      }
    }
  }

  predicate IsControlFrame(d: Decoded) {
    d.Good? && (d.frame.kind == Ack || d.frame.kind == Nack)
  }

  /** Encoding a decoded window gives the window back. */
  lemma SameBytes(window: Word)
    ensures FromBytes(window).Good? ==> ToBytes(FromBytes(window).frame) == window
    ensures IsControlFrame(FromBytes(window)) == Demux.IsControl(window)
  {
    if FromBytes(window).Good? {
      EncodeDecode(window, FromBytes(window).frame);
    }
  }

  /** Looking and storing do not depend on what else has arrived. */
  lemma WireIsApart(m: Demux.Model, wire: seq<u8>)
    requires m.Valid()
    ensures Demux.Release(m.(wire := wire)) == (Demux.Release(m).0.(wire := wire), Demux.Release(m).1)
    ensures m.pending == None ==>
      forall byte :: Demux.Look(m.(wire := wire), byte) == Demux.Look(m, byte).(wire := wire)
  {
    hide FromBytes, Push;
  }

  /** One direction of the in-memory duplex wire. */
  class Lane {
    const wire: Ring
    const sorter: Sorter
    ghost const Repr: set<object>

    ghost predicate Valid()
      reads this, Repr
    {
      && Repr == {this} + wire.Repr + sorter.Repr
      && wire in Repr && sorter in Repr
      && this !in wire.Repr && this !in sorter.Repr
      && wire.Repr !! sorter.Repr
      && wire.Valid() && sorter.Valid()
    }

    ghost function View(): (m: Demux.Model)
      requires Valid()
      reads this, Repr
      ensures m.Valid()
    {
      sorter.View().(wire := wire.contents)
    }

    constructor ()
      ensures Valid() && fresh(Repr) && View() == Demux.EMPTY
    {
      var w := new Ring();
      var s := new Sorter();
      wire, sorter := w, s;
      Repr := {this} + w.Repr + s.Repr;
    }

    /** A port's `write_byte`: fails, and changes nothing, when 64 bytes are waiting. */
    method WriteByte(byte: u8) returns (ok: bool)
      requires Valid()
      modifies Repr
      ensures Valid()
      ensures ok <==> |old(View()).wire| < RING
      ensures View() == if ok then old(View()).(wire := old(View()).wire + [byte]) else old(View())
    {
      ok := wire.Push(byte);
    }

    /** The body of the loop: the next byte of the wire, if there is one. */
    method LookAtOne() returns (more: bool)
      requires Valid() && sorter.pending == None
      modifies Repr
      ensures Valid()
      ensures more <==> old(View()).wire != []
      ensures !more ==> View() == old(View())
      ensures more ==>
        && |View().wire| < |old(View()).wire|
        && Demux.DrainWire(old(View())) == if View().pending == None then Demux.DrainWire(View()) else View()
    {
      hide Demux.DrainWire, Demux.Look, Demux.Fits, Demux.Store, Demux.Pop, Demux.Release, Wrap;
      ghost var before := View();
      var byte := wire.Pop();
      if byte == None {
        return false;
      }
      WireIsApart(sorter.View(), wire.contents);
      sorter.Accept(byte.value);
      assert before.wire == [byte.value] + wire.contents;
      Demux.DrainLooks(before, byte.value, wire.contents);
      return true;
    }

    method Ingest()
      requires Valid()
      modifies Repr
      ensures Valid() && View() == Demux.Ingest(old(View()))
    {
      hide Demux.DrainWire, Demux.Look, Demux.Fits, Demux.Store;
      WireIsApart(sorter.View(), wire.contents);
      var ok := sorter.Release();
      if !ok {
        return;
      }
      var more := true;
      while more && sorter.pending == None
        invariant Valid()
        invariant sorter.pending == None ==> Demux.Ingest(old(View())) == Demux.DrainWire(View())
        invariant sorter.pending.Some? ==> Demux.Ingest(old(View())) == View()
        invariant !more ==> View().wire == []
        decreases |wire.contents|, if more then 1 else 0
      {
        more := LookAtOne();
      }
      if sorter.pending == None {
        DrainedDry(View());
      }
    }

    /** A port's `read_byte`. */
    method ReadByte(forTx: bool) returns (byte: Option<u8>)
      requires Valid()
      modifies Repr
      ensures Valid() && (View(), byte) == Demux.Read(old(View()), forTx)
    {
      hide Demux.Ingest;
      Ingest();
      byte := sorter.PopEnd(forTx);
    }
  }

  lemma DrainedDry(m: Demux.Model)
    requires m.Valid() && m.pending == None && m.wire == []
    ensures Demux.DrainWire(m) == m
  {
  }

  /** The bytes a port gives before it first falls silent or fails. */
  function Leading(answers: seq<ReadAnswer>): (bytes: seq<u8>)
    ensures |bytes| <= |answers|
    ensures |bytes| < |answers| ==> !answers[|bytes|].GotByte?
  {
    if answers == [] || !answers[0].GotByte? then [] else [answers[0].byte] + Leading(answers[1..])
  }

  /** The demultiplexer of one physical port, read through `answers`. */
  class LinkFace {
    const sorter: Sorter
    ghost const Repr: set<object>

    ghost predicate Valid()
      reads this, Repr
    {
      && Repr == {this} + sorter.Repr
      && sorter in Repr && this !in sorter.Repr
      && sorter.Valid()
    }

    ghost function View(): (m: Demux.Model)
      requires Valid()
      reads this, Repr
      ensures m.Valid() && m.wire == []
    {
      sorter.View()
    }

    constructor ()
      ensures Valid() && fresh(Repr) && View() == Demux.EMPTY
    {
      var s := new Sorter();
      sorter := s;
      Repr := {this} + s.Repr;
    }

    /**
      Reads the port until it falls silent, fails, or a window is held back.
      The bytes it gave before that are looked at exactly as a lane would look
      at its wire; a port error is reported only if reading got as far as it.
     */
    method Ingest(answers: seq<ReadAnswer>) returns (result: Result<()>, used: nat)
      requires Valid()
      modifies Repr
      ensures Valid()
      ensures
        var bytes := Leading(answers);
        var end := Demux.Ingest(old(View()).(wire := bytes));
        && View() == end.(wire := [])
        && used + |end.wire| == |bytes|
        && (result.Err? <==> end.pending == None && |bytes| < |answers| && answers[|bytes|].ReadFault?)
        && (result.Err? ==> result.error == TransportFault)
    {
      hide Demux.DrainWire, Demux.Look, Demux.Fits, Demux.Store, Leading;
      ghost var bytes := Leading(answers);
      WireIsApart(View(), bytes);
      used := 0;
      var ok := sorter.Release();
      if !ok {
        return Ok(()), 0;
      }
      while used < |answers|
        invariant Valid() && View().pending == None
        invariant used <= |answers|
        invariant used <= |bytes| && Leading(answers[used..]) == bytes[used..]
        invariant Demux.Ingest(old(View()).(wire := bytes)) == Demux.DrainWire(View().(wire := bytes[used..]))
      {
        LeadingNext(answers, used);
        match answers[used] {
          case NoByte =>
            DrainedDry(View());
            return Ok(()), used;
          case ReadFault =>
            DrainedDry(View());
            return Err(TransportFault), used;
          case GotByte(byte) =>
            ghost var before := View().(wire := bytes[used..]);
            WireIsApart(View(), bytes[used + 1..]);
            Demux.DrainLooks(before, byte, bytes[used + 1..]);
            sorter.Accept(byte);
            used := used + 1;
            if sorter.pending.Some? {
              return Ok(()), used;
            }
        }
      }
      LeadingNext(answers, used);
      DrainedDry(View());
      return Ok(()), used;
    }

    /** `FaceTx::read_byte` and `FaceRx::read_byte`. */
    method ReadByte(forTx: bool, answers: seq<ReadAnswer>) returns (result: Result<Option<u8>>, used: nat)
      requires Valid()
      modifies Repr
      ensures Valid()
      ensures
        var bytes := Leading(answers);
        var end := Demux.Ingest(old(View()).(wire := bytes));
        if end.pending == None && |bytes| < |answers| && answers[|bytes|].ReadFault?
        then View() == end.(wire := []) && result == Err(TransportFault)
        else result.Ok? && (View(), result.value) == Demux.Pop(end.(wire := []), forTx)
    {
      hide Demux.Ingest;
      var ingested;
      ingested, used := Ingest(answers);
      if ingested.Err? {
        return Err(ingested.error), used;
      }
      var byte := sorter.PopEnd(forTx);
      return Ok(byte), used;
    }
  }

  lemma LeadingNext(answers: seq<ReadAnswer>, used: nat)
    requires used <= |answers| && used <= |Leading(answers)|
    requires Leading(answers[used..]) == Leading(answers)[used..]
    ensures used == |answers| ==> used == |Leading(answers)|
    ensures used < |answers| && answers[used].GotByte? ==>
      && used < |Leading(answers)|
      && Leading(answers)[used..] == [answers[used].byte] + Leading(answers)[used + 1..]
      && Leading(answers[used + 1..]) == Leading(answers)[used + 1..]
    ensures used < |answers| && !answers[used].GotByte? ==> used == |Leading(answers)|
  {
    if used < |answers| {
      assert answers[used..][1..] == answers[used + 1..];
      if answers[used].GotByte? {
        assert Leading(answers)[used..][1..] == Leading(answers)[used + 1..];
      }
    }
  }
}
