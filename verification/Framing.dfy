/**
  Byte-at-a-time framing: the assembler that collects four bytes into a frame,
  and the buffer that hands a frame to the transport byte by byte.
 */
module Framing {
  import opened Prelude
  import opened Wire

  // ------------------------------------------------------------ the assembler

  /** An assembler as a value: the bytes collected so far, and whether it slides. */
  datatype Assembly = Assembly(buf: seq<u8>, resync: bool) {
    predicate Valid() {
      |buf| < FRAME_LEN
    }
  }

  const FRESH_PLAIN := Assembly([], false)
  const FRESH_RESYNC := Assembly([], true)

  /** Whether a completed window keeps its last three bytes for the next one. */
  predicate Slides(resync: bool, window: Word) {
    resync && !KnownType(window[0])
  }

  /** One more byte: the new state, and the window it completed, if any. */
  function Push(a: Assembly, byte: u8): (r: (Assembly, Option<Word>))
    requires a.Valid()
    ensures r.0.Valid() && r.0.resync == a.resync
  {
    var buf := a.buf + [byte];
    if |buf| < FRAME_LEN then (a.(buf := buf), None)
    else (a.(buf := if Slides(a.resync, buf) then buf[1..] else []), Some(buf))
  }

  /** The class behind `Assembly`: a four-byte buffer filled in place. */
  class FrameAssembler {
    const buf: array<u8>
    const last: array<u8>
    const resync: bool
    var filled: int
    ghost const Repr: set<object>

    ghost predicate Valid()
      reads this, Repr
    {
      && Repr == {this, buf, last}
      && buf != last
      && buf.Length == FRAME_LEN
      && last.Length == FRAME_LEN
      && 0 <= filled <= FRAME_LEN
    }

    ghost function View(): (a: Assembly)
      requires Valid()
      reads this, Repr
      ensures a.Valid()
    {
      Assembly(if filled < FRAME_LEN then buf[..filled] else [], resync)
    }

    constructor (resync: bool)
      ensures Valid() && fresh(Repr)
      ensures View() == Assembly([], resync)
    {
      var b := new u8[FRAME_LEN](_ => 0);
      var l := new u8[FRAME_LEN](_ => 0);
      buf, last, filled := b, l, 0;
      this.resync := resync;
      Repr := {this, b, l};
    }

    /** Forget the bytes of an unfinished window. */
    method Reset()
      requires Valid()
      modifies this
      ensures Valid() && View() == Assembly([], resync)
    {
      filled := 0;
    }

    method Accept(byte: u8) returns (result: Option<Decoded>)
      requires Valid()
      modifies Repr
      ensures Valid()
      ensures View() == Push(old(View()), byte).0
      ensures result.Some? <==> Push(old(View()), byte).1.Some?
      ensures result.Some? ==>
        && last[..] == Push(old(View()), byte).1.value
        && result.value == FromBytes(last[..])
    {
      hide FromBytes, KnownType;
      ghost var before := View();
      if filled >= FRAME_LEN {
        filled := 0;
      }
      buf[filled] := byte;
      filled := filled + 1;
      if filled < FRAME_LEN {
        assert buf[..filled] == before.buf + [byte];
        return None;
      }
      var window := buf[..];
      assert window == before.buf + [byte];
      assert Push(before, byte) == (before.(buf := if Slides(resync, window) then window[1..] else []), Some(window));
      forall i | 0 <= i < FRAME_LEN {
        last[i] := window[i];
      }
      assert last[..] == window;
      var decoded := FromBytes(window);
      InvalidTypeIsUnknown(window);
      var slide := resync && decoded.Bad? && decoded.error.InvalidType?;
      if slide {
        buf[0] := window[1];
        buf[1] := window[2];
        buf[2] := window[3];
        filled := FRAME_LEN - 1;
        assert buf[..filled] == window[1..];
      } else {
        filled := 0;
      }
      result := Some(decoded);
    }

    /** The window most recently completed, which a slide leaves as it was. */
    function LastBytes(): Word
      requires Valid()
      reads this, Repr
    {
      last[..]
    }
  }

  lemma InvalidTypeIsUnknown(window: Word)
    ensures !KnownType(window[0]) <==> FromBytes(window).Bad? && FromBytes(window).error.InvalidType?
  {
    hide Crc.Crc8;
  }

  // ------------------------------------------------------------ streams of bytes

  /** Every window completed while `input` is fed in, and the state afterwards. */
  function FeedAll(a: Assembly, input: seq<u8>): (r: (Assembly, seq<Word>))
    requires a.Valid()
    ensures r.0.Valid() && r.0.resync == a.resync
    decreases |input|
  {
    if input == [] then (a, [])
    else
      var (next, window) := Push(a, input[0]);
      var (end, windows) := FeedAll(next, input[1..]);
      (end, if window.Some? then [window.value] + windows else windows)
  }

  lemma {:induction false} FeedAppend(a: Assembly, x: seq<u8>, y: seq<u8>)
    requires a.Valid()
    ensures FeedAll(a, x + y).0 == FeedAll(FeedAll(a, x).0, y).0
    ensures FeedAll(a, x + y).1 == FeedAll(a, x).1 + FeedAll(FeedAll(a, x).0, y).1
    decreases |x|
  {
    hide Push;
    if x == [] {
      assert x + y == y;
    } else {
      assert (x + y)[1..] == x[1..] + y;
      FeedAppend(Push(a, x[0]).0, x[1..], y);
    }
  }

  /** Bytes that do not complete a window only accumulate. */
  lemma {:induction false} FeedShort(a: Assembly, x: seq<u8>)
    requires a.Valid() && |a.buf| + |x| < FRAME_LEN
    ensures FeedAll(a, x) == (a.(buf := a.buf + x), [])
    decreases |x|
  {
    hide Slides;
    if x == [] {
      assert a.buf + x == a.buf;
    } else {
      FeedShort(Push(a, x[0]).0, x[1..]);
      assert a.buf + [x[0]] + x[1..] == a.buf + x;
    }
  }

  /** The bytes that complete a window yield it, and slide or clear the buffer. */
  lemma FeedWindow(a: Assembly, w: Word)
    requires a.Valid() && a.buf == []
    ensures FeedAll(a, w) == (a.(buf := if Slides(a.resync, w) then w[1..] else []), [w])
  {
    hide Slides;
    FeedShort(a, w[..3]);
    assert a.buf + w[..3] == w[..3];
    assert w == w[..3] + [w[3]];
    assert [w[3]][1..] == [];
    FeedAppend(a, w[..3], [w[3]]);
    var three := a.(buf := w[..3]);
    assert three.buf + [w[3]] == w;
    assert Push(three, w[3]) == (a.(buf := if Slides(a.resync, w) then w[1..] else []), Some(w));
    var end := Push(three, w[3]).0;
    assert FeedAll(end, []) == (end, []);
    assert FeedAll(a, w[..3]).0 == three;
    assert FeedAll(three, [w[3]]).0 == end;
    assert FeedAll(three, [w[3]]).1 == [w] + [];
    assert FeedAll(a, w).0 == end;
    assert FeedAll(a, w).1 == [w];
  }

  function Flatten(words: seq<Word>): seq<u8> {
    if words == [] then [] else words[0] + Flatten(words[1..])
  }

  /** Words the assembler never slides over: any four bytes, or a known TYPE when it resyncs. */
  ghost predicate Anchored(a: Assembly, words: seq<Word>) {
    a.resync ==> forall w :: w in words ==> KnownType(w[0])
  }

  /**
    Words with a known TYPE come out one per four bytes, whether or not their
    CRC and semantics hold: a bad word never shifts a later boundary.
   */
  lemma {:induction false} WordsKeepTheirBoundaries(a: Assembly, words: seq<Word>)
    requires a.Valid() && a.buf == [] && Anchored(a, words)
    ensures FeedAll(a, Flatten(words)) == (a, words)
    decreases |words|
  {
    if words != [] {
      assert words[0] in words;
      FeedWindow(a, words[0]);
      FeedAppend(a, words[0], Flatten(words[1..]));
      WordsKeepTheirBoundaries(a, words[1..]);
      assert words == [words[0]] + words[1..];
    }
  }

  /**
    In resync mode any run of bytes that are not frame types is reported byte
    by byte as an unknown type, and every word after it is recovered whole.
   */
  lemma {:induction false} ResyncSkipsJunk(a: Assembly, junk: seq<u8>, words: seq<Word>)
    requires a.Valid() && a.buf == [] && a.resync && Anchored(a, words) && words != []
    requires forall i :: 0 <= i < |junk| ==> !KnownType(junk[i])
    ensures
      var (end, windows) := FeedAll(a, junk + Flatten(words));
      && end == a
      && |windows| == |junk| + |words|
      && windows[|junk|..] == words
      && forall i :: 0 <= i < |junk| ==> FromBytes(windows[i]) == Bad(InvalidType(junk[i]))
    decreases |junk|
  {
    hide FeedAll, FromBytes;
    if junk == [] {
      assert junk + Flatten(words) == Flatten(words);
      WordsKeepTheirBoundaries(a, words);
    } else {
      ResyncSkipsJunk(a, junk[1..], words);
      var rest := junk[1..] + Flatten(words);
      assert words[0] in words;
      assert |Flatten(words)| >= FRAME_LEN;
      assert junk + Flatten(words) == [junk[0]] + rest;
      JunkByte(a, junk[0], rest);
      JunkWindow([junk[0]] + rest[..3]);
    }
  }

  /** An unknown first byte costs exactly one rejected window and no boundary. */
  lemma JunkByte(a: Assembly, byte: u8, rest: seq<u8>)
    requires a.Valid() && a.buf == [] && a.resync && !KnownType(byte) && |rest| >= 3
    ensures FeedAll(a, [byte] + rest).0 == FeedAll(a, rest).0
    ensures FeedAll(a, [byte] + rest).1 == [[byte] + rest[..3]] + FeedAll(a, rest).1
  {
    hide FeedAll, FromBytes, KnownType, Push;
    var head, tail := rest[..3], rest[3..];
    var window: Word := [byte] + head;
    var mid := a.(buf := head);
    assert FeedAll(a, window) == (mid, [window]) by {
      FeedWindow(a, window);
      assert window[1..] == head;
    }
    FeedAppend(a, window, tail);
    assert FeedAll(a, head) == (mid, []) by {
      FeedShort(a, head);
      assert a.buf + head == head;
    }
    FeedAppend(a, head, tail);
    assert [byte] + rest == window + tail;
    assert rest == head + tail;
    assert [] + FeedAll(mid, tail).1 == FeedAll(mid, tail).1;
  }

  lemma JunkWindow(window: Word)
    requires !KnownType(window[0])
    ensures FromBytes(window) == Bad(InvalidType(window[0]))
  {
  }

  function FrameWords(frames: seq<Frame>): (words: seq<Word>)
    ensures |words| == |frames|
    ensures forall i :: 0 <= i < |frames| ==> words[i] == ToBytes(frames[i])
  {
    seq(|frames|, i requires 0 <= i < |frames| => ToBytes(frames[i]))
  }

  lemma {:induction false} FlattenIsSerialize(frames: seq<Frame>)
    ensures Flatten(FrameWords(frames)) == Serialize(frames)
  {
    hide ToBytes;
    if frames != [] {
      FlattenIsSerialize(frames[1..]);
      assert FrameWords(frames)[1..] == FrameWords(frames[1..]);
    }
  }

  /** The assembler, in either mode, inverts the serialization of any list of frames. */
  lemma AssemblerInvertsSerialize(a: Assembly, frames: seq<Frame>)
    requires a.Valid() && a.buf == []
    requires forall f :: f in frames ==> SemanticsOk(f)
    ensures
      var (end, windows) := FeedAll(a, Serialize(frames));
      && end == a
      && |windows| == |frames|
      && forall i :: 0 <= i < |frames| ==> FromBytes(windows[i]) == Good(frames[i])
  {
    hide FromBytes, FeedAll, ToBytes, TypeOf, TypeByte;
    var words := FrameWords(frames);
    forall w | w in words
      ensures KnownType(w[0])
    {
      var i :| 0 <= i < |words| && words[i] == w;
      TypeByteRoundTrip(frames[i].kind);
    }
    FlattenIsSerialize(frames);
    WordsKeepTheirBoundaries(a, words);
    forall i | 0 <= i < |frames|
      ensures FromBytes(words[i]) == Good(frames[i])
    {
      DecodeEncode(frames[i]);
    }
  }

  // ------------------------------------------------------------ the output buffer

  /** An output buffer as a value: a frame's bytes and how many were written. */
  datatype Outgoing = Outgoing(bytes: Word, pos: nat) {
    predicate Valid() {
      pos <= FRAME_LEN
    }

    predicate Idle() {
      pos >= FRAME_LEN
    }

    /** The bytes that are still to be written. */
    function Unsent(): seq<u8>
      requires Valid()
    {
      bytes[pos..]
    }

    function Commit(): Outgoing {
      if pos < FRAME_LEN then Outgoing(bytes, pos + 1) else this
    }
  }

  const ZERO_BYTES: Word := [0, 0, 0, 0]
  const NOTHING_OUTGOING := Outgoing(ZERO_BYTES, FRAME_LEN)

  function Load(f: Frame): (o: Outgoing)
    ensures o.Valid() && !o.Idle() && o.Unsent() == ToBytes(f)
  {
    Outgoing(ToBytes(f), 0)
  }

  /** The class behind `Outgoing`: four bytes and a cursor, changed in place. */
  class OutBuf {
    const buf: array<u8>
    var pos: nat
    ghost const Repr: set<object>

    ghost predicate Valid()
      reads this, Repr
    {
      && Repr == {this, buf}
      && buf.Length == FRAME_LEN
      && pos <= FRAME_LEN
    }

    ghost function View(): (o: Outgoing)
      requires Valid()
      reads this, Repr
      ensures o.Valid()
    {
      Outgoing(buf[..], pos)
    }

    constructor ()
      ensures Valid() && fresh(Repr)
      ensures View() == NOTHING_OUTGOING
    {
      var b := new u8[FRAME_LEN](_ => 0);
      buf, pos := b, FRAME_LEN;
      Repr := {this, b};
      new;
      assert buf[..] == ZERO_BYTES;
    }

    /** `*self = OutBuf::empty()`. */
    method Clear()
      requires Valid()
      modifies Repr
      ensures Valid() && View() == NOTHING_OUTGOING
    {
      forall i | 0 <= i < FRAME_LEN {
        buf[i] := 0;
      }
      pos := FRAME_LEN;
      assert buf[..] == ZERO_BYTES;
    }

    predicate IsIdle()
      requires Valid()
      reads this, Repr
      ensures IsIdle() == View().Idle()
    {
      pos >= FRAME_LEN
    }

    method LoadFrame(f: Frame)
      requires Valid()
      modifies Repr
      ensures Valid() && View() == Load(f)
    {
      var bytes := ToBytes(f);
      forall i | 0 <= i < FRAME_LEN {
        buf[i] := bytes[i];
      }
      pos := 0;
      assert buf[..] == bytes;
    }

    /** The next byte to write. Reading it does not advance: a failed write loses nothing. */
    function Peek(): (byte: Option<u8>)
      requires Valid()
      reads this, Repr
      ensures byte == if View().Unsent() == [] then None else Some(View().Unsent()[0])
    {
      if pos >= FRAME_LEN then None else Some(buf[pos])
    }

    /** Called only after the peeked byte was written. */
    method Commit()
      requires Valid()
      modifies this
      ensures Valid() && View() == old(View()).Commit()
      ensures View().Unsent() == if old(View()).Unsent() == [] then [] else old(View()).Unsent()[1..]
    {
      if pos < FRAME_LEN {
        pos := pos + 1;
      }
    }
  }
}
