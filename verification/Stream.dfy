/**
  Logical streams above the link: the seven-byte fragment header, the fragmenter
  that cuts a message, and the defragmenter that rebuilds it byte by byte.
 */
module Stream {
  import opened Prelude


  const HEADER_LEN := 7
  const FLAG_LAST: u8 := 0x01
  const RESERVED_FLAGS: u8 := 0xFE

  /** `last` is bit 0 of the flags byte; `len` counts the body bytes that follow. */
  datatype Header = Header(stream: u8, message: u16, fragment: u16, last: bool, len: count8)

  type HeaderBytes = b: seq<u8> | |b| == HEADER_LEN witness [0, 0, 0, 0, 0, 0, 0]

  /** Big-endian halves of a `u16`. */
  function High(x: u16): u8 { ByteOf(x / 256) }
  function Low(x: u16): u8 { ByteOf(x % 256) }
  function Join(high: u8, low: u8): u16 { 256 * ValueOf(high) + ValueOf(low) }

  lemma Halves(a: count8, b: count8)
    ensures (256 * a + b) / 256 == a && (256 * a + b) % 256 == b
  {
  }

  lemma JoinRoundTrip(x: u16)
    ensures Join(High(x), Low(x)) == x
  {
    hide ByteOf, ValueOf;
    ValueOfByte(x / 256);
    ValueOfByte(x % 256);
  }

  lemma SplitRoundTrip(high: u8, low: u8)
    ensures High(Join(high, low)) == high && Low(Join(high, low)) == low
  {
    hide ByteOf, ValueOf;
    Halves(ValueOf(high), ValueOf(low));
    ByteOfValue(high);
    ByteOfValue(low);
  }

  function ToBytes(h: Header): HeaderBytes {
    [h.stream, High(h.message), Low(h.message), High(h.fragment), Low(h.fragment),
     if h.last then FLAG_LAST else 0, ByteOf(h.len)]
  }

  /** Parsing fails exactly when a reserved flag bit is set. */
  function FromBytes(b: HeaderBytes): Option<Header> {
    if b[5] & RESERVED_FLAGS != 0 then None
    else Some(Header(b[0], Join(b[1], b[2]), Join(b[3], b[4]), b[5] & FLAG_LAST != 0, ValueOf(b[6])))
  }

  lemma FlagBits(b: u8)
    ensures b & RESERVED_FLAGS == 0 ==> b == if b & FLAG_LAST != 0 then FLAG_LAST else 0
    ensures FLAG_LAST & RESERVED_FLAGS == 0 && FLAG_LAST & FLAG_LAST != 0
  {
  }

  /** Every header survives the wire, and every accepted seven bytes are the wire form of their header. */
  lemma HeaderRoundTrip(h: Header, b: HeaderBytes)
    ensures FromBytes(ToBytes(h)) == Some(h)
    ensures FromBytes(b).Some? ==> ToBytes(FromBytes(b).value) == b
    ensures FromBytes(b) == None <==> b[5] & RESERVED_FLAGS != 0
  {
    hide High, Low, Join, ByteOf, ValueOf;
    JoinRoundTrip(h.message);
    JoinRoundTrip(h.fragment);
    SplitRoundTrip(b[1], b[2]);
    SplitRoundTrip(b[3], b[4]);
    ValueOfByte(h.len);
    ByteOfValue(b[6]);
    FlagBits(b[5]);
  }

  // ------------------------------------------------------------ fragments

  datatype Fragment = Fragment(header: Header, body: seq<u8>)

  /** The bytes a list of fragments puts on the link. */
  function Encode(frs: seq<Fragment>): seq<u8> {
    if frs == [] then [] else ToBytes(frs[0].header) + frs[0].body + Encode(frs[1..])
  }

  function Bodies(frs: seq<Fragment>): seq<u8> {
    if frs == [] then [] else frs[0].body + Bodies(frs[1..])
  }

  lemma {:induction false} EncodeSnoc(frs: seq<Fragment>, f: Fragment)
    ensures Encode(frs + [f]) == Encode(frs) + (ToBytes(f.header) + f.body)
    ensures Bodies(frs + [f]) == Bodies(frs) + f.body
  {
    hide ToBytes;
    if frs == [] {
      assert [f][1..] == [];
      assert frs + [f] == [f];
      assert Encode([f]) == ToBytes(f.header) + f.body + Encode([f][1..]);
      assert ToBytes(f.header) + f.body + [] == [] + (ToBytes(f.header) + f.body);
      assert f.body + [] == [] + f.body;
    } else {
      EncodeSnoc(frs[1..], f);
      assert (frs + [f])[1..] == frs[1..] + [f];
      var head := ToBytes(frs[0].header) + frs[0].body;
      assert head + (Encode(frs[1..]) + (ToBytes(f.header) + f.body)) ==
        (head + Encode(frs[1..])) + (ToBytes(f.header) + f.body);
      assert frs[0].body + (Bodies(frs[1..]) + f.body) == (frs[0].body + Bodies(frs[1..])) + f.body;
    }
  }

  /** Numbered consecutively from `first` mod 65536, with one stream and message id, and `last` nowhere. */
  ghost predicate Unfinished(frs: seq<Fragment>, first: nat, stream: u8, message: u16) {
    forall i :: 0 <= i < |frs| ==>
      && frs[i].header == Header(stream, message, (first + i) % 65536, false, frs[i].header.len)
      && frs[i].header.len == |frs[i].body|
  }

  /** What is left of a message from its fragment number `first` on. */
  ghost predicate Tail(frs: seq<Fragment>, first: nat, stream: u8, message: u16) {
    && frs != []
    && var n := |frs| - 1;
    && Unfinished(frs[..n], first, stream, message)
    && frs[n].header == Header(stream, message, (first + n) % 65536, true, frs[n].header.len)
    && frs[n].header.len == |frs[n].body|
  }

  /** A whole message: consecutive fragments of which exactly the final one is marked `last`. */
  ghost predicate Message(frs: seq<Fragment>, stream: u8, message: u16) {
    Tail(frs, 0, stream, message)
  }

  // ------------------------------------------------------------ the fragmenter

  /** Every fragment still to come of `rest`, the next one numbered `index`. */
  function Cut(stream: u8, message: u16, rest: seq<u8>, index: u16, chunk: count8): (frs: seq<Fragment>)
    requires chunk >= 1
    decreases |rest|
  {
    var take := if |rest| < chunk then |rest| else chunk;
    var last := take == |rest|;
    var f := Fragment(Header(stream, message, index, last, take), rest[..take]);
    if last then [f] else [f] + Cut(stream, message, rest[take..], (index + 1) % 65536, chunk)
  }

  class Fragmenter {
    const stream: u8
    const message: u16
    var rest: seq<u8>
    var fragment: u16
    const chunk: count8
    var done: bool

    ghost predicate Valid()
      reads this
    {
      chunk >= 1 && (done ==> rest == [])
    }

    /** The fragments still to come. */
    ghost function Remaining(): seq<Fragment>
      requires Valid()
      reads this
    {
      if done then [] else Cut(stream, message, rest, fragment, chunk)
    }

    constructor (stream: u8, message: u16, payload: seq<u8>, maxFragment: count8)
      ensures Valid()
      ensures Remaining() == Cut(stream, message, payload, 0, if maxFragment == 0 then 1 else maxFragment)
    {
      this.stream, this.message, rest, fragment := stream, message, payload, 0;
      chunk := if maxFragment == 0 then 1 else maxFragment;
      done := false;
    }

    method NextFragment() returns (next: Option<Fragment>)
      requires Valid()
      modifies this
      ensures Valid()
      ensures next == None <==> old(Remaining()) == []
      ensures old(Remaining()) == (if next.Some? then [next.value] else []) + Remaining()
    {
      if done {
        return None;
      }
      var take := if |rest| < chunk then |rest| else chunk;
      var body := rest[..take];
      rest := rest[take..];
      var last := |rest| == 0;
      done := last;
      var header := Header(stream, message, fragment, last, take);
      fragment := (fragment + 1) % 65536;
      return Some(Fragment(header, body));
    }
  }

  lemma TailCons(f: Fragment, frs: seq<Fragment>, first: nat, stream: u8, message: u16)
    requires Tail(frs, first + 1, stream, message)
    requires f.header == Header(stream, message, first % 65536, false, f.header.len) && f.header.len == |f.body|
    ensures Tail([f] + frs, first, stream, message)
  {
    var all := [f] + frs;
    var n := |frs| - 1;
    assert all[n + 1] == frs[n];
    assert all[..n + 1] == [f] + frs[..n];
  }

  /** What the fragmenter makes of any payload is one whole message with that payload. */
  lemma {:induction false} CutIsMessage(stream: u8, message: u16, rest: seq<u8>, index: nat, chunk: count8)
    requires chunk >= 1
    ensures Tail(Cut(stream, message, rest, index % 65536, chunk), index, stream, message)
    ensures Bodies(Cut(stream, message, rest, index % 65536, chunk)) == rest
    decreases |rest|
  {
    hide Tail, Bodies;
    var take := if |rest| < chunk then |rest| else chunk;
    if take == |rest| {
      LastFragment(stream, message, rest, index);
    } else {
      var f := Fragment(Header(stream, message, index % 65536, false, take), rest[..take]);
      var tail := Cut(stream, message, rest[take..], (index + 1) % 65536, chunk);
      NextIndex(index);
      assert Cut(stream, message, rest, index % 65536, chunk) == [f] + tail;
      CutIsMessage(stream, message, rest[take..], index + 1, chunk);
      TailCons(f, tail, index, stream, message);
      BodiesCons(f, tail);
      assert rest[..take] + rest[take..] == rest;
    }
  }

  lemma NextIndex(index: nat)
    ensures (index % 65536 + 1) % 65536 == (index + 1) % 65536
  {
  }

  lemma BodiesCons(f: Fragment, frs: seq<Fragment>)
    ensures Bodies([f] + frs) == f.body + Bodies(frs)
  {
    assert ([f] + frs)[1..] == frs;
  }

  lemma LastFragment(stream: u8, message: u16, rest: seq<u8>, index: nat)
    requires |rest| < 256
    ensures
      var f := Fragment(Header(stream, message, index % 65536, true, |rest|), rest[..|rest|]);
      Tail([f], index, stream, message) && Bodies([f]) == rest
  {
    var f := Fragment(Header(stream, message, index % 65536, true, |rest|), rest[..|rest|]);
    assert [f][1..] == [] && [f][..0] == [];
    assert rest[..|rest|] + [] == rest;
  }

  // ------------------------------------------------------------ the defragmenter

  datatype DefragError = BadHeader | Overflow | OutOfOrder | Closed

  /** What one pushed byte is answered with: `Taken(true)` when the message is whole. */
  datatype Pushed = Taken(whole: bool) | Refused(error: DefragError)

  /** `filled` is the written part of the `capacity`-byte buffer; `hdr` the header bytes collected so far. */
  datatype Defrag = Defrag(
    filled: seq<u8>,
    capacity: nat,
    hdr: seq<u8>,
    current: Option<Header>,
    got: count8,
    due: u16,
    stream: Option<u8>,
    message: Option<u16>,
    complete: bool)
  {
    predicate Valid() {
      && |filled| <= capacity
      && |hdr| < HEADER_LEN
      && (current.Some? ==> hdr == [] && got < current.value.len && !complete)
    }
  }

  function NewDefrag(capacity: nat): Defrag {
    Defrag([], capacity, [], None, 0, 0, None, None, false)
  }

  function FinishChunk(d: Defrag, header: Header): (r: (Defrag, Pushed))
    requires |d.filled| <= d.capacity && d.hdr == []
    ensures r.0.Valid() && r.0.capacity == d.capacity
    ensures r.1 == Taken(header.last)
  {
    if header.last then (d.(current := None, complete := true), Taken(true))
    else (d.(current := None, due := (d.due + 1) % 65536), Taken(false))
  }

  /** The seventh header byte: check the header against the message so far, and take it. */
  function TakeHeader(d: Defrag, parsed: Option<Header>): (r: (Defrag, Pushed))
    requires d.Valid() && d.current == None && !d.complete
    ensures r.0.Valid() && r.0.capacity == d.capacity
  {
    var q := d.(hdr := []);
    match parsed
    case None => (q, Refused(BadHeader))
    case Some(h) =>
      if h.fragment != d.due then (q, Refused(OutOfOrder))
      else if d.stream.Some? && d.stream.value != h.stream then (q, Refused(OutOfOrder))
      else
        var r := q.(stream := Some(h.stream));
        if d.message.Some? && d.message.value != h.message then (r, Refused(OutOfOrder))
        else
          var t := r.(message := Some(h.message), got := 0);
          if h.len == 0 then FinishChunk(t, h) else (t.(current := Some(h)), Taken(false))
  }

  function Push(d: Defrag, byte: u8): (r: (Defrag, Pushed))
    requires d.Valid()
    ensures r.0.Valid() && r.0.capacity == d.capacity
  {
    if d.complete then (d, Refused(Closed))
    else
      match d.current
      case None =>
        var hdr := d.hdr + [byte];
        if |hdr| < HEADER_LEN then (d.(hdr := hdr), Taken(false)) else TakeHeader(d, FromBytes(hdr))
      case Some(h) =>
        if |d.filled| >= d.capacity then (d, Refused(Overflow))
        else
          var q := d.(filled := d.filled + [byte], got := d.got + 1);
          if q.got >= h.len then FinishChunk(q, h) else (q, Taken(false))
  }

  class Defragmenter {
    const buf: array<u8>
    var filled: nat
    const hdr: array<u8>
    var hdrAt: nat
    var current: Option<Header>
    var got: count8
    var due: u16
    var stream: Option<u8>
    var message: Option<u16>
    var complete: bool

    ghost predicate Valid()
      reads this
    {
      && hdr != buf
      && hdr.Length == HEADER_LEN
      && filled <= buf.Length
      && hdrAt < HEADER_LEN
      && (current.Some? ==> hdrAt == 0 && got < current.value.len && !complete)
    }

    ghost function View(): (d: Defrag)
      requires Valid()
      reads this, buf, hdr
      ensures d.Valid()
    {
      Defrag(buf[..filled], buf.Length, hdr[..hdrAt], current, got, due, stream, message, complete)
    }

    /** Collects into the caller's `buf`. */
    constructor (buf: array<u8>)
      ensures Valid() && this.buf == buf && fresh(hdr)
      ensures View() == NewDefrag(buf.Length)
    {
      this.buf := buf;
      hdr := new u8[HEADER_LEN](_ => 0);
      filled, hdrAt, current, got, due, stream, message, complete := 0, 0, None, 0, 0, None, None, false;
    }

    /** Ready for the next message, in the same buffer. */
    method Reset()
      requires Valid()
      modifies this
      ensures Valid() && View() == NewDefrag(buf.Length)
    {
      filled, hdrAt, current, got, due, stream, message, complete := 0, 0, None, 0, 0, None, None, false;
    }

    method PushByte(byte: u8) returns (result: Pushed)
      requires Valid()
      modifies this, buf, hdr
      ensures Valid() && (View(), result) == Push(old(View()), byte)
    {
      if complete {
        return Refused(Closed);
      }
      if current == None {
        result := PushHeader(byte);
        return;
      }
      if filled >= buf.Length {
        return Refused(Overflow);
      }
      ghost var before := View();
      buf[filled] := byte;
      filled := filled + 1;
      got := got + 1;
      assert buf[..filled] == before.filled + [byte];
      if got >= current.value.len {
        result := CloseChunk(current.value);
      } else {
        result := Taken(false);
      }
    }

    method PushHeader(byte: u8) returns (result: Pushed)
      requires Valid() && current == None && !complete
      modifies this, hdr
      ensures Valid() && (View(), result) == Push(old(View()), byte)
    {
      hide FromBytes, FinishChunk;
      ghost var before := View();
      hdr[hdrAt] := byte;
      assert hdr[..hdrAt + 1] == before.hdr + [byte];
      if hdrAt + 1 < HEADER_LEN {
        hdrAt := hdrAt + 1;
        return Taken(false);
      }
      hdrAt := 0;
      var bytes := hdr[..];
      assert bytes == before.hdr + [byte];
      var parsed := FromBytes(bytes);
      if parsed == None {
        return Refused(BadHeader);
      }
      result := AcceptHeader(parsed.value);
    }

    /** A parsed header: it must continue the message the first one began. */
    method AcceptHeader(header: Header) returns (result: Pushed)
      requires Valid() && current == None && !complete && hdrAt == 0
      modifies this
      ensures Valid() && (View(), result) == TakeHeader(old(View()), Some(header))
    {
      assert hdr[..hdrAt] == [];
      if header.fragment != due {
        return Refused(OutOfOrder);
      }
      if stream == None {
        stream := Some(header.stream);
      } else if stream.value != header.stream {
        return Refused(OutOfOrder);
      }
      if message == None {
        message := Some(header.message);
      } else if message.value != header.message {
        return Refused(OutOfOrder);
      }
      got := 0;
      if header.len == 0 {
        result := CloseChunk(header);
      } else {
        current := Some(header);
        result := Taken(false);
      }
    }

    method CloseChunk(header: Header) returns (result: Pushed)
      requires hdr != buf && hdr.Length == HEADER_LEN && filled <= buf.Length && hdrAt == 0 && !complete
      modifies this`current, this`complete, this`due
      ensures Valid()
      ensures complete == header.last && current == None
      ensures due == if header.last then old(due) else (old(due) + 1) % 65536
      ensures result == Taken(header.last)
    {
      current := None;
      if header.last {
        complete := true;
        return Taken(true);
      }
      due := (due + 1) % 65536;
      return Taken(false);
    }
  }

  // ------------------------------------------------------------ what a stream of bytes means

  /** Every byte of `bytes` pushed: the state reached, and whether every push was taken. */
  function Feed(d: Defrag, bytes: seq<u8>): (r: (Defrag, bool))
    requires d.Valid()
    ensures r.0.Valid() && r.0.capacity == d.capacity
    decreases |bytes|
  {
    if bytes == [] then (d, true)
    else
      var (n, answer) := Push(d, bytes[0]);
      if answer.Refused? then (n, false) else Feed(n, bytes[1..])
  }

  lemma {:induction false} FeedAppend(d: Defrag, a: seq<u8>, b: seq<u8>)
    requires d.Valid()
    ensures Feed(d, a + b) == if Feed(d, a).1 then Feed(Feed(d, a).0, b) else Feed(d, a)
    decreases |a|
  {
    hide Push;
    if a == [] {
      assert a + b == b;
    } else {
      assert (a + b)[1..] == a[1..] + b;
      if Push(d, a[0]).1.Taken? {
        FeedAppend(Push(d, a[0]).0, a[1..], b);
      }
    }
  }

  /** After the whole message, every further byte is refused. */
  lemma NothingAfterComplete(d: Defrag, bytes: seq<u8>)
    requires d.Valid() && d.complete && bytes != []
    ensures !Feed(d, bytes).1
  {
  }

  // ------------------------------------------------------------ soundness

  /** The message so far: whole fragments `frs`, and `partial` of the one being received. */
  ghost predicate Reads(d: Defrag, frs: seq<Fragment>, partial: seq<u8>) {
    && d.filled == Bodies(frs) + partial
    && (d.current == None ==> partial == [])
    && (d.current.Some? ==> |partial| == d.got)
    && (frs == [] && d.current == None ==> d.stream == None && d.message == None && !d.complete)
    && (frs != [] || d.current.Some? ==> d.stream.Some? && d.message.Some?)
    && (!d.complete ==> d.due == |frs| % 65536)
    && (!d.complete && d.stream.Some? && d.message.Some? ==> Unfinished(frs, 0, d.stream.value, d.message.value))
    && (d.current.Some? && d.stream.Some? && d.message.Some? ==>
          d.current.value == Header(d.stream.value, d.message.value, |frs| % 65536, d.current.value.last,
                                    d.current.value.len))
    && (d.complete ==>
          && d.stream.Some? && d.message.Some? && d.hdr == []
          && Message(frs, d.stream.value, d.message.value))
  }

  /** The bytes consumed to get there. */
  function Consumed(d: Defrag, frs: seq<Fragment>, partial: seq<u8>): seq<u8> {
    Encode(frs) + (if d.current.Some? then ToBytes(d.current.value) + partial else d.hdr)
  }

  lemma UnfinishedSnoc(frs: seq<Fragment>, f: Fragment, stream: u8, message: u16)
    requires Unfinished(frs, 0, stream, message)
    requires f.header == Header(stream, message, |frs| % 65536, f.header.last, f.header.len) && f.header.len == |f.body|
    ensures f.header.last ==> Message(frs + [f], stream, message)
    ensures !f.header.last ==> Unfinished(frs + [f], 0, stream, message)
  {
    var all := frs + [f];
    assert all[..|frs|] == frs;
    assert all[|frs|] == f;
  }

  /** A fragment whose body is whole joins the others. */
  lemma CloseReads(d: Defrag, frs: seq<Fragment>, h: Header, body: seq<u8>)
    requires d.Valid() && d.hdr == [] && !d.complete && d.due == |frs| % 65536
    requires d.stream.Some? && d.message.Some? && Unfinished(frs, 0, d.stream.value, d.message.value)
    requires h == Header(d.stream.value, d.message.value, |frs| % 65536, h.last, h.len) && h.len == |body|
    requires d.filled == Bodies(frs) + body
    ensures
      var n := FinishChunk(d, h).0;
      var all := frs + [Fragment(h, body)];
      Reads(n, all, []) && Consumed(n, all, []) == Encode(frs) + (ToBytes(h) + body)
  {
    hide ToBytes, Unfinished, Message, Reads, Bodies, Encode;
    var f := Fragment(h, body);
    EncodeSnoc(frs, f);
    UnfinishedSnoc(frs, f, d.stream.value, d.message.value);
    ClosedReads(d, frs, f);
    assert Encode(frs + [f]) + [] == Encode(frs + [f]);
  }

  lemma ClosedReads(d: Defrag, frs: seq<Fragment>, f: Fragment)
    requires d.Valid() && d.hdr == [] && !d.complete && d.due == |frs| % 65536
    requires d.stream.Some? && d.message.Some?
    requires f.header.last ==> Message(frs + [f], d.stream.value, d.message.value)
    requires !f.header.last ==> Unfinished(frs + [f], 0, d.stream.value, d.message.value)
    requires d.filled == Bodies(frs + [f])
    ensures Reads(FinishChunk(d, f.header).0, frs + [f], [])
  {
    hide Unfinished, Message, Bodies;
    NextIndex(|frs|);
    assert |frs + [f]| == |frs| + 1;
    assert Bodies(frs + [f]) + [] == Bodies(frs + [f]);
  }

  /** The header's seventh byte. */
  lemma HeaderReads(d: Defrag, frs: seq<Fragment>, byte: u8) returns (frs': seq<Fragment>)
    requires d.Valid() && Reads(d, frs, []) && d.current == None && |d.hdr| == 6 && Push(d, byte).1.Taken?
    ensures
      var n := Push(d, byte).0;
      Reads(n, frs', []) && Consumed(n, frs', []) == Consumed(d, frs, []) + [byte]
  {
    hide FromBytes, ToBytes;
    var bytes: HeaderBytes := d.hdr + [byte];
    var h := FromBytes(bytes).value;
    HeaderRoundTrip(h, bytes);
    assert (Encode(frs) + d.hdr) + [byte] == Encode(frs) + bytes;
    if h.len == 0 {
      var t := d.(hdr := [], stream := Some(h.stream), message := Some(h.message), got := 0);
      CloseReads(t, frs, h, []);
      frs' := frs + [Fragment(h, [])];
      assert ToBytes(h) + [] == bytes;
    } else {
      frs' := frs;
      assert ToBytes(h) + [] == bytes;
    }
  }

  lemma PushReads(d: Defrag, frs: seq<Fragment>, partial: seq<u8>, byte: u8)
    returns (frs': seq<Fragment>, partial': seq<u8>)
    requires d.Valid() && Reads(d, frs, partial) && Push(d, byte).1.Taken?
    ensures
      var n := Push(d, byte).0;
      Reads(n, frs', partial') && Consumed(n, frs', partial') == Consumed(d, frs, partial) + [byte]
  {
    hide FromBytes, ToBytes;
    frs', partial' := frs, partial;
    if d.current == None {
      if |d.hdr| == 6 {
        frs' := HeaderReads(d, frs, byte);
      } else {
        assert (Encode(frs) + d.hdr) + [byte] == Encode(frs) + (d.hdr + [byte]);
      }
    } else {
      var h := d.current.value;
      assert (Bodies(frs) + partial) + [byte] == Bodies(frs) + (partial + [byte]);
      assert (Encode(frs) + (ToBytes(h) + partial)) + [byte] == Encode(frs) + (ToBytes(h) + (partial + [byte]));
      if d.got + 1 >= h.len {
        CloseReads(d.(filled := d.filled + [byte], got := d.got + 1, current := None), frs, h, partial + [byte]);
        frs', partial' := frs + [Fragment(h, partial + [byte])], [];
      } else {
        partial' := partial + [byte];
      }
    }
  }

  lemma {:induction false} FeedReads(d: Defrag, frs: seq<Fragment>, partial: seq<u8>, bytes: seq<u8>)
    returns (frs': seq<Fragment>, partial': seq<u8>)
    requires d.Valid() && Reads(d, frs, partial) && Feed(d, bytes).1
    ensures
      var n := Feed(d, bytes).0;
      Reads(n, frs', partial') && Consumed(n, frs', partial') == Consumed(d, frs, partial) + bytes
    decreases |bytes|
  {
    hide Push, Reads, Consumed;
    frs', partial' := frs, partial;
    if bytes == [] {
      assert Consumed(d, frs, partial) + [] == Consumed(d, frs, partial);
    } else {
      frs', partial' := PushReads(d, frs, partial, bytes[0]);
      var n := Push(d, bytes[0]).0;
      frs', partial' := FeedReads(n, frs', partial', bytes[1..]);
      assert (Consumed(d, frs, partial) + [bytes[0]]) + bytes[1..] == Consumed(d, frs, partial) + bytes;
    }
  }

  /** `bytes` is the wire form of the whole message `frs`, and its payload fits. */
  ghost predicate Parses(bytes: seq<u8>, frs: seq<Fragment>, stream: u8, message: u16, capacity: nat) {
    Message(frs, stream, message) && bytes == Encode(frs) && |Bodies(frs)| <= capacity
  }

  /**
    Soundness: if every byte was taken and the message completed, the bytes are
    fragments numbered consecutively mod 65536, of one stream and message, the
    final one alone marked last, and the slice is their bodies in order.
   */
  lemma CompletedIsMessage(bytes: seq<u8>, capacity: nat) returns (frs: seq<Fragment>)
    requires Feed(NewDefrag(capacity), bytes).1 && Feed(NewDefrag(capacity), bytes).0.complete
    ensures
      var d := Feed(NewDefrag(capacity), bytes).0;
      && d.stream.Some? && d.message.Some?
      && Parses(bytes, frs, d.stream.value, d.message.value, capacity)
      && d.filled == Bodies(frs)
  {
    hide Push, FromBytes, ToBytes;
    var start := NewDefrag(capacity);
    assert Reads(start, [], []) && Consumed(start, [], []) == [];
    var partial;
    frs, partial := FeedReads(start, [], [], bytes);
    var d := Feed(start, bytes).0;
    assert [] + bytes == bytes;
    assert Encode(frs) + [] == Encode(frs) && Bodies(frs) + [] == Bodies(frs);
  }

  // ------------------------------------------------------------ completeness

  /** Ready for the first byte of fragment number `first` of this stream and message. */
  predicate Awaits(d: Defrag, first: nat, stream: u8, message: u16) {
    && d.Valid() && d.current == None && d.hdr == [] && !d.complete
    && d.due == first % 65536
    && (d.stream == None || d.stream == Some(stream))
    && (d.message == None || d.message == Some(message))
  }

  lemma {:induction false} FeedPartHeader(d: Defrag, x: seq<u8>)
    requires d.Valid() && d.current == None && !d.complete && |d.hdr| + |x| < HEADER_LEN
    ensures Feed(d, x) == (d.(hdr := d.hdr + x), true)
    decreases |x|
  {
    hide FromBytes;
    if x == [] {
      assert d.hdr + x == d.hdr;
    } else {
      FeedPartHeader(d.(hdr := d.hdr + [x[0]]), x[1..]);
      assert d.hdr + [x[0]] + x[1..] == d.hdr + x;
    }
  }

  lemma FeedOne(d: Defrag, byte: u8)
    requires d.Valid() && Push(d, byte).1.Taken?
    ensures Feed(d, [byte]) == (Push(d, byte).0, true)
  {
    hide Push;
    assert [byte][1..] == [];
  }

  lemma FeedHeader(d: Defrag, h: Header, first: nat)
    requires Awaits(d, first, h.stream, h.message) && h.fragment == first % 65536
    ensures
      var t := d.(stream := Some(h.stream), message := Some(h.message), got := 0);
      Feed(d, ToBytes(h)) == (if h.len == 0 then FinishChunk(t, h).0 else t.(current := Some(h)), true)
  {
    hide FromBytes, ToBytes, FinishChunk;
    var bytes := ToBytes(h);
    HeaderRoundTrip(h, bytes);
    FeedPartHeader(d, bytes[..6]);
    var six := d.(hdr := bytes[..6]);
    assert d.hdr + bytes[..6] == bytes[..6];
    assert bytes == bytes[..6] + [bytes[6]];
    assert Push(six, bytes[6]) == TakeHeader(six, Some(h));
    FeedOne(six, bytes[6]);
    FeedAppend(d, bytes[..6], [bytes[6]]);
  }

  lemma {:induction false} FeedPartBody(d: Defrag, x: seq<u8>)
    requires d.Valid() && d.current.Some? && d.got + |x| < d.current.value.len && |d.filled| + |x| <= d.capacity
    ensures Feed(d, x) == (d.(filled := d.filled + x, got := d.got + |x|), true)
    decreases |x|
  {
    if x == [] {
      assert d.filled + x == d.filled;
    } else {
      FeedPartBody(d.(filled := d.filled + [x[0]], got := d.got + 1), x[1..]);
      assert d.filled + [x[0]] + x[1..] == d.filled + x;
    }
  }

  lemma FeedBody(d: Defrag, h: Header, body: seq<u8>)
    requires d.Valid() && d.current == Some(h) && d.got == 0 && |body| == h.len && |d.filled| + |body| <= d.capacity
    ensures
      var q := d.(filled := d.filled + body, got := h.len, current := None);
      Feed(d, body) == (FinishChunk(q, h).0, true)
  {
    var n := |body| - 1;
    FeedPartBody(d, body[..n]);
    var most := d.(filled := d.filled + body[..n], got := n);
    FeedOne(most, body[n]);
    FeedAppend(d, body[..n], [body[n]]);
    assert body == body[..n] + [body[n]];
    assert (d.filled + body[..n]) + [body[n]] == d.filled + body;
  }

  /** A fragment in its place is taken whole. */
  lemma FeedFragment(d: Defrag, f: Fragment, first: nat)
    requires Awaits(d, first, f.header.stream, f.header.message) && f.header.fragment == first % 65536
    requires f.header.len == |f.body| && |d.filled| + |f.body| <= d.capacity
    ensures
      var (n, ok) := Feed(d, ToBytes(f.header) + f.body);
      && ok && n.filled == d.filled + f.body && n.complete == f.header.last
      && n.stream == Some(f.header.stream) && n.message == Some(f.header.message)
      && (!f.header.last ==> Awaits(n, first + 1, f.header.stream, f.header.message))
  {
    hide ToBytes, Push;
    var h := f.header;
    var t := d.(stream := Some(h.stream), message := Some(h.message), got := 0);
    FeedHeader(d, h, first);
    NextIndex(first);
    FeedAppend(d, ToBytes(h), f.body);
    if h.len == 0 {
      assert f.body == [] && d.filled + f.body == d.filled;
    } else {
      FeedBody(t.(current := Some(h)), h, f.body);
    }
  }

  /** Every whole message that fits is taken to the last byte. */
  lemma {:induction false} FeedMessage(d: Defrag, frs: seq<Fragment>, first: nat, stream: u8, message: u16)
    requires Awaits(d, first, stream, message) && Tail(frs, first, stream, message)
    requires |d.filled| + |Bodies(frs)| <= d.capacity
    ensures
      var (n, ok) := Feed(d, Encode(frs));
      && ok && n.complete && n.filled == d.filled + Bodies(frs)
      && n.stream == Some(stream) && n.message == Some(message)
    decreases |frs|
  {
    hide ToBytes, Feed;
    var f := frs[0];
    var rest := frs[1..];
    TailHead(frs, first, stream, message);
    assert Awaits(d, first, f.header.stream, f.header.message);
    var n := Feed(d, ToBytes(f.header) + f.body).0;
    FeedFragment(d, f, first);
    FeedAppend(d, ToBytes(f.header) + f.body, Encode(rest));
    assert (d.filled + f.body) + Bodies(rest) == d.filled + Bodies(frs);
    if rest == [] {
      FeedNothing(n);
      assert d.filled + f.body == d.filled + Bodies(frs) by { assert f.body + [] == f.body; }
    } else {
      FeedMessage(n, rest, first + 1, stream, message);
    }
  }

  lemma FeedNothing(d: Defrag)
    requires d.Valid()
    ensures Feed(d, []) == (d, true)
  {
  }

  lemma TailHead(frs: seq<Fragment>, first: nat, stream: u8, message: u16)
    requires Tail(frs, first, stream, message)
    ensures
      var h := frs[0].header;
      && h == Header(stream, message, first % 65536, |frs| == 1, |frs[0].body|)
      && (|frs| > 1 ==> Tail(frs[1..], first + 1, stream, message))
  {
    var n := |frs| - 1;
    if n > 0 {
      assert frs[..n][0] == frs[0];
      var rest := frs[1..];
      assert rest[n - 1] == frs[n];
      assert rest[..n - 1] == frs[..n][1..];
    }
  }

  /**
    Exactly the wire forms of whole messages that fit are taken to completion:
    nothing else is, and none of them is refused.
   */
  lemma CompletesExactlyMessages(bytes: seq<u8>, capacity: nat)
    ensures
      var (d, ok) := Feed(NewDefrag(capacity), bytes);
      ok && d.complete <==> exists frs, stream, message :: Parses(bytes, frs, stream, message, capacity)
  {
    hide Feed, Parses;
    var (d, ok) := Feed(NewDefrag(capacity), bytes);
    if ok && d.complete {
      var frs := CompletedIsMessage(bytes, capacity);
      assert Parses(bytes, frs, d.stream.value, d.message.value, capacity);
    }
    forall frs, stream, message | Parses(bytes, frs, stream, message, capacity)
      ensures ok && d.complete
    {
      MessageCompletes(bytes, frs, stream, message, capacity);
    }
  }

  lemma MessageCompletes(bytes: seq<u8>, frs: seq<Fragment>, stream: u8, message: u16, capacity: nat)
    requires Parses(bytes, frs, stream, message, capacity)
    ensures
      var (d, ok) := Feed(NewDefrag(capacity), bytes);
      ok && d.complete && d.filled == Bodies(frs) && d.stream == Some(stream) && d.message == Some(message)
  {
    hide Feed, Tail;
    FeedMessage(NewDefrag(capacity), frs, 0, stream, message);
    assert [] + Bodies(frs) == Bodies(frs);
  }

  /**
    Round trip: for every payload, every fragment size including 0, any number
    of fragments and any buffer the payload fits in, feeding what the fragmenter
    cut rebuilds the payload, and the message is reported whole on exactly the
    last byte.
   */
  lemma RoundTrip(stream: u8, message: u16, payload: seq<u8>, maxFragment: count8, capacity: nat)
    requires |payload| <= capacity
    ensures
      var bytes := Encode(Cut(stream, message, payload, 0, if maxFragment == 0 then 1 else maxFragment));
      var (d, ok) := Feed(NewDefrag(capacity), bytes);
      && ok && d.complete && d.filled == payload && d.stream == Some(stream) && d.message == Some(message)
      && forall k :: 0 <= k < |bytes| ==>
           Feed(NewDefrag(capacity), bytes[..k]).1 && !Feed(NewDefrag(capacity), bytes[..k]).0.complete
  {
    hide Feed, Tail, Cut;
    var chunk: count8 := if maxFragment == 0 then 1 else maxFragment;
    var frs := Cut(stream, message, payload, 0, chunk);
    CutIsMessage(stream, message, payload, 0, chunk);
    var bytes := Encode(frs);
    MessageCompletes(bytes, frs, stream, message, capacity);
    forall k | 0 <= k < |bytes|
      ensures Feed(NewDefrag(capacity), bytes[..k]).1 && !Feed(NewDefrag(capacity), bytes[..k]).0.complete
    {
      var (d, ok) := Feed(NewDefrag(capacity), bytes[..k]);
      assert bytes == bytes[..k] + bytes[k..];
      FeedAppend(NewDefrag(capacity), bytes[..k], bytes[k..]);
      if d.complete {
        NothingAfterComplete(d, bytes[k..]);
      }
    }
  }
}
