/**
  The demultiplexer of one incoming byte stream: complete four-byte windows go
  to a control ring (ACK and NACK, for the sender) or a payload ring (everything
  else, for the receiver); one window that finds its ring full is held back.
 */
module Demux {
  import opened Prelude
  import opened Wire
  import opened Framing

  const RING := 64

  /** A window the rings could not take yet. */
  datatype Held = Held(bytes: Word, control: bool)

  /** `wire` is what has arrived and was not looked at yet. */
  datatype Model = Model(wire: seq<u8>, asm: Assembly, control: seq<u8>, payload: seq<u8>, pending: Option<Held>)
  {
    predicate Valid() {
      asm.Valid() && |control| <= RING && |payload| <= RING
    }

    function Ring(forTx: bool): seq<u8> {
      if forTx then control else payload
    }
  }

  const EMPTY := Model([], FRESH_RESYNC, [], [], None)

  /** ACK and NACK frames are for the sender; everything else, rejects included, for the receiver. */
  predicate IsControl(window: Word) {
    FromBytes(window).Good? && (FromBytes(window).frame.kind == Ack || FromBytes(window).frame.kind == Nack)
  }

  predicate Fits(m: Model, held: Held) {
    |m.Ring(held.control)| <= RING - FRAME_LEN
  }

  function Store(m: Model, held: Held): (n: Model)
    requires m.Valid() && Fits(m, held)
    ensures n.Valid() && n.wire == m.wire && n.asm == m.asm && n.pending == m.pending
  {
    if held.control then m.(control := m.control + held.bytes) else m.(payload := m.payload + held.bytes)
  }

  /** Look at arrived bytes until there are none, or a window is held back. */
  function DrainWire(m: Model): (n: Model)
    requires m.Valid() && m.pending == None
    ensures n.Valid()
    decreases |m.wire|
  {
    if m.wire == [] then m
    else
      var (asm, window) := Push(m.asm, m.wire[0]);
      var n := m.(wire := m.wire[1..], asm := asm);
      match window
      case None => DrainWire(n)
      case Some(w) =>
        var held := Held(w, IsControl(w));
        if Fits(n, held) then DrainWire(Store(n, held)) else n.(pending := Some(held))
  }

  /** One byte looked at: the windows it completes are stored or held back. */
  function Look(m: Model, byte: u8): (n: Model)
    requires m.Valid() && m.pending == None
    ensures n.Valid() && n.wire == m.wire
  {
    var (asm, window) := Push(m.asm, byte);
    var n := m.(asm := asm);
    match window
    case None => n
    case Some(w) =>
      var held := Held(w, IsControl(w));
      if Fits(n, held) then Store(n, held) else n.(pending := Some(held))
  }

  lemma DrainLooks(m: Model, byte: u8, rest: seq<u8>)
    requires m.Valid() && m.pending == None && m.wire == [byte] + rest
    ensures
      var n := Look(m.(wire := rest), byte);
      DrainWire(m) == if n.pending == None then DrainWire(n) else n
  {
    hide IsControl, Push;
    assert m.wire[1..] == rest;
  }

  /** Try again to store the window held back; nothing more is looked at until it fits. */
  function Release(m: Model): (r: (Model, bool))
    requires m.Valid()
    ensures r.0.Valid() && r.0.wire == m.wire && (r.1 <==> r.0.pending == None)
  {
    match m.pending
    case None => (m, true)
    case Some(held) => if Fits(m, held) then (Store(m.(pending := None), held), true) else (m, false)
  }

  function Ingest(m: Model): (n: Model)
    requires m.Valid()
    ensures n.Valid()
  {
    var (n, ok) := Release(m);
    if ok then DrainWire(n) else n
  }

  function Pop(m: Model, forTx: bool): (r: (Model, Option<u8>))
    requires m.Valid()
    ensures r.0.Valid()
  {
    var ring := m.Ring(forTx);
    if ring == [] then (m, None)
    else (if forTx then m.(control := ring[1..]) else m.(payload := ring[1..]), Some(ring[0]))
  }

  /** A port's `read_byte`: look at what arrived, then take one byte of one's own. */
  function Read(m: Model, forTx: bool): (r: (Model, Option<u8>))
    requires m.Valid()
    ensures r.0.Valid()
  {
    Pop(Ingest(m), forTx)
  }

  // ------------------------------------------------------------ conservation

  /** The windows of one end, in order. */
  function Select(windows: seq<Word>, control: bool): seq<Word> {
    if windows == [] then []
    else if IsControl(windows[0]) == control then [windows[0]] + Select(windows[1..], control)
    else Select(windows[1..], control)
  }

  lemma {:induction false} SelectAppend(a: seq<Word>, b: seq<Word>, control: bool)
    ensures Select(a + b, control) == Select(a, control) + Select(b, control)
  {
    hide IsControl;
    if a == [] {
      assert a + b == b;
    } else {
      assert (a + b)[1..] == a[1..] + b;
      SelectAppend(a[1..], b, control);
    }
  }

  lemma {:induction false} FlattenAppend(a: seq<Word>, b: seq<Word>)
    ensures Flatten(a + b) == Flatten(a) + Flatten(b)
  {
    if a == [] {
      assert a + b == b;
    } else {
      assert (a + b)[1..] == a[1..] + b;
      FlattenAppend(a[1..], b);
    }
  }

  /** The bytes one end is owed by a list of windows. */
  function Share(windows: seq<Word>, control: bool): seq<u8> {
    Flatten(Select(windows, control))
  }

  lemma ShareAppend(a: seq<Word>, b: seq<Word>, control: bool)
    ensures Share(a + b, control) == Share(a, control) + Share(b, control)
  {
    SelectAppend(a, b, control);
    FlattenAppend(Select(a, control), Select(b, control));
  }

  lemma ShareOfOne(w: Word, rest: seq<Word>, control: bool)
    ensures Share([w] + rest, control) == (if IsControl(w) == control then w else []) + Share(rest, control)
  {
    hide IsControl;
    assert ([w] + rest)[1..] == rest;
  }

  function HeldFor(pending: Option<Held>, control: bool): seq<u8> {
    if pending.Some? && pending.value.control == control then pending.value.bytes else []
  }

  /** What is queued for one end: its ring, then the window held back for it. */
  function Queued(m: Model, control: bool): seq<u8> {
    m.Ring(control) + HeldFor(m.pending, control)
  }

  /** Everything one end will be given of what has arrived so far. */
  function Owed(m: Model, control: bool): seq<u8>
    requires m.Valid()
  {
    Queued(m, control) + Share(FeedAll(m.asm, m.wire).1, control)
  }

  lemma StoreQueues(m: Model, held: Held, control: bool)
    requires m.Valid() && m.pending == None && Fits(m, held)
    ensures Queued(Store(m, held), control) == Queued(m, control) + (if held.control == control then held.bytes else [])
  {
  }

  /** Looking at the wire neither tears, drops nor reorders a window of either end. */
  lemma {:induction false} DrainConserves(m: Model, control: bool)
    requires m.Valid() && m.pending == None
    ensures Owed(DrainWire(m), control) == Owed(m, control)
    ensures FeedAll(DrainWire(m).asm, DrainWire(m).wire).0 == FeedAll(m.asm, m.wire).0
    decreases |m.wire|
  {
    hide IsControl, Push, Queued, Share, Store, Fits;
    if m.wire != [] {
      var (asm, window) := Push(m.asm, m.wire[0]);
      var n := m.(wire := m.wire[1..], asm := asm);
      var rest := FeedAll(n.asm, n.wire).1;
      assert Queued(n, control) == Queued(m, control) by { QueuedIgnoresWire(m, n, control); }
      match window {
        case None =>
          DrainConserves(n, control);
        case Some(w) =>
          var held := Held(w, IsControl(w));
          var mine := if IsControl(w) == control then w else [];
          ShareOfOne(w, rest, control);
          assert Owed(m, control) == Queued(m, control) + (mine + Share(rest, control));
          assert Queued(m, control) + (mine + Share(rest, control)) ==
            (Queued(m, control) + mine) + Share(rest, control);
          if Fits(n, held) {
            StoreQueues(n, held, control);
            DrainConserves(Store(n, held), control);
          } else {
            HoldQueues(n, held, control);
          }
      }
    }
  }

  lemma QueuedIgnoresWire(m: Model, n: Model, control: bool)
    requires n == m.(wire := n.wire, asm := n.asm)
    ensures Queued(n, control) == Queued(m, control)
  {
  }

  lemma HoldQueues(m: Model, held: Held, control: bool)
    requires m.pending == None
    ensures Queued(m.(pending := Some(held)), control) ==
      Queued(m, control) + (if held.control == control then held.bytes else [])
  {
  }

  lemma IngestConserves(m: Model, control: bool)
    requires m.Valid()
    ensures Owed(Ingest(m), control) == Owed(m, control)
    ensures FeedAll(Ingest(m).asm, Ingest(m).wire).0 == FeedAll(m.asm, m.wire).0
  {
    hide IsControl, DrainWire, Share;
    if m.pending == None {
      DrainConserves(m, control);
    } else if Fits(m, m.pending.value) {
      var n := Store(m.(pending := None), m.pending.value);
      assert Queued(n, control) == Queued(m, control);
      DrainConserves(n, control);
    }
  }

  /** Taking a byte off one's own ring touches nothing else. */
  lemma PopQueued(m: Model, forTx: bool)
    requires m.Valid()
    ensures
      var (n, byte) := Pop(m, forTx);
      && Queued(m, forTx) == (if byte.Some? then [byte.value] else []) + Queued(n, forTx)
      && Queued(n, !forTx) == Queued(m, !forTx)
      && n.asm == m.asm && n.wire == m.wire
  {
    var ring, held := m.Ring(forTx), HeldFor(m.pending, forTx);
    if ring != [] {
      assert ring == [ring[0]] + ring[1..];
      assert ([ring[0]] + ring[1..]) + held == [ring[0]] + (ring[1..] + held);
    } else {
      assert [] + Queued(m, forTx) == Queued(m, forTx);
    }
  }

  /** A read hands out exactly the next byte owed, and takes nothing from the other end. */
  lemma ReadConserves(m: Model, forTx: bool)
    requires m.Valid()
    ensures
      var (n, byte) := Read(m, forTx);
      && Owed(m, forTx) == (if byte.Some? then [byte.value] else []) + Owed(n, forTx)
      && Owed(n, !forTx) == Owed(m, !forTx)
      && FeedAll(n.asm, n.wire).0 == FeedAll(m.asm, m.wire).0
  {
    hide Ingest, Share, Queued, Pop, FeedAll;
    IngestConserves(m, forTx);
    IngestConserves(m, !forTx);
    var i := Ingest(m);
    PopQueued(i, forTx);
    var (n, byte) := Pop(i, forTx);
    var got := if byte.Some? then [byte.value] else [];
    var rest := Share(FeedAll(i.asm, i.wire).1, forTx);
    assert (got + Queued(n, forTx)) + rest == got + (Queued(n, forTx) + rest);
  }

  /** The bytes an ingest takes off the wire are a prefix of it, and went through the assembler. */
  lemma {:induction false} DrainTakesPrefix(m: Model) returns (taken: seq<u8>)
    requires m.Valid() && m.pending == None
    ensures m.wire == taken + DrainWire(m).wire
    ensures DrainWire(m).asm == FeedAll(m.asm, taken).0
    decreases |m.wire|
  {
    hide IsControl, Push, Fits;
    if m.wire == [] {
      taken := [];
    } else {
      var (asm, window) := Push(m.asm, m.wire[0]);
      var n := m.(wire := m.wire[1..], asm := asm);
      var more: seq<u8>;
      match window {
        case None =>
          more := DrainTakesPrefix(n);
        case Some(w) =>
          var held := Held(w, IsControl(w));
          if Fits(n, held) {
            more := DrainTakesPrefix(Store(n, held));
          } else {
            more := [];
          }
      }
      taken := [m.wire[0]] + more;
      assert taken[1..] == more;
      assert m.wire == [m.wire[0]] + m.wire[1..];
      assert m.wire == taken + DrainWire(m).wire;
    }
  }

  lemma IngestTakesPrefix(m: Model) returns (taken: seq<u8>)
    requires m.Valid()
    ensures m.wire == taken + Ingest(m).wire
    ensures Ingest(m).asm == FeedAll(m.asm, taken).0
  {
    hide DrainWire, Fits, FeedAll;
    if m.pending == None {
      taken := DrainTakesPrefix(m);
    } else if Fits(m, m.pending.value) {
      FitsRoom(m, m.pending.value);
      taken := DrainTakesPrefix(Store(m.(pending := None), m.pending.value));
    } else {
      taken := [];
      FeedShort(m.asm, []);
      assert m.asm.buf + [] == m.asm.buf;
    }
  }

  lemma StoreIsWhole(m: Model, held: Held, forTx: bool)
    requires m.Valid() && Fits(m, held)
    ensures |Store(m, held).Ring(forTx)| % FRAME_LEN == |m.Ring(forTx)| % FRAME_LEN
  {
    assert (|m.Ring(forTx)| + FRAME_LEN) % FRAME_LEN == |m.Ring(forTx)| % FRAME_LEN;
  }

  /** Rings grow by whole windows. */
  lemma {:induction false} DrainIsWhole(m: Model, forTx: bool)
    requires m.Valid() && m.pending == None
    ensures |DrainWire(m).Ring(forTx)| % FRAME_LEN == |m.Ring(forTx)| % FRAME_LEN
    decreases |m.wire|
  {
    hide IsControl, Push, Fits, Store;
    if m.wire != [] {
      var (asm, window) := Push(m.asm, m.wire[0]);
      var n := m.(wire := m.wire[1..], asm := asm);
      assert n.Ring(forTx) == m.Ring(forTx);
      if window == None {
        DrainIsWhole(n, forTx);
      } else {
        var held := Held(window.value, IsControl(window.value));
        if Fits(n, held) {
          StoreIsWhole(n, held, forTx);
          DrainIsWhole(Store(n, held), forTx);
        }
      }
    }
  }

  lemma IngestIsWhole(m: Model, forTx: bool)
    requires m.Valid()
    ensures |Ingest(m).Ring(forTx)| % FRAME_LEN == |m.Ring(forTx)| % FRAME_LEN
  {
    hide DrainWire, Fits, Store;
    if m.pending == None {
      DrainIsWhole(m, forTx);
    } else if Fits(m, m.pending.value) {
      FitsRoom(m, m.pending.value);
      StoreIsWhole(m.(pending := None), m.pending.value, forTx);
      DrainIsWhole(Store(m.(pending := None), m.pending.value), forTx);
    }
  }

  lemma FitsRoom(m: Model, held: Held)
    requires m.Valid() && Fits(m, held)
    ensures Fits(m.(pending := None), held)
  {
  }

  /** Bytes that arrive add their windows to what each end is owed. */
  lemma ArriveOwes(m: Model, bytes: seq<u8>, control: bool)
    requires m.Valid()
    ensures
      var n := m.(wire := m.wire + bytes);
      && Owed(n, control) == Owed(m, control) + Share(FeedAll(FeedAll(m.asm, m.wire).0, bytes).1, control)
      && FeedAll(n.asm, n.wire).0 == FeedAll(FeedAll(m.asm, m.wire).0, bytes).0
  {
    hide Share;
    FeedAppend(m.asm, m.wire, bytes);
    ShareAppend(FeedAll(m.asm, m.wire).1, FeedAll(FeedAll(m.asm, m.wire).0, bytes).1, control);
    QueuedIgnoresWire(m, m.(wire := m.wire + bytes), control);
  }

  // ------------------------------------------------------------ every run

  /**
    A `read_byte` of which the port fails once `at` bytes were taken from it.
    What was looked at until then has been stored; the rest is still to come.
    A window held back ends the looking before the fault is met.
   */
  function Interrupted(m: Model, at: nat): (n: Model)
    requires m.Valid() && at <= |m.wire|
    ensures n.Valid()
  {
    var i := Ingest(m.(wire := m.wire[..at]));
    i.(wire := i.wire + m.wire[at..])
  }

  function FaultyRead(m: Model, forTx: bool, at: nat): (r: (Model, Result<Option<u8>>))
    requires m.Valid() && at <= |m.wire|
    ensures r.0.Valid()
  {
    var n := Interrupted(m, at);
    if n.pending == None then (n, Err(TransportFault))
    else
      var (left, byte) := Pop(n, forTx);
      (left, Ok(byte))
  }

  /** However far it got, an interrupted look at the wire costs neither end anything. */
  lemma InterruptedConserves(m: Model, at: nat, control: bool)
    requires m.Valid() && at <= |m.wire|
    ensures Owed(Interrupted(m, at), control) == Owed(m, control)
    ensures FeedAll(Interrupted(m, at).asm, Interrupted(m, at).wire).0 == FeedAll(m.asm, m.wire).0
  {
    hide Ingest, Share, FeedAll, Owed;
    var part, rest := m.(wire := m.wire[..at]), m.wire[at..];
    assert part.(wire := part.wire + rest) == m;
    IngestConserves(part, control);
    ArriveOwes(part, rest, control);
    ArriveOwes(Ingest(part), rest, control);
  }

  /** A read that fails hands out nothing and takes nothing; any other is a read like all others. */
  lemma FaultyReadConserves(m: Model, forTx: bool, at: nat)
    requires m.Valid() && at <= |m.wire|
    ensures
      var (n, r) := FaultyRead(m, forTx, at);
      && Owed(m, forTx) == (if r.Ok? && r.value.Some? then [r.value.value] else []) + Owed(n, forTx)
      && Owed(n, !forTx) == Owed(m, !forTx)
      && FeedAll(n.asm, n.wire).0 == FeedAll(m.asm, m.wire).0
  {
    hide Interrupted, Share, Queued, Pop, FeedAll;
    InterruptedConserves(m, at, forTx);
    InterruptedConserves(m, at, !forTx);
    var i := Interrupted(m, at);
    PopQueued(i, forTx);
    var (n, byte) := Pop(i, forTx);
    var got := if byte.Some? then [byte.value] else [];
    var rest := Share(FeedAll(i.asm, i.wire).1, forTx);
    assert (got + Queued(n, forTx)) + rest == got + (Queued(n, forTx) + rest);
    assert [] + Owed(m, forTx) == Owed(m, forTx);
  }

  lemma InterruptedIsWhole(m: Model, at: nat, forTx: bool)
    requires m.Valid() && at <= |m.wire|
    ensures |Interrupted(m, at).Ring(forTx)| % FRAME_LEN == |m.Ring(forTx)| % FRAME_LEN
  {
    hide Ingest;
    IngestIsWhole(m.(wire := m.wire[..at]), forTx);
  }

  lemma InterruptedTakesPrefix(m: Model, at: nat) returns (taken: seq<u8>)
    requires m.Valid() && at <= |m.wire|
    ensures m.wire == taken + Interrupted(m, at).wire
    ensures Interrupted(m, at).asm == FeedAll(m.asm, taken).0
  {
    hide Ingest, FeedAll;
    var part := m.(wire := m.wire[..at]);
    taken := IngestTakesPrefix(part);
    assert m.wire == part.wire + m.wire[at..];
  }

  /** `BrokenRead`: the read of an end during which the port fails after at most `at` bytes. */
  datatype Event = Arrive(bytes: seq<u8>) | ReadEnd(forTx: bool) | BrokenRead(forTx: bool, at: nat)

  /** A demultiplexer with the whole history of its stream and of its two ends. */
  datatype Observed = Observed(m: Model, arrived: seq<u8>, toTx: seq<u8>, toRx: seq<u8>)
  {
    function Given(forTx: bool): seq<u8> {
      if forTx then toTx else toRx
    }

    /** The bytes taken off the wire so far. */
    function Looked(): seq<u8> {
      if |m.wire| <= |arrived| then arrived[..|arrived| - |m.wire|] else []
    }
  }

  /** What an end makes of a read. */
  function Handed(o: Observed, forTx: bool, m: Model, byte: Option<u8>): Observed {
    var got := if byte.Some? then [byte.value] else [];
    if forTx then o.(m := m, toTx := o.toTx + got) else o.(m := m, toRx := o.toRx + got)
  }

  function Step(o: Observed, e: Event): (n: Observed)
    requires o.m.Valid()
    ensures n.m.Valid()
  {
    match e
    case Arrive(bytes) => o.(m := o.m.(wire := o.m.wire + bytes), arrived := o.arrived + bytes)
    case ReadEnd(forTx) =>
      var (m, byte) := Read(o.m, forTx);
      Handed(o, forTx, m, byte)
    case BrokenRead(forTx, at) =>
      var (m, r) := FaultyRead(o.m, forTx, if at < |o.m.wire| then at else |o.m.wire|);
      Handed(o, forTx, m, if r.Ok? then r.value else None)
  }

  ghost predicate Balanced(o: Observed, control: bool)
    requires o.m.Valid()
  {
    o.Given(control) + Owed(o.m, control) == Share(FeedAll(FRESH_RESYNC, o.arrived).1, control)
  }

  /** Each end's ring always ends at a window boundary of that end's stream. */
  predicate Whole(o: Observed) {
    (|o.toTx| + |o.m.control|) % FRAME_LEN == 0 && (|o.toRx| + |o.m.payload|) % FRAME_LEN == 0
  }

  /** The assembler's state is what the bytes taken off the wire made of it. */
  predicate Tracks(o: Observed) {
    && |o.m.wire| <= |o.arrived| && o.arrived == o.Looked() + o.m.wire
    && o.m.asm == FeedAll(FRESH_RESYNC, o.Looked()).0
  }

  ghost predicate Inv(o: Observed) {
    && o.m.Valid()
    && Tracks(o)
    && Balanced(o, true)
    && Balanced(o, false)
    && Whole(o)
  }

  lemma ArriveKeepsInv(o: Observed, bytes: seq<u8>)
    requires Inv(o)
    ensures Inv(Step(o, Arrive(bytes)))
  {
    hide Share, Owed, FeedAll;
    var n := Step(o, Arrive(bytes));
    assert n.Looked() == o.Looked();
    assert (o.Looked() + o.m.wire) + bytes == o.Looked() + (o.m.wire + bytes);
    ArriveBalances(o, bytes, true);
    ArriveBalances(o, bytes, false);
  }

  lemma ArriveBalances(o: Observed, bytes: seq<u8>, control: bool)
    requires o.m.Valid() && Balanced(o, control)
    requires |o.m.wire| <= |o.arrived| && o.arrived == o.Looked() + o.m.wire
    requires o.m.asm == FeedAll(FRESH_RESYNC, o.Looked()).0
    ensures Balanced(Step(o, Arrive(bytes)), control)
  {
    hide Share, Owed, FeedAll;
    ArriveOwes(o.m, bytes, control);
    FeedAppend(FRESH_RESYNC, o.Looked(), o.m.wire);
    FeedAppend(FRESH_RESYNC, o.arrived, bytes);
    var more := FeedAll(FeedAll(FRESH_RESYNC, o.arrived).0, bytes).1;
    ShareAppend(FeedAll(FRESH_RESYNC, o.arrived).1, more, control);
    assert o.Given(control) + (Owed(o.m, control) + Share(more, control))
      == (o.Given(control) + Owed(o.m, control)) + Share(more, control);
  }

  /** A read that hands out the next byte owed, if any, keeps the books balanced. */
  lemma HandedBalances(o: Observed, forTx: bool, m: Model, byte: Option<u8>, control: bool)
    requires o.m.Valid() && Balanced(o, control) && m.Valid()
    requires Owed(o.m, forTx) == (if byte.Some? then [byte.value] else []) + Owed(m, forTx)
    requires Owed(m, !forTx) == Owed(o.m, !forTx)
    ensures Balanced(Handed(o, forTx, m, byte), control)
  {
    hide Share, Owed, FeedAll;
    var got := if byte.Some? then [byte.value] else [];
    assert (o.Given(forTx) + got) + Owed(m, forTx) == o.Given(forTx) + (got + Owed(m, forTx));
  }

  lemma ReadBalances(o: Observed, forTx: bool, control: bool)
    requires o.m.Valid() && Balanced(o, control)
    ensures Balanced(Step(o, ReadEnd(forTx)), control)
  {
    hide Owed, Read, Balanced, Handed;
    ReadConserves(o.m, forTx);
    HandedBalances(o, forTx, Read(o.m, forTx).0, Read(o.m, forTx).1, control);
  }

  lemma ReadIsWhole(o: Observed, forTx: bool)
    requires o.m.Valid() && Whole(o)
    ensures Whole(Step(o, ReadEnd(forTx)))
  {
    hide Ingest;
    IngestIsWhole(o.m, true);
    IngestIsWhole(o.m, false);
  }

  lemma ReadTracks(o: Observed, n: Observed, taken: seq<u8>)
    requires o.m.Valid() && Tracks(o)
    requires n.arrived == o.arrived && o.m.wire == taken + n.m.wire && n.m.asm == FeedAll(o.m.asm, taken).0
    ensures Tracks(n)
  {
    hide FeedAll;
    FeedAppend(FRESH_RESYNC, o.Looked(), taken);
    assert (o.Looked() + taken) + n.m.wire == o.arrived;
    assert n.Looked() == o.Looked() + taken;
  }

  lemma ReadKeepsInv(o: Observed, forTx: bool)
    requires Inv(o)
    ensures Inv(Step(o, ReadEnd(forTx)))
  {
    hide Balanced, Whole, FeedAll, Ingest, Tracks;
    var n := Step(o, ReadEnd(forTx));
    ReadBalances(o, forTx, true);
    ReadBalances(o, forTx, false);
    ReadIsWhole(o, forTx);
    var taken := IngestTakesPrefix(o.m);
    ReadTracks(o, n, taken);
  }

  lemma BrokenReadIsWhole(o: Observed, forTx: bool, at: nat)
    requires o.m.Valid() && Whole(o)
    ensures Whole(Step(o, BrokenRead(forTx, at)))
  {
    hide Interrupted, Pop;
    var k := if at < |o.m.wire| then at else |o.m.wire|;
    InterruptedIsWhole(o.m, k, true);
    InterruptedIsWhole(o.m, k, false);
    PopMoves(Interrupted(o.m, k), forTx);
    WholeMoves(|o.toTx|, |o.m.control|, |Interrupted(o.m, k).control|);
    WholeMoves(|o.toRx|, |o.m.payload|, |Interrupted(o.m, k).payload|);
  }

  /** A byte popped moves from its ring to its end; the other ring stays. */
  lemma PopMoves(m: Model, forTx: bool)
    requires m.Valid()
    ensures
      var (n, byte) := Pop(m, forTx);
      && |n.Ring(forTx)| + (if byte.Some? then 1 else 0) == |m.Ring(forTx)|
      && n.Ring(!forTx) == m.Ring(!forTx)
  {
  }

  lemma WholeMoves(given: nat, before: nat, after: nat)
    requires (given + before) % FRAME_LEN == 0 && after % FRAME_LEN == before % FRAME_LEN
    ensures (given + after) % FRAME_LEN == 0
  {
  }

  lemma BrokenReadKeepsInv(o: Observed, forTx: bool, at: nat)
    requires Inv(o)
    ensures Inv(Step(o, BrokenRead(forTx, at)))
  {
    hide Balanced, Whole, FeedAll, Interrupted, Tracks, Owed;
    var n := Step(o, BrokenRead(forTx, at));
    var k := if at < |o.m.wire| then at else |o.m.wire|;
    FaultyReadConserves(o.m, forTx, k);
    var (m, r) := FaultyRead(o.m, forTx, k);
    HandedBalances(o, forTx, m, if r.Ok? then r.value else None, true);
    HandedBalances(o, forTx, m, if r.Ok? then r.value else None, false);
    BrokenReadIsWhole(o, forTx, at);
    var taken := InterruptedTakesPrefix(o.m, k);
    ReadTracks(o, n, taken);
  }

  lemma StepKeepsInv(o: Observed, e: Event)
    requires Inv(o)
    ensures Inv(Step(o, e))
  {
    hide Inv, Step;
    match e
    case Arrive(bytes) => ArriveKeepsInv(o, bytes);
    case ReadEnd(forTx) => ReadKeepsInv(o, forTx);
    case BrokenRead(forTx, at) => BrokenReadKeepsInv(o, forTx, at);
  }

  /** The demultiplexer after any sequence of events. */
  function Run(o: Observed, events: seq<Event>): (end: Observed)
    requires o.m.Valid()
    ensures end.m.Valid()
    decreases |events|
  {
    if events == [] then o else Run(Step(o, events[0]), events[1..])
  }

  lemma {:induction false} RunKeepsInv(o: Observed, events: seq<Event>)
    requires o.m.Valid() && Inv(o)
    ensures Inv(Run(o, events))
    decreases |events|
  {
    hide Inv, Step;
    if events != [] {
      StepKeepsInv(o, events[0]);
      RunKeepsInv(Step(o, events[0]), events[1..]);
    }
  }

  const START := Observed(EMPTY, [], [], [])

  lemma StartIsInv()
    ensures Inv(START)
  {
    hide IsControl, Push;
    assert START.Looked() == [];
    assert FeedAll(FRESH_RESYNC, []) == (FRESH_RESYNC, []);
  }

  function RunFromStart(events: seq<Event>): (end: Observed)
    ensures end.m.Valid()
  {
    Run(START, events)
  }

  lemma EveryRunKeepsInv(events: seq<Event>)
    ensures Inv(RunFromStart(events))
  {
    hide Inv, Run;
    StartIsInv();
    RunKeepsInv(START, events);
  }

  /**
    Conservation, for every byte stream, every interleaving of the two ends'
    reads, and port faults in any of them: what an end was given, then what its ring holds, then the window held
    back for it, is the in-order concatenation of that end's windows among the
    bytes taken off the wire.  No window is torn, dropped or reordered, even
    when a ring is full.
   */
  lemma WindowsAreConserved(events: seq<Event>, control: bool)
    ensures
      var end := RunFromStart(events);
      && end.Given(control) + end.m.Ring(control) + HeldFor(end.m.pending, control)
         == Share(FeedAll(FRESH_RESYNC, end.Looked()).1, control)
      && end.arrived == end.Looked() + end.m.wire
  {
    hide RunFromStart, Share, FeedAll;
    EveryRunKeepsInv(events);
    var end := RunFromStart(events);
    FeedAppend(FRESH_RESYNC, end.Looked(), end.m.wire);
    var rest := FeedAll(end.m.asm, end.m.wire).1;
    ShareAppend(FeedAll(FRESH_RESYNC, end.Looked()).1, rest, control);
    assert Balanced(end, control);
    assert end.Given(control) + (Queued(end.m, control) + Share(rest, control))
      == (end.Given(control) + Queued(end.m, control)) + Share(rest, control);
    SameSuffix(end.Given(control) + Queued(end.m, control), Share(FeedAll(FRESH_RESYNC, end.Looked()).1, control),
               Share(rest, control));
    assert end.Given(control) + Queued(end.m, control)
      == end.Given(control) + end.m.Ring(control) + HeldFor(end.m.pending, control);
  }

  lemma SameSuffix(a: seq<u8>, b: seq<u8>, c: seq<u8>)
    requires a + c == b + c
    ensures a == b
  {
    assert |a| == |b|;
    assert a == (a + c)[..|a|];
    assert b == (b + c)[..|b|];
  }

  /** A port reports silence only between windows of its own stream. */
  lemma SilenceBetweenWindows(events: seq<Event>, forTx: bool)
    ensures
      var end := RunFromStart(events);
      Read(end.m, forTx).1 == None ==> |end.Given(forTx)| % FRAME_LEN == 0
  {
    hide RunFromStart, Ingest, Balanced, FeedAll;
    EveryRunKeepsInv(events);
    var end := RunFromStart(events);
    IngestIsWhole(end.m, forTx);
  }
}
