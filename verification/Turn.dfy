/**
  Turn-taking over one link: a peer opens sessions only while it has the turn,
  and the turn flips when the session's FINISH has been acknowledged.
 */
module Turn {
  import opened Prelude
  import Rx
  import Tx
  import Pump

  datatype TurnEvent = Received(byte: u8) | Yielded | Granted | Idle

  /** `queue` is the filled part of the `capacity`-byte outbound array. */
  datatype Model = Model(
    pump: Pump.Model,
    speak: bool,
    queue: seq<u8>,
    capacity: nat,
    index: nat,
    needStart: bool,
    finishOffered: bool)
  {
    predicate Valid() {
      pump.Coherent() && index <= |queue| <= capacity
    }
  }

  datatype Polled = Polled(next: Model, result: Result<TurnEvent>, rxCalls: Calls, txCalls: Calls)

  function Fresh(policy: Tx.RetryPolicy, capacity: nat, first: bool): Model {
    Model(Pump.Fresh(policy), first, [], capacity, 0, true, false)
  }

  /** How many of `bytes` the queue takes now. */
  function Accepted(t: Model, bytes: seq<u8>): (n: nat)
    requires t.Valid()
    ensures n <= |bytes| && |t.queue| + n <= t.capacity
  {
    if t.finishOffered then 0
    else if |bytes| <= t.capacity - |t.queue| then |bytes|
    else t.capacity - |t.queue|
  }

  function Push(t: Model, bytes: seq<u8>): (n: Model)
    requires t.Valid()
    ensures n.Valid()
  {
    t.(queue := t.queue + bytes[..Accepted(t, bytes)])
  }

  /** Offer our own next frame, if it is our turn and the sender is free. */
  function DriveTx(t: Model): (n: Model)
    requires t.Valid()
    ensures n.Valid()
  {
    var tx := t.pump.tx;
    if !t.speak || t.queue == [] || !tx.Resting() then t
    else if t.needStart then
      var (offered, ok) := Tx.OfferStart(tx);
      if ok.Ok? then t.(pump := t.pump.(tx := offered), needStart := false, index := 0, finishOffered := false)
      else t.(pump := t.pump.(tx := offered))
    else if tx.state != Tx.TxState.Idle then t
    else if t.index < |t.queue| then
      var (offered, ok) := Tx.Offer(tx, t.queue[t.index]);
      t.(pump := t.pump.(tx := offered), index := if ok.Ok? then t.index + 1 else t.index)
    else if t.finishOffered then t
    else
      var (offered, ok) := Tx.OfferFinish(tx);
      t.(pump := t.pump.(tx := offered), finishOffered := ok.Ok?)
  }

  /** What a pump event means for whose turn it is. */
  function OnEvent(t: Model, event: Pump.PumpEvent): (n: (Model, TurnEvent))
    requires t.Valid()
    ensures n.0.Valid()
  {
    match event
    case Received(byte) => (t, Received(byte))
    case Completed =>
      if t.speak then
        (t.(speak := false, queue := [], index := 0, needStart := true, finishOffered := false), Yielded)
      else
        (t.(speak := true, needStart := true, index := 0, finishOffered := false), Granted)
    case Aborted =>
      if t.speak then (t.(needStart := true, index := 0, finishOffered := false), TurnEvent.Idle)
      else (t, TurnEvent.Idle)
    case _ => (t, TurnEvent.Idle)
  }

  function Poll(t: Model, rxIo: Io, txIo: Io): (p: Polled)
    requires t.Valid()
    ensures p.next.Valid()
  {
    var d := DriveTx(t);
    var r := Pump.Poll(d.pump, rxIo, txIo);
    var q := d.(pump := r.next);
    match r.result
    case Err(e) => Polled(q, Err(e), r.rxCalls, r.txCalls)
    case Ok(event) =>
      var (n, seen) := OnEvent(q, event);
      Polled(n, Ok(seen), r.rxCalls, r.txCalls)
  }

  // ------------------------------------------------------------ the object

  class Turn {
    const pump: Pump.Pump
    var speak: bool
    const buf: array<u8>
    var len: nat
    var index: nat
    var needStart: bool
    var finishOffered: bool
    ghost const Repr: set<object>

    ghost predicate Valid()
      reads this, Repr
    {
      && Repr == {this, buf} + pump.Repr
      && pump in Repr && this !in pump.Repr && buf !in pump.Repr
      && pump.Valid() && pump.View().Coherent()
      && index <= len <= buf.Length
    }

    ghost function View(): (m: Model)
      requires Valid()
      reads this, Repr
      ensures m.Valid()
    {
      Model(pump.View(), speak, buf[..len], buf.Length, index, needStart, finishOffered)
    }

    constructor (policy: Tx.RetryPolicy, capacity: nat, first: bool)
      ensures Valid() && fresh(Repr)
      ensures View() == Fresh(policy, capacity, first)
    {
      var p := new Pump.Pump(policy);
      var b := new u8[capacity](_ => 0);
      pump, buf := p, b;
      speak, len, index, needStart, finishOffered := first, 0, 0, true, false;
      Repr := {this, b} + p.Repr;
    }

    /** Queue application bytes; returns how many fit, and none once FINISH is on its way. */
    method PushBytes(bytes: seq<u8>) returns (n: nat)
      requires Valid()
      modifies this`len, buf
      ensures Valid() && View() == Push(old(View()), bytes)
      ensures n == Accepted(old(View()), bytes)
    {
      hide Pump.Model.Coherent, Pump.Pump.Valid, Pump.Pump.View;
      if finishOffered {
        assert View().queue + [] == View().queue;
        return 0;
      }
      n := 0;
      ghost var before := buf[..len];
      while n < |bytes| && len < buf.Length
        invariant n <= |bytes| && len == |before| + n <= buf.Length
        invariant buf[..len] == before + bytes[..n]
      {
        buf[len] := bytes[n];
        len := len + 1;
        n := n + 1;
        assert buf[..len] == (before + bytes[..n - 1]) + [bytes[n - 1]];
      }
    }

    /** The open session's next frame. */
    method DriveSession()
      requires Valid() && speak && len > 0 && !needStart && View().pump.tx.state == Tx.TxState.Idle
      modifies this, pump.sender
      ensures Valid() && View() == DriveTx(old(View()))
    {
      hide Tx.Sender.Valid, Tx.Sender.View, Rx.Receiver.Valid, Rx.Receiver.View, Tx.OfferStart, Tx.Offer,
        Tx.OfferFinish;
      if index < len {
        var offered := pump.sender.TryOffer(buf[index]);
        if offered.Ok? {
          index := index + 1;
        }
      } else if !finishOffered {
        var offered := pump.sender.TryOfferFinish();
        if offered.Ok? {
          finishOffered := true;
        }
      }
    }

    method Drive()
      requires Valid()
      modifies this, pump.sender
      ensures Valid() && View() == DriveTx(old(View()))
    {
      hide Tx.Sender.Valid, Tx.Sender.View, Rx.Receiver.Valid, Rx.Receiver.View, Tx.OfferStart, Tx.Offer,
        Tx.OfferFinish;
      if !speak || len == 0 {
        return;
      }
      var st := pump.sender.State();
      pump.sender.StateIsView();
      if !(st == Tx.TxState.Idle || st == Tx.TxState.Finished || st == Tx.TxState.Aborted || st == Tx.TxState.Failed) {
        return;
      }
      if needStart {
        var started := pump.sender.TryOfferStart();
        if started.Ok? {
          needStart := false;
          index := 0;
          finishOffered := false;
        }
      } else if st == Tx.TxState.Idle {
        DriveSession();
      }
    }

    method TakeEvent(event: Pump.PumpEvent) returns (seen: TurnEvent)
      requires Valid()
      modifies this
      ensures Valid() && (View(), seen) == OnEvent(old(View()), event)
    {
      hide Pump.Model.Coherent, Pump.Pump.Valid, Pump.Pump.View;
      match event {
        case Received(byte) =>
          seen := Received(byte);
        case Completed =>
          if speak {
            speak, len, index, needStart, finishOffered := false, 0, 0, true, false;
            seen := Yielded;
          } else {
            speak, needStart, index, finishOffered := true, true, 0, false;
            seen := Granted;
          }
        case Aborted =>
          if speak {
            needStart, index, finishOffered := true, 0, false;
          }
          seen := TurnEvent.Idle;
        case _ =>
          seen := TurnEvent.Idle;
      }
    }

    /** One cooperative step. */
    method PollOnce(rxIo: Io, txIo: Io) returns (result: Result<TurnEvent>, rxCalls: Calls, txCalls: Calls)
      requires Valid()
      modifies Repr
      ensures Valid() && Polled(View(), result, rxCalls, txCalls) == Poll(old(View()), rxIo, txIo)
    {
      hide Pump.Poll, DriveTx, OnEvent, Pump.Model.Coherent;
      Drive();
      var event;
      event, rxCalls, txCalls := pump.PollOnce(rxIo, txIo);
      if event.Err? {
        return Err(event.error), rxCalls, txCalls;
      }
      var seen := TakeEvent(event.value);
      result := Ok(seen);
    }
  }
}
