/**
  Several polls in a row: what a sender or receiver is afterwards, what each
  poll answered, and which bytes it wrote in all.
 */
module Polls {
  import opened Prelude
  import opened Wire
  import Rx
  import Tx
  import WindowRx
  import WindowTx

  datatype Trace<+S, +R> = Trace(end: S, said: seq<Result<R>>, wrote: seq<u8>)

  function Bytes(calls: Calls): seq<u8> {
    if calls.wrote.Some? then [calls.wrote.value] else []
  }

  /** The transport has exactly these bytes to give, one per poll. */
  predicate Hears(ios: seq<Io>, word: seq<u8>) {
    |ios| == |word| && forall k :: 0 <= k < |ios| ==> ios[k].read == GotByte(word[k])
  }

  /** `n` polls in which the transport takes a byte. */
  predicate Takes(ios: seq<Io>, n: nat) {
    |ios| == n && forall k :: 0 <= k < n ==> ios[k].writeOk
  }

  predicate Silent(ios: seq<Io>) {
    forall k :: 0 <= k < |ios| ==> ios[k].read == NoByte
  }

  /** `n` polls of a sender that are all answered `Pending`. */
  function AllPending(n: nat): (said: seq<Result<Tx.TxPoll>>)
    ensures |said| == n
  {
    seq(n, _ => Ok(Tx.TxPoll.Pending))
  }

  function OfSender(t: Tx.Model, ios: seq<Io>): (r: Trace<Tx.Model, Tx.TxPoll>)
    requires t.Coherent()
    ensures r.end.Coherent() && |r.said| == |ios|
    decreases |ios|
  {
    if ios == [] then Trace(t, [], [])
    else
      var p := Tx.Poll(t, ios[0]);
      var rest := OfSender(p.next, ios[1..]);
      Trace(rest.end, [p.result] + rest.said, Bytes(p.calls) + rest.wrote)
  }

  function OfWindowSender(t: WindowTx.Model, ios: seq<Io>): (r: Trace<WindowTx.Model, Tx.TxPoll>)
    requires t.Coherent()
    ensures r.end.Coherent() && |r.end.slots| == |t.slots| && |r.said| == |ios|
    decreases |ios|
  {
    if ios == [] then Trace(t, [], [])
    else
      var p := WindowTx.Poll(t, ios[0]);
      var rest := OfWindowSender(p.next, ios[1..]);
      Trace(rest.end, [p.result] + rest.said, Bytes(p.calls) + rest.wrote)
  }

  function OfWindowReceiver(r: WindowRx.Model, ios: seq<Io>): (t: Trace<WindowRx.Model, Rx.PollOutcome>)
    requires r.Coherent()
    ensures t.end.Coherent() && |t.said| == |ios|
    decreases |ios|
  {
    if ios == [] then Trace(r, [], [])
    else
      var p := WindowRx.Poll(r, ios[0]);
      var rest := OfWindowReceiver(p.next, ios[1..]);
      Trace(rest.end, [p.result] + rest.said, Bytes(p.calls) + rest.wrote)
  }

  lemma FourOfSender(t: Tx.Model, ios: seq<Io>)
    requires t.Coherent() && |ios| == 4
    ensures
      var p0 := Tx.Poll(t, ios[0]);
      var p1 := Tx.Poll(p0.next, ios[1]);
      var p2 := Tx.Poll(p1.next, ios[2]);
      var p3 := Tx.Poll(p2.next, ios[3]);
      OfSender(t, ios) == Trace(p3.next, [p0.result, p1.result, p2.result, p3.result],
                                Bytes(p0.calls) + Bytes(p1.calls) + Bytes(p2.calls) + Bytes(p3.calls))
  {
    hide Tx.Poll, Bytes;
    var p0 := Tx.Poll(t, ios[0]);
    var p1 := Tx.Poll(p0.next, ios[1]);
    var p2 := Tx.Poll(p1.next, ios[2]);
    var p3 := Tx.Poll(p2.next, ios[3]);
    assert ios[3..][1..] == [];
    assert OfSender(p2.next, ios[3..]) == Trace(p3.next, [p3.result], Bytes(p3.calls));
    assert ios[2..][1..] == ios[3..];
    assert OfSender(p1.next, ios[2..]) == Trace(p3.next, [p2.result, p3.result], Bytes(p2.calls) + Bytes(p3.calls));
    assert ios[1..][1..] == ios[2..];
  }

  lemma FourOfWindowSender(t: WindowTx.Model, ios: seq<Io>)
    requires t.Coherent() && |ios| == 4
    ensures
      var p0 := WindowTx.Poll(t, ios[0]);
      var p1 := WindowTx.Poll(p0.next, ios[1]);
      var p2 := WindowTx.Poll(p1.next, ios[2]);
      var p3 := WindowTx.Poll(p2.next, ios[3]);
      OfWindowSender(t, ios) == Trace(p3.next, [p0.result, p1.result, p2.result, p3.result],
                                      Bytes(p0.calls) + Bytes(p1.calls) + Bytes(p2.calls) + Bytes(p3.calls))
  {
    hide WindowTx.Poll, Bytes;
    var p0 := WindowTx.Poll(t, ios[0]);
    var p1 := WindowTx.Poll(p0.next, ios[1]);
    var p2 := WindowTx.Poll(p1.next, ios[2]);
    var p3 := WindowTx.Poll(p2.next, ios[3]);
    assert ios[3..][1..] == [];
    assert OfWindowSender(p2.next, ios[3..]) == Trace(p3.next, [p3.result], Bytes(p3.calls));
    assert ios[2..][1..] == ios[3..];
    assert OfWindowSender(p1.next, ios[2..]) ==
           Trace(p3.next, [p2.result, p3.result], Bytes(p2.calls) + Bytes(p3.calls));
    assert ios[1..][1..] == ios[2..];
  }

  lemma {:induction false} JoinOfWindowReceiver(r: WindowRx.Model, a: seq<Io>, b: seq<Io>)
    requires r.Coherent()
    ensures
      var first := OfWindowReceiver(r, a);
      var second := OfWindowReceiver(first.end, b);
      OfWindowReceiver(r, a + b) == Trace(second.end, first.said + second.said, first.wrote + second.wrote)
    decreases |a|
  {
    hide WindowRx.Poll, Bytes;
    if a == [] {
      assert a + b == b;
    } else {
      assert (a + b)[1..] == a[1..] + b;
      JoinOfWindowReceiver(WindowRx.Poll(r, a[0]).next, a[1..], b);
    }
  }

  /** Three polls that say nothing, and what the fourth says. */
  lemma LastOfFour(said: seq<Result<Tx.TxPoll>>)
    requires |said| == 4 && said[..3] == AllPending(3)
    ensures said == AllPending(3) + [said[3]]
    ensures said[3] == Ok(Tx.TxPoll.Pending) ==> said == AllPending(4)
  {
    assert said == said[..3] + [said[3]];
  }

  /** What a sender that has nothing to send answers to every poll. */
  function AtRest(state: Tx.TxState): Result<Tx.TxPoll> {
    match state
    case Failed => Err(RetriesExhausted)
    case Aborted => Ok(Tx.TxPoll.Aborted)
    case Finished => Ok(Tx.TxPoll.TransferDone)
    case _ => Ok(Tx.TxPoll.Pending)
  }
}
