/**
  The round-robin scheduler: a fixed table of actors of one type, ticked one at
  a time from a cursor that walks round the table.
 */
module Scheduler {
  import opened Prelude

  datatype Tick<T> = Pending | Ready(value: T) | Done

  /** What an actor's own `tick` returned. */
  datatype Answer<T, E> = Ticked(tick: Tick<T>) | Broke(error: E)

  /** What the system reports of it: the id is known only if the actor did not fail. */
  datatype Outcome<T, E> = Ran(id: nat, tick: Tick<T>) | Failed(error: E)

  datatype Slot<A> = Slot(actor: A, retired: bool)

  datatype Model<A> = Model(slots: seq<Option<Slot<A>>>, cursor: nat, live: nat) {
    predicate Valid() {
      && live == Count(slots)
      && (if slots == [] then cursor == 0 else cursor < |slots|)
    }

    /** Slot `i` holds an actor that has not retired. */
    predicate Live(i: nat) {
      i < |slots| && slots[i].Some? && !slots[i].value.retired
    }
  }

  function Empty<A>(n: nat): (m: Model<A>)
    ensures m.Valid()
  {
    NothingCounts<A>(n);
    Model(seq(n, _ => None), 0, 0)
  }

  /** How many slots are occupied by an actor that has not retired. */
  function Count<A>(slots: seq<Option<Slot<A>>>): nat {
    if slots == [] then 0
    else (if slots[0].Some? && !slots[0].value.retired then 1 else 0) + Count(slots[1..])
  }

  lemma {:induction false} NothingCounts<A>(n: nat)
    ensures Count<A>(seq(n, _ => None)) == 0
  {
    if n > 0 {
      NothingCounts<A>(n - 1);
      assert (seq<Option<Slot<A>>>(n, _ => None))[1..] == seq<Option<Slot<A>>>(n - 1, _ => None);
    }
  }

  /** Changing one slot changes the count by what that slot counts for. */
  lemma {:induction false} CountUpdate<A>(slots: seq<Option<Slot<A>>>, i: nat, s: Option<Slot<A>>)
    requires i < |slots|
    ensures
      var one := (x: Option<Slot<A>>) => if x.Some? && !x.value.retired then 1 else 0;
      Count(slots[i := s]) == Count(slots) - one(slots[i]) + one(s)
  {
    if i > 0 {
      CountUpdate(slots[1..], i - 1, s);
      assert slots[i := s][1..] == slots[1..][i - 1 := s];
    } else {
      assert slots[i := s][1..] == slots[1..];
    }
  }

  /** The count is positive exactly when some slot is live. */
  lemma {:induction false} CountsSome<A>(slots: seq<Option<Slot<A>>>)
    ensures Count(slots) > 0 <==> exists i :: 0 <= i < |slots| && slots[i].Some? && !slots[i].value.retired
  {
    if slots != [] {
      CountsSome(slots[1..]);
      if Count(slots[1..]) > 0 {
        var i :| 0 <= i < |slots[1..]| && slots[1..][i].Some? && !slots[1..][i].value.retired;
        assert slots[i + 1].Some? && !slots[i + 1].value.retired;
      }
      if i :| 0 <= i < |slots| && slots[i].Some? && !slots[i].value.retired {
        if i > 0 {
          assert slots[1..][i - 1].Some? && !slots[1..][i - 1].value.retired;
        }
      }
    }
  }

  // ------------------------------------------------------------ spawning and ticking

  /** The first free slot. */
  function FirstFree<A>(slots: seq<Option<Slot<A>>>): (r: Option<nat>)
    ensures r.Some? ==> r.value < |slots| && slots[r.value] == None && forall i :: 0 <= i < r.value ==> slots[i].Some?
    ensures r == None ==> forall i :: 0 <= i < |slots| ==> slots[i].Some?
  {
    if slots == [] then None
    else if slots[0] == None then Some(0)
    else
      match FirstFree(slots[1..])
      case None => None
      case Some(i) => Some(i + 1)
  }

  function Spawn<A>(m: Model<A>, actor: A): (n: Model<A>)
    requires m.Valid()
    ensures n.Valid()
  {
    match FirstFree(m.slots)
    case None => m
    case Some(i) =>
      CountUpdate(m.slots, i, Some(Slot(actor, false)));
      m.(slots := m.slots[i := Some(Slot(actor, false))], live := m.live + 1)
  }

  /** The slot after `i`, round the table. */
  function Following(i: nat, n: nat): nat {
    if i + 1 == n then 0 else i + 1
  }

  /** The first live slot within `steps` of the cursor. */
  function Search<A>(m: Model<A>, at: nat, steps: nat): (r: Option<nat>)
    requires at < |m.slots|
    ensures r.Some? ==> m.Live(r.value)
    decreases steps
  {
    if steps == 0 then None
    else if m.Live(at) then Some(at)
    else Search(m, Following(at, |m.slots|), steps - 1)
  }

  /** The actor whose turn it is. */
  function Next<A>(m: Model<A>): (r: Option<nat>)
    requires m.Valid()
    ensures r.Some? ==> m.Live(r.value)
  {
    if m.live == 0 || m.slots == [] then None else Search(m, m.cursor, |m.slots|)
  }

  function Settle<A, T, E>(m: Model<A>, i: nat, after: A, answer: Answer<T, E>): (r: (Model<A>, Option<Outcome<T, E>>))
    requires m.Valid() && m.Live(i)
    ensures r.0.Valid()
  {
    var over := answer.Ticked? && answer.tick.Done?;
    CountUpdate(m.slots, i, Some(Slot(after, over)));
    (Model(m.slots[i := Some(Slot(after, over))], Following(i, |m.slots|), if over then m.live - 1 else m.live),
     Some(match answer case Ticked(t) => Ran(i, t) case Broke(e) => Failed(e)))
  }

  /** `behave` is what the actors do when ticked, this time round. */
  function TickOnce<A, T, E>(m: Model<A>, behave: A -> (A, Answer<T, E>)): (r: (Model<A>, Option<Outcome<T, E>>))
    requires m.Valid()
    ensures r.0.Valid()
  {
    match Next(m)
    case None => (m, None)
    case Some(i) => Settle(m, i, behave(m.slots[i].value.actor).0, behave(m.slots[i].value.actor).1)
  }

  // ------------------------------------------------------------ the object

  class System<A> {
    const slots: array<Option<Slot<A>>>
    var cursor: nat
    var live: nat

    ghost predicate Valid()
      reads this, slots
    {
      View().Valid()
    }

    ghost function View(): Model<A>
      reads this, slots
    {
      Model(slots[..], cursor, live)
    }

    constructor (n: nat)
      ensures Valid() && fresh(slots) && View() == Empty(n)
    {
      slots := new Option<Slot<A>>[n](_ => None);
      cursor, live := 0, 0;
      new;
      assert slots[..] == seq(n, _ => None);
      assert View() == Empty(n);
    }

    /** Inserts into the first free slot; `None` when the table is full. */
    method SpawnActor(actor: A) returns (id: Option<nat>)
      requires Valid()
      modifies this, slots
      ensures Valid() && View() == Spawn(old(View()), actor) && id == FirstFree(old(View()).slots)
    {
      for i := 0 to slots.Length
        invariant slots[..] == old(slots[..]) && cursor == old(cursor) && live == old(live)
        invariant forall k :: 0 <= k < i ==> slots[k].Some?
      {
        if slots[i] == None {
          FirstFreeIs(slots[..], i);
          slots[i] := Some(Slot(actor, false));
          live := live + 1;
          assert slots[..] == old(slots[..])[i := Some(Slot(actor, false))];
          assert View() == Spawn(old(View()), actor);
          return Some(i);
        }
      }
      return None;
    }

    /** Ticks the next live actor; `None` when no actor is live. */
    method Tick<T, E>(behave: A -> (A, Answer<T, E>)) returns (result: Option<Outcome<T, E>>)
      requires Valid()
      modifies this, slots
      ensures Valid() && (View(), result) == TickOnce(old(View()), behave)
    {
      if live == 0 || slots.Length == 0 {
        return None;
      }
      ghost var m := View();
      var left := slots.Length;
      SearchFinds(m);
      while left > 0
        invariant 0 <= left <= slots.Length && cursor < slots.Length
        invariant slots[..] == m.slots && live == m.live
        invariant Next(m) == Search(m, cursor, left)
        invariant Next(m).Some?
        decreases left
      {
        var i := cursor;
        cursor := if cursor + 1 == slots.Length then 0 else cursor + 1;
        left := left - 1;
        if slots[i].None? || slots[i].value.retired {
          assert !m.Live(i);
          continue;
        }
        assert m.Live(i) && Next(m) == Some(i);
        var (after, answer) := behave(slots[i].value.actor);
        var over := answer.Ticked? && answer.tick.Done?;
        slots[i] := Some(Slot(after, over));
        assert slots[..] == m.slots[i := Some(Slot(after, over))];
        if over {
          live := live - 1;
        }
        result := Some(match answer case Ticked(t) => Ran(i, t) case Broke(e) => Failed(e));
        assert (View(), result) == Settle(m, i, after, answer);
        return;
      }
    }
  }

  lemma FirstFreeIs<A>(slots: seq<Option<Slot<A>>>, i: nat)
    requires i < |slots| && slots[i] == None && forall k :: 0 <= k < i ==> slots[k].Some?
    ensures FirstFree(slots) == Some(i)
  {
  }

  // ------------------------------------------------------------ the rotation

  /** How far ahead of `from` slot `i` lies, walking round. */
  function Ahead(from: nat, i: nat, n: nat): nat
    requires from < n && i < n
  {
    if i >= from then i - from else i + n - from
  }

  /** The search finds the live slot that lies least far ahead, and finds one if there is one. */
  lemma {:induction false} SearchIsNearest<A>(m: Model<A>, at: nat, steps: nat, i: nat)
    requires at < |m.slots| && m.Live(i) && Ahead(at, i, |m.slots|) < steps <= |m.slots|
    ensures
      var r := Search(m, at, steps);
      r.Some? && Ahead(at, r.value, |m.slots|) <= Ahead(at, i, |m.slots|)
    decreases steps
  {
    if !m.Live(at) {
      SearchIsNearest(m, Following(at, |m.slots|), steps - 1, i);
    }
  }

  lemma SearchFinds<A>(m: Model<A>)
    requires m.Valid()
    ensures Next(m) == None <==> m.live == 0
  {
    CountsSome(m.slots);
    if m.live > 0 {
      var i: nat :| i < |m.slots| && m.slots[i].Some? && !m.slots[i].value.retired;
      assert m.Live(i);
      SearchIsNearest(m, m.cursor, |m.slots|, i);
    }
  }

  // ------------------------------------------------------------ every run

  datatype Event<!A, T, E> = SpawnOne(actor: A) | TickNext(behave: A -> (A, Answer<T, E>))

  /** The state after a run, and which slots it ticked, in order. */
  function Run<A, T, E>(m: Model<A>, events: seq<Event<A, T, E>>): (r: (Model<A>, seq<nat>))
    requires m.Valid()
    ensures r.0.Valid() && |r.0.slots| == |m.slots|
    decreases |events|
  {
    if events == [] then (m, [])
    else
      match events[0]
      case SpawnOne(actor) => Run(Spawn(m, actor), events[1..])
      case TickNext(behave) =>
        var (end, ticked) := Run(TickOnce(m, behave).0, events[1..]);
        (end, if Next(m).Some? then [Next(m).value] + ticked else ticked)
  }

  /** Spawning fills a free slot and leaves every occupied one alone. */
  lemma SpawnKeeps<A>(m: Model<A>, actor: A, i: nat)
    requires m.Valid() && i < |m.slots| && m.slots[i].Some?
    ensures Spawn(m, actor).slots[i] == m.slots[i] && Spawn(m, actor).cursor == m.cursor
  {
  }

  /** A retired actor never runs again, whatever is spawned and whatever the others do. */
  lemma {:induction false} RetiredNeverRuns<A, T, E>(m: Model<A>, events: seq<Event<A, T, E>>, i: nat)
    requires m.Valid() && i < |m.slots| && m.slots[i].Some? && m.slots[i].value.retired
    ensures i !in Run(m, events).1
    ensures Run(m, events).0.slots[i] == m.slots[i]
    decreases |events|
  {
    hide Count, Search;
    if events != [] {
      match events[0]
      case SpawnOne(actor) =>
        SpawnKeeps(m, actor, i);
        RetiredNeverRuns(Spawn(m, actor), events[1..], i);
      case TickNext(behave) =>
        RetiredNeverRuns(TickOnce(m, behave).0, events[1..], i);
    }
  }

  /** The table is idle exactly when no slot is live, and then only spawning changes it. */
  lemma TickNoneIffIdle<A, T, E>(m: Model<A>, behave: A -> (A, Answer<T, E>))
    requires m.Valid()
    ensures TickOnce(m, behave).1 == None <==> m.live == 0
    ensures m.live == 0 <==> forall i: nat :: !m.Live(i)
    ensures m.live == 0 ==> TickOnce(m, behave).0 == m
  {
    SearchFinds(m);
    CountsSome(m.slots);
    if m.live > 0 {
      var i: nat :| i < |m.slots| && m.slots[i].Some? && !m.slots[i].value.retired;
      assert m.Live(i);
    }
  }

  /** Slots ticked one after the other, each further ahead than the one before and none as far as `limit`. */
  ghost predicate Sweeps(ticked: seq<nat>, from: nat, limit: nat, n: nat)
    requires from < n
  {
    && (forall a :: 0 <= a < |ticked| ==> ticked[a] < n && Ahead(from, ticked[a], n) < limit)
    && (forall a, b :: 0 <= a < b < |ticked| ==> Ahead(from, ticked[a], n) < Ahead(from, ticked[b], n))
  }

  /** Starting the sweep one slot earlier. */
  lemma SweepEarlier(ticked: seq<nat>, from: nat, j: nat, limit: nat, n: nat)
    requires from < n && j < n && Ahead(from, j, n) < limit <= n
    requires Sweeps(ticked, Following(j, n), limit - Ahead(from, j, n) - 1, n)
    ensures Sweeps([j] + ticked, from, limit, n)
  {
    var next := Following(j, n);
    forall a | 0 <= a < |ticked|
      ensures Ahead(from, ticked[a], n) == Ahead(from, j, n) + 1 + Ahead(next, ticked[a], n)
    {
      assert Ahead(next, ticked[a], n) < limit - Ahead(from, j, n) - 1;
    }
  }

  /** While a live slot is not ticked, ticking only ever moves towards it. */
  lemma {:induction false} RunSweeps<A, T, E>(m: Model<A>, events: seq<Event<A, T, E>>, i: nat)
    requires m.Valid() && m.Live(i) && i !in Run(m, events).1
    ensures Sweeps(Run(m, events).1, m.cursor, Ahead(m.cursor, i, |m.slots|), |m.slots|)
    ensures Run(m, events).0.Live(i)
    decreases |events|
  {
    hide Count, Search, Sweeps;
    if events == [] {
      EmptySweeps(m.cursor, Ahead(m.cursor, i, |m.slots|), |m.slots|);
    } else {
      match events[0]
      case SpawnOne(actor) =>
        SpawnKeeps(m, actor, i);
        RunSweeps(Spawn(m, actor), events[1..], i);
      case TickNext(behave) =>
        TickMovesTowards(m, behave, i);
        var j := Next(m).value;
        var n := TickOnce(m, behave).0;
        assert Run(m, events).1 == [j] + Run(n, events[1..]).1;
        RunSweeps(n, events[1..], i);
        SweepEarlier(Run(n, events[1..]).1, m.cursor, j, Ahead(m.cursor, i, |m.slots|), |m.slots|);
    }
  }

  lemma EmptySweeps(from: nat, limit: nat, n: nat)
    requires from < n
    ensures Sweeps([], from, limit, n)
  {
  }

  /** A tick picks a slot no further ahead than any live one, and leaves the others alone. */
  lemma TickMovesTowards<A, T, E>(m: Model<A>, behave: A -> (A, Answer<T, E>), i: nat)
    requires m.Valid() && m.Live(i)
    ensures Next(m).Some?
    ensures
      var j := Next(m).value;
      var n := TickOnce(m, behave).0;
      && n.cursor == Following(j, |m.slots|) && |n.slots| == |m.slots|
      && Ahead(m.cursor, j, |m.slots|) <= Ahead(m.cursor, i, |m.slots|)
      && (i != j ==>
            && n.slots[i] == m.slots[i]
            && Ahead(n.cursor, i, |m.slots|) == Ahead(m.cursor, i, |m.slots|) - Ahead(m.cursor, j, |m.slots|) - 1)
  {
    CountsSome(m.slots);
    assert m.slots[i].Some? && !m.slots[i].value.retired;
    SearchIsNearest(m, m.cursor, |m.slots|, i);
  }

  /**
    Fairness, for any table size and whatever is spawned meanwhile: between two
    consecutive ticks of an actor, no other slot is ticked twice, and every
    actor that was live at the first of them is ticked once.
   */
  lemma Fairness<A, T, E>(m: Model<A>, first: A -> (A, Answer<T, E>), between: seq<Event<A, T, E>>)
    requires m.Valid() && Next(m).Some?
    requires
      var i := Next(m).value;
      var after := TickOnce(m, first).0;
      i !in Run(after, between).1 && after.Live(i) && Next(Run(after, between).0) == Some(i)
    ensures
      var i := Next(m).value;
      var after := TickOnce(m, first).0;
      var ticked := Run(after, between).1;
      && (forall a, b :: 0 <= a < b < |ticked| ==> ticked[a] != ticked[b])
      && (forall j :: 0 <= j < |m.slots| && j != i && m.Live(j) ==> j in ticked)
  {
    hide Count, Search;
    var i := Next(m).value;
    var after := TickOnce(m, first).0;
    var (end, ticked) := Run(after, between);
    var n := |m.slots|;
    RunSweeps(after, between, i);
    forall j | 0 <= j < n && j != i && m.Live(j)
      ensures j in ticked
    {
      if j !in ticked {
        assert after.Live(j);
        RunTicksOnce(after, between, first);
        var longer := between + [TickNext(first)];
        assert i in Run(after, longer).1;
        RunSweeps(after, longer, j);
      }
    }
  }

  /** One more tick at the end of a run. */
  lemma {:induction false} RunTicksOnce<A, T, E>(m: Model<A>, events: seq<Event<A, T, E>>,
                                                behave: A -> (A, Answer<T, E>))
    requires m.Valid()
    ensures
      var (end, ticked) := Run(m, events);
      Run(m, events + [TickNext(behave)]).1 == if Next(end).Some? then ticked + [Next(end).value] else ticked
    decreases |events|
  {
    hide Count, Search, Next;
    var one := [TickNext(behave)];
    if events == [] {
      assert events + one == one && one[1..] == [];
    } else {
      assert (events + one)[0] == events[0] && (events + one)[1..] == events[1..] + one;
      match events[0]
      case SpawnOne(actor) => RunTicksOnce(Spawn(m, actor), events[1..], behave);
      case TickNext(b) => RunTicksOnce(TickOnce(m, b).0, events[1..], behave);
    }
  }
}
