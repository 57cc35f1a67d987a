/** Who is evicted under resource-evict, and what that does to the ageing clock. */
module GreedyDualVictims {
  import opened Types
  import opened SignalCache
  import opened Ordering
  import opened Policy
  import opened GreedyDual

  /** What the policy is shown of a sandbox whose record is fresh and valued. */
  ghost predicate Shown(c: Cache, sb: Sandbox, now: Time) {
    sb.id in c.records && !Expired(c.records[sb.id].updatedAt, c.ttl, now) && Valued(c.records[sb.id])
  }

  /** The naive algorithm's ranking: smaller credit first, then the older sandbox; never one in the
      middle of a checkpoint while there is another. */
  function NaiveValue(n: Naive, sb: Sandbox): Value {
    if sb.id in n.facts && n.facts[sb.id].snapshot.inProgress then Infinite
    else Finite(if sb.id in n.credits then n.credits[sb.id] else 0.0)
  }

  function ByCredit(n: Naive): (Sandbox, Sandbox) -> bool {
    (a: Sandbox, b: Sandbox) =>
      var va, vb := NaiveValue(n, a), NaiveValue(n, b);
      Below(va, vb) || (va == vb && a.createdAt < b.createdAt)
  }

  /** Both algorithms rank the running sandboxes alike, ties included, when each has a fresh valued
      record - so every scan for a victim stops at the same one. */
  lemma SameVictim(c: Cache, running: seq<Sandbox>, now: Time, b: int)
    requires forall i :: 0 <= i < |running| ==> Shown(c, running[i], now)
    ensures FirstBest(ByValue(FreshSignals(c, now)), running, b) <==> FirstBest(ByCredit(Abstract(c)), running, b)
  {
    var sigs, n := FreshSignals(c, now), Abstract(c);
    forall i, j | 0 <= i < |running| && 0 <= j < |running|
      ensures ByValue(sigs)(running[i], running[j]) <==> ByCredit(n)(running[i], running[j])
    {
      assert Shown(c, running[i], now) && Shown(c, running[j], now);
    }
  }

  // ----- the floor under the clock -----

  /** The store beside the set of sandboxes that run. `overtaken` is history: the sandboxes whose priority some eviction
      since their last access exceeded. */
  datatype World = World(c: Cache, running: set<string>, overtaken: set<string>)

  /** A store change; a Resume or a stop moving a sandbox in or out of the running set; an eviction, noted before the
      victim is stopped, which may fail. */
  datatype Event =
    | Change(a: Atom)
    | Join(id: string)
    | Quit(id: string)
    | Evict(victim: string)

  /** Evictions other than by Evict are no events of their own; a victim is a least-valued running sandbox, every
      running one having a valued record. */
  ghost predicate Allows(w: World, e: Event) {
    match e
    case Change(a) => !a.Evicted?
    case Join(_) => true
    case Quit(_) => true
    case Evict(v) =>
      && v in w.running && v != ""
      && (forall id :: id in w.running ==> id in w.c.records && Valued(w.c.records[id]))
      && (forall id :: id in w.running ==> w.c.records[v].h <= w.c.records[id].h)
  }

  /** An access, or the loss of its record, puts a sandbox on a level with the others again. */
  function StillOvertaken(w: World, a: Atom): set<string> {
    set id | id in w.overtaken && id in Step(w.c, a).records && Accessed(w.c.records, a) != Some(id)
  }

  /** The sandboxes an eviction of `v` overtakes. */
  function Overtaken(c: Cache, v: string): set<string> {
    set id | id in c.records && Valued(c.records[id]) && c.records[id].h < Lookup(c.records, v).h
  }

  function Next(w: World, e: Event): World {
    match e
    case Change(a) => World(Step(w.c, a), w.running, StillOvertaken(w, a))
    case Join(id) => w.(running := w.running + {id})
    case Quit(id) => w.(running := w.running - {id})
    case Evict(v) => World(Step(w.c, Evicted(v)), w.running, w.overtaken + Overtaken(w.c, v))
  }

  predicate BelowClock(c: Cache, id: string) {
    id in c.records && Valued(c.records[id]) && c.records[id].h < c.clock
  }

  /** No running sandbox is valued below the clock. */
  ghost predicate AboveFloor(w: World) {
    Sound(w.c) && forall id :: id in w.running ==> !BelowClock(w.c, id)
  }

  /** The history tells which priorities are below the clock. */
  ghost predicate Told(w: World) {
    forall id :: BelowClock(w.c, id) <==> id in w.overtaken
  }

  /** The event admits nobody who was overtaken. */
  predicate Timely(w: World, e: Event) {
    e.Join? ==> e.id !in w.overtaken
  }

  lemma ChangeKeepsFloor(w: World, a: Atom)
    requires AboveFloor(w) && Told(w) && !a.Evicted?
    ensures var n := Next(w, Change(a)); AboveFloor(n) && Told(n) && n.c.clock == w.c.clock
  {
    var n := Next(w, Change(a));
    StepKeepsSound(w.c, a);
    ClockKept(w.c, a);
    SameAccess(w.c, a);
    forall id
      ensures BelowClock(n.c, id) <==> id in n.overtaken
      ensures BelowClock(n.c, id) ==> BelowClock(w.c, id)
    {
      if id in n.c.records {
        PriorityAfter(w.c, a, id);
      }
    }
  }

  lemma EvictKeepsFloor(w: World, v: string)
    requires AboveFloor(w) && Told(w) && Allows(w, Evict(v))
    ensures var n := Next(w, Evict(v)); AboveFloor(n) && Told(n) && n.c.clock >= w.c.clock
  {
    var n := Next(w, Evict(v));
    StepKeepsSound(w.c, Evicted(v));
    assert !BelowClock(w.c, v) && n.c.clock == w.c.records[v].h >= w.c.clock;
    forall id
      ensures BelowClock(n.c, id) <==> id in n.overtaken
    {
      assert BelowClock(w.c, id) <==> id in w.overtaken;
    }
  }

  /** One event keeps the floor if and only if it admits nobody who was overtaken; the clock never goes back. */
  lemma NextKeepsFloor(w: World, e: Event)
    requires AboveFloor(w) && Told(w) && Allows(w, e)
    ensures AboveFloor(Next(w, e)) <==> Timely(w, e)
    ensures Told(Next(w, e)) && Next(w, e).c.clock >= w.c.clock
  {
    match e
    case Change(a) => ChangeKeepsFloor(w, a);
    case Evict(v) => EvictKeepsFloor(w, v);
    case Quit(_) =>
    case Join(id) => assert id in Next(w, e).running;
  }

  ghost predicate Play(w: World, events: seq<Event>, t: World)
    decreases |events|
  {
    if events == [] then w == t else Allows(w, events[0]) && Play(Next(w, events[0]), events[1..], t)
  }

  predicate AllTimely(w: World, events: seq<Event>)
    decreases |events|
  {
    events != [] ==> Timely(w, events[0]) && AllTimely(Next(w, events[0]), events[1..])
  }

  ghost predicate AlwaysAbove(w: World, events: seq<Event>)
    decreases |events|
  {
    AboveFloor(w) && (events != [] ==> AlwaysAbove(Next(w, events[0]), events[1..]))
  }

  /** A store before its first use: nothing recorded, nobody running. */
  predicate Unused(w: World) {
    w.c.clock == 0.0 && w.c.records == map[] && w.running == {} && w.overtaken == {}
  }

  /** Over a whole run that evicts least-valued running sandboxes, all of them valued, every running priority stays at
      or above the clock if and only if no sandbox joins after an eviction overtook its last access. */
  lemma {:induction false} FloorExactly(w: World, events: seq<Event>, t: World)
    requires AboveFloor(w) && Told(w) && Play(w, events, t)
    ensures AlwaysAbove(w, events) <==> AllTimely(w, events)
    ensures AllTimely(w, events) ==> AboveFloor(t) && t.c.clock >= w.c.clock
    decreases |events|
  {
    if events != [] {
      var n := Next(w, events[0]);
      NextKeepsFloor(w, events[0]);
      if Timely(w, events[0]) {
        FloorExactly(n, events[1..], t);
      }
    }
  }

  /** In particular from an unused store. */
  lemma FloorHolds(w: World, events: seq<Event>, t: World)
    requires Unused(w) && Play(w, events, t)
    ensures AlwaysAbove(w, events) <==> AllTimely(w, events)
    ensures AllTimely(w, events) ==> AboveFloor(t) && t.c.clock >= 0.0
  {
    FloorExactly(w, events, t);
  }

  function PriorityOf(c: Cache, sb: Sandbox): real {
    Lookup(c.records, sb.id).h
  }

  /** The victim resource-evict picks among running sandboxes with fresh valued records outside any
      checkpoint is one the floor needs: of least priority among them. */
  lemma PickedVictimIsLeast(c: Cache, running: seq<Sandbox>, now: Time, b: int)
    requires forall i :: 0 <= i < |running| ==>
               Shown(c, running[i], now) && !Lookup(c.records, running[i].id).snapshot.inProgress
    requires FirstBest(ByValue(FreshSignals(c, now)), running, b)
    ensures forall i :: 0 <= i < |running| ==> PriorityOf(c, running[b]) <= PriorityOf(c, running[i])
  {
    forall i | 0 <= i < |running|
      ensures PriorityOf(c, running[b]) <= PriorityOf(c, running[i])
    {
      assert Shown(c, running[i], now) && Shown(c, running[b], now);
      assert !EvictsBefore(running[i], running[b], FreshSignals(c, now));
    }
  }

  /** Whoever was accessed since the last eviction may join: only evictions overtake. */
  lemma AccessedMayJoin(w: World, e: Event, id: string)
    requires !e.Evict? && (id !in w.overtaken || (e.Change? && Accessed(w.c.records, e.a) == Some(id)))
    ensures Timely(Next(w, e), Join(id))
  {
  }

  /** A restore is such an access. */
  lemma RestoredMayJoin(w: World, id: string, at: Time, dur: real, now: Time)
    requires id != ""
    ensures Timely(Next(w, Change(Restored(id, at, dur, now))), Join(id))
  {
    AccessedMayJoin(w, Change(Restored(id, at, dur, now)), id);
  }

  /** A run in which an eviction falls between a restore and the start of the sandbox: `b` is restored, `a`, worth more,
      is evicted as the only one running and stopped, and `b` starts below the clock. */
  const OVERTAKING: seq<Event> :=
    [Change(Restored("a", 1.0, 10.0, 1.0)), Join("a"), Change(Restored("b", 2.0, 1.0, 2.0)), Evict("a"),
     Quit("a"), Join("b")]

  lemma OvertakenRunsBelow() returns (t: World)
    ensures var w := World(EMPTY, {}, {}); Unused(w) && Play(w, OVERTAKING, t)
    ensures "b" in t.running && BelowClock(t.c, "b") && !AboveFloor(t)
  {
    var w := World(EMPTY, {}, {});
    var w1 := Next(w, OVERTAKING[0]);
    var w2 := Next(w1, OVERTAKING[1]);
    var w3 := Next(w2, OVERTAKING[2]);
    var w4 := Next(w3, OVERTAKING[3]);
    var w5 := Next(w4, OVERTAKING[4]);
    t := Next(w5, OVERTAKING[5]);
    assert w3.c.records["a"].h == 10.0 && w3.c.records["b"].h == 1.0 && w3.running == {"a"};
    assert Play(t, [], t);
    assert OVERTAKING[5..] == [OVERTAKING[5]] && OVERTAKING[5..][1..] == [] && OVERTAKING[4..][1..] == OVERTAKING[5..];
    assert OVERTAKING[3..][1..] == OVERTAKING[4..] && OVERTAKING[2..][1..] == OVERTAKING[3..];
    assert OVERTAKING[1..][1..] == OVERTAKING[2..];
    assert Play(w5, OVERTAKING[5..], t);
    assert Play(w4, OVERTAKING[4..], t);
    assert Play(w3, OVERTAKING[3..], t);
    assert Play(w2, OVERTAKING[2..], t);
    assert Play(w1, OVERTAKING[1..], t);
  }
}
