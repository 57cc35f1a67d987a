/** The lazily aged GreedyDual-Size clock against the algorithm it stands for: on every eviction,
    subtract the victim's value from everybody (internal/signals/store.go, internal/policy/evict.go). */
module GreedyDual {
  import opened Types
  import opened Gds
  import opened SignalCache

  // ----- the naive algorithm -----

  /** `facts` are the records without their priority; `credits` the value of each valued sandbox. */
  datatype Naive = Naive(ttl: real, facts: map<string, Record>, credits: map<string, real>)

  function Erase(records: map<string, Record>): map<string, Record> {
    map id | id in records :: records[id].(h := 0.0)
  }

  /** The sandbox an atomic change is an access to, if it is one. */
  function Accessed(facts: map<string, Record>, a: Atom): Option<string> {
    match a
    case Sampled(sample, _) => if sample.id != "" && IsAccess(facts, sample) then Some(sample.id) else None
    case Checkpointed(id, _, _) => if id != "" then Some(id) else None
    case Restored(id, _, _, _) => if id != "" then Some(id) else None
    case _ => None
  }

  /** How an atomic change moves the facts: no priority and no clock are looked at. */
  function Facts(n: Naive, a: Atom): map<string, Record> {
    Erase(Step(Cache(n.ttl, 0.0, n.facts, map[]), a).records)
  }

  function SubtractFromAll(credits: map<string, real>, value: real): map<string, real> {
    map id | id in credits :: credits[id] - value
  }

  /** Credits after a change: gone records drop out, an access sets the worth. */
  function Credits(credits: map<string, real>, accessed: Option<string>, facts: map<string, Record>):
      map<string, real>
  {
    var kept := map id | id in credits && id in facts :: credits[id];
    match accessed
    case None => kept
    case Some(id) =>
      var rec := Lookup(facts, id);
      kept[id := Worth(rec.runtime, rec.snapshot)]
  }

  function NaiveStep(n: Naive, a: Atom): Naive {
    if a.Evicted? then
      if a.id in n.credits && a.id != "" then n.(credits := SubtractFromAll(n.credits, n.credits[a.id])) else n
    else
      var facts := Facts(n, a);
      Naive(n.ttl, facts, Credits(n.credits, Accessed(n.facts, a), facts))
  }

  function NaiveSteps(n: Naive, atoms: seq<Atom>): Naive
    decreases |atoms|
  {
    if atoms == [] then n else NaiveSteps(NaiveStep(n, atoms[0]), atoms[1..])
  }

  // ----- the simulation -----

  /** A priority of zero is the code's own mark for "never assigned". */
  predicate Valued(rec: Record) { rec.h != 0.0 }

  /** Naive value = H - L. */
  function Abstract(c: Cache): Naive {
    Naive(c.ttl, Erase(c.records), map id | id in c.records && Valued(c.records[id]) :: c.records[id].h - c.clock)
  }

  /** The clock and every priority are non-negative; records are filed under real ids. */
  ghost predicate Sound(c: Cache) {
    c.clock >= 0.0 && "" !in c.records && forall id :: id in c.records ==> c.records[id].h >= 0.0
  }

  /** Evicting a sandbox that has a record but no priority yet. */
  predicate Blind(c: Cache, a: Atom) {
    a.Evicted? && a.id in c.records && !Valued(c.records[a.id])
  }

  lemma StepKeepsSound(c: Cache, a: Atom)
    requires Sound(c)
    ensures Sound(Step(c, a))
  {
  }

  lemma EvictSimulates(c: Cache, id: string)
    requires Sound(c)
    ensures Abstract(Step(c, Evicted(id))) == NaiveStep(Abstract(c), Evicted(id)) <==>
            (!Blind(c, Evicted(id)) || c.clock == 0.0 || forall z :: z in c.records ==> !Valued(c.records[z]))
  {
    var n, t := Abstract(c), Step(c, Evicted(id));
    if id in c.records && Valued(c.records[id]) {
      assert Abstract(t).credits == NaiveStep(n, Evicted(id)).credits;
    } else if Blind(c, Evicted(id)) {
      assert NaiveStep(n, Evicted(id)) == n;
      if z :| z in c.records && Valued(c.records[z]) {
        assert Abstract(t).credits[z] == c.records[z].h && n.credits[z] == c.records[z].h - c.clock;
      } else {
        assert Abstract(t).credits == n.credits;
      }
    }
  }

  lemma ErasedPut(records: map<string, Record>, id: string, x: Record, y: Record)
    requires x.(h := 0.0) == y.(h := 0.0)
    ensures Erase(Erase(records)[id := x]) == Erase(records[id := y])
  {
  }

  /** Erasing priorities before an atomic change or after it is the same. */
  lemma FactsOf(c: Cache, a: Atom)
    requires !a.Evicted?
    ensures Facts(Abstract(c), a) == Erase(Step(c, a).records)
  {
    var d := Cache(c.ttl, 0.0, Erase(c.records), map[]);
    match a
    case Row(_) => assert Erase(Erase(c.records)) == Erase(c.records);
    case Sampled(sample, now) =>
      ErasedPut(c.records, sample.id, WithSample(d, sample, now), WithSample(c, sample, now));
      assert Erase(Erase(c.records)) == Erase(c.records);
    case Described(id, sem, now) =>
      var prior, bare := Lookup(c.records, id), Lookup(d.records, id);
      var semantic := Merged(prior.semantic, sem);
      ErasedPut(c.records, id, bare.(semantic := semantic, semanticAt := now, updatedAt := now),
                prior.(semantic := semantic, semanticAt := now, updatedAt := now));
      assert Erase(Erase(c.records)) == Erase(c.records);
    case MarkedRunning(id, now) =>
      ErasedPut(c.records, id, NowRunning(Lookup(d.records, id), now), NowRunning(Lookup(c.records, id), now));
      assert Erase(Erase(c.records)) == Erase(c.records);
    case MarkedSuspended(id, now) =>
      ErasedPut(c.records, id, NowSuspended(Lookup(d.records, id), now), NowSuspended(Lookup(c.records, id), now));
      assert Erase(Erase(c.records)) == Erase(c.records);
    case Checkpointed(id, snap, now) =>
      ErasedPut(c.records, id, NowCheckpointed(0.0, Lookup(d.records, id), snap, now),
                NowCheckpointed(c.clock, Lookup(c.records, id), snap, now));
      assert Erase(Erase(c.records)) == Erase(c.records);
    case Restored(id, at, dur, now) =>
      ErasedPut(c.records, id, NowRestored(0.0, Lookup(d.records, id), at, dur, now),
                NowRestored(c.clock, Lookup(c.records, id), at, dur, now));
      assert Erase(Erase(c.records)) == Erase(c.records);
    case Purged(now) =>
      assert Erase(KeepFresh(Erase(c.records), c.ttl, now)) == Erase(KeepFresh(c.records, c.ttl, now));
  }

  /** An access sets the priority to the clock plus the worth; nothing else touches a priority. */
  lemma PriorityAfter(c: Cache, a: Atom, id: string)
    requires Sound(c) && !a.Evicted? && id in Step(c, a).records
    ensures var rec := Step(c, a).records[id];
            if Accessed(c.records, a) == Some(id) then rec.h == Priority(c.clock, rec.runtime, rec.snapshot)
            else rec.h == Lookup(c.records, id).h
  {
  }

  lemma CreditsMatch(c: Cache, t: Cache, accessed: Option<string>)
    requires t.clock == c.clock && (accessed.Some? ==> accessed.value in t.records)
    requires forall id :: id in t.records ==>
               var rec := t.records[id];
               if accessed == Some(id) then rec.h == Priority(c.clock, rec.runtime, rec.snapshot) && Valued(rec)
               else rec.h == Lookup(c.records, id).h
    ensures Abstract(t).credits == Credits(Abstract(c).credits, accessed, Erase(t.records))
  {
  }

  lemma ChangeSimulates(c: Cache, a: Atom)
    requires Sound(c) && !a.Evicted?
    ensures Abstract(Step(c, a)) == NaiveStep(Abstract(c), a)
  {
    var t := Step(c, a);
    FactsOf(c, a);
    SameAccess(c, a);
    forall id | id in t.records
      ensures var rec := t.records[id];
              if Accessed(c.records, a) == Some(id) then
                rec.h == Priority(c.clock, rec.runtime, rec.snapshot) && Valued(rec)
              else rec.h == Lookup(c.records, id).h
    {
      PriorityAfter(c, a, id);
    }
    ClockKept(c, a);
    CreditsMatch(c, t, Accessed(c.records, a));
  }

  lemma ClockKept(c: Cache, a: Atom)
    ensures Step(c, a).ttl == c.ttl && (!a.Evicted? ==> Step(c, a).clock == c.clock)
  {
  }

  lemma SameAccess(c: Cache, a: Atom)
    ensures Accessed(Erase(c.records), a) == Accessed(c.records, a)
    ensures Accessed(c.records, a).Some? ==> Accessed(c.records, a).value in Step(c, a).records
  {
  }

  /** Along a run, no victim is chosen before it has a priority. */
  predicate Sighted(c: Cache, atoms: seq<Atom>)
    decreases |atoms|
  {
    atoms != [] ==> !Blind(c, atoms[0]) && Sighted(Step(c, atoms[0]), atoms[1..])
  }

  /** The lazy clock simulates subtract-from-everyone over every run of pushes, semantic heartbeats,
      marks, checkpoints, restores, purges and evictions of valued victims. */
  lemma {:induction false} LazyRefinesNaive(c: Cache, atoms: seq<Atom>)
    requires Sound(c) && Sighted(c, atoms)
    ensures Abstract(Steps(c, atoms)) == NaiveSteps(Abstract(c), atoms)
    decreases |atoms|
  {
    if atoms != [] {
      var a := atoms[0];
      if a.Evicted? {
        EvictSimulates(c, a.id);
      } else {
        ChangeSimulates(c, a);
      }
      StepKeepsSound(c, a);
      LazyRefinesNaive(Step(c, a), atoms[1..]);
    }
  }

  /** An eviction that stays in step with the naive algorithm: of a sandbox without a record or with a priority, or
      while the clock is zero, or while nobody has a priority. Nothing else can get out of step. */
  predicate InStep(c: Cache, a: Atom) {
    !Blind(c, a) || c.clock == 0.0 || forall z :: z in c.records ==> !Valued(c.records[z])
  }

  predicate AllInStep(c: Cache, atoms: seq<Atom>)
    decreases |atoms|
  {
    atoms != [] ==> InStep(c, atoms[0]) && AllInStep(Step(c, atoms[0]), atoms[1..])
  }

  /** The two algorithms agree before the run and after each of its changes. */
  ghost predicate Agree(c: Cache, n: Naive, atoms: seq<Atom>)
    decreases |atoms|
  {
    Abstract(c) == n && (atoms != [] ==> Agree(Step(c, atoms[0]), NaiveStep(n, atoms[0]), atoms[1..]))
  }

  /** The lazy clock agrees with subtract-from-everyone all along a run if and only if every eviction of it stays in
      step. */
  lemma {:induction false} LazyAgreesExactly(c: Cache, atoms: seq<Atom>)
    requires Sound(c)
    ensures Agree(c, Abstract(c), atoms) <==> AllInStep(c, atoms)
    decreases |atoms|
  {
    if atoms != [] {
      var a := atoms[0];
      var t := Step(c, a);
      if a.Evicted? {
        EvictSimulates(c, a.id);
      } else {
        ChangeSimulates(c, a);
      }
      StepKeepsSound(c, a);
      if InStep(c, a) {
        LazyAgreesExactly(t, atoms[1..]);
      }
    }
  }

  const EMPTY := Cache(30.0, 0.0, map[], map[])

  /** A run from the empty store after which the next eviction is blind. */
  const BEFORE_BLIND: seq<Atom> := [Restored("a", 1.0, 3.0, 1.0), Evicted("a"), Described("b", NO_SEMANTIC, 2.0)]

  /** A blind eviction really breaks the correspondence: after a restore, its eviction and the first heartbeat of
      another sandbox, evicting that one takes the clock from 3 back to zero. */
  lemma BlindEvictionResetsClock()
    ensures var c := Steps(EMPTY, BEFORE_BLIND);
            && Sound(c) && Blind(c, Evicted("b")) && c.clock == 3.0 && Step(c, Evicted("b")).clock == 0.0
            && Abstract(Step(c, Evicted("b"))) != NaiveStep(Abstract(c), Evicted("b"))
  {
    var c1 := Step(EMPTY, BEFORE_BLIND[0]);
    var c2 := Step(c1, BEFORE_BLIND[1]);
    var c3 := Step(c2, BEFORE_BLIND[2]);
    assert BEFORE_BLIND[1..] == [BEFORE_BLIND[1], BEFORE_BLIND[2]] && BEFORE_BLIND[1..][1..] == [BEFORE_BLIND[2]];
    assert [BEFORE_BLIND[2]][1..] == [];
    assert Steps(EMPTY, BEFORE_BLIND) == Steps(c1, BEFORE_BLIND[1..]) == Steps(c2, [BEFORE_BLIND[2]]) == Steps(c3, []);
    assert c1.records["a"].h == 3.0;
    EvictSimulates(c3, "b");
    assert Valued(c3.records["a"]);
  }
}
