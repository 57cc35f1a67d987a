/** Reachable states that show stronger claims to be false of the protocol. */
module ProtocolWitness {
  import opened Types
  import opened WorkerAgent
  import opened Protocol
  import opened ProtocolSafety
  import opened ProtocolAdmission
  import opened ProtocolRestores
  import opened ProtocolOwnership
  import opened ProtocolTheorems

  ghost predicate Reach(s: System, t: System) {
    exists actions :: Run(s, actions, t)
  }

  lemma {:induction false} RunThen(s: System, actions: seq<Action>, t: System, a: Action)
    requires Run(s, actions, t) && Enabled(t, a)
    ensures Run(s, actions + [a], Apply(t, a))
    decreases |actions|
  {
    if actions == [] {
      assert Run(Apply(t, a), [], Apply(t, a));
      assert ([] + [a])[1..] == [];
    } else {
      RunThen(Apply(s, actions[0]), actions[1..], t, a);
      assert (actions + [a])[1..] == actions[1..] + [a];
    }
  }

  lemma Then(s: System, t: System, a: Action)
    requires Reach(s, t) && Enabled(t, a)
    ensures Reach(s, Apply(t, a))
  {
    var actions :| Run(s, actions, t);
    RunThen(s, actions, t, a);
  }

  lemma Start(s: System)
    ensures Reach(s, s)
  {
    assert Run(s, [], s);
  }

  // ----- one call at a time, from any reachable state -----

  /** A Resume takes the free mutex and reads its record. */
  lemma Scans(o: System, s: System, c: int, id: string) returns (t: System)
    requires Reach(o, s) && c !in s.calls && s.knock == None && NoResumeOf(s, id)
    requires id in s.m.records && s.m.records[id].id == id && s.m.records[id].state in {Suspended, Paused}
    ensures Reach(o, t) && t == s.(knock := Some(c), calls := s.calls[c := Scanning(s.m.records[id], {})])
  {
    var sb := s.m.records[id];
    var s1 := s.(calls := s.calls[c := Lobby(sb)]);
    Then(o, s, Admission(c, Enter(id)));
    var s2 := s1.(knock := Some(c), calls := s1.calls[c := Held(sb)]);
    Then(o, s1, Admission(c, Acquire));
    Then(o, s2, Admission(c, Reread));
    t := ResumeApply(s2, c, Reread);
    assert t.calls == s.calls[c := Scanning(sb, {})];
  }

  /** It sees a free Worker, takes it, and lets go of the mutex. */
  lemma Admits(o: System, s: System, c: int, w: string) returns (t: System)
    requires Reach(o, s) && c in s.calls && s.calls[c].Masked? && w in s.calls[c].free && s.knock == Some(c)
    requires s.calls[c].sb.state == Paused ==> w == s.calls[c].sb.worker
    requires NeedsGolden(s.calls[c].sb) ==> s.m.goldenReady
    ensures var sb := s.calls[c].sb;
            Reach(o, t) && t == s.(knock := None, reserve := s.reserve[w := sb.id],
                                   calls := s.calls[c := Restoring(sb, w, RestorePlan(sb, w))])
  {
    var sb, free := s.calls[c].sb, s.calls[c].free;
    var s1 := s.(calls := s.calls[c := Listed(sb, free, RunningView(s.m))]);
    Then(o, s, Admission(c, ListRunning));
    var s2 := s1.(calls := s1.calls[c := Chosen(sb, w)]);
    Then(o, s1, Admission(c, Decide(Admit(w))));
    Then(o, s2, Admission(c, Reserve));
    t := ResumeApply(s2, c, Reserve);
    assert t.calls == s.calls[c := Restoring(sb, w, RestorePlan(sb, w))];
  }

  /** The restore claims an empty slot and reads its image. */
  lemma Loads(o: System, s: System, c: int) returns (t: System)
    requires Reach(o, s) && c in s.calls && s.calls[c].Restoring? && Alive(s.m, s.calls[c].worker) == {}
    requires s.calls[c].plan.dir in Images(s.m, s.calls[c].worker) || Remote(s.m, s.calls[c].plan.key).Some?
    ensures var call := s.calls[c];
            var images := Fetched(s.m, call.worker, call.plan, Started);
            && Reach(o, t) && call.plan.dir in images && t.knock == s.knock && t.reserve == s.reserve
            && t.m == SetImages(SetAlive(s.m, call.worker, {Box(call.sb.id)}), call.worker, images)
            && t.calls == s.calls[c := Restored(call.sb, call.worker, call.plan, images[call.plan.dir],
                                                call.plan.dir in Images(s.m, call.worker))]
  {
    var call := s.calls[c];
    Then(o, s, Load(c, ClaimSlot));
    var s1 := RestoreApply(s, c, ClaimSlot);
    assert Remote(s1.m, call.plan.key) == Remote(s.m, call.plan.key);
    Then(o, s1, Load(c, Fetch(Started)));
    t := RestoreApply(s1, c, Fetch(Started));
    assert {} + {Box(call.sb.id)} == {Box(call.sb.id)};
    assert t.calls == s.calls[c := t.calls[c]];
  }

  /** The restored sandbox is recorded running, and the call is over. */
  lemma Finishes(o: System, s: System, c: int) returns (t: System)
    requires Reach(o, s) && c in s.calls && s.calls[c].Restored? && s.knock != Some(c)
    requires var call := s.calls[c]; call.worker in s.reserve && s.reserve[call.worker] == call.sb.id
    ensures var call := s.calls[c];
            Reach(o, t) && t == s.(m := PutRecord(s.m, NowRunning(call.sb, call.worker, call.plan, UNSET)),
                                   reserve := s.reserve - {call.worker}, calls := s.calls - {c})
  {
    Then(o, s, Load(c, RecordStart(UNSET, true)));
    var s1 := RestoreApply(s, c, RecordStart(UNSET, true));
    Then(o, s1, Load(c, Clear));
    t := RestoreApply(s1, c, Clear);
    assert t.calls == s.calls - {c};
  }

  /** A Suspend from beginning to end. */
  lemma Suspends(o: System, s: System, c: int, id: string) returns (t: System)
    requires Reach(o, s) && c !in s.calls && s.knock == None
    requires id in s.m.records && s.m.records[id].id == id && s.m.records[id].state == Running
    requires Box(id) in Alive(s.m, s.m.records[id].worker)
    ensures var sb := s.m.records[id];
            Reach(o, t) && t == s.(m := PutRecord(Checkpointed(s.m, sb, true, Done), NowStopped(sb, true, UNSET)))
  {
    var sb := s.m.records[id];
    Then(o, s, Halt(c, StopStep.Stop(id, true)));
    var s1 := s.(knock := Some(c), calls := s.calls[c := Call.Stopping(Asked(id, true))]);
    Then(o, s1, Halt(c, ReadVictim));
    var s2 := s1.(calls := s1.calls[c := Call.Stopping(InFlight(sb, true))]);
    t := Seals(o, s2, c);
    assert t.calls == s.calls;
  }

  lemma Seals(o: System, s: System, c: int) returns (t: System)
    requires Reach(o, s) && c in s.calls && s.knock == Some(c)
    requires s.calls[c].Stopping? && s.calls[c].ck.InFlight? && s.calls[c].ck.upload && InSlot(s.m, s.calls[c].ck.sb)
    ensures var sb := s.calls[c].ck.sb;
            Reach(o, t) && t == s.(m := PutRecord(Checkpointed(s.m, sb, true, Done), NowStopped(sb, true, UNSET)),
                                   knock := None, calls := s.calls - {c})
  {
    var sb := s.calls[c].ck.sb;
    Then(o, s, Halt(c, SendCheckpoint(Done, false)));
    var n := Checkpointed(s.m, sb, true, Done);
    var s1 := s.(m := n, calls := s.calls[c := Call.Stopping(Taken(sb, true))]);
    Then(o, s1, Halt(c, RecordStop(UNSET)));
    t := StopApply(s1, c, RecordStop(UNSET));
    assert t.calls == s.calls - {c};
  }

  /** The golden template is built on a free Worker. */
  lemma BuildsGolden(o: System, s: System, c: int, w: string) returns (t: System)
    requires Reach(o, s) && s.calls == map[] && !s.m.goldenReady && s.knock == None
    requires w in s.m.hosts && s.m.hosts[w] == Host({}, map[])
    requires forall v :: v in s.m.hosts ==> s.m.hosts[v].alive == {}
    ensures Reach(o, t) && t == s.(m := PutGolden(s.m))
  {
    var s1 := Places(o, s, c, w);
    var s2 := Boots(o, s1, c);
    assert s2 == s.(calls := s.calls[c := Ensuring(Publishing)]);
    Then(o, s2, Build(c, PublishGolden(true, false)));
    t := GoldenApply(s2, c, PublishGolden(true, false));
    assert t.calls == s.calls;
  }

  lemma Places(o: System, s: System, c: int, w: string) returns (t: System)
    requires Reach(o, s) && c !in s.calls && !s.m.goldenReady && w in s.m.hosts
    ensures Reach(o, t) && t == s.(calls := s.calls[c := Ensuring(Booting(w))])
  {
    Then(o, s, Build(c, AskGolden));
    var s1 := s.(calls := s.calls[c := Ensuring(Placing)]);
    Then(o, s1, Build(c, PlaceGolden(w)));
    t := GoldenApply(s1, c, PlaceGolden(w));
    assert t.calls == s.calls[c := Ensuring(Booting(w))];
  }

  lemma Boots(o: System, s: System, c: int) returns (t: System)
    requires Reach(o, s) && c in s.calls && s.calls[c].Ensuring? && s.calls[c].golden.Booting?
    requires var w := s.calls[c].golden.worker; w in s.m.hosts && s.m.hosts[w] == Host({}, map[])
    requires FreshBoot(s, 0)
    ensures Reach(o, t) && t == s.(calls := s.calls[c := Ensuring(Publishing)])
  {
    var w := s.calls[c].golden.worker;
    Then(o, s, Build(c, BootGolden(0, true, false)));
    var s1 := s.(m := SetAlive(s.m, w, {} + {GoldenBoot(0)}), calls := s.calls[c := Ensuring(Sealing(w, 0))]);
    Then(o, s1, Build(c, SealGolden(true)));
    t := GoldenApply(s1, c, SealGolden(true));
    assert t.m.hosts == s.m.hosts by {
      assert ({} + {GoldenBoot(0)}) - {GoldenBoot(0)} == {};
    }
    assert t.calls == s.calls[c := Ensuring(Publishing)];
  }

  lemma Creates(o: System, s: System, id: string) returns (t: System)
    requires Reach(o, s) && id !in s.m.versions
    ensures var sb := Sandbox(id, Suspended, "", NoPath, NoKey, NoSnapshot, UNSET, UNSET);
            Reach(o, t) && t == s.(m := PutRecord(s.m, sb).(versions := s.m.versions[id := 0]))
  {
    Then(o, s, Api(Create(id, UNSET)));
    t := ApiApply(s, Create(id, UNSET));
  }

  // ----- the claims that fail -----

  function Empty(workers: set<string>): System {
    System(Machine(map[], map w | w in workers :: Host({}, map[]), map[], false, map[]), map[], None, map[])
  }

  /** Nothing in flight, the golden template there, and a Worker that never held anything. */
  predicate Settled(s: System) {
    s.calls == map[] && s.knock == None && s.reserve == map[] && s.m.goldenReady
  }

  predicate New(m: Machine, id: string) {
    && id in m.records && m.records[id].id == id && m.records[id].state == Suspended
    && m.records[id].source == NoSnapshot
  }

  /** A whole Resume in which status and reservations are read at once. */
  lemma Begins(o: System, s: System, c: int, id: string, w: string) returns (t: System)
    requires Reach(o, s) && Settled(s) && w in s.m.hosts && Alive(s.m, w) == {}
    requires id in s.m.records && s.m.records[id].id == id && s.m.records[id].state == Suspended
    ensures var sb := s.m.records[id];
            Reach(o, t) && t == s.(reserve := map[w := id], calls := map[c := Restoring(sb, w, RestorePlan(sb, w))])
  {
    t := Scans(o, s, c, id);
    Then(o, t, Admission(c, ViewAtOnce({w})));
    t := ResumeApply(t, c, ViewAtOnce({w}));
    t := Admits(o, t, c, w);
    assert t.reserve == map[w := id] && t.calls == map[c := t.calls[c]];
  }

  /** Status first, reservations after: between the two, another Resume claims the Worker, is recorded and
      drops its reservation. The second Resume is admitted to the Worker the first one runs on. */
  lemma SplitReadMeetsBusyWorker(o: System, s: System, a: string, b: string, w: string) returns (t: System)
    requires Reach(o, s) && Settled(s) && w in s.m.hosts && Alive(s.m, w) == {}
    requires New(s.m, a) && New(s.m, b) && a != b
    ensures Reach(o, t) && 2 in t.calls && t.calls[2].Restoring? && t.calls[2].worker == w && t.calls[2].sb.id == b
    ensures RunsOn(t.m, a, w) && !MayClaim(Alive(t.m, w), Box(b))
  {
    t := Begins(o, s, 1, a, w);
    t := Scans(o, t, 2, b);
    Then(o, t, Admission(2, ScanStatus(w)));
    t := ResumeApply(t, 2, ScanStatus(w));
    t := Loads(o, t, 1);
    t := Finishes(o, t, 1);
    Then(o, t, Admission(2, Mask));
    t := ResumeApply(t, 2, Mask);
    t := Admits(o, t, 2, w);
  }

  /** Wherever a Resume keeps a Worker that another sandbox has taken since it looked, it may go on to be admitted to it
      and find it busy - one it may be sent to, with the golden template there if it needs it. */
  lemma DisturbedMeetsBusyWorker(o: System, s: System, c: int, w: string, z: string) returns (t: System)
    requires Init(o) && Reach(o, s) && ResumeEnabled(s, c, Mask)
    requires s.calls[c].sb.state == Paused ==> w == s.calls[c].sb.worker
    requires NeedsGolden(s.calls[c].sb) ==> s.m.goldenReady
    requires w in Unreserved(s, s.calls[c].free, s.calls[c].sb.id) && Box(z) in Alive(s.m, w) && z != s.calls[c].sb.id
    ensures !StillFree(s, Admission(c, Mask))
    ensures Reach(o, t) && !RestoresAlone(t) && c in t.calls && t.calls[c].Restoring? && t.calls[c].worker == w
    ensures t.calls[c].sb == s.calls[c].sb && !MayClaim(Alive(t.m, w), Box(t.calls[c].sb.id))
  {
    ReachInv(o, s);
    Then(o, s, Admission(c, Mask));
    t := ResumeApply(s, c, Mask);
    t := Admits(o, t, c, w);
    TakenByOther(t, c, z);
  }

  lemma TakenByOther(s: System, c: int, z: string)
    requires OneEach(s.m) && c in s.calls && s.calls[c].Restoring? && z != s.calls[c].sb.id
    requires Box(z) in Alive(s.m, s.calls[c].worker)
    ensures !RestoresAlone(s) && !MayClaim(Alive(s.m, s.calls[c].worker), Box(s.calls[c].sb.id))
  {
    assert AtMostOne(Alive(s.m, s.calls[c].worker)) && Box(z) != Box(s.calls[c].sb.id);
    assert !Admissible(s, s.calls[c]);
  }

  /** Such states are reachable, so the race is real. */
  lemma RaceIsReachable(w: string) returns (t: System)
    requires w != ""
    ensures Init(Empty({w})) && Reach(Empty({w}), t)
    ensures exists c, a :: c in t.calls && t.calls[c].Restoring? && t.calls[c].worker == w
                           && t.calls[c].sb.id != a && RunsOn(t.m, a, w)
                           && !MayClaim(Alive(t.m, w), Box(t.calls[c].sb.id))
  {
    var o := Empty({w});
    Start(o);
    t := BuildsGolden(o, o, 0, w);
    t := Creates(o, t, "a");
    t := Creates(o, t, "b");
    t := SplitReadMeetsBusyWorker(o, t, "a", "b", w);
    assert t.calls[2].sb.id != "a";
  }

  lemma ReachInv(o: System, s: System)
    requires Init(o) && Reach(o, s)
    ensures Inv(s)
  {
    var actions :| Run(o, actions, s);
    InitInv(o);
    RunKeepsInv(o, actions, s);
  }

  /** A Resume that may not, or cannot, go on gives the mutex back and waits in the lobby again: refused by the policy,
      its victim gone, or nowhere to put the golden template. */
  lemma TriesAgain(o: System, s: System, c: int, a: Action)
    requires Reach(o, s) && c in s.calls && s.knock == Some(c)
    requires || (s.calls[c].Listed? && a == Admission(c, Leave(true)))
             || (s.calls[c].Evicting? && s.calls[c].ck.Asked? && a == Halt(c, MissVictim(true)))
             || (s.calls[c].Preparing? && s.calls[c].golden.Placing? && a == Build(c, GiveUp(true)))
    ensures Enabled(s, a) && Reach(o, Apply(s, a))
    ensures Apply(s, a) == s.(knock := None, calls := s.calls[c := Lobby(s.calls[c].sb)])
  {
    Then(o, s, a);
  }

  // ----- a resume that has to make room, and one that has to make the template -----

  /** One Worker's status and the reservations, then the running list. */
  lemma Looks(o: System, s: System, c: int, sb: Sandbox, w: string) returns (t: System)
    requires Reach(o, s) && c in s.calls && s.calls[c] == Scanning(sb, {}) && w in s.m.hosts && s.reserve == map[]
    ensures var free := if Alive(s.m, w) == {} then {w} else {};
            Reach(o, t) && t == s.(calls := s.calls[c := Listed(sb, free, RunningView(s.m))])
  {
    var free := if Alive(s.m, w) == {} then {w} else {};
    Then(o, s, Admission(c, ViewAtOnce({w})));
    var s1 := ResumeApply(s, c, ViewAtOnce({w}));
    assert s1.calls[c].free == free;
    Then(o, s1, Admission(c, ListRunning));
    t := ResumeApply(s1, c, ListRunning);
    assert t.calls == s.calls[c := Listed(sb, free, RunningView(s.m))];
  }

  lemma Picks(o: System, s: System, c: int, d: Decision, next: Call) returns (t: System)
    requires Reach(o, s) && ResumeEnabled(s, c, Decide(d))
    requires next == match d
                     case Admit(w) => Chosen(s.calls[c].sb, w)
                     case Preempt(v, w) => Evicting(s.calls[c].sb, w, Asked(v, true))
    ensures Reach(o, t) && t == s.(calls := s.calls[c := next])
  {
    Then(o, s, Admission(c, Decide(d)));
    t := ResumeApply(s, c, Decide(d));
  }

  lemma Takes(o: System, s: System, c: int) returns (t: System)
    requires Reach(o, s) && ResumeEnabled(s, c, Reserve) && s.knock == Some(c)
    ensures var sb, w := s.calls[c].sb, s.calls[c].worker;
            Reach(o, t) && t == s.(knock := None, reserve := s.reserve[w := sb.id],
                                   calls := s.calls[c := Restoring(sb, w, RestorePlan(sb, w))])
  {
    Then(o, s, Admission(c, Reserve));
    t := ResumeApply(s, c, Reserve);
  }

  /** A Resume that finds every Worker busy evicts somebody and takes its Worker: the victim ends suspended and
      uploaded, off the slot the newcomer holds the reservation of. */
  lemma EvictsAndTakes(o: System, s: System, a: string, b: string, w: string) returns (t: System)
    requires Init(o) && Reach(o, s) && Settled(s) && w in s.m.hosts && RunsOn(s.m, a, w) && Alive(s.m, w) == {Box(a)}
    requires b in s.m.records && s.m.records[b].state == Suspended && a != b
    ensures Reach(o, t) && t.calls == map[1 := Restoring(s.m.records[b], w, RestorePlan(s.m.records[b], w))]
    ensures t.knock == None && t.reserve == map[w := b] && Alive(t.m, w) == {}
    ensures a in t.m.records && t.m.records[a].state == Suspended && t.m.records[a].source == ExternalSnapshot
    ensures VersionOf(t.m, a) == VersionOf(s.m, a) + 1
    ensures Remote(t.m, SandboxKey(a)) == Some(Image(VersionOf(t.m, a), true))
  {
    ReachInv(o, s);
    assert RecordOk(s, a) && RecordOk(s, b);
    t := MakesRoom(o, s, a, b, w);
    SuspendedAfter(s.m, s.m.records[a]);
    t := TakesRoom(o, t, s.m.records[b], w);
  }

  lemma TakesRoom(o: System, s: System, sb: Sandbox, w: string) returns (t: System)
    requires Reach(o, s) && s.calls == map[1 := Chosen(sb, w)] && s.knock == Some(1) && s.m.goldenReady
    ensures Reach(o, t) && t == s.(knock := None, reserve := s.reserve[w := sb.id],
                                   calls := map[1 := Restoring(sb, w, RestorePlan(sb, w))])
  {
    t := Takes(o, s, 1);
    assert t.calls == map[1 := Restoring(sb, w, RestorePlan(sb, w))];
  }

  lemma MakesRoom(o: System, s: System, a: string, b: string, w: string) returns (t: System)
    requires Reach(o, s) && Settled(s) && w in s.m.hosts && RunsOn(s.m, a, w) && Alive(s.m, w) == {Box(a)} && a != b
    requires s.m.records[a].id == a
    requires b in s.m.records && s.m.records[b].id == b && s.m.records[b].state == Suspended
    ensures var sa, sb := s.m.records[a], s.m.records[b];
            Reach(o, t) && t == s.(m := PutRecord(Checkpointed(s.m, sa, true, Done), NowStopped(sa, true, UNSET)),
                                   knock := Some(1), calls := map[1 := Chosen(sb, w)])
  {
    var sb := s.m.records[b];
    t := Scans(o, s, 1, b);
    t := Looks(o, t, 1, sb, w);
    t := Picks(o, t, 1, Preempt(a, w), Evicting(sb, w, Asked(a, true)));
    t := Evicts(o, t, 1);
    assert t.calls == map[1 := Chosen(sb, w)];
  }

  lemma SuspendedAfter(m: Machine, sb: Sandbox)
    requires Alive(m, sb.worker) == {Box(sb.id)}
    ensures var n := PutRecord(Checkpointed(m, sb, true, Done), NowStopped(sb, true, UNSET));
            && Alive(n, sb.worker) == {} && VersionOf(n, sb.id) == VersionOf(m, sb.id) + 1
            && Remote(n, SandboxKey(sb.id)) == Some(Image(VersionOf(n, sb.id), true)) && n.goldenReady == m.goldenReady
  {
    assert {Box(sb.id)} - {Box(sb.id)} == {};
  }

  /** The eviction inside a Resume, up to the Worker it was for. */
  lemma Evicts(o: System, s: System, c: int) returns (t: System)
    requires Reach(o, s) && c in s.calls && s.calls[c].Evicting? && s.calls[c].ck.Asked?
    requires var id := s.calls[c].ck.victim;
             id in s.m.records && s.m.records[id].id == id && s.m.records[id].state == Running
             && InSlot(s.m, s.m.records[id])
    ensures var sb, call := s.m.records[s.calls[c].ck.victim], s.calls[c];
            Reach(o, t) && t == s.(m := PutRecord(Checkpointed(s.m, sb, call.ck.upload, Done),
                                                  NowStopped(sb, call.ck.upload, UNSET)),
                                   calls := s.calls[c := Chosen(call.sb, call.worker)])
  {
    var call := s.calls[c];
    var sb, upload := s.m.records[call.ck.victim], call.ck.upload;
    Then(o, s, Halt(c, ReadVictim));
    t := s.(calls := s.calls[c := Evicting(call.sb, call.worker, InFlight(sb, upload))]);
    t := EvictionSent(o, t, c);
    Then(o, t, Halt(c, RecordStop(UNSET)));
    t := StopApply(t, c, RecordStop(UNSET));
    assert t.calls == s.calls[c := Chosen(call.sb, call.worker)];
  }

  lemma EvictionSent(o: System, s: System, c: int) returns (t: System)
    requires Reach(o, s) && c in s.calls && s.calls[c].Evicting? && s.calls[c].ck.InFlight?
    requires InSlot(s.m, s.calls[c].ck.sb)
    ensures var call, ck := s.calls[c], s.calls[c].ck;
            Reach(o, t) && t == s.(m := Checkpointed(s.m, ck.sb, ck.upload, Done),
                                   calls := s.calls[c := Evicting(call.sb, call.worker, Taken(ck.sb, ck.upload))])
  {
    Then(o, s, Halt(c, SendCheckpoint(Done, false)));
    t := StopApply(s, c, SendCheckpoint(Done, false));
  }

  /** The first Resume of all builds the golden template itself, on the Worker it was given, and then restores from it:
      reached from an empty system with one Worker. */
  lemma ColdStart(w: string) returns (t: System)
    requires w != ""
    ensures Init(Empty({w})) && Reach(Empty({w}), t)
    ensures t.calls == map[] && t.reserve == map[] && t.m.goldenReady && exists id :: RunsOn(t.m, id, w)
  {
    var o := Empty({w});
    Start(o);
    t := Creates(o, o, "a");
    var sb := t.m.records["a"];
    t := Scans(o, t, 1, "a");
    t := Looks(o, t, 1, sb, w);
    t := Picks(o, t, 1, Admit(w), Chosen(sb, w));
    t := Prepares(o, t, 1);
    t := Takes(o, t, 1);
    t := Loads(o, t, 1);
    t := Finishes(o, t, 1);
    assert RunsOn(t.m, "a", w) && t.calls == map[] && t.reserve == map[];
  }

  /** EnsureGolden inside a Resume, on the Worker chosen for it, which is empty. */
  lemma Prepares(o: System, s: System, c: int) returns (t: System)
    requires Reach(o, s) && c in s.calls && s.calls[c].Chosen? && NeedsGolden(s.calls[c].sb) && !s.m.goldenReady
    requires s.calls[c].worker in s.m.hosts && s.m.hosts[s.calls[c].worker] == Host({}, map[])
    requires forall b :: b in s.calls && b != c ==> GoldenOf(s.calls[b]).None?
    requires forall v :: v in s.m.hosts ==> s.m.hosts[v].alive == {}
    ensures Reach(o, t) && t == s.(m := PutGolden(s.m))
  {
    var sb, w := s.calls[c].sb, s.calls[c].worker;
    t := PlacesInside(o, s, c);
    t := BootsInside(o, t, c);
    Then(o, t, Build(c, PublishGolden(true, false)));
    t := GoldenApply(t, c, PublishGolden(true, false));
    assert t.calls == s.calls;
  }

  lemma PlacesInside(o: System, s: System, c: int) returns (t: System)
    requires Reach(o, s) && c in s.calls && s.calls[c].Chosen? && NeedsGolden(s.calls[c].sb) && !s.m.goldenReady
    requires s.calls[c].worker in s.m.hosts
    ensures var sb, w := s.calls[c].sb, s.calls[c].worker;
            Reach(o, t) && t == s.(calls := s.calls[c := Preparing(sb, w, Booting(w))])
  {
    var sb, w := s.calls[c].sb, s.calls[c].worker;
    Then(o, s, Admission(c, NeedGolden));
    t := s.(calls := s.calls[c := Preparing(sb, w, Placing)]);
    Then(o, t, Build(c, PlaceGolden(w)));
    t := GoldenApply(t, c, PlaceGolden(w));
    assert t.calls == s.calls[c := Preparing(sb, w, Booting(w))];
  }

  lemma BootsInside(o: System, s: System, c: int) returns (t: System)
    requires Reach(o, s) && c in s.calls && s.calls[c].Preparing? && s.calls[c].golden.Booting?
    requires var w := s.calls[c].golden.worker; w in s.m.hosts && s.m.hosts[w] == Host({}, map[])
    requires FreshBoot(s, 0)
    ensures Reach(o, t) && t == s.(calls := s.calls[c := Preparing(s.calls[c].sb, s.calls[c].worker, Publishing)])
  {
    var call, w := s.calls[c], s.calls[c].golden.worker;
    Then(o, s, Build(c, BootGolden(0, true, false)));
    var s1 := s.(m := SetAlive(s.m, w, {} + {GoldenBoot(0)}),
                 calls := s.calls[c := Preparing(call.sb, call.worker, Sealing(w, 0))]);
    Then(o, s1, Build(c, SealGolden(true)));
    t := GoldenApply(s1, c, SealGolden(true));
    assert t.m.hosts == s.m.hosts by {
      assert ({} + {GoldenBoot(0)}) - {GoldenBoot(0)} == {};
    }
    assert t.calls == s.calls[c := Preparing(call.sb, call.worker, Publishing)];
  }

  // ----- slots that leak -----

  /** A restore whose record is not written leaves its sandbox in the slot, recorded as it was before, with no call in
      flight. */
  lemma UnrecordedLeaks(o: System, s: System, id: string, w: string) returns (t: System)
    requires Init(o) && Reach(o, s) && Settled(s) && w in s.m.hosts && Alive(s.m, w) == {}
    requires New(s.m, id) && Dir(w, id) !in Images(s.m, w)
    ensures Reach(o, t) && t.calls == map[] && t.m.records == s.m.records && Unowned(t, Box(id), w)
  {
    ReachInv(o, s);
    var sb := s.m.records[id];
    t := Begins(o, s, 1, id, w);
    assert Remote(s.m, RestorePlan(sb, w).key).Some?;
    t := Loads(o, t, 1);
    Then(o, t, Load(1, RecordStart(UNSET, false)));
    t := RestoreApply(t, 1, RecordStart(UNSET, false));
    Then(o, t, Load(1, Clear));
    t := RestoreApply(t, 1, Clear);
    assert t.calls == map[];
  }

  /** Such a state is reached from an empty system with one Worker, and needs just that one failure. */
  lemma LeakIsReachable(w: string) returns (t: System)
    requires w != ""
    ensures Init(Empty({w})) && Reach(Empty({w}), t)
    ensures t.calls == map[]
    ensures exists id :: id in t.m.records && t.m.records[id].state == Suspended && Unowned(t, Box(id), w)
  {
    var o := Empty({w});
    Start(o);
    t := BuildsGolden(o, o, 0, w);
    t := Creates(o, t, "a");
    t := UnrecordedLeaks(o, t, "a", w);
    assert t.m.records["a"].state == Suspended;
  }

  /** From a reachable state on, a Worker whose slot has a leaked golden boot, or a leaked sandbox that is gone, never
      takes anybody else. */
  lemma DeadSlot(o: System, t: System, x: Occupant, w: string)
    requires Init(o) && Reach(o, t) && Unowned(t, x, w) && (x.Box? ==> Gone(t, x.id))
    ensures forall u, y :: Reach(t, u) && y != x ==> !MayClaim(Alive(u.m, w), y)
  {
    var actions :| Run(o, actions, t);
    LeaksFromInit(o, actions, t);
    forall u, y | Reach(t, u) && y != x
      ensures !MayClaim(Alive(u.m, w), y)
    {
      var more :| Run(t, more, u);
      LeakIsForGood(o, actions, t, more, u, x, w);
    }
  }

  /** The delete of a running sandbox whose request to the Worker fails takes that Worker away for good, unless a
      checkpoint of the sandbox is under way. */
  lemma LostDeleteIsForGood(o: System, s: System, id: string)
    requires Init(o) && Reach(o, s) && id in s.m.records && s.m.records[id].state == Running
    requires forall c :: c in s.calls ==> !Stops(s.calls[c], id)
    ensures ApiEnabled(s, Delete(id, false))
    ensures var t, w := ApiApply(s, Delete(id, false)), s.m.records[id].worker;
            forall u, y :: Reach(t, u) && y != Box(id) ==> !MayClaim(Alive(u.m, w), y)
  {
    ReachInv(o, s);
    LosesSlot(s, id);
    Then(o, s, Api(Delete(id, false)));
    DeletedIsGone(s, id, false);
    DeadSlot(o, ApiApply(s, Delete(id, false)), Box(id), s.m.records[id].worker);
  }

  lemma LosesSlot(s: System, id: string)
    requires Inv(s) && id in s.m.records && s.m.records[id].state == Running
    requires forall c :: c in s.calls ==> !Stops(s.calls[c], id)
    ensures ApiEnabled(s, Delete(id, false))
    ensures Unowned(ApiApply(s, Delete(id, false)), Box(id), s.m.records[id].worker)
  {
    assert RecordOk(s, id);
    if MidStop(s, id) {
      var c := s.knock.value;
      assert c in s.calls && Stops(s.calls[c], id);
      assert false;
    }
    var t, x, w := ApiApply(s, Delete(id, false)), Box(id), s.m.records[id].worker;
    assert t.m == Deleted(s.m, id, false);
    DeletedSlots(s.m, id, false);
    NobodyFills(s, id);
    assert x in Alive(t.m, w) && !RecordOwns(t.m, x, w);
    assert forall c :: c in t.calls ==> !CallOwns(t.calls[c], x, w);
  }

  /** A golden boot whose checkpoint fails, and whose cleanup fails too, takes its Worker away for good: reached from an
      empty system with one Worker. */
  lemma BootLeakIsReachable(w: string) returns (t: System)
    requires w != ""
    ensures Init(Empty({w})) && Reach(Empty({w}), t) && t.calls == map[]
    ensures forall u, z :: Reach(t, u) ==> !MayClaim(Alive(u.m, w), Box(z))
  {
    var o := Empty({w});
    Start(o);
    t := Places(o, o, 0, w);
    t := AbandonsBoot(o, t, 0);
    assert t.calls == map[];
    assert Unowned(t, GoldenBoot(0), w);
    DeadSlot(o, t, GoldenBoot(0), w);
  }

  lemma AbandonsBoot(o: System, s: System, c: int) returns (t: System)
    requires Reach(o, s) && c in s.calls && s.calls[c].Ensuring? && s.calls[c].golden.Booting? && s.knock == None
    requires Alive(s.m, s.calls[c].golden.worker) == {} && FreshBoot(s, 0)
    ensures var w := s.calls[c].golden.worker;
            Reach(o, t) && t == s.(m := SetAlive(s.m, w, {GoldenBoot(0)}), calls := s.calls - {c})
  {
    var w := s.calls[c].golden.worker;
    Then(o, s, Build(c, BootGolden(0, true, false)));
    var s1 := s.(m := SetAlive(s.m, w, {GoldenBoot(0)}), calls := s.calls[c := Ensuring(Sealing(w, 0))]);
    assert {} + {GoldenBoot(0)} == {GoldenBoot(0)};
    Then(o, s1, Build(c, SealGolden(false)));
    var s2 := s1.(calls := s1.calls[c := Ensuring(Cleaning(w, 0))]);
    Then(o, s2, Build(c, CleanGolden(false, false)));
    t := GoldenApply(s2, c, CleanGolden(false, false));
    assert t.calls == s.calls - {c};
  }

  // ----- a lost record -----

  /** What happens if the record after a checkpoint is not written, which no step of the model does: the record says
      running, the slot is empty, and nobody is about to write it. */
  lemma LostStopLeavesSlotEmpty(o: System, s: System, c: int, at: Time, retry: bool)
    requires Init(o) && Reach(o, s) && StopEnabled(s, c, RecordStop(at))
    ensures var t, id := Exit(s, c, retry), CheckpointOf(s.calls[c]).value.sb.id;
            !InSlot(t.m, CheckpointOf(s.calls[c]).value.sb) && !MidStop(t, id)
            && (id in s.m.records ==> RecordedRunning(t.m, id) && !InSlot(t.m, t.m.records[id]))
  {
    ReachInv(o, s);
    assert CallOk(s.m, s.calls[c]);
  }

  // ----- stale images -----

  /** A suspended sandbox resumes on an idle Worker that has no directory for it. */
  lemma Arrives(o: System, s: System, id: string, w: string) returns (t: System)
    requires Init(o) && Reach(o, s) && Settled(s) && w in s.m.hosts && Alive(s.m, w) == {}
    requires id in s.m.records && s.m.records[id].state == Suspended && Dir(w, id) !in Images(s.m, w)
    ensures Reach(o, t) && Settled(t) && t.m.hosts.Keys == s.m.hosts.Keys
    ensures RunsOn(t.m, id, w) && t.m.records[id].id == id && VersionOf(t.m, id) == VersionOf(s.m, id)
    ensures forall v :: Alive(t.m, v) == if v == w then {Box(id)} else Alive(s.m, v)
    ensures forall v :: v != w ==> Images(t.m, v) == Images(s.m, v)
  {
    ReachInv(o, s);
    var sb := s.m.records[id];
    assert RecordOk(s, id);
    t := Begins(o, s, 1, id, w);
    assert Remote(s.m, RestorePlan(sb, w).key).Some?;
    t := Loads(o, t, 1);
    t := Finishes(o, t, 1);
    assert map[w := id] - {w} == map[];
  }

  /** A running sandbox is suspended, leaving its next version behind. */
  lemma Departs(o: System, s: System, id: string, w: string) returns (t: System)
    requires Init(o) && Reach(o, s) && Settled(s) && w in s.m.hosts && Alive(s.m, w) == {Box(id)}
    requires RunsOn(s.m, id, w) && s.m.records[id].id == id
    ensures Reach(o, t) && Settled(t) && t.m.hosts.Keys == s.m.hosts.Keys
    ensures id in t.m.records && t.m.records[id].state == Suspended && t.m.records[id].worker == w
    ensures t.m.records[id].id == id && VersionOf(t.m, id) == VersionOf(s.m, id) + 1
    ensures forall v :: Alive(t.m, v) == if v == w then {} else Alive(s.m, v)
    ensures forall v :: Images(t.m, v) == if v != w then Images(s.m, v)
                                          else Images(s.m, w)[Dir(w, id) := Image(VersionOf(t.m, id), true)]
  {
    ReachInv(o, s);
    var sb := s.m.records[id];
    t := Suspends(o, s, 2, id);
    CheckpointFrame(s.m, sb, true, Done);
    assert {Box(id)} - {Box(id)} == {};
  }

  /** Back on the Worker it first ran on, a suspended sandbox is given that Worker's old directory although
      a newer checkpoint was written, and uploaded, elsewhere. */
  lemma ReturnIsStale(o: System, s: System, id: string, v: string, w: string) returns (t: System)
    requires Init(o) && Reach(o, s) && Settled(s) && v in s.m.hosts && w in s.m.hosts && v != w
    requires Alive(s.m, v) == {} && Alive(s.m, w) == {} && New(s.m, id)
    requires Dir(v, id) !in Images(s.m, v) && Dir(w, id) !in Images(s.m, w)
    ensures Reach(o, t) && 1 in t.calls && t.calls[1].Restored? && t.calls[1].sb.id == id
    ensures t.calls[1].wasLocal && t.calls[1].image.version < VersionOf(t.m, id)
  {
    var s1 := Arrives(o, s, id, v);
    var s2 := Departs(o, s1, id, v);
    var s3 := Arrives(o, s2, id, w);
    var s4 := Departs(o, s3, id, w);
    assert Images(s4.m, v)[Dir(v, id)].version < VersionOf(s4.m, id);
    ReachInv(o, s4);
    assert RecordOk(s4, id);
    t := Begins(o, s4, 1, id, v);
    assert t.calls[1].plan.dir == Dir(v, id);
    t := Loads(o, t, 1);
  }

  /** Such a run exists from an empty system with two Workers. */
  lemma StaleIsReachable(v: string, w: string) returns (t: System)
    requires v != "" && w != "" && v != w
    ensures Init(Empty({v, w})) && Reach(Empty({v, w}), t)
    ensures exists c :: c in t.calls && t.calls[c].Restored? && t.calls[c].wasLocal
                        && t.calls[c].image.version < VersionOf(t.m, t.calls[c].sb.id)
  {
    var o := Empty({v, w});
    Start(o);
    t := BuildsGolden(o, o, 0, w);
    t := Creates(o, t, "a");
    t := ReturnIsStale(o, t, "a", v, w);
    assert t.calls[1].Restored?;
  }
}
