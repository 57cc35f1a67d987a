/** The protocol's guarantees, over every run from an empty system. */
module ProtocolTheorems {
  import opened Types
  import opened WorkerAgent
  import opened Protocol
  import opened ProtocolSafety
  import opened ProtocolAdmission
  import opened ProtocolRestores
  import opened ProtocolOwnership
  import opened ProtocolHosts
  import opened ProtocolDownloads

  predicate RecordedRunning(m: Machine, id: string) {
    id in m.records && m.records[id].state == Running
  }

  // ----- pigeonhole -----

  /** Sandboxes on pairwise different Workers are no more than the Workers. */
  lemma {:induction false} Pigeonhole(ids: set<string>, place: map<string, string>, holes: set<string>)
    requires ids <= place.Keys && forall id :: id in ids ==> place[id] in holes
    requires forall a, b :: a in ids && b in ids && place[a] == place[b] ==> a == b
    ensures |ids| <= |holes|
    decreases |ids|
  {
    if ids != {} {
      var id :| id in ids;
      Pigeonhole(ids - {id}, place, holes - {place[id]});
    }
  }

  // ----- any interleaving -----

  /** In every reachable state a Worker's slot has at most one occupant, and every sandbox recorded
      running is in the slot of its Worker, but for the one the mutex holder is stopping. So no two
      others share a Worker, and there are no more of them than Workers. */
  lemma SlotSafety(s: System, actions: seq<Action>, t: System)
    requires Init(s) && Run(s, actions, t)
    ensures forall w :: AtMostOne(Alive(t.m, w))
    ensures forall id :: RecordedRunning(t.m, id) && !MidStop(t, id) ==> InSlot(t.m, t.m.records[id])
    ensures forall a, b | RecordedRunning(t.m, a) && RecordedRunning(t.m, b) && !MidStop(t, a) && !MidStop(t, b) ::
              t.m.records[a].worker == t.m.records[b].worker ==> a == b
    ensures t.m.hosts.Keys == s.m.hosts.Keys
    ensures |set id | id in t.m.records && RecordedRunning(t.m, id) && !MidStop(t, id)| <= |s.m.hosts|
  {
    InitInv(s);
    RunKeepsInv(s, actions, t);
    RunKeepsHosts(s, actions, t);
    forall id | RecordedRunning(t.m, id) && !MidStop(t, id)
      ensures InSlot(t.m, t.m.records[id])
    {
      assert RecordOk(t, id);
    }
    forall a, b | RecordedRunning(t.m, a) && RecordedRunning(t.m, b) && !MidStop(t, a) && !MidStop(t, b)
                  && t.m.records[a].worker == t.m.records[b].worker
      ensures a == b
    {
      assert RecordOk(t, a) && RecordOk(t, b);
      assert AtMostOne(Alive(t.m, t.m.records[a].worker));
      assert Box(a) == Box(b);
    }
    var ids := set id | id in t.m.records && RecordedRunning(t.m, id) && !MidStop(t, id);
    Pigeonhole(ids, map id | id in t.m.records :: t.m.records[id].worker, t.m.hosts.Keys);
  }

  /** Snapshot freshness: no restore reads an image newer than the last successful checkpoint, and it reads exactly
      that one if and only if no directory suppressed the download, or the Worker wrote that checkpoint - always so for
      a paused sandbox - or it downloaded it whole since. */
  lemma SnapshotFreshness(s: System, actions: seq<Action>, t: System, c: int)
    requires Init(s) && Run(s, actions, t) && c in t.calls && t.calls[c].Restored?
    ensures var call := t.calls[c];
            var last := VersionOf(t.m, call.sb.id);
            var here := Download(call.sb.id, call.worker) in DownloadsAfter(s, actions, {});
            && call.image.version <= last
            && (call.image == Image(last, true) <==> !call.wasLocal || call.sb.worker == call.worker || here)
            && (call.sb.state == Paused ==> call.sb.worker == call.worker)
            && (!call.wasLocal ==> here)
  {
    InitInv(s);
    RunKeepsInv(s, actions, t);
    RunKeepsSpreads(s, {}, actions, t);
    var call := t.calls[c];
    assert CallOk(t.m, call) && CallSpread(t.m, DownloadsAfter(s, actions, {}), call);
    assert HoldsLatest(t.m, call.sb.id, call.worker) <==> call.image == Image(VersionOf(t.m, call.sb.id), true);
  }

  /** Lifecycle coupling: paused goes with a local source, suspended with none or an external one under
      the sandbox's own key, and no source with never having been checkpointed. */
  lemma Lifecycle(s: System, actions: seq<Action>, t: System, id: string)
    requires Init(s) && Run(s, actions, t) && id in t.m.records
    ensures var sb := t.m.records[id];
            && sb.id == id && sb.state != Deleting
            && (sb.state == Paused ==> sb.source == LocalSnapshot)
            && (sb.state == Suspended ==>
                  sb.source == NoSnapshot || (sb.source == ExternalSnapshot && sb.key == SandboxKey(id)))
            && (sb.state != Running ==> (NeedsGolden(sb) <==> VersionOf(t.m, id) == 0))
  {
    InitInv(s);
    RunKeepsInv(s, actions, t);
    assert RecordOk(t, id);
  }

  /** A restore under way reads from its Worker's own directory for the sandbox, and names the golden
      template exactly when the sandbox was never successfully checkpointed. */
  lemma RestoreSource(s: System, actions: seq<Action>, t: System, c: int)
    requires Init(s) && Run(s, actions, t) && c in t.calls && InRestore(t.calls[c])
    ensures var call := t.calls[c];
            && call.plan.dir == Dir(call.worker, call.sb.id)
            && (call.plan.key == GoldenKey <==> VersionOf(t.m, call.sb.id) == 0)
            && (call.sb.state == Paused ==> call.plan.key == NoKey && call.worker == call.sb.worker)
  {
    InitInv(s);
    RunKeepsInv(s, actions, t);
    assert CallOk(t.m, t.calls[c]);
  }

  /** Leaks: the occupied slots without an owner - nobody recorded running there, no restore that filled it, no call
      sealing a golden boot in it - are exactly those the history of failures names. A reservation belongs to a Resume
      still in flight. Without a failure of the three kinds nothing leaks. */
  lemma NoLeak(s: System, actions: seq<Action>, t: System)
    requires Init(s) && Run(s, actions, t)
    ensures forall w, z :: Leak(Box(z), w) in LeakedAfter(s, actions, {}) <==>
              && Box(z) in Alive(t.m, w) && !RunsOn(t.m, z, w)
              && forall c :: c in t.calls ==> !Fills(t.calls[c], z, w)
    ensures forall w, b :: Leak(GoldenBoot(b), w) in LeakedAfter(s, actions, {}) <==>
              GoldenBoot(b) in Alive(t.m, w) && forall c :: c in t.calls ==> !Seals(t.calls[c], b, w)
    ensures forall w :: w in t.reserve ==> exists c :: c in t.calls && Reserves(t.calls[c], t.reserve[w], w)
    ensures (forall i :: 0 <= i < |actions| ==> !LeavesBehind(actions[i])) ==> LeakedAfter(s, actions, {}) == {}
  {
    LeaksFromInit(s, actions, t);
    var had := LeakedAfter(s, actions, {});
    forall w, z
      ensures Leak(Box(z), w) in had <==>
                && Box(z) in Alive(t.m, w) && !RunsOn(t.m, z, w)
                && forall c :: c in t.calls ==> !Fills(t.calls[c], z, w)
    {
      assert Unowned(t, Box(z), w) <==> Leak(Box(z), w) in had;
      assert forall c :: c in t.calls ==> (CallOwns(t.calls[c], Box(z), w) <==> Fills(t.calls[c], z, w));
    }
    forall w, b
      ensures Leak(GoldenBoot(b), w) in had <==>
                GoldenBoot(b) in Alive(t.m, w) && forall c :: c in t.calls ==> !Seals(t.calls[c], b, w)
    {
      assert Unowned(t, GoldenBoot(b), w) <==> Leak(GoldenBoot(b), w) in had;
      assert forall c :: c in t.calls ==> (CallOwns(t.calls[c], GoldenBoot(b), w) <==> Seals(t.calls[c], b, w));
    }
    forall w | w in t.reserve
      ensures exists c :: c in t.calls && Reserves(t.calls[c], t.reserve[w], w)
    {
      assert ReservationOwned(t, w);
    }
    if forall i :: 0 <= i < |actions| ==> !LeavesBehind(actions[i]) {
      NothingLeaks(s, actions);
    }
  }

  lemma LeaksFromInit(s: System, actions: seq<Action>, t: System)
    requires Init(s) && Run(s, actions, t)
    ensures Inv(t) && Exact(t, LeakedAfter(s, actions, {})) && SealsHeld(t) && Reserved(t)
  {
    InitInv(s);
    forall o, w
      ensures !Unowned(s, o, w)
    {
      assert Alive(s.m, w) == {};
    }
    RunKeepsExact(s, {}, actions, t);
  }

  /** Some leaks are for good: a slot with a leaked golden boot, or with a leaked sandbox that is gone, is never given
      back, whatever happens later, and no other occupant gets in. */
  lemma LeakIsForGood(s: System, actions: seq<Action>, t: System, more: seq<Action>, u: System, o: Occupant, w: string)
    requires Init(s) && Run(s, actions, t) && Run(t, more, u)
    requires Leak(o, w) in LeakedAfter(s, actions, {}) && (o.Box? ==> Gone(t, o.id))
    ensures o in Alive(u.m, w) && forall x :: x != o ==> !MayClaim(Alive(u.m, w), x)
  {
    LeaksFromInit(s, actions, t);
    var had := LeakedAfter(s, actions, {});
    RunKeepsExact(t, had, more, u);
    match o {
      case GoldenBoot(b) => BootStaysLeaked(t, more, had, b, w);
      case Box(z) => BoxStaysLeaked(t, more, had, z, w);
    }
    assert Unowned(u, o, w);
    assert AtMostOne(Alive(u.m, w));
  }

  // ----- interleavings in which every reservation takes a free Worker -----

  ghost predicate OneRunner(m: Machine) {
    forall a, b | RecordedRunning(m, a) && RecordedRunning(m, b) ::
      m.records[a].worker == m.records[b].worker ==> a == b
  }

  lemma KeepsOneRunner(s: System, a: Action)
    requires Inv(s) && RestoresAlone(s) && OneRunner(s.m) && Enabled(s, a)
    ensures OneRunner(Apply(s, a).m)
  {
    match a
    case Api(step) => ApiKeepsOneRunner(s, step);
    case Admission(c, step) => ResumeKeepsMachine(s, c, step);
    case Load(c, step) => RestoreKeepsOneRunner(s, c, step);
    case Halt(c, step) => HaltKeepsOneRunner(s, c, step);
    case Build(c, step) => BuildRecords(s, c, step);
  }

  lemma ApiKeepsOneRunner(s: System, step: ApiStep)
    requires OneRunner(s.m) && ApiEnabled(s, step)
    ensures OneRunner(ApiApply(s, step).m)
  {
  }

  lemma ResumeKeepsMachine(s: System, c: int, step: ResumeStep)
    requires ResumeEnabled(s, c, step)
    ensures ResumeApply(s, c, step).m == s.m
  {
  }

  lemma RestoreKeepsOneRunner(s: System, c: int, step: RestoreStep)
    requires Inv(s) && RestoresAlone(s) && OneRunner(s.m) && RestoreEnabled(s, c, step)
    ensures OneRunner(RestoreApply(s, c, step).m)
  {
    assert Admissible(s, s.calls[c]);
    if step.RecordStart? && step.stored {
      var call, n := s.calls[c], RestoreApply(s, c, step).m;
      assert forall z :: z != call.sb.id && RecordedRunning(n, z) ==> !RunsOn(s.m, z, call.worker);
    }
  }

  lemma HaltKeepsOneRunner(s: System, c: int, step: StopStep)
    requires OneRunner(s.m) && StopEnabled(s, c, step)
    ensures OneRunner(StopApply(s, c, step).m)
  {
  }

  lemma {:induction false} RunKeepsOneRunner(s: System, actions: seq<Action>, t: System)
    requires Inv(s) && RestoresAlone(s) && OneRunner(s.m) && Run(s, actions, t) && ReservesFree(s, actions)
    ensures OneRunner(t.m)
    decreases |actions|
  {
    if actions != [] {
      KeepsInv(s, actions[0]);
      KeepsAlone(s, actions[0]);
      KeepsOneRunner(s, actions[0]);
      RunKeepsOneRunner(Apply(s, actions[0]), actions[1..], t);
    }
  }

  /** Exclusive admission: no two sandboxes at all are recorded running on one Worker - so, stopping or not, they are no
      more than the Workers - no Worker is restored onto twice, and an admitted restore finds its Worker's slot closed
      exactly when a golden boot is in it, never because of another sandbox. */
  lemma ExclusiveAdmission(s: System, actions: seq<Action>, t: System)
    requires Init(s) && Run(s, actions, t) && ReservesFree(s, actions)
    ensures |set id | id in t.m.records && RecordedRunning(t.m, id)| <= |s.m.hosts|
    ensures forall a, b | RecordedRunning(t.m, a) && RecordedRunning(t.m, b) ::
              t.m.records[a].worker == t.m.records[b].worker ==> a == b
    ensures forall b, c | b in t.calls && c in t.calls && InRestore(t.calls[b]) && InRestore(t.calls[c]) ::
              t.calls[b].worker == t.calls[c].worker ==> b == c
    ensures forall c :: c in t.calls && InRestore(t.calls[c]) ==>
              OnlyFor(t.m, t.calls[c].worker, t.calls[c].sb.id)
    ensures forall c :: c in t.calls && t.calls[c].Restoring? ==>
              (MayClaim(Alive(t.m, t.calls[c].worker), Box(t.calls[c].sb.id)) <==>
               forall g :: GoldenBoot(g) !in Alive(t.m, t.calls[c].worker))
  {
    InitInv(s);
    RunKeepsAlone(s, actions, t);
    RunKeepsOneRunner(s, actions, t);
    RunKeepsHosts(s, actions, t);
    RunnersFit(t);
    forall b, c | b in t.calls && c in t.calls && InRestore(t.calls[b]) && InRestore(t.calls[c])
                  && t.calls[b].worker == t.calls[c].worker
      ensures b == c
    {
      OneRestore(t, b, c);
    }
    forall c | c in t.calls && InRestore(t.calls[c])
      ensures OnlyFor(t.m, t.calls[c].worker, t.calls[c].sb.id)
      ensures MayClaim(Alive(t.m, t.calls[c].worker), Box(t.calls[c].sb.id)) <==>
              forall g :: GoldenBoot(g) !in Alive(t.m, t.calls[c].worker)
    {
      RestoreMeets(t, c);
    }
  }

  lemma RestoreMeets(t: System, c: int)
    requires OneEach(t.m) && RestoresAlone(t) && c in t.calls && InRestore(t.calls[c])
    ensures var sb, w := t.calls[c].sb, t.calls[c].worker;
            OnlyFor(t.m, w, sb.id)
            && (MayClaim(Alive(t.m, w), Box(sb.id)) <==> forall g :: GoldenBoot(g) !in Alive(t.m, w))
  {
    assert Admissible(t, t.calls[c]);
    SlotByGolden(t.m, t.calls[c].worker, t.calls[c].sb.id);
  }

  lemma RunnersFit(t: System)
    requires Inv(t) && Known(t) && OneRunner(t.m)
    ensures |set id | id in t.m.records && RecordedRunning(t.m, id)| <= |t.m.hosts|
  {
    var ids := set id | id in t.m.records && RecordedRunning(t.m, id);
    forall id | id in ids
      ensures t.m.records[id].worker in t.m.hosts
    {
      assert RecordOk(t, id);
    }
    Pigeonhole(ids, map id | id in t.m.records :: t.m.records[id].worker, t.m.hosts.Keys);
  }

  lemma SlotByGolden(m: Machine, w: string, id: string)
    requires OneEach(m) && OnlyFor(m, w, id)
    ensures MayClaim(Alive(m, w), Box(id)) <==> forall g :: GoldenBoot(g) !in Alive(m, w)
  {
    var alive := Alive(m, w);
    assert AtMostOne(alive);
    if alive != {} {
      var o :| o in alive;
      match o
      case Box(z) =>
      case GoldenBoot(g) => assert GoldenBoot(g) in alive;
    }
  }
}
