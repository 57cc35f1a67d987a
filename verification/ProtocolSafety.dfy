/** What every step of the Worker-slot protocol keeps, whatever the interleaving. */
module ProtocolSafety {
  import opened Types
  import opened WorkerAgent
  import opened Protocol

  // ----- facts about one sandbox id -----

  /** No directory of `id`, on any Worker, holds an image newer than `bound`. */
  ghost predicate ImagesUpTo(m: Machine, id: string, bound: nat) {
    forall w, d :: Dir(d, id) in Images(m, w) ==> Images(m, w)[Dir(d, id)].version <= bound
  }

  /** The directory the last checkpoint was written to still holds it. */
  predicate HasLatest(m: Machine, sb: Sandbox) {
    var dir := Dir(sb.worker, sb.id);
    dir in Images(m, sb.worker) && Images(m, sb.worker)[dir] == Image(VersionOf(m, sb.id), true)
  }

  predicate Uploaded(m: Machine, sb: Sandbox) {
    sb.id in m.objects && m.objects[sb.id] == Image(VersionOf(m, sb.id), true)
  }

  /** Lifecycle coupling of a sandbox at rest: paused means a local source, suspended none or an
      external one under its own key, and no source exactly before the first checkpoint. */
  ghost predicate Rested(m: Machine, sb: Sandbox) {
    && sb.id in m.versions && sb.state in {Suspended, Paused}
    && (sb.state == Paused <==> sb.source == LocalSnapshot)
    && (sb.source == NoSnapshot <==> VersionOf(m, sb.id) == 0)
    && (sb.source == ExternalSnapshot ==> sb.key == SandboxKey(sb.id) && Uploaded(m, sb))
    && (sb.source == NoSnapshot ==> sb.worker == "")
    && (sb.source != NoSnapshot ==> sb.worker != "" && sb.path == Dir(sb.worker, sb.id) && HasLatest(m, sb))
    && ImagesUpTo(m, sb.id, VersionOf(m, sb.id))
  }

  /** A record that says running. */
  ghost predicate Live(m: Machine, sb: Sandbox) {
    && sb.id in m.versions && sb.state == Running && sb.worker != "" && sb.path == Dir(sb.worker, sb.id)
    && ImagesUpTo(m, sb.id, VersionOf(m, sb.id) + 1)
  }

  predicate InSlot(m: Machine, sb: Sandbox) {
    Box(sb.id) in Alive(m, sb.worker)
  }

  /** A caller's copy may outlive its record, but never contradicts it. */
  predicate Agrees(m: Machine, sb: Sandbox) {
    sb.id in m.records ==> m.records[sb.id] == sb
  }

  // ----- facts about one call -----

  ghost predicate CheckpointOk(m: Machine, ck: Checkpoint) {
    match ck
    case Asked(_, _) => true
    case InFlight(sb, _) => Live(m, sb) && Agrees(m, sb)
    case Taken(sb, upload) =>
      && Live(m, sb) && Agrees(m, sb) && VersionOf(m, sb.id) > 0 && !InSlot(m, sb)
      && HasLatest(m, sb) && ImagesUpTo(m, sb.id, VersionOf(m, sb.id))
      && (upload ==> Uploaded(m, sb))
  }

  /** The image a restore read: never newer than the last successful checkpoint, and exactly that one
      on the Worker that wrote it or where no directory was in the way. */
  predicate Fresh(m: Machine, sb: Sandbox, w: string, image: Image, wasLocal: bool) {
    && image.version <= VersionOf(m, sb.id)
    && (sb.worker == w || !wasLocal ==> image == Image(VersionOf(m, sb.id), true))
  }

  ghost predicate CallOk(m: Machine, call: Call) {
    && (Pending(call) ==> Rested(m, call.sb) && Agrees(m, call.sb))
    && (CheckpointOf(call).Some? ==> CheckpointOk(m, CheckpointOf(call).value))
    && match call
       case Scanning(_, free) => "" !in free
       case Masked(_, free) => "" !in free
       case Listed(_, free, running) => "" !in free && forall v :: v in running ==> running[v] != ""
       case Evicting(sb, w, _) => w != "" && (sb.state == Paused ==> w == sb.worker)
       case Chosen(sb, w) => w != "" && (sb.state == Paused ==> w == sb.worker)
       case Preparing(sb, w, g) => w != "" && (sb.state == Paused ==> w == sb.worker) && GoldenOk(g)
       case Restoring(sb, w, plan) => w != "" && PlanOk(m, sb, w, plan)
       case Claimed(sb, w, plan) => w != "" && PlanOk(m, sb, w, plan) && Box(sb.id) in Alive(m, w)
       case Restored(sb, w, plan, image, wasLocal) =>
         w != "" && PlanOk(m, sb, w, plan) && Box(sb.id) in Alive(m, w) && Fresh(m, sb, w, image, wasLocal)
       case Ensuring(g) => !g.Making? && GoldenOk(g)
       case _ => true
  }

  predicate GoldenOk(g: Golden) {
    (g.Making? || g.Booting? || g.Sealing? || g.Cleaning?) ==> g.worker != ""
  }

  /** Every restore of `sb` on `w` reads from snapRoot/w/id, and from the source its state calls for:
      no object for a paused one, the golden template exactly before the first checkpoint. */
  predicate PlanOk(m: Machine, sb: Sandbox, w: string, plan: Plan) {
    && plan.dir == Dir(w, sb.id)
    && (sb.state == Paused ==> w == sb.worker && plan.key == NoKey)
    && (plan.key == GoldenKey <==> VersionOf(m, sb.id) == 0)
    && (sb.state == Suspended ==> plan.key in {GoldenKey, SandboxKey(sb.id)})
  }

  // ----- facts about the whole system -----

  /** The knock holder has taken the checkpoint of `id` but not yet written its record. */
  predicate MidStop(s: System, id: string) {
    && s.knock.Some? && s.knock.value in s.calls
    && var ck := CheckpointOf(s.calls[s.knock.value]);
       ck.Some? && ck.value.Taken? && ck.value.sb.id == id
  }

  ghost predicate RecordOk(s: System, id: string)
    requires id in s.m.records
  {
    var sb := s.m.records[id];
    && sb.id == id
    && if sb.state == Running then
         && Live(s.m, sb)
         && (MidStop(s, id) || (InSlot(s.m, sb) && (sb.source == NoSnapshot <==> VersionOf(s.m, id) == 0)))
       else Rested(s.m, sb)
  }

  ghost predicate OneEach(m: Machine) {
    && "" !in m.hosts
    && forall w :: AtMostOne(Alive(m, w))
  }

  predicate AtMostOne(alive: set<Occupant>) {
    forall a, b :: a in alive && b in alive ==> a == b
  }

  /** Directories exist only for sandboxes that were created. */
  ghost predicate Named(m: Machine) {
    forall w, d, id :: Dir(d, id) in Images(m, w) ==> id in m.versions
  }

  ghost predicate Locks(s: System) {
    && (s.knock.Some? ==> s.knock.value in s.calls)
    && forall c :: c in s.calls ==> (HoldsKnock(s.calls[c]) <==> s.knock == Some(c))
  }

  ghost predicate OneResume(s: System) {
    forall b, c | b in s.calls && c in s.calls && IsResume(s.calls[b]) && IsResume(s.calls[c]) ::
      s.calls[b].sb.id == s.calls[c].sb.id ==> b == c
  }

  /** The id whose checkpoint this call is in the middle of. */
  predicate Stops(call: Call, id: string) {
    var ck := CheckpointOf(call);
    ck.Some? && !ck.value.Asked? && ck.value.sb.id == id
  }

  ghost predicate NoOverlap(s: System) {
    forall b, c :: b in s.calls && c in s.calls && Pending(s.calls[b]) ==> !Stops(s.calls[c], s.calls[b].sb.id)
  }

  ghost predicate Inv(s: System) {
    && OneEach(s.m) && Named(s.m) && Locks(s) && OneResume(s) && NoOverlap(s)
    && (forall c :: c in s.calls ==> CallOk(s.m, s.calls[c]))
    && (forall id :: id in s.m.records ==> RecordOk(s, id))
  }

  // ----- frames -----

  /** Two machines look the same to one sandbox. */
  ghost predicate SameFor(m: Machine, n: Machine, id: string) {
    && (id in m.records <==> id in n.records) && (id in m.records ==> m.records[id] == n.records[id])
    && (id in m.versions <==> id in n.versions) && VersionOf(m, id) == VersionOf(n, id)
    && (id in m.objects <==> id in n.objects) && (id in m.objects ==> m.objects[id] == n.objects[id])
    && (forall w :: Box(id) in Alive(m, w) <==> Box(id) in Alive(n, w))
    && (forall w, d :: Dir(d, id) in Images(m, w) <==> Dir(d, id) in Images(n, w))
    && (forall w, d :: Dir(d, id) in Images(m, w) ==> Images(m, w)[Dir(d, id)] == Images(n, w)[Dir(d, id)])
  }

  lemma SameForCall(m: Machine, n: Machine, call: Call)
    requires CallOk(m, call)
    requires Pending(call) ==> SameFor(m, n, call.sb.id)
    requires forall id :: Stops(call, id) ==> SameFor(m, n, id)
    ensures CallOk(n, call)
  {
    var ck := CheckpointOf(call);
    if ck.Some? && !ck.value.Asked? {
      assert Stops(call, ck.value.sb.id);
    }
  }

  lemma SameForRecord(s: System, t: System, id: string)
    requires id in s.m.records && RecordOk(s, id) && SameFor(s.m, t.m, id)
    requires MidStop(s, id) ==> MidStop(t, id)
    ensures RecordOk(t, id)
  {
  }

  /** A step that touches at most the sandbox `x` keeps what is known of every other call. */
  lemma OthersKept(s: System, n: Machine, x: string, c: int)
    requires Inv(s)
    requires forall id :: id != x ==> SameFor(s.m, n, id)
    requires c in s.calls && (Stops(s.calls[c], x) || (Pending(s.calls[c]) && s.calls[c].sb.id == x))
    ensures forall b :: b in s.calls && b != c ==> CallOk(n, s.calls[b])
  {
    forall b | b in s.calls && b != c
      ensures CallOk(n, s.calls[b])
    {
      var call := s.calls[b];
      SameForCall(s.m, n, call);
    }
  }

  // ----- assembling one step -----

  /** Only call `c` moves, and it takes or frees the mutex only for itself. */
  predicate Moves(s: System, t: System, c: int) {
    && (forall b :: b in t.calls && b != c ==> b in s.calls && t.calls[b] == s.calls[b])
    && (forall b :: b in s.calls && b != c ==> b in t.calls)
    && (t.knock == s.knock || (s.knock == None && t.knock == Some(c)) || (s.knock == Some(c) && t.knock == None))
    && (c in t.calls ==> (HoldsKnock(t.calls[c]) <==> t.knock == Some(c)))
    && (c !in t.calls ==> t.knock != Some(c))
  }

  /** The moving call starts a Resume, or the checkpoint of a sandbox, only where nobody is in the way. */
  predicate KeepsApart(s: System, t: System, c: int) {
    c in t.calls ==>
      && (IsResume(t.calls[c]) ==>
            (c in s.calls && IsResume(s.calls[c]) && s.calls[c].sb.id == t.calls[c].sb.id)
            || NoResumeOf(s, t.calls[c].sb.id))
      && (Pending(t.calls[c]) ==>
            && !Stops(t.calls[c], t.calls[c].sb.id)
            && ((c in s.calls && Pending(s.calls[c]) && s.calls[c].sb.id == t.calls[c].sb.id)
                || (forall b :: b in s.calls ==> !Stops(s.calls[b], t.calls[c].sb.id))))
      && var ck := CheckpointOf(t.calls[c]);
         (ck.Some? && !ck.value.Asked? ==>
            (c in s.calls && Stops(s.calls[c], ck.value.sb.id))
            || (forall b :: b in s.calls && Pending(s.calls[b]) ==> s.calls[b].sb.id != ck.value.sb.id))
  }

  predicate HasTaken(s: System, c: int) {
    c in s.calls && var ck := CheckpointOf(s.calls[c]); ck.Some? && ck.value.Taken?
  }

  lemma Assemble(s: System, t: System, c: int)
    requires Inv(s) && Moves(s, t, c) && KeepsApart(s, t, c) && OneEach(t.m) && Named(t.m)
    requires forall b :: b in t.calls ==> CallOk(t.m, t.calls[b])
    requires forall id :: id in t.m.records ==> RecordOk(t, id)
    ensures Inv(t)
  {
    assert OneResume(t) by {
      forall b, d | b in t.calls && d in t.calls && IsResume(t.calls[b]) && IsResume(t.calls[d])
        && t.calls[b].sb.id == t.calls[d].sb.id
        ensures b == d
      {
      }
    }
    assert Locks(t) by {
      if t.knock.Some? && t.knock.value != c {
        assert t.knock == s.knock;
      }
    }
    assert NoOverlap(t) by {
      forall b, d | b in t.calls && d in t.calls && Pending(t.calls[b])
        ensures !Stops(t.calls[d], t.calls[b].sb.id)
      {
        if b == c && d == c {
        } else if b == c {
          assert d in s.calls && s.calls[d] == t.calls[d];
        } else if d == c {
          assert b in s.calls && s.calls[b] == t.calls[b];
        }
      }
    }
  }

  lemma SameMidStop(s: System, t: System, c: int, id: string)
    requires Moves(s, t, c) && Locks(s)
    requires HasTaken(s, c) ==> !Stops(s.calls[c], id)
    requires HasTaken(t, c) ==> !Stops(t.calls[c], id)
    ensures MidStop(s, id) <==> MidStop(t, id)
  {
    if s.knock.Some? && s.knock != Some(c) {
      var b := s.knock.value;
      assert b in s.calls && b in t.calls && t.calls[b] == s.calls[b];
    }
  }

  /** A step that leaves the machine alone and neither begins nor ends a Taken checkpoint. */
  lemma Quiet(s: System, t: System, c: int)
    requires Inv(s) && Moves(s, t, c) && KeepsApart(s, t, c)
    requires t.m == s.m && !HasTaken(s, c) && !HasTaken(t, c)
    requires c in t.calls ==> CallOk(t.m, t.calls[c])
    ensures Inv(t)
  {
    forall id | id in t.m.records
      ensures RecordOk(t, id)
    {
      SameMidStop(s, t, c, id);
    }
    Assemble(s, t, c);
  }

  /** The next program counter of a call that goes on without taking or freeing the mutex. */
  ghost predicate Continues(call: Call, next: Call) {
    && (HoldsKnock(call) <==> HoldsKnock(next))
    && (IsResume(next) ==> IsResume(call) && call.sb.id == next.sb.id)
    && (Pending(next) ==> Pending(call))
    && (forall id :: Stops(next, id) ==> Stops(call, id))
  }

  lemma Continued(s: System, t: System, c: int, next: Call)
    requires Locks(s) && NoOverlap(s) && c in s.calls && Continues(s.calls[c], next)
    requires t.knock == s.knock && t.calls == s.calls[c := next]
    ensures Moves(s, t, c) && KeepsApart(s, t, c)
  {
    if Pending(next) {
      assert !Stops(s.calls[c], next.sb.id);
    }
    var ck := CheckpointOf(next);
    if ck.Some? && !ck.value.Asked? {
      assert Stops(next, ck.value.sb.id);
    }
  }

  lemma Exited(s: System, u: System, c: int, retry: bool)
    requires Locks(s) && NoOverlap(s) && c in s.calls && u.knock == s.knock && u.calls == s.calls
    requires retry && IsResume(s.calls[c]) ==> Pending(s.calls[c])
    ensures Moves(s, Exit(u, c, retry), c) && KeepsApart(s, Exit(u, c, retry), c) && !HasTaken(Exit(u, c, retry), c)
  {
  }

  /** A step that changes no sandbox's view of the machine. */
  lemma Untouched(s: System, t: System, c: int)
    requires Inv(s) && Moves(s, t, c) && KeepsApart(s, t, c) && OneEach(t.m)
    requires t.m.records == s.m.records && forall id :: SameFor(s.m, t.m, id)
    requires !HasTaken(s, c) && !HasTaken(t, c)
    requires c in t.calls ==> CallOk(t.m, t.calls[c])
    ensures Inv(t)
  {
    forall b | b in t.calls && b != c
      ensures CallOk(t.m, t.calls[b])
    {
      SameForCall(s.m, t.m, s.calls[b]);
    }
    forall id | id in t.m.records
      ensures RecordOk(t, id)
    {
      SameMidStop(s, t, c, id);
      SameForRecord(s, t, id);
    }
    assert Named(t.m) by {
      forall w, d, id | Dir(d, id) in Images(t.m, w)
        ensures id in t.m.versions
      {
        assert SameFor(s.m, t.m, id);
        assert Dir(d, id) in Images(s.m, w);
      }
    }
    Assemble(s, t, c);
  }

  /** A step of the one call in charge of the sandbox `x`. */
  lemma Touched(s: System, t: System, c: int, x: string)
    requires Inv(s) && Moves(s, t, c) && KeepsApart(s, t, c) && OneEach(t.m)
    requires forall id :: id != x ==> SameFor(s.m, t.m, id)
    requires c in s.calls && (Stops(s.calls[c], x) || (Pending(s.calls[c]) && s.calls[c].sb.id == x && !HasTaken(s, c)))
    requires HasTaken(t, c) ==> Stops(t.calls[c], x)
    requires c in t.calls ==> CallOk(t.m, t.calls[c])
    requires x in t.m.versions && (x in t.m.records ==> RecordOk(t, x))
    ensures Inv(t)
  {
    OthersKept(s, t.m, x, c);
    assert Named(t.m) by {
      forall w, d, id | Dir(d, id) in Images(t.m, w)
        ensures id in t.m.versions
      {
        if id != x {
          assert SameFor(s.m, t.m, id);
          assert Dir(d, id) in Images(s.m, w);
        }
      }
    }
    forall id | id in t.m.records && id != x
      ensures RecordOk(t, id)
    {
      assert SameFor(s.m, t.m, id);
      SameMidStop(s, t, c, id);
      SameForRecord(s, t, id);
    }
    Assemble(s, t, c);
  }

  // ----- what a step does to the machine, one sandbox at a time -----

  lemma GoldenSlot(m: Machine, w: string, boot: int, alive: set<Occupant>)
    requires OneEach(m) && w != ""
    requires alive == Alive(m, w) - {GoldenBoot(boot)} || (Alive(m, w) == {} && alive == {GoldenBoot(boot)})
             || alive == Alive(m, w)
    ensures OneEach(SetAlive(m, w, alive)) && forall id :: SameFor(m, SetAlive(m, w, alive), id)
  {
    assert Box("") != GoldenBoot(boot);
    forall id
      ensures SameFor(m, SetAlive(m, w, alive), id)
    {
      assert Box(id) != GoldenBoot(boot);
    }
  }

  lemma ClaimedMachine(m: Machine, sb: Sandbox, w: string, plan: Plan)
    requires OneEach(m) && CallOk(m, Restoring(sb, w, plan)) && MayClaim(Alive(m, w), Box(sb.id))
    ensures var n := SetAlive(m, w, Alive(m, w) + {Box(sb.id)});
            && OneEach(n) && CallOk(n, Claimed(sb, w, plan))
            && (forall id :: id != sb.id ==> SameFor(m, n, id))
  {
  }

  lemma FetchFrame(m: Machine, sb: Sandbox, w: string, plan: Plan, ending: RestoreFate)
    requires OneEach(m) && w != "" && plan.dir == Dir(w, sb.id)
    ensures var n := AfterFetch(m, sb, w, plan, ending);
            && OneEach(n) && n.records == m.records && n.versions == m.versions && n.objects == m.objects
            && (forall id :: id != sb.id ==> SameFor(m, n, id))
            && (forall v :: Images(n, v) == if v == w then Fetched(m, w, plan, ending) else Images(m, v))
            && (forall v :: Alive(n, v) <= Alive(m, v))
            && (ending == Started ==> forall v :: Alive(n, v) == Alive(m, v))
  {
    var n := AfterFetch(m, sb, w, plan, ending);
    forall id | id != sb.id
      ensures SameFor(m, n, id)
    {
    }
  }

  /** What a restore finds in its directory is the last checkpoint, unless it was there before. */
  lemma FetchedImage(m: Machine, sb: Sandbox, w: string, plan: Plan, ending: RestoreFate)
    requires Rested(m, sb) && PlanOk(m, sb, w, plan)
    ensures var images := Fetched(m, w, plan, ending);
            && (forall dir :: dir != plan.dir ==> (dir in images <==> dir in Images(m, w)))
            && (forall dir :: dir != plan.dir && dir in images ==> images[dir] == Images(m, w)[dir])
            && (plan.dir in images ==> images[plan.dir].version <= VersionOf(m, sb.id))
            && (plan.dir in Images(m, w) ==> images == Images(m, w))
            && (plan.dir !in Images(m, w) && plan.dir in images && ending == Started ==>
                  images[plan.dir] == Image(VersionOf(m, sb.id), true))
            && (sb.worker == w && w != "" ==> plan.dir in Images(m, w))
  {
    if Remote(m, plan.key).Some? {
      assert Remote(m, plan.key).value == Image(VersionOf(m, sb.id), true);
    }
  }

  lemma FetchedMachine(m: Machine, sb: Sandbox, w: string, plan: Plan, ending: RestoreFate)
    requires OneEach(m) && CallOk(m, Claimed(sb, w, plan))
    requires ending == Started ==> plan.dir in Images(m, w) || Remote(m, plan.key).Some?
    ensures var n := AfterFetch(m, sb, w, plan, ending);
            && OneEach(n) && Rested(n, sb) && n.records == m.records
            && (forall id :: id != sb.id ==> SameFor(m, n, id))
            && (ending == Started ==>
                  CallOk(n, Restored(sb, w, plan, Images(n, w)[plan.dir], plan.dir in Images(m, w))))
  {
    var n := AfterFetch(m, sb, w, plan, ending);
    FetchFrame(m, sb, w, plan, ending);
    FetchedImage(m, sb, w, plan, ending);
    assert Rested(n, sb);
  }

  /** The machine after a checkpoint RPC, seen from every Worker. */
  lemma CheckpointFrame(m: Machine, sb: Sandbox, upload: bool, fate: CheckpointFate)
    requires OneEach(m) && sb.worker != ""
    ensures var n := Checkpointed(m, sb, upload, fate);
            var dir := Dir(sb.worker, sb.id);
            && OneEach(n) && n.records == m.records
            && (forall v :: v != sb.worker ==> Alive(n, v) == Alive(m, v) && Images(n, v) == Images(m, v))
            && Alive(n, sb.worker) == (if fate == Done then Alive(m, sb.worker) - {Box(sb.id)} else Alive(m, sb.worker))
            && Images(n, sb.worker) == AfterCheckpoint(Images(m, sb.worker), dir, VersionOf(m, sb.id) + 1, fate)
            && VersionOf(n, sb.id) == VersionOf(m, sb.id) + if fate == Done then 1 else 0
  {
  }

  lemma CheckpointApart(m: Machine, sb: Sandbox, upload: bool, fate: CheckpointFate, id: string)
    requires OneEach(m) && sb.worker != "" && id != sb.id
    ensures SameFor(m, Checkpointed(m, sb, upload, fate), id)
  {
    CheckpointFrame(m, sb, upload, fate);
  }

  lemma CheckpointedMachine(m: Machine, sb: Sandbox, upload: bool, fate: CheckpointFate)
    requires OneEach(m) && CheckpointOk(m, InFlight(sb, upload))
    ensures var n := Checkpointed(m, sb, upload, fate);
            && OneEach(n) && n.records == m.records && Live(n, sb)
            && (fate == Done ==> CheckpointOk(n, Taken(sb, upload)))
            && (fate != Done ==> VersionOf(n, sb.id) == VersionOf(m, sb.id) && (InSlot(m, sb) <==> InSlot(n, sb)))
  {
    CheckpointFrame(m, sb, upload, fate);
    if fate == Done {
      DoneMachine(m, sb, upload);
    }
  }

  lemma DoneMachine(m: Machine, sb: Sandbox, upload: bool)
    requires OneEach(m) && CheckpointOk(m, InFlight(sb, upload))
    ensures CheckpointOk(Checkpointed(m, sb, upload, Done), Taken(sb, upload))
  {
    CheckpointFrame(m, sb, upload, Done);
  }

  lemma RecordStopMachine(m: Machine, sb: Sandbox, upload: bool, now: Time)
    requires OneEach(m) && CheckpointOk(m, Taken(sb, upload))
    ensures var n := PutRecord(m, NowStopped(sb, upload, now));
            && OneEach(n) && Rested(n, n.records[sb.id])
            && (forall id :: id != sb.id ==> SameFor(m, n, id))
  {
    var n := PutRecord(m, NowStopped(sb, upload, now));
    forall id | id != sb.id
      ensures SameFor(m, n, id)
    {
    }
  }

  // ----- one lemma per kind of step -----

  lemma KeepsRefresh(s: System, c: int)
    requires Inv(s) && ResumeEnabled(s, c, Refresh)
    ensures Inv(ResumeApply(s, c, Refresh))
  {
    var t := ResumeApply(s, c, Refresh);
    Continued(s, t, c, t.calls[c]);
    Quiet(s, t, c);
  }

  lemma KeepsReread(s: System, c: int)
    requires Inv(s) && ResumeEnabled(s, c, Reread)
    ensures Inv(ResumeApply(s, c, Reread))
  {
    var t := ResumeApply(s, c, Reread);
    Continued(s, t, c, t.calls[c]);
    Quiet(s, t, c);
  }

  lemma KeepsScanStatus(s: System, c: int, w: string)
    requires Inv(s) && ResumeEnabled(s, c, ScanStatus(w))
    ensures Inv(ResumeApply(s, c, ScanStatus(w)))
  {
    var t := ResumeApply(s, c, ScanStatus(w));
    Continued(s, t, c, t.calls[c]);
    Quiet(s, t, c);
  }

  lemma KeepsMask(s: System, c: int)
    requires Inv(s) && ResumeEnabled(s, c, Mask)
    ensures Inv(ResumeApply(s, c, Mask))
  {
    var t := ResumeApply(s, c, Mask);
    Continued(s, t, c, t.calls[c]);
    Quiet(s, t, c);
  }

  lemma KeepsViewAtOnce(s: System, c: int, ws: set<string>)
    requires Inv(s) && ResumeEnabled(s, c, ViewAtOnce(ws))
    ensures Inv(ResumeApply(s, c, ViewAtOnce(ws)))
  {
    var t := ResumeApply(s, c, ViewAtOnce(ws));
    Continued(s, t, c, t.calls[c]);
    Quiet(s, t, c);
  }

  lemma KeepsListRunning(s: System, c: int)
    requires Inv(s) && ResumeEnabled(s, c, ListRunning)
    ensures Inv(ResumeApply(s, c, ListRunning))
  {
    var t := ResumeApply(s, c, ListRunning);
    Continued(s, t, c, t.calls[c]);
    Quiet(s, t, c);
  }

  lemma KeepsDecide(s: System, c: int, d: Decision)
    requires Inv(s) && ResumeEnabled(s, c, Decide(d))
    ensures Inv(ResumeApply(s, c, Decide(d)))
  {
    var t := ResumeApply(s, c, Decide(d));
    Continued(s, t, c, t.calls[c]);
    Quiet(s, t, c);
  }

  lemma KeepsNeedGolden(s: System, c: int)
    requires Inv(s) && ResumeEnabled(s, c, NeedGolden)
    ensures Inv(ResumeApply(s, c, NeedGolden))
  {
    var t := ResumeApply(s, c, NeedGolden);
    Continued(s, t, c, t.calls[c]);
    Quiet(s, t, c);
  }

  lemma KeepsRefuseSlot(s: System, c: int)
    requires Inv(s) && RestoreEnabled(s, c, RefuseSlot)
    ensures Inv(RestoreApply(s, c, RefuseSlot))
  {
    var t := RestoreApply(s, c, RefuseSlot);
    Continued(s, t, c, t.calls[c]);
    Quiet(s, t, c);
  }

  lemma KeepsPlaceGolden(s: System, c: int, w: string)
    requires Inv(s) && GoldenEnabled(s, c, PlaceGolden(w))
    ensures Inv(GoldenApply(s, c, PlaceGolden(w)))
  {
    var t := GoldenApply(s, c, PlaceGolden(w));
    Continued(s, t, c, t.calls[c]);
    Quiet(s, t, c);
  }

  lemma KeepsEvictForGolden(s: System, c: int, v: string, w: string)
    requires Inv(s) && GoldenEnabled(s, c, EvictForGolden(v, w))
    ensures Inv(GoldenApply(s, c, EvictForGolden(v, w)))
  {
    var t := GoldenApply(s, c, EvictForGolden(v, w));
    Continued(s, t, c, t.calls[c]);
    Quiet(s, t, c);
  }

  lemma KeepsLeave(s: System, c: int, retry: bool)
    requires Inv(s) && ResumeEnabled(s, c, Leave(retry))
    ensures Inv(ResumeApply(s, c, Leave(retry)))
  {
    var t := ResumeApply(s, c, Leave(retry));
    Exited(s, s, c, retry);
    Quiet(s, t, c);
  }

  lemma KeepsMissVictim(s: System, c: int, retry: bool)
    requires Inv(s) && StopEnabled(s, c, MissVictim(retry))
    ensures Inv(StopApply(s, c, MissVictim(retry)))
  {
    var t := StopApply(s, c, MissVictim(retry));
    Exited(s, s, c, retry);
    Quiet(s, t, c);
  }

  lemma KeepsGiveUp(s: System, c: int, retry: bool)
    requires Inv(s) && GoldenEnabled(s, c, GiveUp(retry))
    ensures Inv(GoldenApply(s, c, GiveUp(retry)))
  {
    var t := GoldenApply(s, c, GiveUp(retry));
    Exited(s, s, c, retry);
    Quiet(s, t, c);
  }

  lemma KeepsEnter(s: System, c: int, id: string)
    requires Inv(s) && ResumeEnabled(s, c, Enter(id))
    ensures Inv(ResumeApply(s, c, Enter(id)))
  {
    var t := ResumeApply(s, c, Enter(id));
    Quiet(s, t, c);
  }

  lemma KeepsAcquire(s: System, c: int)
    requires Inv(s) && ResumeEnabled(s, c, Acquire)
    ensures Inv(ResumeApply(s, c, Acquire))
  {
    var t := ResumeApply(s, c, Acquire);
    Quiet(s, t, c);
  }

  lemma KeepsReserve(s: System, c: int)
    requires Inv(s) && ResumeEnabled(s, c, Reserve)
    ensures Inv(ResumeApply(s, c, Reserve))
  {
    var t := ResumeApply(s, c, Reserve);
    Quiet(s, t, c);
  }

  lemma KeepsAskGolden(s: System, c: int)
    requires Inv(s) && GoldenEnabled(s, c, AskGolden)
    ensures Inv(GoldenApply(s, c, AskGolden))
  {
    var t := GoldenApply(s, c, AskGolden);
    Quiet(s, t, c);
  }

  lemma KeepsStop(s: System, c: int, v: string, upload: bool)
    requires Inv(s) && StopEnabled(s, c, StopStep.Stop(v, upload))
    ensures Inv(StopApply(s, c, StopStep.Stop(v, upload)))
  {
    var t := StopApply(s, c, StopStep.Stop(v, upload));
    Quiet(s, t, c);
  }

  lemma KeepsReadVictim(s: System, c: int)
    requires Inv(s) && StopEnabled(s, c, ReadVictim)
    ensures Inv(StopApply(s, c, ReadVictim))
  {
    var t := StopApply(s, c, ReadVictim);
    Quiet(s, t, c);
  }

  lemma KeepsClear(s: System, c: int)
    requires Inv(s) && RestoreEnabled(s, c, Clear)
    ensures Inv(RestoreApply(s, c, Clear))
  {
    var t := RestoreApply(s, c, Clear);
    Exited(s, s.(reserve := t.reserve), c, false);
    Quiet(s, t, c);
  }

  lemma KeepsBootGolden(s: System, c: int, boot: int, booted: bool, retry: bool)
    requires Inv(s) && GoldenEnabled(s, c, BootGolden(boot, booted, retry))
    ensures Inv(GoldenApply(s, c, BootGolden(boot, booted, retry)))
  {
    var t := GoldenApply(s, c, BootGolden(boot, booted, retry));
    var w := GoldenOf(s.calls[c]).value.worker;
    if booted && MayClaim(Alive(s.m, w), GoldenBoot(boot)) {
      GoldenSlot(s.m, w, boot, Alive(s.m, w) + {GoldenBoot(boot)});
      Continued(s, t, c, t.calls[c]);
      Untouched(s, t, c);
    } else {
      Exited(s, s, c, retry);
      Quiet(s, t, c);
    }
  }

  lemma KeepsSealGolden(s: System, c: int, sealed: bool)
    requires Inv(s) && GoldenEnabled(s, c, SealGolden(sealed))
    ensures Inv(GoldenApply(s, c, SealGolden(sealed)))
  {
    var t := GoldenApply(s, c, SealGolden(sealed));
    Continued(s, t, c, t.calls[c]);
    if sealed {
      var g := GoldenOf(s.calls[c]).value;
      GoldenSlot(s.m, g.worker, g.boot, Alive(s.m, g.worker) - {GoldenBoot(g.boot)});
      Untouched(s, t, c);
    } else {
      Quiet(s, t, c);
    }
  }

  lemma KeepsCleanGolden(s: System, c: int, cleaned: bool, retry: bool)
    requires Inv(s) && GoldenEnabled(s, c, CleanGolden(cleaned, retry))
    ensures Inv(GoldenApply(s, c, CleanGolden(cleaned, retry)))
  {
    var t := GoldenApply(s, c, CleanGolden(cleaned, retry));
    var g := GoldenOf(s.calls[c]).value;
    Exited(s, s.(m := t.m), c, retry);
    if cleaned {
      GoldenSlot(s.m, g.worker, g.boot, Alive(s.m, g.worker) - {GoldenBoot(g.boot)});
      Untouched(s, t, c);
    } else {
      Quiet(s, t, c);
    }
  }

  lemma KeepsPublishGolden(s: System, c: int, stored: bool, retry: bool)
    requires Inv(s) && GoldenEnabled(s, c, PublishGolden(stored, retry))
    ensures Inv(GoldenApply(s, c, PublishGolden(stored, retry)))
  {
    var t := GoldenApply(s, c, PublishGolden(stored, retry));
    if !stored {
      Exited(s, s, c, retry);
      Quiet(s, t, c);
    } else {
      if s.calls[c].Preparing? {
        Continued(s, t, c, t.calls[c]);
      } else {
        Exited(s, s.(m := t.m), c, false);
      }
      Untouched(s, t, c);
    }
  }

  lemma KeepsClaimSlot(s: System, c: int)
    requires Inv(s) && RestoreEnabled(s, c, ClaimSlot)
    ensures Inv(RestoreApply(s, c, ClaimSlot))
  {
    var t := RestoreApply(s, c, ClaimSlot);
    var call := s.calls[c];
    ClaimedMachine(s.m, call.sb, call.worker, call.plan);
    Continued(s, t, c, t.calls[c]);
    Touched(s, t, c, call.sb.id);
  }

  lemma KeepsFetch(s: System, c: int, ending: RestoreFate)
    requires Inv(s) && RestoreEnabled(s, c, Fetch(ending))
    ensures Inv(RestoreApply(s, c, Fetch(ending)))
  {
    var t := RestoreApply(s, c, Fetch(ending));
    var call := s.calls[c];
    FetchedMachine(s.m, call.sb, call.worker, call.plan, ending);
    Continued(s, t, c, t.calls[c]);
    Touched(s, t, c, call.sb.id);
  }

  lemma KeepsRecordStart(s: System, c: int, now: Time)
    requires Inv(s) && RestoreEnabled(s, c, RecordStart(now, true))
    ensures Inv(RestoreApply(s, c, RecordStart(now, true)))
  {
    var t := RestoreApply(s, c, RecordStart(now, true));
    Continued(s, t, c, t.calls[c]);
    Touched(s, t, c, s.calls[c].sb.id);
  }

  lemma KeepsRecordLost(s: System, c: int, now: Time)
    requires Inv(s) && RestoreEnabled(s, c, RecordStart(now, false))
    ensures Inv(RestoreApply(s, c, RecordStart(now, false)))
  {
    var t := RestoreApply(s, c, RecordStart(now, false));
    Continued(s, t, c, t.calls[c]);
    Quiet(s, t, c);
  }

  /** The machine side of a checkpoint RPC, for the call that sent it. */
  lemma SentCheckpoint(s: System, c: int, ck: Checkpoint, fate: CheckpointFate)
    requires Inv(s) && c in s.calls && CheckpointOf(s.calls[c]) == Some(ck) && ck.InFlight?
    ensures var n := Checkpointed(s.m, ck.sb, ck.upload, fate);
            && OneEach(n) && n.records == s.m.records && Live(n, ck.sb)
            && (forall id :: id != ck.sb.id ==> SameFor(s.m, n, id))
            && (fate == Done ==> CheckpointOk(n, Taken(ck.sb, ck.upload)))
            && (fate != Done ==> VersionOf(n, ck.sb.id) == VersionOf(s.m, ck.sb.id)
                                 && (InSlot(s.m, ck.sb) <==> InSlot(n, ck.sb)))
            && (Pending(s.calls[c]) ==> CallOk(n, Lobby(s.calls[c].sb)))
  {
    var n := Checkpointed(s.m, ck.sb, ck.upload, fate);
    CheckpointedMachine(s.m, ck.sb, ck.upload, fate);
    forall id | id != ck.sb.id
      ensures SameFor(s.m, n, id)
    {
      CheckpointApart(s.m, ck.sb, ck.upload, fate, id);
    }
    if Pending(s.calls[c]) {
      assert Stops(s.calls[c], ck.sb.id);
      SameForCall(s.m, n, Lobby(s.calls[c].sb));
    }
  }

  lemma TakenContinues(call: Call, sb: Sandbox, upload: bool)
    requires CheckpointOf(call) == Some(InFlight(sb, upload))
    ensures var next := WithCheckpoint(call, Taken(sb, upload));
            Continues(call, next) && CheckpointOf(next) == Some(Taken(sb, upload)) && !InRestore(next)
            && (Pending(next) <==> Pending(call)) && (IsResume(next) ==> next.sb == call.sb)
  {
  }

  lemma TakenCall(m: Machine, n: Machine, call: Call, sb: Sandbox, upload: bool)
    requires CallOk(m, call) && CheckpointOf(call) == Some(InFlight(sb, upload))
    requires CheckpointOk(n, Taken(sb, upload)) && (Pending(call) ==> CallOk(n, Lobby(call.sb)))
    ensures var next := WithCheckpoint(call, Taken(sb, upload));
            Continues(call, next) && CallOk(n, next)
  {
  }

  lemma DoneMoves(s: System, c: int, retry: bool)
    requires Locks(s) && NoOverlap(s) && StopEnabled(s, c, SendCheckpoint(Done, retry))
    ensures var t := StopApply(s, c, SendCheckpoint(Done, retry)); Moves(s, t, c) && KeepsApart(s, t, c)
  {
    var t := StopApply(s, c, SendCheckpoint(Done, retry));
    var ck := CheckpointOf(s.calls[c]).value;
    TakenContinues(s.calls[c], ck.sb, ck.upload);
    Continued(s, t, c, t.calls[c]);
  }

  /** A running record whose checkpoint is taken waits, in the mutex holder's hands, to be written as stopped. */
  lemma DoneRecord(s: System, c: int, retry: bool)
    requires Inv(s) && StopEnabled(s, c, SendCheckpoint(Done, retry))
    ensures var t := StopApply(s, c, SendCheckpoint(Done, retry));
            var id := CheckpointOf(s.calls[c]).value.sb.id;
            && (id in t.m.records ==> RecordOk(t, id))
            && CallOk(t.m, t.calls[c]) && Stops(t.calls[c], id)
  {
    var t := StopApply(s, c, SendCheckpoint(Done, retry));
    var ck := CheckpointOf(s.calls[c]).value;
    SentCheckpoint(s, c, ck, Done);
    TakenContinues(s.calls[c], ck.sb, ck.upload);
    TakenCall(s.m, t.m, s.calls[c], ck.sb, ck.upload);
    if ck.sb.id in t.m.records {
      assert RecordOk(s, ck.sb.id) && MidStop(t, ck.sb.id);
    }
  }

  lemma KeepsCheckpointDone(s: System, c: int, retry: bool)
    requires Inv(s) && StopEnabled(s, c, SendCheckpoint(Done, retry))
    ensures Inv(StopApply(s, c, SendCheckpoint(Done, retry)))
  {
    var t := StopApply(s, c, SendCheckpoint(Done, retry));
    var ck := CheckpointOf(s.calls[c]).value;
    SentCheckpoint(s, c, ck, Done);
    DoneRecord(s, c, retry);
    DoneMoves(s, c, retry);
    Touched(s, t, c, ck.sb.id);
  }

  lemma KeepsCheckpointFailed(s: System, c: int, fate: CheckpointFate, retry: bool)
    requires Inv(s) && StopEnabled(s, c, SendCheckpoint(fate, retry)) && fate != Done
    ensures Inv(StopApply(s, c, SendCheckpoint(fate, retry)))
  {
    var t := StopApply(s, c, SendCheckpoint(fate, retry));
    var ck := CheckpointOf(s.calls[c]).value;
    SentCheckpoint(s, c, ck, fate);
    Exited(s, s.(m := t.m), c, retry);
    Touched(s, t, c, ck.sb.id);
  }

  /** The machine side of recording a stop, for the call that does it. */
  lemma StoppedRecord(s: System, c: int, ck: Checkpoint, now: Time)
    requires Inv(s) && c in s.calls && CheckpointOf(s.calls[c]) == Some(ck) && ck.Taken?
    ensures var n := PutRecord(s.m, NowStopped(ck.sb, ck.upload, now));
            && OneEach(n) && Rested(n, n.records[ck.sb.id])
            && (forall id :: id != ck.sb.id ==> SameFor(s.m, n, id))
            && (Pending(s.calls[c]) ==> CallOk(n, Lobby(s.calls[c].sb)))
  {
    var n := PutRecord(s.m, NowStopped(ck.sb, ck.upload, now));
    RecordStopMachine(s.m, ck.sb, ck.upload, now);
    if Pending(s.calls[c]) {
      assert Stops(s.calls[c], ck.sb.id);
      SameForCall(s.m, n, Lobby(s.calls[c].sb));
    }
  }

  lemma StopMoves(s: System, c: int, now: Time)
    requires Locks(s) && NoOverlap(s) && StopEnabled(s, c, RecordStop(now))
    ensures var t := StopApply(s, c, RecordStop(now)); Moves(s, t, c) && KeepsApart(s, t, c) && !HasTaken(t, c)
  {
    var t := StopApply(s, c, RecordStop(now));
    if s.calls[c].Stopping? {
      Exited(s, s.(m := t.m), c, false);
    } else {
      Continued(s, t, c, t.calls[c]);
    }
  }

  /** Where a call goes once the stop it was running is recorded. */
  lemma AfterStop(m: Machine, n: Machine, call: Call, ck: Checkpoint)
    requires CallOk(m, call) && CheckpointOf(call) == Some(ck) && (Pending(call) ==> CallOk(n, Lobby(call.sb)))
    ensures call.Evicting? ==> CallOk(n, Chosen(call.sb, call.worker))
    ensures GoldenOf(call).Some? ==> CallOk(n, WithGolden(call, Booting(GoldenOf(call).value.worker)))
  {
  }

  lemma StopRecorded(s: System, c: int, now: Time)
    requires Inv(s) && StopEnabled(s, c, RecordStop(now))
    ensures var t := StopApply(s, c, RecordStop(now)); c in t.calls ==> CallOk(t.m, t.calls[c])
  {
    var ck := CheckpointOf(s.calls[c]).value;
    var n := PutRecord(s.m, NowStopped(ck.sb, ck.upload, now));
    StoppedRecord(s, c, ck, now);
    AfterStop(s.m, n, s.calls[c], ck);
  }

  lemma KeepsRecordStop(s: System, c: int, now: Time)
    requires Inv(s) && StopEnabled(s, c, RecordStop(now))
    ensures Inv(StopApply(s, c, RecordStop(now)))
  {
    var t := StopApply(s, c, RecordStop(now));
    var ck := CheckpointOf(s.calls[c]).value;
    StoppedRecord(s, c, ck, now);
    StopRecorded(s, c, now);
    StopMoves(s, c, now);
    Touched(s, t, c, ck.sb.id);
  }

  // ----- Create and Delete -----

  /** A step of no call: every call keeps its place. */
  lemma AssembleApi(s: System, t: System)
    requires Inv(s) && t.calls == s.calls && t.knock == s.knock && OneEach(t.m) && Named(t.m)
    requires forall b :: b in s.calls ==> CallOk(t.m, s.calls[b])
    requires forall id :: id in t.m.records ==> RecordOk(t, id)
    ensures Inv(t)
  {
  }

  lemma KeepsCreate(s: System, id: string, now: Time)
    requires Inv(s) && ApiEnabled(s, Create(id, now))
    ensures Inv(ApiApply(s, Create(id, now)))
  {
    var t := ApiApply(s, Create(id, now));
    assert forall v :: Alive(t.m, v) == Alive(s.m, v) && Images(t.m, v) == Images(s.m, v);
    forall other | other != id
      ensures SameFor(s.m, t.m, other)
    {
    }
    forall b | b in s.calls
      ensures CallOk(t.m, s.calls[b])
    {
      SameForCall(s.m, t.m, s.calls[b]);
    }
    forall other | other in t.m.records
      ensures RecordOk(t, other)
    {
      if other != id {
        SameForRecord(s, t, other);
      }
    }
    AssembleApi(s, t);
  }

  /** `n` is `m` without the record of `id`, and perhaps without its slot. */
  ghost predicate Forgets(m: Machine, n: Machine, id: string) {
    && n.versions == m.versions && n.objects == m.objects && n.records == m.records - {id}
    && (forall v :: Images(n, v) == Images(m, v) && Alive(n, v) <= Alive(m, v))
    && (forall other :: other != id ==> SameFor(m, n, other))
  }

  lemma DeletedFrame(m: Machine, id: string, freed: bool)
    requires OneEach(m) && id in m.records && m.records[id].id == id
    ensures var n := Deleted(m, id, freed);
            && OneEach(n) && Forgets(m, n, id)
            && (m.records[id].state != Running ==> forall v :: Alive(n, v) == Alive(m, v))
  {
    var n := Deleted(m, id, freed);
    var e := Emptied(m, m.records[id], freed);
    forall v
      ensures Images(n, v) == Images(m, v) && Alive(n, v) <= Alive(m, v) <= Alive(n, v) + {Box(id)}
    {
      assert Images(e, v) == Images(m, v) && Alive(e, v) <= Alive(m, v) <= Alive(e, v) + {Box(id)};
      assert HostOf(n, v) == HostOf(e, v);
    }
    forall other | other != id
      ensures SameFor(m, n, other)
    {
    }
  }

  lemma KeepsDelete(s: System, id: string, freed: bool)
    requires Inv(s) && ApiEnabled(s, Delete(id, freed))
    ensures Inv(ApiApply(s, Delete(id, freed)))
  {
    var t := ApiApply(s, Delete(id, freed));
    assert RecordOk(s, id);
    DeletedFrame(s.m, id, freed);
    forall b | b in s.calls
      ensures CallOk(t.m, s.calls[b])
    {
      var call := s.calls[b];
      if Stops(call, id) {
        StopOfDeleted(s.m, t.m, id, call);
      } else if Pending(call) && call.sb.id == id {
        ResumeOfDeleted(s.m, t.m, id, call);
      } else {
        SameForCall(s.m, t.m, call);
      }
    }
    forall other | other in t.m.records
      ensures RecordOk(t, other)
    {
      SameForRecord(s, t, other);
    }
    AssembleApi(s, t);
  }

  /** A call in the middle of checkpointing the deleted sandbox carries on with its own copy. */
  lemma StopOfDeleted(m: Machine, n: Machine, id: string, call: Call)
    requires Forgets(m, n, id) && CallOk(m, call) && Stops(call, id) && (Pending(call) ==> call.sb.id != id)
    ensures CallOk(n, call)
  {
    if Pending(call) {
      SameForCall(m, n, Lobby(call.sb));
    }
  }

  /** So does a Resume of it, whose record was at rest. */
  lemma ResumeOfDeleted(m: Machine, n: Machine, id: string, call: Call)
    requires Forgets(m, n, id) && CallOk(m, call) && Pending(call) && call.sb.id == id && !Stops(call, id)
    requires forall v :: Alive(n, v) == Alive(m, v)
    ensures CallOk(n, call)
  {
  }

  // ----- every run -----

  lemma {:induction false} InitInv(s: System)
    requires Init(s)
    ensures Inv(s)
  {
  }

  lemma KeepsResume(s: System, c: int, step: ResumeStep)
    requires Inv(s) && ResumeEnabled(s, c, step)
    ensures Inv(ResumeApply(s, c, step))
  {
    match step
    case Enter(id) => KeepsEnter(s, c, id);
    case Refresh => KeepsRefresh(s, c);
    case Acquire => KeepsAcquire(s, c);
    case Reread => KeepsReread(s, c);
    case ScanStatus(w) => KeepsScanStatus(s, c, w);
    case Mask => KeepsMask(s, c);
    case ViewAtOnce(ws) => KeepsViewAtOnce(s, c, ws);
    case ListRunning => KeepsListRunning(s, c);
    case Decide(d) => KeepsDecide(s, c, d);
    case Leave(retry) => KeepsLeave(s, c, retry);
    case NeedGolden => KeepsNeedGolden(s, c);
    case Reserve => KeepsReserve(s, c);
  }

  lemma KeepsRestore(s: System, c: int, step: RestoreStep)
    requires Inv(s) && RestoreEnabled(s, c, step)
    ensures Inv(RestoreApply(s, c, step))
  {
    match step
    case ClaimSlot => KeepsClaimSlot(s, c);
    case RefuseSlot => KeepsRefuseSlot(s, c);
    case Fetch(ending) => KeepsFetch(s, c, ending);
    case RecordStart(now, stored) =>
      if stored { KeepsRecordStart(s, c, now); } else { KeepsRecordLost(s, c, now); }
    case Clear => KeepsClear(s, c);
  }

  lemma KeepsHalt(s: System, c: int, step: StopStep)
    requires Inv(s) && StopEnabled(s, c, step)
    ensures Inv(StopApply(s, c, step))
  {
    match step
    case Stop(id, upload) => KeepsStop(s, c, id, upload);
    case ReadVictim => KeepsReadVictim(s, c);
    case MissVictim(retry) => KeepsMissVictim(s, c, retry);
    case SendCheckpoint(fate, retry) =>
      if fate == Done { KeepsCheckpointDone(s, c, retry); } else { KeepsCheckpointFailed(s, c, fate, retry); }
    case RecordStop(now) => KeepsRecordStop(s, c, now);
  }

  lemma KeepsBuild(s: System, c: int, step: GoldenStep)
    requires Inv(s) && GoldenEnabled(s, c, step)
    ensures Inv(GoldenApply(s, c, step))
  {
    match step
    case AskGolden => KeepsAskGolden(s, c);
    case PlaceGolden(w) => KeepsPlaceGolden(s, c, w);
    case EvictForGolden(v, w) => KeepsEvictForGolden(s, c, v, w);
    case GiveUp(retry) => KeepsGiveUp(s, c, retry);
    case BootGolden(boot, booted, retry) => KeepsBootGolden(s, c, boot, booted, retry);
    case SealGolden(sealed) => KeepsSealGolden(s, c, sealed);
    case CleanGolden(cleaned, retry) => KeepsCleanGolden(s, c, cleaned, retry);
    case PublishGolden(stored, retry) => KeepsPublishGolden(s, c, stored, retry);
  }

  /** Building the golden template writes no sandbox's record, and puts none into a slot. */
  lemma BuildRecords(s: System, c: int, step: GoldenStep)
    requires GoldenEnabled(s, c, step)
    ensures var t := GoldenApply(s, c, step); t.m.records == s.m.records && t.m.versions == s.m.versions
  {
  }

  lemma BuildSlots(s: System, c: int, step: GoldenStep)
    requires GoldenEnabled(s, c, step)
    ensures var t := GoldenApply(s, c, step); forall w, z :: Box(z) in Alive(t.m, w) <==> Box(z) in Alive(s.m, w)
  {
  }

  lemma BuildImages(s: System, c: int, step: GoldenStep)
    requires GoldenEnabled(s, c, step)
    ensures var t := GoldenApply(s, c, step); forall w :: Images(t.m, w) == Images(s.m, w)
  {
  }

  lemma BuildRestores(s: System, c: int, step: GoldenStep)
    requires GoldenEnabled(s, c, step)
    ensures var t := GoldenApply(s, c, step);
            t.reserve == s.reserve
            && forall b :: b in t.calls && InRestore(t.calls[b]) ==> b in s.calls && s.calls[b] == t.calls[b]
  {
  }

  lemma KeepsInv(s: System, a: Action)
    requires Inv(s) && Enabled(s, a)
    ensures Inv(Apply(s, a))
  {
    match a
    case Api(Create(id, now)) => KeepsCreate(s, id, now);
    case Api(Delete(id, freed)) => KeepsDelete(s, id, freed);
    case Admission(c, step) => KeepsResume(s, c, step);
    case Load(c, step) => KeepsRestore(s, c, step);
    case Halt(c, step) => KeepsHalt(s, c, step);
    case Build(c, step) => KeepsBuild(s, c, step);
  }

  lemma {:induction false} RunKeepsInv(s: System, actions: seq<Action>, t: System)
    requires Inv(s) && Run(s, actions, t)
    ensures Inv(t)
    decreases |actions|
  {
    if actions != [] {
      KeepsInv(s, actions[0]);
      RunKeepsInv(Apply(s, actions[0]), actions[1..], t);
    }
  }
}
