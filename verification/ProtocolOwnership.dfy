/** Who a slot and a reservation belong to, and which slots belong to nobody any more. */
module ProtocolOwnership {
  import opened Types
  import opened WorkerAgent
  import opened Protocol
  import opened ProtocolSafety
  import opened ProtocolAdmission

  // ----- owners -----

  predicate Fills(call: Call, z: string, w: string) {
    (call.Claimed? || call.Restored?) && call.sb.id == z && call.worker == w
  }

  predicate Seals(call: Call, boot: int, w: string) {
    BootsAs(call, boot) && GoldenOf(call).value.worker == w
  }

  predicate Reserves(call: Call, z: string, w: string) {
    (InRestore(call) || call.Recorded? || call.Failing?) && call.sb.id == z && call.worker == w
  }

  predicate CallOwns(call: Call, o: Occupant, w: string) {
    match o
    case Box(z) => Fills(call, z, w)
    case GoldenBoot(b) => Seals(call, b, w)
  }

  predicate RecordOwns(m: Machine, o: Occupant, w: string) {
    o.Box? && RunsOn(m, o.id, w)
  }

  /** A sandbox recorded running there or being restored there, or the golden boot of a live call. */
  ghost predicate Owned(s: System, o: Occupant, w: string) {
    RecordOwns(s.m, o, w) || exists c :: c in s.calls && CallOwns(s.calls[c], o, w)
  }

  ghost predicate Unowned(s: System, o: Occupant, w: string) {
    o in Alive(s.m, w) && !Owned(s, o, w)
  }

  // ----- history -----

  /** An occupant left behind in the slot of a Worker. */
  datatype Leak = Leak(o: Occupant, worker: string)

  /** The request to free a running sandbox's slot fails, and its record goes all the same. */
  predicate LosesBox(s: System, step: ApiStep) {
    && step.Delete? && !step.freed && step.id in s.m.records
    && Box(step.id) in Alive(s.m, s.m.records[step.id].worker)
  }

  /** A checkpoint frees the slot of the sandbox it was asked for. */
  predicate Vacates(s: System, c: int, step: StopStep) {
    && step.SendCheckpoint? && step.fate == Done && c in s.calls
    && CheckpointOf(s.calls[c]).Some? && CheckpointOf(s.calls[c]).value.InFlight?
  }

  /** The request to clean up after a golden boot fails. */
  predicate LosesBoot(s: System, c: int, step: GoldenStep) {
    && step.CleanGolden? && !step.cleaned && c in s.calls
    && GoldenOf(s.calls[c]).Some? && GoldenOf(s.calls[c]).value.Cleaning?
  }

  /** The slots leaked and not taken up again, after one more step: lost by a failed delete, a failed cleanup or a
      failed record write after a restore, taken up by a restore of the same sandbox on the same Worker, or freed by
      a checkpoint that had been asked for before. */
  function Leaked(s: System, a: Action, had: set<Leak>): set<Leak> {
    match a
    case Api(step) =>
      if LosesBox(s, step) then had + {Leak(Box(step.id), s.m.records[step.id].worker)} else had
    case Admission(_, _) => had
    case Load(c, step) =>
      if c !in s.calls || !InRestore(s.calls[c]) then had
      else
        var slot := Leak(Box(s.calls[c].sb.id), s.calls[c].worker);
        if step.RecordStart? && !step.stored then had + {slot} else if step.ClaimSlot? then had - {slot} else had
    case Halt(c, step) =>
      if Vacates(s, c, step) then
        var sb := CheckpointOf(s.calls[c]).value.sb;
        had - {Leak(Box(sb.id), sb.worker)}
      else had
    case Build(c, step) =>
      if LosesBoot(s, c, step) then
        var g := GoldenOf(s.calls[c]).value;
        had + {Leak(GoldenBoot(g.boot), g.worker)}
      else had
  }

  function LeakedAfter(s: System, actions: seq<Action>, had: set<Leak>): set<Leak>
    decreases |actions|
  {
    if actions == [] || !Enabled(s, actions[0]) then had
    else LeakedAfter(Apply(s, actions[0]), actions[1..], Leaked(s, actions[0], had))
  }

  // ----- the invariant -----

  /** The history names exactly the occupied slots without an owner. */
  ghost predicate Exact(s: System, had: set<Leak>) {
    forall o, w :: Unowned(s, o, w) <==> Leak(o, w) in had
  }

  /** A golden boot being sealed is in its slot, and no other call has it. */
  ghost predicate SealsHeld(s: System) {
    forall c, b, w :: c in s.calls && Seals(s.calls[c], b, w) ==> SealHeld(s, c, b, w)
  }

  predicate SealHeld(s: System, c: int, b: int, w: string) {
    GoldenBoot(b) in Alive(s.m, w) && NobodyElseBoots(s, c, b)
  }

  predicate NobodyElseBoots(s: System, c: int, b: int) {
    forall d :: d in s.calls && d != c ==> !BootsAs(s.calls[d], b)
  }

  ghost predicate ReservationOwned(s: System, w: string)
    requires w in s.reserve
  {
    exists c :: c in s.calls && Reserves(s.calls[c], s.reserve[w], w)
  }

  ghost predicate Reserved(s: System) {
    forall w :: w in s.reserve ==> ReservationOwned(s, w)
  }

  // ----- one step -----

  ghost predicate OthersStay(s: System, t: System, c: int) {
    forall b :: b != c ==> (b in s.calls <==> b in t.calls) && (b in s.calls ==> t.calls[b] == s.calls[b])
  }

  predicate OwnsAt(s: System, c: int, o: Occupant, w: string) {
    c in s.calls && CallOwns(s.calls[c], o, w)
  }

  predicate SameOwner(s: System, t: System, c: int, o: Occupant, w: string) {
    && (o in Alive(s.m, w) <==> o in Alive(t.m, w))
    && (RecordOwns(s.m, o, w) <==> RecordOwns(t.m, o, w))
    && (OwnsAt(s, c, o, w) <==> OwnsAt(t, c, o, w))
  }

  lemma SameUnowned(s: System, t: System, c: int, o: Occupant, w: string)
    requires OthersStay(s, t, c) && SameOwner(s, t, c, o, w)
    ensures Unowned(s, o, w) <==> Unowned(t, o, w)
  {
    if b :| b in s.calls && CallOwns(s.calls[b], o, w) {
      assert b == c ==> OwnsAt(s, c, o, w);
      assert OwnsAt(t, b, o, w);
    }
    if b :| b in t.calls && CallOwns(t.calls[b], o, w) {
      assert b == c ==> OwnsAt(t, c, o, w);
      assert OwnsAt(s, b, o, w);
    }
  }

  /** A step that changes at most the owner of one slot. */
  lemma ExactButOne(s: System, t: System, c: int, had: set<Leak>, now: set<Leak>, x: Occupant, v: string)
    requires Exact(s, had) && OthersStay(s, t, c)
    requires forall o, w | o != x || w != v :: SameOwner(s, t, c, o, w) && (Leak(o, w) in had <==> Leak(o, w) in now)
    requires Unowned(t, x, v) <==> Leak(x, v) in now
    ensures Exact(t, now)
  {
    forall o, w
      ensures Unowned(t, o, w) <==> Leak(o, w) in now
    {
      if o != x || w != v {
        SameUnowned(s, t, c, o, w);
      }
    }
  }

  lemma ExactSame(s: System, t: System, c: int, had: set<Leak>)
    requires Exact(s, had) && OthersStay(s, t, c)
    requires forall o, w :: SameOwner(s, t, c, o, w)
    ensures Exact(t, had)
  {
    forall o, w
      ensures Unowned(t, o, w) <==> Leak(o, w) in had
    {
      SameUnowned(s, t, c, o, w);
    }
  }

  lemma SealsStep(s: System, t: System, c: int)
    requires SealsHeld(s) && OthersStay(s, t, c)
    requires forall d, b, w | d in s.calls && d != c && Seals(s.calls[d], b, w) :: GoldenBoot(b) in Alive(t.m, w)
    requires c in t.calls ==>
               forall b, w :: Seals(t.calls[c], b, w) ==> GoldenBoot(b) in Alive(t.m, w) && NobodyElseBoots(s, c, b)
    ensures SealsHeld(t)
  {
    forall d, b, w | d in t.calls && Seals(t.calls[d], b, w)
      ensures SealHeld(t, d, b, w)
    {
      if d != c {
        assert SealHeld(s, d, b, w);
      }
      forall e | e in t.calls && e != d
        ensures !BootsAs(t.calls[e], b)
      {
        if e == c && BootsAs(t.calls[c], b) {
          assert Seals(t.calls[c], b, GoldenOf(t.calls[c]).value.worker);
        }
      }
    }
  }

  /** Golden boots stay where they are, and the call seals nothing it did not seal before. */
  ghost predicate SealsAlike(s: System, t: System, c: int) {
    && (forall b, w :: GoldenBoot(b) in Alive(s.m, w) ==> GoldenBoot(b) in Alive(t.m, w))
    && (c in t.calls ==> forall b, w :: Seals(t.calls[c], b, w) ==> c in s.calls && Seals(s.calls[c], b, w))
  }

  lemma SealsKept(s: System, t: System, c: int)
    requires SealsHeld(s) && OthersStay(s, t, c) && SealsAlike(s, t, c)
    ensures SealsHeld(t)
  {
    SealsStep(s, t, c);
  }

  // ----- steps that change no owner -----

  predicate OwnsNothing(call: Call) {
    && !call.Claimed? && !call.Restored?
    && var g := GoldenOf(call); (g.Some? ==> !g.value.Sealing? && !g.value.Cleaning?)
  }

  /** A call that owns nothing moves on, or leaves; no slot and no record changes. */
  lemma IdleStep(s: System, t: System, c: int, had: set<Leak>)
    requires Exact(s, had) && SealsHeld(s) && OthersStay(s, t, c)
    requires t.m.records == s.m.records && forall w :: Alive(t.m, w) == Alive(s.m, w)
    requires c in s.calls ==> OwnsNothing(s.calls[c])
    requires c in t.calls ==> OwnsNothing(t.calls[c])
    ensures Exact(t, had) && SealsHeld(t)
  {
    forall o, w
      ensures SameOwner(s, t, c, o, w)
    {
    }
    ExactSame(s, t, c, had);
    SealsKept(s, t, c);
  }

  lemma LeakResume(s: System, had: set<Leak>, c: int, step: ResumeStep)
    requires Exact(s, had) && SealsHeld(s) && ResumeEnabled(s, c, step)
    ensures var t := ResumeApply(s, c, step); Exact(t, had) && SealsHeld(t)
  {
    if step.Decide? || step.NeedGolden? || step.Leave? || step.Reserve? {
      LeakChoice(s, had, c, step);
    } else if step.Enter? || step.Refresh? || step.Acquire? || step.Reread? {
      LeakArrival(s, had, c, step);
    } else {
      LeakView(s, had, c, step);
    }
  }

  lemma LeakArrival(s: System, had: set<Leak>, c: int, step: ResumeStep)
    requires Exact(s, had) && SealsHeld(s) && ResumeEnabled(s, c, step)
    requires step.Enter? || step.Refresh? || step.Acquire? || step.Reread?
    ensures var t := ResumeApply(s, c, step); Exact(t, had) && SealsHeld(t)
  {
    IdleStep(s, ResumeApply(s, c, step), c, had);
  }

  lemma LeakView(s: System, had: set<Leak>, c: int, step: ResumeStep)
    requires Exact(s, had) && SealsHeld(s) && ResumeEnabled(s, c, step)
    requires step.ScanStatus? || step.Mask? || step.ViewAtOnce? || step.ListRunning?
    ensures var t := ResumeApply(s, c, step); Exact(t, had) && SealsHeld(t)
  {
    IdleStep(s, ResumeApply(s, c, step), c, had);
  }

  lemma LeakChoice(s: System, had: set<Leak>, c: int, step: ResumeStep)
    requires Exact(s, had) && SealsHeld(s) && ResumeEnabled(s, c, step)
    requires step.Decide? || step.NeedGolden? || step.Leave? || step.Reserve?
    ensures var t := ResumeApply(s, c, step); Exact(t, had) && SealsHeld(t)
  {
    IdleStep(s, ResumeApply(s, c, step), c, had);
  }

  // ----- restores -----

  /** Only the restore of a sandbox itself has its slot on the way; its record is at rest. */
  lemma AloneInRestore(s: System, c: int)
    requires Inv(s) && c in s.calls && InRestore(s.calls[c])
    ensures forall b :: b in s.calls && b != c ==> !Fills(s.calls[b], s.calls[c].sb.id, s.calls[c].worker)
    ensures forall w :: !RunsOn(s.m, s.calls[c].sb.id, w)
  {
    assert CallOk(s.m, s.calls[c]);
  }

  lemma LeakClaimed(s: System, had: set<Leak>, c: int)
    requires Inv(s) && Exact(s, had) && SealsHeld(s) && RestoreEnabled(s, c, ClaimSlot)
    ensures var t := RestoreApply(s, c, ClaimSlot); Exact(t, Leaked(s, Load(c, ClaimSlot), had)) && SealsHeld(t)
  {
    var t, now := RestoreApply(s, c, ClaimSlot), Leaked(s, Load(c, ClaimSlot), had);
    var x, w := Box(s.calls[c].sb.id), s.calls[c].worker;
    assert OwnsAt(t, c, x, w);
    ExactButOne(s, t, c, had, now, x, w);
    SealsKept(s, t, c);
  }

  lemma LeakFetched(s: System, had: set<Leak>, c: int, ending: RestoreFate)
    requires Inv(s) && Exact(s, had) && SealsHeld(s) && RestoreEnabled(s, c, Fetch(ending))
    ensures var t := RestoreApply(s, c, Fetch(ending)); Exact(t, had) && SealsHeld(t)
  {
    var t, call := RestoreApply(s, c, Fetch(ending)), s.calls[c];
    var x, w := Box(call.sb.id), call.worker;
    FetchedSlots(s.m, call.sb, w, call.plan, ending);
    assert OwnsAt(s, c, x, w);
    assert Leak(x, w) !in had;
    assert ending == Started ==> OwnsAt(t, c, x, w);
    FetchedOwners(s, c, ending);
    ExactButOne(s, t, c, had, had, x, w);
    SealsKept(s, t, c);
  }

  /** A fetch leaves every owner but that of its own slot. */
  lemma FetchedOwners(s: System, c: int, ending: RestoreFate)
    requires RestoreEnabled(s, c, Fetch(ending))
    ensures var t := RestoreApply(s, c, Fetch(ending));
            && OthersStay(s, t, c) && SealsAlike(s, t, c)
            && forall o, w | o != Box(s.calls[c].sb.id) || w != s.calls[c].worker :: SameOwner(s, t, c, o, w)
  {
    var call := s.calls[c];
    FetchedSlots(s.m, call.sb, call.worker, call.plan, ending);
  }

  lemma FetchedSlots(m: Machine, sb: Sandbox, w: string, plan: Plan, ending: RestoreFate)
    ensures var n := AfterFetch(m, sb, w, plan, ending);
            && n.records == m.records
            && forall v :: Alive(n, v) == if ending != Started && v == w then Alive(m, v) - {Box(sb.id)}
                                          else Alive(m, v)
  {
  }

  lemma LeakStarted(s: System, had: set<Leak>, c: int, at: Time)
    requires Inv(s) && Exact(s, had) && SealsHeld(s) && RestoreEnabled(s, c, RecordStart(at, true))
    ensures var t := RestoreApply(s, c, RecordStart(at, true)); Exact(t, had) && SealsHeld(t)
  {
    var t := RestoreApply(s, c, RecordStart(at, true));
    var x, w := Box(s.calls[c].sb.id), s.calls[c].worker;
    AloneInRestore(s, c);
    assert OwnsAt(s, c, x, w);
    assert Leak(x, w) !in had;
    assert RecordOwns(t.m, x, w);
    ExactButOne(s, t, c, had, had, x, w);
    SealsKept(s, t, c);
  }

  lemma LeakUnrecorded(s: System, had: set<Leak>, c: int, at: Time)
    requires Inv(s) && Exact(s, had) && SealsHeld(s) && RestoreEnabled(s, c, RecordStart(at, false))
    ensures var step := RecordStart(at, false);
            var t := RestoreApply(s, c, step); Exact(t, Leaked(s, Load(c, step), had)) && SealsHeld(t)
  {
    var step := RecordStart(at, false);
    var t, now := RestoreApply(s, c, step), Leaked(s, Load(c, step), had);
    var x, w := Box(s.calls[c].sb.id), s.calls[c].worker;
    AloneInRestore(s, c);
    assert CallOk(s.m, s.calls[c]);
    assert Unowned(t, x, w);
    ExactButOne(s, t, c, had, now, x, w);
    SealsKept(s, t, c);
  }

  lemma LeakRestore(s: System, had: set<Leak>, c: int, step: RestoreStep)
    requires Inv(s) && Exact(s, had) && SealsHeld(s) && RestoreEnabled(s, c, step)
    ensures var t := RestoreApply(s, c, step); Exact(t, Leaked(s, Load(c, step), had)) && SealsHeld(t)
  {
    match step
    case ClaimSlot => LeakClaimed(s, had, c);
    case Fetch(ending) => LeakFetched(s, had, c, ending);
    case RecordStart(at, stored) => if stored { LeakStarted(s, had, c, at); } else { LeakUnrecorded(s, had, c, at); }
    case RefuseSlot => IdleStep(s, RestoreApply(s, c, step), c, had);
    case Clear => IdleStep(s, RestoreApply(s, c, step), c, had);
  }

  // ----- checkpoints -----

  /** Whoever asks for checkpoints fills and seals nothing. */
  lemma StoppingOwnsNothing(s: System, c: int, step: StopStep)
    requires StopEnabled(s, c, step) && !step.Stop?
    ensures OwnsNothing(s.calls[c]) && OthersStay(s, StopApply(s, c, step), c)
    ensures c in StopApply(s, c, step).calls ==> OwnsNothing(StopApply(s, c, step).calls[c])
  {
  }

  /** A call that owns nothing changes one slot, or one record. */
  lemma IdleButOne(s: System, t: System, c: int, had: set<Leak>, now: set<Leak>, x: Occupant, v: string)
    requires Exact(s, had) && SealsHeld(s) && OthersStay(s, t, c) && x.Box?
    requires c in s.calls ==> OwnsNothing(s.calls[c])
    requires c in t.calls ==> OwnsNothing(t.calls[c])
    requires forall o, w | o != x || w != v ::
               (o in Alive(s.m, w) <==> o in Alive(t.m, w)) && (RecordOwns(s.m, o, w) <==> RecordOwns(t.m, o, w))
    requires forall l :: l != Leak(x, v) ==> (l in had <==> l in now)
    requires x !in Alive(t.m, v) && Leak(x, v) !in now
    ensures Exact(t, now) && SealsHeld(t)
  {
    ExactButOne(s, t, c, had, now, x, v);
    SealsKept(s, t, c);
  }

  lemma LeakVacated(s: System, had: set<Leak>, c: int, retry: bool)
    requires Inv(s) && Exact(s, had) && SealsHeld(s) && StopEnabled(s, c, SendCheckpoint(Done, retry))
    ensures var step := SendCheckpoint(Done, retry);
            var t := StopApply(s, c, step); Exact(t, Leaked(s, Halt(c, step), had)) && SealsHeld(t)
  {
    var step := SendCheckpoint(Done, retry);
    var t, now := StopApply(s, c, step), Leaked(s, Halt(c, step), had);
    var ck := CheckpointOf(s.calls[c]).value;
    CheckpointFrame(s.m, ck.sb, ck.upload, Done);
    StoppingOwnsNothing(s, c, step);
    IdleButOne(s, t, c, had, now, Box(ck.sb.id), ck.sb.worker);
  }

  lemma LeakUnsent(s: System, had: set<Leak>, c: int, fate: CheckpointFate, retry: bool)
    requires Inv(s) && Exact(s, had) && SealsHeld(s) && StopEnabled(s, c, SendCheckpoint(fate, retry)) && fate != Done
    ensures var t := StopApply(s, c, SendCheckpoint(fate, retry)); Exact(t, had) && SealsHeld(t)
  {
    var ck := CheckpointOf(s.calls[c]).value;
    CheckpointFrame(s.m, ck.sb, ck.upload, fate);
    IdleStep(s, StopApply(s, c, SendCheckpoint(fate, retry)), c, had);
  }

  lemma LeakStopped(s: System, had: set<Leak>, c: int, at: Time)
    requires Inv(s) && Exact(s, had) && SealsHeld(s) && StopEnabled(s, c, RecordStop(at))
    ensures var t := StopApply(s, c, RecordStop(at)); Exact(t, had) && SealsHeld(t)
  {
    var t := StopApply(s, c, RecordStop(at));
    var sb := CheckpointOf(s.calls[c]).value.sb;
    assert CallOk(s.m, s.calls[c]);
    StoppingOwnsNothing(s, c, RecordStop(at));
    assert !Unowned(s, Box(sb.id), sb.worker);
    IdleButOne(s, t, c, had, had, Box(sb.id), sb.worker);
  }

  lemma LeakHalt(s: System, had: set<Leak>, c: int, step: StopStep)
    requires Inv(s) && Exact(s, had) && SealsHeld(s) && StopEnabled(s, c, step)
    ensures var t := StopApply(s, c, step); Exact(t, Leaked(s, Halt(c, step), had)) && SealsHeld(t)
  {
    match step
    case SendCheckpoint(fate, retry) =>
      if fate == Done { LeakVacated(s, had, c, retry); } else { LeakUnsent(s, had, c, fate, retry); }
    case RecordStop(at) => LeakStopped(s, had, c, at);
    case Stop(_, _) => IdleStep(s, StopApply(s, c, step), c, had);
    case ReadVictim => IdleStep(s, StopApply(s, c, step), c, had);
    case MissVictim(_) => IdleStep(s, StopApply(s, c, step), c, had);
  }

  // ----- the golden template -----

  lemma LeakBooted(s: System, had: set<Leak>, c: int, boot: int, booted: bool, retry: bool)
    requires Inv(s) && Exact(s, had) && SealsHeld(s) && GoldenEnabled(s, c, BootGolden(boot, booted, retry))
    ensures var t := GoldenApply(s, c, BootGolden(boot, booted, retry)); Exact(t, had) && SealsHeld(t)
  {
    var t := GoldenApply(s, c, BootGolden(boot, booted, retry));
    var x, w := GoldenBoot(boot), GoldenOf(s.calls[c]).value.worker;
    if booted && MayClaim(Alive(s.m, w), x) {
      assert x !in Alive(s.m, w);
      assert Seals(t.calls[c], boot, w);
      assert OwnsAt(t, c, x, w);
      ExactButOne(s, t, c, had, had, x, w);
      SealsStep(s, t, c);
    } else {
      IdleStep(s, t, c, had);
    }
  }

  /** The boot leaves its slot; nobody else's was there. */
  lemma BootGone(s: System, t: System, c: int, had: set<Leak>)
    requires Exact(s, had) && SealsHeld(s) && OthersStay(s, t, c) && t.m.records == s.m.records
    requires c in s.calls && GoldenOf(s.calls[c]).Some?
    requires var g := GoldenOf(s.calls[c]).value;
             && (g.Sealing? || g.Cleaning?)
             && forall v :: Alive(t.m, v) == if v == g.worker then Alive(s.m, v) - {GoldenBoot(g.boot)}
                                             else Alive(s.m, v)
    requires c in t.calls ==> OwnsNothing(t.calls[c])
    ensures Exact(t, had) && SealsHeld(t)
  {
    var g := GoldenOf(s.calls[c]).value;
    var x := GoldenBoot(g.boot);
    assert Seals(s.calls[c], g.boot, g.worker);
    assert OwnsAt(s, c, x, g.worker);
    assert Leak(x, g.worker) !in had;
    ExactButOne(s, t, c, had, had, x, g.worker);
    forall d, b, w | d in s.calls && d != c && Seals(s.calls[d], b, w)
      ensures GoldenBoot(b) in Alive(t.m, w)
    {
      assert BootsAs(s.calls[d], b);
    }
    SealsStep(s, t, c);
  }

  lemma LeakSealed(s: System, had: set<Leak>, c: int, sealed: bool)
    requires Exact(s, had) && SealsHeld(s) && GoldenEnabled(s, c, SealGolden(sealed))
    ensures var t := GoldenApply(s, c, SealGolden(sealed)); Exact(t, had) && SealsHeld(t)
  {
    var t := GoldenApply(s, c, SealGolden(sealed));
    if sealed {
      BootGone(s, t, c, had);
    } else {
      forall o, w
        ensures SameOwner(s, t, c, o, w)
      {
      }
      ExactSame(s, t, c, had);
      SealsKept(s, t, c);
    }
  }

  lemma LeakCleaned(s: System, had: set<Leak>, c: int, cleaned: bool, retry: bool)
    requires Exact(s, had) && SealsHeld(s) && GoldenEnabled(s, c, CleanGolden(cleaned, retry))
    ensures var step := CleanGolden(cleaned, retry);
            var t := GoldenApply(s, c, step); Exact(t, Leaked(s, Build(c, step), had)) && SealsHeld(t)
  {
    var step := CleanGolden(cleaned, retry);
    var t, now := GoldenApply(s, c, step), Leaked(s, Build(c, step), had);
    var g := GoldenOf(s.calls[c]).value;
    if cleaned {
      BootGone(s, t, c, had);
    } else {
      var x := GoldenBoot(g.boot);
      assert Seals(s.calls[c], g.boot, g.worker);
      forall d | d in t.calls
        ensures !CallOwns(t.calls[d], x, g.worker)
      {
        assert NobodyElseBoots(s, c, g.boot);
        assert d != c ==> !BootsAs(s.calls[d], g.boot);
      }
      assert Unowned(t, x, g.worker);
      ExactButOne(s, t, c, had, now, x, g.worker);
      SealsKept(s, t, c);
    }
  }

  lemma LeakPlaced(s: System, had: set<Leak>, c: int, step: GoldenStep)
    requires Exact(s, had) && SealsHeld(s) && GoldenEnabled(s, c, step)
    requires step.AskGolden? || step.PlaceGolden? || step.EvictForGolden? || step.GiveUp? || step.PublishGolden?
    ensures var t := GoldenApply(s, c, step); Exact(t, had) && SealsHeld(t)
  {
    IdleStep(s, GoldenApply(s, c, step), c, had);
  }

  lemma LeakBuild(s: System, had: set<Leak>, c: int, step: GoldenStep)
    requires Inv(s) && Exact(s, had) && SealsHeld(s) && GoldenEnabled(s, c, step)
    ensures var t := GoldenApply(s, c, step); Exact(t, Leaked(s, Build(c, step), had)) && SealsHeld(t)
  {
    match step
    case BootGolden(boot, booted, retry) => LeakBooted(s, had, c, boot, booted, retry);
    case SealGolden(sealed) => LeakSealed(s, had, c, sealed);
    case CleanGolden(cleaned, retry) => LeakCleaned(s, had, c, cleaned, retry);
    case PublishGolden(_, _) => LeakPlaced(s, had, c, step);
    case AskGolden => LeakPlaced(s, had, c, step);
    case PlaceGolden(_) => LeakPlaced(s, had, c, step);
    case EvictForGolden(_, _) => LeakPlaced(s, had, c, step);
    case GiveUp(_) => LeakPlaced(s, had, c, step);
  }

  // ----- Create and Delete -----

  lemma LeakCreated(s: System, had: set<Leak>, id: string, now: Time)
    requires Inv(s) && Exact(s, had) && SealsHeld(s) && ApiEnabled(s, Create(id, now))
    ensures var t := ApiApply(s, Create(id, now)); Exact(t, had) && SealsHeld(t)
  {
    var t := ApiApply(s, Create(id, now));
    assert forall v :: Alive(t.m, v) == Alive(s.m, v);
    assert id in s.m.records ==> RecordOk(s, id);
    ExactSame(s, t, 0, had);
    SealsKept(s, t, 0);
  }

  /** Nobody is restoring a sandbox whose record says running. */
  lemma NobodyFills(s: System, id: string)
    requires Inv(s) && id in s.m.records && s.m.records[id].state == Running
    ensures forall c, w :: c in s.calls ==> !Fills(s.calls[c], id, w)
  {
    forall c, w | c in s.calls
      ensures !Fills(s.calls[c], id, w)
    {
      assert CallOk(s.m, s.calls[c]);
    }
  }

  /** Forgetting the record of a running sandbox: its slot is empty, or it has no owner now. */
  lemma LeakForgotten(s: System, t: System, had: set<Leak>, now: set<Leak>, id: string)
    requires Inv(s) && Exact(s, had) && id in s.m.records && s.m.records[id].state == Running
    requires t.calls == s.calls && t.m.records == s.m.records - {id}
    requires var x, w := Box(id), s.m.records[id].worker;
             && (forall v :: Alive(t.m, v) == Alive(s.m, v) || (v == w && Alive(t.m, v) == Alive(s.m, v) - {x}))
             && now == if x in Alive(t.m, w) then had + {Leak(x, w)} else had
    ensures Exact(t, now)
  {
    var x, w := Box(id), s.m.records[id].worker;
    NobodyFills(s, id);
    assert RecordOwns(s.m, x, w);
    assert Leak(x, w) !in had;
    ExactButOne(s, t, 0, had, now, x, w);
  }

  lemma LeakDeleted(s: System, had: set<Leak>, id: string, freed: bool)
    requires Inv(s) && Exact(s, had) && SealsHeld(s) && ApiEnabled(s, Delete(id, freed))
    ensures var step := Delete(id, freed);
            var t := ApiApply(s, step); Exact(t, Leaked(s, Api(step), had)) && SealsHeld(t)
  {
    var step := Delete(id, freed);
    var t := ApiApply(s, step);
    assert RecordOk(s, id);
    DeletedSlots(s.m, id, freed);
    if s.m.records[id].state == Running {
      LeakForgotten(s, t, had, Leaked(s, Api(step), had), id);
    } else {
      ExactSame(s, t, 0, had);
    }
    SealsKept(s, t, 0);
  }

  lemma DeletedSlots(m: Machine, id: string, freed: bool)
    requires id in m.records && m.records[id].id == id
    ensures var sb := m.records[id];
            var n := Deleted(m, id, freed);
            && n.records == m.records - {id}
            && forall v :: Alive(n, v) == if freed && sb.state == Running && sb.worker != "" && v == sb.worker
                                          then Alive(m, v) - {Box(id)} else Alive(m, v)
  {
    var e := Emptied(m, m.records[id], freed);
    assert forall v :: HostOf(Deleted(m, id, freed), v) == HostOf(e, v);
  }

  // ----- reservations -----

  /** What call `c` had reserved it still has, or has given back. */
  ghost predicate HandsOver(s: System, t: System, c: int) {
    forall w :: w in t.reserve ==>
      || (c in t.calls && Reserves(t.calls[c], t.reserve[w], w))
      || (w in s.reserve && s.reserve[w] == t.reserve[w] && !(c in s.calls && Reserves(s.calls[c], t.reserve[w], w)))
  }

  lemma ReservedStep(s: System, t: System, c: int)
    requires Reserved(s) && OthersStay(s, t, c) && HandsOver(s, t, c)
    ensures Reserved(t)
  {
    forall w | w in t.reserve
      ensures ReservationOwned(t, w)
    {
      if !(c in t.calls && Reserves(t.calls[c], t.reserve[w], w)) {
        assert ReservationOwned(s, w);
        var b :| b in s.calls && Reserves(s.calls[b], s.reserve[w], w);
        assert b in t.calls && t.calls[b] == s.calls[b];
      }
    }
  }

  predicate ReservesNothing(call: Call) {
    !InRestore(call) && !call.Recorded? && !call.Failing?
  }

  lemma ReservedIdle(s: System, t: System, c: int)
    requires Reserved(s) && OthersStay(s, t, c) && t.reserve == s.reserve
    requires c in s.calls ==> ReservesNothing(s.calls[c])
    ensures Reserved(t)
  {
    ReservedStep(s, t, c);
  }

  lemma ReservedResume(s: System, c: int, step: ResumeStep)
    requires Reserved(s) && ResumeEnabled(s, c, step)
    ensures Reserved(ResumeApply(s, c, step))
  {
    if step.Reserve? {
      ReservedStep(s, ResumeApply(s, c, step), c);
    } else {
      ReservedIdle(s, ResumeApply(s, c, step), c);
    }
  }

  lemma ReservedRestore(s: System, c: int, step: RestoreStep)
    requires Reserved(s) && RestoreEnabled(s, c, step)
    ensures Reserved(RestoreApply(s, c, step))
  {
    ReservedStep(s, RestoreApply(s, c, step), c);
  }

  lemma ReservedHalt(s: System, c: int, step: StopStep)
    requires Reserved(s) && StopEnabled(s, c, step)
    ensures Reserved(StopApply(s, c, step))
  {
    ReservedIdle(s, StopApply(s, c, step), c);
  }

  lemma ReservedBuild(s: System, c: int, step: GoldenStep)
    requires Reserved(s) && GoldenEnabled(s, c, step)
    ensures Reserved(GoldenApply(s, c, step))
  {
    ReservedIdle(s, GoldenApply(s, c, step), c);
  }

  lemma ReservedApi(s: System, step: ApiStep)
    requires Reserved(s) && ApiEnabled(s, step)
    ensures Reserved(ApiApply(s, step))
  {
    var t := ApiApply(s, step);
    forall w | w in t.reserve
      ensures ReservationOwned(t, w)
    {
      assert ReservationOwned(s, w);
    }
  }

  lemma KeepsReserved(s: System, a: Action)
    requires Reserved(s) && Enabled(s, a)
    ensures Reserved(Apply(s, a))
  {
    match a
    case Api(step) => ReservedApi(s, step);
    case Admission(c, step) => ReservedResume(s, c, step);
    case Load(c, step) => ReservedRestore(s, c, step);
    case Halt(c, step) => ReservedHalt(s, c, step);
    case Build(c, step) => ReservedBuild(s, c, step);
  }

  // ----- every run -----

  lemma KeepsExact(s: System, had: set<Leak>, a: Action)
    requires Inv(s) && Exact(s, had) && SealsHeld(s) && Enabled(s, a)
    ensures Exact(Apply(s, a), Leaked(s, a, had)) && SealsHeld(Apply(s, a))
  {
    match a
    case Api(Create(id, now)) => LeakCreated(s, had, id, now);
    case Api(Delete(id, freed)) => LeakDeleted(s, had, id, freed);
    case Admission(c, step) => LeakResume(s, had, c, step);
    case Load(c, step) => LeakRestore(s, had, c, step);
    case Halt(c, step) => LeakHalt(s, had, c, step);
    case Build(c, step) => LeakBuild(s, had, c, step);
  }

  lemma {:induction false} RunKeepsExact(s: System, had: set<Leak>, actions: seq<Action>, t: System)
    requires Inv(s) && Exact(s, had) && SealsHeld(s) && Reserved(s) && Run(s, actions, t)
    ensures Inv(t) && Exact(t, LeakedAfter(s, actions, had)) && SealsHeld(t) && Reserved(t)
    decreases |actions|
  {
    if actions != [] {
      var a := actions[0];
      KeepsInv(s, a);
      KeepsExact(s, had, a);
      KeepsReserved(s, a);
      RunKeepsExact(Apply(s, a), Leaked(s, a, had), actions[1..], t);
    }
  }

  /** The failures that can leave an occupant behind: of the delete request of a running sandbox or of a golden boot,
      and of the record write after a restore. */
  predicate LeavesBehind(a: Action) {
    || (a.Api? && a.api.Delete? && !a.api.freed)
    || (a.Load? && a.restore.RecordStart? && !a.restore.stored)
    || (a.Build? && a.golden.CleanGolden? && !a.golden.cleaned)
  }

  /** Without such a failure nothing leaks. */
  lemma {:induction false} NothingLeaks(s: System, actions: seq<Action>)
    requires forall i :: 0 <= i < |actions| ==> !LeavesBehind(actions[i])
    ensures LeakedAfter(s, actions, {}) == {}
    decreases |actions|
  {
    if actions != [] && Enabled(s, actions[0]) {
      assert !LeavesBehind(actions[0]);
      assert Leaked(s, actions[0], {}) == {};
      assert forall i :: 0 <= i < |actions[1..]| ==> actions[1..][i] == actions[i + 1];
      NothingLeaks(Apply(s, actions[0]), actions[1..]);
    }
  }

  // ----- for good -----

  /** Nothing ever frees a leaked golden boot. */
  lemma {:induction false} BootStaysLeaked(s: System, actions: seq<Action>, had: set<Leak>, boot: int, w: string)
    requires Leak(GoldenBoot(boot), w) in had
    ensures Leak(GoldenBoot(boot), w) in LeakedAfter(s, actions, had)
    decreases |actions|
  {
    if actions != [] && Enabled(s, actions[0]) {
      BootStaysLeaked(Apply(s, actions[0]), actions[1..], Leaked(s, actions[0], had), boot, w);
    }
  }

  /** The sandbox was created, its record is gone, and no call is restoring or checkpointing it. */
  ghost predicate Gone(s: System, id: string) {
    && id in s.m.versions && id !in s.m.records && NoPendingOf(s, id)
    && forall c :: c in s.calls ==> !Stops(s.calls[c], id)
  }

  predicate NoPendingOf(s: System, id: string) {
    forall c :: c in s.calls && Pending(s.calls[c]) ==> s.calls[c].sb.id != id
  }

  /** A delete makes a running sandbox gone, unless a checkpoint of it is under way. */
  lemma DeletedIsGone(s: System, id: string, freed: bool)
    requires Inv(s) && ApiEnabled(s, Delete(id, freed)) && s.m.records[id].state == Running
    ensures Gone(ApiApply(s, Delete(id, freed)), id) <==> forall c :: c in s.calls ==> !Stops(s.calls[c], id)
  {
    var t := ApiApply(s, Delete(id, freed));
    assert RecordOk(s, id);
    forall c | c in s.calls && Pending(s.calls[c])
      ensures s.calls[c].sb.id != id
    {
      assert CallOk(s.m, s.calls[c]);
    }
    assert t.calls == s.calls && id in t.m.versions && id !in t.m.records;
  }

  lemma StaysGone(s: System, t: System, c: int, id: string)
    requires Gone(s, id) && id in t.m.versions && id !in t.m.records
    requires forall b :: b in t.calls && b != c ==> b in s.calls && t.calls[b] == s.calls[b]
    requires c in t.calls ==> !Stops(t.calls[c], id) && (Pending(t.calls[c]) ==> t.calls[c].sb.id != id)
    ensures Gone(t, id)
  {
  }

  /** The call may come to checkpoint, or to resume, only sandboxes it was checkpointing or resuming before. */
  predicate NothingNew(s: System, t: System, c: int, id: string) {
    c in t.calls ==>
      && (Stops(t.calls[c], id) ==> c in s.calls && Stops(s.calls[c], id))
      && (Pending(t.calls[c]) && t.calls[c].sb.id == id ==>
            c in s.calls && Pending(s.calls[c]) && s.calls[c].sb.id == id)
  }

  lemma GoneArrival(s: System, c: int, step: ResumeStep, id: string)
    requires Inv(s) && id !in s.m.records && ResumeEnabled(s, c, step)
    requires step.Enter? || step.Refresh? || step.Acquire? || step.Reread? || step.Leave?
    ensures NothingNew(s, ResumeApply(s, c, step), c, id)
  {
    if step.Enter? {
      assert RecordOk(s, step.id);
    }
    if step.Refresh? || step.Reread? {
      var sb := s.calls[c].sb;
      assert sb.id in s.m.records ==> RecordOk(s, sb.id);
    }
  }

  lemma GoneChoice(s: System, c: int, step: ResumeStep, id: string)
    requires ResumeEnabled(s, c, step)
    requires !step.Enter? && !step.Refresh? && !step.Acquire? && !step.Reread? && !step.Leave?
    ensures NothingNew(s, ResumeApply(s, c, step), c, id)
  {
  }

  lemma GoneResume(s: System, c: int, step: ResumeStep, id: string)
    requires Inv(s) && Gone(s, id) && ResumeEnabled(s, c, step)
    ensures Gone(ResumeApply(s, c, step), id)
  {
    if step.Enter? || step.Refresh? || step.Acquire? || step.Reread? || step.Leave? {
      GoneArrival(s, c, step, id);
    } else {
      GoneChoice(s, c, step, id);
    }
    StaysGone(s, ResumeApply(s, c, step), c, id);
  }

  lemma GoneRestore(s: System, c: int, step: RestoreStep, id: string)
    requires Gone(s, id) && RestoreEnabled(s, c, step)
    ensures Gone(RestoreApply(s, c, step), id)
  {
    if step.Fetch? {
      FetchedSlots(s.m, s.calls[c].sb, s.calls[c].worker, s.calls[c].plan, step.ending);
    }
    StaysGone(s, RestoreApply(s, c, step), c, id);
  }

  lemma HaltNothingNew(s: System, c: int, step: StopStep, id: string)
    requires Inv(s) && id !in s.m.records && StopEnabled(s, c, step)
    ensures NothingNew(s, StopApply(s, c, step), c, id)
  {
    if step.ReadVictim? {
      assert RecordOk(s, CheckpointOf(s.calls[c]).value.victim);
    }
  }

  /** Nothing is recorded, and nothing forgotten about, but the sandbox the call was checkpointing. */
  lemma HaltRecords(s: System, c: int, step: StopStep, id: string)
    requires StopEnabled(s, c, step) && (!step.Stop? ==> !Stops(s.calls[c], id))
    requires id in s.m.versions && id !in s.m.records
    ensures id in StopApply(s, c, step).m.versions && id !in StopApply(s, c, step).m.records
  {
    if step.SendCheckpoint? {
      SentRecords(s, c, step.fate, step.retry, id);
    } else if step.RecordStop? {
      StopRecords(s, c, step.now, id);
    }
  }

  lemma SentRecords(s: System, c: int, fate: CheckpointFate, retry: bool, id: string)
    requires StopEnabled(s, c, SendCheckpoint(fate, retry)) && id in s.m.versions && id !in s.m.records
    ensures var t := StopApply(s, c, SendCheckpoint(fate, retry)); id in t.m.versions && id !in t.m.records
  {
    var ck := CheckpointOf(s.calls[c]).value;
    var n := Checkpointed(s.m, ck.sb, ck.upload, fate);
    assert id in n.versions && n.records == s.m.records;
  }

  lemma StopRecords(s: System, c: int, at: Time, id: string)
    requires StopEnabled(s, c, RecordStop(at)) && !Stops(s.calls[c], id) && id in s.m.versions && id !in s.m.records
    ensures var t := StopApply(s, c, RecordStop(at)); id in t.m.versions && id !in t.m.records
  {
    assert Stops(s.calls[c], CheckpointOf(s.calls[c]).value.sb.id);
  }

  lemma GoneHalt(s: System, c: int, step: StopStep, id: string)
    requires Inv(s) && Gone(s, id) && StopEnabled(s, c, step)
    ensures Gone(StopApply(s, c, step), id)
  {
    HaltNothingNew(s, c, step, id);
    HaltRecords(s, c, step, id);
    StaysGone(s, StopApply(s, c, step), c, id);
  }

  lemma BuildNothingNew(s: System, c: int, step: GoldenStep, id: string)
    requires GoldenEnabled(s, c, step)
    ensures NothingNew(s, GoldenApply(s, c, step), c, id)
  {
  }

  lemma BuildOthers(s: System, c: int, step: GoldenStep)
    requires GoldenEnabled(s, c, step)
    ensures OthersStay(s, GoldenApply(s, c, step), c)
  {
  }

  lemma GoneBuild(s: System, c: int, step: GoldenStep, id: string)
    requires Gone(s, id) && GoldenEnabled(s, c, step)
    ensures Gone(GoldenApply(s, c, step), id)
  {
    BuildNothingNew(s, c, step, id);
    BuildRecords(s, c, step);
    BuildOthers(s, c, step);
    StaysGone(s, GoldenApply(s, c, step), c, id);
  }

  lemma GoneApi(s: System, step: ApiStep, id: string)
    requires Gone(s, id) && ApiEnabled(s, step)
    ensures Gone(ApiApply(s, step), id)
  {
    StaysGone(s, ApiApply(s, step), 0, id);
  }

  lemma KeepsGone(s: System, a: Action, id: string)
    requires Inv(s) && Gone(s, id) && Enabled(s, a)
    ensures Gone(Apply(s, a), id)
  {
    match a
    case Api(step) => GoneApi(s, step, id);
    case Admission(c, step) => GoneResume(s, c, step, id);
    case Load(c, step) => GoneRestore(s, c, step, id);
    case Halt(c, step) => GoneHalt(s, c, step, id);
    case Build(c, step) => GoneBuild(s, c, step, id);
  }

  lemma GoneKeepsLeak(s: System, a: Action, had: set<Leak>, id: string, w: string)
    requires Gone(s, id) && Enabled(s, a) && Leak(Box(id), w) in had
    ensures Leak(Box(id), w) in Leaked(s, a, had)
  {
    match a
    case Api(step) =>
    case Admission(_, _) =>
    case Load(c, step) =>
    case Halt(c, step) =>
      if Vacates(s, c, step) {
        assert Stops(s.calls[c], CheckpointOf(s.calls[c]).value.sb.id);
      }
    case Build(c, step) =>
  }

  /** Nothing ever frees the leaked slot of a sandbox that is gone: not even another delete. */
  lemma {:induction false} BoxStaysLeaked(s: System, actions: seq<Action>, had: set<Leak>, id: string, w: string)
    requires Inv(s) && Gone(s, id) && Leak(Box(id), w) in had
    ensures Leak(Box(id), w) in LeakedAfter(s, actions, had)
    decreases |actions|
  {
    if actions != [] && Enabled(s, actions[0]) {
      var a := actions[0];
      KeepsInv(s, a);
      KeepsGone(s, a, id);
      GoneKeepsLeak(s, a, had, id, w);
      BoxStaysLeaked(Apply(s, a), actions[1..], Leaked(s, a, had), id, w);
    }
  }
}
