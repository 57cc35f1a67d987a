/** Whatever the calls do, they do it to the system's own Workers: no step names another. */
module ProtocolHosts {
  import opened Types
  import opened WorkerAgent
  import opened Protocol
  import opened ProtocolSafety

  predicate KnownTo(hosts: set<string>, w: string) { w == "" || w in hosts }

  predicate CheckpointKnown(hosts: set<string>, ck: Checkpoint) {
    ck.Asked? || KnownTo(hosts, ck.sb.worker)
  }

  predicate GoldenKnown(hosts: set<string>, g: Golden) {
    match g
    case Placing => true
    case Making(w, ck) => KnownTo(hosts, w) && CheckpointKnown(hosts, ck)
    case Booting(w) => KnownTo(hosts, w)
    case Sealing(w, _) => KnownTo(hosts, w)
    case Cleaning(w, _) => KnownTo(hosts, w)
    case Publishing => true
  }

  ghost predicate CallKnown(hosts: set<string>, call: Call) {
    match call
    case Lobby(sb) => KnownTo(hosts, sb.worker)
    case Held(sb) => KnownTo(hosts, sb.worker)
    case Scanning(sb, free) => KnownTo(hosts, sb.worker) && free <= hosts
    case Masked(sb, free) => KnownTo(hosts, sb.worker) && free <= hosts
    case Listed(sb, free, running) =>
      KnownTo(hosts, sb.worker) && free <= hosts && forall v :: v in running ==> KnownTo(hosts, running[v])
    case Evicting(sb, w, ck) => KnownTo(hosts, sb.worker) && KnownTo(hosts, w) && CheckpointKnown(hosts, ck)
    case Chosen(sb, w) => KnownTo(hosts, sb.worker) && KnownTo(hosts, w)
    case Preparing(sb, w, g) => KnownTo(hosts, sb.worker) && KnownTo(hosts, w) && GoldenKnown(hosts, g)
    case Restoring(sb, w, _) => KnownTo(hosts, w)
    case Claimed(sb, w, _) => KnownTo(hosts, w)
    case Restored(sb, w, _, _, _) => KnownTo(hosts, w)
    case Recorded(_, _) => true
    case Failing(_, _) => true
    case Stopping(ck) => CheckpointKnown(hosts, ck)
    case Ensuring(g) => GoldenKnown(hosts, g)
  }

  /** Every Worker a record or a call names is one of the system's. */
  ghost predicate Known(s: System) {
    && (forall id :: id in s.m.records ==> KnownTo(s.m.hosts.Keys, s.m.records[id].worker))
    && (forall c :: c in s.calls ==> CallKnown(s.m.hosts.Keys, s.calls[c]))
  }

  /** The Workers stay, and whatever is new is known. */
  lemma StaysKnown(s: System, t: System, c: int)
    requires Known(s) && t.m.hosts.Keys == s.m.hosts.Keys
    requires forall b :: b in t.calls && b != c ==> b in s.calls && t.calls[b] == s.calls[b]
    requires c in t.calls ==> CallKnown(s.m.hosts.Keys, t.calls[c])
    requires forall id :: id in t.m.records ==>
               (id in s.m.records && t.m.records[id].worker == s.m.records[id].worker)
               || KnownTo(s.m.hosts.Keys, t.m.records[id].worker)
    ensures Known(t)
  {
  }

  lemma GotoKnown(s: System, u: System, c: int, next: Call)
    requires Known(s) && u.calls == s.calls && u.m.hosts.Keys == s.m.hosts.Keys && u.m.records == s.m.records
    requires CallKnown(s.m.hosts.Keys, next)
    ensures Known(Goto(u, c, next))
  {
    StaysKnown(s, Goto(u, c, next), c);
  }

  lemma ExitKnown(s: System, u: System, c: int, retry: bool)
    requires Known(s) && u.calls == s.calls && u.m.hosts.Keys == s.m.hosts.Keys && u.m.records == s.m.records
    requires c in s.calls && (retry && IsResume(s.calls[c]) ==> KnownTo(s.m.hosts.Keys, s.calls[c].sb.worker))
    ensures Known(Exit(u, c, retry))
  {
    StaysKnown(s, Exit(u, c, retry), c);
  }

  lemma WithGoldenKnown(hosts: set<string>, call: Call, g: Golden)
    requires CallKnown(hosts, call) && GoldenOf(call).Some?
    ensures GoldenKnown(hosts, GoldenOf(call).value)
    ensures GoldenKnown(hosts, g) ==> CallKnown(hosts, WithGolden(call, g))
    ensures IsResume(call) ==> KnownTo(hosts, call.sb.worker) && call.Preparing? && KnownTo(hosts, call.worker)
  {
  }

  lemma WithCheckpointKnown(hosts: set<string>, call: Call, ck: Checkpoint)
    requires CallKnown(hosts, call) && CheckpointOf(call).Some?
    ensures CheckpointKnown(hosts, CheckpointOf(call).value)
    ensures CheckpointKnown(hosts, ck) ==> CallKnown(hosts, WithCheckpoint(call, ck))
    ensures IsResume(call) ==> KnownTo(hosts, call.sb.worker) && KnownTo(hosts, call.worker)
  {
  }

  lemma KnownArrival(s: System, c: int, step: ResumeStep)
    requires Known(s) && ResumeEnabled(s, c, step)
    requires step.Enter? || step.Refresh? || step.Acquire? || step.Reread? || step.Leave?
    ensures Known(ResumeApply(s, c, step))
  {
    StaysKnown(s, ResumeApply(s, c, step), c);
  }

  lemma KnownView(s: System, c: int, step: ResumeStep)
    requires Known(s) && ResumeEnabled(s, c, step)
    requires step.ScanStatus? || step.Mask? || step.ViewAtOnce? || step.ListRunning?
    ensures Known(ResumeApply(s, c, step))
  {
    StaysKnown(s, ResumeApply(s, c, step), c);
  }

  lemma KnownChoice(s: System, c: int, step: ResumeStep)
    requires Known(s) && ResumeEnabled(s, c, step)
    requires step.Decide? || step.NeedGolden? || step.Reserve?
    ensures Known(ResumeApply(s, c, step))
  {
    StaysKnown(s, ResumeApply(s, c, step), c);
  }

  lemma KnownResume(s: System, c: int, step: ResumeStep)
    requires Known(s) && ResumeEnabled(s, c, step)
    ensures var t := ResumeApply(s, c, step); Known(t) && t.m.hosts.Keys == s.m.hosts.Keys
  {
    if step.ScanStatus? || step.Mask? || step.ViewAtOnce? || step.ListRunning? {
      KnownView(s, c, step);
    } else if step.Decide? || step.NeedGolden? || step.Reserve? {
      KnownChoice(s, c, step);
    } else {
      KnownArrival(s, c, step);
    }
  }

  lemma FetchHosts(m: Machine, sb: Sandbox, w: string, plan: Plan, ending: RestoreFate)
    requires w in m.hosts
    ensures AfterFetch(m, sb, w, plan, ending).hosts.Keys == m.hosts.Keys
  {
  }

  lemma RestoreHosts(s: System, c: int, step: RestoreStep)
    requires RestoreEnabled(s, c, step) && (InRestore(s.calls[c]) ==> s.calls[c].worker in s.m.hosts)
    ensures RestoreApply(s, c, step).m.hosts.Keys == s.m.hosts.Keys
  {
    if step.Fetch? {
      FetchHosts(s.m, s.calls[c].sb, s.calls[c].worker, s.calls[c].plan, step.ending);
    }
  }

  lemma KnownRestore(s: System, c: int, step: RestoreStep)
    requires Inv(s) && Known(s) && RestoreEnabled(s, c, step)
    ensures var t := RestoreApply(s, c, step); Known(t) && t.m.hosts.Keys == s.m.hosts.Keys
  {
    if InRestore(s.calls[c]) {
      InRestoreKnown(s, c);
    }
    RestoreHosts(s, c, step);
    StaysKnown(s, RestoreApply(s, c, step), c);
  }

  lemma InRestoreKnown(s: System, c: int)
    requires Inv(s) && Known(s) && c in s.calls && InRestore(s.calls[c])
    ensures s.calls[c].worker in s.m.hosts
  {
    assert CallOk(s.m, s.calls[c]) && CallKnown(s.m.hosts.Keys, s.calls[c]);
  }

  lemma CheckpointHosts(m: Machine, sb: Sandbox, upload: bool, fate: CheckpointFate)
    requires sb.worker in m.hosts
    ensures Checkpointed(m, sb, upload, fate).hosts.Keys == m.hosts.Keys
  {
  }

  lemma HaltHosts(s: System, c: int, step: StopStep)
    requires StopEnabled(s, c, step)
    requires step.SendCheckpoint? ==> CheckpointOf(s.calls[c]).value.sb.worker in s.m.hosts
    ensures StopApply(s, c, step).m.hosts.Keys == s.m.hosts.Keys
  {
    if step.SendCheckpoint? {
      var ck := CheckpointOf(s.calls[c]).value;
      CheckpointHosts(s.m, ck.sb, ck.upload, step.fate);
    }
  }

  lemma InFlightKnown(s: System, c: int)
    requires Inv(s) && Known(s) && c in s.calls && CheckpointOf(s.calls[c]).Some?
    requires CheckpointOf(s.calls[c]).value.InFlight?
    ensures CheckpointOf(s.calls[c]).value.sb.worker in s.m.hosts
  {
    assert CallOk(s.m, s.calls[c]) && CallKnown(s.m.hosts.Keys, s.calls[c]);
  }

  lemma KnownSent(s: System, c: int, fate: CheckpointFate, retry: bool)
    requires Known(s) && StopEnabled(s, c, SendCheckpoint(fate, retry))
    requires StopApply(s, c, SendCheckpoint(fate, retry)).m.hosts.Keys == s.m.hosts.Keys
    ensures Known(StopApply(s, c, SendCheckpoint(fate, retry)))
  {
    var ck := CheckpointOf(s.calls[c]).value;
    var u := s.(m := Checkpointed(s.m, ck.sb, ck.upload, fate));
    WithCheckpointKnown(s.m.hosts.Keys, s.calls[c], Taken(ck.sb, ck.upload));
    if fate == Done {
      GotoKnown(s, u, c, WithCheckpoint(s.calls[c], Taken(ck.sb, ck.upload)));
    } else {
      ExitKnown(s, u, c, retry);
    }
  }

  lemma KnownStopped(s: System, c: int, now: Time)
    requires Known(s) && StopEnabled(s, c, RecordStop(now))
    ensures Known(StopApply(s, c, RecordStop(now)))
  {
    var ck := CheckpointOf(s.calls[c]).value;
    WithCheckpointKnown(s.m.hosts.Keys, s.calls[c], ck);
    StaysKnown(s, StopApply(s, c, RecordStop(now)), c);
  }

  lemma KnownRead(s: System, c: int, step: StopStep)
    requires Known(s) && StopEnabled(s, c, step) && (step.Stop? || step.ReadVictim? || step.MissVictim?)
    ensures Known(StopApply(s, c, step))
  {
    if step.ReadVictim? {
      var ck := CheckpointOf(s.calls[c]).value;
      WithCheckpointKnown(s.m.hosts.Keys, s.calls[c], InFlight(s.m.records[ck.victim], ck.upload));
    } else if step.MissVictim? {
      WithCheckpointKnown(s.m.hosts.Keys, s.calls[c], CheckpointOf(s.calls[c]).value);
    }
    StaysKnown(s, StopApply(s, c, step), c);
  }

  lemma KnownHalt(s: System, c: int, step: StopStep)
    requires Inv(s) && Known(s) && StopEnabled(s, c, step)
    ensures var t := StopApply(s, c, step); Known(t) && t.m.hosts.Keys == s.m.hosts.Keys
  {
    if step.SendCheckpoint? {
      InFlightKnown(s, c);
    }
    HaltHosts(s, c, step);
    match step
    case SendCheckpoint(fate, retry) => KnownSent(s, c, fate, retry);
    case RecordStop(now) => KnownStopped(s, c, now);
    case Stop(_, _) => KnownRead(s, c, step);
    case ReadVictim => KnownRead(s, c, step);
    case MissVictim(_) => KnownRead(s, c, step);
  }

  lemma BuildHosts(s: System, c: int, step: GoldenStep)
    requires GoldenEnabled(s, c, step)
    requires step.BootGolden? || step.SealGolden? || step.CleanGolden? ==>
               GoldenOf(s.calls[c]).value.worker in s.m.hosts
    ensures GoldenApply(s, c, step).m.hosts.Keys == s.m.hosts.Keys
  {
  }

  lemma BootingKnown(s: System, c: int)
    requires Inv(s) && Known(s) && c in s.calls && GoldenOf(s.calls[c]).Some?
    requires var g := GoldenOf(s.calls[c]).value; g.Booting? || g.Sealing? || g.Cleaning?
    ensures GoldenOf(s.calls[c]).value.worker in s.m.hosts
  {
    assert CallOk(s.m, s.calls[c]) && CallKnown(s.m.hosts.Keys, s.calls[c]);
  }

  lemma KnownPlacing(s: System, c: int, step: GoldenStep)
    requires Known(s) && GoldenEnabled(s, c, step)
    requires step.AskGolden? || step.PlaceGolden? || step.EvictForGolden? || step.GiveUp?
    ensures Known(GoldenApply(s, c, step))
  {
    StaysKnown(s, GoldenApply(s, c, step), c);
  }

  lemma KnownBooted(s: System, c: int, boot: int, booted: bool, retry: bool)
    requires Known(s) && GoldenEnabled(s, c, BootGolden(boot, booted, retry))
    requires GoldenOf(s.calls[c]).value.worker in s.m.hosts
    ensures Known(GoldenApply(s, c, BootGolden(boot, booted, retry)))
  {
    var call, w := s.calls[c], GoldenOf(s.calls[c]).value.worker;
    WithGoldenKnown(s.m.hosts.Keys, call, Sealing(w, boot));
    if booted && MayClaim(Alive(s.m, w), GoldenBoot(boot)) {
      var n := SetAlive(s.m, w, Alive(s.m, w) + {GoldenBoot(boot)});
      GotoKnown(s, s.(m := n), c, WithGolden(call, Sealing(w, boot)));
    } else {
      ExitKnown(s, s, c, retry);
    }
  }

  lemma KnownSealed(s: System, c: int, sealed: bool)
    requires Known(s) && GoldenEnabled(s, c, SealGolden(sealed)) && GoldenOf(s.calls[c]).value.worker in s.m.hosts
    ensures Known(GoldenApply(s, c, SealGolden(sealed)))
  {
    var call, g := s.calls[c], GoldenOf(s.calls[c]).value;
    WithGoldenKnown(s.m.hosts.Keys, call, Publishing);
    WithGoldenKnown(s.m.hosts.Keys, call, Cleaning(g.worker, g.boot));
    if sealed {
      GotoKnown(s, s.(m := WithoutGolden(s.m, g.worker, g.boot)), c, WithGolden(call, Publishing));
    } else {
      GotoKnown(s, s, c, WithGolden(call, Cleaning(g.worker, g.boot)));
    }
  }

  lemma KnownCleaned(s: System, c: int, cleaned: bool, retry: bool)
    requires Known(s) && GoldenEnabled(s, c, CleanGolden(cleaned, retry))
    requires GoldenOf(s.calls[c]).value.worker in s.m.hosts
    ensures Known(GoldenApply(s, c, CleanGolden(cleaned, retry)))
  {
    var g := GoldenOf(s.calls[c]).value;
    WithGoldenKnown(s.m.hosts.Keys, s.calls[c], g);
    if cleaned {
      ExitKnown(s, s.(m := WithoutGolden(s.m, g.worker, g.boot)), c, retry);
    } else {
      ExitKnown(s, s, c, retry);
    }
  }

  lemma KnownPublished(s: System, c: int, stored: bool, retry: bool)
    requires Known(s) && GoldenEnabled(s, c, PublishGolden(stored, retry))
    ensures Known(GoldenApply(s, c, PublishGolden(stored, retry)))
  {
    var call := s.calls[c];
    WithGoldenKnown(s.m.hosts.Keys, call, Publishing);
    if !stored {
      ExitKnown(s, s, c, retry);
    } else if call.Preparing? {
      GotoKnown(s, s.(m := PutGolden(s.m)), c, Chosen(call.sb, call.worker));
    } else {
      ExitKnown(s, s.(m := PutGolden(s.m)), c, false);
    }
  }

  lemma KnownBuild(s: System, c: int, step: GoldenStep)
    requires Inv(s) && Known(s) && GoldenEnabled(s, c, step)
    ensures var t := GoldenApply(s, c, step); Known(t) && t.m.hosts.Keys == s.m.hosts.Keys
  {
    if step.BootGolden? || step.SealGolden? || step.CleanGolden? {
      BootingKnown(s, c);
    }
    BuildHosts(s, c, step);
    match step
    case BootGolden(boot, booted, retry) => KnownBooted(s, c, boot, booted, retry);
    case SealGolden(sealed) => KnownSealed(s, c, sealed);
    case CleanGolden(cleaned, retry) => KnownCleaned(s, c, cleaned, retry);
    case PublishGolden(stored, retry) => KnownPublished(s, c, stored, retry);
    case AskGolden => KnownPlacing(s, c, step);
    case PlaceGolden(_) => KnownPlacing(s, c, step);
    case EvictForGolden(_, _) => KnownPlacing(s, c, step);
    case GiveUp(_) => KnownPlacing(s, c, step);
  }

  lemma KnownCreate(s: System, id: string, now: Time)
    requires Known(s) && ApiEnabled(s, Create(id, now))
    ensures var t := ApiApply(s, Create(id, now)); Known(t) && t.m.hosts.Keys == s.m.hosts.Keys
  {
    StaysKnown(s, ApiApply(s, Create(id, now)), 0);
  }

  lemma DeletedHosts(m: Machine, id: string, freed: bool)
    requires id in m.records && KnownTo(m.hosts.Keys, m.records[id].worker)
    ensures Deleted(m, id, freed).hosts.Keys == m.hosts.Keys
  {
  }

  lemma KnownDelete(s: System, id: string, freed: bool)
    requires Known(s) && ApiEnabled(s, Delete(id, freed))
    ensures var t := ApiApply(s, Delete(id, freed)); Known(t) && t.m.hosts.Keys == s.m.hosts.Keys
  {
    DeletedHosts(s.m, id, freed);
    StaysKnown(s, ApiApply(s, Delete(id, freed)), 0);
  }

  lemma KeepsHosts(s: System, a: Action)
    requires Inv(s) && Known(s) && Enabled(s, a)
    ensures Known(Apply(s, a)) && Apply(s, a).m.hosts.Keys == s.m.hosts.Keys
  {
    match a
    case Api(Create(id, now)) => KnownCreate(s, id, now);
    case Api(Delete(id, freed)) => KnownDelete(s, id, freed);
    case Admission(c, step) => KnownResume(s, c, step);
    case Load(c, step) => KnownRestore(s, c, step);
    case Halt(c, step) => KnownHalt(s, c, step);
    case Build(c, step) => KnownBuild(s, c, step);
  }

  /** No run adds a Worker or loses one. */
  lemma {:induction false} RunKeepsHosts(s: System, actions: seq<Action>, t: System)
    requires Inv(s) && Known(s) && Run(s, actions, t)
    ensures Known(t) && t.m.hosts.Keys == s.m.hosts.Keys
    decreases |actions|
  {
    if actions != [] {
      KeepsInv(s, actions[0]);
      KeepsHosts(s, actions[0]);
      RunKeepsHosts(Apply(s, actions[0]), actions[1..], t);
    }
  }
}
