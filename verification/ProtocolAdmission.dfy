/** Exclusivity of reservations, and exactly which runs have it (internal/scheduler/scheduler.go:697-766). */
module ProtocolAdmission {
  import opened Types
  import opened WorkerAgent
  import opened Protocol
  import opened ProtocolSafety

  predicate RunsOn(m: Machine, id: string, w: string) {
    id in m.records && m.records[id].state == Running && m.records[id].worker == w
  }

  /** No restore is under way on this Worker. */
  predicate NoRestore(s: System, w: string) {
    forall c :: c in s.calls && InRestore(s.calls[c]) ==> s.calls[c].worker != w
  }

  /** No sandbox but `id` is in the slot of this Worker, or recorded running there. */
  ghost predicate OnlyFor(m: Machine, w: string, id: string) {
    forall z :: z != id ==> Box(z) !in Alive(m, w) && !RunsOn(m, z, w)
  }

  ghost predicate Vacant(s: System, w: string) {
    && NoRestore(s, w)
    && forall z :: Box(z) !in Alive(s.m, w) && !RunsOn(s.m, z, w)
  }

  /** `v` was seen running on `w`, and still is unless deleted. */
  predicate Occupies(s: System, v: string, w: string) {
    && v in s.m.versions && (v in s.m.records ==> RunsOn(s.m, v, w))
    && forall c :: c in s.calls && Pending(s.calls[c]) ==> s.calls[c].sb.id != v
  }

  ghost predicate Admissible(s: System, call: Call) {
    match call
    case Masked(_, free) => forall w :: w in free ==> Vacant(s, w)
    case Listed(_, free, running) =>
      && (forall w :: w in free ==> Vacant(s, w))
      && (forall v :: v in running ==> Occupies(s, v, running[v]))
    case Evicting(_, w, Asked(v, _)) => Occupies(s, v, w)
    case Evicting(_, w, InFlight(v, _)) => v.worker == w && NoRestore(s, w) && OnlyFor(s.m, w, v.id)
    case Evicting(_, w, Taken(v, _)) =>
      v.worker == w && NoRestore(s, w) && OnlyFor(s.m, w, v.id) && Box(v.id) !in Alive(s.m, w)
    case Chosen(_, w) => Vacant(s, w)
    case Preparing(_, w, _) => Vacant(s, w)
    case Restoring(sb, w, _) => w in s.reserve && s.reserve[w] == sb.id && OnlyFor(s.m, w, sb.id)
    case Claimed(sb, w, _) => w in s.reserve && s.reserve[w] == sb.id && OnlyFor(s.m, w, sb.id)
    case Restored(sb, w, _, _, _) => w in s.reserve && s.reserve[w] == sb.id && OnlyFor(s.m, w, sb.id)
    case _ => true
  }

  ghost predicate Exclusive(s: System) {
    forall c :: c in s.calls ==> Admissible(s, s.calls[c])
  }

  // ----- steps that let nobody in -----

  /** Nothing new is restored, slotted or running, and records of running sandboxes stay put unless
      the mutex holder moves. */
  ghost predicate Calmer(s: System, t: System, c: int) {
    && (forall b :: b in t.calls && InRestore(t.calls[b]) ==>
          b in s.calls && InRestore(s.calls[b]) && s.calls[b].worker == t.calls[b].worker)
    && s.m.versions.Keys <= t.m.versions.Keys
    && (forall w, z :: Box(z) in Alive(t.m, w) ==> Box(z) in Alive(s.m, w))
    && (forall w, z :: RunsOn(t.m, z, w) ==> RunsOn(s.m, z, w))
    && (s.knock == Some(c) ||
        forall z :: z in s.m.records && s.m.records[z].state == Running && z in t.m.records ==>
          t.m.records[z] == s.m.records[z])
    && (s.knock == Some(c) ||
        forall z :: z in t.m.records ==> z in s.m.records || z !in s.m.versions)
    && (forall b :: b in t.calls && Pending(t.calls[b]) ==>
          (b in s.calls && Pending(s.calls[b]) && s.calls[b].sb.id == t.calls[b].sb.id)
          || (t.calls[b].sb.id in s.m.records && s.m.records[t.calls[b].sb.id].state != Running))
  }

  lemma CalmKeepsCall(s: System, t: System, c: int, call: Call)
    requires Calmer(s, t, c) && Admissible(s, call)
    requires InRestore(call) ==> call.worker in t.reserve && t.reserve[call.worker] == call.sb.id
    requires HoldsKnock(call) ==> s.knock != Some(c)
    ensures Admissible(t, call)
  {
  }

  /** Resumes in their restore keep their reservation, whatever call `c` does to the map. */
  ghost predicate KeepsReservations(s: System, t: System, c: int) {
    forall b :: b in s.calls && b != c && InRestore(s.calls[b]) ==>
      s.calls[b].worker in t.reserve && t.reserve[s.calls[b].worker] == s.calls[b].sb.id
  }

  lemma CalmStep(s: System, t: System, c: int)
    requires Locks(s) && Exclusive(s) && Moves(s, t, c) && Calmer(s, t, c) && KeepsReservations(s, t, c)
    requires c in t.calls ==> Admissible(t, t.calls[c])
    ensures Exclusive(t)
  {
    forall b | b in t.calls && b != c
      ensures Admissible(t, t.calls[b])
    {
      CalmKeepsCall(s, t, c, s.calls[b]);
    }
  }

  lemma SameReservations(s: System, t: System, c: int)
    requires Exclusive(s) && t.reserve == s.reserve
    ensures KeepsReservations(s, t, c)
  {
    forall b | b in s.calls && b != c && InRestore(s.calls[b])
      ensures s.calls[b].worker in t.reserve && t.reserve[s.calls[b].worker] == s.calls[b].sb.id
    {
      assert Admissible(s, s.calls[b]);
    }
  }

  /** The call only moves on or leaves; the machine and the reservations stay. */
  lemma QuietStep(s: System, t: System, c: int)
    requires Locks(s) && Exclusive(s) && Moves(s, t, c) && t.m == s.m && t.reserve == s.reserve
    requires c in t.calls && InRestore(t.calls[c]) ==>
               c in s.calls && InRestore(s.calls[c]) && s.calls[c].worker == t.calls[c].worker
    requires c in t.calls && Pending(t.calls[c]) ==>
               (c in s.calls && Pending(s.calls[c]) && s.calls[c].sb.id == t.calls[c].sb.id)
               || (t.calls[c].sb.id in s.m.records && s.m.records[t.calls[c].sb.id].state != Running)
    requires c in t.calls ==> Admissible(t, t.calls[c])
    ensures Exclusive(t)
  {
    SameReservations(s, t, c);
    CalmStep(s, t, c);
  }

  /** While its call holds the mutex and checkpoints nobody, whoever is recorded running on a Worker is in its slot. */
  lemma VacantWhenIdle(s: System, c: int, w: string)
    requires Inv(s) && s.knock == Some(c) && !HasTaken(s, c)
    requires (forall z :: Box(z) !in Alive(s.m, w)) && NoRestore(s, w)
    ensures Vacant(s, w)
  {
    forall z
      ensures !RunsOn(s.m, z, w)
    {
      if z in s.m.records {
        assert RecordOk(s, z);
      }
    }
  }

  lemma ExclusiveEnter(s: System, c: int, id: string)
    requires Inv(s) && Exclusive(s) && ResumeEnabled(s, c, Enter(id))
    ensures Exclusive(ResumeApply(s, c, Enter(id)))
  {
    var t := ResumeApply(s, c, Enter(id));
    QuietStep(s, t, c);
  }

  lemma ExclusiveAcquire(s: System, c: int)
    requires Inv(s) && Exclusive(s) && ResumeEnabled(s, c, Acquire)
    ensures Exclusive(ResumeApply(s, c, Acquire))
  {
    var t := ResumeApply(s, c, Acquire);
    QuietStep(s, t, c);
  }

  lemma ExclusiveStop(s: System, c: int, v: string, upload: bool)
    requires Inv(s) && Exclusive(s) && StopEnabled(s, c, StopStep.Stop(v, upload))
    ensures Exclusive(StopApply(s, c, StopStep.Stop(v, upload)))
  {
    var t := StopApply(s, c, StopStep.Stop(v, upload));
    QuietStep(s, t, c);
  }

  lemma ExclusiveAskGolden(s: System, c: int)
    requires Inv(s) && Exclusive(s) && GoldenEnabled(s, c, AskGolden)
    ensures Exclusive(GoldenApply(s, c, AskGolden))
  {
    var t := GoldenApply(s, c, AskGolden);
    QuietStep(s, t, c);
  }

  lemma ExclusiveRefresh(s: System, c: int)
    requires Inv(s) && Exclusive(s) && ResumeEnabled(s, c, Refresh)
    ensures Exclusive(ResumeApply(s, c, Refresh))
  {
    var t := ResumeApply(s, c, Refresh);
    Continued(s, t, c, t.calls[c]);
    QuietStep(s, t, c);
  }

  lemma ExclusiveReread(s: System, c: int)
    requires Inv(s) && Exclusive(s) && ResumeEnabled(s, c, Reread)
    ensures Exclusive(ResumeApply(s, c, Reread))
  {
    var t := ResumeApply(s, c, Reread);
    Continued(s, t, c, t.calls[c]);
    QuietStep(s, t, c);
  }

  lemma ExclusiveNeedGolden(s: System, c: int)
    requires Inv(s) && Exclusive(s) && ResumeEnabled(s, c, NeedGolden)
    ensures Exclusive(ResumeApply(s, c, NeedGolden))
  {
    var t := ResumeApply(s, c, NeedGolden);
    Continued(s, t, c, t.calls[c]);
    QuietStep(s, t, c);
  }

  lemma ExclusiveRefuseSlot(s: System, c: int)
    requires Inv(s) && Exclusive(s) && RestoreEnabled(s, c, RefuseSlot)
    ensures Exclusive(RestoreApply(s, c, RefuseSlot))
  {
    var t := RestoreApply(s, c, RefuseSlot);
    Continued(s, t, c, t.calls[c]);
    QuietStep(s, t, c);
  }

  lemma ExclusivePlaceGolden(s: System, c: int, w: string)
    requires Inv(s) && Exclusive(s) && GoldenEnabled(s, c, PlaceGolden(w))
    ensures Exclusive(GoldenApply(s, c, PlaceGolden(w)))
  {
    var t := GoldenApply(s, c, PlaceGolden(w));
    Continued(s, t, c, t.calls[c]);
    QuietStep(s, t, c);
  }

  lemma ExclusiveEvictForGolden(s: System, c: int, v: string, w: string)
    requires Inv(s) && Exclusive(s) && GoldenEnabled(s, c, EvictForGolden(v, w))
    ensures Exclusive(GoldenApply(s, c, EvictForGolden(v, w)))
  {
    var t := GoldenApply(s, c, EvictForGolden(v, w));
    Continued(s, t, c, t.calls[c]);
    QuietStep(s, t, c);
  }

  lemma ExclusiveLeave(s: System, c: int, retry: bool)
    requires Inv(s) && Exclusive(s) && ResumeEnabled(s, c, Leave(retry))
    ensures Exclusive(ResumeApply(s, c, Leave(retry)))
  {
    var t := ResumeApply(s, c, Leave(retry));
    Exited(s, s, c, retry);
    QuietStep(s, t, c);
  }

  lemma ExclusiveMissVictim(s: System, c: int, retry: bool)
    requires Inv(s) && Exclusive(s) && StopEnabled(s, c, MissVictim(retry))
    ensures Exclusive(StopApply(s, c, MissVictim(retry)))
  {
    var t := StopApply(s, c, MissVictim(retry));
    Exited(s, s, c, retry);
    QuietStep(s, t, c);
  }

  lemma ExclusiveGiveUp(s: System, c: int, retry: bool)
    requires Inv(s) && Exclusive(s) && GoldenEnabled(s, c, GiveUp(retry))
    ensures Exclusive(GoldenApply(s, c, GiveUp(retry)))
  {
    var t := GoldenApply(s, c, GiveUp(retry));
    Exited(s, s, c, retry);
    QuietStep(s, t, c);
  }

  lemma ExclusiveViewAtOnce(s: System, c: int, ws: set<string>)
    requires Inv(s) && Exclusive(s) && ResumeEnabled(s, c, ViewAtOnce(ws))
    ensures Exclusive(ResumeApply(s, c, ViewAtOnce(ws)))
  {
    var t := ResumeApply(s, c, ViewAtOnce(ws));
    Continued(s, t, c, t.calls[c]);
    forall w | w in t.calls[c].free
      ensures Vacant(t, w)
    {
      forall b | b in s.calls && InRestore(s.calls[b])
        ensures s.calls[b].worker != w
      {
        assert Admissible(s, s.calls[b]);
      }
      VacantWhenIdle(s, c, w);
    }
    QuietStep(s, t, c);
  }

  lemma ExclusiveListRunning(s: System, c: int)
    requires Inv(s) && Exclusive(s) && ResumeEnabled(s, c, ListRunning)
    ensures Exclusive(ResumeApply(s, c, ListRunning))
  {
    var t := ResumeApply(s, c, ListRunning);
    Continued(s, t, c, t.calls[c]);
    var call := t.calls[c];
    forall v | v in call.running
      ensures Occupies(t, v, call.running[v])
    {
      assert RecordOk(s, v);
    }
    QuietStep(s, t, c);
  }

  lemma ExclusiveDecide(s: System, c: int, d: Decision)
    requires Inv(s) && Exclusive(s) && ResumeEnabled(s, c, Decide(d))
    ensures Exclusive(ResumeApply(s, c, Decide(d)))
  {
    var t := ResumeApply(s, c, Decide(d));
    Continued(s, t, c, t.calls[c]);
    QuietStep(s, t, c);
  }

  /** The victim about to be evicted is alone on its Worker, and no restore is coming. */
  lemma VictimAlone(s: System, c: int, w: string, v: string)
    requires Inv(s) && Exclusive(s) && s.knock == Some(c) && !HasTaken(s, c)
    requires Occupies(s, v, w) && v in s.m.records
    ensures NoRestore(s, w) && OnlyFor(s.m, w, v)
  {
    assert RecordOk(s, v) && InSlot(s.m, s.m.records[v]);
    forall b | b in s.calls && InRestore(s.calls[b])
      ensures s.calls[b].worker != w
    {
      assert Admissible(s, s.calls[b]);
    }
    forall z | z != v
      ensures Box(z) !in Alive(s.m, w) && !RunsOn(s.m, z, w)
    {
      assert Box(v) != Box(z) && AtMostOne(Alive(s.m, w));
      if z in s.m.records {
        assert RecordOk(s, z);
      }
    }
  }

  lemma ExclusiveReadVictim(s: System, c: int)
    requires Inv(s) && Exclusive(s) && StopEnabled(s, c, ReadVictim)
    ensures Exclusive(StopApply(s, c, ReadVictim))
  {
    var t := StopApply(s, c, ReadVictim);
    if s.calls[c].Evicting? {
      VictimAlone(s, c, s.calls[c].worker, CheckpointOf(s.calls[c]).value.victim);
    }
    QuietStep(s, t, c);
  }

  /** Two restores never share a Worker. */
  lemma OneRestore(s: System, b: int, c: int)
    requires OneResume(s) && b in s.calls && c in s.calls && Admissible(s, s.calls[b]) && Admissible(s, s.calls[c])
    requires InRestore(s.calls[b]) && InRestore(s.calls[c]) && s.calls[b].worker == s.calls[c].worker
    ensures b == c
  {
  }

  /** Only sandbox `x` on Worker `w` is new in a slot or among the running. */
  ghost predicate OnlyNew(m: Machine, n: Machine, x: string, w: string) {
    && m.versions == n.versions
    && (forall v, z :: Box(z) in Alive(n, v) && !(z == x && v == w) ==> Box(z) in Alive(m, v))
    && (forall v, z :: RunsOn(n, z, v) && !(z == x && v == w) ==> RunsOn(m, z, v))
    && (forall z :: z in n.records && z != x ==> z in m.records && n.records[z] == m.records[z])
  }

  lemma NewElsewhere(s: System, t: System, c: int, call: Call)
    requires c in s.calls && InRestore(s.calls[c]) && Admissible(s, call)
    requires OnlyNew(s.m, t.m, s.calls[c].sb.id, s.calls[c].worker) && t.reserve == s.reserve
    requires InRestore(call) ==> call.worker != s.calls[c].worker || call.sb.id == s.calls[c].sb.id
    requires forall b :: b in t.calls && InRestore(t.calls[b]) ==>
               b in s.calls && InRestore(s.calls[b]) && s.calls[b].worker == t.calls[b].worker
    requires forall b :: b in t.calls && Pending(t.calls[b]) ==>
               b in s.calls && Pending(s.calls[b]) && s.calls[b].sb.id == t.calls[b].sb.id
    ensures Admissible(t, call)
  {
    assert Pending(s.calls[c]);
  }

  /** A restore that fills its slot, or records it, disturbs nobody else's Worker. */
  lemma RestoreStepKeeps(s: System, t: System, c: int)
    requires OneResume(s) && Exclusive(s) && t.reserve == s.reserve && c in s.calls && InRestore(s.calls[c])
    requires c in t.calls && t.calls == s.calls[c := t.calls[c]] && (t.calls[c].Claimed? || t.calls[c].Recorded?)
    requires t.calls[c].sb == s.calls[c].sb && t.calls[c].worker == s.calls[c].worker
    requires OnlyNew(s.m, t.m, s.calls[c].sb.id, s.calls[c].worker)
    ensures Exclusive(t)
  {
    forall b | b in t.calls && b != c
      ensures Admissible(t, t.calls[b])
    {
      if InRestore(s.calls[b]) && s.calls[b].worker == s.calls[c].worker {
        assert Admissible(s, s.calls[b]) && Admissible(s, s.calls[c]);
        OneRestore(s, b, c);
      }
      NewElsewhere(s, t, c, s.calls[b]);
    }
    NewElsewhere(s, t, c, s.calls[c]);
  }

  lemma ExclusiveClaimSlot(s: System, c: int)
    requires Inv(s) && Exclusive(s) && RestoreEnabled(s, c, ClaimSlot)
    ensures Exclusive(RestoreApply(s, c, ClaimSlot))
  {
    var t := RestoreApply(s, c, ClaimSlot);
    RestoreStepKeeps(s, t, c);
  }

  lemma ExclusiveRecordStart(s: System, c: int, now: Time)
    requires Inv(s) && Exclusive(s) && RestoreEnabled(s, c, RecordStart(now, true))
    ensures Exclusive(RestoreApply(s, c, RecordStart(now, true)))
  {
    var t := RestoreApply(s, c, RecordStart(now, true));
    RestoreStepKeeps(s, t, c);
  }

  lemma ExclusiveRecordLost(s: System, c: int, now: Time)
    requires Inv(s) && Exclusive(s) && RestoreEnabled(s, c, RecordStart(now, false))
    ensures Exclusive(RestoreApply(s, c, RecordStart(now, false)))
  {
    var t := RestoreApply(s, c, RecordStart(now, false));
    Continued(s, t, c, t.calls[c]);
    QuietStep(s, t, c);
  }

  lemma ExclusiveFetch(s: System, c: int, ending: RestoreFate)
    requires Inv(s) && Exclusive(s) && RestoreEnabled(s, c, Fetch(ending))
    ensures Exclusive(RestoreApply(s, c, Fetch(ending)))
  {
    var t := RestoreApply(s, c, Fetch(ending));
    FetchIsCalm(s, c, ending);
    Continued(s, t, c, t.calls[c]);
    SameReservations(s, t, c);
    CalmStep(s, t, c);
  }

  lemma FetchIsCalm(s: System, c: int, ending: RestoreFate)
    requires Inv(s) && Exclusive(s) && RestoreEnabled(s, c, Fetch(ending))
    ensures var t := RestoreApply(s, c, Fetch(ending)); Calmer(s, t, c) && Admissible(t, t.calls[c])
  {
    var call := s.calls[c];
    FetchFrame(s.m, call.sb, call.worker, call.plan, ending);
    assert Admissible(s, call);
  }

  lemma ExclusiveClear(s: System, c: int)
    requires Inv(s) && Exclusive(s) && RestoreEnabled(s, c, Clear)
    ensures Exclusive(RestoreApply(s, c, Clear))
  {
    var t := RestoreApply(s, c, Clear);
    Exited(s, s.(reserve := t.reserve), c, false);
    forall b | b in s.calls && b != c && InRestore(s.calls[b])
      ensures s.calls[b].worker in t.reserve && t.reserve[s.calls[b].worker] == s.calls[b].sb.id
    {
      assert Admissible(s, s.calls[b]);
    }
    CalmStep(s, t, c);
  }

  lemma ExclusiveReserve(s: System, c: int)
    requires Inv(s) && Exclusive(s) && ResumeEnabled(s, c, Reserve)
    ensures Exclusive(ResumeApply(s, c, Reserve))
  {
    var t := ResumeApply(s, c, Reserve);
    var call := s.calls[c];
    forall b | b in t.calls
      ensures Admissible(t, t.calls[b])
    {
      assert Admissible(s, s.calls[b]);
    }
  }

  /** Steps that only move golden boots in and out of slots. */
  lemma GoldenCalm(s: System, t: System, c: int)
    requires Locks(s) && Exclusive(s) && Moves(s, t, c) && t.reserve == s.reserve
    requires c in s.calls && GoldenOf(s.calls[c]).Some?
    requires s.m.records == t.m.records && s.m.versions == t.m.versions
    requires forall w, z :: Box(z) in Alive(t.m, w) <==> Box(z) in Alive(s.m, w)
    requires c in t.calls ==>
               t.calls[c].Lobby? || t.calls[c].Ensuring? || t.calls[c].Preparing? || t.calls[c].Chosen?
    requires c in t.calls && !t.calls[c].Ensuring? ==> s.calls[c].Preparing? && t.calls[c].sb == s.calls[c].sb
    requires c in t.calls && (t.calls[c].Preparing? || t.calls[c].Chosen?) ==> t.calls[c].worker == s.calls[c].worker
    ensures Exclusive(t)
  {
    if c in t.calls {
      assert Admissible(s, s.calls[c]);
    }
    SameReservations(s, t, c);
    CalmStep(s, t, c);
  }

  lemma ExclusiveBootGolden(s: System, c: int, boot: int, booted: bool, retry: bool)
    requires Inv(s) && Exclusive(s) && GoldenEnabled(s, c, BootGolden(boot, booted, retry))
    ensures Exclusive(GoldenApply(s, c, BootGolden(boot, booted, retry)))
  {
    var t := GoldenApply(s, c, BootGolden(boot, booted, retry));
    if c in t.calls && GoldenOf(t.calls[c]).Some? {
      Continued(s, t, c, t.calls[c]);
    } else {
      Exited(s, s, c, retry);
    }
    GoldenCalm(s, t, c);
  }

  lemma ExclusiveSealGolden(s: System, c: int, sealed: bool)
    requires Inv(s) && Exclusive(s) && GoldenEnabled(s, c, SealGolden(sealed))
    ensures Exclusive(GoldenApply(s, c, SealGolden(sealed)))
  {
    var t := GoldenApply(s, c, SealGolden(sealed));
    Continued(s, t, c, t.calls[c]);
    GoldenCalm(s, t, c);
  }

  lemma ExclusiveCleanGolden(s: System, c: int, cleaned: bool, retry: bool)
    requires Inv(s) && Exclusive(s) && GoldenEnabled(s, c, CleanGolden(cleaned, retry))
    ensures Exclusive(GoldenApply(s, c, CleanGolden(cleaned, retry)))
  {
    var t := GoldenApply(s, c, CleanGolden(cleaned, retry));
    Exited(s, s.(m := t.m), c, retry);
    GoldenCalm(s, t, c);
  }

  lemma ExclusivePublishGolden(s: System, c: int, stored: bool, retry: bool)
    requires Inv(s) && Exclusive(s) && GoldenEnabled(s, c, PublishGolden(stored, retry))
    ensures Exclusive(GoldenApply(s, c, PublishGolden(stored, retry)))
  {
    var t := GoldenApply(s, c, PublishGolden(stored, retry));
    if !stored {
      Exited(s, s, c, retry);
    } else if s.calls[c].Preparing? {
      Continued(s, t, c, t.calls[c]);
    } else {
      Exited(s, s.(m := t.m), c, false);
    }
    GoldenCalm(s, t, c);
  }

  /** Steps of the mutex holder that stop the sandbox it read. */
  lemma HaltIsCalm(s: System, t: System, c: int)
    requires Inv(s) && Moves(s, t, c) && c in s.calls && s.knock == Some(c)
    requires s.m.versions.Keys <= t.m.versions.Keys
    requires forall w, z :: Box(z) in Alive(t.m, w) ==> Box(z) in Alive(s.m, w)
    requires forall z, w :: RunsOn(t.m, z, w) ==> RunsOn(s.m, z, w)
    requires c in t.calls ==> !InRestore(t.calls[c])
    requires c in t.calls && Pending(t.calls[c]) ==> Pending(s.calls[c]) && t.calls[c].sb.id == s.calls[c].sb.id
    ensures Calmer(s, t, c)
  {
  }

  lemma CalmKeepsVacant(s: System, t: System, c: int, w: string)
    requires Calmer(s, t, c) && Vacant(s, w)
    ensures Vacant(t, w)
  {
  }

  lemma ExclusiveCheckpointFailed(s: System, c: int, fate: CheckpointFate, retry: bool)
    requires Inv(s) && Exclusive(s) && StopEnabled(s, c, SendCheckpoint(fate, retry)) && fate != Done
    ensures Exclusive(StopApply(s, c, SendCheckpoint(fate, retry)))
  {
    var t := StopApply(s, c, SendCheckpoint(fate, retry));
    var ck := CheckpointOf(s.calls[c]).value;
    CheckpointFrame(s.m, ck.sb, ck.upload, fate);
    Exited(s, s.(m := t.m), c, retry);
    HaltIsCalm(s, t, c);
    SameReservations(s, t, c);
    CalmStep(s, t, c);
  }

  /** A victim whose checkpoint is taken has left the Worker it was alone on. */
  lemma TakenAdmissible(s: System, t: System, c: int, x: Sandbox, upload: bool)
    requires c in s.calls && Admissible(s, s.calls[c]) && CheckpointOf(s.calls[c]) == Some(InFlight(x, upload))
    requires Calmer(s, t, c) && Box(x.id) !in Alive(t.m, x.worker)
    ensures Admissible(t, WithCheckpoint(s.calls[c], Taken(x, upload)))
  {
    match s.calls[c]
    case Preparing(_, w, _) => CalmKeepsVacant(s, t, c, w);
    case _ =>
  }

  lemma ExclusiveCheckpointDone(s: System, c: int, retry: bool)
    requires Inv(s) && Exclusive(s) && StopEnabled(s, c, SendCheckpoint(Done, retry))
    ensures Exclusive(StopApply(s, c, SendCheckpoint(Done, retry)))
  {
    var t := StopApply(s, c, SendCheckpoint(Done, retry));
    var ck := CheckpointOf(s.calls[c]).value;
    CheckpointFrame(s.m, ck.sb, ck.upload, Done);
    TakenContinues(s.calls[c], ck.sb, ck.upload);
    Continued(s, t, c, t.calls[c]);
    HaltIsCalm(s, t, c);
    TakenAdmissible(s, t, c, ck.sb, ck.upload);
    SameReservations(s, t, c);
    CalmStep(s, t, c);
  }

  /** With its record written as stopped, the victim's Worker is vacant for the evicting Resume. */
  lemma StoppedAdmissible(s: System, t: System, c: int, x: Sandbox, upload: bool)
    requires c in s.calls && Admissible(s, s.calls[c]) && CheckpointOf(s.calls[c]) == Some(Taken(x, upload))
    requires Calmer(s, t, c) && !RunsOn(t.m, x.id, x.worker)
    ensures s.calls[c].Evicting? || s.calls[c].Preparing? ==> Vacant(t, s.calls[c].worker)
  {
    match s.calls[c]
    case Preparing(_, w, _) => CalmKeepsVacant(s, t, c, w);
    case _ =>
  }

  lemma ExclusiveRecordStop(s: System, c: int, now: Time)
    requires Inv(s) && Exclusive(s) && StopEnabled(s, c, RecordStop(now))
    ensures Exclusive(StopApply(s, c, RecordStop(now)))
  {
    var t := StopApply(s, c, RecordStop(now));
    var ck := CheckpointOf(s.calls[c]).value;
    if s.calls[c].Stopping? {
      Exited(s, s.(m := t.m), c, false);
    } else {
      Continued(s, t, c, t.calls[c]);
    }
    HaltIsCalm(s, t, c);
    StoppedAdmissible(s, t, c, ck.sb, ck.upload);
    SameReservations(s, t, c);
    CalmStep(s, t, c);
  }

  /** A step of no call that lets nobody in: no call has to give anything up. */
  lemma CalmApi(s: System, t: System)
    requires Inv(s) && Exclusive(s) && t.calls == s.calls && t.knock == s.knock && t.reserve == s.reserve
    requires forall c :: s.knock != Some(c) ==> Calmer(s, t, c)
    ensures Exclusive(t)
  {
    var nobody := if s.knock == Some(0) then 1 else 0;
    forall c | c in t.calls
      ensures Admissible(t, t.calls[c])
    {
      assert Admissible(s, s.calls[c]);
      CalmKeepsCall(s, t, nobody, s.calls[c]);
    }
  }

  lemma ExclusiveCreate(s: System, id: string, now: Time)
    requires Inv(s) && Exclusive(s) && ApiEnabled(s, Create(id, now))
    ensures Exclusive(ApiApply(s, Create(id, now)))
  {
    var t := ApiApply(s, Create(id, now));
    assert forall v :: Alive(t.m, v) == Alive(s.m, v);
    CalmApi(s, t);
  }

  lemma ExclusiveDelete(s: System, id: string, freed: bool)
    requires Inv(s) && Exclusive(s) && ApiEnabled(s, Delete(id, freed))
    ensures Exclusive(ApiApply(s, Delete(id, freed)))
  {
    var t := ApiApply(s, Delete(id, freed));
    assert RecordOk(s, id);
    DeletedFrame(s.m, id, freed);
    forall c | s.knock != Some(c)
      ensures Calmer(s, t, c)
    {
      ForgettingIsCalm(s, t, id, c);
    }
    CalmApi(s, t);
  }

  lemma ForgettingIsCalm(s: System, t: System, id: string, c: int)
    requires Inv(s) && t.calls == s.calls && Forgets(s.m, t.m, id)
    ensures Calmer(s, t, c)
  {
    assert forall w, z :: Box(z) in Alive(t.m, w) ==> Box(z) in Alive(s.m, w);
  }

  // ----- every run in which no Resume keeps a Worker taken since it looked -----

  lemma ExclusiveScanStatus(s: System, c: int, w: string)
    requires Inv(s) && Exclusive(s) && ResumeEnabled(s, c, ScanStatus(w))
    ensures Exclusive(ResumeApply(s, c, ScanStatus(w)))
  {
    var t := ResumeApply(s, c, ScanStatus(w));
    Continued(s, t, c, t.calls[c]);
    QuietStep(s, t, c);
  }

  /** A Worker no other Resume holds, and without a sandbox in its slot, is vacant. */
  lemma KeptIsVacant(s: System, c: int, w: string)
    requires Inv(s) && Exclusive(s) && s.knock == Some(c) && c in s.calls && s.calls[c].Scanning?
    requires !(w in s.reserve && s.reserve[w] != s.calls[c].sb.id) && NoBox(Alive(s.m, w))
    ensures Vacant(s, w)
  {
    forall b | b in s.calls && InRestore(s.calls[b])
      ensures s.calls[b].worker != w
    {
      assert Admissible(s, s.calls[b]);
    }
    VacantWhenIdle(s, c, w);
  }

  /** Reading the reservations after the statuses keeps exclusivity exactly when every Worker kept as free still has no
      sandbox in its slot. */
  lemma MaskIsExact(s: System, c: int)
    requires Inv(s) && Exclusive(s) && ResumeEnabled(s, c, Mask)
    ensures Exclusive(ResumeApply(s, c, Mask)) <==> StillFree(s, Admission(c, Mask))
  {
    var t := ResumeApply(s, c, Mask);
    var kept := t.calls[c].free;
    if StillFree(s, Admission(c, Mask)) {
      Continued(s, t, c, t.calls[c]);
      forall w | w in kept
        ensures Vacant(t, w)
      {
        KeptIsVacant(s, c, w);
      }
      QuietStep(s, t, c);
    }
    if Exclusive(t) {
      assert Admissible(t, t.calls[c]);
      forall w | w in kept
        ensures NoBox(Alive(s.m, w))
      {
        NoBoxIfVacant(t, w);
      }
    }
  }

  lemma NoBoxIfVacant(s: System, w: string)
    requires Vacant(s, w)
    ensures NoBox(Alive(s.m, w))
  {
    forall o | o in Alive(s.m, w)
      ensures o.GoldenBoot?
    {
      if o.Box? {
        assert false;
      }
    }
  }

  lemma ExclusiveResume(s: System, c: int, step: ResumeStep)
    requires Inv(s) && Exclusive(s) && ResumeEnabled(s, c, step) && StillFree(s, Admission(c, step))
    ensures Exclusive(ResumeApply(s, c, step))
  {
    match step
    case Enter(id) => ExclusiveEnter(s, c, id);
    case Refresh => ExclusiveRefresh(s, c);
    case Acquire => ExclusiveAcquire(s, c);
    case Reread => ExclusiveReread(s, c);
    case ScanStatus(w) => ExclusiveScanStatus(s, c, w);
    case Mask => MaskIsExact(s, c);
    case ViewAtOnce(ws) => ExclusiveViewAtOnce(s, c, ws);
    case ListRunning => ExclusiveListRunning(s, c);
    case Decide(d) => ExclusiveDecide(s, c, d);
    case Leave(retry) => ExclusiveLeave(s, c, retry);
    case NeedGolden => ExclusiveNeedGolden(s, c);
    case Reserve => ExclusiveReserve(s, c);
  }

  lemma ExclusiveRestore(s: System, c: int, step: RestoreStep)
    requires Inv(s) && Exclusive(s) && RestoreEnabled(s, c, step)
    ensures Exclusive(RestoreApply(s, c, step))
  {
    match step
    case ClaimSlot => ExclusiveClaimSlot(s, c);
    case RefuseSlot => ExclusiveRefuseSlot(s, c);
    case Fetch(ending) => ExclusiveFetch(s, c, ending);
    case RecordStart(now, stored) =>
      if stored { ExclusiveRecordStart(s, c, now); } else { ExclusiveRecordLost(s, c, now); }
    case Clear => ExclusiveClear(s, c);
  }

  lemma ExclusiveHalt(s: System, c: int, step: StopStep)
    requires Inv(s) && Exclusive(s) && StopEnabled(s, c, step)
    ensures Exclusive(StopApply(s, c, step))
  {
    match step
    case Stop(id, upload) => ExclusiveStop(s, c, id, upload);
    case ReadVictim => ExclusiveReadVictim(s, c);
    case MissVictim(retry) => ExclusiveMissVictim(s, c, retry);
    case SendCheckpoint(fate, retry) =>
      if fate == Done { ExclusiveCheckpointDone(s, c, retry); } else { ExclusiveCheckpointFailed(s, c, fate, retry); }
    case RecordStop(now) => ExclusiveRecordStop(s, c, now);
  }

  lemma ExclusiveBuild(s: System, c: int, step: GoldenStep)
    requires Inv(s) && Exclusive(s) && GoldenEnabled(s, c, step)
    ensures Exclusive(GoldenApply(s, c, step))
  {
    match step
    case AskGolden => ExclusiveAskGolden(s, c);
    case PlaceGolden(w) => ExclusivePlaceGolden(s, c, w);
    case EvictForGolden(v, w) => ExclusiveEvictForGolden(s, c, v, w);
    case GiveUp(retry) => ExclusiveGiveUp(s, c, retry);
    case BootGolden(boot, booted, retry) => ExclusiveBootGolden(s, c, boot, booted, retry);
    case SealGolden(sealed) => ExclusiveSealGolden(s, c, sealed);
    case CleanGolden(cleaned, retry) => ExclusiveCleanGolden(s, c, cleaned, retry);
    case PublishGolden(stored, retry) => ExclusivePublishGolden(s, c, stored, retry);
  }

  lemma KeepsExclusive(s: System, a: Action)
    requires Inv(s) && Exclusive(s) && Enabled(s, a) && StillFree(s, a)
    ensures Exclusive(Apply(s, a))
  {
    match a
    case Api(Create(id, now)) => ExclusiveCreate(s, id, now);
    case Api(Delete(id, freed)) => ExclusiveDelete(s, id, freed);
    case Admission(c, step) => ExclusiveResume(s, c, step);
    case Load(c, step) => ExclusiveRestore(s, c, step);
    case Halt(c, step) => ExclusiveHalt(s, c, step);
    case Build(c, step) => ExclusiveBuild(s, c, step);
  }

  lemma {:induction false} RunKeepsExclusive(s: System, actions: seq<Action>, t: System)
    requires Inv(s) && Exclusive(s) && Run(s, actions, t) && Undisturbed(s, actions)
    ensures Inv(t) && Exclusive(t)
    decreases |actions|
  {
    if actions != [] {
      KeepsInv(s, actions[0]);
      KeepsExclusive(s, actions[0]);
      RunKeepsExclusive(Apply(s, actions[0]), actions[1..], t);
    }
  }

  /** Exclusive in every state of the run. */
  ghost predicate AlwaysExclusive(s: System, actions: seq<Action>)
    decreases |actions|
  {
    Exclusive(s) && (actions == [] || !Enabled(s, actions[0]) || AlwaysExclusive(Apply(s, actions[0]), actions[1..]))
  }

  /** Exclusivity holds all along a run if and only if no Resume of it keeps a Worker that was taken since it looked. */
  lemma {:induction false} ExclusiveExactly(s: System, actions: seq<Action>)
    requires Inv(s) && Exclusive(s)
    ensures AlwaysExclusive(s, actions) <==> Undisturbed(s, actions)
    decreases |actions|
  {
    if actions != [] && Enabled(s, actions[0]) {
      var a := actions[0];
      KeepsInv(s, a);
      if StillFree(s, a) {
        KeepsExclusive(s, a);
        ExclusiveExactly(Apply(s, a), actions[1..]);
      } else {
        MaskIsExact(s, a.c);
      }
    }
  }

  /** Reading both at once is one way to be undisturbed. */
  lemma {:induction false} AtOnceIsUndisturbed(s: System, actions: seq<Action>)
    requires AtOnce(actions)
    ensures Undisturbed(s, actions)
    decreases |actions|
  {
    if actions != [] && Enabled(s, actions[0]) {
      assert forall i :: 0 <= i < |actions[1..]| ==> actions[1..][i] == actions[i + 1];
      AtOnceIsUndisturbed(Apply(s, actions[0]), actions[1..]);
    }
  }
}
