/** Which runs keep every restore alone on its Worker, whatever the Resumes that leave again saw
    (internal/scheduler/scheduler.go:433-435, 697-766). */
module ProtocolRestores {
  import opened Types
  import opened WorkerAgent
  import opened Protocol
  import opened ProtocolSafety
  import opened ProtocolAdmission

  /** Every restore holds its Worker's reservation, and nobody else is in the slot or recorded running there. */
  ghost predicate RestoresAlone(s: System) {
    forall c :: c in s.calls && InRestore(s.calls[c]) ==> Admissible(s, s.calls[c])
  }

  /** A reservation takes a Worker with no restore under way and nobody else in the slot. */
  predicate TakesFree(s: System, a: Action) {
    a.Admission? && a.resume.Reserve? && a.c in s.calls && s.calls[a.c].Chosen? ==>
      var w := s.calls[a.c].worker;
      NoRestore(s, w) && NoOther(Alive(s.m, w), s.calls[a.c].sb.id)
  }

  predicate NoOther(alive: set<Occupant>, id: string) {
    forall o :: o in alive ==> o.GoldenBoot? || o.id == id
  }

  predicate ReservesFree(s: System, actions: seq<Action>)
    decreases |actions|
  {
    actions == [] || !Enabled(s, actions[0])
    || (TakesFree(s, actions[0]) && ReservesFree(Apply(s, actions[0]), actions[1..]))
  }

  ghost predicate AlwaysAlone(s: System, actions: seq<Action>)
    decreases |actions|
  {
    RestoresAlone(s)
    && (actions == [] || !Enabled(s, actions[0]) || AlwaysAlone(Apply(s, actions[0]), actions[1..]))
  }

  // ----- steps -----

  /** No restore begins, nobody else gets into a slot or a running record, and restores keep their reservations. */
  ghost predicate Gentle(s: System, t: System) {
    && (forall b :: b in t.calls && InRestore(t.calls[b]) ==> StillRestores(s, t, b))
    && (forall w, z :: Box(z) in Alive(t.m, w) ==> Box(z) in Alive(s.m, w))
    && (forall w, z :: RunsOn(t.m, z, w) ==> RunsOn(s.m, z, w))
  }

  predicate StillRestores(s: System, t: System, b: int)
    requires b in t.calls && InRestore(t.calls[b])
  {
    && b in s.calls && InRestore(s.calls[b])
    && s.calls[b].sb.id == t.calls[b].sb.id && s.calls[b].worker == t.calls[b].worker
    && (t.calls[b].worker in s.reserve && s.reserve[t.calls[b].worker] == t.calls[b].sb.id ==>
          t.calls[b].worker in t.reserve && t.reserve[t.calls[b].worker] == t.calls[b].sb.id)
  }

  lemma GentleStep(s: System, t: System)
    requires RestoresAlone(s) && Gentle(s, t)
    ensures RestoresAlone(t)
  {
    forall b | b in t.calls && InRestore(t.calls[b])
      ensures Admissible(t, t.calls[b])
    {
      assert StillRestores(s, t, b);
      assert Admissible(s, s.calls[b]);
    }
  }

  lemma AloneOnView(s: System, c: int, step: ResumeStep)
    requires RestoresAlone(s) && ResumeEnabled(s, c, step) && !step.Reserve?
    ensures RestoresAlone(ResumeApply(s, c, step))
  {
    GentleStep(s, ResumeApply(s, c, step));
  }

  /** Under the mutex, whoever is recorded running on a Worker is in its slot. */
  lemma OnlyInSlot(s: System, c: int)
    requires Inv(s) && c in s.calls && s.calls[c].Chosen?
    ensures var sb, w := s.calls[c].sb, s.calls[c].worker; NoOther(Alive(s.m, w), sb.id) <==> OnlyFor(s.m, w, sb.id)
  {
    var sb, w := s.calls[c].sb, s.calls[c].worker;
    if NoOther(Alive(s.m, w), sb.id) {
      forall z | z != sb.id
        ensures Box(z) !in Alive(s.m, w) && !RunsOn(s.m, z, w)
      {
        assert Box(z) !in Alive(s.m, w);
        if z in s.m.records {
          assert RecordOk(s, z);
        }
      }
    } else {
      var o :| o in Alive(s.m, w) && !o.GoldenBoot? && o.id != sb.id;
      assert Box(o.id) in Alive(s.m, w);
    }
  }

  lemma ReserveOverRestore(s: System, t: System, b: int, c: int)
    requires OneResume(s) && b in s.calls && c in s.calls && InRestore(s.calls[b]) && s.calls[c].Chosen?
    requires s.calls[b].worker == s.calls[c].worker
    requires b in t.calls && t.calls[b] == s.calls[b] && t.reserve == s.reserve[s.calls[c].worker := s.calls[c].sb.id]
    ensures !RestoresAlone(t)
  {
    OtherSandbox(s, b, c);
    assert !Admissible(t, t.calls[b]);
  }

  lemma ReserveFree(s: System, t: System, c: int)
    requires RestoresAlone(s) && c in s.calls && s.calls[c].Chosen? && t.m == s.m
    requires var sb, w := s.calls[c].sb, s.calls[c].worker;
             && NoRestore(s, w) && OnlyFor(s.m, w, sb.id) && t.reserve == s.reserve[w := sb.id]
             && t.calls == s.calls[c := Restoring(sb, w, RestorePlan(sb, w))]
    ensures RestoresAlone(t)
  {
    forall b | b in t.calls && InRestore(t.calls[b])
      ensures Admissible(t, t.calls[b])
    {
      assert b != c ==> Admissible(s, s.calls[b]);
    }
  }

  /** A reservation keeps restores alone exactly when it takes a free Worker. */
  lemma ReserveIsExact(s: System, c: int)
    requires Inv(s) && RestoresAlone(s) && ResumeEnabled(s, c, Reserve)
    ensures RestoresAlone(ResumeApply(s, c, Reserve)) <==> TakesFree(s, Admission(c, Reserve))
  {
    var t := ResumeApply(s, c, Reserve);
    var sb, w := s.calls[c].sb, s.calls[c].worker;
    OnlyInSlot(s, c);
    Reserving(s, c);
    if b :| b in s.calls && InRestore(s.calls[b]) && s.calls[b].worker == w {
      ReserveOverRestore(s, t, b, c);
    } else if OnlyFor(s.m, w, sb.id) {
      ReserveFree(s, t, c);
    } else {
      assert !Admissible(t, t.calls[c]);
    }
  }

  lemma OtherSandbox(s: System, b: int, c: int)
    requires OneResume(s) && b in s.calls && c in s.calls && b != c && IsResume(s.calls[b]) && IsResume(s.calls[c])
    ensures s.calls[b].sb.id != s.calls[c].sb.id
  {
  }

  lemma Reserving(s: System, c: int)
    requires ResumeEnabled(s, c, Reserve)
    ensures var t := ResumeApply(s, c, Reserve);
            var sb, w := s.calls[c].sb, s.calls[c].worker;
            && t.m == s.m && t.reserve == s.reserve[w := sb.id]
            && t.calls == s.calls[c := Restoring(sb, w, RestorePlan(sb, w))]
  {
  }

  lemma AloneOnFill(s: System, c: int, step: RestoreStep)
    requires Inv(s) && RestoresAlone(s) && RestoreEnabled(s, c, step)
    requires step.ClaimSlot? || (step.RecordStart? && step.stored)
    ensures RestoresAlone(RestoreApply(s, c, step))
  {
    var t := RestoreApply(s, c, step);
    FillIsNew(s, c, step);
    forall b | b in t.calls && InRestore(t.calls[b])
      ensures Admissible(t, t.calls[b])
    {
      assert Admissible(s, s.calls[b]) && Admissible(s, s.calls[c]);
      if b != c && s.calls[b].worker == s.calls[c].worker {
        OneRestore(s, b, c);
      }
      NewElsewhere(s, t, c, s.calls[b]);
    }
  }

  lemma FillIsNew(s: System, c: int, step: RestoreStep)
    requires Inv(s) && RestoreEnabled(s, c, step)
    requires step.ClaimSlot? || (step.RecordStart? && step.stored)
    ensures var t := RestoreApply(s, c, step);
            && InRestore(s.calls[c]) && (t.calls[c].Claimed? || t.calls[c].Recorded?)
            && t.calls[c].sb == s.calls[c].sb && t.calls[c].worker == s.calls[c].worker
            && t.reserve == s.reserve && t.calls == s.calls[c := t.calls[c]]
            && OnlyNew(s.m, t.m, s.calls[c].sb.id, s.calls[c].worker)
  {
  }

  lemma AloneOnRestore(s: System, c: int, step: RestoreStep)
    requires Inv(s) && RestoresAlone(s) && RestoreEnabled(s, c, step)
    ensures RestoresAlone(RestoreApply(s, c, step))
  {
    if step.ClaimSlot? || (step.RecordStart? && step.stored) {
      AloneOnFill(s, c, step);
    } else if step.Clear? {
      AloneOnClear(s, c);
    } else {
      GentleStep(s, RestoreApply(s, c, step));
    }
  }

  lemma AloneOnClear(s: System, c: int)
    requires Inv(s) && RestoresAlone(s) && RestoreEnabled(s, c, Clear)
    ensures RestoresAlone(RestoreApply(s, c, Clear))
  {
    GentleStep(s, RestoreApply(s, c, Clear));
  }

  /** Checkpoints begin no restore, end none and move none. */
  lemma HaltRestores(s: System, c: int, step: StopStep)
    requires StopEnabled(s, c, step)
    ensures var t := StopApply(s, c, step);
            t.reserve == s.reserve
            && forall b :: b in t.calls && InRestore(t.calls[b]) ==> b in s.calls && s.calls[b] == t.calls[b]
  {
  }

  /** They put nobody into a slot or a running record. */
  lemma HaltSlots(s: System, c: int, step: StopStep)
    requires Inv(s) && StopEnabled(s, c, step)
    ensures var t := StopApply(s, c, step);
            && (forall w, z :: Box(z) in Alive(t.m, w) ==> Box(z) in Alive(s.m, w))
            && (forall w, z :: RunsOn(t.m, z, w) ==> RunsOn(s.m, z, w))
  {
    if step.SendCheckpoint? {
      var ck := CheckpointOf(s.calls[c]).value;
      assert CallOk(s.m, s.calls[c]);
      CheckpointFrame(s.m, ck.sb, ck.upload, step.fate);
    }
  }

  lemma AloneOnHalt(s: System, c: int, step: StopStep)
    requires Inv(s) && RestoresAlone(s) && StopEnabled(s, c, step)
    ensures RestoresAlone(StopApply(s, c, step))
  {
    HaltRestores(s, c, step);
    HaltSlots(s, c, step);
    GentleStep(s, StopApply(s, c, step));
  }

  lemma AloneOnBuild(s: System, c: int, step: GoldenStep)
    requires RestoresAlone(s) && GoldenEnabled(s, c, step)
    ensures RestoresAlone(GoldenApply(s, c, step))
  {
    BuildRestores(s, c, step);
    BuildSlots(s, c, step);
    BuildRecords(s, c, step);
    GentleStep(s, GoldenApply(s, c, step));
  }

  lemma AloneOnApi(s: System, step: ApiStep)
    requires RestoresAlone(s) && ApiEnabled(s, step)
    ensures RestoresAlone(ApiApply(s, step))
  {
    GentleStep(s, ApiApply(s, step));
  }

  /** Whether restores stay alone is decided by reservations, and by nothing after them. */
  lemma KeepsAlone(s: System, a: Action)
    requires Inv(s) && RestoresAlone(s) && Enabled(s, a)
    ensures RestoresAlone(Apply(s, a)) <==> TakesFree(s, a)
  {
    match a
    case Api(step) => AloneOnApi(s, step);
    case Admission(c, step) => if step.Reserve? { ReserveIsExact(s, c); } else { AloneOnView(s, c, step); }
    case Load(c, step) => AloneOnRestore(s, c, step);
    case Halt(c, step) => AloneOnHalt(s, c, step);
    case Build(c, step) => AloneOnBuild(s, c, step);
  }

  // ----- runs -----

  /** Every restore is alone on its Worker all along a run if and only if each reservation of it takes a free one. */
  lemma {:induction false} RestoresExactly(s: System, actions: seq<Action>)
    requires Inv(s) && RestoresAlone(s)
    ensures AlwaysAlone(s, actions) <==> ReservesFree(s, actions)
    decreases |actions|
  {
    if actions != [] && Enabled(s, actions[0]) {
      var a := actions[0];
      KeepsInv(s, a);
      KeepsAlone(s, a);
      if TakesFree(s, a) {
        RestoresExactly(Apply(s, a), actions[1..]);
      }
    }
  }

  /** A run in which no Resume keeps a Worker taken since it looked reserves free ones. */
  lemma {:induction false} UndisturbedReservesFree(s: System, actions: seq<Action>)
    requires Inv(s) && Exclusive(s) && Undisturbed(s, actions)
    ensures ReservesFree(s, actions)
    decreases |actions|
  {
    if actions != [] && Enabled(s, actions[0]) {
      var a := actions[0];
      KeepsInv(s, a);
      KeepsExclusive(s, a);
      KeepsAlone(s, a);
      UndisturbedReservesFree(Apply(s, a), actions[1..]);
    }
  }

  /** Not so the other way round: a Resume that keeps a Worker taken since it looked and then leaves does no harm. */
  lemma LeavingIsHarmless(s: System, c: int, retry: bool)
    requires ResumeEnabled(s, c, Mask)
    ensures var actions := [Admission(c, Mask), Admission(c, Leave(retry))];
            ReservesFree(s, actions) && (Undisturbed(s, actions) <==> StillFree(s, Admission(c, Mask)))
  {
    var mask, leave := Admission(c, Mask), Admission(c, Leave(retry));
    var t := Apply(s, mask);
    assert [mask, leave][1..] == [leave] && [leave][1..] == [];
    assert ReservesFree(t, [leave]) && Undisturbed(t, [leave]);
  }

  lemma {:induction false} RunKeepsAlone(s: System, actions: seq<Action>, t: System)
    requires Inv(s) && RestoresAlone(s) && Run(s, actions, t) && ReservesFree(s, actions)
    ensures Inv(t) && RestoresAlone(t)
    decreases |actions|
  {
    if actions != [] {
      KeepsInv(s, actions[0]);
      KeepsAlone(s, actions[0]);
      RunKeepsAlone(Apply(s, actions[0]), actions[1..], t);
    }
  }
}
