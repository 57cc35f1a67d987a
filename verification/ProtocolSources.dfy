/** An admitted restore always finds an image: its Worker's directory, or an object
    (internal/workerserver/server.go:223-234, internal/scheduler/scheduler.go:409-435). */
module ProtocolSources {
  import opened Types
  import opened WorkerAgent
  import opened Protocol
  import opened ProtocolSafety
  import opened ProtocolDownloads

  /** A restore from the golden template is admitted once the template is there. */
  predicate GoldenThere(m: Machine, call: Call) {
    InRestore(call) && call.plan.key == GoldenKey ==> m.goldenReady
  }

  predicate AllThere(s: System) {
    forall c :: c in s.calls ==> GoldenThere(s.m, s.calls[c])
  }

  lemma StaysThere(s: System, t: System, c: int)
    requires AllThere(s) && (s.m.goldenReady ==> t.m.goldenReady)
    requires forall b :: b in t.calls && b != c ==> b in s.calls && t.calls[b] == s.calls[b]
    requires c in t.calls ==> GoldenThere(t.m, t.calls[c])
    ensures AllThere(t)
  {
  }

  lemma ThereOnReserve(s: System, c: int)
    requires Inv(s) && ResumeEnabled(s, c, Reserve)
    ensures GoldenThere(ResumeApply(s, c, Reserve).m, ResumeApply(s, c, Reserve).calls[c])
  {
    assert CallOk(s.m, s.calls[c]);
  }

  lemma ThereOnResume(s: System, c: int, step: ResumeStep)
    requires Inv(s) && AllThere(s) && ResumeEnabled(s, c, step)
    ensures AllThere(ResumeApply(s, c, step))
  {
    if step.Reserve? {
      ThereOnReserve(s, c);
    }
    StaysThere(s, ResumeApply(s, c, step), c);
  }

  lemma ThereOnRestore(s: System, c: int, step: RestoreStep)
    requires AllThere(s) && RestoreEnabled(s, c, step)
    ensures AllThere(RestoreApply(s, c, step))
  {
    StaysThere(s, RestoreApply(s, c, step), c);
  }

  lemma ThereOnHalt(s: System, c: int, step: StopStep)
    requires AllThere(s) && StopEnabled(s, c, step)
    ensures AllThere(StopApply(s, c, step))
  {
    StaysThere(s, StopApply(s, c, step), c);
  }

  lemma ThereOnBuild(s: System, c: int, step: GoldenStep)
    requires AllThere(s) && GoldenEnabled(s, c, step)
    ensures AllThere(GoldenApply(s, c, step))
  {
    StaysThere(s, GoldenApply(s, c, step), c);
  }

  lemma KeepsThere(s: System, a: Action)
    requires Inv(s) && AllThere(s) && Enabled(s, a)
    ensures AllThere(Apply(s, a))
  {
    match a
    case Api(step) => assert ApiApply(s, step).m.goldenReady == s.m.goldenReady;
    case Admission(c, step) => ThereOnResume(s, c, step);
    case Load(c, step) => ThereOnRestore(s, c, step);
    case Halt(c, step) => ThereOnHalt(s, c, step);
    case Build(c, step) => ThereOnBuild(s, c, step);
  }

  lemma {:induction false} RunKeepsThere(s: System, actions: seq<Action>, t: System)
    requires Inv(s) && AllThere(s) && Run(s, actions, t)
    ensures Inv(t) && AllThere(t)
    decreases |actions|
  {
    if actions != [] {
      KeepsInv(s, actions[0]);
      KeepsThere(s, actions[0]);
      RunKeepsThere(Apply(s, actions[0]), actions[1..], t);
    }
  }

  /** From its admission until its image is read, a restore has a directory on its Worker, or the last checkpoint - the
      golden template for a sandbox without one - behind its key. */
  lemma RestoreHasImage(s: System, actions: seq<Action>, t: System, c: int)
    requires Init(s) && Run(s, actions, t) && c in t.calls && (t.calls[c].Restoring? || t.calls[c].Claimed?)
    ensures var call := t.calls[c];
            call.plan.dir in Images(t.m, call.worker)
            || Remote(t.m, call.plan.key) == Some(Image(VersionOf(t.m, call.sb.id), true))
  {
    InitInv(s);
    RunKeepsThere(s, actions, t);
    var call := t.calls[c];
    assert CallOk(t.m, call) && GoldenThere(t.m, call);
    if Remote(t.m, call.plan.key).Some? {
      RemoteIsLatest(t.m, call.sb, call.worker, call.plan);
    }
  }
}
