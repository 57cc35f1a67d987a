/** Which Workers hold the last checkpoint of a sandbox: the one that wrote it, and those that downloaded it since
    (internal/workerserver/server.go:223-246). */
module ProtocolDownloads {
  import opened Types
  import opened WorkerAgent
  import opened Protocol
  import opened ProtocolSafety

  // ----- history -----

  /** A Worker downloaded the whole image of a sandbox. */
  datatype Download = Download(id: string, worker: string)

  /** The whole downloads since each sandbox's last checkpoint, after one more step. */
  function Downloaded(s: System, a: Action, had: set<Download>): set<Download> {
    match a
    case Load(c, step) =>
      if Downloads(s, c, step) then had + {Download(s.calls[c].sb.id, s.calls[c].worker)} else had
    case Halt(c, step) =>
      if Supersedes(s, c, step) then set d | d in had && d.id != CheckpointOf(s.calls[c]).value.sb.id else had
    case Api(_) => had
    case Admission(_, _) => had
    case Build(_, _) => had
  }

  /** A restore that finds no directory and downloads all of it, whether or not it then starts. */
  predicate Downloads(s: System, c: int, step: RestoreStep) {
    && step.Fetch? && step.ending in {Started, Complete} && c in s.calls && s.calls[c].Claimed?
    && s.calls[c].plan.dir !in Images(s.m, s.calls[c].worker)
  }

  predicate Supersedes(s: System, c: int, step: StopStep) {
    && step.SendCheckpoint? && step.fate == Done && c in s.calls
    && CheckpointOf(s.calls[c]).Some? && CheckpointOf(s.calls[c]).value.InFlight?
  }

  function DownloadsAfter(s: System, actions: seq<Action>, had: set<Download>): set<Download>
    decreases |actions|
  {
    if actions == [] || !Enabled(s, actions[0]) then had
    else DownloadsAfter(Apply(s, actions[0]), actions[1..], Downloaded(s, actions[0], had))
  }

  // ----- the invariant -----

  predicate HoldsLatest(m: Machine, id: string, w: string) {
    Dir(w, id) in Images(m, w) && Images(m, w)[Dir(w, id)] == Image(VersionOf(m, id), true)
  }

  /** At rest: the last checkpoint lies exactly where it was written and where it was downloaded since. */
  ghost predicate Spread(m: Machine, had: set<Download>, sb: Sandbox) {
    forall w :: HoldsLatest(m, sb.id, w) <==> (w == sb.worker && w != "") || Download(sb.id, w) in had
  }

  /** Running: nobody else is ahead of the last checkpoint, so the next one leaves them all behind. */
  ghost predicate OthersBehind(m: Machine, sb: Sandbox) {
    forall w :: w != sb.worker && Dir(w, sb.id) in Images(m, w) ==>
      Images(m, w)[Dir(w, sb.id)].version <= VersionOf(m, sb.id)
  }

  ghost predicate RecordSpread(m: Machine, had: set<Download>, sb: Sandbox) {
    if sb.state == Running then OthersBehind(m, sb) else Spread(m, had, sb)
  }

  ghost predicate CheckpointSpread(m: Machine, had: set<Download>, ck: Checkpoint) {
    match ck
    case Asked(_, _) => true
    case InFlight(sb, _) => OthersBehind(m, sb)
    case Taken(sb, _) => Spread(m, had, sb)
  }

  ghost predicate CallSpread(m: Machine, had: set<Download>, call: Call) {
    && (Pending(call) ==> Spread(m, had, call.sb))
    && (CheckpointOf(call).Some? ==> CheckpointSpread(m, had, CheckpointOf(call).value))
    && (call.Restored? ==>
          && call.plan.dir in Images(m, call.worker) && Images(m, call.worker)[call.plan.dir] == call.image
          && (!call.wasLocal ==> Download(call.sb.id, call.worker) in had))
  }

  ghost predicate Spreads(s: System, had: set<Download>) {
    && (forall id :: id in s.m.records ==> RecordSpread(s.m, had, s.m.records[id]))
    && (forall c :: c in s.calls ==> CallSpread(s.m, had, s.calls[c]))
    && (forall d :: d in had ==> d.id in s.m.versions)
  }

  // ----- frames -----

  /** The two machines have the same directories, and the same count of checkpoints, for this sandbox. */
  ghost predicate SameDisk(m: Machine, n: Machine, id: string) {
    && VersionOf(m, id) == VersionOf(n, id)
    && (forall w, d :: Dir(d, id) in Images(m, w) <==> Dir(d, id) in Images(n, w))
    && (forall w, d :: Dir(d, id) in Images(m, w) ==> Images(m, w)[Dir(d, id)] == Images(n, w)[Dir(d, id)])
  }

  ghost predicate SameDownloads(had: set<Download>, now: set<Download>, id: string) {
    forall w :: Download(id, w) in had <==> Download(id, w) in now
  }

  lemma SameSpread(m: Machine, n: Machine, had: set<Download>, now: set<Download>, sb: Sandbox)
    requires SameDisk(m, n, sb.id) && SameDownloads(had, now, sb.id)
    ensures Spread(m, had, sb) <==> Spread(n, now, sb)
    ensures OthersBehind(m, sb) <==> OthersBehind(n, sb)
  {
    forall w
      ensures HoldsLatest(m, sb.id, w) <==> HoldsLatest(n, sb.id, w)
    {
    }
  }

  lemma SameCallSpread(m: Machine, n: Machine, had: set<Download>, now: set<Download>, call: Call)
    requires CallSpread(m, had, call) && (call.Restored? ==> call.plan.dir == Dir(call.worker, call.sb.id))
    requires Pending(call) ==> SameDisk(m, n, call.sb.id) && SameDownloads(had, now, call.sb.id)
    requires forall id :: Stops(call, id) ==> SameDisk(m, n, id) && SameDownloads(had, now, id)
    ensures CallSpread(n, now, call)
  {
    if Pending(call) {
      SameSpread(m, n, had, now, call.sb);
    }
    var ck := CheckpointOf(call);
    if ck.Some? && !ck.value.Asked? {
      assert Stops(call, ck.value.sb.id);
      SameSpread(m, n, had, now, ck.value.sb);
    }
  }

  /** A step of call `c` that touches the directories of at most the sandbox `x`, which it is in charge of. */
  lemma TouchedSpread(s: System, t: System, had: set<Download>, now: set<Download>, c: int, x: string)
    requires Inv(s) && Spreads(s, had) && c in s.calls
    requires Stops(s.calls[c], x) || (Pending(s.calls[c]) && s.calls[c].sb.id == x)
    requires forall b :: b in t.calls && b != c ==> b in s.calls && t.calls[b] == s.calls[b]
    requires forall id :: id != x ==> SameDisk(s.m, t.m, id) && SameDownloads(had, now, id)
    requires forall id :: id in t.m.records && id != x ==> id in s.m.records && t.m.records[id] == s.m.records[id]
    requires x in t.m.records ==> RecordSpread(t.m, now, t.m.records[x])
    requires c in t.calls ==> CallSpread(t.m, now, t.calls[c])
    requires forall d :: d in now ==> d.id in t.m.versions
    ensures Spreads(t, now)
  {
    forall b | b in t.calls && b != c
      ensures CallSpread(t.m, now, t.calls[b])
    {
      var call := s.calls[b];
      assert CallOk(s.m, call);
      assert !Stops(call, x) && !(Pending(call) && call.sb.id == x);
      SameCallSpread(s.m, t.m, had, now, call);
    }
    forall id | id in t.m.records && id != x
      ensures RecordSpread(t.m, now, t.m.records[id])
    {
      assert RecordOk(s, id);
      SameSpread(s.m, t.m, had, now, s.m.records[id]);
    }
  }

  /** A step that touches no directory and no record. */
  lemma QuietSpread(s: System, t: System, had: set<Download>, c: int)
    requires Inv(s) && Spreads(s, had) && t.m.records == s.m.records && t.m.versions == s.m.versions
    requires forall w :: Images(t.m, w) == Images(s.m, w)
    requires forall b :: b in t.calls && b != c ==> b in s.calls && t.calls[b] == s.calls[b]
    requires c in t.calls ==> CallSpread(s.m, had, t.calls[c])
    ensures Spreads(t, had)
  {
    forall sb: Sandbox
      ensures Spread(s.m, had, sb) <==> Spread(t.m, had, sb)
      ensures OthersBehind(s.m, sb) <==> OthersBehind(t.m, sb)
    {
      SameSpread(s.m, t.m, had, had, sb);
    }
  }

  // ----- steps that touch no directory -----

  lemma GotoSpread(s: System, u: System, had: set<Download>, c: int, next: Call)
    requires Inv(s) && Spreads(s, had) && u.calls == s.calls
    requires u.m.records == s.m.records && u.m.versions == s.m.versions && forall w :: Images(u.m, w) == Images(s.m, w)
    requires CallSpread(s.m, had, next)
    ensures Spreads(Goto(u, c, next), had)
  {
    QuietSpread(s, Goto(u, c, next), had, c);
  }

  lemma ExitSpread(s: System, u: System, had: set<Download>, c: int, retry: bool)
    requires Inv(s) && Spreads(s, had) && u.calls == s.calls && c in s.calls
    requires u.m.records == s.m.records && u.m.versions == s.m.versions && forall w :: Images(u.m, w) == Images(s.m, w)
    requires retry && IsResume(s.calls[c]) ==> Pending(s.calls[c])
    ensures Spreads(Exit(u, c, retry), had)
  {
    assert CallSpread(s.m, had, s.calls[c]);
    QuietSpread(s, Exit(u, c, retry), had, c);
  }

  /** A call that goes on with the same sandbox, and no other checkpoint. */
  lemma NextSpread(m: Machine, had: set<Download>, call: Call, next: Call)
    requires CallSpread(m, had, call) && !next.Restored?
    requires Pending(next) ==> Pending(call) && next.sb == call.sb
    requires CheckpointOf(next).None? || CheckpointOf(next) == CheckpointOf(call) || CheckpointOf(next).value.Asked?
    ensures CallSpread(m, had, next)
  {
  }

  lemma ArrivalSpread(s: System, had: set<Download>, c: int, step: ResumeStep)
    requires Inv(s) && Spreads(s, had) && ResumeEnabled(s, c, step)
    requires step.Enter? || step.Refresh? || step.Acquire? || step.Reread?
    ensures Spreads(ResumeApply(s, c, step), had)
  {
    var t := ResumeApply(s, c, step);
    KeepsResume(s, c, step);
    assert CallOk(t.m, t.calls[c]);
    if c in s.calls {
      assert CallSpread(s.m, had, s.calls[c]);
    }
    QuietSpread(s, t, had, c);
  }

  lemma ResumeSpread(s: System, had: set<Download>, c: int, step: ResumeStep)
    requires Inv(s) && Spreads(s, had) && ResumeEnabled(s, c, step)
    ensures Spreads(ResumeApply(s, c, step), had)
  {
    if step.Enter? || step.Refresh? || step.Acquire? || step.Reread? {
      ArrivalSpread(s, had, c, step);
    } else if step.Leave? {
      ExitSpread(s, s, had, c, step.retry);
    } else {
      MoveSpread(s, had, c, step);
    }
  }

  lemma MoveSpread(s: System, had: set<Download>, c: int, step: ResumeStep)
    requires Inv(s) && Spreads(s, had) && ResumeEnabled(s, c, step)
    requires !step.Enter? && !step.Refresh? && !step.Acquire? && !step.Reread? && !step.Leave?
    ensures Spreads(ResumeApply(s, c, step), had)
  {
    MoveNext(s, had, c, step);
    QuietSpread(s, ResumeApply(s, c, step), had, c);
  }

  lemma MoveNext(s: System, had: set<Download>, c: int, step: ResumeStep)
    requires Spreads(s, had) && ResumeEnabled(s, c, step)
    requires !step.Enter? && !step.Refresh? && !step.Acquire? && !step.Reread? && !step.Leave?
    ensures var t := ResumeApply(s, c, step); c in t.calls && CallSpread(s.m, had, t.calls[c])
  {
    var t := ResumeApply(s, c, step);
    NextSpread(s.m, had, s.calls[c], t.calls[c]);
  }

  lemma BuildSpread(s: System, had: set<Download>, c: int, step: GoldenStep)
    requires Inv(s) && Spreads(s, had) && GoldenEnabled(s, c, step)
    ensures Spreads(GoldenApply(s, c, step), had)
  {
    var t := GoldenApply(s, c, step);
    BuildNext(s, had, c, step);
    BuildRecords(s, c, step);
    BuildImages(s, c, step);
    QuietSpread(s, t, had, c);
  }

  lemma BuildNext(s: System, had: set<Download>, c: int, step: GoldenStep)
    requires Spreads(s, had) && GoldenEnabled(s, c, step)
    ensures var t := GoldenApply(s, c, step); c in t.calls ==> CallSpread(s.m, had, t.calls[c])
  {
    var t := GoldenApply(s, c, step);
    if c in t.calls && c in s.calls {
      NextSpread(s.m, had, s.calls[c], t.calls[c]);
    }
  }

  // ----- restores -----

  /** What a restore's key points to is the last checkpoint, or the golden template of a sandbox without one. */
  lemma RemoteIsLatest(m: Machine, sb: Sandbox, w: string, plan: Plan)
    requires Rested(m, sb) && PlanOk(m, sb, w, plan) && Remote(m, plan.key).Some?
    ensures Remote(m, plan.key).value == Image(VersionOf(m, sb.id), true)
  {
  }

  lemma FetchSpreads(m: Machine, had: set<Download>, sb: Sandbox, w: string, plan: Plan, ending: RestoreFate)
    requires OneEach(m) && Rested(m, sb) && PlanOk(m, sb, w, plan) && w != "" && Spread(m, had, sb)
    requires var present := plan.dir in Images(m, w);
             && (ending == Started && !present ==> Remote(m, plan.key).Some?)
             && (ending in {Wiped, Partial, Complete} ==> !present && Remote(m, plan.key).Some?)
    ensures var now := if ending in {Started, Complete} && plan.dir !in Images(m, w) then had + {Download(sb.id, w)}
                       else had;
            Spread(AfterFetch(m, sb, w, plan, ending), now, sb)
  {
    var n := AfterFetch(m, sb, w, plan, ending);
    FetchFrame(m, sb, w, plan, ending);
    if Remote(m, plan.key).Some? {
      RemoteIsLatest(m, sb, w, plan);
    }
    forall v | v != w
      ensures HoldsLatest(n, sb.id, v) <==> HoldsLatest(m, sb.id, v)
    {
    }
  }

  lemma FetchSpread(s: System, had: set<Download>, c: int, ending: RestoreFate)
    requires Inv(s) && Spreads(s, had) && RestoreEnabled(s, c, Fetch(ending))
    ensures Spreads(RestoreApply(s, c, Fetch(ending)), Downloaded(s, Load(c, Fetch(ending)), had))
  {
    var t, now := RestoreApply(s, c, Fetch(ending)), Downloaded(s, Load(c, Fetch(ending)), had);
    var call := s.calls[c];
    assert CallOk(s.m, call) && CallSpread(s.m, had, call);
    FetchSpreads(s.m, had, call.sb, call.worker, call.plan, ending);
    FetchedElsewhere(s.m, call.sb, call.worker, call.plan, ending);
    FetchedNext(s, now, c, ending);
    assert RecordSpread(t.m, now, call.sb);
    TouchedSpread(s, t, had, now, c, call.sb.id);
  }

  lemma FetchedNext(s: System, now: set<Download>, c: int, ending: RestoreFate)
    requires RestoreEnabled(s, c, Fetch(ending))
    requires Downloads(s, c, Fetch(ending)) ==> Download(s.calls[c].sb.id, s.calls[c].worker) in now
    requires Spread(AfterFetch(s.m, s.calls[c].sb, s.calls[c].worker, s.calls[c].plan, ending), now, s.calls[c].sb)
    ensures var t := RestoreApply(s, c, Fetch(ending)); CallSpread(t.m, now, t.calls[c])
  {
  }

  lemma FetchedElsewhere(m: Machine, sb: Sandbox, w: string, plan: Plan, ending: RestoreFate)
    requires OneEach(m) && w != "" && plan.dir == Dir(w, sb.id)
    ensures var n := AfterFetch(m, sb, w, plan, ending);
            && n.records == m.records && n.versions == m.versions
            && forall id :: id != sb.id ==> SameDisk(m, n, id)
  {
    FetchFrame(m, sb, w, plan, ending);
    forall id | id != sb.id
      ensures SameDisk(m, AfterFetch(m, sb, w, plan, ending), id)
    {
      assert SameFor(m, AfterFetch(m, sb, w, plan, ending), id);
    }
  }

  lemma LoadSpread(s: System, had: set<Download>, c: int, step: RestoreStep)
    requires Inv(s) && Spreads(s, had) && RestoreEnabled(s, c, step)
    ensures Spreads(RestoreApply(s, c, step), Downloaded(s, Load(c, step), had))
  {
    match step
    case Fetch(ending) => FetchSpread(s, had, c, ending);
    case ClaimSlot => SlotSpread(s, had, c, step);
    case RefuseSlot => SlotSpread(s, had, c, step);
    case Clear => SlotSpread(s, had, c, step);
    case RecordStart(now, stored) =>
      if stored { StartSpread(s, had, c, now); } else { SlotSpread(s, had, c, step); }
  }

  lemma SlotSpread(s: System, had: set<Download>, c: int, step: RestoreStep)
    requires Inv(s) && Spreads(s, had) && RestoreEnabled(s, c, step)
    requires !step.Fetch? && (step.RecordStart? ==> !step.stored)
    ensures Spreads(RestoreApply(s, c, step), had)
  {
    QuietSpread(s, RestoreApply(s, c, step), had, c);
  }

  lemma StartSpread(s: System, had: set<Download>, c: int, at: Time)
    requires Inv(s) && Spreads(s, had) && RestoreEnabled(s, c, RecordStart(at, true))
    ensures Spreads(RestoreApply(s, c, RecordStart(at, true)), had)
  {
    var t := RestoreApply(s, c, RecordStart(at, true));
    var call := s.calls[c];
    assert CallOk(s.m, call);
    TouchedSpread(s, t, had, had, c, call.sb.id);
  }

  // ----- checkpoints -----

  lemma SentSpreads(m: Machine, had: set<Download>, sb: Sandbox, upload: bool, fate: CheckpointFate)
    requires OneEach(m) && Live(m, sb) && OthersBehind(m, sb)
    ensures var n := Checkpointed(m, sb, upload, fate);
            && OthersBehind(n, sb)
            && (fate == Done ==> Spread(n, (set d | d in had && d.id != sb.id), sb))
  {
    CheckpointFrame(m, sb, upload, fate);
  }

  lemma SentSpread(s: System, had: set<Download>, c: int, fate: CheckpointFate, retry: bool)
    requires Inv(s) && Spreads(s, had) && StopEnabled(s, c, SendCheckpoint(fate, retry))
    ensures var step := SendCheckpoint(fate, retry);
            Spreads(StopApply(s, c, step), Downloaded(s, Halt(c, step), had))
  {
    var step := SendCheckpoint(fate, retry);
    var t, now := StopApply(s, c, step), Downloaded(s, Halt(c, step), had);
    var ck := CheckpointOf(s.calls[c]).value;
    var n := Checkpointed(s.m, ck.sb, ck.upload, fate);
    assert CallOk(s.m, s.calls[c]) && CallSpread(s.m, had, s.calls[c]);
    SentSpreads(s.m, had, ck.sb, ck.upload, fate);
    SentNext(s, had, now, c, ck, n, fate);
    TouchedSpread(s, t, had, now, c, ck.sb.id);
  }

  /** What the call that sent the checkpoint, and its own sandbox if it has one, know afterwards. */
  lemma SentNext(s: System, had: set<Download>, now: set<Download>, c: int, ck: Checkpoint, n: Machine,
                 fate: CheckpointFate)
    requires Inv(s) && Spreads(s, had) && c in s.calls && CheckpointOf(s.calls[c]) == Some(ck) && ck.InFlight?
    requires n == Checkpointed(s.m, ck.sb, ck.upload, fate)
    requires now == if fate == Done then set d | d in had && d.id != ck.sb.id else had
    requires fate == Done ==> Spread(n, now, ck.sb)
    ensures forall id :: id != ck.sb.id ==> SameDisk(s.m, n, id) && SameDownloads(had, now, id)
    ensures fate == Done ==> CallSpread(n, now, WithCheckpoint(s.calls[c], Taken(ck.sb, ck.upload)))
    ensures Pending(s.calls[c]) ==> CallSpread(n, now, Lobby(s.calls[c].sb))
    ensures s.m.versions.Keys <= n.versions.Keys && n.records == s.m.records
  {
    SentCheckpoint(s, c, ck, fate);
    forall id | id != ck.sb.id
      ensures SameDisk(s.m, n, id)
    {
      assert SameFor(s.m, n, id);
    }
    TakenContinues(s.calls[c], ck.sb, ck.upload);
    if Pending(s.calls[c]) {
      assert Stops(s.calls[c], ck.sb.id);
      SameSpread(s.m, n, had, now, s.calls[c].sb);
    }
  }

  lemma StoppedSpread(s: System, had: set<Download>, c: int, at: Time)
    requires Inv(s) && Spreads(s, had) && StopEnabled(s, c, RecordStop(at))
    ensures Spreads(StopApply(s, c, RecordStop(at)), had)
  {
    var t := StopApply(s, c, RecordStop(at));
    var ck := CheckpointOf(s.calls[c]).value;
    assert CallOk(s.m, s.calls[c]) && CallSpread(s.m, had, s.calls[c]);
    assert Stops(s.calls[c], ck.sb.id);
    RecordedSpread(s.m, had, ck, at);
    StoppedNext(s, had, c, at);
    TouchedSpread(s, t, had, had, c, ck.sb.id);
  }

  lemma StoppedNext(s: System, had: set<Download>, c: int, at: Time)
    requires Spreads(s, had) && StopEnabled(s, c, RecordStop(at))
    ensures var t := StopApply(s, c, RecordStop(at)); c in t.calls ==> CallSpread(t.m, had, t.calls[c])
  {
    var t := StopApply(s, c, RecordStop(at));
    if c in t.calls {
      NextSpread(s.m, had, s.calls[c], t.calls[c]);
      assert forall id :: SameDisk(s.m, t.m, id);
      SameCallSpread(s.m, t.m, had, had, t.calls[c]);
    }
  }

  lemma RecordedSpread(m: Machine, had: set<Download>, ck: Checkpoint, at: Time)
    requires ck.Taken? && Spread(m, had, ck.sb)
    ensures var sb := NowStopped(ck.sb, ck.upload, at); RecordSpread(PutRecord(m, sb), had, sb)
  {
    var sb := NowStopped(ck.sb, ck.upload, at);
    SameSpread(m, PutRecord(m, sb), had, had, ck.sb);
  }

  lemma HaltSpread(s: System, had: set<Download>, c: int, step: StopStep)
    requires Inv(s) && Spreads(s, had) && StopEnabled(s, c, step)
    ensures Spreads(StopApply(s, c, step), Downloaded(s, Halt(c, step), had))
  {
    match step
    case SendCheckpoint(fate, retry) => SentSpread(s, had, c, fate, retry);
    case RecordStop(at) => StoppedSpread(s, had, c, at);
    case Stop(_, _) => QuietSpread(s, StopApply(s, c, step), had, c);
    case MissVictim(retry) => ExitSpread(s, s, had, c, retry);
    case ReadVictim => ReadSpread(s, had, c);
  }

  lemma ReadSpread(s: System, had: set<Download>, c: int)
    requires Inv(s) && Spreads(s, had) && StopEnabled(s, c, ReadVictim)
    ensures Spreads(StopApply(s, c, ReadVictim), had)
  {
    var t := StopApply(s, c, ReadVictim);
    var ck := CheckpointOf(s.calls[c]).value;
    assert RecordOk(s, ck.victim) && CallSpread(s.m, had, s.calls[c]);
    QuietSpread(s, t, had, c);
  }

  // ----- Create and Delete -----

  lemma ApiSpread(s: System, had: set<Download>, step: ApiStep)
    requires Inv(s) && Spreads(s, had) && ApiEnabled(s, step)
    ensures Spreads(ApiApply(s, step), had)
  {
    match step
    case Create(id, now) => CreateSpread(s, had, id, now);
    case Delete(id, freed) => DeleteSpread(s, had, id, freed);
  }

  lemma CreateSpread(s: System, had: set<Download>, id: string, now: Time)
    requires Inv(s) && Spreads(s, had) && ApiEnabled(s, Create(id, now))
    ensures Spreads(ApiApply(s, Create(id, now)), had)
  {
    var t := ApiApply(s, Create(id, now));
    assert forall v :: Images(t.m, v) == Images(s.m, v);
    forall other | other != id
      ensures SameDisk(s.m, t.m, other)
    {
    }
    forall c | c in t.calls
      ensures CallSpread(t.m, had, t.calls[c])
    {
      assert CallOk(s.m, s.calls[c]);
      SameCallSpread(s.m, t.m, had, had, s.calls[c]);
    }
    forall other | other in t.m.records
      ensures RecordSpread(t.m, had, t.m.records[other])
    {
      if other != id {
        assert RecordOk(s, other);
        SameSpread(s.m, t.m, had, had, s.m.records[other]);
      } else {
        forall w
          ensures !HoldsLatest(t.m, id, w) && Download(id, w) !in had
        {
        }
      }
    }
  }

  lemma DeleteSpread(s: System, had: set<Download>, id: string, freed: bool)
    requires Inv(s) && Spreads(s, had) && ApiEnabled(s, Delete(id, freed))
    ensures Spreads(ApiApply(s, Delete(id, freed)), had)
  {
    var t := ApiApply(s, Delete(id, freed));
    assert RecordOk(s, id);
    DeletedFrame(s.m, id, freed);
    forall other: string
      ensures SameDisk(s.m, t.m, other)
    {
    }
    forall c | c in t.calls
      ensures CallSpread(t.m, had, t.calls[c])
    {
      assert CallOk(s.m, s.calls[c]);
      SameCallSpread(s.m, t.m, had, had, s.calls[c]);
    }
    forall other | other in t.m.records
      ensures RecordSpread(t.m, had, t.m.records[other])
    {
      SameSpread(s.m, t.m, had, had, s.m.records[other]);
    }
  }

  // ----- every run -----

  lemma KeepsSpreads(s: System, had: set<Download>, a: Action)
    requires Inv(s) && Spreads(s, had) && Enabled(s, a)
    ensures Spreads(Apply(s, a), Downloaded(s, a, had))
  {
    match a
    case Api(step) => ApiSpread(s, had, step);
    case Admission(c, step) => ResumeSpread(s, had, c, step);
    case Load(c, step) => LoadSpread(s, had, c, step);
    case Halt(c, step) => HaltSpread(s, had, c, step);
    case Build(c, step) => BuildSpread(s, had, c, step);
  }

  lemma {:induction false} RunKeepsSpreads(s: System, had: set<Download>, actions: seq<Action>, t: System)
    requires Inv(s) && Spreads(s, had) && Run(s, actions, t)
    ensures Inv(t) && Spreads(t, DownloadsAfter(s, actions, had))
    decreases |actions|
  {
    if actions != [] {
      KeepsInv(s, actions[0]);
      KeepsSpreads(s, had, actions[0]);
      RunKeepsSpreads(Apply(s, actions[0]), Downloaded(s, actions[0], had), actions[1..], t);
    }
  }
}
