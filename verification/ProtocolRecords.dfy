/** What the calls write: a checkpoint does what was asked for, whoever asked, and every record says what happened
    (internal/scheduler/scheduler.go:199-214, 247-252, 386-401, 497-505, 560-626). */
module ProtocolRecords {
  import opened Types
  import opened WorkerAgent
  import opened Protocol
  import opened ProtocolSafety

  /** What a call was last told to checkpoint, and whether to upload it. */
  datatype Order = Order(id: string, upload: bool)

  /** Pause and Suspend say so themselves; whoever evicts, for a resume or for the golden template, suspends. */
  function Ordered(a: Action, had: map<int, Order>): map<int, Order> {
    match a
    case Halt(c, Stop(id, upload)) => had[c := Order(id, upload)]
    case Admission(c, Decide(Preempt(v, _))) => had[c := Order(v, true)]
    case Build(c, EvictForGolden(v, _)) => had[c := Order(v, true)]
    case _ => had
  }

  function OrdersAfter(actions: seq<Action>, had: map<int, Order>): map<int, Order>
    decreases |actions|
  {
    if actions == [] then had else OrdersAfter(actions[1..], Ordered(actions[0], had))
  }

  function NamedBy(ck: Checkpoint): string {
    if ck.Asked? then ck.victim else ck.sb.id
  }

  predicate ObeysCall(call: Call, c: int, had: map<int, Order>) {
    var ck := CheckpointOf(call);
    ck.Some? ==>
      && c in had && had[c] == Order(NamedBy(ck.value), ck.value.upload)
      && (!call.Stopping? ==> ck.value.upload)
  }

  ghost predicate Obeys(s: System, had: map<int, Order>) {
    forall c :: c in s.calls ==> ObeysCall(s.calls[c], c, had)
  }

  // ----- every step -----

  lemma ObeysStep(s: System, t: System, c: int, had: map<int, Order>, now: map<int, Order>)
    requires Obeys(s, had)
    requires forall b :: b in t.calls && b != c ==> b in s.calls && t.calls[b] == s.calls[b]
    requires forall b :: b != c && b in had ==> b in now && now[b] == had[b]
    requires c in t.calls ==> ObeysCall(t.calls[c], c, now)
    ensures Obeys(t, now)
  {
    forall b | b in t.calls && b != c
      ensures ObeysCall(t.calls[b], b, now)
    {
      assert ObeysCall(s.calls[b], b, had);
    }
  }

  lemma ResumeObeys(s: System, had: map<int, Order>, c: int, step: ResumeStep)
    requires Obeys(s, had) && ResumeEnabled(s, c, step)
    ensures Obeys(ResumeApply(s, c, step), Ordered(Admission(c, step), had))
  {
    ObeysStep(s, ResumeApply(s, c, step), c, had, Ordered(Admission(c, step), had));
  }

  lemma RestoreObeys(s: System, had: map<int, Order>, c: int, step: RestoreStep)
    requires Obeys(s, had) && RestoreEnabled(s, c, step)
    ensures Obeys(RestoreApply(s, c, step), Ordered(Load(c, step), had))
  {
    ObeysStep(s, RestoreApply(s, c, step), c, had, had);
  }

  lemma HaltNext(s: System, had: map<int, Order>, c: int, step: StopStep)
    requires Inv(s) && Obeys(s, had) && StopEnabled(s, c, step)
    ensures var t := StopApply(s, c, step); c in t.calls ==> ObeysCall(t.calls[c], c, Ordered(Halt(c, step), had))
  {
    if step.ReadVictim? {
      assert RecordOk(s, CheckpointOf(s.calls[c]).value.victim);
    }
    assert c in s.calls ==> ObeysCall(s.calls[c], c, had);
  }

  lemma HaltOthers(s: System, c: int, step: StopStep)
    requires StopEnabled(s, c, step)
    ensures var t := StopApply(s, c, step);
            forall b :: b in t.calls && b != c ==> b in s.calls && t.calls[b] == s.calls[b]
  {
  }

  lemma HaltObeys(s: System, had: map<int, Order>, c: int, step: StopStep)
    requires Inv(s) && Obeys(s, had) && StopEnabled(s, c, step)
    ensures Obeys(StopApply(s, c, step), Ordered(Halt(c, step), had))
  {
    HaltNext(s, had, c, step);
    HaltOthers(s, c, step);
    ObeysStep(s, StopApply(s, c, step), c, had, Ordered(Halt(c, step), had));
  }

  lemma BuildNext(s: System, had: map<int, Order>, c: int, step: GoldenStep)
    requires Obeys(s, had) && GoldenEnabled(s, c, step)
    ensures var t := GoldenApply(s, c, step); c in t.calls ==> ObeysCall(t.calls[c], c, Ordered(Build(c, step), had))
  {
  }

  lemma BuildOthers(s: System, c: int, step: GoldenStep)
    requires GoldenEnabled(s, c, step)
    ensures var t := GoldenApply(s, c, step);
            forall b :: b in t.calls && b != c ==> b in s.calls && t.calls[b] == s.calls[b]
  {
  }

  lemma BuildObeys(s: System, had: map<int, Order>, c: int, step: GoldenStep)
    requires Obeys(s, had) && GoldenEnabled(s, c, step)
    ensures Obeys(GoldenApply(s, c, step), Ordered(Build(c, step), had))
  {
    BuildNext(s, had, c, step);
    BuildOthers(s, c, step);
    ObeysStep(s, GoldenApply(s, c, step), c, had, Ordered(Build(c, step), had));
  }

  /** Each call is checkpointing what it was last told to, in the way it was told. */
  lemma KeepsOrders(s: System, had: map<int, Order>, a: Action)
    requires Inv(s) && Obeys(s, had) && Enabled(s, a)
    ensures Obeys(Apply(s, a), Ordered(a, had))
  {
    match a
    case Api(step) => assert ApiApply(s, step).calls == s.calls;
    case Admission(c, step) => ResumeObeys(s, had, c, step);
    case Load(c, step) => RestoreObeys(s, had, c, step);
    case Halt(c, step) => HaltObeys(s, had, c, step);
    case Build(c, step) => BuildObeys(s, had, c, step);
  }

  lemma {:induction false} RunKeepsOrders(s: System, had: map<int, Order>, actions: seq<Action>, t: System)
    requires Inv(s) && Obeys(s, had) && Run(s, actions, t)
    ensures Inv(t) && Obeys(t, OrdersAfter(actions, had))
    decreases |actions|
  {
    if actions != [] {
      KeepsInv(s, actions[0]);
      KeepsOrders(s, had, actions[0]);
      RunKeepsOrders(Apply(s, actions[0]), Ordered(actions[0], had), actions[1..], t);
    }
  }

  // ----- what is recorded -----

  /** Where the sandbox can be restored from: its last checkpoint, whole, on its Worker, and, if it was to be
      uploaded, in the object store as well. */
  ghost predicate Kept(m: Machine, sb: Sandbox, upload: bool) {
    && HasLatest(m, sb)
    && (upload ==> Remote(m, SandboxKey(sb.id)) == Some(Image(VersionOf(m, sb.id), true)))
  }

  /** A finished stop records what was asked: a suspend - an eviction always - leaves the sandbox suspended with an
      external snapshot under its own key, uploaded; a pause leaves it paused with a local one. Nothing else about
      the sandbox changes. */
  lemma StopRecordsOrder(s: System, actions: seq<Action>, t: System, c: int, now: Time)
    requires Init(s) && Run(s, actions, t) && Enabled(t, Halt(c, RecordStop(now)))
    ensures c in OrdersAfter(actions, map[])
    ensures !t.calls[c].Stopping? ==> OrdersAfter(actions, map[])[c].upload
    ensures var order := OrdersAfter(actions, map[])[c];
            var n := Apply(t, Halt(c, RecordStop(now))).m;
            && order.id in n.records
            && var sb := n.records[order.id];
               && Kept(n, sb, order.upload)
               && sb.state == (if order.upload then Suspended else Paused)
               && sb.source == (if order.upload then ExternalSnapshot else LocalSnapshot)
               && (order.upload ==> sb.key == SandboxKey(order.id))
               && (order.id in t.m.records ==>
                     var was := t.m.records[order.id];
                     && was.state == Running && sb.id == was.id && sb.worker == was.worker
                     && sb.createdAt == was.createdAt && (!order.upload ==> sb.key == was.key))
               && sb.path == Dir(sb.worker, order.id) && sb.updatedAt == now
  {
    InitInv(s);
    RunKeepsOrders(s, map[], actions, t);
    assert ObeysCall(t.calls[c], c, OrdersAfter(actions, map[]));
    assert CallOk(t.m, t.calls[c]);
  }

  /** A finished resume records the sandbox running on the Worker it was restored on, in that Worker's directory;
      where it came from and how old it is stay as they were. */
  lemma StartRecords(s: System, actions: seq<Action>, t: System, c: int, now: Time)
    requires Init(s) && Run(s, actions, t) && Enabled(t, Load(c, RecordStart(now, true)))
    ensures var n := Apply(t, Load(c, RecordStart(now, true))).m;
            var id, w := t.calls[c].sb.id, t.calls[c].worker;
            && id in n.records && w != ""
            && var sb := n.records[id];
               && sb.state == Running && sb.id == id && sb.worker == w && sb.path == Dir(w, id) && sb.updatedAt == now
               && Box(id) in Alive(n, w)
               && (id in t.m.records ==>
                     var was := t.m.records[id];
                     sb.createdAt == was.createdAt && sb.source == was.source && sb.key == was.key)
  {
    InitInv(s);
    RunKeepsInv(s, actions, t);
    assert CallOk(t.m, t.calls[c]);
  }

  /** A new sandbox is suspended, has run nowhere and has no snapshot. */
  lemma CreateRecords(s: System, id: string, now: Time)
    requires Enabled(s, Api(Create(id, now)))
    ensures var n := Apply(s, Api(Create(id, now))).m;
            && n.records == s.m.records[id := Sandbox(id, Suspended, "", NoPath, NoKey, NoSnapshot, now, now)]
            && n.hosts == s.m.hosts && n.objects == s.m.objects && VersionOf(n, id) == 0
  {
  }

  // ----- the object store -----

  /** A checkpoint that is to be uploaded, and whose upload finished or tore. */
  predicate Uploads(s: System, a: Action, id: string) {
    && a.Halt? && a.stop.SendCheckpoint? && a.stop.fate in {Done, Torn} && a.c in s.calls
    && var ck := CheckpointOf(s.calls[a.c]);
       ck.Some? && ck.value.InFlight? && ck.value.upload && ck.value.sb.id == id
  }

  lemma SentObjects(m: Machine, sb: Sandbox, upload: bool, fate: CheckpointFate, id: string)
    requires fate == Torn ==> upload
    ensures Remote(Checkpointed(m, sb, upload, fate), SandboxKey(id)) ==
            if fate in {Done, Torn} && upload && sb.id == id then Some(Image(VersionOf(m, id) + 1, fate == Done))
            else Remote(m, SandboxKey(id))
  {
  }

  lemma SentMachine(s: System, c: int, fate: CheckpointFate, retry: bool)
    requires StopEnabled(s, c, SendCheckpoint(fate, retry))
    ensures var ck := CheckpointOf(s.calls[c]).value;
            StopApply(s, c, SendCheckpoint(fate, retry)).m == Checkpointed(s.m, ck.sb, ck.upload, fate)
  {
  }

  lemma OtherHaltObjects(s: System, c: int, step: StopStep)
    requires StopEnabled(s, c, step) && !step.SendCheckpoint?
    ensures StopApply(s, c, step).m.objects == s.m.objects
  {
  }

  lemma HaltObjects(s: System, c: int, step: StopStep, id: string)
    requires StopEnabled(s, c, step)
    ensures var t, a := StopApply(s, c, step), Halt(c, step);
            Remote(t.m, SandboxKey(id)) ==
            if Uploads(s, a, id) then Some(Image(VersionOf(s.m, id) + 1, step.fate == Done))
            else Remote(s.m, SandboxKey(id))
  {
    if step.SendCheckpoint? {
      var ck := CheckpointOf(s.calls[c]).value;
      SentMachine(s, c, step.fate, step.retry);
      SentObjects(s.m, ck.sb, ck.upload, step.fate, id);
    } else {
      OtherHaltObjects(s, c, step);
    }
  }

  lemma BuildObjects(s: System, c: int, step: GoldenStep)
    requires GoldenEnabled(s, c, step)
    ensures GoldenApply(s, c, step).m.objects == s.m.objects
  {
  }

  /** An object changes only through an upload of its own sandbox: whole when that finishes, broken when it tears. */
  lemma ObjectsAfter(s: System, a: Action, id: string)
    requires Enabled(s, a)
    ensures Remote(Apply(s, a).m, SandboxKey(id)) ==
            if Uploads(s, a, id) then Some(Image(VersionOf(s.m, id) + 1, a.stop.fate == Done))
            else Remote(s.m, SandboxKey(id))
  {
    match a
    case Api(step) => assert ApiApply(s, step).m.objects == s.m.objects;
    case Admission(c, step) => assert ResumeApply(s, c, step).m == s.m;
    case Load(c, step) => assert RestoreApply(s, c, step).m.objects == s.m.objects;
    case Halt(c, step) => HaltObjects(s, c, step, id);
    case Build(c, step) => BuildObjects(s, c, step);
  }
}
