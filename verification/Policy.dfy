/** What every policy is built from: idle Workers, victims, sticky resumes
    (internal/policy/place.go, evict.go, resume.go). */
module Policy {
  import opened Types
  import opened Gds
  import opened SignalCache
  import opened Ordering

  type SandboxSignals = map<string, Signals>
  type WorkerSignals = map<string, WorkerRow>

  datatype Request = Request(
    sandbox: Sandbox,
    workers: seq<Worker>,
    running: seq<Sandbox>,
    sigs: SandboxSignals,
    rows: WorkerSignals,
    waiting: seq<Sandbox>,
    waitingSince: map<string, Time>)

  datatype Refusal = NothingToSuspend | AllBusy | AllLocked | NotBestWaiter

  datatype Result = Ok(decision: Decision) | Err(refusal: Refusal)

  // ----- idle Workers -----

  predicate Eligible(w: Worker, rows: WorkerSignals) {
    w.healthy && w.FreeSlots() > 0 && (w.id in rows ==> rows[w.id].healthy)
  }

  predicate Checkpointing(id: string, sigs: SandboxSignals) {
    id in sigs && sigs[id].snapshot.inProgress
  }

  /** Only the first sandbox listed on the Worker is looked at. */
  predicate Hosting(worker: string, running: seq<Sandbox>, sigs: SandboxSignals) {
    if running == [] then false
    else if running[0].worker != worker then Hosting(worker, running[1..], sigs)
    else Checkpointing(running[0].id, sigs)
  }

  /** With at most one sandbox to a Worker, looking at the first is looking at all of them. */
  lemma {:induction false} HostingIsExact(worker: string, running: seq<Sandbox>, sigs: SandboxSignals)
    requires forall i, j :: 0 <= i < j < |running| && running[i].worker == worker ==> running[j].worker != worker
    ensures Hosting(worker, running, sigs) <==>
            exists v :: v in running && v.worker == worker && Checkpointing(v.id, sigs)
    decreases |running|
  {
    if running != [] {
      var rest := running[1..];
      assert running == [running[0]] + rest;
      if running[0].worker != worker {
        HostingIsExact(worker, rest, sigs);
      } else {
        assert running[0] in running;
      }
    }
  }

  predicate Usable(w: Worker, req: Request) {
    Eligible(w, req.rows) && !Hosting(w.id, req.running, req.sigs)
  }

  function LoadOf(w: Worker, rows: WorkerSignals): real {
    if w.id in rows then rows[w.id].cpu + rows[w.id].mem else 0.0
  }

  /** Least (load, registration, id). */
  predicate Lighter(a: Worker, b: Worker, rows: WorkerSignals) {
    LoadOf(a, rows) < LoadOf(b, rows)
    || (LoadOf(a, rows) == LoadOf(b, rows)
        && (a.registeredAt < b.registeredAt || (a.registeredAt == b.registeredAt && StringLess(a.id, b.id))))
  }

  /** The comparison sortWorkersByLoad hands to sort.Slice: Workers hosting a checkpoint go last. */
  predicate SortsBefore(a: Worker, b: Worker, req: Request) {
    var busyA, busyB := Hosting(a.id, req.running, req.sigs), Hosting(b.id, req.running, req.sigs);
    if busyA != busyB then !busyA else Lighter(a, b, req.rows)
  }

  function LoadOrder(req: Request): (Worker, Worker) -> bool {
    (a: Worker, b: Worker) => SortsBefore(a, b, req)
  }

  lemma LighterTrichotomy(a: Worker, b: Worker, rows: WorkerSignals)
    ensures !(Lighter(a, b, rows) && Lighter(b, a, rows)) && !Lighter(a, a, rows)
    ensures Lighter(a, b, rows) || Lighter(b, a, rows)
            || (LoadOf(a, rows) == LoadOf(b, rows) && a.registeredAt == b.registeredAt && a.id == b.id)
  {
    StringLessTotal(a.id, b.id);
    StringLessIrreflexive(a.id);
  }

  lemma LighterTransitive(a: Worker, b: Worker, c: Worker, rows: WorkerSignals)
    requires Lighter(a, b, rows) && Lighter(b, c, rows)
    ensures Lighter(a, c, rows)
  {
    if StringLess(a.id, b.id) && StringLess(b.id, c.id) {
      StringLessTransitive(a.id, b.id, c.id);
    }
  }

  lemma SortsBeforeIsOrder(req: Request)
    ensures StrictWeak(LoadOrder(req))
  {
    var less := LoadOrder(req);
    forall x
      ensures !less(x, x)
    {
      LighterTrichotomy(x, x, req.rows);
    }
    forall x, y, z | less(x, y) && less(y, z)
      ensures less(x, z)
    {
      if Lighter(x, y, req.rows) && Lighter(y, z, req.rows) {
        LighterTransitive(x, y, z, req.rows);
      }
    }
    forall x, y, z | less(x, z)
      ensures less(x, y) || less(y, z)
    {
      LighterTrichotomy(x, y, req.rows);
      LighterTrichotomy(y, z, req.rows);
      if Lighter(y, x, req.rows) && Lighter(x, z, req.rows) {
        LighterTransitive(y, x, z, req.rows);
      }
    }
  }

  /** The least usable Worker, if there is one. */
  ghost predicate LeastUsable(w: Worker, req: Request) {
    && w in req.workers && Usable(w, req)
    && forall v :: v in req.workers && Usable(v, req) ==> !Lighter(v, w, req.rows)
  }

  ghost predicate NoneUsable(req: Request) {
    forall v :: v in req.workers ==> !Usable(v, req)
  }

  /** A placement on a usable Worker is on the least one. */
  ghost predicate AdmitsLeast(req: Request, r: Result) {
    r.Ok? && r.decision.Admit? ==> exists w :: LeastUsable(w, req) && w.id == r.decision.worker
  }

  method PickIdleWorker(req: Request) returns (r: Option<Worker>)
    ensures r.Some? ==> LeastUsable(r.value, req)
    ensures r.None? ==> NoneUsable(req)
  {
    SortsBeforeIsOrder(req);
    var out := SortSlice(req.workers, LoadOrder(req));
    SameMembers(req.workers, out);
    var i := 0;
    while i < |out|
      invariant 0 <= i <= |out|
      invariant forall j :: 0 <= j < i ==> !Usable(out[j], req)
    {
      var w := out[i];
      if Eligible(w, req.rows) && !Hosting(w.id, req.running, req.sigs) {
        forall v | v in req.workers && Usable(v, req)
          ensures !Lighter(v, w, req.rows)
        {
          var j :| 0 <= j < |out| && out[j] == v;
          if j > i {
            assert !SortsBefore(out[j], out[i], req);
          } else {
            LighterTrichotomy(w, w, req.rows);
          }
        }
        return Some(w);
      }
      i := i + 1;
    }
    return None;
  }

  method IdleCandidates(req: Request) returns (out: seq<Worker>)
    ensures forall w :: w in out <==> w in req.workers && Usable(w, req)
  {
    out := [];
    var i := 0;
    while i < |req.workers|
      invariant 0 <= i <= |req.workers|
      invariant forall w :: w in out <==> w in req.workers[..i] && Usable(w, req)
    {
      var w := req.workers[i];
      if Eligible(w, req.rows) && !Hosting(w.id, req.running, req.sigs) {
        out := out + [w];
      }
      i := i + 1;
    }
  }

  // ----- victims -----

  /** Finite values, and the infinity that shields a sandbox in the middle of a checkpoint. */
  datatype Value = Finite(r: real) | Infinite

  predicate Below(a: Value, b: Value) {
    a.Finite? && (b.Infinite? || a.r < b.r)
  }

  function KeepAlive(sb: Sandbox, sigs: SandboxSignals): Value {
    if sb.id !in sigs then Finite(Priority(0.0, NO_RUNTIME, NO_SNAPSHOT))
    else
      var sig := sigs[sb.id];
      if sig.snapshot.inProgress then Infinite
      else if sig.keepAlive != 0.0 then Finite(sig.keepAlive)
      else Finite(Priority(0.0, sig.runtime, sig.snapshot))
  }

  /** Lower keep-alive value first, then the older sandbox. */
  predicate EvictsBefore(a: Sandbox, b: Sandbox, sigs: SandboxSignals) {
    var ka, kb := KeepAlive(a, sigs), KeepAlive(b, sigs);
    Below(ka, kb) || (ka == kb && a.createdAt < b.createdAt)
  }

  function IdleTime(sb: Sandbox, sigs: SandboxSignals, now: Time): real {
    if sb.id in sigs && sigs[sb.id].runtime.lastActive != UNSET then now - sigs[sb.id].runtime.lastActive
    else if sb.id in sigs && sigs[sb.id].legacyActive != UNSET then now - sigs[sb.id].legacyActive
    else if sb.updatedAt != UNSET then now - sb.updatedAt
    else now - sb.createdAt
  }

  /** Longer idle first, then the older sandbox. */
  predicate IdlerThan(a: Sandbox, b: Sandbox, sigs: SandboxSignals, now: Time) {
    IdleTime(a, sigs, now) > IdleTime(b, sigs, now)
    || (IdleTime(a, sigs, now) == IdleTime(b, sigs, now) && a.createdAt < b.createdAt)
  }

  predicate OlderThan(a: Sandbox, b: Sandbox) {
    if a.createdAt == b.createdAt then StringLess(a.id, b.id) else a.createdAt < b.createdAt
  }

  function ByValue(sigs: SandboxSignals): (Sandbox, Sandbox) -> bool {
    (a: Sandbox, b: Sandbox) => EvictsBefore(a, b, sigs)
  }

  function ByIdleTime(sigs: SandboxSignals, now: Time): (Sandbox, Sandbox) -> bool {
    (a: Sandbox, b: Sandbox) => IdlerThan(a, b, sigs, now)
  }

  lemma EvictionOrders(sigs: SandboxSignals, now: Time)
    ensures StrictWeak(ByValue(sigs))
    ensures StrictWeak(ByIdleTime(sigs, now))
  {
  }

  lemma OlderThanIsOrder()
    ensures StrictWeak(OlderThan)
  {
    forall x: Sandbox
      ensures !OlderThan(x, x)
    {
      StringLessIrreflexive(x.id);
    }
    forall x, y, z | OlderThan(x, y) && OlderThan(y, z)
      ensures OlderThan(x, z)
    {
      if x.createdAt == y.createdAt == z.createdAt {
        StringLessTransitive(x.id, y.id, z.id);
      }
    }
    forall x, y, z | OlderThan(x, z)
      ensures OlderThan(x, y) || OlderThan(y, z)
    {
      StringLessTotal(x.id, y.id);
      StringLessTotal(y.id, z.id);
      if x.createdAt == y.createdAt == z.createdAt && StringLess(y.id, x.id) {
        StringLessTransitive(y.id, x.id, z.id);
      }
    }
  }

  method PickGDSVictim(running: seq<Sandbox>, sigs: SandboxSignals) returns (v: Sandbox)
    requires running != []
    ensures exists i :: FirstBest(ByValue(sigs), running, i) && v == running[i]
  {
    ghost var better := ByValue(sigs);
    EvictionOrders(sigs, UNSET);
    var best := 0;
    var bestH := KeepAlive(running[0], sigs);
    var i := 1;
    while i < |running|
      invariant 1 <= i <= |running|
      invariant FirstBest(better, running[..i], best) && bestH == KeepAlive(running[best], sigs)
    {
      var h := KeepAlive(running[i], sigs);
      FirstBestNext(better, running[..i], best, running[i]);
      assert running[..i] + [running[i]] == running[..i + 1];
      if Below(h, bestH) || (h == bestH && running[i].createdAt < running[best].createdAt) {
        best := i;
        bestH := h;
      }
      i := i + 1;
    }
    assert running[..i] == running;
    v := running[best];
  }

  method PickLRUVictim(running: seq<Sandbox>, sigs: SandboxSignals, now: Time) returns (v: Sandbox)
    requires running != []
    ensures exists i :: FirstBest(ByIdleTime(sigs, now), running, i) && v == running[i]
  {
    ghost var better := ByIdleTime(sigs, now);
    EvictionOrders(sigs, now);
    var best := 0;
    var bestIdle := IdleTime(running[0], sigs, now);
    var i := 1;
    while i < |running|
      invariant 1 <= i <= |running|
      invariant FirstBest(better, running[..i], best) && bestIdle == IdleTime(running[best], sigs, now)
    {
      var d := IdleTime(running[i], sigs, now);
      FirstBestNext(better, running[..i], best, running[i]);
      assert running[..i] + [running[i]] == running[..i + 1];
      if d > bestIdle || (d == bestIdle && running[i].createdAt < running[best].createdAt) {
        best := i;
        bestIdle := d;
      }
      i := i + 1;
    }
    assert running[..i] == running;
    v := running[best];
  }

  // ----- sticky resumes -----

  function FirstNamed(workers: seq<Worker>, id: string): Option<Worker> {
    if workers == [] then None
    else if workers[0].id == id then Some(workers[0])
    else FirstNamed(workers[1..], id)
  }

  /** The sandbox's last Worker, when it can take it back. */
  function Sticky(req: Request): Option<string> {
    var w := FirstNamed(req.workers, req.sandbox.worker);
    if req.sandbox.worker != "" && w.Some? && Usable(w.value, req) then Some(w.value.id) else None
  }

  // ----- the contract -----

  /** An idle Worker of the given list, or, when none is usable, a given running sandbox with its own Worker. */
  ghost predicate Contract(req: Request, r: Result) {
    match r
    case Ok(Admit(w)) => exists v :: v in req.workers && v.id == w && Usable(v, req)
    case Ok(Preempt(id, w)) => NoneUsable(req) && exists v :: v in req.running && v.id == id && v.worker == w
    case Err(_) => true
  }

  /** A usable last Worker is always taken; otherwise the policy places as usual. */
  ghost predicate ResumeContract(req: Request, r: Result) {
    && Contract(req, r)
    && (r.Ok? && Sticky(req).Some? ==> r.decision == Admit(Sticky(req).value))
  }

  lemma {:induction false} FirstNamedIsListed(workers: seq<Worker>, id: string)
    requires FirstNamed(workers, id).Some?
    ensures FirstNamed(workers, id).value in workers && FirstNamed(workers, id).value.id == id
    decreases |workers|
  {
    if workers[0].id != id {
      FirstNamedIsListed(workers[1..], id);
    }
  }
}
