/** What the policies' orders and tests mean for the decisions made with them
    (internal/policy/place.go, evict.go, resume.go, fifo.go, lru_idle.go, resource_evict.go). */
module PolicyLaws {
  import opened Types
  import opened Gds
  import opened SignalCache
  import opened Ordering
  import opened Policy
  import opened Policies

  // ----- Workers -----

  ghost predicate OneToAWorker(running: seq<Sandbox>) {
    forall i, j :: 0 <= i < j < |running| && running[i].worker == running[j].worker ==> running[i].worker == ""
  }

  /** A Worker can take a sandbox if it is healthy, for the registry and for its last report if there is one, has a slot
      free - no limit counting as one slot - and nobody on it is in the middle of a checkpoint. */
  lemma UsableMeans(w: Worker, req: Request)
    requires OneToAWorker(req.running) && w.id != ""
    ensures Usable(w, req) <==>
            && w.healthy && w.usedSlots < (if w.maxSlots <= 0 then 1 else w.maxSlots)
            && !(w.id in req.rows && !req.rows[w.id].healthy)
            && forall v :: v in req.running && v.worker == w.id && v.id in req.sigs ==>
                 !req.sigs[v.id].snapshot.inProgress
  {
    HostingIsExact(w.id, req.running, req.sigs);
  }

  /** The Worker picked carries no more load - CPU plus memory, nothing reported counting as none - than any other that
      could take the sandbox; among equals it registered no later, and then has the smaller id. */
  lemma LeastLoaded(w: Worker, v: Worker, req: Request)
    requires LeastUsable(w, req) && v in req.workers && Usable(v, req)
    ensures var load := (x: Worker) => if x.id in req.rows then req.rows[x.id].cpu + req.rows[x.id].mem else 0.0;
            && load(w) <= load(v)
            && (load(w) == load(v) ==> w.registeredAt <= v.registeredAt)
            && (load(w) == load(v) && w.registeredAt == v.registeredAt ==> !StringLess(v.id, w.id))
  {
  }

  /** With distinct Worker ids: the last Worker is taken again exactly when it is listed and can take the sandbox. */
  lemma StickyMeans(req: Request)
    requires forall i, j :: 0 <= i < j < |req.workers| ==> req.workers[i].id != req.workers[j].id
    ensures Sticky(req).Some? <==>
            req.sandbox.worker != "" && exists w :: w in req.workers && w.id == req.sandbox.worker && Usable(w, req)
    ensures Sticky(req).Some? ==> Sticky(req).value == req.sandbox.worker
  {
    var first := FirstNamed(req.workers, req.sandbox.worker);
    if first.Some? {
      FirstNamedIsListed(req.workers, req.sandbox.worker);
    }
    if w :| w in req.workers && w.id == req.sandbox.worker {
      NamedIsFound(req.workers, w);
    }
  }

  lemma {:induction false} NamedIsFound(workers: seq<Worker>, w: Worker)
    requires w in workers && forall i, j :: 0 <= i < j < |workers| ==> workers[i].id != workers[j].id
    ensures FirstNamed(workers, w.id) == Some(w)
    decreases |workers|
  {
    if workers[0].id != w.id {
      NamedIsFound(workers[1..], w);
    }
  }

  // ----- victims -----

  /** First come, first out: nobody running is older than fifo's victim. */
  lemma FifoTakesOldest(req: Request, r: Result, u: Sandbox)
    requires FifoPlaced(req, r) && r.Ok? && r.decision.Preempt? && u in req.running
    ensures exists v :: v in req.running && r.decision == Preempt(v.id, v.worker) && v.createdAt <= u.createdAt
                        && (v.createdAt == u.createdAt ==> v == u || !StringLess(u.id, v.id))
  {
    var v :| v in req.running && r.decision == Preempt(v.id, v.worker)
             && forall x :: x in req.running ==> x == v || !OlderThan(x, v);
    assert u == v || !OlderThan(u, v);
  }

  /** How long a sandbox has been idle: since its reported activity; with none, since the flat report; with none, since
      its record was written; with none, since it was created. */
  lemma IdleCases(sb: Sandbox, sigs: SandboxSignals, now: Time)
    ensures sb.id in sigs && sigs[sb.id].runtime.lastActive != UNSET ==>
              IdleTime(sb, sigs, now) == now - sigs[sb.id].runtime.lastActive
    ensures sb.id in sigs && sigs[sb.id].runtime.lastActive == UNSET && sigs[sb.id].legacyActive != UNSET ==>
              IdleTime(sb, sigs, now) == now - sigs[sb.id].legacyActive
    ensures sb.id !in sigs || (sigs[sb.id].runtime.lastActive == UNSET && sigs[sb.id].legacyActive == UNSET) ==>
              IdleTime(sb, sigs, now) == now - if sb.updatedAt != UNSET then sb.updatedAt else sb.createdAt
  {
  }

  /** lru-idle's victim has been idle no less than anybody running; among equals it is no younger. */
  lemma LruTakesIdlest(req: Request, now: Time, r: Result, u: Sandbox)
    requires LruPlaced(req, now, r) && r.Ok? && r.decision.Preempt? && u in req.running
    ensures exists v :: v in req.running && r.decision == Preempt(v.id, v.worker)
                        && IdleTime(v, req.sigs, now) >= IdleTime(u, req.sigs, now)
                        && (IdleTime(v, req.sigs, now) == IdleTime(u, req.sigs, now) ==> v.createdAt <= u.createdAt)
  {
    var i :| FirstBest(ByIdleTime(req.sigs, now), req.running, i)
             && r.decision == Preempt(req.running[i].id, req.running[i].worker);
    var j :| 0 <= j < |req.running| && req.running[j] == u;
    assert !ByIdleTime(req.sigs, now)(req.running[j], req.running[i]);
    assert req.running[i] in req.running;
  }

  /** What keeping a sandbox is worth: without a report, one; in the middle of a checkpoint, more than any number; else
      the stored priority, or the one it would be given at clock zero. */
  lemma KeepAliveCases(sb: Sandbox, sigs: SandboxSignals)
    ensures sb.id !in sigs ==> KeepAlive(sb, sigs) == Finite(1.0)
    ensures sb.id in sigs && sigs[sb.id].snapshot.inProgress ==> KeepAlive(sb, sigs) == Infinite
    ensures sb.id in sigs && !sigs[sb.id].snapshot.inProgress && sigs[sb.id].keepAlive != 0.0 ==>
              KeepAlive(sb, sigs) == Finite(sigs[sb.id].keepAlive)
    ensures sb.id in sigs && !sigs[sb.id].snapshot.inProgress && sigs[sb.id].keepAlive == 0.0 ==>
              KeepAlive(sb, sigs).Finite?
              && KeepAlive(sb, sigs).r * Size(sigs[sb.id].runtime, sigs[sb.id].snapshot) == Cost(sigs[sb.id].snapshot)
  {
    if sb.id in sigs {
      PriorityGain(0.0, sigs[sb.id].runtime, sigs[sb.id].snapshot);
    }
  }

  /** resource-evict's victim is worth no more than anybody running, and is in the middle of a checkpoint only when all
      are; among equals it is no younger. */
  lemma ResourceTakesLeast(req: Request, r: Result, u: Sandbox)
    requires ResourcePlaced(req, r) && r.Ok? && r.decision.Preempt? && u in req.running
    ensures exists v :: v in req.running && r.decision == Preempt(v.id, v.worker)
                        && (KeepAlive(u, req.sigs).Finite? ==>
                              && KeepAlive(v, req.sigs).Finite?
                              && KeepAlive(v, req.sigs).r <= KeepAlive(u, req.sigs).r)
                        && (KeepAlive(v, req.sigs) == KeepAlive(u, req.sigs) ==> v.createdAt <= u.createdAt)
  {
    var i :| FirstBest(ByValue(req.sigs), req.running, i)
             && r.decision == Preempt(req.running[i].id, req.running[i].worker);
    var j :| 0 <= j < |req.running| && req.running[j] == u;
    assert !ByValue(req.sigs)(req.running[j], req.running[i]);
    assert req.running[i] in req.running;
  }
}
