/** The five policies (internal/policy/fifo.go, random.go, lru_idle.go, resource_evict.go, factory.go). */
module Policies {
  import opened Types
  import opened Ordering
  import opened Policy
  import SemanticScore

  datatype Kind = Fifo | Random | LruIdle | ResourceEvict | Semantic(weights: SemanticScore.Weights)

  /** Refused exactly when no Worker is usable and nobody runs. */
  ghost predicate RefusedIdle(req: Request, r: Result) {
    && (r.Err? <==> NoneUsable(req) && req.running == [])
    && (r.Err? ==> r.refusal == NothingToSuspend)
  }

  ghost predicate FifoPlaced(req: Request, r: Result) {
    && AdmitsLeast(req, r) && RefusedIdle(req, r)
    && (r.Ok? && r.decision.Preempt? ==>
          exists v :: v in req.running && r.decision == Preempt(v.id, v.worker)
                      && forall u :: u in req.running ==> u == v || !OlderThan(u, v))
  }

  ghost predicate LruPlaced(req: Request, now: Time, r: Result) {
    && AdmitsLeast(req, r) && RefusedIdle(req, r)
    && (r.Ok? && r.decision.Preempt? ==>
          exists i :: FirstBest(ByIdleTime(req.sigs, now), req.running, i)
                      && r.decision == Preempt(req.running[i].id, req.running[i].worker))
  }

  ghost predicate ResourcePlaced(req: Request, r: Result) {
    && AdmitsLeast(req, r) && RefusedIdle(req, r)
    && (r.Ok? && r.decision.Preempt? ==>
          exists i :: FirstBest(ByValue(req.sigs), req.running, i)
                      && r.decision == Preempt(req.running[i].id, req.running[i].worker))
  }

  ghost predicate RandomPlaced(req: Request, r: Result) {
    && (r.Err? <==> NoneUsable(req) && (req.running == [] || req.workers == []))
    && (r.Err? ==> r.refusal == NothingToSuspend)
  }

  ghost predicate PlacedBy(kind: Kind, req: Request, now: Time, r: Result) {
    match kind
    case Fifo => FifoPlaced(req, r)
    case Random => RandomPlaced(req, r)
    case LruIdle => LruPlaced(req, now, r)
    case ResourceEvict => ResourcePlaced(req, r)
    case Semantic(weights) => SemanticScore.Placed(req, weights, now, r)
  }

  method FifoPlace(req: Request) returns (r: Result)
    ensures Contract(req, r)
    ensures FifoPlaced(req, r)
  {
    var idle := PickIdleWorker(req);
    if idle.Some? {
      return Ok(Admit(idle.value.id));
    }
    if |req.running| == 0 {
      return Err(NothingToSuspend);
    }
    OlderThanIsOrder();
    var running := SortSlice(req.running, OlderThan);
    assert |running| == |multiset(running)| == |multiset(req.running)|;
    HeadIsLeast(OlderThan, req.running, running);
    var victim := running[0];
    return Ok(Preempt(victim.id, victim.worker));
  }

  method LruPlace(req: Request, now: Time) returns (r: Result)
    ensures Contract(req, r)
    ensures LruPlaced(req, now, r)
  {
    var idle := PickIdleWorker(req);
    if idle.Some? {
      return Ok(Admit(idle.value.id));
    }
    if |req.running| == 0 {
      return Err(NothingToSuspend);
    }
    var victim := PickLRUVictim(req.running, req.sigs, now);
    return Ok(Preempt(victim.id, victim.worker));
  }

  method ResourceEvictPlace(req: Request) returns (r: Result)
    ensures Contract(req, r)
    ensures ResourcePlaced(req, r)
  {
    var idle := PickIdleWorker(req);
    if idle.Some? {
      return Ok(Admit(idle.value.id));
    }
    if |req.running| == 0 {
      return Err(NothingToSuspend);
    }
    var victim := PickGDSVictim(req.running, req.sigs);
    return Ok(Preempt(victim.id, victim.worker));
  }

  /** rng.Intn: any index below the bound. */
  method Intn(n: nat) returns (k: nat)
    requires n > 0
    ensures k < n
  {
    var drawn: nat :| drawn < n;
    k := drawn;
  }

  method RandomPlace(req: Request) returns (r: Result)
    ensures Contract(req, r)
    ensures RandomPlaced(req, r)
  {
    var candidates := IdleCandidates(req);
    if |candidates| > 0 {
      var k := Intn(|candidates|);
      assert candidates[k] in candidates;
      return Ok(Admit(candidates[k].id));
    }
    if |req.running| == 0 || |req.workers| == 0 {
      return Err(NothingToSuspend);
    }
    var k := Intn(|req.running|);
    return Ok(Preempt(req.running[k].id, req.running[k].worker));
  }

  predicate MayKnock(kind: Kind, req: Request, now: Time) {
    kind.Semantic? ==> SemanticScore.IsBest(req, kind.weights, now)
  }

  /** Refused for want of the turn; else the last Worker, if usable; else what the policy's Place promises. */
  ghost predicate Answers(kind: Kind, req: Request, now: Time, r: Result) {
    && (r == Err(NotBestWaiter) <==> !MayKnock(kind, req, now))
    && (MayKnock(kind, req, now) && Sticky(req).Some? ==> r == Ok(Admit(Sticky(req).value)))
    && (MayKnock(kind, req, now) && Sticky(req).None? ==> PlacedBy(kind, req, now, r))
  }

  /** Resume under any policy: the last Worker if it is usable, else Place; semantic-score first asks for
      the top of the lobby. */
  method Resume(kind: Kind, req: Request, now: Time) returns (r: Result)
    ensures ResumeContract(req, r)
    ensures Answers(kind, req, now, r)
  {
    if kind.Semantic? {
      r := SemanticScore.Resume(req, kind.weights, now);
      return r;
    }
    var sticky := Sticky(req);
    if sticky.Some? {
      FirstNamedIsListed(req.workers, req.sandbox.worker);
      return Ok(Admit(sticky.value));
    }
    match kind {
      case Fifo => r := FifoPlace(req);
      case Random => r := RandomPlace(req);
      case LruIdle => r := LruPlace(req, now);
      case ResourceEvict => r := ResourceEvictPlace(req);
    }
  }
}
