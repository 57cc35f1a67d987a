/** What each signal counts for in the semantic-score policy, and what that makes of its decisions
    (internal/policy/semantic_score.go:54-77, 92-322). */
module SemanticLaws {
  import opened Types
  import opened Gds
  import opened SignalCache
  import opened Ordering
  import opened Policy
  import opened SemanticScore

  // ----- the four terms -----

  /** Protection by phase: idle below waiting for the model, below anything unknown, below tools at work or a lock. */
  lemma PhaseValues(sem: Semantic)
    ensures sem.lock || sem.phase == "tool_loop" ==> PhaseProtect(sem) == 1.0
    ensures !sem.lock && sem.phase == "llm_wait" ==> PhaseProtect(sem) == 0.2
    ensures !sem.lock && sem.phase == "idle" ==> PhaseProtect(sem) == 0.0
    ensures !sem.lock && sem.phase !in {"tool_loop", "llm_wait", "idle"} ==> PhaseProtect(sem) == 0.5
  {
  }

  /** A sandbox without signals counts as an unknown phase, neither urgent nor kept waiting. */
  lemma NoSignals(sb: Sandbox, sigs: SandboxSignals, mix: real, alpha: real, now: Time)
    requires sb.id !in sigs
    ensures var sem := SemanticOf(sb, sigs);
            PhaseProtect(sem) == 0.5 && Urgency(sem, mix, alpha, now) == 0.0 && Fairness(sem) == 0.0
  {
  }

  /** Urgency by deadline: none without one, full once it has come, and a share of one in one plus the seconds left. */
  lemma OnlineCases(sem: Semantic, now: Time)
    ensures sem.deadline in {None, Some(UNSET)} ==> UrgencyOnline(sem, now) == 0.0
    ensures sem.deadline.Some? && sem.deadline.value != UNSET ==>
              var left := sem.deadline.value - now;
              && (left <= 0.0 ==> UrgencyOnline(sem, now) == 1.0)
              && (left >= 0.0 ==> UrgencyOnline(sem, now) * (1.0 + left) == 1.0)
  {
    if sem.deadline.Some? && sem.deadline.value - now >= 0.0 {
      var d := 1.0 + (sem.deadline.value - now);
      assert (1.0 / d) * d == 1.0;
    }
  }

  /** Urgency by profile: half plus the complexity signal, plus the similarity times its weight, within zero and one;
      what is not given, or weighted below zero, adds nothing. */
  lemma PriorCases(sem: Semantic, alpha: real)
    ensures sem.profile.None? ==> UrgencyPrior(sem, alpha) == 0.0
    ensures sem.profile.Some? ==>
              var tp, prior := sem.profile.value, UrgencyPrior(sem, alpha);
              && (tp.complexity.None? && (alpha <= 0.0 || tp.similarity <= 0.0) ==> prior == 0.0)
              && (tp.complexity.None? && 0.0 <= alpha <= 1.0 && 0.0 <= tp.similarity <= 1.0 ==>
                    prior == alpha * tp.similarity)
              && (tp.complexity.Some? && (alpha <= 0.0 || tp.similarity <= 0.0) ==>
                    && (tp.complexity.value <= -0.5 ==> prior == 0.0)
                    && (tp.complexity.value >= 0.5 ==> prior == 1.0)
                    && (-0.5 <= tp.complexity.value <= 0.5 ==> prior == 0.5 + tp.complexity.value))
              && (tp.complexity.Some? && -0.5 <= tp.complexity.value <= 0.5
                  && 0.0 <= alpha && 0.0 <= tp.similarity <= 1.0 ==>
                    var sum := 0.5 + tp.complexity.value + alpha * tp.similarity;
                    prior == if sum <= 1.0 then sum else 1.0)
  {
    if sem.profile.Some? {
      var tp := sem.profile.value;
      if 0.0 <= alpha && 0.0 <= tp.similarity <= 1.0 {
        ScaleBounds(alpha, tp.similarity, alpha * tp.similarity);
      }
    }
  }

  /** The two together: the profile counts from a confidence of 0.3 on, alone where there is no deadline, and else by
      its share of the mix. */
  lemma UrgencyCases(sem: Semantic, mix: real, alpha: real, now: Time)
    ensures var online, prior := UrgencyOnline(sem, now), UrgencyPrior(sem, alpha);
            var urgency := Urgency(sem, mix, alpha, now);
            && (sem.profile.None? || sem.profile.value.confidence < 0.3 || prior == 0.0 ==> urgency == online)
            && (sem.profile.Some? && sem.profile.value.confidence >= 0.3 && prior > 0.0 ==>
                  && (online == 0.0 ==> urgency == prior)
                  && (online > 0.0 && mix <= 0.0 ==> urgency == online)
                  && (online > 0.0 && mix >= 1.0 ==> urgency == prior)
                  && (online > 0.0 && 0.0 <= mix <= 1.0 ==> urgency - online == mix * (prior - online)))
  {
    var online, prior := UrgencyOnline(sem, now), UrgencyPrior(sem, alpha);
    if 0.0 <= mix <= 1.0 {
      assert Mixed(mix, online, prior) == (1.0 - mix) * online + mix * prior;
      assert (1.0 - mix) * online == online - mix * online;
      assert mix * (prior - online) == mix * prior - mix * online;
    }
  }

  /** The keep-alive value that counts: the stored one; the one an access would give at clock zero, if none is stored;
      one for a sandbox without signals. Above zero it goes through the curve, and no further than from zero to one. */
  lemma PreemptCases(sb: Sandbox, sigs: SandboxSignals, curve: real -> real)
    ensures sb.id !in sigs ==> KeepAliveOf(sb, sigs) == 1.0
    ensures sb.id in sigs && sigs[sb.id].keepAlive != 0.0 ==> KeepAliveOf(sb, sigs) == sigs[sb.id].keepAlive
    ensures sb.id in sigs && sigs[sb.id].keepAlive == 0.0 ==>
              KeepAliveOf(sb, sigs) * Size(sigs[sb.id].runtime, sigs[sb.id].snapshot) == Cost(sigs[sb.id].snapshot)
    ensures var h := KeepAliveOf(sb, sigs);
            && 0.0 <= NormalizePreempt(h, curve) <= 1.0
            && (h <= 0.0 ==> NormalizePreempt(h, curve) == 0.0)
            && (h > 0.0 && 0.0 <= curve(h) <= 1.0 ==> NormalizePreempt(h, curve) == curve(h))
            && (h > 0.0 && curve(h) > 1.0 ==> NormalizePreempt(h, curve) == 1.0)
  {
    if sb.id in sigs {
      PriorityGain(0.0, sigs[sb.id].runtime, sigs[sb.id].snapshot);
    }
  }

  /** The weight each term goes by. */
  lemma WeightOfEach(p: Weights, x: real)
    ensures Weigh(p, x, 0.0, 0.0, 0.0) == p.wl * x && Weigh(p, 0.0, x, 0.0, 0.0) == p.wu * x
    ensures Weigh(p, 0.0, 0.0, x, 0.0) == p.wf * x && Weigh(p, 0.0, 0.0, 0.0, x) == p.wc * x
  {
  }

  /** The gap between two keep scores is the weighed gap between their terms: phase, urgency, fairness, preemption. */
  lemma KeepScoreGap(a: Sandbox, b: Sandbox, sigs: SandboxSignals, p: Weights, now: Time)
    ensures var x, y := SemanticOf(a, sigs), SemanticOf(b, sigs);
            KeepScore(a, sigs, p, now) - KeepScore(b, sigs, p, now) ==
            Weigh(p, PhaseProtect(x) - PhaseProtect(y),
                  Urgency(x, p.priorMix, p.embedAlpha, now) - Urgency(y, p.priorMix, p.embedAlpha, now),
                  Fairness(x) - Fairness(y),
                  NormalizePreempt(KeepAliveOf(a, sigs), p.curve) - NormalizePreempt(KeepAliveOf(b, sigs), p.curve))
  {
    var x, y := SemanticOf(a, sigs), SemanticOf(b, sigs);
    WeighGap(p, PhaseProtect(x), Urgency(x, p.priorMix, p.embedAlpha, now), Fairness(x),
             NormalizePreempt(KeepAliveOf(a, sigs), p.curve),
             PhaseProtect(y), Urgency(y, p.priorMix, p.embedAlpha, now), Fairness(y),
             NormalizePreempt(KeepAliveOf(b, sigs), p.curve));
  }

  lemma WeighGap(p: Weights, phase: real, urgency: real, fairness: real, preempt: real,
                 phase': real, urgency': real, fairness': real, preempt': real)
    ensures Weigh(p, phase, urgency, fairness, preempt) - Weigh(p, phase', urgency', fairness', preempt') ==
            Weigh(p, phase - phase', urgency - urgency', fairness - fairness', preempt - preempt')
  {
    Distributes(p.wl, phase, phase');
    Distributes(p.wu, urgency, urgency');
    Distributes(p.wf, fairness, fairness');
    Distributes(p.wc, preempt, preempt');
  }

  lemma Distributes(w: real, x: real, y: real)
    ensures w * (x - y) == w * x - w * y
  {
  }

  // ----- the election -----

  /** A minute in the lobby is worth the queueing weight; without a join time, or with one to come, nothing is added. */
  lemma AdmitCases(sb: Sandbox, sigs: SandboxSignals, p: Weights, now: Time, since: map<string, Time>)
    ensures var gain := AdmitScore(sb, sigs, p, now, since) - KeepScore(sb, sigs, p, now);
            && (sb.id !in since || since[sb.id] == UNSET || since[sb.id] > now ==> gain == 0.0)
            && (sb.id in since && since[sb.id] != UNSET && since[sb.id] <= now ==>
                  gain * 60.0 == p.wq * (now - since[sb.id]))
  {
    var q := QueueSeconds(sb.id, now, since);
    assert p.wq * (q / 60.0) * 60.0 == p.wq * q;
  }

  /** Between two that joined at the same moment the higher keep score decides; at equal scores the earlier created,
      and then the smaller id. */
  lemma OutranksMeans(a: Sandbox, b: Sandbox, req: Request, p: Weights, now: Time)
    requires a.id in req.waitingSince && b.id in req.waitingSince && req.waitingSince[a.id] == req.waitingSince[b.id]
    ensures var x, y := KeepScore(a, req.sigs, p, now), KeepScore(b, req.sigs, p, now);
            && (x > y ==> Outranks(a, b, req, p, now))
            && (x == y && a.createdAt < b.createdAt ==> Outranks(a, b, req, p, now))
            && (x == y && a.createdAt == b.createdAt && StringLess(a.id, b.id) ==> Outranks(a, b, req, p, now))
  {
    SameGain(a, b, req.sigs, p, now, req.waitingSince);
  }

  lemma SameGain(a: Sandbox, b: Sandbox, sigs: SandboxSignals, p: Weights, now: Time, since: map<string, Time>)
    requires a.id in since && b.id in since && since[a.id] == since[b.id]
    ensures AdmitScore(a, sigs, p, now, since) - KeepScore(a, sigs, p, now) ==
            AdmitScore(b, sigs, p, now, since) - KeepScore(b, sigs, p, now)
  {
    var q := QueueSeconds(a.id, now, since);
    GainIs(a, sigs, p, now, since, q);
    GainIs(b, sigs, p, now, since, q);
  }

  lemma GainIs(sb: Sandbox, sigs: SandboxSignals, p: Weights, now: Time, since: map<string, Time>, q: real)
    requires QueueSeconds(sb.id, now, since) == q
    ensures AdmitScore(sb, sigs, p, now, since) - KeepScore(sb, sigs, p, now) == p.wq * (q / 60.0)
  {
  }

  /** A Resume is refused only because of somebody else in the lobby who scores no less. */
  lemma RefusedByBetter(req: Request, p: Weights, now: Time)
    requires !IsBest(req, p, now)
    ensures exists w :: w in req.waiting && w.id != "" && w.id != req.sandbox.id
                        && AdmitScore(w, req.sigs, p, now, req.waitingSince) >=
                           AdmitScore(req.sandbox, req.sigs, p, now, req.waitingSince)
  {
  }

  // ----- victims -----

  predicate InCheckpoint(sb: Sandbox, sigs: SandboxSignals) {
    sb.id in sigs && sigs[sb.id].snapshot.inProgress
  }

  predicate AtWork(sb: Sandbox, sigs: SandboxSignals) {
    sb.id in sigs && (sigs[sb.id].semantic.lock || sigs[sb.id].semantic.phase == "tool_loop")
  }

  /** Whoever is suspended is not in the middle of a checkpoint; is at work only with the override on and nobody else to
      choose; and scores no more than anybody else that could be chosen, and on a tie is no younger. */
  lemma VictimMeans(req: Request, p: Weights, now: Time, r: Result, u: Sandbox)
    requires Placed(req, p, now, r) && r.Ok? && r.decision.Preempt?
    requires u in req.running && !InCheckpoint(u, req.sigs)
    ensures exists v :: v in req.running && r.decision == Preempt(v.id, v.worker) && !InCheckpoint(v, req.sigs)
                        && (AtWork(v, req.sigs) ==> p.override && AtWork(u, req.sigs))
                        && ((AtWork(u, req.sigs) ==> AtWork(v, req.sigs)) ==>
                              && KeepScore(v, req.sigs, p, now) <= KeepScore(u, req.sigs, p, now)
                              && (KeepScore(v, req.sigs, p, now) == KeepScore(u, req.sigs, p, now) ==>
                                    v.createdAt <= u.createdAt))
  {
    var v :| RightVictim(req, p, now, v) && r.decision == Preempt(v.id, v.worker);
    assert Locked(v, req.sigs) <==> AtWork(v, req.sigs);
    assert Locked(u, req.sigs) <==> AtWork(u, req.sigs);
    assert !Cheaper(u, v, req.sigs, p, now) || (Locked(u, req.sigs) && !Locked(v, req.sigs));
  }

  /** Signals that differ in the phase alone. */
  predicate AlikeBut(x: Signals, y: Signals, phase: string) {
    x == y.(semantic := y.semantic.(phase := phase)) && !y.semantic.lock
  }

  /** Of two sandboxes alike but for the phase, one idle and one waiting for its model, the one that waits is not
      suspended while the idle one runs. */
  lemma IdleGoesFirst(req: Request, p: Weights, now: Time, r: Result, idle: Sandbox, waits: Sandbox)
    requires Placed(req, p, now, r) && p.wl > 0.0
    requires idle in req.running && waits in req.running && idle.id in req.sigs && waits.id in req.sigs
    requires forall u :: u in req.running && u.id == waits.id ==> u == waits
    requires AlikeBut(req.sigs[idle.id], req.sigs[waits.id], "idle") && req.sigs[waits.id].semantic.phase == "llm_wait"
    ensures r.Ok? && r.decision.Preempt? ==> r.decision.victim != waits.id
  {
    if r.Ok? && r.decision.Preempt? && r.decision.victim == waits.id {
      var v :| RightVictim(req, p, now, v) && r.decision == Preempt(v.id, v.worker);
      assert v == waits;
      IdleScoresLess(idle, waits, req.sigs, p, now);
      assert false;
    }
  }

  lemma IdleScoresLess(idle: Sandbox, waits: Sandbox, sigs: SandboxSignals, p: Weights, now: Time)
    requires p.wl > 0.0 && idle.id in sigs && waits.id in sigs
    requires AlikeBut(sigs[idle.id], sigs[waits.id], "idle") && sigs[waits.id].semantic.phase == "llm_wait"
    ensures KeepScore(idle, sigs, p, now) < KeepScore(waits, sigs, p, now)
  {
    var x, y := sigs[idle.id].semantic, sigs[waits.id].semantic;
    PhaseValues(x);
    PhaseValues(y);
    SameUrgency(x, y, p, now);
    PhaseAlone(p, 0.0, 0.2, Urgency(y, p.priorMix, p.embedAlpha, now), Fairness(y),
               NormalizePreempt(KeepAliveOf(waits, sigs), p.curve));
  }

  lemma SameUrgency(x: Semantic, y: Semantic, p: Weights, now: Time)
    requires x == y.(phase := x.phase)
    ensures Urgency(x, p.priorMix, p.embedAlpha, now) == Urgency(y, p.priorMix, p.embedAlpha, now)
    ensures Fairness(x) == Fairness(y)
  {
    assert UrgencyOnline(x, now) == UrgencyOnline(y, now);
    assert UrgencyPrior(x, p.embedAlpha) == UrgencyPrior(y, p.embedAlpha);
  }

  lemma PhaseAlone(p: Weights, less: real, more: real, urgency: real, fairness: real, preempt: real)
    requires p.wl > 0.0 && less < more
    ensures Weigh(p, less, urgency, fairness, preempt) < Weigh(p, more, urgency, fairness, preempt)
  {
    ScaledTo(p.wl, less, more, p.wl * less, p.wl * more);
  }
}
