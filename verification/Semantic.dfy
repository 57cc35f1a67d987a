/** The semantic-score policy: keep scores, the election of the knocker, its ageing, its victims
    (internal/policy/semantic_score.go). */
module SemanticScore {
  import opened Types
  import opened Gds
  import opened SignalCache
  import opened Ordering
  import opened Policy

  const TOOL_LOOP := "tool_loop"
  const LLM_WAIT := "llm_wait"
  const IDLE := "idle"

  /** The weights, the switches, and the curve h -> log1p(h) / log1p(1e6), of which only the clamp around
      it matters here. */
  datatype Weights = Weights(
    wl: real, wu: real, wf: real, wc: real, wq: real,
    override: bool,
    priorMix: real,
    embedAlpha: real,
    curve: real -> real)

  function Clamp01(x: real): (r: real)
    ensures 0.0 <= r <= 1.0
    ensures 0.0 <= x <= 1.0 ==> r == x
  {
    if x < 0.0 then 0.0 else if x > 1.0 then 1.0 else x
  }

  function PhaseProtect(sem: Semantic): real {
    if sem.lock || sem.phase == TOOL_LOOP then 1.0
    else if sem.phase == LLM_WAIT then 0.2
    else if sem.phase == IDLE then 0.0
    else 0.5
  }

  function UrgencyOnline(sem: Semantic, now: Time): real {
    if sem.deadline.Some? && sem.deadline.value != UNSET then
      var left := sem.deadline.value - now;
      1.0 / (1.0 + if left < 0.0 then 0.0 else left)
    else 0.0
  }

  function UrgencyPrior(sem: Semantic, embedAlpha: real): real {
    match sem.profile
    case None => 0.0
    case Some(tp) =>
      var complexity := if tp.complexity.Some? then Clamp01(0.5 + tp.complexity.value) else 0.0;
      var alpha := if embedAlpha < 0.0 then 0.0 else embedAlpha;
      Clamp01(complexity + alpha * Clamp01(tp.similarity))
  }

  function Urgency(sem: Semantic, priorMix: real, embedAlpha: real, now: Time): real {
    var online, prior := UrgencyOnline(sem, now), UrgencyPrior(sem, embedAlpha);
    if prior <= 0.0 then online
    else
      var confidence := if sem.profile.Some? then sem.profile.value.confidence else 0.0;
      if confidence < 0.3 then online
      else if online <= 0.0 then prior
      else Mixed(if priorMix < 0.0 then 0.0 else if priorMix > 1.0 then 1.0 else priorMix, online, prior)
  }

  function Mixed(mix: real, online: real, prior: real): real {
    (1.0 - mix) * online + mix * prior
  }

  function Fairness(sem: Semantic): real {
    var attained := if sem.attained < 0.0 then 0.0 else sem.attained;
    var wait := if sem.wait < 0.0 then 0.0 else sem.wait;
    var ratio := wait / (1.0 + attained);
    1.0 - 1.0 / (1.0 + ratio)
  }

  function NormalizePreempt(h: real, curve: real -> real): real {
    if h <= 0.0 then 0.0 else Clamp01(curve(h))
  }

  function SemanticOf(sb: Sandbox, sigs: SandboxSignals): Semantic {
    if sb.id in sigs then sigs[sb.id].semantic else NO_SEMANTIC
  }

  /** The stored keep-alive value, its stand-in when none was assigned, or one. */
  function KeepAliveOf(sb: Sandbox, sigs: SandboxSignals): real {
    var h := if sb.id !in sigs then 0.0
             else if sigs[sb.id].keepAlive != 0.0 then sigs[sb.id].keepAlive
             else Priority(0.0, sigs[sb.id].runtime, sigs[sb.id].snapshot);
    if h == 0.0 then 1.0 else h
  }

  function KeepScore(sb: Sandbox, sigs: SandboxSignals, p: Weights, now: Time): real {
    var sem := SemanticOf(sb, sigs);
    Weigh(p, PhaseProtect(sem), Urgency(sem, p.priorMix, p.embedAlpha, now), Fairness(sem),
          NormalizePreempt(KeepAliveOf(sb, sigs), p.curve))
  }

  function Weigh(p: Weights, phase: real, urgency: real, fairness: real, preempt: real): real {
    p.wl * phase + p.wu * urgency + p.wf * fairness + p.wc * preempt
  }

  /** Seconds in the lobby, when a join time is on file and not in the future. */
  function QueueSeconds(id: string, now: Time, since: map<string, Time>): real {
    if id in since && since[id] != UNSET && now - since[id] >= 0.0 then now - since[id] else 0.0
  }

  function AdmitScore(sb: Sandbox, sigs: SandboxSignals, p: Weights, now: Time, since: map<string, Time>): real {
    KeepScore(sb, sigs, p, now) + p.wq * (QueueSeconds(sb.id, now, since) / 60.0)
  }

  // ----- bounds and ageing -----

  lemma InverseBounds(x: real)
    requires x >= 0.0
    ensures 0.0 < 1.0 / (1.0 + x) <= 1.0
  {
  }

  lemma UrgencyBounds(sem: Semantic, priorMix: real, embedAlpha: real, now: Time)
    ensures 0.0 <= Urgency(sem, priorMix, embedAlpha, now) <= 1.0
  {
    var online, prior := UrgencyOnline(sem, now), UrgencyPrior(sem, embedAlpha);
    if sem.deadline.Some? {
      var left := sem.deadline.value - now;
      InverseBounds(if left < 0.0 then 0.0 else left);
    }
    var mix := if priorMix < 0.0 then 0.0 else if priorMix > 1.0 then 1.0 else priorMix;
    MixBounds(mix, online, prior);
  }

  lemma MixBounds(mix: real, a: real, b: real)
    requires 0.0 <= mix <= 1.0 && 0.0 <= a <= 1.0 && 0.0 <= b <= 1.0
    ensures 0.0 <= Mixed(mix, a, b) <= 1.0
  {
    var x, y := (1.0 - mix) * a, mix * b;
    ScaleBounds(1.0 - mix, a, x);
    ScaleBounds(mix, b, y);
    assert Mixed(mix, a, b) == x + y;
  }

  lemma ScaleBounds(w: real, x: real, product: real)
    requires w >= 0.0 && 0.0 <= x <= 1.0 && product == w * x
    ensures 0.0 <= product <= w
  {
    assert w * (1.0 - x) >= 0.0;
  }

  lemma FairnessBounds(sem: Semantic)
    ensures 0.0 <= Fairness(sem) < 1.0
  {
    var attained := if sem.attained < 0.0 then 0.0 else sem.attained;
    var wait := if sem.wait < 0.0 then 0.0 else sem.wait;
    assert wait / (1.0 + attained) >= 0.0;
    InverseBounds(wait / (1.0 + attained));
  }

  function Floored(x: real): real { if x < 0.0 then 0.0 else x }

  lemma QuotientIs(p: real, q: real, x: real)
    requires q != 0.0 && x * q == p
    ensures x == p / q
  {
    assert (p / q) * q == p;
    assert (x - p / q) * q == 0.0;
  }

  lemma Rescaled(v: real, s: real, d: real, t: real)
    requires d != 0.0 && s * d == t && v * t == d
    ensures v * s == 1.0
  {
    assert (v * s - 1.0) * d == v * (s * d) - d;
  }

  lemma RatioForm(a: real, w: real)
    requires a >= 0.0 && w >= 0.0
    ensures 1.0 - 1.0 / (1.0 + w / (1.0 + a)) == w / (1.0 + a + w)
  {
    var d := 1.0 + a;
    var r, v := w / d, d / (d + w);
    assert r * d == w && v * (d + w) == d;
    Rescaled(v, 1.0 + r, d, d + w);
    assert r >= 0.0;
    QuotientIs(1.0, 1.0 + r, v);
    assert (1.0 - v) * (d + w) == w;
    QuotientIs(w, d + w, 1.0 - v);
  }

  /** Fairness is the share of waiting in one second plus service plus waiting. */
  lemma FairnessIsShare(sem: Semantic)
    ensures Fairness(sem) == Floored(sem.wait) / (1.0 + Floored(sem.attained) + Floored(sem.wait))
  {
    RatioForm(Floored(sem.attained), Floored(sem.wait));
  }

  lemma ShareOrder(a: real, w: real, b: real, v: real)
    requires 0.0 <= b <= a && 0.0 <= w <= v
    ensures w / (1.0 + a + w) <= v / (1.0 + b + v)
  {
    Crossed(a, w, b, v, w * b, v * a, w * v);
    Divided(w, 1.0 + a + w, v, 1.0 + b + v);
  }

  lemma Crossed(a: real, w: real, b: real, v: real, wb: real, va: real, wv: real)
    requires 0.0 <= b <= a && 0.0 <= w <= v && wb == w * b && va == v * a && wv == w * v
    ensures w * (1.0 + b + v) <= v * (1.0 + a + w)
  {
    assert wb <= va by {
      Scaled(w, b, a);
      Scaled(a, w, v);
    }
    assert w * (1.0 + b + v) == w + wb + wv && v * (1.0 + a + w) == v + va + wv;
  }

  lemma Divided(p: real, q: real, r: real, t: real)
    requires q > 0.0 && t > 0.0 && p * t <= r * q
    ensures p / q <= r / t
  {
    var x, y := p / q, r / t;
    assert x * q == p && y * t == r;
    assert (y - x) * (q * t) >= 0.0 by {
      assert x * (q * t) == p * t && y * (q * t) == r * q;
    }
  }

  /** Who waited more and was served less is treated no worse. */
  lemma FairnessOrder(x: Semantic, y: Semantic)
    requires x.wait <= y.wait && y.attained <= x.attained
    ensures Fairness(x) <= Fairness(y)
  {
    FairnessIsShare(x);
    FairnessIsShare(y);
    ShareOrder(Floored(x.attained), Floored(x.wait), Floored(y.attained), Floored(y.wait));
  }

  /** An earlier deadline is no less urgent, and full urgency means the deadline has come. */
  lemma DeadlineOrder(x: Semantic, y: Semantic, now: Time)
    requires x.deadline.Some? && y.deadline.Some? && x.deadline.value != UNSET && y.deadline.value != UNSET
    requires x.deadline.value <= y.deadline.value
    ensures UrgencyOnline(x, now) >= UrgencyOnline(y, now) > 0.0
    ensures UrgencyOnline(x, now) == 1.0 <==> x.deadline.value <= now
  {
    var l, r := Floored(x.deadline.value - now), Floored(y.deadline.value - now);
    Divided(1.0, 1.0 + r, 1.0, 1.0 + l);
    assert (1.0 / (1.0 + l)) * (1.0 + l) == 1.0;
  }

  /** The terms of the keep score move it their own way; a fairer claim moves it strictly. */
  lemma KeepScoreOrder(a: Sandbox, b: Sandbox, sigs: SandboxSignals, p: Weights, now: Time)
    requires Weighted(p)
    requires var x, y := SemanticOf(a, sigs), SemanticOf(b, sigs);
             && PhaseProtect(x) <= PhaseProtect(y) && Fairness(x) <= Fairness(y)
             && Urgency(x, p.priorMix, p.embedAlpha, now) <= Urgency(y, p.priorMix, p.embedAlpha, now)
    requires NormalizePreempt(KeepAliveOf(a, sigs), p.curve) <= NormalizePreempt(KeepAliveOf(b, sigs), p.curve)
    ensures KeepScore(a, sigs, p, now) <= KeepScore(b, sigs, p, now)
    ensures Fairness(SemanticOf(a, sigs)) < Fairness(SemanticOf(b, sigs)) ==>
              KeepScore(a, sigs, p, now) < KeepScore(b, sigs, p, now)
  {
    var x, y := SemanticOf(a, sigs), SemanticOf(b, sigs);
    WeighOrder(p, PhaseProtect(x), Urgency(x, p.priorMix, p.embedAlpha, now), Fairness(x),
               NormalizePreempt(KeepAliveOf(a, sigs), p.curve),
               PhaseProtect(y), Urgency(y, p.priorMix, p.embedAlpha, now), Fairness(y),
               NormalizePreempt(KeepAliveOf(b, sigs), p.curve));
  }

  lemma WeighOrder(p: Weights, phase: real, urgency: real, fairness: real, preempt: real,
                   phase': real, urgency': real, fairness': real, preempt': real)
    requires Weighted(p) && phase <= phase' && urgency <= urgency' && fairness <= fairness' && preempt <= preempt'
    ensures var before := Weigh(p, phase, urgency, fairness, preempt);
            var after := Weigh(p, phase', urgency', fairness', preempt');
            before <= after && (fairness < fairness' ==> before < after)
  {
    var a, b, c, d := p.wl * phase, p.wu * urgency, p.wf * fairness, p.wc * preempt;
    var a', b', c', d' := p.wl * phase', p.wu * urgency', p.wf * fairness', p.wc * preempt';
    ScaledTo(p.wl, phase, phase', a, a');
    ScaledTo(p.wu, urgency, urgency', b, b');
    ScaledTo(p.wf, fairness, fairness', c, c');
    ScaledTo(p.wc, preempt, preempt', d, d');
  }

  lemma PositiveProduct(w: real, d: real, product: real)
    requires w > 0.0 && d > 0.0 && product == w * d
    ensures product > 0.0
  {
  }

  lemma ScaledTo(w: real, x: real, y: real, wx: real, wy: real)
    requires w >= 0.0 && x <= y && wx == w * x && wy == w * y
    ensures wx <= wy && (w > 0.0 && x < y ==> wx < wy)
  {
    var gap := w * (y - x);
    assert gap == wy - wx;
    if w > 0.0 && x < y {
      PositiveProduct(w, y - x, gap);
    } else {
      assert gap >= 0.0;
    }
  }

  lemma Scaled(w: real, x: real, y: real)
    requires w >= 0.0 && x <= y
    ensures w * x <= w * y
  {
    assert w * (y - x) >= 0.0;
  }

  /** Weights as the factory sets them up: none negative, and fairness and queueing count for something. */
  predicate Weighted(p: Weights) {
    p.wl >= 0.0 && p.wu >= 0.0 && p.wf > 0.0 && p.wc >= 0.0 && p.wq > 0.0
  }

  function Ceiling(p: Weights): real { p.wl + p.wu + p.wf + p.wc }

  lemma WeightedSum(p: Weights, phase: real, urgency: real, fairness: real, preempt: real)
    requires Weighted(p)
    requires 0.0 <= phase <= 1.0 && 0.0 <= urgency <= 1.0 && 0.0 <= fairness < 1.0 && 0.0 <= preempt <= 1.0
    ensures 0.0 <= Weigh(p, phase, urgency, fairness, preempt) < Ceiling(p)
  {
    var a, b, c, d := p.wl * phase, p.wu * urgency, p.wf * fairness, p.wc * preempt;
    ScaleBounds(p.wl, phase, a);
    ScaleBounds(p.wu, urgency, b);
    StrictScaleBounds(p.wf, fairness, c);
    ScaleBounds(p.wc, preempt, d);
    assert 0.0 <= a + b + c + d < Ceiling(p);
  }

  lemma KeepScoreBounds(sb: Sandbox, sigs: SandboxSignals, p: Weights, now: Time)
    requires Weighted(p)
    ensures 0.0 <= KeepScore(sb, sigs, p, now) < Ceiling(p)
  {
    var sem := SemanticOf(sb, sigs);
    UrgencyBounds(sem, p.priorMix, p.embedAlpha, now);
    FairnessBounds(sem);
    WeightedSum(p, PhaseProtect(sem), Urgency(sem, p.priorMix, p.embedAlpha, now), Fairness(sem),
                NormalizePreempt(KeepAliveOf(sb, sigs), p.curve));
  }

  lemma StrictScaleBounds(w: real, x: real, product: real)
    requires w > 0.0 && 0.0 <= x < 1.0 && product == w * x
    ensures 0.0 <= product < w
  {
    assert w * (1.0 - x) > 0.0;
  }

  lemma LeadWins(wq: real, ceiling: real, qa: real, qb: real, ka: real, kb: real)
    requires wq > 0.0 && ceiling >= 0.0 && 0.0 <= ka && kb < ceiling
    requires qa - qb >= 60.0 * ceiling / wq
    ensures ka + wq * (qa / 60.0) > kb + wq * (qb / 60.0)
  {
    var lead := 60.0 * ceiling / wq;
    assert wq * lead == 60.0 * ceiling;
    assert wq * (qa - qb) >= wq * lead by {
      assert wq * (qa - qb - lead) >= 0.0;
    }
    assert wq * (qa / 60.0) - wq * (qb / 60.0) == wq * (qa - qb) / 60.0;
  }

  /** Whatever the signals say, a waiter that joined 60 * (WL+WU+WF+WC) / WQ seconds before another
      strictly outranks it, from the moment the later one has joined. */
  lemma AgeingBound(a: Sandbox, b: Sandbox, sigs: SandboxSignals, p: Weights, now: Time, since: map<string, Time>)
    requires Weighted(p) && a.id in since && b.id in since && since[a.id] != UNSET
    requires since[b.id] <= now && since[a.id] + 60.0 * Ceiling(p) / p.wq <= since[b.id]
    ensures AdmitScore(a, sigs, p, now, since) > AdmitScore(b, sigs, p, now, since)
  {
    KeepScoreBounds(a, sigs, p, now);
    KeepScoreBounds(b, sigs, p, now);
    LeadWins(p.wq, Ceiling(p), QueueSeconds(a.id, now, since), QueueSeconds(b.id, now, since),
             KeepScore(a, sigs, p, now), KeepScore(b, sigs, p, now));
  }

  /** The default weights make that four minutes. */
  lemma DefaultLead(p: Weights)
    requires p.wl == 3.0 && p.wu == 2.0 && p.wf == 2.0 && p.wc == 1.0 && p.wq == 2.0
    ensures Weighted(p) && 60.0 * Ceiling(p) / p.wq == 240.0
  {
  }

  // ----- the election -----

  /** Higher score, then earlier created, then smaller id. */
  predicate Outranks(a: Sandbox, b: Sandbox, req: Request, p: Weights, now: Time) {
    var sa := AdmitScore(a, req.sigs, p, now, req.waitingSince);
    var sb := AdmitScore(b, req.sigs, p, now, req.waitingSince);
    sa > sb || (sa == sb && (a.createdAt < b.createdAt || (a.createdAt == b.createdAt && StringLess(a.id, b.id))))
  }

  lemma OutranksTrichotomy(a: Sandbox, b: Sandbox, req: Request, p: Weights, now: Time)
    ensures !(Outranks(a, b, req, p, now) && Outranks(b, a, req, p, now))
    ensures a.id != b.id ==> Outranks(a, b, req, p, now) || Outranks(b, a, req, p, now)
  {
    StringLessTotal(a.id, b.id);
  }

  lemma OutranksTransitive(a: Sandbox, b: Sandbox, c: Sandbox, req: Request, p: Weights, now: Time)
    requires Outranks(a, b, req, p, now) && Outranks(b, c, req, p, now)
    ensures Outranks(a, c, req, p, now)
  {
    if StringLess(a.id, b.id) && StringLess(b.id, c.id) {
      StringLessTransitive(a.id, b.id, c.id);
    }
  }

  /** Passing the check: nobody else named in the lobby outranks the asker. */
  predicate IsBest(req: Request, p: Weights, now: Time) {
    forall i :: 0 <= i < |req.waiting| && req.waiting[i].id != "" && req.waiting[i].id != req.sandbox.id ==>
      !Outranks(req.waiting[i], req.sandbox, req, p, now)
  }

  method RequireBestWaiter(req: Request, p: Weights, now: Time) returns (ok: bool)
    ensures ok <==> IsBest(req, p, now)
  {
    if |req.waiting| == 0 {
      return true;
    }
    var mine := AdmitScore(req.sandbox, req.sigs, p, now, req.waitingSince);
    var i := 0;
    while i < |req.waiting|
      invariant 0 <= i <= |req.waiting|
      invariant forall j :: 0 <= j < i && req.waiting[j].id != "" && req.waiting[j].id != req.sandbox.id ==>
                  !Outranks(req.waiting[j], req.sandbox, req, p, now)
    {
      var other := req.waiting[i];
      if other.id != "" && other.id != req.sandbox.id {
        var sc := AdmitScore(other, req.sigs, p, now, req.waitingSince);
        if sc > mine {
          return false;
        }
        if sc == mine {
          if other.createdAt < req.sandbox.createdAt {
            return false;
          }
          if other.createdAt == req.sandbox.createdAt && StringLess(other.id, req.sandbox.id) {
            return false;
          }
        }
      }
      i := i + 1;
    }
    return true;
  }

  ghost predicate DistinctIds(lobby: seq<Sandbox>) {
    && (forall i :: 0 <= i < |lobby| ==> lobby[i].id != "")
    && forall i, j :: 0 <= i < j < |lobby| ==> lobby[i].id != lobby[j].id
  }

  /** Some waiter of the first `n` outranks all the others of them. */
  lemma {:induction false} TopRanked(req: Request, p: Weights, now: Time, n: nat) returns (b: nat)
    requires DistinctIds(req.waiting) && 0 < n <= |req.waiting|
    ensures b < n && forall j :: 0 <= j < n && j != b ==> Outranks(req.waiting[b], req.waiting[j], req, p, now)
    decreases n
  {
    if n == 1 {
      return 0;
    }
    b := TopRanked(req, p, now, n - 1);
    var x := req.waiting[n - 1];
    OutranksTrichotomy(x, req.waiting[b], req, p, now);
    if Outranks(x, req.waiting[b], req, p, now) {
      forall j | 0 <= j < n - 1
        ensures Outranks(x, req.waiting[j], req, p, now)
      {
        if j != b {
          OutranksTransitive(x, req.waiting[b], req.waiting[j], req, p, now);
        }
      }
      b := n - 1;
    }
  }

  /** Election: at one time and signal view, exactly one waiter of the lobby passes - the one that
      outranks all others. */
  lemma ExactlyOneKnocker(req: Request, p: Weights, now: Time) returns (b: nat)
    requires DistinctIds(req.waiting) && req.waiting != []
    ensures b < |req.waiting|
    ensures forall j :: 0 <= j < |req.waiting| ==>
              (IsBest(req.(sandbox := req.waiting[j]), p, now) <==> j == b)
    ensures forall j :: 0 <= j < |req.waiting| && j != b ==>
              Outranks(req.waiting[b], req.waiting[j], req, p, now)
  {
    b := TopRanked(req, p, now, |req.waiting|);
    forall j | 0 <= j < |req.waiting|
      ensures IsBest(req.(sandbox := req.waiting[j]), p, now) <==> j == b
    {
      var asker := req.(sandbox := req.waiting[j]);
      forall x, y
        ensures Outranks(x, y, asker, p, now) == Outranks(x, y, req, p, now)
      {
      }
      if j == b {
        forall i | 0 <= i < |req.waiting| && req.waiting[i].id != req.waiting[b].id
          ensures !Outranks(req.waiting[i], req.waiting[b], asker, p, now)
        {
          OutranksTrichotomy(req.waiting[i], req.waiting[b], req, p, now);
        }
      } else {
        assert req.waiting[b].id != req.waiting[j].id;
        assert Outranks(req.waiting[b], asker.sandbox, asker, p, now);
      }
    }
  }

  // ----- victims -----

  predicate Locked(sb: Sandbox, sigs: SandboxSignals) {
    sb.id in sigs && (sigs[sb.id].semantic.lock || sigs[sb.id].semantic.phase == TOOL_LOOP)
  }

  /** Those kept from eviction are exactly those with full phase protection. */
  lemma LockedIsProtected(sb: Sandbox, sigs: SandboxSignals)
    ensures Locked(sb, sigs) <==> PhaseProtect(SemanticOf(sb, sigs)) == 1.0
  {
  }

  /** Lower keep score, then the older sandbox. */
  predicate Cheaper(a: Sandbox, b: Sandbox, sigs: SandboxSignals, p: Weights, now: Time) {
    var ka, kb := KeepScore(a, sigs, p, now), KeepScore(b, sigs, p, now);
    ka < kb || (ka == kb && a.createdAt < b.createdAt)
  }

  function ByCost(sigs: SandboxSignals, p: Weights, now: Time): (Sandbox, Sandbox) -> bool {
    (a: Sandbox, b: Sandbox) => Cheaper(a, b, sigs, p, now)
  }

  lemma CheaperIsOrder(sigs: SandboxSignals, p: Weights, now: Time)
    ensures StrictWeak(ByCost(sigs, p, now))
  {
  }

  /** Those not in the middle of a checkpoint. */
  function Free(running: seq<Sandbox>, sigs: SandboxSignals): seq<Sandbox> {
    if running == [] then []
    else
      var rest := Free(running[..|running| - 1], sigs);
      var last := running[|running| - 1];
      if Checkpointing(last.id, sigs) then rest else rest + [last]
  }

  function Unlocked(running: seq<Sandbox>, sigs: SandboxSignals): seq<Sandbox> {
    if running == [] then []
    else
      var rest := Unlocked(running[..|running| - 1], sigs);
      var last := running[|running| - 1];
      if Locked(last, sigs) then rest else rest + [last]
  }

  lemma {:induction false} FreeMembers(running: seq<Sandbox>, sigs: SandboxSignals)
    ensures forall v :: v in Free(running, sigs) <==> v in running && !Checkpointing(v.id, sigs)
    decreases |running|
  {
    if running != [] {
      FreeMembers(running[..|running| - 1], sigs);
      assert running == running[..|running| - 1] + [running[|running| - 1]];
    }
  }

  lemma {:induction false} UnlockedMembers(running: seq<Sandbox>, sigs: SandboxSignals)
    ensures forall v :: v in Unlocked(running, sigs) <==> v in running && !Locked(v, sigs)
    decreases |running|
  {
    if running != [] {
      UnlockedMembers(running[..|running| - 1], sigs);
      assert running == running[..|running| - 1] + [running[|running| - 1]];
    }
  }

  /** The pool a victim is drawn from. */
  function Pool(running: seq<Sandbox>, sigs: SandboxSignals): seq<Sandbox> {
    var candidates := Free(running, sigs);
    var unlocked := Unlocked(candidates, sigs);
    if unlocked == [] then candidates else unlocked
  }

  datatype Pick = Victim(sb: Sandbox) | Refused(refusal: Refusal)

  method PickSemanticVictim(running: seq<Sandbox>, sigs: SandboxSignals, p: Weights, now: Time) returns (r: Pick)
    ensures r == Refused(AllBusy) <==> Free(running, sigs) == []
    ensures r == Refused(AllLocked) <==>
              Free(running, sigs) != [] && Unlocked(Free(running, sigs), sigs) == [] && !p.override
    ensures r.Refused? ==> r.refusal in {AllBusy, AllLocked}
    ensures r.Victim? ==>
              exists i :: FirstBest(ByCost(sigs, p, now), Pool(running, sigs), i)
                          && r.sb == Pool(running, sigs)[i]
  {
    var candidates := [];
    var i := 0;
    while i < |running|
      invariant 0 <= i <= |running| && candidates == Free(running[..i], sigs)
    {
      assert running[..i + 1][..i] == running[..i];
      if !Checkpointing(running[i].id, sigs) {
        candidates := candidates + [running[i]];
      }
      i := i + 1;
    }
    assert running[..i] == running;
    if |candidates| == 0 {
      return Refused(AllBusy);
    }
    var unlocked := [];
    i := 0;
    while i < |candidates|
      invariant 0 <= i <= |candidates| && unlocked == Unlocked(candidates[..i], sigs)
    {
      assert candidates[..i + 1][..i] == candidates[..i];
      if !Locked(candidates[i], sigs) {
        unlocked := unlocked + [candidates[i]];
      }
      i := i + 1;
    }
    assert candidates[..i] == candidates;
    var pool := unlocked;
    if |pool| == 0 {
      if !p.override {
        return Refused(AllLocked);
      }
      pool := candidates;
    }
    assert pool == Pool(running, sigs);
    var cheapest := Cheapest(pool, sigs, p, now);
    r := Victim(cheapest);
  }

  method Cheapest(pool: seq<Sandbox>, sigs: SandboxSignals, p: Weights, now: Time) returns (v: Sandbox)
    requires pool != []
    ensures exists i :: FirstBest(ByCost(sigs, p, now), pool, i) && v == pool[i]
  {
    ghost var better := ByCost(sigs, p, now);
    CheaperIsOrder(sigs, p, now);
    var best := 0;
    var bestScore := KeepScore(pool[0], sigs, p, now);
    var i := 1;
    while i < |pool|
      invariant 1 <= i <= |pool|
      invariant FirstBest(better, pool[..i], best) && bestScore == KeepScore(pool[best], sigs, p, now)
    {
      var sc := KeepScore(pool[i], sigs, p, now);
      FirstBestNext(better, pool[..i], best, pool[i]);
      assert pool[..i] + [pool[i]] == pool[..i + 1];
      if sc < bestScore || (sc == bestScore && pool[i].createdAt < pool[best].createdAt) {
        best := i;
        bestScore := sc;
      }
      i := i + 1;
    }
    assert pool[..i] == pool;
    v := pool[best];
  }

  // ----- Place and Resume -----

  /** The victim a Place may name: of least keep score, oldest on ties, among the running sandboxes that are
      neither in the middle of a checkpoint nor locked; locked ones only when there are no others and the
      override is on. */
  ghost predicate RightVictim(req: Request, p: Weights, now: Time, v: Sandbox) {
    && v in req.running && !Checkpointing(v.id, req.sigs)
    && (Locked(v, req.sigs) ==>
          p.override && forall u :: u in req.running && !Checkpointing(u.id, req.sigs) ==> Locked(u, req.sigs))
    && (forall u :: u in req.running && !Checkpointing(u.id, req.sigs)
                    && (Locked(u, req.sigs) ==> Locked(v, req.sigs)) ==>
          !Cheaper(u, v, req.sigs, p, now))
  }

  /** The least usable Worker, else the right victim, and each refusal exactly in its own case. */
  ghost predicate Placed(req: Request, p: Weights, now: Time, r: Result) {
    && AdmitsLeast(req, r)
    && (r.Ok? && r.decision.Preempt? ==>
          NoneUsable(req) && exists v :: RightVictim(req, p, now, v) && r.decision == Preempt(v.id, v.worker))
    && (r == Err(NothingToSuspend) <==> NoneUsable(req) && req.running == [])
    && (r == Err(AllBusy) <==>
          NoneUsable(req) && req.running != [] && forall u :: u in req.running ==> Checkpointing(u.id, req.sigs))
    && (r == Err(AllLocked) <==>
          NoneUsable(req) && !p.override
          && (exists u :: u in req.running && !Checkpointing(u.id, req.sigs))
          && forall u :: u in req.running && !Checkpointing(u.id, req.sigs) ==> Locked(u, req.sigs))
    && (r.Err? ==> r.refusal != NotBestWaiter)
  }

  method Place(req: Request, p: Weights, now: Time) returns (r: Result)
    ensures Contract(req, r)
    ensures Placed(req, p, now, r)
  {
    var idle := PickIdleWorker(req);
    if idle.Some? {
      return Ok(Admit(idle.value.id));
    }
    if |req.running| == 0 {
      return Err(NothingToSuspend);
    }
    assert req.running[0] in req.running;
    FreeMembers(req.running, req.sigs);
    UnlockedMembers(Free(req.running, req.sigs), req.sigs);
    MembersOf(req.running, req.sigs);
    var pick := PickSemanticVictim(req.running, req.sigs, p, now);
    match pick {
      case Refused(refusal) => return Err(refusal);
      case Victim(v) =>
        PoolVictim(req, p, now, v);
        return Ok(Preempt(v.id, v.worker));
    }
  }

  lemma MembersOf(running: seq<Sandbox>, sigs: SandboxSignals)
    ensures Free(running, sigs) == [] <==> forall u :: u in running ==> Checkpointing(u.id, sigs)
    ensures Unlocked(Free(running, sigs), sigs) == [] <==>
            forall u :: u in running && !Checkpointing(u.id, sigs) ==> Locked(u, sigs)
  {
    FreeMembers(running, sigs);
    UnlockedMembers(Free(running, sigs), sigs);
    var free, unlocked := Free(running, sigs), Unlocked(Free(running, sigs), sigs);
    if free != [] {
      assert free[0] in free;
    }
    if unlocked != [] {
      assert unlocked[0] in unlocked;
    }
  }

  lemma PoolVictim(req: Request, p: Weights, now: Time, v: Sandbox)
    requires exists i :: FirstBest(ByCost(req.sigs, p, now),
                                   Pool(req.running, req.sigs), i)
                         && v == Pool(req.running, req.sigs)[i]
    requires Unlocked(Free(req.running, req.sigs), req.sigs) == [] ==> p.override
    ensures RightVictim(req, p, now, v)
  {
    FreeMembers(req.running, req.sigs);
    UnlockedMembers(Free(req.running, req.sigs), req.sigs);
    MembersOf(req.running, req.sigs);
    var pool := Pool(req.running, req.sigs);
    assert v in pool;
    forall u | u in pool
      ensures !Cheaper(u, v, req.sigs, p, now)
    {
    }
  }

  method Resume(req: Request, p: Weights, now: Time) returns (r: Result)
    ensures ResumeContract(req, r)
    ensures r == Err(NotBestWaiter) <==> !IsBest(req, p, now)
    ensures IsBest(req, p, now) && Sticky(req).Some? ==> r == Ok(Admit(Sticky(req).value))
    ensures IsBest(req, p, now) && Sticky(req).None? ==> Placed(req, p, now, r)
  {
    var best := RequireBestWaiter(req, p, now);
    if !best {
      return Err(NotBestWaiter);
    }
    var sticky := Sticky(req);
    if sticky.Some? {
      FirstNamedIsListed(req.workers, req.sandbox.worker);
      return Ok(Admit(sticky.value));
    }
    r := Place(req, p, now);
  }
}
