/** The scheduler's own maps and the views it hands to a policy (internal/scheduler/scheduler.go). */
module Scheduler {
  import opened Types
  import opened Policy
  import Policies
  import SemanticScore

  datatype Waiter = Waiter(sandbox: Sandbox, since: Time)

  // ----- the lobby -----

  function Joined(lobby: map<string, Waiter>, sb: Sandbox, now: Time): map<string, Waiter> {
    lobby[sb.id := Waiter(sb, if sb.id in lobby then lobby[sb.id].since else now)]
  }

  datatype LobbyStep = Add(sb: Sandbox, now: Time) | Remove(id: string)

  function LobbyAfter(lobby: map<string, Waiter>, steps: seq<LobbyStep>): map<string, Waiter>
    decreases |steps|
  {
    if steps == [] then lobby
    else
      var next := match steps[0]
                  case Add(sb, now) => Joined(lobby, sb, now)
                  case Remove(id) => lobby - {id};
      LobbyAfter(next, steps[1..])
  }

  function SinceOf(lobby: map<string, Waiter>): map<string, Time> {
    map id | id in lobby :: lobby[id].since
  }

  /** However often a waiter is refreshed, its join time stays until it leaves. */
  lemma {:induction false} JoinTimeKept(lobby: map<string, Waiter>, steps: seq<LobbyStep>, id: string)
    requires id in lobby && Remove(id) !in steps
    ensures id in LobbyAfter(lobby, steps) && LobbyAfter(lobby, steps)[id].since == lobby[id].since
    decreases |steps|
  {
    if steps != [] {
      var next := match steps[0]
                  case Add(sb, now) => Joined(lobby, sb, now)
                  case Remove(z) => lobby - {z};
      assert steps[0] in steps;
      JoinTimeKept(next, steps[1..], id);
    }
  }

  /** Two waiters still in the lobby: one that joined the lead earlier outranks the other whatever was
      refreshed, added or removed since, and whatever their signals say. */
  lemma EarlyWaiterWins(lobby: map<string, Waiter>, steps: seq<LobbyStep>, a: Sandbox, b: Sandbox,
                        sigs: SandboxSignals, p: SemanticScore.Weights, now: Time)
    requires SemanticScore.Weighted(p) && a.id in lobby && b.id in lobby
    requires Remove(a.id) !in steps && Remove(b.id) !in steps
    requires lobby[a.id].since != UNSET && lobby[b.id].since <= now
    requires lobby[a.id].since + 60.0 * SemanticScore.Ceiling(p) / p.wq <= lobby[b.id].since
    ensures var since := SinceOf(LobbyAfter(lobby, steps));
            SemanticScore.AdmitScore(a, sigs, p, now, since) > SemanticScore.AdmitScore(b, sigs, p, now, since)
  {
    JoinTimeKept(lobby, steps, a.id);
    JoinTimeKept(lobby, steps, b.id);
    SemanticScore.AgeingBound(a, b, sigs, p, now, SinceOf(LobbyAfter(lobby, steps)));
  }

  // ----- whose turn it is -----

  function KnockRequest(sb: Sandbox, sigs: SandboxSignals, waiting: seq<Sandbox>, since: map<string, Time>): Request {
    Request(sb, [], [], sigs, map[], waiting, since)
  }

  predicate Ahead(a: Sandbox, b: Sandbox, lobby: map<string, Waiter>, sigs: SandboxSignals, p: SemanticScore.Weights,
                  now: Time) {
    SemanticScore.Outranks(a, b, KnockRequest(b, sigs, [], SinceOf(lobby)), p, now)
  }

  /** Nobody else in the lobby outranks the asker. */
  predicate HasTurn(lobby: map<string, Waiter>, sb: Sandbox, sigs: SandboxSignals, p: SemanticScore.Weights, now: Time)
  {
    forall z :: z in lobby && lobby[z].sandbox.id != "" && lobby[z].sandbox.id != sb.id ==>
      !Ahead(lobby[z].sandbox, sb, lobby, sigs, p, now)
  }

  /** Every waiter sits under its own, non-empty id. */
  predicate Keyed(lobby: map<string, Waiter>) {
    forall id :: id in lobby ==> id != "" && lobby[id].sandbox.id == id
  }

  lemma {:induction false} StaysKeyed(lobby: map<string, Waiter>, steps: seq<LobbyStep>)
    requires Keyed(lobby) && forall i :: 0 <= i < |steps| && steps[i].Add? ==> steps[i].sb.id != ""
    ensures Keyed(LobbyAfter(lobby, steps))
    decreases |steps|
  {
    if steps != [] {
      var next := match steps[0]
                  case Add(sb, now) => Joined(lobby, sb, now)
                  case Remove(z) => lobby - {z};
      StaysKeyed(next, steps[1..]);
    }
  }

  /** A lobby listed in some order. */
  lemma {:induction false} Listing(lobby: map<string, Waiter>, ids: set<string>) returns (list: seq<Sandbox>)
    requires Keyed(lobby) && ids <= lobby.Keys
    ensures SemanticScore.DistinctIds(list) && |list| == |ids|
    ensures forall sb :: sb in list <==> sb.id in ids && lobby[sb.id].sandbox == sb
    decreases ids
  {
    list := [];
    if ids != {} {
      var id :| id in ids;
      var rest := Listing(lobby, ids - {id});
      list := rest + [lobby[id].sandbox];
      forall i | 0 <= i < |rest|
        ensures rest[i].id != id
      {
        assert rest[i] in rest;
      }
    }
  }

  /** Election over the lobby: at one time and signal view, exactly one waiter has the turn. */
  lemma OneTurn(lobby: map<string, Waiter>, sigs: SandboxSignals, p: SemanticScore.Weights, now: Time)
    returns (best: string)
    requires Keyed(lobby) && lobby != map[]
    ensures best in lobby
    ensures forall id :: id in lobby ==> (HasTurn(lobby, lobby[id].sandbox, sigs, p, now) <==> id == best)
  {
    var list := Listing(lobby, lobby.Keys);
    var req := KnockRequest(list[0], sigs, list, SinceOf(lobby));
    var b := SemanticScore.ExactlyOneKnocker(req, p, now);
    assert list[b] in list;
    best := list[b].id;
    forall id | id in lobby
      ensures HasTurn(lobby, lobby[id].sandbox, sigs, p, now) <==> id == best
    {
      assert lobby[id].sandbox in list;
      var j :| 0 <= j < |list| && list[j] == lobby[id].sandbox;
      TurnIsBest(lobby, KnockRequest(list[j], sigs, list, SinceOf(lobby)), p, now);
    }
  }

  /** Asking the list of waiters and asking the lobby come to the same. */
  lemma TurnIsBest(lobby: map<string, Waiter>, req: Request, p: SemanticScore.Weights, now: Time)
    requires req.waitingSince == SinceOf(lobby) && forall id :: id in lobby ==> lobby[id].sandbox in req.waiting
    requires forall v :: v in req.waiting ==> exists id :: id in lobby && lobby[id].sandbox == v
    ensures SemanticScore.IsBest(req, p, now) <==> HasTurn(lobby, req.sandbox, req.sigs, p, now)
  {
    var sb, list := req.sandbox, req.waiting;
    if SemanticScore.IsBest(req, p, now) {
      forall z | z in lobby && lobby[z].sandbox.id != "" && lobby[z].sandbox.id != sb.id
        ensures !Ahead(lobby[z].sandbox, sb, lobby, req.sigs, p, now)
      {
        assert lobby[z].sandbox in list;
        SameRank(lobby[z].sandbox, lobby, req, p, now);
      }
    }
    if HasTurn(lobby, sb, req.sigs, p, now) {
      forall i | 0 <= i < |list| && list[i].id != "" && list[i].id != sb.id
        ensures !SemanticScore.Outranks(list[i], sb, req, p, now)
      {
        assert list[i] in list;
        var z :| z in lobby && lobby[z].sandbox == list[i];
        SameRank(list[i], lobby, req, p, now);
      }
    }
  }

  lemma SameRank(a: Sandbox, lobby: map<string, Waiter>, req: Request, p: SemanticScore.Weights, now: Time)
    requires req.waitingSince == SinceOf(lobby)
    ensures Ahead(a, req.sandbox, lobby, req.sigs, p, now) <==> SemanticScore.Outranks(a, req.sandbox, req, p, now)
  {
  }

  // ----- views -----

  /** The Workers a policy may admit to. */
  function FreeIds(workers: seq<Worker>): set<string> {
    set i | 0 <= i < |workers| && workers[i].FreeSlots() > 0 :: workers[i].id
  }

  function RunningOn(running: seq<Sandbox>): map<string, string> {
    if running == [] then map[]
    else RunningOn(running[..|running| - 1])[running[|running| - 1].id := running[|running| - 1].worker]
  }

  ghost predicate DistinctSandboxes(running: seq<Sandbox>) {
    forall i, j :: 0 <= i < j < |running| ==> running[i].id != running[j].id
  }

  lemma {:induction false} RunningOnHas(running: seq<Sandbox>, v: Sandbox)
    requires DistinctSandboxes(running) && v in running
    ensures v.id in RunningOn(running) && RunningOn(running)[v.id] == v.worker
    decreases |running|
  {
    var n := |running| - 1;
    var i :| 0 <= i <= n && running[i] == v;
    if i < n {
      assert running[..n][i] == v;
      RunningOnHas(running[..n], v);
    }
  }

  datatype Views = Views(workers: seq<Worker>, running: seq<Sandbox>)

  datatype Candidates = Seen(views: Views) | NoStickyWorker

  class Desk {
    var resumeWaiters: map<string, Waiter>
    var restoreReserve: map<string, string>

    constructor ()
      ensures resumeWaiters == map[] && restoreReserve == map[]
    {
      resumeWaiters, restoreReserve := map[], map[];
    }

    method ReserveRestore(worker: string, sandbox: string)
      modifies this`restoreReserve
      ensures restoreReserve == old(restoreReserve)[worker := sandbox]
    {
      restoreReserve := restoreReserve[worker := sandbox];
    }

    /** Only the holder's own clear takes a reservation away. */
    method ClearRestoreReserve(worker: string, sandbox: string)
      modifies this`restoreReserve
      ensures forall w :: w in restoreReserve <==>
                w in old(restoreReserve) && !(w == worker && old(restoreReserve)[w] == sandbox)
      ensures forall w :: w in restoreReserve ==> restoreReserve[w] == old(restoreReserve)[w]
    {
      if worker in restoreReserve && restoreReserve[worker] == sandbox {
        restoreReserve := restoreReserve - {worker};
      }
    }

    predicate HeldByOther(worker: string, sandbox: string)
      reads this`restoreReserve
    {
      worker in restoreReserve && restoreReserve[worker] != sandbox
    }

    /** A Worker another Resume is restoring onto looks full; nothing else about any Worker changes. */
    method ApplyRestoreReserves(workers: seq<Worker>, self: string) returns (out: seq<Worker>)
      ensures |out| == |workers|
      ensures forall i :: 0 <= i < |out| ==>
                out[i] == if !HeldByOther(workers[i].id, self) then workers[i]
                          else workers[i].(usedSlots := if workers[i].maxSlots < 1 then 1 else workers[i].maxSlots)
      ensures forall i :: 0 <= i < |out| ==>
                (out[i].FreeSlots() > 0 <==> workers[i].FreeSlots() > 0 && !HeldByOther(workers[i].id, self))
    {
      if |restoreReserve| == 0 {
        return workers;
      }
      out := workers;
      var i := 0;
      while i < |out|
        invariant 0 <= i <= |out| == |workers|
        invariant forall j :: i <= j < |out| ==> out[j] == workers[j]
        invariant forall j :: 0 <= j < i ==>
                    out[j] == if !HeldByOther(workers[j].id, self) then workers[j]
                              else workers[j].(usedSlots := if workers[j].maxSlots < 1 then 1 else workers[j].maxSlots)
      {
        var w := out[i];
        if w.id in restoreReserve && restoreReserve[w.id] != self {
          w := w.(usedSlots := w.maxSlots);
          if w.usedSlots < 1 {
            w := w.(usedSlots := 1);
          }
          out := out[i := w];
        }
        i := i + 1;
      }
    }

    method AddResumeWaiter(sb: Sandbox, now: Time)
      modifies this`resumeWaiters
      ensures resumeWaiters == LobbyAfter(old(resumeWaiters), [Add(sb, now)])
      ensures sb.id in resumeWaiters && resumeWaiters[sb.id].sandbox == sb
      ensures resumeWaiters[sb.id].since == if sb.id in old(resumeWaiters) then old(resumeWaiters)[sb.id].since else now
      ensures resumeWaiters - {sb.id} == old(resumeWaiters) - {sb.id}
    {
      assert [Add(sb, now)][1..] == [];
      if sb.id in resumeWaiters {
        resumeWaiters := resumeWaiters[sb.id := resumeWaiters[sb.id].(sandbox := sb)];
        return;
      }
      resumeWaiters := resumeWaiters[sb.id := Waiter(sb, now)];
    }

    method RemoveResumeWaiter(id: string)
      modifies this`resumeWaiters
      ensures resumeWaiters == LobbyAfter(old(resumeWaiters), [Remove(id)]) == old(resumeWaiters) - {id}
    {
      assert [Remove(id)][1..] == [];
      resumeWaiters := resumeWaiters - {id};
    }

    /** The lobby in some order, each waiter once, with the join times. */
    method ListResumeWaitState() returns (out: seq<Sandbox>, since: map<string, Time>)
      ensures since == SinceOf(resumeWaiters)
      ensures |out| == |resumeWaiters| && forall id :: id in resumeWaiters ==> resumeWaiters[id].sandbox in out
      ensures forall sb :: sb in out ==> exists id :: id in resumeWaiters && resumeWaiters[id].sandbox == sb
    {
      var ids := resumeWaiters.Keys;
      out, since := [], map[];
      while ids != {}
        invariant ids <= resumeWaiters.Keys && |out| + |ids| == |resumeWaiters|
        invariant since == map id | id in resumeWaiters && id !in ids :: resumeWaiters[id].since
        invariant forall id :: id in resumeWaiters && id !in ids ==> resumeWaiters[id].sandbox in out
        invariant forall sb :: sb in out ==> exists id :: id in resumeWaiters && resumeWaiters[id].sandbox == sb
        decreases |ids|
      {
        var id :| id in ids;
        ids := ids - {id};
        out := out + [resumeWaiters[id].sandbox];
        since := since[id := resumeWaiters[id].since];
      }
    }

    /** Only semantic-score makes a Resume wait for its turn. */
    method EnsureKnockerTurn(kind: Policies.Kind, sb: Sandbox, sigs: SandboxSignals, now: Time) returns (ok: bool)
      ensures ok <==> (kind.Semantic? ==> HasTurn(resumeWaiters, sb, sigs, kind.weights, now))
    {
      if !kind.Semantic? {
        return true;
      }
      var waiting, since := ListResumeWaitState();
      var req := KnockRequest(sb, sigs, waiting, since);
      TurnIsBest(resumeWaiters, req, kind.weights, now);
      ok := SemanticScore.RequireBestWaiter(req, kind.weights, now);
    }

    /** A Worker of the answered ones, full if another Resume restores onto it. */
    predicate SeenAs(w: Worker, worker: Worker, self: string)
      reads this`restoreReserve
    {
      && w == worker.(usedSlots := w.usedSlots) && (!HeldByOther(worker.id, self) ==> w == worker)
      && (w.FreeSlots() > 0 <==> worker.FreeSlots() > 0 && !HeldByOther(worker.id, self))
    }

    /** What a Resume is shown: its own Worker, and who runs there, if it is paused or keeps to its home; everything
        otherwise. */
    ghost predicate Shows(views: Views, sb: Sandbox, workers: seq<Worker>, running: seq<Sandbox>, localExists: bool)
      reads this`restoreReserve
    {
      && (forall w :: w in views.workers ==> exists i :: 0 <= i < |workers| && SeenAs(w, workers[i], sb.id))
      && (sb.state == Paused || KeepsHome(sb, workers, localExists) ==>
            && |views.workers| == 1 && views.workers[0].id == sb.worker
            && (forall v :: v in views.running <==> v in running && v.worker == sb.worker))
      && (sb.state != Paused && !KeepsHome(sb, workers, localExists) ==>
            && views.running == running && |views.workers| == |workers|
            && forall i :: 0 <= i < |workers| ==> SeenAs(views.workers[i], workers[i], sb.id))
    }

    /** A suspended sandbox is kept to its last Worker while that has room and its directory. */
    predicate KeepsHome(sb: Sandbox, workers: seq<Worker>, localExists: bool)
      reads this`restoreReserve
    {
      var home := FirstNamed(workers, sb.worker);
      && sb.source != NoSnapshot && sb.worker != "" && localExists
      && home.Some? && home.value.FreeSlots() > 0 && !HeldByOther(sb.worker, sb.id)
    }

    /** resumeCandidates: what a decision may look at. `workers` answered their status just now, `running` is the
        store's list, and `localExists` what the last Worker says about its checkpoint directory. */
    method ResumeCandidates(sb: Sandbox, workers: seq<Worker>, running: seq<Sandbox>, localExists: bool)
      returns (r: Candidates)
      ensures r.Seen? ==> Shows(r.views, sb, workers, running, localExists)
      ensures sb.state == Paused ==> (r.NoStickyWorker? <==> forall w :: w in workers ==> w.id != sb.worker)
      ensures sb.state != Paused ==> r.Seen?
      ensures var home := FirstNamed(workers, sb.worker);
              sb.state != Paused && sb.source in {LocalSnapshot, ExternalSnapshot} && sb.worker != "" && localExists
              && home.Some? && home.value.FreeSlots() > 0 && !HeldByOther(sb.worker, sb.id) ==>
                r.Seen? && |r.views.workers| == 1 && r.views.workers[0].id == sb.worker
      ensures sb.state != Paused && (sb.source == NoSnapshot || sb.worker == "" || !localExists) ==>
                r.views.running == running && |r.views.workers| == |workers|
    {
      var masked := ApplyRestoreReserves(workers, sb.id);
      assert forall i :: 0 <= i < |workers| ==> SeenAs(masked[i], workers[i], sb.id);
      FirstNamedAligned(masked, workers, sb.worker);
      var sticky := FirstNamed(masked, sb.worker);
      if sticky.Some? {
        FirstNamedIsListed(masked, sb.worker);
      } else {
        NobodyNamed(workers, sb.worker);
      }
      if sb.state == Paused {
        if sticky.None? {
          return NoStickyWorker;
        }
        var here := FilterRunningOn(running, sb.worker);
        return Seen(Views([sticky.value], here));
      }
      if (sb.source == LocalSnapshot || sb.source == ExternalSnapshot) && sb.worker != "" {
        if sticky.Some? && sticky.value.FreeSlots() > 0 && localExists {
          var here := FilterRunningOn(running, sb.worker);
          return Seen(Views([sticky.value], here));
        }
      }
      return Seen(Views(masked, running));
    }

    /** The Workers with room that no other Resume holds. */
    function FreeFor(workers: seq<Worker>, self: string): set<string>
      reads this`restoreReserve
    {
      set w | w in FreeIds(workers) && !HeldByOther(w, self)
    }

    lemma SeenFree(seen: seq<Worker>, workers: seq<Worker>, self: string)
      requires forall w :: w in seen ==> exists i :: 0 <= i < |workers| && SeenAs(w, workers[i], self)
      ensures forall w :: w in seen && w.FreeSlots() > 0 ==> w.id in FreeFor(workers, self)
    {
    }

    /** The policy's answer to these views and signals, with the lobby listed in some order. */
    ghost predicate Answered(kind: Policies.Kind, sb: Sandbox, views: Views, sigs: SandboxSignals, rows: WorkerSignals,
                             now: Time, r: Result)
      reads this`resumeWaiters
    {
      exists waiting ::
        Policies.Answers(kind, Request(sb, views.workers, views.running, sigs, rows, waiting, SinceOf(resumeWaiters)),
                         now, r)
    }

    /** What the policy says to the views of a Resume. */
    method AskPolicy(kind: Policies.Kind, sb: Sandbox, views: Views, sigs: SandboxSignals, rows: WorkerSignals,
                     now: Time, ghost running: seq<Sandbox>, ghost free: set<string>)
      returns (r: Result)
      requires DistinctSandboxes(running) && Truthful(views, sb, running, free)
      ensures r.Ok? ==> Allowed(sb, free, RunningOn(running), r.decision)
      ensures Answered(kind, sb, views, sigs, rows, now, r)
      ensures r == Err(NotBestWaiter) <==> kind.Semantic? && !HasTurn(resumeWaiters, sb, sigs, kind.weights, now)
    {
      var waiting, since := ListResumeWaitState();
      var req := Request(sb, views.workers, views.running, sigs, rows, waiting, since);
      if kind.Semantic? {
        TurnIsBest(resumeWaiters, req, kind.weights, now);
      }
      r := Policies.Resume(kind, req, now);
      if r.Ok? {
        DecisionAllowed(req, r, running, free);
      }
    }

    /** One decision of a Resume: the candidates, the lobby, the policy. Whatever the policy, it keeps to the
        contract the protocol relies on. */
    method DecideResume(kind: Policies.Kind, sb: Sandbox, workers: seq<Worker>, running: seq<Sandbox>,
                        localExists: bool, sigs: SandboxSignals, rows: WorkerSignals, now: Time)
      returns (r: Option<Result>)
      requires DistinctSandboxes(running)
      ensures r.Some? && r.value.Ok? ==>
                Allowed(sb, FreeFor(workers, sb.id), RunningOn(running), r.value.decision)
      ensures r.Some? ==> (r.value == Err(NotBestWaiter) <==>
                           kind.Semantic? && !HasTurn(resumeWaiters, sb, sigs, kind.weights, now))
      ensures r.Some? ==>
                exists views ::
                  Shows(views, sb, workers, running, localExists) && Answered(kind, sb, views, sigs, rows, now, r.value)
      ensures r.None? ==> sb.state == Paused && forall w :: w in workers ==> w.id != sb.worker
    {
      var seen := ResumeCandidates(sb, workers, running, localExists);
      if seen.NoStickyWorker? {
        return None;
      }
      SeenFree(seen.views.workers, workers, sb.id);
      var decided := AskPolicy(kind, sb, seen.views, sigs, rows, now, running, FreeFor(workers, sb.id));
      return Some(decided);
    }
  }

  /** Views that show nothing that is not there, and to a paused sandbox only its own Worker. */
  ghost predicate Truthful(views: Views, sb: Sandbox, running: seq<Sandbox>, free: set<string>) {
    && (forall v :: v in views.running ==> v in running)
    && (forall w :: w in views.workers && w.FreeSlots() > 0 ==> w.id in free)
    && (sb.state == Paused ==>
          && (forall w :: w in views.workers ==> w.id == sb.worker)
          && forall v :: v in views.running ==> v.worker == sb.worker)
  }

  /** What the policies' contract means for the protocol, given what the request shows. */
  lemma DecisionAllowed(req: Request, r: Result, running: seq<Sandbox>, free: set<string>)
    requires ResumeContract(req, r) && r.Ok? && DistinctSandboxes(running)
    requires Truthful(Views(req.workers, req.running), req.sandbox, running, free)
    ensures Allowed(req.sandbox, free, RunningOn(running), r.decision)
  {
    match r.decision
    case Admit(id) =>
      var w :| w in req.workers && w.id == id && Usable(w, req);
    case Preempt(id, worker) =>
      var v :| v in req.running && v.id == id && v.worker == worker;
      RunningOnHas(running, v);
  }

  method FilterRunningOn(running: seq<Sandbox>, worker: string) returns (out: seq<Sandbox>)
    ensures forall v :: v in out <==> v in running && v.worker == worker
  {
    out := [];
    var i := 0;
    while i < |running|
      invariant 0 <= i <= |running|
      invariant forall v :: v in out <==> v in running[..i] && v.worker == worker
    {
      if running[i].worker == worker {
        out := out + [running[i]];
      }
      i := i + 1;
    }
  }

  /** Two lists that name the same Workers in the same order agree on the first of a name. */
  lemma {:induction false} FirstNamedAligned(a: seq<Worker>, b: seq<Worker>, id: string)
    requires |a| == |b| && forall i :: 0 <= i < |a| ==> a[i].id == b[i].id
    ensures FirstNamed(a, id).None? <==> FirstNamed(b, id).None?
    ensures FirstNamed(a, id).Some? ==>
              exists i :: 0 <= i < |a| && a[i] == FirstNamed(a, id).value && b[i] == FirstNamed(b, id).value
    decreases |a|
  {
    if a != [] && a[0].id != id {
      FirstNamedAligned(a[1..], b[1..], id);
      if FirstNamed(a, id).Some? {
        var i :| 0 <= i < |a| - 1 && a[1..][i] == FirstNamed(a[1..], id).value
                 && b[1..][i] == FirstNamed(b[1..], id).value;
        assert a[i + 1] == a[1..][i] && b[i + 1] == b[1..][i];
      }
    }
  }

  lemma {:induction false} NobodyNamed(workers: seq<Worker>, id: string)
    requires FirstNamed(workers, id).None?
    ensures forall w :: w in workers ==> w.id != id
    decreases |workers|
  {
    if workers != [] {
      NobodyNamed(workers[1..], id);
    }
  }
}
