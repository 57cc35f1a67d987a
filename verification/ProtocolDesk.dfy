/** What the scheduler's decision code does is a step of the protocol
    (internal/scheduler/scheduler.go:353-366, 697-766). */
module ProtocolDesk {
  import opened Types
  import opened Protocol
  import opened Policy
  import Policies
  import Scheduler

  /** The Workers that answered, as their status said. */
  ghost predicate Reported(workers: seq<Worker>, m: Machine) {
    forall w :: w in workers ==> w.id in m.hosts && (w.FreeSlots() > 0 <==> Alive(m, w.id) == {})
  }

  /** The store's running list. */
  ghost predicate Listing(running: seq<Sandbox>, m: Machine) {
    && Scheduler.DistinctSandboxes(running)
    && forall v :: v in running <==> v.id in m.records && m.records[v.id] == v && v.state == Running
  }

  function IdsOf(workers: seq<Worker>): set<string> {
    set i | 0 <= i < |workers| :: workers[i].id
  }

  lemma {:induction false} RunningOnOnly(running: seq<Sandbox>, id: string)
    requires id in Scheduler.RunningOn(running)
    ensures exists v :: v in running && v.id == id
    decreases |running|
  {
    var last := running[|running| - 1];
    if last.id != id {
      RunningOnOnly(running[..|running| - 1], id);
    }
  }

  lemma SameRunning(running: seq<Sandbox>, m: Machine)
    requires Listing(running, m) && forall id :: id in m.records ==> m.records[id].id == id
    ensures Scheduler.RunningOn(running) == RunningView(m)
  {
    var view := Scheduler.RunningOn(running);
    forall id | id in RunningView(m)
      ensures id in view && view[id] == RunningView(m)[id]
    {
      assert m.records[id] in running;
      Scheduler.RunningOnHas(running, m.records[id]);
    }
    forall id | id in view
      ensures id in RunningView(m)
    {
      RunningOnOnly(running, id);
    }
  }

  lemma SameFree(desk: Scheduler.Desk, s: System, workers: seq<Worker>, self: string)
    requires desk.restoreReserve == s.reserve && Reported(workers, s.m)
    ensures desk.FreeFor(workers, self) ==
            Unreserved(s, (set w | w in IdsOf(workers) && Alive(s.m, w) == {}), self)
  {
    var idle := set w | w in IdsOf(workers) && Alive(s.m, w) == {};
    forall w
      ensures w in Scheduler.FreeIds(workers) <==> w in idle
    {
      if i :| 0 <= i < |workers| && workers[i].id == w {
        assert workers[i] in workers;
        if w in Scheduler.FreeIds(workers) {
          var j :| 0 <= j < |workers| && workers[j].FreeSlots() > 0 && workers[j].id == w;
          assert workers[j] in workers;
        }
      }
    }
  }

  /** Whatever the policy: a Resume that looked at the answered statuses, the reservations and the running list,
      and got a decision, has taken the protocol's ViewAtOnce, ListRunning and Decide steps. */
  method Decides(desk: Scheduler.Desk, kind: Policies.Kind, sb: Sandbox, workers: seq<Worker>, running: seq<Sandbox>,
                 localExists: bool, sigs: SandboxSignals, rows: WorkerSignals, now: Time, ghost s: System, ghost c: int)
    returns (r: Option<Result>)
    requires c in s.calls && s.calls[c] == Scanning(sb, {})
    requires forall id :: id in s.m.records ==> s.m.records[id].id == id
    requires desk.restoreReserve == s.reserve && Reported(workers, s.m) && Listing(running, s.m)
    ensures r.Some? && r.value.Ok? ==>
              && ResumeEnabled(s, c, ViewAtOnce(IdsOf(workers)))
              && var seen := ResumeApply(s, c, ViewAtOnce(IdsOf(workers)));
                 && ResumeEnabled(seen, c, ListRunning)
                 && ResumeEnabled(ResumeApply(seen, c, ListRunning), c, Decide(r.value.decision))
  {
    r := desk.DecideResume(kind, sb, workers, running, localExists, sigs, rows, now);
    SameFree(desk, s, workers, sb.id);
    SameRunning(running, s.m);
    assert forall w :: w in IdsOf(workers) ==> w in s.m.hosts by {
      forall i | 0 <= i < |workers|
        ensures workers[i].id in s.m.hosts
      {
        assert workers[i] in workers;
      }
    }
  }

  // ----- statuses, reservations and running list read one after the other -----

  /** Every Worker's status as it was in the state in which that Worker was asked. */
  ghost predicate ReportedAt(workers: seq<Worker>, at: seq<Machine>) {
    |workers| == |at| && forall i :: 0 <= i < |workers| ==>
      workers[i].id in at[i].hosts && (workers[i].FreeSlots() > 0 <==> Alive(at[i], workers[i].id) == {})
  }

  /** What the protocol's ScanStatus steps gather over those states. */
  function Scanned(workers: seq<Worker>, at: seq<Machine>): set<string>
    requires |workers| == |at|
  {
    if workers == [] then {}
    else
      var i := |workers| - 1;
      Scanned(workers[..i], at[..i]) + if Alive(at[i], workers[i].id) == {} then {workers[i].id} else {}
  }

  /** Asking the next Worker is the protocol's ScanStatus step in that state. */
  lemma ScansNext(s: System, c: int, sb: Sandbox, workers: seq<Worker>, at: seq<Machine>, i: nat)
    requires ReportedAt(workers, at) && i < |workers| && s.m == at[i]
    requires c in s.calls && s.calls[c] == Scanning(sb, Scanned(workers[..i], at[..i]))
    ensures ResumeEnabled(s, c, ScanStatus(workers[i].id))
    ensures ResumeApply(s, c, ScanStatus(workers[i].id)).calls[c] ==
            Scanning(sb, Scanned(workers[..i + 1], at[..i + 1]))
  {
    assert workers[..i + 1][..i] == workers[..i] && at[..i + 1][..i] == at[..i];
  }

  lemma {:induction false} ScannedIsFree(workers: seq<Worker>, at: seq<Machine>)
    requires ReportedAt(workers, at)
    ensures Scheduler.FreeIds(workers) == Scanned(workers, at)
    decreases |workers|
  {
    if workers != [] {
      var n := |workers| - 1;
      ScannedIsFree(workers[..n], at[..n]);
      forall w
        ensures w in Scheduler.FreeIds(workers) <==>
                w in Scheduler.FreeIds(workers[..n]) || (w == workers[n].id && workers[n].FreeSlots() > 0)
      {
        if i :| 0 <= i < n && workers[i].FreeSlots() > 0 && workers[i].id == w {
          assert workers[..n][i] == workers[i];
        }
      }
    }
  }

  /** The code as it is: each status read in a state of its own, then the reservations in state `s`, then, other calls
      having moved meanwhile, the running list in state `u`. What it decides is the protocol's Decide step. */
  method DecidesApart(desk: Scheduler.Desk, kind: Policies.Kind, sb: Sandbox, workers: seq<Worker>,
                      running: seq<Sandbox>, localExists: bool, sigs: SandboxSignals, rows: WorkerSignals, now: Time,
                      ghost at: seq<Machine>, ghost s: System, ghost u: System, ghost c: int)
    returns (r: Option<Result>)
    requires ReportedAt(workers, at) && c in s.calls && s.calls[c] == Scanning(sb, Scanned(workers, at))
    requires desk.restoreReserve == s.reserve
    requires c in u.calls && u.calls[c] == ResumeApply(s, c, Mask).calls[c]
    requires Listing(running, u.m) && forall id :: id in u.m.records ==> u.m.records[id].id == id
    ensures ResumeEnabled(s, c, Mask) && ResumeEnabled(u, c, ListRunning)
    ensures r.Some? && r.value.Ok? ==> ResumeEnabled(ResumeApply(u, c, ListRunning), c, Decide(r.value.decision))
  {
    r := desk.DecideResume(kind, sb, workers, running, localExists, sigs, rows, now);
    ScannedIsFree(workers, at);
    SameRunning(running, u.m);
    assert desk.FreeFor(workers, sb.id) == Unreserved(s, Scanned(workers, at), sb.id);
  }
}
