/** GreedyDual-Size priority (internal/signals/gds.go). */
module Gds {
  import opened Types

  datatype Runtime = Runtime(memRss: nat, lastActive: Time)

  /** Durations in seconds. */
  datatype Snapshot = Snapshot(
    inProgress: bool,
    bytes: nat,
    preemptCost: real,
    takenAt: Time,
    takenDur: real,
    restoredAt: Time,
    restoreDur: real)

  const NO_RUNTIME := Runtime(0, UNSET)
  const NO_SNAPSHOT := Snapshot(false, 0, 0.0, UNSET, 0.0, UNSET, 0.0)
  const BYTES_PER_MIB := 1024 * 1024

  /** Seconds to bring the sandbox back. */
  function Cost(snap: Snapshot): (c: real)
    ensures c > 0.0
  {
    var c := snap.preemptCost + snap.restoreDur;
    if c > 0.0 then c else if snap.takenDur > 0.0 then snap.takenDur else 1.0
  }

  function Mib(bytes: nat): (s: real)
    ensures s >= 1.0
  {
    var s := bytes as real / BYTES_PER_MIB as real;
    if s < 1.0 then 1.0 else s
  }

  /** Memory footprint in MiB, never below one. */
  function Size(runtime: Runtime, snap: Snapshot): (s: real)
    ensures s >= 1.0
  {
    if runtime.memRss > 0 then Mib(runtime.memRss)
    else if snap.bytes > 0 then Mib(snap.bytes)
    else 1.0
  }

  /** Live memory comes before the last checkpoint's bytes, in MiB and at least one; knowing neither, one. */
  lemma SizeCases(runtime: Runtime, snap: Snapshot)
    ensures runtime.memRss >= 0x10_0000 ==> Size(runtime, snap) * 1048576.0 == runtime.memRss as real
    ensures 0 < runtime.memRss < 0x10_0000 ==> Size(runtime, snap) == 1.0
    ensures runtime.memRss == 0 && snap.bytes >= 0x10_0000 ==> Size(runtime, snap) * 1048576.0 == snap.bytes as real
    ensures runtime.memRss == 0 && snap.bytes < 0x10_0000 ==> Size(runtime, snap) == 1.0
  {
  }

  /** Measured preemption plus restore; without them the last checkpoint's duration; without that one second. */
  lemma CostCases(snap: Snapshot)
    ensures snap.preemptCost + snap.restoreDur > 0.0 ==> Cost(snap) == snap.preemptCost + snap.restoreDur
    ensures snap.preemptCost + snap.restoreDur <= 0.0 < snap.takenDur ==> Cost(snap) == snap.takenDur
    ensures snap.preemptCost + snap.restoreDur <= 0.0 && snap.takenDur <= 0.0 ==> Cost(snap) == 1.0
  {
  }

  /** What an access is worth on its own, before the clock is added. */
  function Worth(runtime: Runtime, snap: Snapshot): (v: real)
    ensures v > 0.0
  {
    Cost(snap) / Size(runtime, snap)
  }

  lemma QuotientOrder(c: real, s: real, d: real, t: real)
    requires 0.0 <= c <= d && 0.0 < t <= s
    ensures c / s <= d / t
  {
    var x, y := c / s, d / t;
    assert x * s == c && y * t == d;
    assert x >= 0.0;
    assert x * t <= x * s;
    assert (y - x) * t >= 0.0;
  }

  /** What costs more to bring back and frees less is worth no less. */
  lemma WorthOrder(r: Runtime, snap: Snapshot, r': Runtime, snap': Snapshot)
    requires Cost(snap) <= Cost(snap') && Size(r', snap') <= Size(r, snap)
    ensures Worth(r, snap) <= Worth(r', snap')
  {
    QuotientOrder(Cost(snap), Size(r, snap), Cost(snap'), Size(r', snap'));
  }

  function Priority(clock: real, runtime: Runtime, snap: Snapshot): (h: real)
    ensures h > clock
  {
    clock + Worth(runtime, snap)
  }

  /** Above the clock by the cost spread over the size. */
  lemma PriorityGain(clock: real, runtime: Runtime, snap: Snapshot)
    ensures (Priority(clock, runtime, snap) - clock) * Size(runtime, snap) == Cost(snap)
  {
    var c, s := Cost(snap), Size(runtime, snap);
    assert (c / s) * s == c;
  }
}

/** The signal cache as a value, and its atomic changes (internal/signals/store.go). */
module SignalCache {
  import opened Types
  import opened Gds

  datatype Profile = Profile(complexity: Option<real>, similarity: real, confidence: real)

  datatype Semantic = Semantic(
    version: string,
    phase: string,
    lock: bool,
    remainingSteps: Option<int>,
    deadline: Option<Time>,
    workflow: string,
    profile: Option<Profile>,
    attained: real,
    wait: real,
    reportedAt: Time)

  const NO_SEMANTIC := Semantic("", "", false, None, None, "", None, 0.0, 0.0, UNSET)

  datatype Record = Record(
    worker: string,
    runtime: Runtime,
    snapshot: Snapshot,
    h: real,
    updatedAt: Time,
    semantic: Semantic,
    semanticAt: Time,
    attained: real,
    wait: real,
    runningSince: Time,
    suspendedSince: Time)

  const BLANK := Record("", NO_RUNTIME, NO_SNAPSHOT, 0.0, UNSET, NO_SEMANTIC, UNSET, 0.0, 0.0, UNSET, UNSET)

  datatype WorkerRow = WorkerRow(id: string, healthy: bool, cpu: real, mem: real, reportedAt: Time)

  /** One sandbox of a Worker's periodic push, with the flat legacy fields. */
  datatype Sample = Sample(
    id: string,
    worker: string,
    runtime: Runtime,
    checkpointing: bool,
    legacyRss: nat,
    legacyActive: Time)

  /** What readers are shown. */
  datatype Signals = Signals(
    worker: string,
    reportedAt: Time,
    runtime: Runtime,
    snapshot: Snapshot,
    semantic: Semantic,
    keepAlive: real,
    legacyActive: Time)

  /** `clock` is the GreedyDual ageing value L. */
  datatype Cache = Cache(ttl: real, clock: real, records: map<string, Record>, rows: map<string, WorkerRow>)

  function Lookup(records: map<string, Record>, id: string): Record {
    if id in records then records[id] else BLANK
  }

  // ----- atomic changes -----

  datatype Atom =
    | Row(row: WorkerRow)
    | Sampled(sample: Sample, now: Time)
    | Described(id: string, semantic: Semantic, now: Time)
    | MarkedRunning(id: string, now: Time)
    | MarkedSuspended(id: string, now: Time)
    | Checkpointed(id: string, snap: Snapshot, now: Time)
    | Restored(id: string, at: Time, dur: real, now: Time)
    | Evicted(id: string)
    | Purged(now: Time)

  function Normalized(sample: Sample): Runtime {
    Runtime(if sample.runtime.memRss == 0 then sample.legacyRss else sample.runtime.memRss,
            if sample.runtime.lastActive == UNSET then sample.legacyActive else sample.runtime.lastActive)
  }

  /** A push counts as an access when the record is new or its activity time moved forward. */
  predicate IsAccess(records: map<string, Record>, sample: Sample) {
    sample.id !in records || Normalized(sample).lastActive > records[sample.id].runtime.lastActive
  }

  function WithSample(c: Cache, sample: Sample, now: Time): Record {
    var prior := Lookup(c.records, sample.id);
    var rec := prior.(worker := sample.worker, runtime := Normalized(sample),
                    snapshot := prior.snapshot.(inProgress := sample.checkpointing), updatedAt := now);
    if IsAccess(c.records, sample) then rec.(h := Priority(c.clock, rec.runtime, rec.snapshot)) else rec
  }

  function Merged(prior: Semantic, sem: Semantic): Semantic {
    prior.(version := if sem.version != "" then sem.version else prior.version,
         phase := if sem.phase != "" then sem.phase else prior.phase,
         lock := sem.lock,
         remainingSteps := if sem.remainingSteps.Some? then sem.remainingSteps else prior.remainingSteps,
         deadline := if sem.deadline.Some? then sem.deadline else prior.deadline,
         workflow := if sem.workflow != "" then sem.workflow else prior.workflow,
         profile := if sem.profile.Some? then sem.profile else prior.profile)
  }

  function NowRunning(rec: Record, now: Time): Record {
    rec.(wait := if rec.suspendedSince != UNSET then rec.wait + (now - rec.suspendedSince) else rec.wait,
         suspendedSince := UNSET,
         runningSince := if rec.runningSince == UNSET then now else rec.runningSince,
         updatedAt := now)
  }

  function NowSuspended(rec: Record, now: Time): Record {
    rec.(attained := if rec.runningSince != UNSET then rec.attained + (now - rec.runningSince) else rec.attained,
         runningSince := UNSET,
         suspendedSince := if rec.suspendedSince == UNSET then now else rec.suspendedSince,
         updatedAt := now)
  }

  function NowCheckpointed(clock: real, rec: Record, snap: Snapshot, now: Time): Record {
    var prior := rec.snapshot;
    var taken := snap.takenAt != UNSET;
    var merged := prior.(inProgress := false,
                       bytes := if snap.bytes != 0 then snap.bytes else prior.bytes,
                       preemptCost := if snap.preemptCost != 0.0 then snap.preemptCost else prior.preemptCost,
                       takenAt := if taken then snap.takenAt else prior.takenAt,
                       takenDur := if taken then snap.takenDur else prior.takenDur);
    rec.(snapshot := merged, updatedAt := now, h := Priority(clock, rec.runtime, merged))
  }

  function NowRestored(clock: real, rec: Record, at: Time, dur: real, now: Time): Record {
    var merged := rec.snapshot.(restoredAt := at, restoreDur := dur);
    rec.(snapshot := merged, updatedAt := now, h := Priority(clock, rec.runtime, merged))
  }

  predicate Expired(at: Time, ttl: real, now: Time) { now - at > ttl }

  function KeepFresh(records: map<string, Record>, ttl: real, now: Time): map<string, Record> {
    map id | id in records && !Expired(records[id].updatedAt, ttl, now) :: records[id]
  }

  function KeepFreshRows(rows: map<string, WorkerRow>, ttl: real, now: Time): map<string, WorkerRow> {
    map id | id in rows && !Expired(rows[id].reportedAt, ttl, now) :: rows[id]
  }

  function Put(c: Cache, id: string, rec: Record): Cache {
    c.(records := c.records[id := rec])
  }

  /** Every method ignores an empty sandbox id. */
  function Step(c: Cache, a: Atom): Cache {
    match a
    case Row(row) => c.(rows := c.rows[row.id := row])
    case Sampled(sample, now) => if sample.id == "" then c else Put(c, sample.id, WithSample(c, sample, now))
    case Described(id, sem, now) =>
      if id == "" then c
      else
        var prior := Lookup(c.records, id);
        Put(c, id, prior.(semantic := Merged(prior.semantic, sem), semanticAt := now, updatedAt := now))
    case MarkedRunning(id, now) => if id == "" then c else Put(c, id, NowRunning(Lookup(c.records, id), now))
    case MarkedSuspended(id, now) => if id == "" then c else Put(c, id, NowSuspended(Lookup(c.records, id), now))
    case Checkpointed(id, snap, now) =>
      if id == "" then c else Put(c, id, NowCheckpointed(c.clock, Lookup(c.records, id), snap, now))
    case Restored(id, at, dur, now) =>
      if id == "" then c else Put(c, id, NowRestored(c.clock, Lookup(c.records, id), at, dur, now))
    case Evicted(id) => if id in c.records && id != "" then c.(clock := c.records[id].h) else c
    case Purged(now) =>
      c.(records := KeepFresh(c.records, c.ttl, now), rows := KeepFreshRows(c.rows, c.ttl, now))
  }

  function Steps(c: Cache, atoms: seq<Atom>): Cache
    decreases |atoms|
  {
    if atoms == [] then c else Steps(Step(c, atoms[0]), atoms[1..])
  }

  lemma {:induction false} StepsAppend(c: Cache, atoms: seq<Atom>, a: Atom)
    ensures Steps(c, atoms + [a]) == Step(Steps(c, atoms), a)
    decreases |atoms|
  {
    if atoms == [] {
      assert Steps(c, [a]) == Steps(Step(c, a), [a][1..]);
    } else {
      StepsAppend(Step(c, atoms[0]), atoms[1..], a);
      assert (atoms + [a])[1..] == atoms[1..] + [a];
    }
  }

  // ----- readers -----

  function Attained(rec: Record, now: Time): real {
    rec.attained + if rec.runningSince != UNSET then now - rec.runningSince else 0.0
  }

  function Waited(rec: Record, now: Time): real {
    rec.wait + if rec.suspendedSince != UNSET then now - rec.suspendedSince else 0.0
  }

  /** Stale semantic fields are cleared; the platform's own times are kept. */
  function ToSignals(rec: Record, ttl: real, now: Time): Signals {
    var times := rec.semantic.(attained := Attained(rec, now), wait := Waited(rec, now));
    var dated := if rec.semanticAt != UNSET then times.(reportedAt := rec.semanticAt) else times;
    var semantic := if rec.semanticAt != UNSET && Expired(rec.semanticAt, ttl, now) then
                      NO_SEMANTIC.(attained := times.attained, wait := times.wait)
                    else dated;
    Signals(rec.worker, rec.updatedAt, rec.runtime, rec.snapshot, semantic, rec.h, UNSET)
  }

  function FreshSignals(c: Cache, now: Time): map<string, Signals> {
    map id | id in c.records && !Expired(c.records[id].updatedAt, c.ttl, now) :: ToSignals(c.records[id], c.ttl, now)
  }
}

/** The signal store as the mutable object it is (internal/signals/store.go). */
module SignalStore {
  import opened Types
  import opened Gds
  import opened SignalCache

  datatype Push = Push(worker: string, row: WorkerRow, samples: seq<Sample>)

  /** The atomic changes of one push: its Worker row, its samples in order, then the purge. */
  function PushAtoms(push: Push, now: Time): seq<Atom> {
    RowAtoms(push, now) + SampleAtoms(push.samples, now) + [Purged(now)]
  }

  function RowAtoms(push: Push, now: Time): seq<Atom> {
    if push.worker == "" then []
    else
      var named := if push.row.id == "" then push.row.(id := push.worker) else push.row;
      [Row(if named.reportedAt == UNSET then named.(reportedAt := now) else named)]
  }

  function SampleAtoms(samples: seq<Sample>, now: Time): seq<Atom> {
    seq(|samples|, i requires 0 <= i < |samples| => Sampled(samples[i], now))
  }

  class Store {
    const ttl: real
    var L: real
    var bySandbox: map<string, Record>
    var byWorker: map<string, WorkerRow>

    function View(): Cache
      reads this
    {
      Cache(ttl, L, bySandbox, byWorker)
    }

    constructor (ttl: real)
      ensures View() == Cache(if ttl <= 0.0 then 30.0 else ttl, 0.0, map[], map[])
    {
      this.ttl := if ttl <= 0.0 then 30.0 else ttl;
      L, bySandbox, byWorker := 0.0, map[], map[];
    }

    method Purge(now: Time)
      modifies this
      ensures View() == Step(old(View()), Purged(now))
    {
      var ids := bySandbox.Keys;
      ghost var before := bySandbox;
      while ids != {}
        invariant ids <= before.Keys && byWorker == old(byWorker) && L == old(L)
        invariant bySandbox == map id | id in before && (id in ids || !Expired(before[id].updatedAt, ttl, now)) ::
                                 before[id]
        decreases |ids|
      {
        var id :| id in ids;
        ids := ids - {id};
        if Expired(bySandbox[id].updatedAt, ttl, now) {
          bySandbox := bySandbox - {id};
        }
      }
      PurgeRows(now);
    }

    method PurgeRows(now: Time)
      modifies this`byWorker
      ensures byWorker == KeepFreshRows(old(byWorker), ttl, now)
    {
      var ids := byWorker.Keys;
      ghost var before := byWorker;
      while ids != {}
        invariant ids <= before.Keys
        invariant byWorker == map id | id in before && (id in ids || !Expired(before[id].reportedAt, ttl, now)) ::
                                before[id]
        decreases |ids|
      {
        var id :| id in ids;
        ids := ids - {id};
        if Expired(byWorker[id].reportedAt, ttl, now) {
          byWorker := byWorker - {id};
        }
      }
    }

    method ApplyPush(push: Push, now: Time)
      modifies this
      ensures View() == Steps(old(View()), PushAtoms(push, now))
    {
      var rows := RowAtoms(push, now);
      if push.worker != "" {
        byWorker := byWorker[rows[0].row.id := rows[0].row];
      }
      ghost var done := rows;
      assert View() == Steps(old(View()), done);
      var i := 0;
      while i < |push.samples|
        invariant 0 <= i <= |push.samples|
        invariant done == rows + SampleAtoms(push.samples[..i], now)
        invariant View() == Steps(old(View()), done)
      {
        var sample := push.samples[i];
        if sample.id != "" {
          var existed := sample.id in bySandbox;
          var rec := Lookup(bySandbox, sample.id);
          var prevActive := rec.runtime.lastActive;
          var runtime := Normalized(sample);
          rec := rec.(worker := sample.worker, runtime := runtime,
                      snapshot := rec.snapshot.(inProgress := sample.checkpointing), updatedAt := now);
          if !existed || runtime.lastActive > prevActive {
            rec := rec.(h := Priority(L, rec.runtime, rec.snapshot));
          }
          bySandbox := bySandbox[sample.id := rec];
        }
        StepsAppend(old(View()), done, Sampled(sample, now));
        assert SampleAtoms(push.samples[..i + 1], now) == SampleAtoms(push.samples[..i], now) + [Sampled(sample, now)];
        done := done + [Sampled(sample, now)];
        i := i + 1;
      }
      assert push.samples[..i] == push.samples;
      StepsAppend(old(View()), done, Purged(now));
      Purge(now);
    }

    method ApplySemantic(id: string, sem: Semantic, now: Time)
      modifies this
      ensures View() == if id == "" then old(View())
                        else Steps(old(View()), [Described(id, sem, now), Purged(now)])
    {
      if id == "" {
        return;
      }
      var rec := Lookup(bySandbox, id);
      rec := rec.(semantic := Merged(rec.semantic, sem), semanticAt := now, updatedAt := now);
      bySandbox := bySandbox[id := rec];
      Two(old(View()), Described(id, sem, now), Purged(now));
      Purge(now);
    }

    method MarkRunning(id: string, now: Time)
      modifies this
      ensures View() == Step(old(View()), MarkedRunning(id, now))
    {
      if id == "" {
        return;
      }
      var rec := Lookup(bySandbox, id);
      if rec.suspendedSince != UNSET {
        rec := rec.(wait := rec.wait + (now - rec.suspendedSince));
        rec := rec.(suspendedSince := UNSET);
      }
      if rec.runningSince == UNSET {
        rec := rec.(runningSince := now);
      }
      bySandbox := bySandbox[id := rec.(updatedAt := now)];
    }

    method MarkSuspended(id: string, now: Time)
      modifies this
      ensures View() == Step(old(View()), MarkedSuspended(id, now))
    {
      if id == "" {
        return;
      }
      var rec := Lookup(bySandbox, id);
      if rec.runningSince != UNSET {
        rec := rec.(attained := rec.attained + (now - rec.runningSince));
        rec := rec.(runningSince := UNSET);
      }
      if rec.suspendedSince == UNSET {
        rec := rec.(suspendedSince := now);
      }
      bySandbox := bySandbox[id := rec.(updatedAt := now)];
    }

    method RecordCheckpoint(id: string, snap: Snapshot, now: Time)
      modifies this
      ensures View() == if id == "" then old(View())
                        else Steps(old(View()), [Checkpointed(id, snap, now), Purged(now)])
    {
      if id == "" {
        return;
      }
      var rec := Lookup(bySandbox, id);
      var merged := rec.snapshot.(inProgress := false);
      if snap.bytes != 0 {
        merged := merged.(bytes := snap.bytes);
      }
      if snap.preemptCost != 0.0 {
        merged := merged.(preemptCost := snap.preemptCost);
      }
      if snap.takenAt != UNSET {
        merged := merged.(takenAt := snap.takenAt, takenDur := snap.takenDur);
      }
      rec := rec.(snapshot := merged, updatedAt := now);
      rec := rec.(h := Priority(L, rec.runtime, rec.snapshot));
      bySandbox := bySandbox[id := rec];
      Two(old(View()), Checkpointed(id, snap, now), Purged(now));
      Purge(now);
    }

    method RecordRestore(id: string, at: Time, dur: real, now: Time)
      modifies this
      ensures View() == if id == "" then old(View())
                        else Steps(old(View()), [Restored(id, at, dur, now), Purged(now)])
    {
      if id == "" {
        return;
      }
      var rec := Lookup(bySandbox, id);
      rec := rec.(snapshot := rec.snapshot.(restoredAt := at, restoreDur := dur), updatedAt := now);
      rec := rec.(h := Priority(L, rec.runtime, rec.snapshot));
      bySandbox := bySandbox[id := rec];
      Two(old(View()), Restored(id, at, dur, now), Purged(now));
      Purge(now);
    }

    method OnEvict(id: string)
      modifies this
      ensures View() == Step(old(View()), Evicted(id))
    {
      if id == "" || id !in bySandbox {
        return;
      }
      L := bySandbox[id].h;
    }

    method GetSandbox(id: string, now: Time) returns (r: Option<Signals>)
      ensures r == if id in FreshSignals(View(), now) then Some(FreshSignals(View(), now)[id]) else None
    {
      if id !in bySandbox || Expired(bySandbox[id].updatedAt, ttl, now) {
        return None;
      }
      return Some(ToSignals(bySandbox[id], ttl, now));
    }

    method ListSandboxes(now: Time) returns (out: map<string, Signals>)
      ensures out == FreshSignals(View(), now)
    {
      var ids := bySandbox.Keys;
      out := map[];
      while ids != {}
        invariant ids <= bySandbox.Keys
        invariant out.Keys == set id | id in bySandbox && id !in ids && !Expired(bySandbox[id].updatedAt, ttl, now)
        invariant forall id :: id in out ==> out[id] == ToSignals(bySandbox[id], ttl, now)
        decreases |ids|
      {
        var id :| id in ids;
        ids := ids - {id};
        if !Expired(bySandbox[id].updatedAt, ttl, now) {
          out := out[id := ToSignals(bySandbox[id], ttl, now)];
        }
      }
    }
  }

  lemma Two(c: Cache, a: Atom, b: Atom)
    ensures Steps(c, [a, b]) == Step(Step(c, a), b)
  {
    StepsAppend(c, [a], b);
    assert [a] + [b] == [a, b];
  }
}
