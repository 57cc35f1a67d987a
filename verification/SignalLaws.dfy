/** What each call to the signal store leaves behind, field by field, and what readers are then shown
    (internal/signals/store.go, internal/signals/types.go:114-125). */
module SignalLaws {
  import opened Types
  import opened Gds
  import opened SignalCache
  import opened SignalStore

  function After(c: Cache, a: Atom, id: string): Record
    requires id in Step(c, a).records
  {
    Step(c, a).records[id]
  }

  /** A sample of a push: the flat fields stand in for nested ones that are not set; checkpoint figures, semantics and
      times stay. */
  lemma SampleTaken(c: Cache, sample: Sample, now: Time)
    requires sample.id != ""
    ensures sample.id in Step(c, Sampled(sample, now)).records
    ensures var rec, was := After(c, Sampled(sample, now), sample.id), Lookup(c.records, sample.id);
            && rec.worker == sample.worker && rec.updatedAt == now && rec.snapshot.inProgress == sample.checkpointing
            && (sample.runtime.memRss != 0 ==> rec.runtime.memRss == sample.runtime.memRss)
            && (sample.runtime.memRss == 0 ==> rec.runtime.memRss == sample.legacyRss)
            && (sample.runtime.lastActive != UNSET ==> rec.runtime.lastActive == sample.runtime.lastActive)
            && (sample.runtime.lastActive == UNSET ==> rec.runtime.lastActive == sample.legacyActive)
            && rec.snapshot.(inProgress := was.snapshot.inProgress) == was.snapshot
            && rec.semantic == was.semantic && rec.semanticAt == was.semanticAt
            && rec.attained == was.attained && rec.wait == was.wait
            && rec.runningSince == was.runningSince && rec.suspendedSince == was.suspendedSince
  {
  }

  /** A first sample, or one more active than before, is an access and sets the priority, above the clock; any other
      leaves it. */
  lemma SampleAccess(c: Cache, sample: Sample, now: Time)
    requires sample.id != "" && sample.id in Step(c, Sampled(sample, now)).records
    ensures var rec, was := After(c, Sampled(sample, now), sample.id), Lookup(c.records, sample.id);
            && (sample.id !in c.records || rec.runtime.lastActive > was.runtime.lastActive ==>
                  rec.h > c.clock && (rec.h - c.clock) * Size(rec.runtime, rec.snapshot) == Cost(rec.snapshot))
            && (sample.id in c.records && rec.runtime.lastActive <= was.runtime.lastActive ==> rec.h == was.h)
  {
    var rec := After(c, Sampled(sample, now), sample.id);
    PriorityGain(c.clock, rec.runtime, rec.snapshot);
  }

  /** A heartbeat: the lock is always the new one; any other field that is given replaces the old one, and one that is
      not leaves it; nothing but the semantics and their dates changes. */
  lemma HeartbeatMerged(c: Cache, id: string, sem: Semantic, now: Time)
    requires id != ""
    ensures id in Step(c, Described(id, sem, now)).records
    ensures var rec, was := After(c, Described(id, sem, now), id), Lookup(c.records, id);
            && rec.(semantic := was.semantic, semanticAt := was.semanticAt, updatedAt := was.updatedAt) == was
            && rec.semanticAt == now && rec.updatedAt == now
            && rec.semantic.lock == sem.lock
            && (sem.phase != "" ==> rec.semantic.phase == sem.phase)
            && (sem.phase == "" ==> rec.semantic.phase == was.semantic.phase)
            && (sem.deadline.Some? ==> rec.semantic.deadline == sem.deadline)
            && (sem.deadline.None? ==> rec.semantic.deadline == was.semantic.deadline)
            && (sem.profile.Some? ==> rec.semantic.profile == sem.profile)
            && (sem.profile.None? ==> rec.semantic.profile == was.semantic.profile)
            && (sem.remainingSteps.Some? ==> rec.semantic.remainingSteps == sem.remainingSteps)
            && (sem.remainingSteps.None? ==> rec.semantic.remainingSteps == was.semantic.remainingSteps)
            && (sem.workflow != "" ==> rec.semantic.workflow == sem.workflow)
            && (sem.workflow == "" ==> rec.semantic.workflow == was.semantic.workflow)
            && (sem.version != "" ==> rec.semantic.version == sem.version)
            && (sem.version == "" ==> rec.semantic.version == was.semantic.version)
            && rec.semantic.attained == was.semantic.attained && rec.semantic.wait == was.semantic.wait
  {
  }

  /** A finished checkpoint: no longer in progress; bytes and cost are kept unless measured, date and duration go
      together; the priority starts from the clock again. */
  lemma CheckpointMerged(c: Cache, id: string, snap: Snapshot, now: Time)
    requires id != ""
    ensures id in Step(c, SignalCache.Checkpointed(id, snap, now)).records
    ensures var rec, was := After(c, SignalCache.Checkpointed(id, snap, now), id), Lookup(c.records, id);
            && !rec.snapshot.inProgress && rec.updatedAt == now
            && (snap.bytes != 0 ==> rec.snapshot.bytes == snap.bytes)
            && (snap.bytes == 0 ==> rec.snapshot.bytes == was.snapshot.bytes)
            && (snap.preemptCost != 0.0 ==> rec.snapshot.preemptCost == snap.preemptCost)
            && (snap.preemptCost == 0.0 ==> rec.snapshot.preemptCost == was.snapshot.preemptCost)
            && (snap.takenAt != UNSET ==>
                  rec.snapshot.takenAt == snap.takenAt && rec.snapshot.takenDur == snap.takenDur)
            && (snap.takenAt == UNSET ==>
                  rec.snapshot.takenAt == was.snapshot.takenAt && rec.snapshot.takenDur == was.snapshot.takenDur)
            && rec.snapshot.restoredAt == was.snapshot.restoredAt && rec.snapshot.restoreDur == was.snapshot.restoreDur
            && rec.(snapshot := was.snapshot, updatedAt := was.updatedAt, h := was.h) == was
            && (rec.h - c.clock) * Size(rec.runtime, rec.snapshot) == Cost(rec.snapshot)
  {
    var rec := After(c, SignalCache.Checkpointed(id, snap, now), id);
    PriorityGain(c.clock, rec.runtime, rec.snapshot);
  }

  /** A finished restore: its date and duration, and a priority that starts from the clock again. */
  lemma RestoreMerged(c: Cache, id: string, at: Time, dur: real, now: Time)
    requires id != ""
    ensures id in Step(c, SignalCache.Restored(id, at, dur, now)).records
    ensures var rec, was := After(c, SignalCache.Restored(id, at, dur, now), id), Lookup(c.records, id);
            && rec.snapshot == was.snapshot.(restoredAt := at, restoreDur := dur) && rec.updatedAt == now
            && rec.(snapshot := was.snapshot, updatedAt := was.updatedAt, h := was.h) == was
            && (rec.h - c.clock) * Size(rec.runtime, rec.snapshot) == Cost(rec.snapshot)
  {
    var rec := After(c, SignalCache.Restored(id, at, dur, now), id);
    PriorityGain(c.clock, rec.runtime, rec.snapshot);
  }

  /** An empty id is nobody: no call for it changes anything. */
  lemma NobodyIgnored(c: Cache, a: Atom)
    requires match a
             case Sampled(sample, _) => sample.id == ""
             case Described(id, _, _) => id == ""
             case MarkedRunning(id, _) => id == ""
             case MarkedSuspended(id, _) => id == ""
             case Checkpointed(id, _, _) => id == ""
             case Restored(id, _, _, _) => id == ""
             case Evicted(id) => id == ""
             case Row(_) => false
             case Purged(_) => false
    ensures Step(c, a) == c
  {
  }

  /** A sandbox, or a Worker row, survives a purge exactly when it was touched within the time to live. */
  lemma PurgedExactly(c: Cache, now: Time, id: string)
    ensures var t := Step(c, Purged(now));
            && (id in t.records <==> id in c.records && c.records[id].updatedAt >= now - c.ttl)
            && (id in t.records ==> t.records[id] == c.records[id])
            && (id in t.rows <==> id in c.rows && c.rows[id].reportedAt >= now - c.ttl)
            && (id in t.rows ==> t.rows[id] == c.rows[id])
            && t.clock == c.clock && t.ttl == c.ttl
  {
  }

  /** Any call that purges leaves no record older than the time to live. */
  lemma NothingStale(c: Cache, atoms: seq<Atom>, now: Time, id: string)
    requires id in Steps(c, atoms + [Purged(now)]).records
    ensures Steps(c, atoms + [Purged(now)]).records[id].updatedAt >= now - Steps(c, atoms).ttl
  {
    StepsAppend(c, atoms, Purged(now));
    PurgedExactly(Steps(c, atoms), now, id);
  }

  /** What readers see: sandboxes touched within the time to live; the phase, the lock and the rest of the heartbeat
      only if that came within it too; the platform's own figures always. */
  lemma ReadersSee(c: Cache, now: Time, id: string)
    ensures id in FreshSignals(c, now) <==> id in c.records && c.records[id].updatedAt >= now - c.ttl
    ensures id in FreshSignals(c, now) ==>
              var rec, seen := c.records[id], FreshSignals(c, now)[id];
              && seen.worker == rec.worker && seen.runtime == rec.runtime && seen.snapshot == rec.snapshot
              && seen.keepAlive == rec.h && seen.reportedAt == rec.updatedAt
              && (rec.semanticAt != UNSET && rec.semanticAt < now - c.ttl ==>
                    && !seen.semantic.lock && seen.semantic.phase == "" && seen.semantic.deadline.None?
                    && seen.semantic.profile.None? && seen.semantic.workflow == "" && seen.semantic.version == ""
                    && seen.semantic.remainingSteps.None? && seen.semantic.reportedAt == UNSET)
              && (rec.semanticAt == UNSET || rec.semanticAt >= now - c.ttl ==>
                    && seen.semantic.(attained := rec.semantic.attained, wait := rec.semantic.wait,
                                      reportedAt := rec.semantic.reportedAt) == rec.semantic
                    && (rec.semanticAt != UNSET ==> seen.semantic.reportedAt == rec.semanticAt))
  {
  }

  /** The row of a push is filed under its own id, or the Worker's when it has none, and dated now when it has no
      date. */
  lemma RowTaken(c: Cache, push: Push, now: Time)
    requires push.worker != ""
    ensures var t := Steps(c, RowAtoms(push, now));
            var id := if push.row.id == "" then push.worker else push.row.id;
            && id in t.rows && t.records == c.records && t.clock == c.clock
            && t.rows[id] == WorkerRow(id, push.row.healthy, push.row.cpu, push.row.mem,
                                       if push.row.reportedAt == UNSET then now else push.row.reportedAt)
            && forall other :: other in c.rows && other != id ==> other in t.rows && t.rows[other] == c.rows[other]
  {
    var atoms := RowAtoms(push, now);
    assert atoms[1..] == [];
    assert Steps(c, atoms) == Steps(Step(c, atoms[0]), []);
  }
}
