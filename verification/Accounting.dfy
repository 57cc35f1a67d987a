/** Attained service and waiting time against the trace of marks (internal/signals/store.go:125-161, 231-240). */
module Accounting {
  import opened Types
  import opened SignalCache

  datatype Mark = Mark(running: bool, at: Time)

  /** The marks of one sandbox in a run, in order. */
  function Marks(id: string, atoms: seq<Atom>): seq<Mark>
    decreases |atoms|
  {
    if atoms == [] then []
    else
      var last := atoms[|atoms| - 1];
      var marks := Marks(id, atoms[..|atoms| - 1]);
      match last
      case MarkedRunning(z, now) => if z == id then marks + [Mark(true, now)] else marks
      case MarkedSuspended(z, now) => if z == id then marks + [Mark(false, now)] else marks
      case _ => marks
  }

  /** The total length of the intervals opened by a mark of one kind and closed by the next mark,
      the last one being still open at `now`. */
  function Total(running: bool, marks: seq<Mark>, now: Time): real {
    if marks == [] then 0.0
    else
      var end := if |marks| == 1 then now else marks[1].at;
      (if marks[0].running == running then end - marks[0].at else 0.0) + Total(running, marks[1..], now)
  }

  lemma {:induction false} TotalAppend(running: bool, marks: seq<Mark>, m: Mark, now: Time)
    ensures Total(running, marks + [m], now) ==
            Total(running, marks, m.at) + if m.running == running then now - m.at else 0.0
    decreases |marks|
  {
    var all := marks + [m];
    if marks == [] {
      assert all[1..] == [];
    } else {
      assert all[1..] == marks[1..] + [m] && all[0] == marks[0];
      TotalAppend(running, marks[1..], m, now);
    }
  }

  /** Time passing lengthens only the open interval. */
  lemma {:induction false} TotalLater(running: bool, marks: seq<Mark>, now: Time, later: Time)
    requires marks != []
    ensures Total(running, marks, later) ==
            Total(running, marks, now) + if marks[|marks| - 1].running == running then later - now else 0.0
    decreases |marks|
  {
    if |marks| > 1 {
      TotalLater(running, marks[1..], now, later);
    }
  }

  /** The two kinds of interval tile the time since the first mark. */
  lemma {:induction false} TotalsTile(marks: seq<Mark>, now: Time)
    requires marks != []
    ensures Total(true, marks, now) + Total(false, marks, now) == now - marks[0].at
    decreases |marks|
  {
    if |marks| > 1 {
      TotalsTile(marks[1..], now);
    }
  }

  lemma {:induction false} TotalNonNegative(running: bool, marks: seq<Mark>, now: Time)
    requires forall i, j :: 0 <= i < j < |marks| ==> marks[i].at <= marks[j].at
    requires marks != [] ==> marks[|marks| - 1].at <= now
    ensures Total(running, marks, now) >= 0.0
    decreases |marks|
  {
    if |marks| > 1 {
      TotalNonNegative(running, marks[1..], now);
    }
  }

  /** What the record holds after those marks. */
  predicate Booked(rec: Record, marks: seq<Mark>) {
    if marks == [] then
      rec.runningSince == UNSET && rec.suspendedSince == UNSET && rec.attained == 0.0 && rec.wait == 0.0
    else
      && (rec.runningSince != UNSET <==> marks[|marks| - 1].running)
      && (rec.suspendedSince != UNSET <==> !marks[|marks| - 1].running)
      && Attained(rec, 0.0) == Total(true, marks, 0.0)
      && Waited(rec, 0.0) == Total(false, marks, 0.0)
  }

  /** Along the run the clock readings used by marks are real, and once the sandbox has a mark its
      record is not purged. */
  ghost predicate Tracked(c: Cache, id: string, atoms: seq<Atom>) {
    forall k :: 0 <= k <= |atoms| ==>
      && (Marks(id, atoms[..k]) != [] ==> id in Steps(c, atoms[..k]).records)
      && (0 < k && (atoms[k - 1].MarkedRunning? || atoms[k - 1].MarkedSuspended?) ==> atoms[k - 1].now > UNSET)
  }

  lemma BookedMark(rec: Record, marks: seq<Mark>, m: Mark)
    requires Booked(rec, marks) && m.at > UNSET
    ensures Booked(if m.running then NowRunning(rec, m.at) else NowSuspended(rec, m.at), marks + [m])
  {
    TotalAppend(true, marks, m, 0.0);
    TotalAppend(false, marks, m, 0.0);
    if marks != [] {
      TotalLater(true, marks, 0.0, m.at);
      TotalLater(false, marks, 0.0, m.at);
    }
  }

  /** Nothing but a mark of this sandbox touches its times. */
  lemma OtherAtomsKeepTimes(c: Cache, a: Atom, id: string)
    requires !(a.MarkedRunning? && a.id == id) && !(a.MarkedSuspended? && a.id == id)
    requires id in Step(c, a).records
    ensures var before, now := Lookup(c.records, id), Step(c, a).records[id];
            && now.attained == before.attained && now.wait == before.wait
            && now.runningSince == before.runningSince && now.suspendedSince == before.suspendedSince
  {
  }

  lemma {:induction false} BooksMatch(c: Cache, id: string, atoms: seq<Atom>)
    requires id != "" && id !in c.records && Tracked(c, id, atoms)
    ensures Booked(Lookup(Steps(c, atoms).records, id), Marks(id, atoms))
    decreases |atoms|
  {
    if atoms != [] {
      var n := |atoms| - 1;
      var front, a := atoms[..n], atoms[n];
      assert atoms[..|atoms|] == atoms && atoms == front + [a];
      assert forall k :: 0 <= k <= n ==> front[..k] == atoms[..k];
      BooksMatch(c, id, front);
      StepsAppend(c, front, a);
      var d := Steps(c, front);
      if a.MarkedRunning? && a.id == id {
        BookedMark(Lookup(d.records, id), Marks(id, front), Mark(true, a.now));
      } else if a.MarkedSuspended? && a.id == id {
        BookedMark(Lookup(d.records, id), Marks(id, front), Mark(false, a.now));
      } else if id in Step(d, a).records {
        OtherAtomsKeepTimes(d, a, id);
      }
    }
  }

  lemma ShownTimes(rec: Record, ttl: real, now: Time)
    ensures ToSignals(rec, ttl, now).semantic.attained == Attained(rec, now)
    ensures ToSignals(rec, ttl, now).semantic.wait == Waited(rec, now)
  {
  }

  predicate InOrder(marks: seq<Mark>, now: Time) {
    && (forall i, j :: 0 <= i < j < |marks| ==> marks[i].at <= marks[j].at)
    && (marks != [] ==> marks[|marks| - 1].at <= now)
  }

  lemma BookedTimes(rec: Record, marks: seq<Mark>, now: Time)
    requires Booked(rec, marks) && marks != []
    ensures rec.runningSince == UNSET || rec.suspendedSince == UNSET
    ensures Attained(rec, now) == Total(true, marks, now) && Waited(rec, now) == Total(false, marks, now)
  {
    TotalLater(true, marks, 0.0, now);
    TotalLater(false, marks, 0.0, now);
  }

  /** Over any run in which the sandbox's record survives: at most one interval is open, the reported
      service and waiting times are the trace's, they add up to the time since the first mark, and
      neither is negative on a clock that does not go back. */
  lemma ReportedTimes(c: Cache, id: string, atoms: seq<Atom>, now: Time)
    requires id != "" && id !in c.records && Tracked(c, id, atoms) && Marks(id, atoms) != []
    ensures id in Steps(c, atoms).records
    ensures var rec := Steps(c, atoms).records[id];
            var marks := Marks(id, atoms);
            var shown := ToSignals(rec, c.ttl, now).semantic;
            && (rec.runningSince == UNSET || rec.suspendedSince == UNSET)
            && shown.attained == Total(true, marks, now)
            && shown.wait == Total(false, marks, now)
            && shown.attained + shown.wait == now - marks[0].at
            && (InOrder(marks, now) ==> shown.attained >= 0.0 && shown.wait >= 0.0)
  {
    assert atoms[..|atoms|] == atoms;
    assert id in Steps(c, atoms[..|atoms|]).records;
    var rec := Steps(c, atoms).records[id];
    BooksMatch(c, id, atoms);
    ShownTimes(rec, c.ttl, now);
    TimesAreTotals(rec, Marks(id, atoms), now);
  }

  lemma TimesAreTotals(rec: Record, marks: seq<Mark>, now: Time)
    requires Booked(rec, marks) && marks != []
    ensures rec.runningSince == UNSET || rec.suspendedSince == UNSET
    ensures Attained(rec, now) == Total(true, marks, now) && Waited(rec, now) == Total(false, marks, now)
    ensures Attained(rec, now) + Waited(rec, now) == now - marks[0].at
    ensures InOrder(marks, now) ==> Attained(rec, now) >= 0.0 && Waited(rec, now) >= 0.0
  {
    BookedTimes(rec, marks, now);
    TotalsTile(marks, now);
    if InOrder(marks, now) {
      TotalNonNegative(true, marks, now);
      TotalNonNegative(false, marks, now);
    }
  }
}
