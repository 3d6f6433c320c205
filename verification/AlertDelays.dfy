/** When an outage is announced: the alert delay, the sweep, and the interleaving that breaks it. */
module AlertDelays {
  import opened Common
  import opened Alerting
  import opened AlertRuns
  import opened AlertNotices

  // ---- One sweep ----

  /** A sweep announces exactly the scanned items that do not roll back, and touches nothing else. */
  lemma {:induction false} AnnounceAllEffect(db: Db, items: seq<nat>, at: nat -> Time, failing: set<nat>,
                                             i: nat, kind: Kind)
    requires forall k | 0 <= k < |items| :: items[k] < |db.incidents|
    requires i < |db.incidents|
    ensures var after, hit := AnnounceAll(db, items, at, failing), i in items && i !in failing;
      && after == db.(incidents := after.incidents, notes := after.notes)
      && after.incidents[i] == (if hit then db.incidents[i].(notifiedAt := Some(at(i))) else db.incidents[i])
      && Told(after.notes, i, kind) == Told(db.notes, i, kind) + if hit && kind == DownAlert then Targets(db, i) else {}
  {
    if items != [] {
      var n := |items| - 1;
      var item, before := items[n], AnnounceAll(db, items[..n], at, failing);
      assert items == items[..n] + [item];
      AnnounceAllEffect(db, items[..n], at, failing, i, kind);
      AnnounceAllEffect(db, items[..n], at, failing, item, kind);
      ToldAfterAnnounce(before, item, at(item), i, kind);
    }
  }

  /** Open, unplanned, unannounced, and past a delay that is not 0. */
  ghost predicate Overdue(db: Db, i: nat, now: Time) {
    && i < |db.incidents|
    && var inc := db.incidents[i];
    && inc.resolvedAt.None? && !inc.planned && inc.notifiedAt.None? && inc.monitor in db.monitors
    && db.monitors[inc.monitor].delaySeconds > 0
    && inc.startedAt + db.monitors[inc.monitor].delaySeconds * SECOND < now
  }

  /** A scan lists exactly the incidents that are overdue; none, for one, whose monitor's delay is 0 by now. */
  lemma ScanListsTheOverdue(sys: Sys, scan: Event, s: nat, i: nat)
    requires scan.act == Scan(s) && Pending(sys, s) == []
    ensures i in Pending(Step(sys, scan), s) <==> Overdue(sys.db, i, scan.now)
  {
  }

  /**
   * After a sweep whose every item commits, every incident overdue at the scan is announced, no other is touched,
   * and none is left overdue.
   */
  lemma SweepLeavesNoneOverdue(db: Db, now: Time, at: nat -> Time, i: nat)
    requires i < |db.incidents|
    ensures var after := AnnounceAll(db, Due(db, now, |db.incidents|), at, {});
      && (Overdue(db, i, now) ==>
            after.incidents[i].notifiedAt == Some(at(i)) && Targets(db, i) <= Told(after.notes, i, DownAlert))
      && (!Overdue(db, i, now) ==> after.incidents[i] == db.incidents[i])
      && !Overdue(after, i, now)
  {
    AnnounceAllEffect(db, Due(db, now, |db.incidents|), at, {}, i, DownAlert);
  }

  // ---- A sweep with anything in between ----

  /** Found by the scan of replica s: still on its list, or announced. */
  ghost predicate OnItsWay(sys: Sys, s: nat, i: nat) {
    i < |sys.db.incidents| && (i in Pending(sys, s) || sys.db.incidents[i].notifiedAt.Some?)
  }

  lemma OnItsWayStep(sys: Sys, e: Event, s: nat, i: nat)
    requires OnItsWay(sys, s, i) && (e.act.Item? && e.act.s == s ==> e.act.commits)
    ensures OnItsWay(Step(sys, e), s, i)
  {
    IncidentsStep(sys, e, i);
    if e.act.Item? && e.act.s == s && Pending(sys, s) != [] && sys.db.incidents[i].notifiedAt.None? {
      var items := Pending(sys, s);
      assert items == [items[0]] + items[1..];
    }
  }

  lemma {:induction false} OnItsWayThroughout(sys: Sys, es: seq<Event>, s: nat, i: nat)
    requires OnItsWay(sys, s, i)
    requires forall k | 0 <= k < |es| && es[k].act.Item? && es[k].act.s == s :: es[k].act.commits
    ensures OnItsWay(Exec(sys, es), s, i)
  {
    if es != [] {
      OnItsWayThroughout(sys, es[..|es| - 1], s, i);
      OnItsWayStep(Exec(sys, es[..|es| - 1]), es[|es| - 1], s, i);
    }
  }

  /**
   * Whatever other workers, replicas and users commit in between: once a replica has handled all items of a
   * scan, and none rolled back, every incident that was overdue at the scan is announced.
   */
  lemma SweepAnnouncesAllDue(sys: Sys, scan: Event, es: seq<Event>, s: nat, i: nat)
    requires scan.act == Scan(s) && Pending(sys, s) == [] && Overdue(sys.db, i, scan.now)
    requires forall k | 0 <= k < |es| && es[k].act.Item? && es[k].act.s == s :: es[k].act.commits
    requires Pending(Exec(Step(sys, scan), es), s) == []
    ensures var after := Exec(Step(sys, scan), es).db;
      i < |after.incidents| && after.incidents[i].notifiedAt.Some?
  {
    ScanListsTheOverdue(sys, scan, s, i);
    OnItsWayThroughout(Step(sys, scan), es, s, i);
  }

  // ---- The delay over whole runs ----

  /** While incident i is open its monitor's delay is d. */
  ghost predicate DelayFixed(start: Sys, es: seq<Event>, i: nat, d: nat) {
    forall j | 0 <= j <= |es| :: DelayIs(Exec(start, es[..j]).db, i, d)
  }

  ghost predicate DelayIs(db: Db, i: nat, d: nat) {
    i < |db.incidents| && db.incidents[i].resolvedAt.None? && db.incidents[i].monitor in db.monitors ==>
      db.monitors[db.incidents[i].monitor].delaySeconds == d
  }

  lemma DelayFixedPrefix(start: Sys, es: seq<Event>, i: nat, d: nat)
    requires es != [] && DelayFixed(start, es, i, d)
    ensures DelayFixed(start, es[..|es| - 1], i, d)
    ensures DelayIs(Exec(start, es[..|es| - 1]).db, i, d) && DelayIs(Exec(start, es).db, i, d)
  {
    var before := es[..|es| - 1];
    assert es[..|es|] == es;
    assert forall j | 0 <= j <= |before| :: before[..j] == es[..j];
  }

  /** Nothing about incident i happened by its start plus the delay; `clock` is the latest commit time. */
  ghost predicate NotEarly(sys: Sys, i: nat, d: nat, clock: Time) {
    i < |sys.db.incidents| ==>
      var deadline := sys.db.incidents[i].startedAt + d * SECOND;
      && (InFlight(sys, i) ==> deadline < clock)
      && (sys.db.incidents[i].notifiedAt.Some? ==> deadline < sys.db.incidents[i].notifiedAt.value <= clock)
      && (forall n | n in sys.db.notes && n.incident == i && n.kind == DownAlert :: deadline < n.createdAt)
  }

  lemma NewNotes(sys: Sys, e: Event, n: Note)
    requires Sound(sys) && n in Step(sys, e).db.notes && n !in sys.db.notes
    ensures n.createdAt == e.now
    ensures n.kind == DownAlert ==>
      || (e.act.Item? && InFlight(sys, n.incident))
      || (e.act.Result? && n.incident == |sys.db.incidents| < |Step(sys, e).db.incidents|
          && Step(sys, e).db.incidents[n.incident].notifiedAt.Some?)
  {
    SoundStep(sys, e);
    var db, after := sys.db, Step(sys, e).db;
    assert NoteSound(after, n);
    match e.act
    case Result(m, ok) =>
      var tenant, routed := db.monitors[m].tenant, Routed(db.routing, m);
      if ok {
        var found := FirstOpen(db.incidents, m);
        QueueRowsEffect(db.notes, db.channels, tenant, routed, found.value, RecoveryAlert, e.now);
      } else {
        QueueRowsEffect(db.notes, db.channels, tenant, routed, |db.incidents|, DownAlert, e.now);
      }
    case Item(s, commits) =>
      var at := Pending(sys, s)[0];
      assert InFlight(sys, at);
      var inc := db.incidents[at];
      QueueRowsEffect(db.notes, db.channels, inc.tenant, Routed(db.routing, inc.monitor), at, DownAlert, e.now);
    case _ =>
  }

  lemma NotEarlyStep(sys: Sys, e: Event, i: nat, d: nat, clock: Time)
    requires Sound(sys) && NotEarly(sys, i, d, clock) && clock <= e.now
    requires 0 < d && DelayIs(sys.db, i, d) && DelayIs(Step(sys, e).db, i, d)
    ensures NotEarly(Step(sys, e), i, d, e.now)
  {
    var after := Step(sys, e);
    if i < |after.db.incidents| {
      SoundStep(sys, e);
      assert IncidentSound(after.db, i);
      if InFlight(after, i) { InFlightStep(sys, e, i); }
      if i < |sys.db.incidents| { IncidentsStep(sys, e, i); }
      forall n | n in after.db.notes && n.incident == i && n.kind == DownAlert
        ensures after.db.incidents[i].startedAt + d * SECOND < n.createdAt
      {
        if n !in sys.db.notes {
          NewNotes(sys, e, n);
        } else {
          assert NoteSound(sys.db, n);
        }
      }
    }
  }

  function Clock(es: seq<Event>, otherwise: Time): Time {
    if es == [] then otherwise else es[|es| - 1].now
  }

  lemma {:induction false} NeverEarly(start: Sys, es: seq<Event>, i: nat, d: nat, clock: Time)
    requires Start(start) && Clocked(es) && DelayFixed(start, es, i, d) && 0 < d
    requires es != [] ==> clock <= es[0].now
    ensures NotEarly(Exec(start, es), i, d, Clock(es, clock))
  {
    if es != [] {
      var before := es[..|es| - 1];
      DelayFixedPrefix(start, es, i, d);
      NeverEarly(start, before, i, d, clock);
      EveryRunIsSound(start, before);
      NotEarlyStep(Exec(start, before), es[|es| - 1], i, d, Clock(before, clock));
    }
  }

  /** With a positive delay, no "down" row is queued at or before the incident's start plus the delay. */
  lemma NoAlertWithinDelay(start: Sys, es: seq<Event>, i: nat, d: nat)
    requires Start(start) && Clocked(es) && DelayFixed(start, es, i, d) && 0 < d
    requires i < |Exec(start, es).db.incidents|
    ensures forall n | n in Exec(start, es).db.notes && n.incident == i && n.kind == DownAlert ::
      Exec(start, es).db.incidents[i].startedAt + d * SECOND < n.createdAt
  {
    NeverEarly(start, es, i, d, if es == [] then 0 else es[0].now);
  }

  /** If incident i was over within its delay, no replica has it on its list and it is not announced. */
  ghost predicate SilentIfBrief(sys: Sys, i: nat, d: nat) {
    Resolved(sys.db, i) && sys.db.incidents[i].resolvedAt.value <= sys.db.incidents[i].startedAt + d * SECOND ==>
      !InFlight(sys, i) && sys.db.incidents[i].notifiedAt.None?
  }

  lemma SilentStep(sys: Sys, e: Event, i: nat, d: nat, clock: Time)
    requires Sound(sys) && NotEarly(sys, i, d, clock) && clock <= e.now && 0 < d
    requires SilentIfBrief(sys, i, d) && NotEarly(Step(sys, e), i, d, e.now)
    ensures SilentIfBrief(Step(sys, e), i, d)
  {
    if i < |sys.db.incidents| {
      IncidentsStep(sys, e, i);
      if InFlight(Step(sys, e), i) { InFlightStep(sys, e, i); }
    } else if InFlight(Step(sys, e), i) {
      InFlightStep(sys, e, i);
    }
  }

  lemma {:induction false} AlwaysSilentIfBrief(start: Sys, es: seq<Event>, i: nat, d: nat, clock: Time)
    requires Start(start) && Clocked(es) && DelayFixed(start, es, i, d) && 0 < d
    requires es != [] ==> clock <= es[0].now
    ensures SilentIfBrief(Exec(start, es), i, d)
  {
    if es != [] {
      var before, e := es[..|es| - 1], es[|es| - 1];
      DelayFixedPrefix(start, es, i, d);
      AlwaysSilentIfBrief(start, before, i, d, clock);
      NeverEarly(start, before, i, d, clock);
      NeverEarly(start, es, i, d, clock);
      EveryRunIsSound(start, before);
      SilentStep(Exec(start, before), e, i, d, Clock(before, clock));
    }
  }

  /** In any interleaving, an outage over within its delay is never announced: a scan does not find it in time. */
  lemma BriefOutageIsSilent(start: Sys, es: seq<Event>, i: nat, d: nat)
    requires Start(start) && Clocked(es) && DelayFixed(start, es, i, d) && 0 < d
    requires Resolved(Exec(start, es).db, i)
    requires var inc := Exec(start, es).db.incidents[i]; inc.resolvedAt.value <= inc.startedAt + d * SECOND
    ensures Exec(start, es).db.incidents[i].notifiedAt.None?
    ensures forall n | n in Exec(start, es).db.notes :: n.incident != i
  {
    AlwaysSilentIfBrief(start, es, i, d, if es == [] then 0 else es[0].now);
    EveryRunIsSound(start, es);
    assert forall n | n in Exec(start, es).db.notes :: NoteSound(Exec(start, es).db, n);
  }

  // ---- The interleaving that the sweep does not guard against ----

  const LATE_START := Sys(
    Db(map[0 := Monitor(0, Unknown, 0, 1)], [], [], [Channel(7, 0, true, false, true)], map[], []), map[])

  const OUTAGE := Incident(0, 0, 1, None, false, None)

  /** Two failures at times 0 and 1, a scan at 2 seconds. */
  const UP_TO_SCAN := [Event(0, Result(0, false)), Event(1, Result(0, false)), Event(2 * SECOND, Scan(0))]

  lemma OutageScanned()
    ensures Exec(LATE_START, UP_TO_SCAN) == LATE_START.(
      db := LATE_START.db.(incidents := [OUTAGE], monitors := map[0 := Monitor(0, Down, 2, 1)]),
      sweepers := map[0 := [0]])
  {
    var s0 := LATE_START;
    var es := UP_TO_SCAN;
    var s1 := Step(s0, es[0]);
    assert s1 == s0.(db := s0.db.(monitors := map[0 := Monitor(0, Unknown, 1, 1)]));
    var s2 := Step(s1, es[1]);
    assert s2 == s0.(db := s0.db.(incidents := [OUTAGE], monitors := map[0 := Monitor(0, Down, 2, 1)]));
    assert IsDue(s2.db, 2 * SECOND, 0);
    assert Due(s2.db, 2 * SECOND, 0) == [] && Due(s2.db, 2 * SECOND, 1) == [0];
    ExecAppend(s0, [], es[0]);
    ExecAppend(s0, [] + [es[0]], es[1]);
    ExecAppend(s0, [] + [es[0]] + [es[1]], es[2]);
    assert es == [] + [es[0]] + [es[1]] + [es[2]];
  }

  /**
   * Scan, then the monitor recovers, then the scanned item commits: the channel is told of an outage
   * that is already over, and is never told that it ended.
   */
  lemma LateItemIsHeardOnlyAsDown()
    ensures exists start, es, i ::
      && Start(start) && Clocked(es) && Resolved(Exec(start, es).db, i)
      && Told(Exec(start, es).db.notes, i, DownAlert) != {} && Told(Exec(start, es).db.notes, i, RecoveryAlert) == {}
  {
    var ok, item := Event(3 * SECOND, Result(0, true)), Event(4 * SECOND, Item(0, true));
    var es := UP_TO_SCAN + [ok] + [item];
    var s3 := Exec(LATE_START, UP_TO_SCAN);
    OutageScanned();
    ExecAppend(LATE_START, UP_TO_SCAN, ok);
    ExecAppend(LATE_START, UP_TO_SCAN + [ok], item);
    var s4 := Step(s3, ok);
    assert s4.db.incidents == [OUTAGE.(resolvedAt := Some(3 * SECOND))] && s4.db.notes == [];
    ToldAfterAnnounce(s4.db, 0, item.now, 0, DownAlert);
    ToldAfterAnnounce(s4.db, 0, item.now, 0, RecoveryAlert);
    var c := Channel(7, 0, true, false, true);
    assert c in s4.db.channels && Wants(c, 0, {}) && c.id in Targets(s4.db, 0);
    assert Resolved(Exec(LATE_START, es).db, 0);
  }
}
