/**
 * Which channels an alert goes to, and which incidents are alerted at all, in the terms of the tables: tenant,
 * enabled, verified, routed, covered by a maintenance window, delayed.
 */
module AlertChannels {
  import opened Common
  import opened Alerting
  import opened AlertRuns
  import opened AlertNotices

  // ---- Rows queued for one incident ----

  lemma {:induction false} QueuedRow(notes: seq<Note>, channels: seq<Channel>, tenant: nat, routed: set<nat>,
                                     i: nat, kind: Kind, now: Time, n: Note)
    requires n in QueueRows(notes, channels, tenant, routed, i, kind, now) && n !in notes
    ensures n.incident == i && n.kind == kind && n.createdAt == now
    ensures exists c | c in channels ::
      && c.id == n.channel && c.tenant == tenant && c.enabled && (c.email ==> c.verified)
      && (routed == {} || c.id in routed)
  {
    var last := |channels| - 1;
    var before := QueueRows(notes, channels[..last], tenant, routed, i, kind, now);
    assert channels == channels[..last] + [channels[last]];
    if n in before {
      QueuedRow(notes, channels[..last], tenant, routed, i, kind, now, n);
    } else {
      assert n == Note(i, channels[last].id, kind, now);
    }
  }

  ghost predicate HoldsRow(notes: seq<Note>, i: nat, channel: nat, kind: Kind) {
    exists n | n in notes :: n.incident == i && n.channel == channel && n.kind == kind
  }

  lemma {:induction false} ChannelIsTold(notes: seq<Note>, channels: seq<Channel>, tenant: nat, routed: set<nat>,
                                         i: nat, kind: Kind, now: Time, c: Channel)
    requires c in channels && c.tenant == tenant && c.enabled && (c.email ==> c.verified)
    requires routed == {} || c.id in routed
    ensures HoldsRow(QueueRows(notes, channels, tenant, routed, i, kind, now), i, c.id, kind)
  {
    var last := |channels| - 1;
    var before := QueueRows(notes, channels[..last], tenant, routed, i, kind, now);
    assert channels == channels[..last] + [channels[last]];
    if c != channels[last] {
      ChannelIsTold(notes, channels[..last], tenant, routed, i, kind, now, c);
      QueueRowsAppend(before, [channels[last]], tenant, routed, i, kind, now);
    } else if HasNote(before, i, c.id, kind) {
      var k :| 0 <= k < |before| && before[k].incident == i && before[k].channel == c.id && before[k].kind == kind;
      assert before[k] in before;
    } else {
      assert Note(i, c.id, kind, now) in QueueRows(notes, channels, tenant, routed, i, kind, now);
    }
  }

  // ---- Over whole runs ----

  lemma StepQueues(sys: Sys, e: Event, n: Note)
    requires Sound(sys) && n in Step(sys, e).db.notes && n !in sys.db.notes
    ensures var after := Step(sys, e).db;
      && n.incident < |after.incidents|
      && var inc := after.incidents[n.incident];
      n in QueueRows(sys.db.notes, sys.db.channels, inc.tenant, Routed(sys.db.routing, inc.monitor),
                     n.incident, n.kind, e.now)
  {
    match e.act
    case Result(m, ok) =>
      var db := sys.db;
      var tenant, routed := db.monitors[m].tenant, Routed(db.routing, m);
      if ok {
        var found := FirstOpen(db.incidents, m);
        assert IncidentSound(db, found.value);
        QueueRowsAppend(db.notes, db.channels, tenant, routed, found.value, RecoveryAlert, e.now);
      } else {
        QueueRowsAppend(db.notes, db.channels, tenant, routed, |db.incidents|, DownAlert, e.now);
      }
    case Item(s, commits) =>
      var at := Pending(sys, s)[0];
      var inc := sys.db.incidents[at];
      var routed := Routed(sys.db.routing, inc.monitor);
      QueueRowsAppend(sys.db.notes, sys.db.channels, inc.tenant, routed, at, DownAlert, e.now);
    case _ =>
  }

  /**
   * Whatever ran before, every row a commit adds is for a channel of the incident's own tenant that is enabled,
   * verified if it is an email address, and among the monitor's routed channels if it has any.
   */
  lemma OnlyRightChannelsAreTold(start: Sys, es: seq<Event>, e: Event, n: Note)
    requires Start(start) && n in Step(Exec(start, es), e).db.notes && n !in Exec(start, es).db.notes
    ensures var before, after := Exec(start, es).db, Step(Exec(start, es), e).db;
      && n.incident < |after.incidents| && n.createdAt == e.now
      && var inc := after.incidents[n.incident];
      exists c | c in before.channels ::
        && c.id == n.channel && c.tenant == inc.tenant && c.enabled && (c.email ==> c.verified)
        && (inc.monitor in before.routing && before.routing[inc.monitor] != {} ==> c.id in before.routing[inc.monitor])
  {
    var sys := Exec(start, es);
    EveryRunIsSound(start, es);
    StepQueues(sys, e, n);
    var inc := Step(sys, e).db.incidents[n.incident];
    QueuedRow(sys.db.notes, sys.db.channels, inc.tenant, Routed(sys.db.routing, inc.monitor), n.incident, n.kind,
              e.now, n);
  }

  /** The channel is the tenant's, may be used, and is not routed away from this monitor. */
  ghost predicate InUse(db: Db, c: Channel, tenant: nat, monitor: nat) {
    && c in db.channels && c.tenant == tenant && c.enabled && (c.email ==> c.verified)
    && (monitor in db.routing && db.routing[monitor] != {} ==> c.id in db.routing[monitor])
  }

  /** Conversely, when an announcement commits, every such channel holds a "down" row. */
  lemma EveryRightChannelIsTold(start: Sys, es: seq<Event>, e: Event, i: nat, c: Channel)
    requires Start(start)
    requires var before, after := Exec(start, es).db, Step(Exec(start, es), e).db;
      && i < |after.incidents| && after.incidents[i].notifiedAt.Some?
      && (i < |before.incidents| ==> before.incidents[i].notifiedAt.None?)
      && InUse(before, c, after.incidents[i].tenant, after.incidents[i].monitor)
    ensures HoldsRow(Step(Exec(start, es), e).db.notes, i, c.id, DownAlert)
  {
    var sys := Exec(start, es);
    var inc := Step(sys, e).db.incidents[i];
    EveryRunIsSound(start, es);
    if i < |sys.db.incidents| { IncidentsStep(sys, e, i); }
    ChannelIsTold(sys.db.notes, sys.db.channels, inc.tenant, Routed(sys.db.routing, inc.monitor), i, DownAlert,
                  e.now, c);
  }

  /** And when the end of an announced incident commits, a "recovered" row. */
  lemma EveryRightChannelHearsTheEnd(start: Sys, es: seq<Event>, e: Event, i: nat, c: Channel)
    requires Start(start)
    requires var before, after := Exec(start, es).db, Step(Exec(start, es), e).db;
      && i < |before.incidents| && i < |after.incidents|
      && before.incidents[i].resolvedAt.None? && after.incidents[i].resolvedAt.Some?
      && before.incidents[i].notifiedAt.Some?
      && InUse(before, c, before.incidents[i].tenant, before.incidents[i].monitor)
    ensures HoldsRow(Step(Exec(start, es), e).db.notes, i, c.id, RecoveryAlert)
  {
    var sys := Exec(start, es);
    var db, m := sys.db, sys.db.incidents[i].monitor;
    EveryRunIsSound(start, es);
    IncidentsStep(sys, e, i);
    assert IncidentSound(db, i);
    MonitorsFixed(start, es);
    DownMeansOneOpenIncident(start, es, m);
    OneOpenIsFirst(db, m, i);
    ChannelIsTold(db.notes, db.channels, db.incidents[i].tenant, Routed(db.routing, m), i, RecoveryAlert, e.now, c);
  }

  lemma OneOpenIsFirst(db: Db, m: nat, i: nat)
    requires OneOpenIfDown(db, m) && IsOpen(db.incidents, m, i)
    ensures FirstOpen(db.incidents, m) == Some(i) && db.monitors[m].status == Down
  {
    assert i in OpenSet(db.incidents, m);
    var found := FirstOpen(db.incidents, m);
    if found.Some? { assert found.value in OpenSet(db.incidents, m); }
  }

  // ---- What is planned, and what waits ----

  /**
   * An incident is planned if and only if a window of its tenant covers the moment and names its monitor or no
   * monitor at all. If it is not, and its monitor has no delay, it is announced as it opens; otherwise not yet.
   */
  lemma OpenedIncident(start: Sys, es: seq<Event>, e: Event)
    requires |Exec(start, es).db.incidents| < |Step(Exec(start, es), e).db.incidents|
    ensures var before, after := Exec(start, es).db, Step(Exec(start, es), e).db;
      var inc := after.incidents[|before.incidents|];
      && inc.monitor in before.monitors && inc.tenant == before.monitors[inc.monitor].tenant
      && inc.startedAt == e.now && inc.resolvedAt.None?
      && (inc.planned <==> exists w | w in before.windows ::
            && w.tenant == inc.tenant && w.startsAt <= e.now <= w.endsAt
            && (w.monitors == {} || inc.monitor in w.monitors))
      && inc.notifiedAt == if !inc.planned && before.monitors[inc.monitor].delaySeconds == 0 then Some(e.now) else None
  {
    var db := Exec(start, es).db;
    match e.act
    case Result(m, ok) =>
      var tenant := db.monitors[m].tenant;
      if InMaintenance(db.windows, tenant, m, e.now) {
        var k :| 0 <= k < |db.windows|
          && db.windows[k].tenant == tenant && db.windows[k].startsAt <= e.now <= db.windows[k].endsAt
          && (db.windows[k].monitors == {} || m in db.windows[k].monitors);
        assert db.windows[k] in db.windows;
      }
    case _ =>
  }

  /** What users set is what later commits see; it opens, announces and closes nothing. */
  lemma SettingsTakeEffect(sys: Sys, e: Event)
    requires e.act.Configure? || (e.act.SetDelay? && e.act.monitor in sys.db.monitors)
    ensures var before, after := sys.db, Step(sys, e).db;
      && after.incidents == before.incidents && after.notes == before.notes
      && (e.act.Configure? ==>
            && after.monitors == before.monitors && after.channels == e.act.channels
            && after.routing == e.act.routing && after.windows == e.act.windows)
      && (e.act.SetDelay? ==>
            && after.monitors.Keys == before.monitors.Keys
            && (forall m | m in before.monitors :: after.monitors[m].status == before.monitors[m].status
                                               && after.monitors[m].fails == before.monitors[m].fails)
            && after.monitors[e.act.monitor].delaySeconds == e.act.delaySeconds)
  {
  }
}
