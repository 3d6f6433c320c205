/** Who is told what: the notification rows in every reachable state of the alert pipeline. */
module AlertNotices {
  import opened Common
  import opened Alerting
  import opened AlertRuns

  // ---- What queueNotifications writes ----

  /** The channels that hold a row of this kind for this incident. */
  function Told(notes: seq<Note>, i: nat, kind: Kind): set<nat> {
    set n | n in notes && n.incident == i && n.kind == kind :: n.channel
  }

  function WantedIds(channels: seq<Channel>, tenant: nat, routed: set<nat>): set<nat> {
    set c | c in channels && Wants(c, tenant, routed) :: c.id
  }

  /** UNIQUE (incident_id, channel_id, kind). */
  ghost predicate Unique(notes: seq<Note>) {
    forall j, k | 0 <= j < k < |notes| ::
      notes[j].incident != notes[k].incident || notes[j].channel != notes[k].channel || notes[j].kind != notes[k].kind
  }

  lemma ToldAfterRow(notes: seq<Note>, i: nat, channel: nat, kind: Kind, now: Time)
    ensures Told(notes + [Note(i, channel, kind, now)], i, kind) == Told(notes, i, kind) + {channel}
    ensures HasNote(notes, i, channel, kind) ==> channel in Told(notes, i, kind)
  {
    var note := Note(i, channel, kind, now);
    assert note in notes + [note];
    if HasNote(notes, i, channel, kind) {
      var k :| 0 <= k < |notes| && notes[k].incident == i && notes[k].channel == channel && notes[k].kind == kind;
      assert notes[k] in notes;
    }
  }

  /** Rows are only appended. */
  lemma {:induction false} QueueRowsAppend(notes: seq<Note>, channels: seq<Channel>, tenant: nat, routed: set<nat>,
                                           i: nat, kind: Kind, now: Time)
    ensures var r := QueueRows(notes, channels, tenant, routed, i, kind, now);
      && notes <= r
      && (forall k | |notes| <= k < |r| :: r[k] == Note(i, r[k].channel, kind, now))
      && (Unique(notes) ==> Unique(r))
  {
    if channels != [] {
      QueueRowsAppend(notes, channels[..|channels| - 1], tenant, routed, i, kind, now);
    }
  }

  lemma WantedIdsStep(channels: seq<Channel>, tenant: nat, routed: set<nat>)
    requires channels != []
    ensures var n := |channels| - 1;
      WantedIds(channels, tenant, routed)
      == WantedIds(channels[..n], tenant, routed) + if Wants(channels[n], tenant, routed) then {channels[n].id} else {}
  {
    assert channels == channels[..|channels| - 1] + [channels[|channels| - 1]];
  }

  lemma {:induction false} QueueRowsTell(notes: seq<Note>, channels: seq<Channel>, tenant: nat, routed: set<nat>,
                                         i: nat, kind: Kind, now: Time)
    ensures Told(QueueRows(notes, channels, tenant, routed, i, kind, now), i, kind)
         == Told(notes, i, kind) + WantedIds(channels, tenant, routed)
  {
    if channels != [] {
      var n := |channels| - 1;
      var c, before := channels[n], QueueRows(notes, channels[..n], tenant, routed, i, kind, now);
      QueueRowsTell(notes, channels[..n], tenant, routed, i, kind, now);
      WantedIdsStep(channels, tenant, routed);
      ToldAfterRow(before, i, c.id, kind, now);
    }
  }

  /** Rows are only appended, never doubled, and end up on exactly the wanted channels. */
  lemma QueueRowsEffect(notes: seq<Note>, channels: seq<Channel>, tenant: nat, routed: set<nat>,
                        i: nat, kind: Kind, now: Time)
    ensures var r := QueueRows(notes, channels, tenant, routed, i, kind, now);
      && notes <= r
      && (forall k | |notes| <= k < |r| :: r[k] == Note(i, r[k].channel, kind, now))
      && (Unique(notes) ==> Unique(r))
      && Told(r, i, kind) == Told(notes, i, kind) + WantedIds(channels, tenant, routed)
  {
    QueueRowsAppend(notes, channels, tenant, routed, i, kind, now);
    QueueRowsTell(notes, channels, tenant, routed, i, kind, now);
  }

  lemma QueueRowsElsewhere(notes: seq<Note>, channels: seq<Channel>, tenant: nat, routed: set<nat>,
                           i: nat, kind: Kind, now: Time, i': nat, kind': Kind)
    requires i != i' || kind != kind'
    ensures Told(QueueRows(notes, channels, tenant, routed, i, kind, now), i', kind') == Told(notes, i', kind')
  {
    QueueRowsEffect(notes, channels, tenant, routed, i, kind, now);
    var r := QueueRows(notes, channels, tenant, routed, i, kind, now);
    assert r == notes + r[|notes|..];
  }

  // ---- Integrity of the tables ----

  ghost predicate NoteSound(db: Db, n: Note) {
    && n.incident < |db.incidents|
    && var inc := db.incidents[n.incident];
    && !inc.planned && inc.notifiedAt.Some? && (n.kind == RecoveryAlert ==> inc.resolvedAt.Some?)
  }

  ghost predicate IncidentSound(db: Db, i: nat)
    requires i < |db.incidents|
  {
    var inc := db.incidents[i];
    && inc.monitor in db.monitors && inc.tenant == db.monitors[inc.monitor].tenant
    && (inc.planned ==> inc.notifiedAt.None?)
  }

  ghost predicate InFlight(sys: Sys, i: nat) {
    exists s :: s in sys.sweepers && i in sys.sweepers[s]
  }

  ghost predicate Sound(sys: Sys) {
    && Unique(sys.db.notes)
    && (forall n | n in sys.db.notes :: NoteSound(sys.db, n))
    && (forall i: nat | i < |sys.db.incidents| :: IncidentSound(sys.db, i))
    && (forall i: nat | InFlight(sys, i) :: i < |sys.db.incidents| && !sys.db.incidents[i].planned)
  }

  lemma QueueSound(db: Db, tenant: nat, monitor: nat, i: nat, kind: Kind, now: Time, after: Db)
    requires Unique(db.notes) && forall n | n in db.notes :: NoteSound(after, n)
    requires forall c: nat :: NoteSound(after, Note(i, c, kind, now))
    ensures var notes := Queue(db, tenant, monitor, i, kind, now).notes;
      Unique(notes) && forall n | n in notes :: NoteSound(after, n)
  {
    QueueRowsEffect(db.notes, db.channels, tenant, Routed(db.routing, monitor), i, kind, now);
  }

  lemma OpenSound(db: Db, m: nat, now: Time)
    requires m in db.monitors
    requires Unique(db.notes) && forall n | n in db.notes :: NoteSound(db, n)
    ensures var after := OpenIncident(db, m, now);
      Unique(after.notes) && forall n | n in after.notes :: NoteSound(after, n)
  {
    var after := OpenIncident(db, m, now);
    assert forall n | n in db.notes :: NoteSound(after, n);
    if after.incidents[|db.incidents|].notifiedAt.Some? {
      QueueSound(db, db.monitors[m].tenant, m, |db.incidents|, DownAlert, now, after);
    }
  }

  lemma CloseSound(db: Db, m: nat, now: Time)
    requires m in db.monitors
    requires Unique(db.notes) && forall n | n in db.notes :: NoteSound(db, n)
    ensures var after := CloseIncident(db, m, now);
      Unique(after.notes) && forall n | n in after.notes :: NoteSound(after, n)
  {
    var after := CloseIncident(db, m, now);
    var found := FirstOpen(db.incidents, m);
    assert forall n | n in db.notes :: NoteSound(after, n);
    if found.Some? && after.notes != db.notes {
      QueueSound(db, db.monitors[m].tenant, m, found.value, RecoveryAlert, now, after);
    }
  }

  lemma AnnounceSound(db: Db, i: nat, now: Time)
    requires i < |db.incidents| && !db.incidents[i].planned
    requires Unique(db.notes) && forall n | n in db.notes :: NoteSound(db, n)
    ensures var after := Announce(db, i, now);
      Unique(after.notes) && forall n | n in after.notes :: NoteSound(after, n)
  {
    var after := Announce(db, i, now);
    assert forall n | n in db.notes :: NoteSound(after, n);
    QueueSound(db, db.incidents[i].tenant, db.incidents[i].monitor, i, DownAlert, now, after);
  }

  /** What a step does to the work in flight. */
  lemma InFlightStep(sys: Sys, e: Event, i: nat)
    requires InFlight(Step(sys, e), i)
    ensures InFlight(sys, i) || (e.act.Scan? && IsDue(sys.db, e.now, i))
  {
    var s :| s in Step(sys, e).sweepers && i in Step(sys, e).sweepers[s];
    if s in sys.sweepers && i in sys.sweepers[s] {
      assert InFlight(sys, i);
    }
  }

  /** Incidents are never dropped, and keep their identity. */
  lemma IncidentsStep(sys: Sys, e: Event, i: nat)
    requires i < |sys.db.incidents|
    ensures |sys.db.incidents| <= |Step(sys, e).db.incidents| <= |sys.db.incidents| + 1
    ensures var inc, inc' := sys.db.incidents[i], Step(sys, e).db.incidents[i];
      && inc' == inc.(resolvedAt := inc'.resolvedAt, notifiedAt := inc'.notifiedAt)
      && (inc'.resolvedAt != inc.resolvedAt ==>
            inc.resolvedAt.None? && inc'.resolvedAt == Some(e.now) && e.act.Result? && e.act.m == inc.monitor)
      && (inc'.notifiedAt != inc.notifiedAt ==>
            inc'.notifiedAt == Some(e.now) && e.act.Item? && InFlight(sys, i))
  {
    match e.act
    case Item(s, commits) =>
      if Pending(sys, s) != [] && Pending(sys, s)[0] == i {
        assert i in sys.sweepers[s];
      }
    case _ =>
  }

  lemma SoundNotesStep(sys: Sys, e: Event)
    requires Sound(sys)
    ensures var db := Step(sys, e).db; Unique(db.notes) && forall n | n in db.notes :: NoteSound(db, n)
  {
    match e.act
    case Result(m, ok) =>
      if m in sys.db.monitors {
        var stamped := sys.db.(monitors := Step(sys, e).db.monitors);
        assert forall n | n in stamped.notes :: NoteSound(sys.db, n) && NoteSound(stamped, n);
        OpenSound(stamped, m, e.now);
        CloseSound(stamped, m, e.now);
      }
    case Item(s, commits) =>
      if Pending(sys, s) != [] && commits {
        assert InFlight(sys, Pending(sys, s)[0]);
        AnnounceSound(sys.db, Pending(sys, s)[0], e.now);
      }
    case _ =>
      assert forall n | n in sys.db.notes :: NoteSound(sys.db, n);
  }

  lemma SoundStep(sys: Sys, e: Event)
    requires Sound(sys)
    ensures Sound(Step(sys, e))
  {
    var after := Step(sys, e);
    SoundNotesStep(sys, e);
    forall i: nat | i < |after.db.incidents|
      ensures IncidentSound(after.db, i)
    {
      if i < |sys.db.incidents| {
        assert IncidentSound(sys.db, i);
        IncidentsStep(sys, e, i);
      }
    }
    forall i: nat | InFlight(after, i)
      ensures i < |after.db.incidents| && !after.db.incidents[i].planned
    {
      InFlightStep(sys, e, i);
      assert i < |sys.db.incidents| && !sys.db.incidents[i].planned;
      IncidentsStep(sys, e, i);
    }
  }

  /**
   * In every reachable state, with any number of workers and sweepers: one row per incident, channel
   * and kind; every row belongs to an unplanned, announced incident; every recovery row to a resolved one.
   */
  lemma {:induction false} EveryRunIsSound(start: Sys, es: seq<Event>)
    requires Start(start)
    ensures Sound(Exec(start, es))
  {
    if es != [] {
      EveryRunIsSound(start, es[..|es| - 1]);
      SoundStep(Exec(start, es[..|es| - 1]), es[|es| - 1]);
    }
  }

  /** The same, spelt out for the notifications table. */
  lemma NoticesAreSound(start: Sys, es: seq<Event>, k: nat)
    requires Start(start) && k < |Exec(start, es).db.notes|
    ensures var db := Exec(start, es).db;
      var n := db.notes[k];
      && n.incident < |db.incidents|
      && !db.incidents[n.incident].planned && db.incidents[n.incident].notifiedAt.Some?
      && (n.kind == RecoveryAlert ==> db.incidents[n.incident].resolvedAt.Some?)
      && forall j | 0 <= j < |db.notes| && j != k ::
           !(db.notes[j].incident == n.incident && db.notes[j].channel == n.channel && db.notes[j].kind == n.kind)
  {
    EveryRunIsSound(start, es);
    assert NoteSound(Exec(start, es).db, Exec(start, es).db.notes[k]);
  }

  // ---- The channels told of an outage are the channels told of its end ----

  function Targets(db: Db, i: nat): set<nat>
    requires i < |db.incidents|
  {
    WantedIds(db.channels, db.incidents[i].tenant, Routed(db.routing, db.incidents[i].monitor))
  }

  ghost predicate Resolved(db: Db, i: nat) {
    i < |db.incidents| && db.incidents[i].resolvedAt.Some?
  }

  /** As long as the incident can still be announced or closed, its monitor alerts on exactly these channels. */
  ghost predicate Steady(sys: Sys, i: nat, channels: set<nat>) {
    i < |sys.db.incidents| && (!Resolved(sys.db, i) || InFlight(sys, i)) ==> Targets(sys.db, i) == channels
  }

  ghost predicate SteadyThroughout(start: Sys, es: seq<Event>, i: nat, channels: set<nat>) {
    forall j | 0 <= j <= |es| :: Steady(Exec(start, es[..j]), i, channels)
  }

  /** The first announcement of incident i that was committed only after i had been resolved. */
  ghost predicate AnnouncedLate(start: Sys, es: seq<Event>, i: nat) {
    && es != []
    && var before, after := Exec(start, es[..|es| - 1]).db, Exec(start, es).db;
    || AnnouncedLate(start, es[..|es| - 1], i)
    || (Resolved(before, i) && before.incidents[i].notifiedAt.None?
        && i < |after.incidents| && after.incidents[i].notifiedAt.Some?)
  }

  /** What the rows of one incident look like, given whether it was announced too late. */
  ghost predicate ToldExactly(db: Db, i: nat, channels: set<nat>, late: bool) {
    if i < |db.incidents| then
      var inc := db.incidents[i];
      && (late ==> inc.resolvedAt.Some? && inc.notifiedAt.Some?)
      && Told(db.notes, i, DownAlert) == (if inc.notifiedAt.Some? then channels else {})
      && Told(db.notes, i, RecoveryAlert) ==
           (if inc.resolvedAt.Some? && inc.notifiedAt.Some? && !late then channels else {})
    else
      !late
  }

  lemma NothingToldBefore(sys: Sys, i: nat, kind: Kind)
    requires Sound(sys) && |sys.db.incidents| <= i
    ensures Told(sys.db.notes, i, kind) == {}
  {
    assert forall n | n in sys.db.notes :: NoteSound(sys.db, n);
  }

  lemma ToldAfterOpen(db: Db, m: nat, now: Time, i: nat, kind: Kind)
    requires m in db.monitors
    ensures var after := OpenIncident(db, m, now);
      Told(after.notes, i, kind) == Told(db.notes, i, kind) +
        if i == |db.incidents| && kind == DownAlert && after.incidents[i].notifiedAt.Some? then Targets(after, i)
        else {}
  {
    var tenant, routed := db.monitors[m].tenant, Routed(db.routing, m);
    QueueRowsEffect(db.notes, db.channels, tenant, routed, |db.incidents|, DownAlert, now);
    if i != |db.incidents| || kind != DownAlert {
      QueueRowsElsewhere(db.notes, db.channels, tenant, routed, |db.incidents|, DownAlert, now, i, kind);
    }
  }

  lemma ToldAfterClose(db: Db, m: nat, now: Time, i: nat, kind: Kind)
    requires m in db.monitors
    requires i < |db.incidents| && IncidentSound(db, i)
    requires IsOpen(db.incidents, m, i) ==> OpenSet(db.incidents, m) == {i}
    ensures var after := CloseIncident(db, m, now);
      Told(after.notes, i, kind) == Told(db.notes, i, kind) +
        if IsOpen(db.incidents, m, i) && kind == RecoveryAlert && db.incidents[i].notifiedAt.Some? then Targets(db, i)
        else {}
  {
    var tenant, routed, found := db.monitors[m].tenant, Routed(db.routing, m), FirstOpen(db.incidents, m);
    if found.Some? {
      assert found.value in OpenSet(db.incidents, m);
      QueueRowsEffect(db.notes, db.channels, tenant, routed, found.value, RecoveryAlert, now);
      if i != found.value || kind != RecoveryAlert {
        QueueRowsElsewhere(db.notes, db.channels, tenant, routed, found.value, RecoveryAlert, now, i, kind);
      }
    }
  }

  lemma ToldAfterAnnounce(db: Db, at: nat, now: Time, i: nat, kind: Kind)
    requires at < |db.incidents|
    ensures Told(Announce(db, at, now).notes, i, kind) == Told(db.notes, i, kind) +
      if i == at && kind == DownAlert then Targets(db, i) else {}
  {
    var inc := db.incidents[at];
    QueueRowsEffect(db.notes, db.channels, inc.tenant, Routed(db.routing, inc.monitor), at, DownAlert, now);
    if i != at || kind != DownAlert {
      QueueRowsElsewhere(db.notes, db.channels, inc.tenant, Routed(db.routing, inc.monitor), at, DownAlert, now,
                         i, kind);
    }
  }

  lemma ToldExactlyAfterOpen(db: Db, m: nat, now: Time, i: nat, channels: set<nat>, late: bool)
    requires m in db.monitors && ToldExactly(db, i, channels, late)
    requires forall kind :: Told(db.notes, |db.incidents|, kind) == {}
    requires i == |db.incidents| ==> Targets(OpenIncident(db, m, now), i) == channels
    ensures ToldExactly(OpenIncident(db, m, now), i, channels, late)
  {
    ToldAfterOpen(db, m, now, i, DownAlert);
    ToldAfterOpen(db, m, now, i, RecoveryAlert);
    assert i < |db.incidents| ==> OpenIncident(db, m, now).incidents[i] == db.incidents[i];
  }

  lemma ToldExactlyAfterClose(db: Db, m: nat, now: Time, i: nat, channels: set<nat>, late: bool)
    requires m in db.monitors && ToldExactly(db, i, channels, late)
    requires i < |db.incidents| ==> IncidentSound(db, i) && (!Resolved(db, i) ==> Targets(db, i) == channels)
    requires OpenSet(db.incidents, m) <= {i} || i !in OpenSet(db.incidents, m)
    ensures ToldExactly(CloseIncident(db, m, now), i, channels, late)
  {
    var after := CloseIncident(db, m, now);
    if i < |db.incidents| {
      var open := IsOpen(db.incidents, m, i);
      assert open ==> OpenSet(db.incidents, m) == {i} by {
        if open { assert i in OpenSet(db.incidents, m); }
      }
      ToldAfterClose(db, m, now, i, DownAlert);
      ToldAfterClose(db, m, now, i, RecoveryAlert);
      assert after.incidents[i] == if open then db.incidents[i].(resolvedAt := Some(now)) else db.incidents[i];
    }
  }

  lemma ToldStepResult(sys: Sys, e: Event, i: nat, channels: set<nat>, late: bool)
    requires e.act.Result? && Sound(sys) && Steady(sys, i, channels) && Steady(Step(sys, e), i, channels)
    requires e.act.m in sys.db.monitors ==> OneOpenIfDown(sys.db, e.act.m)
    requires ToldExactly(sys.db, i, channels, late)
    ensures ToldExactly(Step(sys, e).db, i, channels, late)
  {
    var db, m, after := sys.db, e.act.m, Step(sys, e).db;
    var stamped := db.(monitors := after.monitors);
    assert ToldExactly(stamped, i, channels, late);
    if m in db.monitors && after != stamped {
      if e.act.ok {
        assert after == CloseIncident(stamped, m, e.now);
        if i < |db.incidents| { assert IncidentSound(db, i) && IncidentSound(stamped, i); }
        ToldExactlyAfterClose(stamped, m, e.now, i, channels, late);
      } else {
        assert after == OpenIncident(stamped, m, e.now);
        NothingToldBefore(sys, |db.incidents|, DownAlert);
        NothingToldBefore(sys, |db.incidents|, RecoveryAlert);
        ToldExactlyAfterOpen(stamped, m, e.now, i, channels, late);
      }
    }
  }

  lemma ToldStep(sys: Sys, e: Event, i: nat, channels: set<nat>, late: bool)
    requires Sound(sys) && Steady(sys, i, channels) && Steady(Step(sys, e), i, channels)
    requires forall m | m in sys.db.monitors :: OneOpenIfDown(sys.db, m)
    requires ToldExactly(sys.db, i, channels, late)
    ensures ToldExactly(Step(sys, e).db, i, channels,
      late || (Resolved(sys.db, i) && sys.db.incidents[i].notifiedAt.None? &&
               i < |Step(sys, e).db.incidents| && Step(sys, e).db.incidents[i].notifiedAt.Some?))
  {
    match e.act
    case Result(m, ok) =>
      ToldStepResult(sys, e, i, channels, late);
      if i < |sys.db.incidents| { IncidentsStep(sys, e, i); }
    case Item(s, commits) =>
      if Pending(sys, s) != [] && commits && i < |sys.db.incidents| {
        var at := Pending(sys, s)[0];
        assert InFlight(sys, at);
        ToldAfterAnnounce(sys.db, at, e.now, i, DownAlert);
        ToldAfterAnnounce(sys.db, at, e.now, i, RecoveryAlert);
      }
    case _ =>
  }

  lemma {:induction false} ToldThroughout(start: Sys, es: seq<Event>, i: nat, channels: set<nat>)
    requires Start(start) && SteadyThroughout(start, es, i, channels)
    ensures ToldExactly(Exec(start, es).db, i, channels, AnnouncedLate(start, es, i))
  {
    assert es[..|es|] == es;
    if es != [] {
      var before := es[..|es| - 1];
      assert forall j | 0 <= j <= |before| :: before[..j] == es[..j];
      ToldThroughout(start, before, i, channels);
      EveryRunIsSound(start, before);
      forall m | m in Exec(start, before).db.monitors
        ensures OneOpenIfDown(Exec(start, before).db, m)
      {
        MonitorsFixed(start, before);
        DownMeansOneOpenIncident(start, before, m);
      }
      ToldStep(Exec(start, before), es[|es| - 1], i, channels, AnnouncedLate(start, before, i));
    }
  }

  lemma {:induction false} MonitorsFixed(start: Sys, es: seq<Event>)
    ensures Exec(start, es).db.monitors.Keys == start.db.monitors.Keys
  {
    if es != [] {
      MonitorsFixed(start, es[..|es| - 1]);
    }
  }

  /**
   * For a resolved incident whose channels and routing did not change, the same channels hold a "down"
   * and a "recovered" row if and only if it was not announced for the first time after its end
   * (or alerts on no channel at all).
   */
  lemma BothToldIffNotAnnouncedLate(start: Sys, es: seq<Event>, i: nat, channels: set<nat>)
    requires Start(start) && SteadyThroughout(start, es, i, channels)
    requires Resolved(Exec(start, es).db, i)
    ensures var notes := Exec(start, es).db.notes;
      Told(notes, i, DownAlert) == Told(notes, i, RecoveryAlert) <==> channels == {} || !AnnouncedLate(start, es, i)
  {
    ToldThroughout(start, es, i, channels);
  }

  /** No result of the incident's monitor is committed while a sweeper still holds the incident. */
  ghost predicate Undisturbed(start: Sys, es: seq<Event>, i: nat) {
    forall j | 0 <= j < |es| ::
      var sys := Exec(start, es[..j]);
      InFlight(sys, i) && i < |sys.db.incidents| ==> !(es[j].act.Result? && es[j].act.m == sys.db.incidents[i].monitor)
  }

  lemma UndisturbedPrefix(start: Sys, es: seq<Event>, i: nat)
    requires es != [] && Undisturbed(start, es, i)
    ensures Undisturbed(start, es[..|es| - 1], i)
    ensures var sys, e := Exec(start, es[..|es| - 1]), es[|es| - 1];
      InFlight(sys, i) && i < |sys.db.incidents| ==> !(e.act.Result? && e.act.m == sys.db.incidents[i].monitor)
  {
    var before := es[..|es| - 1];
    assert forall j | 0 <= j <= |before| :: before[..j] == es[..j];
  }

  lemma {:induction false} UndisturbedIsNeverLate(start: Sys, es: seq<Event>, i: nat)
    requires Start(start) && Undisturbed(start, es, i)
    ensures !AnnouncedLate(start, es, i)
    ensures Resolved(Exec(start, es).db, i) ==> !InFlight(Exec(start, es), i)
  {
    if es != [] {
      var sys, e := Exec(start, es[..|es| - 1]), es[|es| - 1];
      UndisturbedPrefix(start, es, i);
      UndisturbedIsNeverLate(start, es[..|es| - 1], i);
      EveryRunIsSound(start, es[..|es| - 1]);
      if i < |sys.db.incidents| { IncidentsStep(sys, e, i); }
      if InFlight(Step(sys, e), i) { InFlightStep(sys, e, i); }
    }
  }

  /** With sweeps atomic against the monitor's results, every outage heard of is an outage heard to end. */
  lemma SameChannelsHearBoth(start: Sys, es: seq<Event>, i: nat, channels: set<nat>)
    requires Start(start) && SteadyThroughout(start, es, i, channels) && Undisturbed(start, es, i)
    requires Resolved(Exec(start, es).db, i)
    ensures var notes := Exec(start, es).db.notes; Told(notes, i, DownAlert) == Told(notes, i, RecoveryAlert)
  {
    UndisturbedIsNeverLate(start, es, i);
    BothToldIffNotAnnouncedLate(start, es, i, channels);
  }
}
