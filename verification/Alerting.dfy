/** internal/alerting/incidents.go: check results become incidents, incidents become queued notifications. */
module Alerting {
  import opened Common

  /** Consecutive failed checks before a monitor is called down. */
  const FAILURE_THRESHOLD := 2

  datatype Status = Unknown | Up | Down

  datatype Kind = DownAlert | RecoveryAlert

  datatype Monitor = Monitor(tenant: nat, status: Status, fails: nat, delaySeconds: nat)

  datatype Channel = Channel(id: nat, tenant: nat, enabled: bool, email: bool, verified: bool)

  /** A maintenance window; an empty monitor set covers the whole tenant. */
  datatype Window = Window(tenant: nat, startsAt: Time, endsAt: Time, monitors: set<nat>)

  datatype Incident = Incident(monitor: nat, tenant: nat, startedAt: Time, resolvedAt: Option<Time>,
                               planned: bool, notifiedAt: Option<Time>)

  /** A row of the notifications table as it is queued; its delivery is module Notifier. */
  datatype Note = Note(incident: nat, channel: nat, kind: Kind, createdAt: Time)

  /** The tables the package reads and writes. An incident's id is its index. */
  datatype Db = Db(monitors: map<nat, Monitor>, incidents: seq<Incident>, notes: seq<Note>,
                   channels: seq<Channel>, routing: map<nat, set<nat>>, windows: seq<Window>)

  // ---- queueNotifications ----

  function Routed(routing: map<nat, set<nat>>, monitor: nat): set<nat> {
    if monitor in routing then routing[monitor] else {}
  }

  predicate Wants(c: Channel, tenant: nat, routed: set<nat>) {
    && c.tenant == tenant
    && c.enabled
    && (c.email ==> c.verified)
    && (routed == {} || c.id in routed)
  }

  predicate HasNote(notes: seq<Note>, incident: nat, channel: nat, kind: Kind) {
    exists k | 0 <= k < |notes| ::
      notes[k].incident == incident && notes[k].channel == channel && notes[k].kind == kind
  }

  /** INSERT ... SELECT ... ON CONFLICT DO NOTHING, one channel after another. */
  function QueueRows(notes: seq<Note>, channels: seq<Channel>, tenant: nat, routed: set<nat>,
                     incident: nat, kind: Kind, now: Time): (r: seq<Note>)
  {
    if channels == [] then notes
    else
      var before := QueueRows(notes, channels[..|channels| - 1], tenant, routed, incident, kind, now);
      var c := channels[|channels| - 1];
      if Wants(c, tenant, routed) && !HasNote(before, incident, c.id, kind)
      then before + [Note(incident, c.id, kind, now)]
      else before
  }

  function Queue(db: Db, tenant: nat, monitor: nat, incident: nat, kind: Kind, now: Time): Db {
    db.(notes := QueueRows(db.notes, db.channels, tenant, Routed(db.routing, monitor), incident, kind, now))
  }

  // ---- ProcessResult ----

  predicate InMaintenance(windows: seq<Window>, tenant: nat, monitor: nat, now: Time) {
    exists k | 0 <= k < |windows| ::
      && windows[k].tenant == tenant
      && windows[k].startsAt <= now <= windows[k].endsAt
      && (windows[k].monitors == {} || monitor in windows[k].monitors)
  }

  predicate IsOpen(incidents: seq<Incident>, monitor: nat, i: nat) {
    i < |incidents| && incidents[i].monitor == monitor && incidents[i].resolvedAt.None?
  }

  function OpenSet(incidents: seq<Incident>, monitor: nat): set<nat> {
    set i: nat | i < |incidents| && IsOpen(incidents, monitor, i)
  }

  /** UPDATE incidents SET resolved_at=now() WHERE monitor_id=$1 AND resolved_at IS NULL. */
  function Resolve(incidents: seq<Incident>, monitor: nat, now: Time): (r: seq<Incident>)
    ensures |r| == |incidents|
  {
    seq(|incidents|, k requires 0 <= k < |incidents| =>
      if IsOpen(incidents, monitor, k) then incidents[k].(resolvedAt := Some(now)) else incidents[k])
  }

  /** The row RETURNING yields: the first open incident of the monitor, if there is one. */
  function FirstOpen(incidents: seq<Incident>, monitor: nat, from: nat := 0): (r: Option<nat>)
    requires from <= |incidents|
    ensures r.Some? ==> IsOpen(incidents, monitor, r.value)
    ensures r.None? ==> forall i: nat | from <= i < |incidents| :: !IsOpen(incidents, monitor, i)
    decreases |incidents| - from
  {
    if from == |incidents| then None
    else if IsOpen(incidents, monitor, from) then Some(from)
    else FirstOpen(incidents, monitor, from + 1)
  }

  function OpenIncident(db: Db, m: nat, now: Time): Db
    requires m in db.monitors
  {
    var mon := db.monitors[m];
    var planned := InMaintenance(db.windows, mon.tenant, m, now);
    var immediate := !planned && mon.delaySeconds == 0;
    var grown := db.(incidents := db.incidents +
      [Incident(m, mon.tenant, now, None, planned, if immediate then Some(now) else None)]);
    if immediate then Queue(grown, mon.tenant, m, |db.incidents|, DownAlert, now) else grown
  }

  function CloseIncident(db: Db, m: nat, now: Time): Db
    requires m in db.monitors
  {
    var found := FirstOpen(db.incidents, m);
    if found.None? then db
    else
      var closed := db.(incidents := Resolve(db.incidents, m, now));
      var inc := closed.incidents[found.value];
      if inc.planned || inc.notifiedAt.None? then closed
      else Queue(closed, db.monitors[m].tenant, m, found.value, RecoveryAlert, now)
  }

  function NextFails(fails: nat, ok: bool): nat { if ok then 0 else fails + 1 }

  function NextStatus(status: Status, fails: nat, ok: bool): Status {
    if ok then Up else if fails + 1 >= FAILURE_THRESHOLD then Down else status
  }

  /** The committed effect of one ProcessResult transaction; an unknown monitor changes nothing. */
  function Process(db: Db, m: nat, ok: bool, now: Time): Db {
    if m !in db.monitors then db
    else
      var mon := db.monitors[m];
      var status := NextStatus(mon.status, mon.fails, ok);
      var stamped := db.(monitors := db.monitors[m := mon.(status := status, fails := NextFails(mon.fails, ok))]);
      if status == Down && mon.status != Down then OpenIncident(stamped, m, now)
      else if status == Up && mon.status == Down then CloseIncident(stamped, m, now)
      else stamped
  }

  // ---- SweepDelayedAlerts ----

  predicate IsDue(db: Db, now: Time, i: nat) {
    && i < |db.incidents|
    && var inc := db.incidents[i];
    && inc.resolvedAt.None? && inc.notifiedAt.None? && !inc.planned
    && inc.monitor in db.monitors
    && db.monitors[inc.monitor].delaySeconds > 0
    && inc.startedAt < now - db.monitors[inc.monitor].delaySeconds * SECOND
  }

  /** The scan: the ids of the incidents that are due. */
  function Due(db: Db, now: Time, upTo: nat): (r: seq<nat>)
    requires upTo <= |db.incidents|
    ensures forall k | 0 <= k < |r| :: r[k] < upTo && IsDue(db, now, r[k])
    ensures forall i: nat | i < upTo && IsDue(db, now, i) :: i in r
  {
    if upTo == 0 then []
    else Due(db, now, upTo - 1) + if IsDue(db, now, upTo - 1) then [upTo - 1] else []
  }

  /** One item's transaction: queue, then set notified_at, without looking at resolved_at again. */
  function Announce(db: Db, i: nat, now: Time): Db
    requires i < |db.incidents|
  {
    var inc := db.incidents[i];
    Queue(db, inc.tenant, inc.monitor, i, DownAlert, now).(
      incidents := db.incidents[i := inc.(notifiedAt := Some(now))])
  }

  /** The items in order, each at its own time; one whose transaction fails is skipped. */
  function AnnounceAll(db: Db, items: seq<nat>, at: nat -> Time, failing: set<nat>): (r: Db)
    requires forall k | 0 <= k < |items| :: items[k] < |db.incidents|
    ensures |r.incidents| == |db.incidents|
  {
    if items == [] then db
    else
      var before := AnnounceAll(db, items[..|items| - 1], at, failing);
      var i := items[|items| - 1];
      if i in failing then before else Announce(before, i, at(i))
  }

  // ---- The package itself: transactions on mutable tables ----

  class Store {
    var monitors: map<nat, Monitor>
    var incidents: seq<Incident>
    var notes: seq<Note>
    var channels: seq<Channel>
    var routing: map<nat, set<nat>>
    var windows: seq<Window>

    function State(): Db
      reads this
    {
      Db(monitors, incidents, notes, channels, routing, windows)
    }

    method QueueNotifications(tenant: nat, monitor: nat, incident: nat, kind: Kind, now: Time)
      modifies this`notes
      ensures State() == Queue(old(State()), tenant, monitor, incident, kind, now)
    {
      var routed := Routed(routing, monitor);
      var k := 0;
      while k < |channels|
        invariant 0 <= k <= |channels|
        invariant notes == QueueRows(old(notes), channels[..k], tenant, routed, incident, kind, now)
      {
        assert channels[..k + 1][..k] == channels[..k];
        var c := channels[k];
        if Wants(c, tenant, routed) && !HasNote(notes, incident, c.id, kind) {
          notes := notes + [Note(incident, c.id, kind, now)];
        }
        k := k + 1;
      }
      assert channels[..|channels|] == channels;
    }

    /** One check outcome. `found` is false when the monitor row does not exist. */
    method ProcessResult(m: nat, ok: bool, now: Time) returns (found: bool)
      modifies this
      ensures found <==> m in old(monitors)
      ensures State() == Process(old(State()), m, ok, now)
    {
      if m !in monitors {
        return false;
      }
      found := true;
      var mon := monitors[m];
      var newFails := mon.fails + 1;
      if ok {
        newFails := 0;
      }
      var newStatus := mon.status;
      if ok {
        newStatus := Up;
      } else if newFails >= FAILURE_THRESHOLD {
        newStatus := Down;
      }
      monitors := monitors[m := mon.(status := newStatus, fails := newFails)];

      if newStatus == Down && mon.status != Down {
        var planned := InMaintenance(windows, mon.tenant, m, now);
        var incident := |incidents|;
        incidents := incidents + [Incident(m, mon.tenant, now, None, planned, None)];
        if planned {
          return;
        }
        if monitors[m].delaySeconds == 0 {
          QueueNotifications(mon.tenant, m, incident, DownAlert, now);
          incidents := incidents[incident := incidents[incident].(notifiedAt := Some(now))];
        }
      } else if newStatus == Up && mon.status == Down {
        var open := FirstOpen(incidents, m);
        if open.None? {
          return;
        }
        incidents := Resolve(incidents, m, now);
        var inc := incidents[open.value];
        if inc.planned || inc.notifiedAt.None? {
          return;
        }
        QueueNotifications(mon.tenant, m, open.value, RecoveryAlert, now);
      }
    }

    /**
     * A whole sweep with nothing else committing in between, item i at time at(i); `failing` items roll back.
     * AlertRuns has scan and items as separate steps, with anything in between.
     */
    method SweepDelayedAlerts(scannedAt: Time, at: nat -> Time, failing: set<nat>)
      modifies this`notes, this`incidents
      ensures State() == AnnounceAll(old(State()), Due(old(State()), scannedAt, |old(incidents)|), at, failing)
    {
      var items := Due(State(), scannedAt, |incidents|);
      var k := 0;
      while k < |items|
        invariant 0 <= k <= |items|
        invariant |incidents| == |old(incidents)|
        invariant State() == AnnounceAll(old(State()), items[..k], at, failing)
      {
        assert items[..k + 1][..k] == items[..k];
        var i := items[k];
        if i !in failing {
          var inc := incidents[i];
          QueueNotifications(inc.tenant, inc.monitor, i, DownAlert, at(i));
          incidents := incidents[i := inc.(notifiedAt := Some(at(i)))];
        }
        k := k + 1;
      }
      assert items[..|items|] == items;
    }
  }
}
