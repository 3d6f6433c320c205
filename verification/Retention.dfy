/** internal/retention/retention.go: daily summaries of check results, and pruning of the raw rows. */
module Retention {
  import opened Common
  import opened Alerting
  import opened Percentiles
  import opened Downtime

  /** A row of check_results; the worker always writes a latency. */
  datatype CheckResult = CheckResult(id: nat, monitor: nat, tenant: nat, at: Time, ok: bool, latency: int)

  /** The aggregated columns of a daily_uptime row. */
  datatype Aggregate = Aggregate(total: nat, ok: nat,
                                 p50: Option<int>, p95: Option<int>, p99: Option<int>, max: Option<int>)

  datatype DayRow = DayRow(figures: Aggregate, downtime: int)

  /** daily_uptime, by monitor and day. */
  type Daily = map<(nat, int), DayRow>

  // ---- Aggregating one monitor's day ----

  function RowsOf(rows: seq<CheckResult>, m: nat, day: int): seq<CheckResult> {
    if rows == [] then []
    else
      var r := rows[|rows| - 1];
      RowsOf(rows[..|rows| - 1], m, day) + if r.monitor == m && DayOf(r.at) == day then [r] else []
  }

  function OkCount(rows: seq<CheckResult>): (c: nat)
    ensures c <= |rows|
  {
    if rows == [] then 0 else OkCount(rows[..|rows| - 1]) + if rows[|rows| - 1].ok then 1 else 0
  }

  function Latencies(rows: seq<CheckResult>): (s: seq<int>)
    ensures |s| == OkCount(rows)
  {
    if rows == [] then []
    else Latencies(rows[..|rows| - 1]) + if rows[|rows| - 1].ok then [rows[|rows| - 1].latency] else []
  }

  function Maximum(s: seq<int>): (r: Option<int>)
    ensures r.None? <==> s == []
    ensures r.Some? ==> r.value in s && forall x | x in s :: x <= r.value
  {
    if s == [] then None
    else
      var rest := Maximum(s[1..]);
      assert s == [s[0]] + s[1..];
      if rest.None? || rest.value < s[0] then Some(s[0]) else rest
  }

  function AggregateOf(rows: seq<CheckResult>): Aggregate {
    var latencies := Latencies(rows);
    Aggregate(|rows|, OkCount(rows), PercentileDisc(latencies, 50, 100), PercentileDisc(latencies, 95, 100),
              PercentileDisc(latencies, 99, 100), Maximum(latencies))
  }

  /** The latency columns are in order, and absent together exactly when no check succeeded. */
  lemma FiguresAscend(rows: seq<CheckResult>)
    ensures var f := AggregateOf(rows);
      && f.ok <= f.total
      && (f.ok == 0 <==> f.p50.None?) && (f.ok == 0 <==> f.p95.None?)
      && (f.ok == 0 <==> f.p99.None?) && (f.ok == 0 <==> f.max.None?)
      && (f.ok > 0 ==> f.p50.value <= f.p95.value <= f.p99.value <= f.max.value)
  {
    var latencies := Latencies(rows);
    if latencies != [] {
      PercentilesAscend(latencies, 50, 100, 95, 100);
      PercentilesAscend(latencies, 95, 100, 99, 100);
      PercentileIsLeastToReach(latencies, 99, 100);
    }
  }

  // ---- Rollup ----

  /** Which of a rollup's three statements fail. */
  datatype Faults = Faults(upsert: bool, downtime: bool, mark: bool)

  /** GROUP BY: the monitors and days in from .. today-1 that have rows. */
  function Keys(rows: seq<CheckResult>, from: int, today: int): set<(nat, int)> {
    if rows == [] then {}
    else
      var r := rows[|rows| - 1];
      Keys(rows[..|rows| - 1], from, today) + if from <= DayOf(r.at) < today then {(r.monitor, DayOf(r.at))} else {}
  }

  /** INSERT ... SELECT ... GROUP BY ... ON CONFLICT DO UPDATE of everything but the downtime. */
  function Upserted(daily: Daily, rows: seq<CheckResult>, keys: set<(nat, int)>): Daily {
    map k | k in daily.Keys + keys ::
      if k in keys then DayRow(AggregateOf(RowsOf(rows, k.0, k.1)), if k in daily then daily[k].downtime else 0)
      else daily[k]
  }

  /** One group at a time comes to the same as all groups at once. */
  lemma UpsertOne(daily: Daily, rows: seq<CheckResult>, keys: set<(nat, int)>, k: (nat, int))
    requires k !in keys
    ensures var before, figures := Upserted(daily, rows, keys), AggregateOf(RowsOf(rows, k.0, k.1));
      Upserted(daily, rows, keys + {k}) ==
        before[k := if k in before then before[k].(figures := figures) else DayRow(figures, 0)]
  {
  }

  /** UPDATE ... FROM of the downtime: rows without a figure keep what they have. */
  function WithDowntime(daily: Daily, incidents: seq<Incident>, now: Time): Daily {
    map k | k in daily :: Timed(daily[k], k, incidents, now)
  }

  function Timed(row: DayRow, k: (nat, int), incidents: seq<Incident>, now: Time): DayRow {
    if AnyDown(incidents, k.0, k.1, now) then row.(downtime := MinutesDown(incidents, k.0, k.1, now)) else row
  }

  /** MIN(checked_at)::date. */
  function FirstDay(rows: seq<CheckResult>): int
    requires rows != []
  {
    var n := |rows| - 1;
    if n == 0 then DayOf(rows[0].at)
    else
      var rest := FirstDay(rows[..n]);
      if DayOf(rows[n].at) < rest then DayOf(rows[n].at) else rest
  }

  lemma {:induction false} FirstDayIsLeast(rows: seq<CheckResult>)
    requires rows != []
    ensures forall r | r in rows :: FirstDay(rows) <= DayOf(r.at)
    ensures exists r | r in rows :: FirstDay(rows) == DayOf(r.at)
  {
    var n := |rows| - 1;
    assert rows == rows[..n] + [rows[n]];
    if n == 0 {
      assert rows[0] in rows;
    } else {
      FirstDayIsLeast(rows[..n]);
      assert rows[n] in rows;
    }
  }

  function StartDay(last: Option<int>, rows: seq<CheckResult>, today: int): int {
    if last.Some? then last.value + 1 else if rows == [] then today else FirstDay(rows)
  }

  /** The groups of one aggregation: the days after the last one marked, short of today. */
  function Groups(last: Option<int>, rows: seq<CheckResult>, today: int): set<(nat, int)> {
    Keys(rows, StartDay(last, rows, today), today)
  }

  // ---- Prune ----

  /** Past the tenant's plan window; a row whose tenant is gone joins no plan and stays. */
  predicate Expired(r: CheckResult, retentionDays: map<nat, nat>, now: Time) {
    r.tenant in retentionDays && r.at < now - retentionDays[r.tenant] * DAY
  }

  function ExpiredRows(rows: seq<CheckResult>, retentionDays: map<nat, nat>, now: Time): set<CheckResult> {
    set r | r in rows && Expired(r, retentionDays, now)
  }

  function Without(rows: seq<CheckResult>, gone: set<CheckResult>): seq<CheckResult> {
    if rows == [] then []
    else Without(rows[..|rows| - 1], gone) + if rows[|rows| - 1] in gone then [] else [rows[|rows| - 1]]
  }

  lemma {:induction false} WithoutMembers(rows: seq<CheckResult>, gone: set<CheckResult>, r: CheckResult)
    ensures r in Without(rows, gone) <==> r in rows && r !in gone
  {
    if rows != [] {
      var n := |rows| - 1;
      WithoutMembers(rows[..n], gone, r);
      assert rows == rows[..n] + [rows[n]];
    }
  }

  lemma {:induction false} WithoutTwice(rows: seq<CheckResult>, a: set<CheckResult>, b: set<CheckResult>)
    ensures Without(Without(rows, a), b) == Without(rows, a + b)
  {
    if rows != [] {
      var n := |rows| - 1;
      WithoutTwice(rows[..n], a, b);
      var before := Without(rows[..n], a);
      if rows[n] in a {
        assert Without(rows, a) == before;
      } else {
        assert Without(rows, a) == before + [rows[n]];
        assert (before + [rows[n]])[..|before|] == before;
      }
    }
  }

  lemma ExpiredAfterDelete(rows: seq<CheckResult>, gone: set<CheckResult>, retentionDays: map<nat, nat>, now: Time)
    ensures ExpiredRows(Without(rows, gone), retentionDays, now) == ExpiredRows(rows, retentionDays, now) - gone
  {
    forall r
      ensures r in ExpiredRows(Without(rows, gone), retentionDays, now)
        <==> r in ExpiredRows(rows, retentionDays, now) - gone
    {
      WithoutMembers(rows, gone, r);
    }
  }

  lemma {:induction false} SubsetOfSize(s: set<CheckResult>, n: nat) returns (t: set<CheckResult>)
    requires n <= |s|
    ensures t <= s && |t| == n
  {
    if n == 0 {
      t := {};
    } else {
      var x :| x in s;
      t := SubsetOfSize(s - {x}, n - 1);
      t := t + {x};
    }
  }

  /** What one DELETE ... LIMIT may remove. */
  predicate IsBatch(rows: seq<CheckResult>, retentionDays: map<nat, nat>, now: Time, batch: nat, gone: set<CheckResult>)
  {
    var expired := ExpiredRows(rows, retentionDays, now);
    gone <= expired && |gone| <= batch && (gone == expired || |gone| == batch)
  }

  // ---- The public page's bars ----

  /** -1 on the wire, or the percentage of successful checks in hundredths of a percent, rounded half up. */
  datatype Bar = NoData | Uptime(hundredths: nat)

  function BarOf(ok: nat, total: nat): Bar {
    if total > 0 then Uptime((20000 * ok + total) / (2 * total)) else NoData
  }

  /** The rows of the LATERAL subquery: the monitor's rows since midnight. */
  function LiveRows(rows: seq<CheckResult>, m: nat, today: int): seq<CheckResult> {
    if rows == [] then []
    else
      var r := rows[|rows| - 1];
      LiveRows(rows[..|rows| - 1], m, today) + if r.monitor == m && r.at >= today * DAY then [r] else []
  }

  /** One cell of the bar query: the rollup, else today's rows if the day is today, else nothing. */
  function BarFor(daily: Daily, rows: seq<CheckResult>, m: nat, day: int, today: int): Bar {
    if (m, day) in daily && daily[(m, day)].figures.total > 0
    then BarOf(daily[(m, day)].figures.ok, daily[(m, day)].figures.total)
    else if day == today then BarOf(OkCount(LiveRows(rows, m, today)), |LiveRows(rows, m, today)|)
    else NoData
  }

  const BAR_DAYS := 90

  // ---- The store ----

  class Store {
    var raw: seq<CheckResult>
    var daily: Daily
    var lastRollupDay: Option<int>
    var rowsDeleted: nat

    /** The aggregation, group by group in any order. */
    method UpsertGroups(groups: set<(nat, int)>)
      modifies this`daily
      ensures raw == old(raw) && lastRollupDay == old(lastRollupDay)
      ensures daily == Upserted(old(daily), raw, groups)
    {
      var left := groups;
      assert groups - left == {};
      while left != {}
        invariant left <= groups
        invariant daily == Upserted(old(daily), raw, groups - left)
        decreases left
      {
        var k :| k in left;
        var figures := AggregateOf(RowsOf(raw, k.0, k.1));
        UpsertOne(old(daily), raw, groups - left, k);
        assert groups - (left - {k}) == (groups - left) + {k};
        daily := daily[k := if k in daily then daily[k].(figures := figures) else DayRow(figures, 0)];
        left := left - {k};
      }
      assert groups - left == groups;
    }

    /** The downtime statement, row by row. Figures stay, and a row nothing happened to keeps its minutes. */
    method RecordDowntime(now: Time, incidents: seq<Incident>)
      modifies this`daily
      ensures raw == old(raw) && lastRollupDay == old(lastRollupDay)
      ensures daily == WithDowntime(old(daily), incidents, now)
      ensures daily.Keys == old(daily).Keys
      ensures forall k | k in daily :: daily[k].figures == old(daily)[k].figures
      ensures forall k | k in daily && AnyDown(incidents, k.0, k.1, now) ::
        daily[k].downtime == MinutesDown(incidents, k.0, k.1, now)
      ensures forall k | k in daily && !AnyDown(incidents, k.0, k.1, now) :: daily[k] == old(daily)[k]
    {
      var left := daily.Keys;
      while left != {}
        invariant left <= daily.Keys == old(daily).Keys
        invariant forall k | k in left :: daily[k] == old(daily)[k]
        invariant forall k | k in daily && k !in left :: daily[k] == Timed(old(daily)[k], k, incidents, now)
        decreases left
      {
        var k :| k in left;
        if AnyDown(incidents, k.0, k.1, now) {
          daily := daily[k := daily[k].(downtime := MinutesDown(incidents, k.0, k.1, now))];
        }
        left := left - {k};
      }
    }

    /** The aggregation. Returns the rows upserted. */
    method SumUp(now: Time) returns (rolled: nat)
      modifies this`daily
      ensures raw == old(raw) && lastRollupDay == old(lastRollupDay)
      ensures rolled == |Groups(lastRollupDay, raw, DayOf(now))|
      ensures daily == Upserted(old(daily), raw, Groups(lastRollupDay, raw, DayOf(now)))
    {
      rolled := |Groups(lastRollupDay, raw, DayOf(now))|;
      UpsertGroups(Groups(lastRollupDay, raw, DayOf(now)));
    }

    /**
     * One Rollup with nothing inserted meanwhile: three statements, each with a clock of its own. If the
     * aggregation fails nothing happens; the downtime statement's failure is only logged; if the marker
     * cannot be moved, the table is summed up but the same days come again next time. What happens to rows
     * inserted between the statements is the subject of RetentionRuns.
     */
    method Rollup(summedAt: Time, timedAt: Time, markedAt: Time, incidents: seq<Incident>, f: Faults)
        returns (rolled: nat, ok: bool)
      modifies this`daily, this`lastRollupDay
      ensures raw == old(raw)
      ensures ok <==> !f.upsert && !f.mark
      ensures rolled == if f.upsert then 0 else |Groups(old(lastRollupDay), raw, DayOf(summedAt))|
      ensures f.upsert ==> daily == old(daily)
      ensures !f.upsert ==>
        var summed := Upserted(old(daily), raw, Groups(old(lastRollupDay), raw, DayOf(summedAt)));
        daily == if f.downtime then summed else WithDowntime(summed, incidents, timedAt)
      ensures lastRollupDay == if ok then Some(DayOf(markedAt) - 1) else old(lastRollupDay)
    {
      if f.upsert {
        return 0, false;
      }
      rolled := SumUp(summedAt);
      if !f.downtime {
        RecordDowntime(timedAt, incidents);
      }
      ok := !f.mark;
      if ok {
        lastRollupDay := Some(DayOf(markedAt) - 1);
      }
    }

    /** One DELETE of at most `batch` expired rows, whichever the LIMIT happens to pick. */
    method DeleteBatch(retentionDays: map<nat, nat>, now: Time, batch: nat) returns (n: nat, gone: set<CheckResult>)
      modifies this`raw
      ensures daily == old(daily) && lastRollupDay == old(lastRollupDay) && rowsDeleted == old(rowsDeleted)
      ensures IsBatch(old(raw), retentionDays, now, batch, gone) && n == |gone|
      ensures raw == Without(old(raw), gone)
    {
      var expired := ExpiredRows(raw, retentionDays, now);
      ghost var some := SubsetOfSize(expired, if |expired| < batch then |expired| else batch);
      assert IsBatch(raw, retentionDays, now, batch, some) by { SubsetCount(some, expired); }
      gone :| gone <= expired && IsBatch(raw, retentionDays, now, batch, gone);
      raw := Without(raw, gone);
      n := |gone|;
    }

    /** The loop of Prune. Every statement reads the clock and the plans' windows anew, and may fail or be the last. */
    method DeleteExpired(now: Time, batch: nat)
        returns (total: nat, ok: bool, ghost readings: seq<Reading>, ghost gone: set<CheckResult>)
      requires batch >= 1
      modifies this`raw
      ensures Ascending(now, readings) && OnlyExpiredGo(old(raw), raw, gone, readings) && |gone| == total
      ensures ok ==> readings != [] && NothingExpired(raw, readings[|readings| - 1])
      ensures ok ==> (|readings| - 1) * batch <= total < |readings| * batch
    {
      total, ok, readings, gone := 0, true, [], {};
      var clock := now;
      ghost var start := raw;
      WithoutNothing(raw);
      while true
        invariant Before(now, readings, clock) && FullBatches(now, start, raw, gone, readings, total, batch)
        decreases |raw|
      {
        var retentionDays: map<nat, nat> := *;
        if * {
          ok := false;
          return;
        }
        ghost var rows, reading := raw, Reading(clock, retentionDays);
        var n, more := DeleteBatch(retentionDays, clock, batch);
        PruneLoopStep(now, start, rows, gone, more, readings, reading, total, batch);
        gone, readings := gone + more, readings + [reading];
        total := total + n;
        if n < batch {
          return;
        }
        if * {
          ok := false;
          return;
        }
        var before := clock;
        clock :| before <= clock;
        StillBefore(now, readings, before, clock);
      }
    }

    /**
     * The whole prune. It ends, and only rows expired at one of its readings go; their number is returned. If it
     * is neither cut short by a failure nor cancelled between two batches, nothing expired at the last reading
     * is left, the number is added to the books, and it took one statement more than there are full batches.
     */
    method Prune(now: Time, batch: nat)
        returns (total: nat, ok: bool, ghost readings: seq<Reading>, ghost gone: set<CheckResult>)
      requires batch >= 1
      modifies this`raw, this`rowsDeleted
      ensures daily == old(daily) && lastRollupDay == old(lastRollupDay)
      ensures Ascending(now, readings) && OnlyExpiredGo(old(raw), raw, gone, readings) && |gone| == total
      ensures rowsDeleted == old(rowsDeleted) + if ok then total else 0
      ensures ok ==> readings != [] && NothingExpired(raw, readings[|readings| - 1])
      ensures ok ==> (|readings| - 1) * batch <= total < |readings| * batch
    {
      total, ok, readings, gone := DeleteExpired(now, batch);
      if ok && total > 0 {
        rowsDeleted := rowsDeleted + total;
      }
    }

    /**
     * One pass: a rollup, then a prune whether or not the rollup went well. With nothing inserted meanwhile,
     * a pass that marks its days on the day it summed them up, on plans of two days or more, drops no row
     * but of days summed up, unless the prune drags on past the next midnight.
     */
    method RunPass(summedAt: Time, timedAt: Time, markedAt: Time, incidents: seq<Incident>, f: Faults, pruneAt: Time,
                   batch: nat)
        returns (rolledUp: bool, pruned: bool, ghost readings: seq<Reading>, ghost gone: set<CheckResult>)
      requires batch >= 1
      modifies this
      ensures f.upsert ==> daily == old(daily)
      ensures !f.upsert ==>
        var summed := Upserted(old(daily), old(raw), Groups(old(lastRollupDay), old(raw), DayOf(summedAt)));
        daily == if f.downtime then summed else WithDowntime(summed, incidents, timedAt)
      ensures rolledUp <==> !f.upsert && !f.mark
      ensures lastRollupDay == if rolledUp then Some(DayOf(markedAt) - 1) else old(lastRollupDay)
      ensures Ascending(pruneAt, readings) && OnlyExpiredGo(old(raw), raw, gone, readings)
      ensures pruned ==> readings != [] && NothingExpired(raw, readings[|readings| - 1])
      ensures rolledUp && (forall k | 0 <= k < |readings| :: WithinADay(readings[k], markedAt)) ==>
        forall r | r in gone :: DayOf(r.at) <= lastRollupDay.value
    {
      var rolled, total;
      rolled, rolledUp := Rollup(summedAt, timedAt, markedAt, incidents, f);
      total, pruned, readings, gone := Prune(pruneAt, batch);
      if forall k | 0 <= k < |readings| :: WithinADay(readings[k], markedAt) {
        OnlyOldRowsGo(old(raw), raw, gone, readings, markedAt);
      }
    }

    /** The cells of one monitor's bar, oldest first. */
    method DailyBars(m: nat, now: Time) returns (bars: seq<Bar>)
      ensures |bars| == 90
      ensures forall k | 0 <= k < 90 :: bars[k] == BarFor(daily, raw, m, DayOf(now) - 89 + k, DayOf(now))
    {
      bars := [];
      var today := DayOf(now);
      var day := today - (BAR_DAYS - 1);
      while day <= today
        invariant today - (BAR_DAYS - 1) <= day <= today + 1
        invariant |bars| == day - (today - (BAR_DAYS - 1))
        invariant forall k | 0 <= k < |bars| :: bars[k] == BarFor(daily, raw, m, today - (BAR_DAYS - 1) + k, today)
      {
        bars := bars + [BarFor(daily, raw, m, day, today)];
        day := day + 1;
      }
    }
  }

  /** What one DELETE sees of the clock and the plans. */
  datatype Reading = Reading(now: Time, retentionDays: map<nat, nat>)

  ghost predicate Ascending(now: Time, readings: seq<Reading>) {
    && (forall k | 0 <= k < |readings| :: now <= readings[k].now)
    && (forall j, k | 0 <= j < k < |readings| :: readings[j].now <= readings[k].now)
  }

  ghost predicate Before(now: Time, readings: seq<Reading>, clock: Time) {
    now <= clock && forall k | 0 <= k < |readings| :: readings[k].now <= clock
  }

  lemma OneMoreReading(now: Time, readings: seq<Reading>, reading: Reading)
    requires Ascending(now, readings) && Before(now, readings, reading.now)
    ensures Ascending(now, readings + [reading]) && Before(now, readings + [reading], reading.now)
  {
  }

  lemma StillBefore(now: Time, readings: seq<Reading>, clock: Time, later: Time)
    requires Before(now, readings, clock) && clock <= later
    ensures Before(now, readings, later)
  {
  }

  predicate ExpiredAt(r: CheckResult, reading: Reading) {
    Expired(r, reading.retentionDays, reading.now)
  }

  /** gone is what is missing of start, and all of it had expired at some reading. */
  ghost predicate OnlyExpiredGo(start: seq<CheckResult>, raw: seq<CheckResult>, gone: set<CheckResult>,
                                readings: seq<Reading>)
  {
    && raw == Without(start, gone)
    && forall r | r in gone :: r in start && exists k | 0 <= k < |readings| :: ExpiredAt(r, readings[k])
  }

  ghost predicate NothingExpired(rows: seq<CheckResult>, reading: Reading) {
    ExpiredRows(rows, reading.retentionDays, reading.now) == {}
  }

  ghost predicate KeepsTwoDays(retentionDays: map<nat, nat>) {
    forall t | t in retentionDays :: retentionDays[t] >= 2
  }

  ghost predicate WithinADay(reading: Reading, markedAt: Time) {
    KeepsTwoDays(reading.retentionDays) && DayOf(reading.now) <= DayOf(markedAt) + 1
  }

  lemma OnlyOldRowsGo(start: seq<CheckResult>, raw: seq<CheckResult>, gone: set<CheckResult>, readings: seq<Reading>,
                      markedAt: Time)
    requires OnlyExpiredGo(start, raw, gone, readings)
    requires forall k | 0 <= k < |readings| :: WithinADay(readings[k], markedAt)
    ensures forall r | r in gone :: DayOf(r.at) <= DayOf(markedAt) - 1
  {
    forall r | r in gone
      ensures DayOf(r.at) <= DayOf(markedAt) - 1
    {
      var k :| 0 <= k < |readings| && ExpiredAt(r, readings[k]);
      assert WithinADay(readings[k], markedAt);
      ExpiredDay(r, readings[k].retentionDays, readings[k].now);
    }
  }

  /** While the windows do not change, the prune deletes exactly what had expired when it ended. */
  lemma PruneIsExact(start: seq<CheckResult>, raw: seq<CheckResult>, gone: set<CheckResult>, readings: seq<Reading>,
                     now: Time)
    requires Ascending(now, readings) && readings != [] && OnlyExpiredGo(start, raw, gone, readings)
    requires NothingExpired(raw, readings[|readings| - 1])
    requires forall k | 0 <= k < |readings| :: readings[k].retentionDays == readings[0].retentionDays
    ensures gone == ExpiredRows(start, readings[0].retentionDays, readings[|readings| - 1].now)
    ensures forall r | r in start :: r in gone <==>
      && r.tenant in readings[0].retentionDays
      && r.at + readings[0].retentionDays[r.tenant] * DAY < readings[|readings| - 1].now
  {
    var last := readings[|readings| - 1];
    assert last.retentionDays == readings[0].retentionDays;
    ExpiredAfterDelete(start, gone, last.retentionDays, last.now);
    forall r | r in ExpiredRows(start, last.retentionDays, last.now)
      ensures r in gone
    {
      assert r !in ExpiredRows(raw, last.retentionDays, last.now);
    }
    forall r | r in gone
      ensures r in ExpiredRows(start, last.retentionDays, last.now)
    {
      var k :| 0 <= k < |readings| && ExpiredAt(r, readings[k]);
      assert readings[k].now <= last.now;
    }
  }

  lemma ExpiredDay(r: CheckResult, retentionDays: map<nat, nat>, now: Time)
    requires Expired(r, retentionDays, now) && retentionDays[r.tenant] >= 2
    ensures DayOf(r.at) <= DayOf(now) - 2
  {
    assert retentionDays[r.tenant] * DAY >= 2 * DAY;
  }

  lemma {:induction false} WithoutNothing(rows: seq<CheckResult>)
    ensures Without(rows, {}) == rows
  {
    if rows != [] { WithoutNothing(rows[..|rows| - 1]); }
  }

  lemma OneMoreBatch(statements: nat, batch: nat)
    requires statements >= 1
    ensures statements * batch == (statements - 1) * batch + batch
  {
  }

  lemma DisjointCount<T>(a: set<T>, b: set<T>)
    requires a !! b
    ensures |a + b| == |a| + |b|
  {
  }

  lemma {:induction false} WithoutLength(rows: seq<CheckResult>, gone: set<CheckResult>)
    ensures |Without(rows, gone)| <= |rows|
    ensures (exists r :: r in rows && r in gone) ==> |Without(rows, gone)| < |rows|
  {
    if rows != [] {
      var n := |rows| - 1;
      WithoutLength(rows[..n], gone);
      assert rows == rows[..n] + [rows[n]];
    }
  }

  /** The loop so far: every statement took a full batch. */
  ghost predicate FullBatches(now: Time, start: seq<CheckResult>, raw: seq<CheckResult>, gone: set<CheckResult>,
                              readings: seq<Reading>, total: nat, batch: nat)
  {
    Ascending(now, readings) && OnlyExpiredGo(start, raw, gone, readings) && |gone| == total == |readings| * batch
  }

  lemma PruneLoopStep(now: Time, start: seq<CheckResult>, rows: seq<CheckResult>, gone: set<CheckResult>,
                      more: set<CheckResult>, readings: seq<Reading>, reading: Reading, total: nat, batch: nat)
    requires Before(now, readings, reading.now) && FullBatches(now, start, rows, gone, readings, total, batch)
    requires IsBatch(rows, reading.retentionDays, reading.now, batch, more)
    ensures var raw, all := Without(rows, more), readings + [reading];
      && Before(now, all, reading.now) && Ascending(now, all)
      && OnlyExpiredGo(start, raw, gone + more, all) && |gone + more| == total + |more|
      && (|all| - 1) * batch == total
      && (|more| == batch ==> FullBatches(now, start, raw, gone + more, all, total + |more|, batch))
      && (|more| < batch ==> NothingExpired(raw, reading) && total + |more| < |all| * batch)
      && (|more| > 0 ==> |raw| < |rows|)
  {
    PruneStep(start, rows, gone, more, readings, reading, batch);
    OneMoreReading(now, readings, reading);
    OneMoreBatch(|readings| + 1, batch);
  }

  /** One more batch, seen from the rows the loop started with. */
  lemma PruneStep(start: seq<CheckResult>, rows: seq<CheckResult>, gone: set<CheckResult>, more: set<CheckResult>,
                  readings: seq<Reading>, reading: Reading, batch: nat)
    requires OnlyExpiredGo(start, rows, gone, readings)
    requires IsBatch(rows, reading.retentionDays, reading.now, batch, more)
    ensures OnlyExpiredGo(start, Without(rows, more), gone + more, readings + [reading])
    ensures |gone + more| == |gone| + |more|
    ensures |more| < batch ==> NothingExpired(Without(rows, more), reading)
    ensures |more| > 0 ==> |Without(rows, more)| < |rows|
  {
    BatchIsNew(start, rows, gone, more, reading, batch);
    WithoutTwice(start, gone, more);
    DisjointCount(gone, more);
    ExpiredAfterDelete(rows, more, reading.retentionDays, reading.now);
    var all := readings + [reading];
    forall r | r in gone + more
      ensures r in start && exists k | 0 <= k < |all| :: ExpiredAt(r, all[k])
    {
      if r in gone {
        var k :| 0 <= k < |readings| && ExpiredAt(r, readings[k]);
        assert ExpiredAt(r, all[k]);
      } else {
        assert ExpiredAt(r, all[|readings|]);
      }
    }
    if |more| > 0 {
      var r :| r in more;
      assert r in rows;
      WithoutLength(rows, more);
    }
  }

  lemma BatchIsNew(start: seq<CheckResult>, rows: seq<CheckResult>, gone: set<CheckResult>, more: set<CheckResult>,
                   reading: Reading, batch: nat)
    requires rows == Without(start, gone) && IsBatch(rows, reading.retentionDays, reading.now, batch, more)
    ensures gone !! more && forall r | r in more :: r in start && r in rows && ExpiredAt(r, reading)
  {
    forall r | r in more
      ensures r !in gone && r in start && r in rows && ExpiredAt(r, reading)
    {
      assert r in ExpiredRows(rows, reading.retentionDays, reading.now);
      WithoutMembers(start, gone, r);
    }
  }
}
