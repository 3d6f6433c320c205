/** The downtime column of daily_uptime over whole runs of the retention job, while incidents open and close. */
module DowntimeRuns {
  import opened Common
  import opened Alerting
  import opened Downtime
  import opened Retention
  import opened RetentionRuns
  import AlertRuns

  /** The incidents the downtime statement reads only age from one reading to the next. */
  ghost predicate IncidentsAge(es: seq<Event>) {
    forall j, k | 0 <= j < k < |es| && es[j].TimeDays? && es[k].TimeDays? ::
      Aged(es[j].incidents, es[k].incidents, es[j].now)
  }

  /** e once gave day k's row its minutes, after the day was over. */
  ghost predicate TimedBy(row: DayRow, k: (nat, int), e: Event) {
    && e.TimeDays? && (k.1 + 1) * DAY <= e.now
    && AnyDown(e.incidents, k.0, k.1, e.now) && row.downtime == MinutesDown(e.incidents, k.0, k.1, e.now)
  }

  ghost predicate TimedBySome(row: DayRow, k: (nat, int), es: seq<Event>) {
    row.downtime == 0 || exists j | 0 <= j < |es| :: TimedBy(row, k, es[j])
  }

  lemma RowStep(st: State, e: Event, k: (nat, int))
    requires k in Step(st, e).daily && OnlyBefore(st.daily, DayOf(TimeOf(e)))
    ensures var row := Step(st, e).daily[k];
      || (k in st.daily && row.downtime == st.daily[k].downtime) || (k !in st.daily && row.downtime == 0)
      || TimedBy(row, k, e)
  {
  }

  lemma {:induction false} EveryRowIsTimed(es: seq<Event>, k: (nat, int))
    requires Clocked(es) && k in Exec(es).daily
    ensures TimedBySome(Exec(es).daily[k], k, es)
  {
    if es != [] {
      var before, e := es[..|es| - 1], es[|es| - 1];
      LastStep(es);
      EveryRunIsUpToDate(before, TimeOf(e));
      RowStep(Exec(before), e, k);
      if k in Exec(before).daily {
        EveryRowIsTimed(before, k);
      }
      if k in Exec(before).daily && !TimedBy(Exec(es).daily[k], k, e) {
        SameRow(Exec(before).daily[k], Exec(es).daily[k], k, before, e);
      }
      assert es[|es| - 1] == e;
    }
  }

  lemma SameRow(was: DayRow, row: DayRow, k: (nat, int), before: seq<Event>, e: Event)
    requires TimedBySome(was, k, before) && row.downtime == was.downtime
    ensures TimedBySome(row, k, before + [e])
  {
    if row.downtime != 0 {
      var j :| 0 <= j < |before| && TimedBy(was, k, before[j]);
      assert (before + [e])[j] == before[j] && TimedBy(row, k, before[j]);
    }
  }

  lemma ReadingOfRow(row: DayRow, e: Event, k: (nat, int))
    requires e.TimeDays? && (row.downtime != 0 ==> AnyDown(e.incidents, k.0, k.1, e.now))
    ensures Timed(row, k, e.incidents, e.now).downtime == MinutesDown(e.incidents, k.0, k.1, e.now)
  {
    if !AnyDown(e.incidents, k.0, k.1, e.now) { NoneDownNoTime(e.incidents, k.0, k.1, e.now); }
  }

  /** e reads what an earlier reading saw, aged. */
  ghost predicate ReadsLater(e: Event, first: Event) {
    first.TimeDays? && e.TimeDays? ==> first.now <= e.now && Aged(first.incidents, e.incidents, first.now)
  }

  lemma FigureRemains(row: DayRow, k: (nat, int), first: Event, e: Event)
    requires TimedBy(row, k, first) && e.TimeDays? && ReadsLater(e, first)
    ensures AnyDown(e.incidents, k.0, k.1, e.now)
  {
    PastDaysAreSettled(first.incidents, e.incidents, k.0, k.1, first.now, e.now);
  }

  /** A row with minutes is one the next reading has a figure for. */
  lemma TimedRowsHaveFigures(row: DayRow, k: (nat, int), es: seq<Event>, e: Event)
    requires TimedBySome(row, k, es) && e.TimeDays? && forall j | 0 <= j < |es| :: ReadsLater(e, es[j])
    ensures row.downtime != 0 ==> AnyDown(e.incidents, k.0, k.1, e.now)
  {
    if row.downtime != 0 {
      var j :| 0 <= j < |es| && TimedBy(row, k, es[j]);
      FigureRemains(row, k, es[j], e);
    }
  }

  lemma StepOfReading(st: State, e: Event, k: (nat, int))
    requires e.TimeDays? && !e.fails && st.summed.Some? && k in st.daily
    ensures k in Step(st, e).daily && Step(st, e).daily[k] == Timed(st.daily[k], k, e.incidents, e.now)
  {
  }

  /** The statement gives every row there is its minutes, and rows it has no figure for have 0 already. */
  lemma RowAfterReading(es: seq<Event>, n: nat, k: (nat, int))
    requires Clocked(es) && IncidentsAge(es) && n < |es| && k in Exec(es[..n]).daily
    requires es[n].TimeDays? && !es[n].fails && Exec(es[..n]).summed.Some?
    ensures k in Step(Exec(es[..n]), es[n]).daily
    ensures Step(Exec(es[..n]), es[n]).daily[k].downtime == MinutesDown(es[n].incidents, k.0, k.1, es[n].now)
  {
    var e := es[n];
    forall j | 0 <= j < n
      ensures ReadsLater(e, es[j])
    {
      assert TimeOf(es[j]) <= TimeOf(e);
    }
    EveryRowIsTimed(es[..n], k);
    TimedRowsHaveFigures(Exec(es[..n]).daily[k], k, es[..n], e);
    StepOfReading(Exec(es[..n]), e, k);
    ReadingOfRow(Exec(es[..n]).daily[k], e, k);
  }

  /** The row has its minutes from the reading `first`, made after the day was over. */
  ghost predicate Holds(st: State, k: (nat, int), first: Event) {
    && first.TimeDays? && k in st.daily && k.1 < DayOf(first.now)
    && st.daily[k].downtime == MinutesDown(first.incidents, k.0, k.1, first.now)
  }

  lemma HoldsAfterReading(es: seq<Event>, n: nat, k: (nat, int))
    requires Clocked(es) && IncidentsAge(es) && n < |es| && k in Exec(es[..n]).daily
    requires es[n].TimeDays? && !es[n].fails && Exec(es[..n]).summed.Some?
    ensures Holds(Step(Exec(es[..n]), es[n]), k, es[n])
  {
    RowAfterReading(es, n, k);
    EveryRunIsUpToDate(es[..n], es[n].now);
  }

  lemma HoldsStep(st: State, e: Event, first: Event, k: (nat, int))
    requires Holds(st, k, first) && ReadsLater(e, first)
    ensures Holds(Step(st, e), k, first)
  {
    if e.TimeDays? {
      DayIsOver(k.1, first.now);
      PastDaysAreSettled(first.incidents, e.incidents, k.0, k.1, first.now, e.now);
    }
  }

  /** No later statement changes them: the figure of a past day is settled. */
  lemma {:induction false} HoldsThroughout(st: State, more: seq<Event>, first: Event, k: (nat, int))
    requires Holds(st, k, first) && forall i | 0 <= i < |more| :: ReadsLater(more[i], first)
    ensures Holds(Continued(st, more), k, first)
  {
    if more != [] {
      var n := |more| - 1;
      HoldsThroughout(st, more[..n], first, k);
      HoldsStep(Continued(st, more[..n]), more[n], first, k);
    }
  }

  function Continued(st: State, more: seq<Event>): State {
    if more == [] then st else Step(Continued(st, more[..|more| - 1]), more[|more| - 1])
  }

  lemma {:induction false} ExecContinued(es: seq<Event>, n: nat)
    requires n <= |es|
    ensures Exec(es) == Continued(Exec(es[..n]), es[n..])
  {
    if n == |es| {
      assert es[..n] == es;
    } else {
      ExecContinued(es[..|es| - 1], n);
      assert es[..|es| - 1][..n] == es[..n] && es[n..][..|es| - 1 - n] == es[..|es| - 1][n..];
    }
  }

  lemma DayIsOver(day: int, now: Time)
    requires day < DayOf(now)
    ensures (day + 1) * DAY <= now
  {
  }

  lemma LaterReadings(es: seq<Event>, j: nat, more: seq<Event>)
    requires Clocked(es) && IncidentsAge(es) && j < |es| && more == es[j + 1..]
    ensures forall i | 0 <= i < |more| :: ReadsLater(more[i], es[j])
  {
    forall i | 0 <= i < |more|
      ensures ReadsLater(more[i], es[j])
    {
      assert TimeOf(es[j]) <= TimeOf(es[j + 1 + i]);
    }
  }

  /**
   * From the first downtime statement that succeeds after a day is summed up, the day's downtime is what all
   * incidents say, and remains so: whatever opens and closes later, whatever statements run or fail, and
   * whenever it is recomputed.
   */
  lemma DowntimeIsSettled(es: seq<Event>, j: nat, m: nat, day: int, incidents: seq<Incident>, now: Time)
    requires Clocked(es) && IncidentsAge(es) && j < |es| && (m, day) in Exec(es[..j]).daily
    requires es[j].TimeDays? && !es[j].fails && Exec(es[..j]).summed.Some?
    requires Aged(es[j].incidents, incidents, es[j].now) && es[j].now <= now
    ensures (m, day) in Exec(es).daily
    ensures Exec(es).daily[(m, day)].downtime == MinutesDown(incidents, m, day, now)
  {
    HoldsAfterReading(es, j, (m, day));
    assert es[..j + 1][..j] == es[..j];
    LastStep(es[..j + 1]);
    ExecContinued(es, j + 1);
    LaterReadings(es, j, es[j + 1..]);
    HoldsThroughout(Exec(es[..j + 1]), es[j + 1..], es[j], (m, day));
    DayIsOver(day, es[j].now);
    PastDaysAreSettled(es[j].incidents, incidents, m, day, es[j].now, now);
  }

  // ---- The incidents of the alert pipeline ----

  /** The reading e is of the pipeline after its first `seen` commits, those by the time of the reading. */
  ghost predicate Reads(start: AlertRuns.Sys, alerts: seq<AlertRuns.Event>, seen: nat, e: Event) {
    && e.TimeDays? && seen <= |alerts|
    && e.incidents == AlertRuns.Exec(start, alerts[..seen]).db.incidents
    && (forall i | 0 <= i < seen :: alerts[i].now <= e.now)
    && (forall i | seen <= i < |alerts| :: e.now <= alerts[i].now)
  }

  lemma ReadingsAge(start: AlertRuns.Sys, alerts: seq<AlertRuns.Event>, seen: nat, e: Event, seen': nat, e': Event)
    requires Reads(start, alerts, seen, e) && Reads(start, alerts, seen', e') && seen <= seen'
    ensures Aged(e.incidents, e'.incidents, e.now)
  {
    var more := alerts[seen..seen'];
    assert alerts[..seen] + more == alerts[..seen'];
    PipelineAgesIncidents(start, alerts[..seen], more, e.now);
  }

  /** Downtime statements that read the pipeline's incidents, at commits in order, see them only age. */
  lemma PipelineReadingsAge(start: AlertRuns.Sys, alerts: seq<AlertRuns.Event>, es: seq<Event>, seen: seq<nat>)
    requires |seen| == |es| && forall j, k | 0 <= j < k < |seen| :: seen[j] <= seen[k]
    requires forall k | 0 <= k < |es| && es[k].TimeDays? :: Reads(start, alerts, seen[k], es[k])
    ensures IncidentsAge(es)
  {
    forall j, k | 0 <= j < k < |es| && es[j].TimeDays? && es[k].TimeDays?
      ensures Aged(es[j].incidents, es[k].incidents, es[j].now)
    {
      ReadingsAge(start, alerts, seen[j], es[j], seen[k], es[k]);
    }
  }

  /** And no downtime ever stored exceeds 24 hours. */
  lemma StoredDowntimeFits(start: AlertRuns.Sys, alerts: seq<AlertRuns.Event>, es: seq<Event>, seen: seq<nat>,
                           m: nat, day: int)
    requires AlertRuns.Start(start) && m in start.db.monitors && AlertRuns.Clocked(alerts) && Clocked(es)
    requires |seen| == |es| && forall k | 0 <= k < |es| && es[k].TimeDays? :: Reads(start, alerts, seen[k], es[k])
    requires (m, day) in Exec(es).daily
    ensures 0 <= Exec(es).daily[(m, day)].downtime <= 1440
  {
    EveryRowIsTimed(es, (m, day));
    var row := Exec(es).daily[(m, day)];
    if row.downtime != 0 {
      var j :| 0 <= j < |es| && TimedBy(row, (m, day), es[j]);
      DowntimeFitsInADay(start, alerts[..seen[j]], m, day, es[j].now);
    }
  }
}
