/** The downtime statement of internal/retention/retention.go: incidents cut at midnights, summed per day. */
module Downtime {
  import opened Common
  import opened Alerting
  import opened AlertRuns

  /** timestamp::date, as days since the epoch. */
  function DayOf(t: Time): int { t / DAY }

  function EndOf(s: Span, now: Time): Time {
    if s.to.Some? then s.to.value else now
  }

  function LeastOf(a: Time, b: Time): Time { if a <= b then a else b }

  function GreatestOf(a: Time, b: Time): Time { if a >= b then a else b }

  /** LEAST(end, midnight after) - GREATEST(start, midnight before). */
  function Clip(from: Time, to: Time, day: int): Time {
    LeastOf(to, (day + 1) * DAY) - GreatestOf(from, day * DAY)
  }

  /** The days generate_series(start::date, end::date) yields. */
  predicate Touches(from: Time, to: Time, day: int) {
    DayOf(from) <= day <= DayOf(to)
  }

  // ---- One incident: nothing is lost at the midnights ----

  function ClipsUpTo(from: Time, to: Time, day: int): Time
    decreases day - DayOf(from)
  {
    if day < DayOf(from) then 0 else ClipsUpTo(from, to, day - 1) + Clip(from, to, day)
  }

  /** Every day's share is between 0 and 24 hours. */
  lemma ShareOfADay(from: Time, to: Time, day: int)
    requires from <= to && Touches(from, to, day)
    ensures 0 <= Clip(from, to, day) <= DAY
    ensures DayOf(from) < day < DayOf(to) ==> Clip(from, to, day) == DAY
  {
  }

  lemma {:induction false} ClipsAddUp(from: Time, to: Time, day: int)
    requires from <= to && Touches(from, to, day)
    ensures ClipsUpTo(from, to, day) == LeastOf(to, (day + 1) * DAY) - from
    decreases day - DayOf(from)
  {
    if day == DayOf(from) {
      assert ClipsUpTo(from, to, day - 1) == 0;
    } else {
      ClipsAddUp(from, to, day - 1);
    }
  }

  /** The shares of all its days sum exactly to the incident's length. */
  lemma DowntimeIsConserved(from: Time, to: Time)
    requires from <= to
    ensures ClipsUpTo(from, to, DayOf(to)) == to - from
  {
    ClipsAddUp(from, to, DayOf(to));
  }

  // ---- All incidents of a monitor ----

  function TimeDown(incidents: seq<Incident>, m: nat, day: int, now: Time): Time {
    if incidents == [] then 0
    else
      var i := incidents[|incidents| - 1];
      var to := EndOf(Span(i.startedAt, i.resolvedAt), now);
      TimeDown(incidents[..|incidents| - 1], m, day, now)
      + if i.monitor == m && Touches(i.startedAt, to, day) then Clip(i.startedAt, to, day) else 0
  }

  /** Whether the statement has a figure for this monitor and day at all. */
  predicate AnyDown(incidents: seq<Incident>, m: nat, day: int, now: Time) {
    exists k | 0 <= k < |incidents| ::
      incidents[k].monitor == m
      && Touches(incidents[k].startedAt, EndOf(Span(incidents[k].startedAt, incidents[k].resolvedAt), now), day)
  }

  /** (SUM(EXTRACT(EPOCH ...)) / 60)::int, which rounds to the nearest minute, halves away from zero. */
  function RoundedMinutes(t: Time): int {
    if t >= 0 then (t + 30 * SECOND) / MINUTE else -((-t + 30 * SECOND) / MINUTE)
  }

  function MinutesDown(incidents: seq<Incident>, m: nat, day: int, now: Time): int {
    RoundedMinutes(TimeDown(incidents, m, day, now))
  }

  function SpanTime(spans: seq<Span>, day: int, now: Time): Time {
    if spans == [] then 0
    else
      var s := spans[|spans| - 1];
      SpanTime(spans[..|spans| - 1], day, now)
      + if Touches(s.from, EndOf(s, now), day) then Clip(s.from, EndOf(s, now), day) else 0
  }

  lemma {:induction false} TimeDownOfSpans(incidents: seq<Incident>, m: nat, day: int, now: Time)
    ensures TimeDown(incidents, m, day, now) == SpanTime(SpansOf(incidents, m), day, now)
  {
    if incidents != [] {
      var n := |incidents| - 1;
      TimeDownOfSpans(incidents[..n], m, day, now);
      var before := SpansOf(incidents[..n], m);
      if incidents[n].monitor == m {
        assert SpansOf(incidents, m)[..|before|] == before;
      } else {
        assert SpansOf(incidents, m) == before;
      }
    }
  }

  /** How much of the day has passed at t. */
  function Passed(t: Time, day: int): Time {
    GreatestOf(0, LeastOf(DAY, t - day * DAY))
  }

  lemma ClipIsPassed(from: Time, to: Time, day: int)
    requires from <= to
    ensures (if Touches(from, to, day) then Clip(from, to, day) else 0) == Passed(to, day) - Passed(from, day)
  {
  }

  ghost predicate BegunBy(spans: seq<Span>, now: Time) {
    forall k | 0 <= k < |spans| :: spans[k].from <= EndOf(spans[k], now)
  }

  lemma SeparatedSpansFitInADay(spans: seq<Span>, day: int, now: Time)
    requires Separated(spans) && BegunBy(spans, now)
    ensures 0 <= SpanTime(spans, day, now) <= DAY
  {
    SeparatedSpansFit(spans, day, now);
  }

  lemma MinutesOfADay(t: Time)
    requires 0 <= t <= DAY
    ensures 0 <= RoundedMinutes(t) <= 1440
  {
  }

  /** Separated spans cannot fill more of a day than has passed when the last of them ends. */
  lemma {:induction false} SeparatedSpansFit(spans: seq<Span>, day: int, now: Time)
    requires Separated(spans) && BegunBy(spans, now)
    ensures 0 <= SpanTime(spans, day, now)
    ensures SpanTime(spans, day, now) <= if spans == [] then 0 else Passed(EndOf(spans[|spans| - 1], now), day)
  {
    if spans != [] {
      var n := |spans| - 1;
      SeparatedSpansFit(spans[..n], day, now);
      ClipIsPassed(spans[n].from, EndOf(spans[n], now), day);
      if n > 0 {
        assert Precedes(spans[n - 1], spans[n]);
      }
    }
  }

  /**
   * In every reachable state of the alert pipeline, no monitor's downtime for a day comes to more than
   * 24 hours, planned incidents included, and its rounded minutes stay between 0 and 1440.
   */
  lemma DowntimeFitsInADay(start: Sys, es: seq<Event>, m: nat, day: int, now: Time)
    requires Start(start) && m in start.db.monitors && Clocked(es) && (es != [] ==> es[|es| - 1].now <= now)
    ensures var incidents := Exec(start, es).db.incidents;
      && 0 <= TimeDown(incidents, m, day, now) <= DAY
      && 0 <= MinutesDown(incidents, m, day, now) <= 1440
  {
    var incidents := Exec(start, es).db.incidents;
    SpansAreSound(start, es, m, now);
    SeparatedSpansFitInADay(SpansOf(incidents, m), day, now);
    TimeDownOfSpans(incidents, m, day, now);
    MinutesOfADay(TimeDown(incidents, m, day, now));
  }

  lemma SpansAreSound(start: Sys, es: seq<Event>, m: nat, now: Time)
    requires Start(start) && m in start.db.monitors && Clocked(es) && (es != [] ==> es[|es| - 1].now <= now)
    ensures var spans := SpansOf(Exec(start, es).db.incidents, m); Separated(spans) && BegunBy(spans, now)
  {
    var spans := SpansOf(Exec(start, es).db.incidents, m);
    IncidentsNeverOverlap(start, es, m);
    forall k | 0 <= k < |spans|
      ensures spans[k].from <= EndOf(spans[k], now)
    {
      SpansBeforeClock(start, es, m, k);
    }
  }

  lemma SpansBeforeClock(start: Sys, es: seq<Event>, m: nat, k: nat)
    requires Start(start) && m in start.db.monitors && Clocked(es)
    requires k < |SpansOf(Exec(start, es).db.incidents, m)|
    ensures es != [] && SpansOf(Exec(start, es).db.incidents, m)[k].from <= es[|es| - 1].now
  {
    HistoryDeterminesIncidents(start, es, m);
    HistoryClocked(es, m);
    LongRunsInRange(History(es, m));
    assert IncidentSpans(History(es, m))[k] == SpanOfRun(History(es, m), LongRuns(History(es, m))[k]);
  }

  /** Minutes are to the nearest, half a minute counting as one. */
  lemma MinutesAreNearest(t: Time)
    requires t >= 0
    ensures var minutes := RoundedMinutes(t);
      minutes * 60 * SECOND - 30 * SECOND <= t < minutes * 60 * SECOND + 30 * SECOND
  {
  }

  /** An incident's share of a day is its overlap with the day. */
  lemma ShareIsOverlap(from: Time, to: Time, day: int)
    requires from <= to
    ensures var overlap := LeastOf(to, (day + 1) * DAY) - GreatestOf(from, day * DAY);
      (if Touches(from, to, day) then Clip(from, to, day) else 0) == if overlap > 0 then overlap else 0
  {
  }

  // ---- Figures of past days are settled ----

  /** What may become of an incident after `now`: it stays what it is, and if it was open it may close later. */
  predicate Outlives(was: Incident, inc: Incident, now: Time) {
    && inc.monitor == was.monitor && inc.startedAt == was.startedAt
    && (if was.resolvedAt.Some? then inc.resolvedAt == was.resolvedAt
        else inc.resolvedAt.Some? ==> now <= inc.resolvedAt.value)
  }

  /** `later` is what `incidents` as of `now` may become: more may open, and open ones may close. */
  ghost predicate Aged(incidents: seq<Incident>, later: seq<Incident>, now: Time) {
    && |incidents| <= |later|
    && (forall i | 0 <= i < |incidents| :: Outlives(incidents[i], later[i], now))
    && (forall i | |incidents| <= i < |later| :: now <= later[i].startedAt)
  }

  lemma AgedTwice(a: seq<Incident>, b: seq<Incident>, c: seq<Incident>, now: Time, later: Time)
    requires Aged(a, b, now) && Aged(b, c, later) && now <= later
    ensures Aged(a, c, now)
  {
    forall i | 0 <= i < |a| ensures Outlives(a[i], c[i], now) {
      assert Outlives(a[i], b[i], now) && Outlives(b[i], c[i], later);
    }
    forall i | |a| <= i < |c| ensures now <= c[i].startedAt {
      if i < |b| { assert Outlives(b[i], c[i], later); }
    }
  }

  lemma PastShareIsSettled(was: Incident, inc: Incident, day: int, now: Time, later: Time)
    requires Outlives(was, inc, now) && (day + 1) * DAY <= now <= later
    ensures var to := EndOf(Span(was.startedAt, was.resolvedAt), now);
      var to' := EndOf(Span(inc.startedAt, inc.resolvedAt), later);
      && (Touches(was.startedAt, to, day) <==> Touches(inc.startedAt, to', day))
      && Clip(was.startedAt, to, day) == Clip(inc.startedAt, to', day)
  {
  }

  lemma {:induction false} PastTimeIsSettled(incidents: seq<Incident>, later: seq<Incident>, m: nat, day: int,
                                             now: Time, now': Time)
    requires Aged(incidents, later, now) && (day + 1) * DAY <= now <= now'
    ensures TimeDown(incidents, m, day, now) == TimeDown(later, m, day, now')
    decreases |later|
  {
    if later != [] {
      var n := |later| - 1;
      if |incidents| < |later| {
        PastTimeIsSettled(incidents, later[..n], m, day, now, now');
      } else {
        PastTimeIsSettled(incidents[..n], later[..n], m, day, now, now');
        assert Outlives(incidents[n], later[n], now);
        PastShareIsSettled(incidents[n], later[n], day, now, now');
      }
    }
  }

  lemma {:induction false} PastPresenceIsSettled(incidents: seq<Incident>, later: seq<Incident>, m: nat, day: int,
                                                 now: Time, now': Time)
    requires Aged(incidents, later, now) && (day + 1) * DAY <= now <= now'
    ensures AnyDown(incidents, m, day, now) <==> AnyDown(later, m, day, now')
    decreases |later|
  {
    if later != [] {
      var n := |later| - 1;
      AnyDownLast(later, m, day, now');
      if |incidents| < |later| {
        PastPresenceIsSettled(incidents, later[..n], m, day, now, now');
      } else {
        PastPresenceIsSettled(incidents[..n], later[..n], m, day, now, now');
        assert Outlives(incidents[n], later[n], now);
        PastShareIsSettled(incidents[n], later[n], day, now, now');
        AnyDownLast(incidents, m, day, now);
      }
    }
  }

  /**
   * Once a day is over its figure is final, whatever becomes of the incidents: opening new ones and closing
   * open ones later changes neither the time down that day nor whether there is any.
   */
  lemma PastDaysAreSettled(incidents: seq<Incident>, later: seq<Incident>, m: nat, day: int, now: Time, now': Time)
    requires Aged(incidents, later, now) && (day + 1) * DAY <= now <= now'
    ensures TimeDown(incidents, m, day, now) == TimeDown(later, m, day, now')
    ensures AnyDown(incidents, m, day, now) <==> AnyDown(later, m, day, now')
  {
    PastTimeIsSettled(incidents, later, m, day, now, now');
    PastPresenceIsSettled(incidents, later, m, day, now, now');
  }

  lemma AnyDownLast(incidents: seq<Incident>, m: nat, day: int, now: Time)
    requires incidents != []
    ensures var n := |incidents| - 1;
      var i := incidents[n];
      AnyDown(incidents, m, day, now) <==>
        || AnyDown(incidents[..n], m, day, now)
        || (i.monitor == m && Touches(i.startedAt, EndOf(Span(i.startedAt, i.resolvedAt), now), day))
  {
    var n := |incidents| - 1;
    var rest := incidents[..n];
    if AnyDown(rest, m, day, now) {
      var k :| 0 <= k < |rest|
        && rest[k].monitor == m
        && Touches(rest[k].startedAt, EndOf(Span(rest[k].startedAt, rest[k].resolvedAt), now), day);
      assert incidents[k] == rest[k];
    }
    if AnyDown(incidents, m, day, now) {
      var k :| 0 <= k < |incidents|
        && incidents[k].monitor == m
        && Touches(incidents[k].startedAt, EndOf(Span(incidents[k].startedAt, incidents[k].resolvedAt), now), day);
      if k < n { assert rest[k] == incidents[k]; }
    }
  }

  lemma {:induction false} NoneDownNoTime(incidents: seq<Incident>, m: nat, day: int, now: Time)
    requires !AnyDown(incidents, m, day, now)
    ensures TimeDown(incidents, m, day, now) == 0 && MinutesDown(incidents, m, day, now) == 0
  {
    if incidents != [] {
      AnyDownLast(incidents, m, day, now);
      NoneDownNoTime(incidents[..|incidents| - 1], m, day, now);
    }
  }

  /** Every run of the alert pipeline ages its incidents so, on a clock that does not run backwards. */
  lemma {:induction false} PipelineAgesIncidents(start: Sys, es: seq<Event>, more: seq<Event>, now: Time)
    requires forall k | 0 <= k < |more| :: now <= more[k].now
    ensures Aged(Exec(start, es).db.incidents, Exec(start, es + more).db.incidents, now)
  {
    if more == [] {
      assert es + more == es;
    } else {
      var n := |more| - 1;
      var before := es + more[..n];
      PipelineAgesIncidents(start, es, more[..n], now);
      assert es + more == before + [more[n]];
      ExecAppend(start, before, more[n]);
      StepAgesIncidents(Exec(start, before), more[n]);
      AgedTwice(Exec(start, es).db.incidents, Exec(start, before).db.incidents, Exec(start, es + more).db.incidents,
                now, more[n].now);
    }
  }

  lemma StepAgesIncidents(sys: Sys, e: Event)
    ensures Aged(sys.db.incidents, Step(sys, e).db.incidents, e.now)
  {
    match e.act
    case Result(m, ok) => ProcessAgesIncidents(sys.db, m, ok, e.now);
    case _ =>
  }

  lemma ProcessAgesIncidents(db: Db, m: nat, ok: bool, now: Time)
    ensures Aged(db.incidents, Process(db, m, ok, now).incidents, now)
  {
    var after := Process(db, m, ok, now).incidents;
    assert after == db.incidents || |after| == |db.incidents| + 1 || after == Resolve(db.incidents, m, now);
  }
}
