/**
 * What the figures of a summary and of a bar mean: counts, percentiles and greatest latency over every check
 * ever recorded of that monitor on that day, each check told by its place in the record.
 */
module RetentionFigures {
  import opened Common
  import opened Percentiles
  import opened Downtime
  import opened Retention
  import opened RetentionRuns

  // ---- Checks by their place in the record ----

  predicate IsCheck(r: CheckResult, m: nat, day: int) {
    r.monitor == m && day * DAY <= r.at < (day + 1) * DAY
  }

  /** The monitor's checks of the day. */
  function Checks(rows: seq<CheckResult>, m: nat, day: int): set<nat> {
    set k: nat | k < |rows| && IsCheck(rows[k], m, day)
  }

  /** Those that succeeded. */
  function Passed(rows: seq<CheckResult>, m: nat, day: int): set<nat> {
    set k: nat | k < |rows| && IsCheck(rows[k], m, day) && rows[k].ok
  }

  /** Those that succeeded within v milliseconds. */
  function PassedWithin(rows: seq<CheckResult>, m: nat, day: int, v: int): set<nat> {
    set k: nat | k < |rows| && IsCheck(rows[k], m, day) && rows[k].ok && rows[k].latency <= v
  }

  // ---- They are what is counted ----

  lemma IsCheckOf(r: CheckResult, m: nat, day: int)
    ensures IsCheck(r, m, day) <==> Of(r, m, day)
  {
  }

  lemma OneMore(s: set<nat>, t: set<nat>, n: nat, more: bool)
    requires n !in s && forall k :: k in t <==> k in s || (more && k == n)
    ensures |t| == |s| + if more then 1 else 0
  {
    assert t == if more then s + {n} else s;
  }

  lemma {:induction false} ChecksCounted(rows: seq<CheckResult>, m: nat, day: int)
    ensures |RowsOf(rows, m, day)| == |Checks(rows, m, day)|
    ensures OkCount(RowsOf(rows, m, day)) == |Passed(rows, m, day)|
  {
    if rows == [] {
      assert Checks(rows, m, day) == {} && Passed(rows, m, day) == {};
    } else {
      var n := |rows| - 1;
      var before, r := rows[..n], rows[n];
      assert rows == before + [r];
      ChecksCounted(before, m, day);
      ChecksAppend(before, r, m, day);
      PassedAppend(before, r, m, day);
      CountsAppend(before, r, m, day);
    }
  }

  lemma ChecksAppend(rows: seq<CheckResult>, r: CheckResult, m: nat, day: int)
    ensures |Checks(rows + [r], m, day)| == |Checks(rows, m, day)| + if IsCheck(r, m, day) then 1 else 0
  {
    forall k
      ensures k in Checks(rows + [r], m, day) <==> k in Checks(rows, m, day) || (IsCheck(r, m, day) && k == |rows|)
    {
      if 0 <= k < |rows| { assert (rows + [r])[k] == rows[k]; }
    }
    OneMore(Checks(rows, m, day), Checks(rows + [r], m, day), |rows|, IsCheck(r, m, day));
  }

  lemma PassedAppend(rows: seq<CheckResult>, r: CheckResult, m: nat, day: int)
    ensures |Passed(rows + [r], m, day)| == |Passed(rows, m, day)| + if IsCheck(r, m, day) && r.ok then 1 else 0
  {
    var more := IsCheck(r, m, day) && r.ok;
    forall k
      ensures k in Passed(rows + [r], m, day) <==> k in Passed(rows, m, day) || (more && k == |rows|)
    {
      if 0 <= k < |rows| { assert (rows + [r])[k] == rows[k]; }
    }
    OneMore(Passed(rows, m, day), Passed(rows + [r], m, day), |rows|, more);
  }

  lemma CountsAppend(rows: seq<CheckResult>, r: CheckResult, m: nat, day: int)
    ensures |RowsOf(rows + [r], m, day)| == |RowsOf(rows, m, day)| + if IsCheck(r, m, day) then 1 else 0
    ensures OkCount(RowsOf(rows + [r], m, day))
         == OkCount(RowsOf(rows, m, day)) + if IsCheck(r, m, day) && r.ok then 1 else 0
  {
    IsCheckOf(r, m, day);
    RowsOfAppend(rows, r, m, day);
    OkCountAppend(RowsOf(rows, m, day), r);
  }

  lemma OkCountAppend(rows: seq<CheckResult>, r: CheckResult)
    ensures OkCount(rows + [r]) == OkCount(rows) + if r.ok then 1 else 0
    ensures Latencies(rows + [r]) == if r.ok then Latencies(rows) + [r.latency] else Latencies(rows)
  {
    assert (rows + [r])[..|rows|] == rows;
  }

  lemma {:induction false} CountAppend(s: seq<int>, x: int, v: int)
    ensures CountUpTo(s + [x], v) == CountUpTo(s, v) + if x <= v then 1 else 0
  {
    if s == [] {
      assert s + [x] == [x];
    } else {
      CountAppend(s[1..], x, v);
      assert (s + [x])[1..] == s[1..] + [x];
    }
  }

  lemma {:induction false} PassedCounted(rows: seq<CheckResult>, m: nat, day: int, v: int)
    ensures CountUpTo(Latencies(RowsOf(rows, m, day)), v) == |PassedWithin(rows, m, day, v)|
  {
    if rows == [] {
      assert PassedWithin(rows, m, day, v) == {};
    } else {
      var n := |rows| - 1;
      var before, r := rows[..n], rows[n];
      assert rows == before + [r];
      PassedCounted(before, m, day, v);
      PassedWithinAppend(before, r, m, day, v);
      LatenciesAppend(before, r, m, day, v);
    }
  }

  lemma PassedWithinAppend(rows: seq<CheckResult>, r: CheckResult, m: nat, day: int, v: int)
    ensures |PassedWithin(rows + [r], m, day, v)|
         == |PassedWithin(rows, m, day, v)| + if IsCheck(r, m, day) && r.ok && r.latency <= v then 1 else 0
  {
    var more := IsCheck(r, m, day) && r.ok && r.latency <= v;
    forall k
      ensures k in PassedWithin(rows + [r], m, day, v) <==> k in PassedWithin(rows, m, day, v) || (more && k == |rows|)
    {
      if 0 <= k < |rows| { assert (rows + [r])[k] == rows[k]; }
    }
    OneMore(PassedWithin(rows, m, day, v), PassedWithin(rows + [r], m, day, v), |rows|, more);
  }

  lemma LatenciesAppend(rows: seq<CheckResult>, r: CheckResult, m: nat, day: int, v: int)
    ensures CountUpTo(Latencies(RowsOf(rows + [r], m, day)), v)
         == CountUpTo(Latencies(RowsOf(rows, m, day)), v)
            + if IsCheck(r, m, day) && r.ok && r.latency <= v then 1 else 0
  {
    IsCheckOf(r, m, day);
    RowsOfAppend(rows, r, m, day);
    OkCountAppend(RowsOf(rows, m, day), r);
    CountAppend(Latencies(RowsOf(rows, m, day)), r.latency, v);
  }

  /** v is the latency of a check that succeeded. */
  ghost predicate Observed(rows: seq<CheckResult>, m: nat, day: int, v: int) {
    exists k | k in Passed(rows, m, day) :: rows[k].latency == v
  }

  lemma {:induction false} ObservedLatencies(rows: seq<CheckResult>, m: nat, day: int, v: int)
    ensures v in Latencies(RowsOf(rows, m, day)) <==> Observed(rows, m, day, v)
  {
    if rows != [] {
      var n := |rows| - 1;
      var before, r := rows[..n], rows[n];
      assert rows == before + [r];
      ObservedLatencies(before, m, day, v);
      ObservedAppend(before, r, m, day, v);
      IsCheckOf(r, m, day);
      RowsOfAppend(before, r, m, day);
      OkCountAppend(RowsOf(before, m, day), r);
    }
  }

  lemma ObservedAppend(rows: seq<CheckResult>, r: CheckResult, m: nat, day: int, v: int)
    ensures Observed(rows + [r], m, day, v) <==>
      Observed(rows, m, day, v) || (IsCheck(r, m, day) && r.ok && r.latency == v)
  {
    var all := rows + [r];
    if Observed(rows, m, day, v) {
      var k :| k in Passed(rows, m, day) && rows[k].latency == v;
      assert all[k] == rows[k] && k in Passed(all, m, day);
    }
    if IsCheck(r, m, day) && r.ok && r.latency == v {
      assert all[|rows|] == r && |rows| in Passed(all, m, day);
    }
    if Observed(all, m, day, v) {
      var k :| k in Passed(all, m, day) && all[k].latency == v;
      if k < |rows| { assert rows[k] == all[k] && k in Passed(rows, m, day); }
    }
  }

  // ---- Summaries ----

  /** v is an observed latency, reached by `percent` of the successful checks, and the least number so reached. */
  ghost predicate IsPercentile(rows: seq<CheckResult>, m: nat, day: int, percent: nat, v: int) {
    && Observed(rows, m, day, v)
    && percent * |Passed(rows, m, day)| <= 100 * |PassedWithin(rows, m, day, v)|
    && forall w | w < v :: 100 * |PassedWithin(rows, m, day, w)| < percent * |Passed(rows, m, day)|
  }

  lemma PercentileOfChecks(rows: seq<CheckResult>, m: nat, day: int, percent: nat)
    requires 0 < percent <= 100 && Passed(rows, m, day) != {}
    ensures var p := PercentileDisc(Latencies(RowsOf(rows, m, day)), percent, 100);
      p.Some? && IsPercentile(rows, m, day, percent, p.value)
  {
    var latencies := Latencies(RowsOf(rows, m, day));
    ChecksCounted(rows, m, day);
    assert |Passed(rows, m, day)| != 0;
    PercentileIsLeastToReach(latencies, percent, 100);
    var v := PercentileDisc(latencies, percent, 100).value;
    ObservedLatencies(rows, m, day, v);
    PassedCounted(rows, m, day, v);
    forall w | w < v
      ensures 100 * |PassedWithin(rows, m, day, w)| < percent * |Passed(rows, m, day)|
    {
      PassedCounted(rows, m, day, w);
      assert !Reaches(latencies, w, percent, 100);
    }
  }

  ghost predicate IsGreatest(rows: seq<CheckResult>, m: nat, day: int, v: int) {
    Observed(rows, m, day, v) && forall k | k in Passed(rows, m, day) :: rows[k].latency <= v
  }

  lemma GreatestOfChecks(rows: seq<CheckResult>, m: nat, day: int)
    requires Passed(rows, m, day) != {}
    ensures var max := Maximum(Latencies(RowsOf(rows, m, day))); max.Some? && IsGreatest(rows, m, day, max.value)
  {
    var latencies := Latencies(RowsOf(rows, m, day));
    ChecksCounted(rows, m, day);
    assert |Passed(rows, m, day)| != 0;
    ObservedLatencies(rows, m, day, Maximum(latencies).value);
    forall k | k in Passed(rows, m, day)
      ensures rows[k].latency <= Maximum(latencies).value
    {
      ObservedLatencies(rows, m, day, rows[k].latency);
    }
  }

  /** Every figure of a summary, in terms of the checks themselves. */
  ghost predicate Describes(f: Aggregate, rows: seq<CheckResult>, m: nat, day: int) {
    && f.total == |Checks(rows, m, day)| && f.ok == |Passed(rows, m, day)|
    && if Passed(rows, m, day) == {} then f.p50.None? && f.p95.None? && f.p99.None? && f.max.None?
       else
         && f.p50.Some? && IsPercentile(rows, m, day, 50, f.p50.value)
         && f.p95.Some? && IsPercentile(rows, m, day, 95, f.p95.value)
         && f.p99.Some? && IsPercentile(rows, m, day, 99, f.p99.value)
         && f.max.Some? && IsGreatest(rows, m, day, f.max.value)
  }

  lemma AggregateDescribes(rows: seq<CheckResult>, m: nat, day: int)
    ensures Describes(AggregateOf(RowsOf(rows, m, day)), rows, m, day)
  {
    ChecksCounted(rows, m, day);
    if Passed(rows, m, day) == {} {
      assert Latencies(RowsOf(rows, m, day)) == [];
    } else {
      PercentileOfChecks(rows, m, day, 50);
      PercentileOfChecks(rows, m, day, 95);
      PercentileOfChecks(rows, m, day, 99);
      GreatestOfChecks(rows, m, day);
    }
  }

  /**
   * In every reachable state of a run that heeds the condition, each summary counts all checks ever recorded of
   * its monitor and day and all that succeeded; p50, p95 and p99 are each the least observed latency within
   * which that percentage succeeded, max is the greatest; and they are absent if none succeeded.
   */
  lemma SummariesDescribeTheDay(es: seq<Event>, m: nat, day: int)
    requires Clocked(es) && KeepsThroughout(es) && (m, day) in Exec(es).daily
    ensures Describes(Exec(es).daily[(m, day)].figures, Recorded(es), m, day)
  {
    EveryRunIsFaithful(es, m, day);
    AggregateDescribes(Recorded(es), m, day);
  }

  // ---- Bars ----

  /** Hundredths of a percent, to the nearest; the full 100% only if the failures round to nothing. */
  lemma BarIsRounded(ok: nat, total: nat)
    requires ok <= total
    ensures BarOf(ok, total) == NoData <==> total == 0
    ensures total > 0 ==> var h := BarOf(ok, total).hundredths;
      && h <= 10000
      && 20000 * ok - total <= 2 * (h * total) <= 20000 * ok + total
      && (h == 10000 <==> 20000 * (total - ok) <= total)
  {
    if total > 0 {
      var a, b := 20000 * ok + total, 2 * total;
      var h := a / b;
      Quotient(a, b);
      assert h * b == 2 * (h * total);
      if h > 10000 { MulMonotone(10001, h, b); }
      if h < 10000 { MulMonotone(h + 1, 10000, b); }
    }
  }

  lemma Quotient(a: nat, b: nat)
    requires b > 0
    ensures (a / b) * b <= a < (a / b) * b + b && (a / b + 1) * b == (a / b) * b + b
  {
    assert a == (a / b) * b + a % b;
  }

  /**
   * The bar of a day that is done, or of today: no data if and only if there was no check, otherwise the share of
   * checks that succeeded to the nearest hundredth of a percent, and 100% only if the failures round to nothing.
   */
  lemma BarIsUptime(es: seq<Event>, m: nat, day: int, now: Time)
    requires Clocked(es) && KeepsThroughout(es) && (es != [] ==> TimeOf(es[|es| - 1]) <= now)
    requires IsDone(Exec(es).last, day) || day == DayOf(now)
    ensures var bar := BarFor(Exec(es).daily, Exec(es).raw, m, day, DayOf(now));
      var total, ok := |Checks(Recorded(es), m, day)|, |Passed(Recorded(es), m, day)|;
      && (bar == NoData <==> total == 0)
      && ok <= total
      && (bar.Uptime? ==> 20000 * ok - total <= 2 * (bar.hundredths * total) <= 20000 * ok + total)
      && (bar == Uptime(10000) <==> total > 0 && 20000 * (total - ok) <= total)
  {
    BarIsRightIff(es, m, day, now);
    ChecksCounted(Recorded(es), m, day);
    BarIsRounded(|Passed(Recorded(es), m, day)|, |Checks(Recorded(es), m, day)|);
  }
}
