/** Whole runs of the alert pipeline: workers, sweepers and users interleaved one transaction at a time. */
module AlertRuns {
  import opened Common
  import opened Alerting

  /** The tables, and for every notifier replica the scanned items it has not handled yet. */
  datatype Sys = Sys(db: Db, sweepers: map<nat, seq<nat>>)

  datatype Action =
    | Result(m: nat, ok: bool)                    // a worker commits ProcessResult
    | Scan(s: nat)                                // replica s runs the sweep's SELECT
    | Item(s: nat, commits: bool)                 // replica s handles its next item; false: rolled back
    | Configure(channels: seq<Channel>, routing: map<nat, set<nat>>, windows: seq<Window>)
    | SetDelay(monitor: nat, delaySeconds: nat)

  datatype Event = Event(now: Time, act: Action)

  function Step(sys: Sys, e: Event): Sys {
    match e.act
    case Result(m, ok) => sys.(db := Process(sys.db, m, ok, e.now))
    case Scan(s) =>
      if Pending(sys, s) != [] then sys
      else sys.(sweepers := sys.sweepers[s := Due(sys.db, e.now, |sys.db.incidents|)])
    case Item(s, commits) =>
      if Pending(sys, s) == [] then sys
      else
        var i := Pending(sys, s)[0];
        var popped := sys.(sweepers := sys.sweepers[s := Pending(sys, s)[1..]]);
        if commits && i < |sys.db.incidents| then popped.(db := Announce(sys.db, i, e.now)) else popped
    case Configure(channels, routing, windows) =>
      sys.(db := sys.db.(channels := channels, routing := routing, windows := windows))
    case SetDelay(m, d) =>
      if m !in sys.db.monitors then sys
      else sys.(db := sys.db.(monitors := sys.db.monitors[m := sys.db.monitors[m].(delaySeconds := d)]))
  }

  function Pending(sys: Sys, s: nat): seq<nat> {
    if s in sys.sweepers then sys.sweepers[s] else []
  }

  function Exec(sys: Sys, es: seq<Event>): Sys {
    if es == [] then sys else Step(Exec(sys, es[..|es| - 1]), es[|es| - 1])
  }

  lemma ExecAppend(sys: Sys, es: seq<Event>, e: Event)
    ensures Exec(sys, es + [e]) == Step(Exec(sys, es), e)
  {
    assert (es + [e])[..|es|] == es;
  }

  /** Monitors that were never checked, with any configuration. */
  ghost predicate Start(sys: Sys) {
    && sys.db.incidents == [] && sys.db.notes == [] && sys.sweepers == map[]
    && forall m | m in sys.db.monitors :: sys.db.monitors[m].status == Unknown && sys.db.monitors[m].fails == 0
  }

  ghost predicate Clocked(es: seq<Event>) {
    forall j, k | 0 <= j <= k < |es| :: es[j].now <= es[k].now
  }

  // ---- The result history of one monitor, and what it says on its own ----

  datatype Outcome = Outcome(ok: bool, at: Time)

  function History(es: seq<Event>, m: nat): seq<Outcome> {
    if es == [] then []
    else
      var e := es[|es| - 1];
      History(es[..|es| - 1], m) + if e.act.Result? && e.act.m == m then [Outcome(e.act.ok, e.now)] else []
  }

  /** Results a, a+1, ..., b-1 of a history. */
  datatype Run = Run(a: nat, b: nat)

  ghost predicate IsMaximalFailureRun(h: seq<Outcome>, r: Run) {
    && r.a < r.b <= |h|
    && (forall k | r.a <= k < r.b :: !h[k].ok)
    && (r.a == 0 || h[r.a - 1].ok)
    && (r.b == |h| || h[r.b].ok)
  }

  ghost predicate IsLongRun(h: seq<Outcome>, r: Run) {
    IsMaximalFailureRun(h, r) && r.b - r.a >= FAILURE_THRESHOLD
  }

  ghost predicate Ascending(rs: seq<Run>) {
    forall j, k | 0 <= j < k < |rs| :: rs[j].b <= rs[k].a
  }

  /** rs is, in order, exactly the maximal failure runs that reach the threshold. */
  ghost predicate ListsLongRuns(h: seq<Outcome>, rs: seq<Run>) {
    && Ascending(rs)
    && forall r: Run :: IsLongRun(h, r) <==> r in rs
  }

  function TrailingFails(h: seq<Outcome>): (t: nat)
    ensures t <= |h|
  {
    if h == [] || h[|h| - 1].ok then 0 else TrailingFails(h[..|h| - 1]) + 1
  }

  /** The trailing failures are failures, and no longer run ends the history. */
  lemma {:induction false} TrailingFailsMaximal(h: seq<Outcome>)
    ensures forall k | |h| - TrailingFails(h) <= k < |h| :: !h[k].ok
    ensures TrailingFails(h) == |h| || h[|h| - TrailingFails(h) - 1].ok
  {
    if h != [] && !h[|h| - 1].ok {
      TrailingFailsMaximal(h[..|h| - 1]);
    }
  }

  function StatusOf(h: seq<Outcome>): Status {
    if TrailingFails(h) >= FAILURE_THRESHOLD then Down
    else if exists k | 0 <= k < |h| :: h[k].ok then Up
    else Unknown
  }

  /** When an incident started and ended. */
  datatype Span = Span(from: Time, to: Option<Time>)

  /** The incident a long run stands for: opened by its second failure, closed by the success after it. */
  function SpanOfRun(h: seq<Outcome>, r: Run): Span
    requires r.a + 1 < r.b <= |h|
  {
    Span(h[r.a + 1].at, if r.b < |h| then Some(h[r.b].at) else None)
  }

  function SpansOf(incidents: seq<Incident>, m: nat): seq<Span> {
    if incidents == [] then []
    else
      var inc := incidents[|incidents| - 1];
      SpansOf(incidents[..|incidents| - 1], m)
      + if inc.monitor == m then [Span(inc.startedAt, inc.resolvedAt)] else []
  }

  function RunSpans(h: seq<Outcome>, rs: seq<Run>): seq<Span>
    requires forall k | 0 <= k < |rs| :: rs[k].a + 1 < rs[k].b <= |h|
  {
    seq(|rs|, k requires 0 <= k < |rs| => SpanOfRun(h, rs[k]))
  }

  function ExtendRuns(h: seq<Outcome>, rs: seq<Run>, o: Outcome): seq<Run> {
    var t := TrailingFails(h);
    if o.ok || t == 0 then rs
    else if t == 1 then rs + [Run(|h| - 1, |h| + 1)]
    else if rs == [] then rs
    else rs[..|rs| - 1] + [Run(rs[|rs| - 1].a, |h| + 1)]
  }

  function LongRuns(h: seq<Outcome>): seq<Run> {
    if h == [] then [] else ExtendRuns(h[..|h| - 1], LongRuns(h[..|h| - 1]), h[|h| - 1])
  }

  /** A run that ends before the last result is a maximal run with or without it. */
  lemma RunsBelow(h: seq<Outcome>, r: Run)
    requires h != [] && r.b < |h| - 1
    ensures IsMaximalFailureRun(h, r) <==> IsMaximalFailureRun(h[..|h| - 1], r)
  {
    var p := h[..|h| - 1];
    assert forall k | 0 <= k < |p| :: p[k] == h[k];
  }

  /** The only maximal run that reaches the end of a history is its trailing one. */
  lemma RunAtEnd(h: seq<Outcome>, r: Run)
    requires r.b == |h|
    ensures IsMaximalFailureRun(h, r) <==> TrailingFails(h) > 0 && r.a == |h| - TrailingFails(h)
  {
    TrailingFailsMaximal(h);
    var start := |h| - TrailingFails(h);
    assert start > 0 ==> h[start - 1].ok;
    assert 0 < r.a <= |h| && r.a - 1 >= start ==> !h[r.a - 1].ok;
  }

  /** How one more result changes the set of long runs. */
  lemma LongRunStep(h: seq<Outcome>, r: Run)
    requires h != []
    ensures var n, p := |h| - 1, h[..|h| - 1];
      IsLongRun(h, r) <==>
        if h[n].ok || TrailingFails(p) == 0 then IsLongRun(p, r)
        else (IsLongRun(p, r) && r.b < n) || r == Run(n - TrailingFails(p), n + 1)
  {
    var n, p := |h| - 1, h[..|h| - 1];
    if r.b < n {
      RunsBelow(h, r);
    } else if r.b == n {
      RunAtEnd(p, r);
      if IsMaximalFailureRun(h, r) {
        assert h[n].ok;
      }
      assert forall k | 0 <= k < n :: p[k] == h[k];
    } else if r.b == |h| {
      RunAtEnd(h, r);
    }
  }

  /** Only the last of ascending runs can end at n. */
  lemma OnlyLastEndsAt(rs: seq<Run>, n: nat, r: Run)
    requires rs != [] && Ascending(rs) && rs[|rs| - 1].a < rs[|rs| - 1].b == n
    ensures r in rs && r.b < n <==> r in rs[..|rs| - 1]
  {
    var last := |rs| - 1;
    assert forall k | 0 <= k < last :: rs[k].b <= rs[last].a;
    if r in rs && r.b < n {
      var k :| 0 <= k < |rs| && rs[k] == r;
      assert rs[..last][k] == r;
    }
  }

  /** A single trailing failure is no long run, nor the end of one. */
  lemma RunsEndBefore(p: seq<Outcome>)
    requires p != [] && ListsLongRuns(p, LongRuns(p)) && TrailingFails(p) == 1
    ensures forall k | 0 <= k < |LongRuns(p)| :: LongRuns(p)[k].b <= |p| - 1
  {
    var rs := LongRuns(p);
    forall k | 0 <= k < |rs|
      ensures rs[k].b <= |p| - 1
    {
      assert rs[k] in rs;
      if rs[k].b == |p| { RunAtEnd(p, rs[k]); }
    }
  }

  lemma ExtendedMembers(p: seq<Outcome>, rs: seq<Run>, o: Outcome, r: Run)
    requires TrailingFails(p) >= FAILURE_THRESHOLD ==> rs != []
    ensures var t := TrailingFails(p);
      r in ExtendRuns(p, rs, o) <==>
        if o.ok || t == 0 then r in rs
        else if t == 1 then r in rs || r == Run(|p| - 1, |p| + 1)
        else r in rs[..|rs| - 1] || r == Run(rs[|rs| - 1].a, |p| + 1)
  {
  }

  /** One trailing failure: no long run ends there. */
  lemma LongRunsBefore(p: seq<Outcome>, r: Run)
    requires TrailingFails(p) == 1 && IsLongRun(p, r)
    ensures r.b < |p|
  {
    if r.b == |p| { RunAtEnd(p, r); }
  }

  lemma LongRunsListedStep(p: seq<Outcome>, rs: seq<Run>, o: Outcome, r: Run)
    requires Ascending(rs) && (IsLongRun(p, r) <==> r in rs)
    requires TrailingFails(p) >= FAILURE_THRESHOLD ==> rs != [] && rs[|rs| - 1] == Run(|p| - TrailingFails(p), |p|)
    ensures IsLongRun(p + [o], r) <==> r in ExtendRuns(p, rs, o)
  {
    var n, t := |p|, TrailingFails(p);
    assert (p + [o])[..n] == p && (p + [o])[n] == o;
    LongRunStep(p + [o], r);
    ExtendedMembers(p, rs, o, r);
    if t == 1 && IsLongRun(p, r) { LongRunsBefore(p, r); }
    if t >= 2 { OnlyLastEndsAt(rs, n, r); }
  }

  lemma {:induction false} LongRunsListed(h: seq<Outcome>)
    ensures ListsLongRuns(h, LongRuns(h))
    ensures TrailingFails(h) >= FAILURE_THRESHOLD ==>
      LongRuns(h) != [] && LongRuns(h)[|LongRuns(h)| - 1] == Run(|h| - TrailingFails(h), |h|)
  {
    if h != [] {
      var n, p := |h| - 1, h[..|h| - 1];
      var t, rs := TrailingFails(p), LongRuns(p);
      LongRunsListed(p);
      forall r ensures IsLongRun(h, r) <==> r in LongRuns(h) {
        assert h == p + [h[n]];
        LongRunsListedStep(p, rs, h[n], r);
      }
      if !h[n].ok && t == 1 { RunsEndBefore(p); }
    }
  }

  // ---- The closed form ----

  lemma LongRunsInRange(h: seq<Outcome>)
    ensures forall k | 0 <= k < |LongRuns(h)| :: LongRuns(h)[k].a + 1 < LongRuns(h)[k].b <= |h|
  {
    LongRunsListed(h);
    assert forall k | 0 <= k < |LongRuns(h)| :: LongRuns(h)[k] in LongRuns(h);
  }

  function IncidentSpans(h: seq<Outcome>): seq<Span> {
    LongRunsInRange(h);
    RunSpans(h, LongRuns(h))
  }

  function Closed(spans: seq<Span>, now: Time): seq<Span> {
    seq(|spans|, k requires 0 <= k < |spans| => if spans[k].to.None? then Span(spans[k].from, Some(now)) else spans[k])
  }

  /** Only the last long run can reach the end of the history, and it does when the trailing run is long. */
  lemma RunReachesEnd(h: seq<Outcome>, k: nat)
    requires k < |LongRuns(h)|
    ensures LongRuns(h)[k].b == |h| <==> TrailingFails(h) >= FAILURE_THRESHOLD && k == |LongRuns(h)| - 1
    ensures TrailingFails(h) >= FAILURE_THRESHOLD && k == |LongRuns(h)| - 1 ==>
      LongRuns(h)[k].a == |h| - TrailingFails(h)
  {
    LongRunsListed(h);
    assert LongRuns(h)[k] in LongRuns(h);
    if LongRuns(h)[k].b == |h| { RunAtEnd(h, LongRuns(h)[k]); }
  }

  /** How the span of a run reads once one more result is known. */
  lemma SpanGrows(h: seq<Outcome>, o: Outcome, r: Run)
    requires r.a + 1 < r.b <= |h|
    ensures SpanOfRun(h + [o], r) == (if r.b < |h| then SpanOfRun(h, r) else Span(h[r.a + 1].at, Some(o.at)))
    ensures r.b == |h| ==> SpanOfRun(h + [o], Run(r.a, |h| + 1)) == SpanOfRun(h, r)
  {
  }

  lemma LongRunsExtend(h: seq<Outcome>, o: Outcome)
    ensures LongRuns(h + [o]) == ExtendRuns(h, LongRuns(h), o)
  {
    assert (h + [o])[..|h|] == h;
  }

  lemma IncidentSpansAfterSuccess(h: seq<Outcome>, o: Outcome)
    requires o.ok
    ensures IncidentSpans(h + [o]) ==
      if TrailingFails(h) >= FAILURE_THRESHOLD then Closed(IncidentSpans(h), o.at) else IncidentSpans(h)
  {
    LongRunsExtend(h, o);
    LongRunsInRange(h);
    forall k | 0 <= k < |LongRuns(h)|
      ensures IncidentSpans(h + [o])[k] ==
        if TrailingFails(h) >= FAILURE_THRESHOLD then Closed(IncidentSpans(h), o.at)[k] else IncidentSpans(h)[k]
    {
      RunReachesEnd(h, k);
      SpanGrows(h, o, LongRuns(h)[k]);
    }
  }

  lemma IncidentSpansAfterFailure(h: seq<Outcome>, o: Outcome)
    requires !o.ok
    ensures IncidentSpans(h + [o]) ==
      if TrailingFails(h) == 1 then IncidentSpans(h) + [Span(o.at, None)] else IncidentSpans(h)
  {
    LongRunsExtend(h, o);
    LongRunsInRange(h);
    LongRunsInRange(h + [o]);
    var rs, last := LongRuns(h), |LongRuns(h)| - 1;
    assert TrailingFails(h) >= FAILURE_THRESHOLD ==> rs != [] by {
      LongRunsListed(h);
    }
    forall k | 0 <= k < |rs|
      ensures IncidentSpans(h + [o])[k] == IncidentSpans(h)[k]
    {
      RunReachesEnd(h, k);
      SpanGrows(h, o, rs[k]);
    }
  }

  lemma {:induction false} SpansOfResolve(incidents: seq<Incident>, m: nat, who: nat, now: Time)
    ensures SpansOf(Resolve(incidents, who, now), m) ==
      if m == who then Closed(SpansOf(incidents, m), now) else SpansOf(incidents, m)
  {
    if incidents != [] {
      var n := |incidents| - 1;
      SpansOfResolve(incidents[..n], m, who, now);
      assert Resolve(incidents, who, now)[..n] == Resolve(incidents[..n], who, now);
    }
  }

  /** Setting notified_at does not move a span. */
  lemma {:induction false} SpansOfNotified(incidents: seq<Incident>, m: nat, i: nat, at: Option<Time>)
    requires i < |incidents|
    ensures SpansOf(incidents[i := incidents[i].(notifiedAt := at)], m) == SpansOf(incidents, m)
  {
    var n := |incidents| - 1;
    var after := incidents[i := incidents[i].(notifiedAt := at)];
    if i < n {
      SpansOfNotified(incidents[..n], m, i, at);
      assert after[..n] == incidents[..n][i := incidents[i].(notifiedAt := at)];
    } else {
      assert after[..n] == incidents[..n];
    }
  }

  /** The monitor's row and incidents are what its own history determines. */
  ghost predicate ClosedForm(db: Db, m: nat, h: seq<Outcome>) {
    && m in db.monitors
    && db.monitors[m].fails == TrailingFails(h)
    && db.monitors[m].status == StatusOf(h)
    && SpansOf(db.incidents, m) == IncidentSpans(h)
  }

  lemma ProcessSpans(db: Db, m: nat, who: nat, ok: bool, now: Time)
    requires who in db.monitors
    ensures var mon, was := db.monitors[who], SpansOf(db.incidents, m);
      var now' := SpansOf(Process(db, who, ok, now).incidents, m);
      now' == if m != who then was
            else if ok && mon.status == Down then Closed(was, now)
            else if !ok && mon.fails + 1 >= FAILURE_THRESHOLD && mon.status != Down then was + [Span(now, None)]
            else was
  {
    var mon := db.monitors[who];
    var after := Process(db, who, ok, now).incidents;
    if ok && mon.status == Down {
      SpansOfResolve(db.incidents, m, who, now);
      if FirstOpen(db.incidents, who).None? {
        assert Resolve(db.incidents, who, now) == db.incidents;
      }
    } else if !ok && mon.fails + 1 >= FAILURE_THRESHOLD && mon.status != Down {
      assert after[..|db.incidents|] == db.incidents;
    }
  }

  lemma StatusOfHistory(h: seq<Outcome>, o: Outcome)
    ensures TrailingFails(h + [o]) == NextFails(TrailingFails(h), o.ok)
    ensures StatusOf(h + [o]) == NextStatus(StatusOf(h), TrailingFails(h), o.ok)
  {
    var h' := h + [o];
    assert h'[..|h|] == h && h'[|h|] == o;
    assert forall k | 0 <= k < |h| :: h'[k] == h[k];
    assert !o.ok && (exists k | 0 <= k < |h'| :: h'[k].ok) ==> exists k | 0 <= k < |h| :: h[k].ok;
  }

  lemma ClosedFormResult(db: Db, m: nat, h: seq<Outcome>, ok: bool, now: Time)
    requires ClosedForm(db, m, h)
    ensures ClosedForm(Process(db, m, ok, now), m, h + [Outcome(ok, now)])
  {
    StatusOfHistory(h, Outcome(ok, now));
    ClosedFormSpans(db, m, h, ok, now);
  }

  lemma ClosedFormSpans(db: Db, m: nat, h: seq<Outcome>, ok: bool, now: Time)
    requires ClosedForm(db, m, h)
    ensures SpansOf(Process(db, m, ok, now).incidents, m) == IncidentSpans(h + [Outcome(ok, now)])
  {
    ProcessSpans(db, m, m, ok, now);
    if ok {
      IncidentSpansAfterSuccess(h, Outcome(ok, now));
    } else {
      IncidentSpansAfterFailure(h, Outcome(ok, now));
    }
  }

  /** No step of the pipeline but the monitor's own results moves its row or its spans. */
  lemma OthersKeepClosedForm(sys: Sys, e: Event, m: nat, h: seq<Outcome>)
    requires ClosedForm(sys.db, m, h)
    requires !(e.act.Result? && e.act.m == m)
    ensures ClosedForm(Step(sys, e).db, m, h)
  {
    match e.act
    case Result(who, ok) =>
      if who in sys.db.monitors { ProcessSpans(sys.db, m, who, ok, e.now); }
    case Item(s, commits) =>
      if Pending(sys, s) != [] && commits && Pending(sys, s)[0] < |sys.db.incidents| {
        SpansOfNotified(sys.db.incidents, m, Pending(sys, s)[0], Some(e.now));
      }
    case _ =>
  }

  /**
   * Whatever else happens in between, a monitor's failure counter is the length of its trailing
   * failure run, it is down exactly when that run reaches the threshold, and its incidents are, in
   * order and one for one, its maximal failure runs of at least that length.
   */
  lemma {:induction false} HistoryDeterminesIncidents(start: Sys, es: seq<Event>, m: nat)
    requires Start(start) && m in start.db.monitors
    ensures ClosedForm(Exec(start, es).db, m, History(es, m))
  {
    if es != [] {
      var before, e := es[..|es| - 1], es[|es| - 1];
      HistoryDeterminesIncidents(start, before, m);
      if e.act.Result? && e.act.m == m {
        ClosedFormResult(Exec(start, before).db, m, History(before, m), e.act.ok, e.now);
      } else {
        OthersKeepClosedForm(Exec(start, before), e, m, History(before, m));
        assert History(es, m) == History(before, m);
      }
    }
  }

  // ---- Consequences: one open incident, and incidents that never overlap ----

  ghost predicate OneOpenIfDown(db: Db, m: nat) {
    && m in db.monitors
    && (if db.monitors[m].status == Down then exists i: nat :: OpenSet(db.incidents, m) == {i}
        else OpenSet(db.incidents, m) == {})
  }

  lemma OpenSetAfterOpen(db: Db, m: nat, who: nat, now: Time)
    requires who in db.monitors
    ensures OpenSet(OpenIncident(db, who, now).incidents, m)
         == OpenSet(db.incidents, m) + if m == who then {|db.incidents|} else {}
  {
    var after := OpenIncident(db, who, now).incidents;
    assert forall i | 0 <= i < |db.incidents| :: after[i] == db.incidents[i];
  }

  lemma OpenSetAfterClose(db: Db, m: nat, who: nat, now: Time)
    requires who in db.monitors
    ensures OpenSet(CloseIncident(db, who, now).incidents, m) == if m == who then {} else OpenSet(db.incidents, m)
  {
    var after := CloseIncident(db, who, now).incidents;
    assert |after| == |db.incidents|;
    forall i: nat | i < |after|
      ensures IsOpen(after, m, i) <==> m != who && IsOpen(db.incidents, m, i)
    {
      if FirstOpen(db.incidents, who).None? {
        assert !IsOpen(db.incidents, who, i);
      }
    }
  }

  lemma OneOpenAfterResult(db: Db, m: nat, who: nat, ok: bool, now: Time)
    requires OneOpenIfDown(db, m) && who in db.monitors
    ensures OneOpenIfDown(Process(db, who, ok, now), m)
  {
    var stamped := db.(monitors := Process(db, who, ok, now).monitors);
    OpenSetAfterOpen(stamped, m, who, now);
    OpenSetAfterClose(stamped, m, who, now);
    assert {|db.incidents|} == {} + {|db.incidents|};
  }

  lemma OneOpenStep(sys: Sys, e: Event, m: nat)
    requires OneOpenIfDown(sys.db, m)
    ensures OneOpenIfDown(Step(sys, e).db, m)
  {
    var db, after := sys.db, Step(sys, e).db;
    match e.act
    case Result(who, ok) =>
      if who in db.monitors { OneOpenAfterResult(db, m, who, ok, e.now); }
    case Item(s, commits) =>
      assert OpenSet(after.incidents, m) == OpenSet(db.incidents, m);
    case _ =>
  }

  /** In every reachable state a monitor is down exactly when it has an open incident, and never has two. */
  lemma {:induction false} DownMeansOneOpenIncident(start: Sys, es: seq<Event>, m: nat)
    requires Start(start) && m in start.db.monitors
    ensures OneOpenIfDown(Exec(start, es).db, m)
  {
    if es != [] {
      DownMeansOneOpenIncident(start, es[..|es| - 1], m);
      OneOpenStep(Exec(start, es[..|es| - 1]), es[|es| - 1], m);
    }
  }

  predicate Precedes(a: Span, b: Span) {
    a.to.Some? && a.to.value <= b.from
  }

  /** Closed intervals in order of time, of which only the last may be unfinished. */
  ghost predicate Separated(spans: seq<Span>) {
    && (forall k | 0 <= k < |spans| :: spans[k].to.Some? ==> spans[k].from <= spans[k].to.value)
    && (forall j, k | 0 <= j < k < |spans| :: Precedes(spans[j], spans[k]))
  }

  lemma {:induction false} HistoryClocked(es: seq<Event>, m: nat)
    requires Clocked(es)
    ensures forall j, k | 0 <= j <= k < |History(es, m)| :: History(es, m)[j].at <= History(es, m)[k].at
    ensures forall k | 0 <= k < |History(es, m)| :: History(es, m)[k].at <= es[|es| - 1].now
  {
    if es != [] {
      HistoryClocked(es[..|es| - 1], m);
    }
  }

  lemma SpanEnds(h: seq<Outcome>, j: nat, k: nat)
    requires j < k < |IncidentSpans(h)|
    requires forall x, y | 0 <= x <= y < |h| :: h[x].at <= h[y].at
    ensures Precedes(IncidentSpans(h)[j], IncidentSpans(h)[k])
  {
    var rs := LongRuns(h);
    LongRunsInRange(h);
    assert rs[j].b <= rs[k].a by { LongRunsListed(h); }
    assert h[rs[j].b].at <= h[rs[k].a + 1].at;
  }

  /** On a clock that does not run backwards, the incidents of one monitor never overlap. */
  lemma IncidentsNeverOverlap(start: Sys, es: seq<Event>, m: nat)
    requires Start(start) && m in start.db.monitors && Clocked(es)
    ensures Separated(SpansOf(Exec(start, es).db.incidents, m))
  {
    var h, spans := History(es, m), SpansOf(Exec(start, es).db.incidents, m);
    HistoryDeterminesIncidents(start, es, m);
    assert spans == IncidentSpans(h);
    HistoryClocked(es, m);
    LongRunsInRange(h);
    forall j, k | 0 <= j < k < |spans|
      ensures Precedes(spans[j], spans[k])
    {
      SpanEnds(h, j, k);
    }
  }
}
