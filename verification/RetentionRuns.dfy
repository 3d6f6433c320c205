/**
 * apps/retention/cmd/retention/main.go over time: inserts, the statements of the rollups, and the prunes that
 * follow them, each with a clock of its own. The daily table must keep agreeing with raw rows long gone.
 */
module RetentionRuns {
  import opened Common
  import opened Alerting
  import opened Downtime
  import opened Retention

  /** summed: a rollup is under way and its aggregation ran on that date. */
  datatype State = State(raw: seq<CheckResult>, daily: Daily, last: Option<int>, summed: Option<int>)

  datatype Event =
    | Record(r: CheckResult)                                       // stamped with the time it is inserted
    | SumUp(now: Time, fails: bool)                                 // the aggregation
    | TimeDays(now: Time, incidents: seq<Incident>, fails: bool)   // the downtime statement
    | Mark(now: Time, fails: bool)                                 // UPDATE ... SET last_rollup_day = CURRENT_DATE - 1
    | PruneBatch(now: Time, retentionDays: map<nat, nat>, gone: set<CheckResult>)

  function TimeOf(e: Event): Time {
    match e
    case Record(r) => r.at
    case SumUp(now, _) => now
    case TimeDays(now, _, _) => now
    case Mark(now, _) => now
    case PruneBatch(now, _, _) => now
  }

  /** The downtime and marker statements only come after an aggregation that went well. */
  function Step(st: State, e: Event): State {
    match e
    case Record(r) => st.(raw := st.raw + [r])
    case SumUp(now, fails) =>
      if fails then st.(summed := None)
      else st.(daily := Upserted(st.daily, st.raw, Groups(st.last, st.raw, DayOf(now))), summed := Some(DayOf(now)))
    case TimeDays(now, incidents, fails) =>
      if st.summed.None? || fails then st else st.(daily := WithDowntime(st.daily, incidents, now))
    case Mark(now, fails) =>
      if st.summed.None? || fails then st.(summed := None) else st.(last := Some(DayOf(now) - 1), summed := None)
    case PruneBatch(_, _, gone) => st.(raw := Without(st.raw, gone))
  }

  function Exec(es: seq<Event>): State {
    if es == [] then State([], map[], None, None) else Step(Exec(es[..|es| - 1]), es[|es| - 1])
  }

  function Appended(recorded: seq<CheckResult>, e: Event): seq<CheckResult> {
    if e.Record? then recorded + [e.r] else recorded
  }

  /** Every row ever recorded, pruned or not. */
  function Recorded(es: seq<Event>): seq<CheckResult> {
    if es == [] then [] else Appended(Recorded(es[..|es| - 1]), es[|es| - 1])
  }

  ghost predicate Clocked(es: seq<Event>) {
    forall j, k | 0 <= j <= k < |es| :: TimeOf(es[j]) <= TimeOf(es[k])
  }

  /** A DELETE takes rows that are there and past their tenant's window. */
  ghost predicate Legal(st: State, e: Event) {
    e.PruneBatch? ==> e.gone <= ExpiredRows(st.raw, e.retentionDays, e.now)
  }

  ghost predicate LegalRun(es: seq<Event>) {
    Clocked(es) && forall k | 0 <= k < |es| :: Legal(Exec(es[..k]), es[k])
  }

  lemma LegalRunPrefix(es: seq<Event>)
    requires es != [] && LegalRun(es)
    ensures LegalRun(es[..|es| - 1]) && Legal(Exec(es[..|es| - 1]), es[|es| - 1])
    ensures |es| > 1 ==> TimeOf(es[|es| - 2]) <= TimeOf(es[|es| - 1])
  {
    var before := es[..|es| - 1];
    assert forall k | 0 <= k < |before| :: before[..k] == es[..k];
  }

  lemma LastStep(es: seq<Event>)
    requires es != []
    ensures Exec(es) == Step(Exec(es[..|es| - 1]), es[|es| - 1])
    ensures Recorded(es) == Appended(Recorded(es[..|es| - 1]), es[|es| - 1])
  {
  }

  // ---- What the tables are meant to keep ----

  /** The marker says the day has been rolled up. */
  predicate IsDone(last: Option<int>, day: int) { last.Some? && day <= last.value }

  /** What a reader of the table relies on: a summary that is there is right, and a done day with rows has one. */
  ghost predicate RightDay(st: State, recorded: seq<CheckResult>, m: nat, day: int) {
    var rows := RowsOf(recorded, m, day);
    RightFor(st, m, day, rows, AggregateOf(rows))
  }

  ghost predicate RightFor(st: State, m: nat, day: int, rows: seq<CheckResult>, figures: Aggregate) {
    && ((m, day) in st.daily ==> rows != [] && st.daily[(m, day)].figures == figures)
    && (IsDone(st.last, day) && rows != [] ==> (m, day) in st.daily)
  }

  ghost predicate Right(st: State, recorded: seq<CheckResult>) {
    forall m: nat, day: int :: RightDay(st, recorded, m, day)
  }

  /** And until the day is done, either all its rows are still there, or none is and the table has it already. */
  ghost predicate FaithfulDay(st: State, recorded: seq<CheckResult>, m: nat, day: int) {
    var rows := RowsOf(recorded, m, day);
    FaithfulFor(st, m, day, rows, AggregateOf(rows))
  }

  ghost predicate FaithfulFor(st: State, m: nat, day: int, rows: seq<CheckResult>, figures: Aggregate) {
    && RightFor(st, m, day, rows, figures)
    && (!IsDone(st.last, day) ==>
          || RowsOf(st.raw, m, day) == rows
          || ((m, day) in st.daily && RowsOf(st.raw, m, day) == []))
  }

  /** While a rollup is under way, every day its aggregation covered is in the table. */
  ghost predicate SummedUp(st: State, recorded: seq<CheckResult>, m: nat, day: int) {
    SummedFor(st, m, day, RowsOf(recorded, m, day))
  }

  ghost predicate SummedFor(st: State, m: nat, day: int, rows: seq<CheckResult>) {
    st.summed.Some? && day < st.summed.value && rows != [] ==> (m, day) in st.daily
  }

  ghost predicate OnlyBefore(daily: Daily, day: int) { forall k | k in daily :: k.1 < day }

  /** Nothing recorded lies in the future, nothing of today is summed up, and a rollup under way is past the marker. */
  ghost predicate UpToDate(st: State, recorded: seq<CheckResult>, clock: Time) {
    && (st.last.Some? ==> st.last.value < DayOf(clock))
    && OnlyBefore(st.daily, DayOf(clock))
    && (forall r | r in recorded :: r.at <= clock)
    && (forall r | r in st.raw :: r in recorded)
    && (st.summed.Some? ==>
          && st.summed.value <= DayOf(clock) && OnlyBefore(st.daily, st.summed.value)
          && (st.last.Some? ==> st.last.value < st.summed.value))
  }

  // ---- Rows of one day ----

  predicate Of(r: CheckResult, m: nat, day: int) { r.monitor == m && DayOf(r.at) == day }

  lemma {:induction false} RowsOfMembers(rows: seq<CheckResult>, m: nat, day: int, r: CheckResult)
    ensures r in RowsOf(rows, m, day) <==> r in rows && Of(r, m, day)
  {
    if rows != [] {
      var n := |rows| - 1;
      assert rows == rows[..n] + [rows[n]];
      RowsOfMembers(rows[..n], m, day, r);
    }
  }

  lemma RowsOfAppend(rows: seq<CheckResult>, r: CheckResult, m: nat, day: int)
    ensures RowsOf(rows + [r], m, day) == if Of(r, m, day) then RowsOf(rows, m, day) + [r] else RowsOf(rows, m, day)
  {
    assert (rows + [r])[..|rows|] == rows;
  }

  /** Deleting rows of other days changes nothing for this one. */
  lemma {:induction false} RowsOfWithout(rows: seq<CheckResult>, gone: set<CheckResult>, m: nat, day: int)
    requires forall r | r in gone :: !Of(r, m, day)
    ensures RowsOf(Without(rows, gone), m, day) == RowsOf(rows, m, day)
  {
    if rows != [] {
      var n := |rows| - 1;
      RowsOfWithout(rows[..n], gone, m, day);
      if rows[n] in gone {
        assert Without(rows, gone) == Without(rows[..n], gone);
      } else {
        RowsOfAppend(Without(rows[..n], gone), rows[n], m, day);
      }
    }
  }

  lemma {:induction false} KeysHaveRows(rows: seq<CheckResult>, from: int, today: int, m: nat, day: int)
    ensures (m, day) in Keys(rows, from, today) <==> from <= day < today && RowsOf(rows, m, day) != []
  {
    if rows != [] { KeysHaveRows(rows[..|rows| - 1], from, today, m, day); }
  }

  lemma FirstDayCovers(rows: seq<CheckResult>, m: nat, day: int)
    ensures RowsOf(rows, m, day) != [] ==> rows != [] && FirstDay(rows) <= day
  {
    var found := RowsOf(rows, m, day);
    if found != [] {
      RowsOfMembers(rows, m, day, found[0]);
      FirstDayIsLeast(rows);
    }
  }

  lemma GroupsHaveRows(last: Option<int>, rows: seq<CheckResult>, m: nat, day: int, today: int)
    ensures (m, day) in Groups(last, rows, today) <==> !IsDone(last, day) && day < today && RowsOf(rows, m, day) != []
  {
    KeysHaveRows(rows, StartDay(last, rows, today), today, m, day);
    FirstDayCovers(rows, m, day);
  }

  /**
   * An aggregation takes only days over and not done, all of whose rows are there; and every such day with
   * rows is taken, or in the table already.
   */
  lemma GroupsMissNothing(st: State, recorded: seq<CheckResult>, m: nat, day: int, today: int)
    requires FaithfulDay(st, recorded, m, day)
    ensures (m, day) in Groups(st.last, st.raw, today) ==>
      !IsDone(st.last, day) && day < today && RowsOf(st.raw, m, day) == RowsOf(recorded, m, day) != []
    ensures !IsDone(st.last, day) && day < today && RowsOf(recorded, m, day) != [] ==>
      (m, day) in Groups(st.last, st.raw, today) || (m, day) in st.daily
  {
    GroupsHaveRows(st.last, st.raw, m, day, today);
  }

  lemma GroupsBefore(last: Option<int>, rows: seq<CheckResult>, today: int, m: nat, day: int)
    requires (m, day) in Groups(last, rows, today)
    ensures day < today && !IsDone(last, day)
  {
    GroupsHaveRows(last, rows, m, day, today);
  }

  // ---- The clocks alone keep the tables up to date ----

  lemma UpsertedBefore(st: State, today: int, day: int)
    requires OnlyBefore(st.daily, day) && day <= today
    ensures OnlyBefore(Upserted(st.daily, st.raw, Groups(st.last, st.raw, today)), today)
  {
    var groups := Groups(st.last, st.raw, today);
    forall k | k in Upserted(st.daily, st.raw, groups)
      ensures k.1 < today
    {
      if k in groups { GroupsBefore(st.last, st.raw, today, k.0, k.1); }
    }
  }

  lemma LaterIsUpToDate(st: State, recorded: seq<CheckResult>, clock: Time, now: Time)
    requires UpToDate(st, recorded, clock) && clock <= now
    ensures UpToDate(st, recorded, now)
  {
  }

  lemma UpToDateStep(st: State, recorded: seq<CheckResult>, e: Event, clock: Time)
    requires UpToDate(st, recorded, clock) && clock <= TimeOf(e)
    ensures UpToDate(Step(st, e), Appended(recorded, e), TimeOf(e))
  {
    LaterIsUpToDate(st, recorded, clock, TimeOf(e));
    match e
    case Record(_) =>
    case SumUp(now, _) => UpsertedBefore(st, DayOf(now), DayOf(clock));
    case TimeDays(_, _, _) =>
    case Mark(_, _) =>
    case PruneBatch(_, _, gone) =>
      forall r | r in Step(st, e).raw ensures r in recorded {
        WithoutMembers(st.raw, gone, r);
      }
  }

  lemma {:induction false} EveryRunIsUpToDate(es: seq<Event>, now: Time)
    requires Clocked(es) && (es != [] ==> TimeOf(es[|es| - 1]) <= now)
    ensures UpToDate(Exec(es), Recorded(es), now)
  {
    if es != [] {
      var before, e := es[..|es| - 1], es[|es| - 1];
      EveryRunIsUpToDate(before, TimeOf(e));
      UpToDateStep(Exec(before), Recorded(before), e, TimeOf(e));
      LastStep(es);
      LaterIsUpToDate(Exec(es), Recorded(es), TimeOf(e), now);
    }
  }

  // ---- The exact condition ----

  /**
   * What a statement must heed. A marker must not pass a day that has rows and that the aggregation before it
   * still took for today or later: it is set before midnight, or nothing was recorded since. A prune must
   * take rows of done days, or else of days in the table of which it leaves none.
   */
  ghost predicate Keeps(st: State, e: Event) {
    match e
    case Mark(now, fails) =>
      !fails && st.summed.Some? ==> forall r | r in st.raw :: !(st.summed.value <= DayOf(r.at) < DayOf(now))
    case PruneBatch(_, _, gone) => forall r | r in gone :: MayGo(st, gone, r)
    case _ => true
  }

  predicate MayGo(st: State, gone: set<CheckResult>, r: CheckResult) {
    var day := DayOf(r.at);
    || IsDone(st.last, day)
    || ((r.monitor, day) in st.daily && RowsOf(Without(st.raw, gone), r.monitor, day) == [])
  }

  /** Whatever the table or the markers cover is over. */
  predicate Covered(st: State, m: nat, day: int) {
    (m, day) in st.daily || IsDone(st.last, day) || (st.summed.Some? && day < st.summed.value)
  }

  lemma CoveredIsOver(st: State, recorded: seq<CheckResult>, clock: Time, now: Time, m: nat, day: int)
    requires UpToDate(st, recorded, clock) && clock <= now && Covered(st, m, day)
    ensures day < DayOf(now)
  {
  }

  lemma SummedIsDue(st: State, recorded: seq<CheckResult>, clock: Time, now: Time)
    requires UpToDate(st, recorded, clock) && clock <= now
    ensures st.summed.Some? ==>
      st.summed.value <= DayOf(now) && !IsDone(st.last, st.summed.value) && OnlyBefore(st.daily, st.summed.value)
  {
  }

  lemma RecordKeepsFaith(st: State, recorded: seq<CheckResult>, r: CheckResult, m: nat, day: int)
    requires Covered(st, m, day) ==> day < DayOf(r.at)
    requires FaithfulDay(st, recorded, m, day) && SummedUp(st, recorded, m, day)
    ensures FaithfulDay(st.(raw := st.raw + [r]), recorded + [r], m, day)
    ensures SummedUp(st.(raw := st.raw + [r]), recorded + [r], m, day)
  {
    RowsOfAppend(recorded, r, m, day);
    RowsOfAppend(st.raw, r, m, day);
  }

  lemma SumUpKeepsFaith(st: State, recorded: seq<CheckResult>, now: Time, clock: Time, m: nat, day: int)
    requires UpToDate(st, recorded, clock) && clock <= now
    requires FaithfulDay(st, recorded, m, day)
    ensures FaithfulDay(Step(st, SumUp(now, false)), recorded, m, day)
    ensures SummedUp(Step(st, SumUp(now, false)), recorded, m, day)
  {
    GroupsMissNothing(st, recorded, m, day, DayOf(now));
  }

  // The other steps record nothing, and leave the day as it is whatever its rows and figures are.

  lemma FailedSumUpKeepsFaith(st: State, now: Time, m: nat, day: int, rows: seq<CheckResult>, figures: Aggregate)
    requires FaithfulFor(st, m, day, rows, figures)
    ensures var after := Step(st, SumUp(now, true));
      FaithfulFor(after, m, day, rows, figures) && SummedFor(after, m, day, rows)
  {
  }

  lemma TimeDaysKeepsFaith(st: State, e: Event, m: nat, day: int, rows: seq<CheckResult>, figures: Aggregate)
    requires e.TimeDays? && FaithfulFor(st, m, day, rows, figures) && SummedFor(st, m, day, rows)
    ensures FaithfulFor(Step(st, e), m, day, rows, figures) && SummedFor(Step(st, e), m, day, rows)
  {
  }

  lemma MarkKeepsFaith(st: State, e: Event, m: nat, day: int, rows: seq<CheckResult>, figures: Aggregate)
    requires e.Mark? && Keeps(st, e)
    requires st.summed.Some? ==>
      st.summed.value <= DayOf(e.now) && !IsDone(st.last, st.summed.value) && OnlyBefore(st.daily, st.summed.value)
    requires FaithfulFor(st, m, day, rows, figures) && SummedFor(st, m, day, rows)
    ensures FaithfulFor(Step(st, e), m, day, rows, figures) && SummedFor(Step(st, e), m, day, rows)
  {
    if !e.fails && st.summed.Some? && st.summed.value <= day < DayOf(e.now) {
      NoRowsBetween(st.raw, m, day, st.summed.value, DayOf(e.now));
    }
  }

  lemma NoRowsBetween(rows: seq<CheckResult>, m: nat, day: int, from: int, today: int)
    requires from <= day < today && forall r | r in rows :: !(from <= DayOf(r.at) < today)
    ensures RowsOf(rows, m, day) == []
  {
    var found := RowsOf(rows, m, day);
    if found != [] { RowsOfMembers(rows, m, day, found[0]); }
  }

  lemma PruneKeepsFaith(st: State, e: Event, m: nat, day: int, rows: seq<CheckResult>, figures: Aggregate)
    requires e.PruneBatch? && Keeps(st, e) && FaithfulFor(st, m, day, rows, figures) && SummedFor(st, m, day, rows)
    ensures FaithfulFor(Step(st, e), m, day, rows, figures) && SummedFor(Step(st, e), m, day, rows)
  {
    if r :| r in e.gone && Of(r, m, day) {
      assert MayGo(st, e.gone, r);
    } else {
      RowsOfWithout(st.raw, e.gone, m, day);
    }
  }

  lemma QuietStep(st: State, recorded: seq<CheckResult>, e: Event, clock: Time, m: nat, day: int,
                  rows: seq<CheckResult>, figures: Aggregate)
    requires UpToDate(st, recorded, clock) && clock <= TimeOf(e) && Keeps(st, e)
    requires !e.Record? && (e.SumUp? ==> e.fails)
    requires FaithfulFor(st, m, day, rows, figures) && SummedFor(st, m, day, rows)
    ensures FaithfulFor(Step(st, e), m, day, rows, figures) && SummedFor(Step(st, e), m, day, rows)
  {
    match e
    case SumUp(now, _) => FailedSumUpKeepsFaith(st, now, m, day, rows, figures);
    case TimeDays(_, _, _) => TimeDaysKeepsFaith(st, e, m, day, rows, figures);
    case Mark(now, _) =>
      SummedIsDue(st, recorded, clock, now);
      MarkKeepsFaith(st, e, m, day, rows, figures);
    case PruneBatch(_, _, _) => PruneKeepsFaith(st, e, m, day, rows, figures);
  }

  lemma FaithfulStep(st: State, recorded: seq<CheckResult>, e: Event, clock: Time, m: nat, day: int)
    requires UpToDate(st, recorded, clock) && clock <= TimeOf(e) && Keeps(st, e)
    requires FaithfulDay(st, recorded, m, day) && SummedUp(st, recorded, m, day)
    ensures FaithfulDay(Step(st, e), Appended(recorded, e), m, day)
    ensures SummedUp(Step(st, e), Appended(recorded, e), m, day)
  {
    if e.Record? {
      if Covered(st, m, day) { CoveredIsOver(st, recorded, clock, e.r.at, m, day); }
      RecordKeepsFaith(st, recorded, e.r, m, day);
    } else if e.SumUp? && !e.fails {
      SumUpKeepsFaith(st, recorded, e.now, clock, m, day);
    } else {
      var rows := RowsOf(recorded, m, day);
      QuietStep(st, recorded, e, clock, m, day, rows, AggregateOf(rows));
    }
  }

  /** A marker that passes a day with rows loses it: the day is done, has rows, and is not in the table. */
  lemma HastyMarkLosesTheDay(st: State, recorded: seq<CheckResult>, now: Time, clock: Time, r: CheckResult)
    requires UpToDate(st, recorded, clock) && st.summed.Some? && r in st.raw
    requires st.summed.value <= DayOf(r.at) < DayOf(now)
    ensures var after := Step(st, Mark(now, false));
      && IsDone(after.last, DayOf(r.at)) && RowsOf(recorded, r.monitor, DayOf(r.at)) != []
      && (r.monitor, DayOf(r.at)) !in after.daily
  {
    RowsOfMembers(recorded, r.monitor, DayOf(r.at), r);
  }

  ghost predicate KeepsThroughout(es: seq<Event>) {
    forall k | 0 <= k < |es| :: Keeps(Exec(es[..k]), es[k])
  }

  lemma KeepsPrefix(es: seq<Event>)
    requires es != [] && KeepsThroughout(es)
    ensures KeepsThroughout(es[..|es| - 1]) && Keeps(Exec(es[..|es| - 1]), es[|es| - 1])
  {
    var before := es[..|es| - 1];
    assert forall k | 0 <= k < |before| :: before[..k] == es[..k];
  }

  /** Under that condition, in every reachable state, every day is faithfully kept. */
  lemma {:induction false} EveryRunIsFaithful(es: seq<Event>, m: nat, day: int)
    requires Clocked(es) && KeepsThroughout(es)
    ensures FaithfulDay(Exec(es), Recorded(es), m, day) && SummedUp(Exec(es), Recorded(es), m, day)
  {
    if es != [] {
      var before, e := es[..|es| - 1], es[|es| - 1];
      KeepsPrefix(es);
      EveryRunIsFaithful(before, m, day);
      EveryRunIsUpToDate(before, TimeOf(e));
      FaithfulStep(Exec(before), Recorded(before), e, TimeOf(e), m, day);
      LastStep(es);
    }
  }

  // ---- A prune that does not heed it ----

  lemma {:induction false} RowsOfWithoutCommute(rows: seq<CheckResult>, gone: set<CheckResult>, m: nat, day: int)
    ensures RowsOf(Without(rows, gone), m, day) == Without(RowsOf(rows, m, day), gone)
  {
    if rows != [] {
      var n := |rows| - 1;
      var r := rows[n];
      assert rows == rows[..n] + [r];
      RowsOfWithoutCommute(rows[..n], gone, m, day);
      RowsOfAppend(rows[..n], r, m, day);
      WithoutAppend(rows[..n], gone, r);
      WithoutAppend(RowsOf(rows[..n], m, day), gone, r);
      RowsOfAppend(Without(rows[..n], gone), r, m, day);
    }
  }

  lemma WithoutAppend(rows: seq<CheckResult>, gone: set<CheckResult>, r: CheckResult)
    ensures Without(rows + [r], gone) == if r in gone then Without(rows, gone) else Without(rows, gone) + [r]
  {
    assert (rows + [r])[..|rows|] == rows;
  }

  /** Some rows of a day not done go: fewer are left than were recorded, or none and the table lacks the day. */
  lemma HastyPruneTakesRows(st: State, e: Event, r: CheckResult, m: nat, day: int,
                            rows: seq<CheckResult>, figures: Aggregate)
    requires e.PruneBatch? && Legal(st, e) && r in e.gone && !MayGo(st, e.gone, r) && Of(r, m, day)
    requires FaithfulFor(st, m, day, rows, figures)
    ensures var left := RowsOf(Step(st, e).raw, m, day); |left| < |rows| && (left == [] ==> (m, day) !in st.daily)
  {
    assert r in ExpiredRows(st.raw, e.retentionDays, e.now);
    RowsOfMembers(st.raw, m, day, r);
    RowsOfWithoutCommute(st.raw, e.gone, m, day);
    WithoutLength(RowsOf(st.raw, m, day), e.gone);
  }

  /** The next rollup then sums up too little, or nothing. */
  lemma RollupOfFewerRows(st: State, recorded: seq<CheckResult>, now: Time, m: nat, day: int)
    requires !IsDone(st.last, day) && day < DayOf(now)
    requires var left := RowsOf(st.raw, m, day);
      |left| < |RowsOf(recorded, m, day)| && (left == [] ==> (m, day) !in st.daily)
    ensures !RightDay(Step(Step(st, SumUp(now, false)), Mark(now, false)), recorded, m, day)
  {
    SumUpOfFewerRows(st, now, m, day);
    var rows, after := RowsOf(recorded, m, day), Step(st, SumUp(now, false));
    if (m, day) in after.daily { OtherTotal(after.daily[(m, day)].figures, rows); }
    MarkOfWrongDay(after, now, m, day, rows, AggregateOf(rows));
  }

  lemma SumUpOfFewerRows(st: State, now: Time, m: nat, day: int)
    requires !IsDone(st.last, day) && day < DayOf(now)
    requires RowsOf(st.raw, m, day) == [] ==> (m, day) !in st.daily
    ensures var after := Step(st, SumUp(now, false));
      && after.summed == Some(DayOf(now))
      && ((m, day) in after.daily ==> after.daily[(m, day)].figures.total == |RowsOf(st.raw, m, day)|)
  {
    GroupsHaveRows(st.last, st.raw, m, day, DayOf(now));
  }

  lemma MarkOfWrongDay(st: State, now: Time, m: nat, day: int, rows: seq<CheckResult>, figures: Aggregate)
    requires st.summed.Some? && day < DayOf(now) && rows != []
    requires (m, day) in st.daily ==> st.daily[(m, day)].figures != figures
    ensures !RightFor(Step(st, Mark(now, false)), m, day, rows, figures)
  {
  }

  lemma OtherTotal(f: Aggregate, rows: seq<CheckResult>)
    requires f.total != |rows|
    ensures f != AggregateOf(rows)
  {
  }

  // ---- The exact condition is exact ----

  /** A continuation in which every marker and prune heeds its condition. */
  ghost predicate Heeding(es: seq<Event>, more: seq<Event>) {
    LegalRun(es + more) && forall k | 0 <= k < |more| :: Keeps(Exec(es + more[..k]), more[k])
  }

  /** The table is right, and will be whatever heeding events come. */
  ghost predicate Certain(es: seq<Event>) {
    forall more | Heeding(es, more) :: Right(Exec(es + more), Recorded(es + more))
  }

  lemma HeedingKeeps(es: seq<Event>, more: seq<Event>)
    requires KeepsThroughout(es) && Heeding(es, more)
    ensures KeepsThroughout(es + more)
  {
    forall k | 0 <= k < |es + more|
      ensures Keeps(Exec((es + more)[..k]), (es + more)[k])
    {
      if k < |es| {
        assert (es + more)[..k] == es[..k];
      } else {
        assert (es + more)[..k] == es + more[..k - |es|] && (es + more)[k] == more[k - |es|];
      }
    }
  }

  lemma KeptIsCertain(es: seq<Event>)
    requires KeepsThroughout(es)
    ensures Certain(es)
  {
    forall more | Heeding(es, more)
      ensures Right(Exec(es + more), Recorded(es + more))
    {
      HeedingKeeps(es, more);
      forall m: nat, day: int
        ensures RightDay(Exec(es + more), Recorded(es + more), m, day)
      {
        EveryRunIsFaithful(es + more, m, day);
      }
    }
  }

  lemma OneMoreStep(es: seq<Event>, e: Event)
    ensures Exec(es + [e]) == Step(Exec(es), e)
    ensures Recorded(es + [e]) == Appended(Recorded(es), e)
  {
    LastStep(es + [e]);
    assert (es + [e])[..|es|] == es;
  }

  lemma ClockedAppend(es: seq<Event>, e: Event)
    requires Clocked(es) && (es != [] ==> TimeOf(es[|es| - 1]) <= TimeOf(e))
    ensures Clocked(es + [e])
  {
    forall j, k | 0 <= j <= k < |es + [e]|
      ensures TimeOf((es + [e])[j]) <= TimeOf((es + [e])[k])
    {
      if j < |es| { assert TimeOf(es[j]) <= TimeOf(es[|es| - 1]); }
    }
  }

  lemma LegalAt(es: seq<Event>, e: Event, k: nat)
    requires LegalRun(es) && Legal(Exec(es), e) && k <= |es|
    ensures Legal(Exec((es + [e])[..k]), (es + [e])[k])
  {
    if k < |es| {
      assert (es + [e])[..k] == es[..k] && (es + [e])[k] == es[k];
    } else {
      assert (es + [e])[..k] == es && (es + [e])[k] == e;
    }
  }

  lemma LegalAppend(es: seq<Event>, e: Event)
    requires LegalRun(es) && Legal(Exec(es), e) && (es != [] ==> TimeOf(es[|es| - 1]) <= TimeOf(e))
    ensures LegalRun(es + [e])
  {
    ClockedAppend(es, e);
    var all := es + [e];
    forall k | 0 <= k < |all|
      ensures Legal(Exec(all[..k]), all[k])
    {
      LegalAt(es, e, k);
    }
  }

  /** A rollup whose statements come at one time heeds the condition. */
  lemma RollupHeeds(es: seq<Event>, sum: Event, mark: Event)
    requires sum.SumUp? && mark.Mark? && !sum.fails && sum.now == mark.now
    requires LegalRun(es) && (es != [] ==> TimeOf(es[|es| - 1]) <= sum.now)
    ensures Heeding(es, [sum] + [mark])
    ensures Exec(es + ([sum] + [mark])) == Step(Step(Exec(es), sum), mark)
    ensures Recorded(es + ([sum] + [mark])) == Recorded(es)
  {
    RollupRuns(es, sum, mark);
    RollupKeeps(es, sum, mark);
    HeedingTwo(es, sum, mark);
    assert es + ([sum] + [mark]) == es + [sum] + [mark];
  }

  lemma RollupRuns(es: seq<Event>, sum: Event, mark: Event)
    requires LegalRun(es) && sum.SumUp? && mark.Mark?
    requires (es != [] ==> TimeOf(es[|es| - 1]) <= sum.now) && sum.now <= mark.now
    ensures LegalRun(es + [sum] + [mark])
    ensures Exec(es + [sum]) == Step(Exec(es), sum) && Exec(es + [sum] + [mark]) == Step(Step(Exec(es), sum), mark)
    ensures Recorded(es + [sum] + [mark]) == Recorded(es)
  {
    LegalAppend(es, sum);
    LegalAppend(es + [sum], mark);
    OneMoreStep(es, sum);
    OneMoreStep(es + [sum], mark);
  }

  lemma RollupKeeps(es: seq<Event>, sum: Event, mark: Event)
    requires sum.SumUp? && mark.Mark? && !sum.fails && sum.now == mark.now
    requires Exec(es + [sum]) == Step(Exec(es), sum)
    ensures Keeps(Exec(es), sum) && Keeps(Exec(es + [sum]), mark)
  {
  }

  lemma HeedingTwo(es: seq<Event>, a: Event, b: Event)
    requires LegalRun(es + [a] + [b]) && Keeps(Exec(es), a) && Keeps(Exec(es + [a]), b)
    ensures Heeding(es, [a] + [b])
  {
    var more := [a] + [b];
    assert es + more == es + [a] + [b];
    forall k | 0 <= k < |more|
      ensures Keeps(Exec(es + more[..k]), more[k])
    {
      if k == 0 {
        assert es + more[..k] == es && more[k] == a;
      } else {
        assert es + more[..k] == es + [a] && more[k] == b;
      }
    }
  }

  lemma HastyPruneIsNotCertain(es: seq<Event>, e: Event)
    requires LegalRun(es + [e]) && KeepsThroughout(es) && e.PruneBatch? && Legal(Exec(es), e) && !Keeps(Exec(es), e)
    ensures !Certain(es + [e])
  {
    var r :| r in e.gone && !MayGo(Exec(es), e.gone, r);
    var day := DayOf(r.at);
    var now := DayAfter(day, e.now);
    assert (es + [e])[..|es|] == es && Clocked(es) by { LegalRunPrefix(es + [e]); }
    EveryRunIsFaithful(es, r.monitor, day);
    OneMoreStep(es, e);
    HastyPruneSpoilsRollup(Exec(es), Recorded(es), e, r, now);
    RollupIsNotRight(es + [e], now, r.monitor, day);
  }

  lemma DayAfter(day: int, now: Time) returns (later: Time)
    ensures now <= later && day < DayOf(later)
  {
    later := GreatestOf(now, (day + 1) * DAY);
  }

  lemma HastyPruneSpoilsRollup(st: State, recorded: seq<CheckResult>, e: Event, r: CheckResult, now: Time)
    requires e.PruneBatch? && Legal(st, e) && r in e.gone && !MayGo(st, e.gone, r) && DayOf(r.at) < DayOf(now)
    requires FaithfulDay(st, recorded, r.monitor, DayOf(r.at))
    ensures !RightDay(Step(Step(Step(st, e), SumUp(now, false)), Mark(now, false)), recorded, r.monitor, DayOf(r.at))
  {
    var m, day := r.monitor, DayOf(r.at);
    var rows := RowsOf(recorded, m, day);
    HastyPruneTakesRows(st, e, r, m, day, rows, AggregateOf(rows));
    RollupOfFewerRows(Step(st, e), recorded, now, r.monitor, DayOf(r.at));
  }

  lemma WrongDay(st: State, recorded: seq<CheckResult>, m: nat, day: int)
    requires !RightDay(st, recorded, m, day)
    ensures !Right(st, recorded)
  {
  }

  lemma WrongIsNotCertain(es: seq<Event>, more: seq<Event>)
    requires Heeding(es, more) && !Right(Exec(es + more), Recorded(es + more))
    ensures !Certain(es)
  {
  }

  lemma RollupIsNotRight(es: seq<Event>, now: Time, m: nat, day: int)
    requires LegalRun(es) && es != [] && TimeOf(es[|es| - 1]) <= now
    requires !RightDay(Step(Step(Exec(es), SumUp(now, false)), Mark(now, false)), Recorded(es), m, day)
    ensures !Certain(es)
  {
    var sum, mark := SumUp(now, false), Mark(now, false);
    var more := [sum] + [mark];
    RollupHeeds(es, sum, mark);
    WrongDay(Exec(es + more), Recorded(es + more), m, day);
    WrongIsNotCertain(es, more);
  }

  lemma HastyMarkIsNotCertain(es: seq<Event>, e: Event)
    requires LegalRun(es + [e]) && e.Mark? && !Keeps(Exec(es), e)
    ensures !Certain(es + [e])
  {
    var r :| r in Exec(es).raw && Exec(es).summed.value <= DayOf(r.at) < DayOf(e.now);
    assert (es + [e])[..|es|] == es && Clocked(es) by { LegalRunPrefix(es + [e]); }
    EveryRunIsUpToDate(es, e.now);
    HastyMarkLosesTheDay(Exec(es), Recorded(es), e.now, e.now, r);
    OneMoreStep(es, e);
    assert es + [e] + [] == es + [e];
    WrongDay(Exec(es + [e] + []), Recorded(es + [e] + []), r.monitor, DayOf(r.at));
    WrongIsNotCertain(es + [e], []);
  }

  /**
   * The exact condition of one event: after it the table is right, and certain to stay so over every heeding
   * continuation, if and only if the event heeds it.
   */
  lemma CertainIffKeeps(es: seq<Event>, e: Event)
    requires LegalRun(es + [e]) && KeepsThroughout(es)
    ensures Certain(es + [e]) <==> Keeps(Exec(es), e)
  {
    assert (es + [e])[..|es|] == es && Legal(Exec(es), e) by { LegalRunPrefix(es + [e]); }
    if Keeps(Exec(es), e) {
      KeepsAppend(es, e);
      KeptIsCertain(es + [e]);
    } else if e.PruneBatch? {
      HastyPruneIsNotCertain(es, e);
    } else {
      HastyMarkIsNotCertain(es, e);
    }
  }

  lemma KeepsAppend(es: seq<Event>, e: Event)
    requires KeepsThroughout(es) && Keeps(Exec(es), e)
    ensures KeepsThroughout(es + [e])
  {
    forall k | 0 <= k < |es + [e]|
      ensures Keeps(Exec((es + [e])[..k]), (es + [e])[k])
    {
      assert (es + [e])[..k] == es[..k];
    }
  }

  lemma LegalRunPrefixes(es: seq<Event>, k: nat)
    requires LegalRun(es) && k <= |es|
    ensures LegalRun(es[..k])
  {
    assert forall j | 0 <= j < k :: es[..k][..j] == es[..j];
  }

  lemma KeepsPrefixes(es: seq<Event>, k: nat)
    requires KeepsThroughout(es) && k <= |es|
    ensures KeepsThroughout(es[..k])
  {
    assert forall j | 0 <= j < k :: es[..k][..j] == es[..j];
  }

  lemma LastKeeps(es: seq<Event>)
    requires es != [] && KeepsThroughout(es[..|es| - 1]) && Keeps(Exec(es[..|es| - 1]), es[|es| - 1])
    ensures KeepsThroughout(es)
  {
    KeepsAppend(es[..|es| - 1], es[|es| - 1]);
    assert es == es[..|es| - 1] + [es[|es| - 1]];
  }

  /** Of a run that does not heed the condition, the first event to disregard it. */
  lemma {:induction false} FirstHasty(es: seq<Event>) returns (k: nat)
    requires !KeepsThroughout(es)
    ensures k < |es| && KeepsThroughout(es[..k]) && !Keeps(Exec(es[..k]), es[k])
  {
    var before := es[..|es| - 1];
    if KeepsThroughout(before) {
      k := |es| - 1;
      if Keeps(Exec(before), es[k]) { LastKeeps(es); }
    } else {
      k := FirstHasty(before);
      assert before[..k] == es[..k];
    }
  }

  /**
   * Over any run of inserts, rollups whose statements come at any times and may fail, and prunes: the table is
   * right all along, with certainty at every point, if and only if every marker and every prune heeds its
   * condition.
   */
  lemma CertainThroughoutIff(es: seq<Event>)
    requires LegalRun(es)
    ensures (forall k | 0 <= k <= |es| :: Certain(es[..k])) <==> KeepsThroughout(es)
  {
    if KeepsThroughout(es) {
      forall k | 0 <= k <= |es|
        ensures Certain(es[..k])
      {
        KeepsPrefixes(es, k);
        KeptIsCertain(es[..k]);
      }
    } else {
      var k := FirstHasty(es);
      NotCertainAt(es, k);
    }
  }

  lemma NotCertainAt(es: seq<Event>, k: nat)
    requires LegalRun(es) && k < |es| && KeepsThroughout(es[..k]) && !Keeps(Exec(es[..k]), es[k])
    ensures !Certain(es[..k + 1])
  {
    assert es[..k + 1] == es[..k] + [es[k]];
    LegalRunPrefixes(es, k + 1);
    CertainIffKeeps(es[..k], es[k]);
  }

  // ---- Checked from the clocks and the plans alone ----

  /** The window of every plan reaches back to the midnight at which the first day not done began. */
  ghost predicate WindowsReach(last: Option<int>, retentionDays: map<nat, nat>, now: Time) {
    forall t | t in retentionDays :: WindowReaches(last, retentionDays[t], now)
  }

  predicate WindowReaches(last: Option<int>, days: nat, now: Time) {
    last.Some? && now - days * DAY <= (last.value + 1) * DAY
  }

  /** A tenant's window spares every row there could be of the days not done exactly when it reaches back so far. */
  lemma PruneIsSafeIff(last: Option<int>, tenant: nat, retentionDays: map<nat, nat>, now: Time)
    requires tenant in retentionDays
    ensures (forall r: CheckResult | r.tenant == tenant && Expired(r, retentionDays, now) :: IsDone(last, DayOf(r.at)))
      <==> WindowReaches(last, retentionDays[tenant], now)
  {
    var cutoff := now - retentionDays[tenant] * DAY;
    if !WindowReaches(last, retentionDays[tenant], now) {
      var r := CheckResult(0, 0, tenant, if last.None? then cutoff - 1 else (last.value + 1) * DAY, true, 0);
      assert Expired(r, retentionDays, now) && !IsDone(last, DayOf(r.at));
    }
  }

  /** Two days' retention reach on the date of the last rollup and the one after it. */
  lemma TwoDaysReach(last: int, retentionDays: map<nat, nat>, now: Time)
    requires KeepsTwoDays(retentionDays) && DayOf(now) <= last + 2
    ensures WindowsReach(Some(last), retentionDays, now)
  {
    forall t | t in retentionDays
      ensures WindowReaches(Some(last), retentionDays[t], now)
    {
      assert retentionDays[t] * DAY >= 2 * DAY;
    }
  }

  /** A marker is set on the date of its aggregation; a prune runs while all windows reach, or finds nothing. */
  ghost predicate OnTime(st: State, e: Event) {
    match e
    case Mark(now, fails) => !fails && st.summed.Some? ==> DayOf(now) == st.summed.value
    case PruneBatch(now, retentionDays, gone) => gone == {} || WindowsReach(st.last, retentionDays, now)
    case _ => true
  }

  lemma OnTimeKeeps(st: State, e: Event)
    requires Legal(st, e) && OnTime(st, e)
    ensures Keeps(st, e)
  {
    if e.PruneBatch? {
      forall r | r in e.gone
        ensures IsDone(st.last, DayOf(r.at))
      {
        assert r in ExpiredRows(st.raw, e.retentionDays, e.now);
        PruneIsSafeIff(st.last, r.tenant, e.retentionDays, e.now);
      }
    }
  }

  lemma OnTimeRunsKeep(es: seq<Event>)
    requires LegalRun(es) && forall k | 0 <= k < |es| :: OnTime(Exec(es[..k]), es[k])
    ensures KeepsThroughout(es)
  {
    forall k | 0 <= k < |es|
      ensures Keeps(Exec(es[..k]), es[k])
    {
      OnTimeKeeps(Exec(es[..k]), es[k]);
    }
  }

  // ---- A lost day stays lost ----

  /** Once a day is done without a summary, no later rollup, whatever happens, gives it one. */
  lemma {:induction false} LostDayStaysLost(es: seq<Event>, more: seq<Event>, m: nat, day: int)
    requires Clocked(es + more) && IsDone(Exec(es).last, day) && (m, day) !in Exec(es).daily
    ensures IsDone(Exec(es + more).last, day) && (m, day) !in Exec(es + more).daily
  {
    if more == [] {
      assert es + more == es;
    } else {
      var n := |more| - 1;
      var before, e := es + more[..n], more[n];
      assert (es + more)[..|es + more| - 1] == before && (es + more)[|es + more| - 1] == e;
      LostDayStaysLost(es, more[..n], m, day);
      assert TimeOf((es + more)[|before|]) == TimeOf(e);
      EveryRunIsUpToDate(before, TimeOf(e));
      LostAfterStep(Exec(before), Recorded(before), e, m, day);
      LastStep(es + more);
    }
  }

  lemma LostAfterStep(st: State, recorded: seq<CheckResult>, e: Event, m: nat, day: int)
    requires UpToDate(st, recorded, TimeOf(e)) && IsDone(st.last, day) && (m, day) !in st.daily
    ensures IsDone(Step(st, e).last, day) && (m, day) !in Step(st, e).daily
  {
    if e.SumUp? && (m, day) in Groups(st.last, st.raw, DayOf(e.now)) {
      GroupsBefore(st.last, st.raw, DayOf(e.now), m, day);
    }
  }

  // ---- Incremental is from scratch ----

  /** What the table says of the days that are done. */
  function DoneFigures(st: State): map<(nat, int), Aggregate> {
    map k | k in st.daily && IsDone(st.last, k.1) :: st.daily[k].figures
  }

  function DoneKeys(rows: seq<CheckResult>, last: Option<int>): set<(nat, int)> {
    if rows == [] || last.None? then {} else Keys(rows, FirstDay(rows), last.value + 1)
  }

  /** The same from all rows ever recorded, in one go. */
  function FromScratch(rows: seq<CheckResult>, last: Option<int>): map<(nat, int), Aggregate> {
    map k | k in DoneKeys(rows, last) :: AggregateOf(RowsOf(rows, k.0, k.1))
  }

  lemma DoneKeysHaveRows(rows: seq<CheckResult>, last: Option<int>, m: nat, day: int)
    ensures (m, day) in DoneKeys(rows, last) <==> IsDone(last, day) && RowsOf(rows, m, day) != []
  {
    if rows != [] && last.Some? {
      KeysHaveRows(rows, FirstDay(rows), last.value + 1, m, day);
      FirstDayCovers(rows, m, day);
    }
  }

  lemma SameFigures(st: State, recorded: seq<CheckResult>, m: nat, day: int)
    requires FaithfulDay(st, recorded, m, day)
    ensures (m, day) in DoneFigures(st) <==> (m, day) in FromScratch(recorded, st.last)
    ensures (m, day) in DoneFigures(st) ==> DoneFigures(st)[(m, day)] == FromScratch(recorded, st.last)[(m, day)]
  {
    DoneKeysHaveRows(recorded, st.last, m, day);
  }

  /**
   * However many rollups ran, whichever of their statements failed and whatever was pruned since: as long as
   * markers and prunes heeded their conditions, the table holds, for the days done, what one aggregation of
   * every row ever recorded would.
   */
  lemma IncrementalIsFromScratch(es: seq<Event>)
    requires Clocked(es) && KeepsThroughout(es)
    ensures DoneFigures(Exec(es)) == FromScratch(Recorded(es), Exec(es).last)
  {
    var st, all := Exec(es), FromScratch(Recorded(es), Exec(es).last);
    forall k: (nat, int)
      ensures k in DoneFigures(st) <==> k in all
      ensures k in all ==> DoneFigures(st)[k] == all[k]
    {
      EveryRunIsFaithful(es, k.0, k.1);
      SameFigures(st, Recorded(es), k.0, k.1);
    }
  }

  // ---- The public bars ----

  /** The bar of a day computed from every row recorded that day. */
  function RawBar(recorded: seq<CheckResult>, m: nat, day: int): Bar {
    var rows := RowsOf(recorded, m, day);
    BarOf(OkCount(rows), |rows|)
  }

  lemma SinceMidnight(at: Time, now: Time)
    requires at <= now
    ensures at >= DayOf(now) * DAY <==> DayOf(at) == DayOf(now)
  {
  }

  /** While nothing is stamped in the future, "since midnight" is "today". */
  lemma {:induction false} LiveRowsAreTodays(rows: seq<CheckResult>, m: nat, now: Time)
    requires forall r | r in rows :: r.at <= now
    ensures LiveRows(rows, m, DayOf(now)) == RowsOf(rows, m, DayOf(now))
  {
    if rows != [] {
      var n := |rows| - 1;
      assert forall r | r in rows[..n] :: r in rows;
      assert rows[n] in rows;
      LiveRowsAreTodays(rows[..n], m, now);
      SinceMidnight(rows[n].at, now);
    }
  }

  lemma BarOfDay(st: State, recorded: seq<CheckResult>, m: nat, day: int, now: Time)
    requires UpToDate(st, recorded, now) && FaithfulDay(st, recorded, m, day)
    ensures BarFor(st.daily, st.raw, m, day, DayOf(now)) == RawBar(recorded, m, day)
      <==> (m, day) in st.daily || day == DayOf(now) || RowsOf(recorded, m, day) == []
  {
    if day == DayOf(now) {
      LiveRowsAreTodays(st.raw, m, now);
    }
  }

  /**
   * As long as markers and prunes heed their conditions, a cell of the status page agrees with all rows ever
   * recorded that day, unless the day is over, has rows, and no rollup has reached it: exactly then the page
   * wrongly shows no data.
   */
  lemma BarIsRightIff(es: seq<Event>, m: nat, day: int, now: Time)
    requires Clocked(es) && KeepsThroughout(es) && (es != [] ==> TimeOf(es[|es| - 1]) <= now)
    ensures BarFor(Exec(es).daily, Exec(es).raw, m, day, DayOf(now)) == RawBar(Recorded(es), m, day)
      <==> (m, day) in Exec(es).daily || day == DayOf(now) || RowsOf(Recorded(es), m, day) == []
    ensures IsDone(Exec(es).last, day) ==>
      BarFor(Exec(es).daily, Exec(es).raw, m, day, DayOf(now)) == RawBar(Recorded(es), m, day)
  {
    EveryRunIsFaithful(es, m, day);
    EveryRunIsUpToDate(es, now);
    BarOfDay(Exec(es), Recorded(es), m, day, now);
  }

  /** In any run at all, a day lost shows no data from then on, on any later date and whatever comes after. */
  lemma LostDayShowsNoData(es: seq<Event>, more: seq<Event>, m: nat, day: int, today: int)
    requires Clocked(es + more) && IsDone(Exec(es).last, day) && (m, day) !in Exec(es).daily && day < today
    ensures BarFor(Exec(es + more).daily, Exec(es + more).raw, m, day, today) == NoData
  {
    LostDayStaysLost(es, more, m, day);
  }
}
