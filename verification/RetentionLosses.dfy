/** Two runs of the retention job that lose a day for good. */
module RetentionLosses {
  import opened Common
  import opened Downtime
  import opened Retention
  import opened RetentionRuns

  const LOST := CheckResult(1, 7, 3, DAY, true, 20)

  // ---- What both begin with: a good rollup, then a check result on the day after the one marked ----

  const ROLLED_UP := [SumUp(DAY, false), Mark(DAY, false)]
  const BEFORE := ROLLED_UP + [Record(LOST)]

  lemma RolledUp()
    ensures Exec(ROLLED_UP) == State([], map[], Some(0), None) && Recorded(ROLLED_UP) == []
  {
    assert ROLLED_UP == [] + [SumUp(DAY, false)] + [Mark(DAY, false)];
    OneMoreStep([], SumUp(DAY, false));
    OneMoreStep([] + [SumUp(DAY, false)], Mark(DAY, false));
    assert Groups(None, [], 1) == {};
  }

  lemma Before()
    ensures Exec(BEFORE) == State([LOST], map[], Some(0), None) && Recorded(BEFORE) == [LOST]
    ensures RowsOf([LOST], 7, 1) == [LOST]
  {
    RolledUp();
    OneMoreStep(ROLLED_UP, Record(LOST));
    assert [LOST][..0] == [];
  }

  // ---- Midnight between the aggregation and the marker ----

  const LATE_SUM := SumUp(2 * DAY - 1, false)
  const EARLY_MARK := Mark(2 * DAY, false)
  const MIDNIGHT := BEFORE + [LATE_SUM] + [EARLY_MARK]

  lemma NothingToSumUp()
    ensures Step(State([LOST], map[], Some(0), None), LATE_SUM) == State([LOST], map[], Some(0), Some(1))
  {
    var groups := Groups(Some(0), [LOST], 1);
    forall k | k in groups
      ensures false
    {
      GroupsBefore(Some(0), [LOST], 1, k.0, k.1);
    }
    assert groups == {} && DayOf(LATE_SUM.now) == 1;
  }

  lemma MidnightRun()
    ensures Exec(BEFORE + [LATE_SUM]) == State([LOST], map[], Some(0), Some(1))
    ensures Exec(MIDNIGHT) == State([LOST], map[], Some(1), None) && Recorded(MIDNIGHT) == [LOST]
  {
    Before();
    NothingToSumUp();
    OneMoreStep(BEFORE, LATE_SUM);
    OneMoreStep(BEFORE + [LATE_SUM], EARLY_MARK);
  }

  /**
   * The aggregation and the marker each ask for the date. If midnight falls between them, the marker passes
   * the day that was still today for the aggregation: it is done, has rows, and no summary, now and after
   * whatever comes later.
   */
  lemma MidnightLosesADay(more: seq<Event>)
    requires Clocked(MIDNIGHT + more)
    ensures LegalRun(MIDNIGHT) && RowsOf(Recorded(MIDNIGHT), 7, 1) == [LOST]
    ensures IsDone(Exec(MIDNIGHT + more).last, 1) && (7, 1) !in Exec(MIDNIGHT + more).daily
  {
    Before();
    MidnightRun();
    LostDayStaysLost(MIDNIGHT, more, 7, 1);
  }

  // ---- Prunes that do not wait for rollups ----

  const PRUNE := PruneBatch(4 * DAY, map[3 := 2], {LOST})
  const FAILING := BEFORE + [SumUp(2 * DAY, true)] + [SumUp(3 * DAY, true)] + [SumUp(4 * DAY, true)]
  const TOO_LATE := FAILING + [PRUNE] + [SumUp(5 * DAY, false)] + [Mark(5 * DAY, false)]

  lemma FailingRun()
    ensures Exec(FAILING) == State([LOST], map[], Some(0), None) && Recorded(FAILING) == [LOST]
  {
    Before();
    OneMoreStep(BEFORE, SumUp(2 * DAY, true));
    OneMoreStep(BEFORE + [SumUp(2 * DAY, true)], SumUp(3 * DAY, true));
    OneMoreStep(BEFORE + [SumUp(2 * DAY, true)] + [SumUp(3 * DAY, true)], SumUp(4 * DAY, true));
  }

  lemma PruneTakesIt()
    ensures PRUNE.gone <= ExpiredRows([LOST], PRUNE.retentionDays, PRUNE.now)
    ensures Without([LOST], PRUNE.gone) == []
  {
    assert Expired(LOST, PRUNE.retentionDays, PRUNE.now);
    assert [LOST][..0] == [];
  }

  lemma TooLateRun()
    ensures Exec(TOO_LATE) == State([], map[], Some(4), None) && Recorded(TOO_LATE) == [LOST]
  {
    FailingRun();
    PruneTakesIt();
    OneMoreStep(FAILING, PRUNE);
    OneMoreStep(FAILING + [PRUNE], SumUp(5 * DAY, false));
    OneMoreStep(FAILING + [PRUNE] + [SumUp(5 * DAY, false)], Mark(5 * DAY, false));
    assert Groups(Some(0), [], 5) == {};
  }

  /**
   * runPass prunes even when the rollup before it failed. With rollups failing for three days, a tenant on
   * two days' retention loses a day for good: its rows are gone before any summary has them.
   */
  lemma FailingRollupsLoseADay(more: seq<Event>)
    requires Clocked(TOO_LATE + more)
    ensures Legal(Exec(FAILING), PRUNE) && KeepsTwoDays(PRUNE.retentionDays) && !Keeps(Exec(FAILING), PRUNE)
    ensures RowsOf(Recorded(TOO_LATE), 7, 1) == [LOST]
    ensures IsDone(Exec(TOO_LATE + more).last, 1) && (7, 1) !in Exec(TOO_LATE + more).daily
  {
    Before();
    FailingRun();
    PruneTakesIt();
    TooLateRun();
    LostDayStaysLost(TOO_LATE, more, 7, 1);
  }
}
