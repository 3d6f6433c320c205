/** apps/scheduler/cmd/scheduler/main.go: claiming due monitors, oldest first, at most 500 a tick. */
module Scheduler {
  import opened Common

  const CLAIM_LIMIT := 500

  /** interval is in seconds; the table's CHECK keeps it between 30 and 3600. */
  datatype Monitor = Monitor(enabled: bool, nextRunAt: Time, interval: nat)

  type Table = map<nat, Monitor>

  predicate ValidInterval(interval: nat) { 30 <= interval <= 3600 }

  // ---- The claim ----

  predicate IsReady(ms: Table, now: Time, locked: set<nat>, m: nat) {
    m in ms && ms[m].enabled && ms[m].nextRunAt <= now && m !in locked
  }

  ghost predicate Distinct(s: seq<nat>) {
    forall j, k | 0 <= j < k < |s| :: s[j] != s[k]
  }

  /** ORDER BY next_run_at LIMIT 500 FOR UPDATE SKIP LOCKED, in whatever order the rows are returned. */
  ghost predicate IsClaim(ms: Table, now: Time, locked: set<nat>, picked: seq<nat>) {
    && |picked| <= CLAIM_LIMIT && Distinct(picked)
    && (forall m | m in picked :: IsReady(ms, now, locked, m))
    && (forall m | IsReady(ms, now, locked, m) && m !in picked ::
          |picked| == CLAIM_LIMIT && forall p | p in picked :: ms[p].nextRunAt <= ms[m].nextRunAt)
  }

  function Restamped(ms: Table, now: Time, picked: seq<nat>): Table {
    map m | m in ms :: if m in picked then ms[m].(nextRunAt := now + ms[m].interval * SECOND) else ms[m]
  }

  /** The picked ids the queue accepted, in order. */
  function Accepted(picked: seq<nat>, refused: set<nat>): seq<nat> {
    if picked == [] then []
    else
      var n := |picked| - 1;
      Accepted(picked[..n], refused) + if picked[n] in refused then [] else [picked[n]]
  }

  class Scheduler {
    var monitors: Table
    var queue: seq<nat>

    /** One tick; n is the number of ids that reached the queue. */
    method Tick(now: Time, locked: set<nat>, picked: seq<nat>, refused: set<nat>) returns (n: nat)
      requires IsClaim(monitors, now, locked, picked)
      modifies this
      ensures monitors == Restamped(old(monitors), now, picked)
      ensures queue == old(queue) + Accepted(picked, refused)
      ensures n == |Accepted(picked, refused)| <= CLAIM_LIMIT
    {
      monitors := map m | m in monitors ::
        if m in picked then monitors[m].(nextRunAt := now + monitors[m].interval * SECOND) else monitors[m];
      n := 0;
      var k := 0;
      while k < |picked|
        invariant 0 <= k <= |picked|
        invariant queue == old(queue) + Accepted(picked[..k], refused)
        invariant n == |Accepted(picked[..k], refused)| <= k
        invariant monitors == Restamped(old(monitors), now, picked)
      {
        assert picked[..k + 1][..k] == picked[..k];
        if picked[k] !in refused {
          queue := queue + [picked[k]];
          n := n + 1;
        }
        k := k + 1;
      }
      assert picked[..|picked|] == picked;
    }
  }

  /** There is always a claim to make. */
  lemma {:induction false} ClaimExists(ms: Table, ready: set<nat>, limit: nat) returns (picked: seq<nat>)
    requires forall m | m in ready :: m in ms
    ensures |picked| <= limit && Distinct(picked) && forall m | m in picked :: m in ready
    ensures forall m | m in ready && m !in picked ::
      |picked| == limit && forall p | p in picked :: ms[p].nextRunAt <= ms[m].nextRunAt
    decreases limit
  {
    picked := [];
    if limit > 0 && ready != {} {
      var oldest := Oldest(ms, ready);
      var rest := ClaimExists(ms, ready - {oldest}, limit - 1);
      picked := [oldest] + rest;
    }
  }

  lemma {:induction false} Oldest(ms: Table, ready: set<nat>) returns (oldest: nat)
    requires ready != {} && forall m | m in ready :: m in ms
    ensures oldest in ready && forall m | m in ready :: ms[oldest].nextRunAt <= ms[m].nextRunAt
    decreases |ready|
  {
    oldest :| oldest in ready;
    if ready != {oldest} {
      assert ready - {oldest} != {};
      var other := Oldest(ms, ready - {oldest});
      if ms[other].nextRunAt < ms[oldest].nextRunAt { oldest := other; }
    }
  }

  // ---- Runs: ticks, and users creating, editing and deleting monitors ----

  datatype Event =
    | Tick(now: Time, locked: set<nat>, picked: seq<nat>)
    | Create(now: Time, m: nat, interval: nat)
    | Update(now: Time, m: nat, enabled: Option<bool>, interval_: Option<nat>)
    | Delete(now: Time, m: nat)

  function Step(ms: Table, e: Event): Table {
    match e
    case Tick(now, _, picked) => Restamped(ms, now, picked)
    case Create(now, m, interval) => ms[m := Monitor(true, now, interval)]
    case Update(now, m, enabled, interval) =>
      if m !in ms then ms
      else
        var was := ms[m];
        ms[m := Monitor(
          if enabled.Some? then enabled.value else was.enabled,
          if enabled == Some(true) && !was.enabled then now else was.nextRunAt,
          if interval.Some? then interval.value else was.interval)]
    case Delete(_, m) => ms - {m}
  }

  function Exec(ms: Table, es: seq<Event>): Table {
    if es == [] then ms else Step(Exec(ms, es[..|es| - 1]), es[|es| - 1])
  }

  ghost predicate Legal(ms: Table, e: Event) {
    match e
    case Tick(now, locked, picked) => IsClaim(ms, now, locked, picked)
    case Create(_, m, interval) => m !in ms && ValidInterval(interval)
    case Update(_, _, _, interval) => interval.Some? ==> ValidInterval(interval.value)
    case Delete(_, _) => true
  }

  ghost predicate ValidTable(ms: Table) {
    forall m | m in ms :: ValidInterval(ms[m].interval)
  }

  ghost predicate LegalRun(ms: Table, es: seq<Event>) {
    ValidTable(ms) && forall k | 0 <= k < |es| :: Legal(Exec(ms, es[..k]), es[k])
  }

  lemma LegalRunPrefix(ms: Table, es: seq<Event>)
    requires es != [] && LegalRun(ms, es)
    ensures LegalRun(ms, es[..|es| - 1]) && Legal(Exec(ms, es[..|es| - 1]), es[|es| - 1])
  {
    var before := es[..|es| - 1];
    assert forall k | 0 <= k < |before| :: before[..k] == es[..k];
  }

  lemma {:induction false} TableStaysValid(ms: Table, es: seq<Event>)
    requires LegalRun(ms, es)
    ensures ValidTable(Exec(ms, es))
  {
    if es != [] {
      LegalRunPrefix(ms, es);
      TableStaysValid(ms, es[..|es| - 1]);
    }
  }

  // ---- No starvation ----

  function AtOrBefore(ms: Table, t: Time): set<nat> {
    set m | m in ms && ms[m].enabled && ms[m].nextRunAt <= t
  }

  /** The number of enabled monitors scheduled at or before t. */
  function Rank(ms: Table, t: Time): nat {
    |AtOrBefore(ms, t)|
  }

  /** The event neither pauses x nor deletes or re-creates it. */
  predicate LeavesWaiting(e: Event, x: nat) {
    && !(e.Delete? && e.m == x)
    && !(e.Update? && e.m == x && e.enabled == Some(false))
    && !(e.Create? && e.m == x)
  }

  predicate Claims(e: Event, x: nat) {
    e.Tick? && x in e.picked
  }

  /** A tick that finds x due and unlocked. */
  predicate IsChance(e: Event, x: nat, dueAt: Time) {
    e.Tick? && dueAt <= e.now && x !in e.locked
  }

  function Chances(es: seq<Event>, x: nat, dueAt: Time): nat {
    if es == [] then 0
    else Chances(es[..|es| - 1], x, dueAt) + if IsChance(es[|es| - 1], x, dueAt) then 1 else 0
  }

  function Elements(s: seq<nat>): set<nat> {
    set m | m in s
  }

  lemma {:induction false} DistinctCount(s: seq<nat>)
    requires Distinct(s)
    ensures |Elements(s)| == |s|
  {
    if s != [] {
      var n := |s| - 1;
      DistinctCount(s[..n]);
      assert s == s[..n] + [s[n]];
      assert s[n] !in s[..n];
      assert Elements(s) == Elements(s[..n]) + {s[n]};
    }
  }

  /** A monitor created, or re-enabled after a pause, at t or before jumps in. */
  predicate JumpsIn(ms: Table, e: Event, t: Time) {
    && e.now <= t
    && (e.Create? || (e.Update? && e.m in ms && e.enabled == Some(true) && !ms[e.m].enabled))
  }

  /** Of all that can happen, exactly that raises a rank, and by one. */
  lemma RankRisesIff(ms: Table, e: Event, t: Time)
    requires ValidTable(ms) && Legal(ms, e)
    ensures Rank(Step(ms, e), t) > Rank(ms, t) <==> JumpsIn(ms, e, t)
    ensures Rank(Step(ms, e), t) <= Rank(ms, t) + 1
  {
    var was, now' := AtOrBefore(ms, t), AtOrBefore(Step(ms, e), t);
    if JumpsIn(ms, e, t) {
      assert e.m !in was && now' == was + {e.m};
    } else {
      if e.Tick? {
        forall m | m in now'
          ensures m in was
        {
          if m in e.picked { assert IsReady(ms, e.now, e.locked, m); }
        }
      }
      SubsetCount(now', was);
    }
  }

  /** How many events of a run jump in at t or before. */
  function Jumps(ms: Table, es: seq<Event>, t: Time): nat {
    if es == [] then 0
    else
      var n := |es| - 1;
      Jumps(ms, es[..n], t) + if JumpsIn(Exec(ms, es[..n]), es[n], t) then 1 else 0
  }

  /** Whatever waits keeps its place, and a tick that passes it over when it is due cuts its rank by 500. */
  lemma RankStep(ms: Table, e: Event, x: nat)
    requires ValidTable(ms) && Legal(ms, e)
    requires x in ms && ms[x].enabled && LeavesWaiting(e, x) && !Claims(e, x)
    ensures var t, after := ms[x].nextRunAt, Step(ms, e);
      && x in after && after[x].enabled && after[x].nextRunAt == t
      && Rank(after, t) + (if IsChance(e, x, t) then CLAIM_LIMIT else 0)
         <= Rank(ms, t) + if JumpsIn(ms, e, t) then 1 else 0
  {
    var t, after := ms[x].nextRunAt, Step(ms, e);
    if IsChance(e, x, t) {
      assert IsReady(ms, e.now, e.locked, x);
      var claimed := Elements(e.picked);
      DistinctCount(e.picked);
      assert |claimed| == CLAIM_LIMIT;
      assert AtOrBefore(after, t) <= AtOrBefore(ms, t) - claimed;
      SubsetCount(claimed, AtOrBefore(ms, t));
      SubsetCount(AtOrBefore(after, t), AtOrBefore(ms, t) - claimed);
    } else {
      RankRisesIff(ms, e, t);
    }
  }

  lemma {:induction false} RankFalls(ms: Table, es: seq<Event>, x: nat)
    requires LegalRun(ms, es) && x in ms && ms[x].enabled
    requires forall k | 0 <= k < |es| :: LeavesWaiting(es[k], x) && !Claims(es[k], x)
    ensures var t, after := ms[x].nextRunAt, Exec(ms, es);
      && x in after && after[x].enabled && after[x].nextRunAt == t
      && Rank(after, t) >= 1
      && Rank(after, t) + CLAIM_LIMIT * Chances(es, x, t) <= Rank(ms, t) + Jumps(ms, es, t)
  {
    assert x in AtOrBefore(ms, ms[x].nextRunAt);
    if es != [] {
      var before := es[..|es| - 1];
      LegalRunPrefix(ms, es);
      RankFalls(ms, before, x);
      TableStaysValid(ms, before);
      RankStep(Exec(ms, before), es[|es| - 1], x);
      assert x in AtOrBefore(Exec(ms, es), ms[x].nextRunAt);
    }
  }

  /**
   * A monitor due at t, with r enabled monitors at or before it, and j created or re-enabled at or before t
   * meanwhile, is claimed within ceil((r + j)/500) ticks that find it due and unlocked, whatever else is
   * created, edited, re-enabled or re-stamped.
   */
  lemma NoStarvation(ms: Table, es: seq<Event>, x: nat)
    requires LegalRun(ms, es) && x in ms && ms[x].enabled
    requires forall k | 0 <= k < |es| :: LeavesWaiting(es[k], x)
    requires var t := ms[x].nextRunAt; Rank(ms, t) + Jumps(ms, es, t) <= CLAIM_LIMIT * Chances(es, x, t)
    ensures exists k | 0 <= k < |es| :: Claims(es[k], x)
  {
    if forall k | 0 <= k < |es| :: !Claims(es[k], x) {
      RankFalls(ms, es, x);
    }
  }

  lemma {:induction false} NoJumps(ms: Table, es: seq<Event>, t: Time)
    requires forall k | 0 <= k < |es| && !es[k].Tick? :: t < es[k].now
    ensures Jumps(ms, es, t) == 0
  {
    if es != [] { NoJumps(ms, es[..|es| - 1], t); }
  }

  /** Once nothing is stamped with its due time or before, its rank alone bounds the wait. */
  lemma OverdueIsClaimed(ms: Table, es: seq<Event>, x: nat)
    requires LegalRun(ms, es) && x in ms && ms[x].enabled
    requires forall k | 0 <= k < |es| :: LeavesWaiting(es[k], x) && (es[k].Tick? || ms[x].nextRunAt < es[k].now)
    requires Rank(ms, ms[x].nextRunAt) <= CLAIM_LIMIT * Chances(es, x, ms[x].nextRunAt)
    ensures exists k | 0 <= k < |es| :: Claims(es[k], x)
  {
    NoJumps(ms, es, ms[x].nextRunAt);
    NoStarvation(ms, es, x);
  }

  // ---- Why those that jump in must be counted ----

  /** Monitors 0, ..., n, all of them due at 0. */
  function Crowd(n: nat): Table {
    if n == 0 then map[0 := Monitor(true, 0, 30)] else Crowd(n - 1)[n := Monitor(true, 0, 30)]
  }

  lemma {:induction false} CrowdMembers(n: nat, m: nat)
    ensures m in Crowd(n) <==> m <= n
    ensures m <= n ==> Crowd(n)[m] == Monitor(true, 0, 30)
  {
    if n > 0 { CrowdMembers(n - 1, m); }
  }

  function Creates(n: nat): seq<Event> {
    seq(n, i requires 0 <= i => Create(0, i + 1, 30))
  }

  function Newcomers(n: nat): seq<nat> {
    seq(n, i requires 0 <= i => i + 1)
  }

  lemma {:induction false} CrowdGathers(n: nat)
    ensures Exec(Crowd(0), Creates(n)) == Crowd(n)
  {
    if n > 0 {
      CrowdGathers(n - 1);
      assert Creates(n)[..n - 1] == Creates(n - 1);
    }
  }

  lemma NewcomersAreAClaim()
    ensures IsClaim(Crowd(CLAIM_LIMIT), 0, {}, Newcomers(CLAIM_LIMIT)) && 0 !in Newcomers(CLAIM_LIMIT)
  {
    var picked := Newcomers(CLAIM_LIMIT);
    forall m: nat
      ensures m in Crowd(CLAIM_LIMIT) <==> m <= CLAIM_LIMIT
      ensures m <= CLAIM_LIMIT ==> Crowd(CLAIM_LIMIT)[m] == Monitor(true, 0, 30)
    {
      CrowdMembers(CLAIM_LIMIT, m);
    }
    forall m: nat | 0 < m <= CLAIM_LIMIT
      ensures m in picked
    {
      assert picked[m - 1] == m;
    }
  }

  lemma TieIsLegal(es: seq<Event>)
    requires es == Creates(CLAIM_LIMIT) + [Tick(0, {}, Newcomers(CLAIM_LIMIT))]
    ensures LegalRun(Crowd(0), es)
  {
    NewcomersAreAClaim();
    forall k | 0 <= k < |es|
      ensures Legal(Exec(Crowd(0), es[..k]), es[k])
    {
      CrowdGathers(k);
      CrowdMembers(k, k + 1);
      assert es[..k] == Creates(k);
    }
  }

  /**
   * The rank alone is no bound: monitor 0 has rank 1 at the very instant it falls due, 500 others are created
   * at that instant, and the tick may take those.
   */
  lemma BoundFailsAtTheInstant()
    ensures var es := Creates(CLAIM_LIMIT) + [Tick(0, {}, Newcomers(CLAIM_LIMIT))];
      && LegalRun(Crowd(0), es) && Rank(Crowd(0), 0) == 1 <= CLAIM_LIMIT * Chances(es, 0, 0)
      && (forall k | 0 <= k < |es| :: es[k].now == 0 && !Claims(es[k], 0))
  {
    var tick := Tick(0, {}, Newcomers(CLAIM_LIMIT));
    var es := Creates(CLAIM_LIMIT) + [tick];
    TieIsLegal(es);
    NewcomersAreAClaim();
    assert es[..|es| - 1] == Creates(CLAIM_LIMIT) && es[|es| - 1] == tick;
    assert Chances(es, 0, 0) >= 1;
    assert AtOrBefore(Crowd(0), 0) == {0};
  }

  // ---- Claims are at least the interval apart ----

  lemma {:induction false} StampHolds(ms: Table, es: seq<Event>, x: nat)
    requires LegalRun(ms, es) && x in ms
    requires forall k | 0 <= k < |es| :: !Claims(es[k], x) && !(es[k].Create? && es[k].m == x)
    requires forall k | 0 <= k < |es| :: !(es[k].Update? && es[k].m == x && es[k].enabled == Some(true)
               && x in Exec(ms, es[..k]) && !Exec(ms, es[..k])[x].enabled)
    ensures x in Exec(ms, es) ==> Exec(ms, es)[x].nextRunAt == ms[x].nextRunAt
  {
    if es != [] {
      var before := es[..|es| - 1];
      LegalRunPrefix(ms, es);
      assert forall k | 0 <= k < |before| :: before[..k] == es[..k];
      StampHolds(ms, before, x);
    }
  }

  /** Two claims of a monitor that was not re-enabled in between are the interval of the first apart. */
  lemma ClaimsAreSpaced(ms: Table, first: Event, between: seq<Event>, second: Event, x: nat)
    requires ValidTable(ms) && Legal(ms, first) && Claims(first, x)
    requires LegalRun(Step(ms, first), between)
    requires Legal(Exec(Step(ms, first), between), second) && Claims(second, x)
    requires forall k | 0 <= k < |between| :: !Claims(between[k], x) && !(between[k].Create? && between[k].m == x)
    requires forall k | 0 <= k < |between| ::
             !(between[k].Update? && between[k].m == x && between[k].enabled == Some(true)
               && x in Exec(Step(ms, first), between[..k]) && !Exec(Step(ms, first), between[..k])[x].enabled)
    ensures x in ms && second.now - first.now >= ms[x].interval * SECOND
  {
    assert IsReady(ms, first.now, first.locked, x);
    StampHolds(Step(ms, first), between, x);
    assert IsReady(Exec(Step(ms, first), between), second.now, second.locked, x);
  }

  /**
   * After a claim, and until the monitor is claimed or re-enabled again, it is due exactly the interval stored at
   * the claim later: a tick with room among its 500 takes it if and only if it is enabled, that time has come, and
   * no worker holds its row.
   */
  lemma DueAgainAfterTheInterval(ms: Table, first: Event, between: seq<Event>, tick: Event, x: nat)
    requires ValidTable(ms) && Legal(ms, first) && Claims(first, x)
    requires LegalRun(Step(ms, first), between)
    requires forall k | 0 <= k < |between| :: !Claims(between[k], x) && !(between[k].Create? && between[k].m == x)
    requires forall k | 0 <= k < |between| ::
             !(between[k].Update? && between[k].m == x && between[k].enabled == Some(true)
               && x in Exec(Step(ms, first), between[..k]) && !Exec(Step(ms, first), between[..k])[x].enabled)
    requires tick.Tick? && Legal(Exec(Step(ms, first), between), tick) && x in Exec(Step(ms, first), between)
    ensures var after := Exec(Step(ms, first), between);
      && x in ms && after[x].nextRunAt == first.now + ms[x].interval * SECOND
      && (|tick.picked| < 500 ==>
            (x in tick.picked <==>
              after[x].enabled && first.now + ms[x].interval * SECOND <= tick.now && x !in tick.locked))
  {
    assert IsReady(ms, first.now, first.locked, x);
    StampHolds(Step(ms, first), between, x);
  }

  /** What users do to a monitor, and that nothing else does it. */
  lemma EditsTakeEffect(ms: Table, e: Event, x: nat)
    requires Legal(ms, e)
    ensures e.Create? && x == e.m ==> x in Step(ms, e) && Step(ms, e)[x] == Monitor(true, e.now, e.interval)
    ensures e.Delete? && x == e.m ==> x !in Step(ms, e)
    ensures e.Update? && x == e.m && x in ms ==>
      && x in Step(ms, e)
      && (e.enabled.Some? ==> Step(ms, e)[x].enabled == e.enabled.value)
      && (e.enabled.None? ==> Step(ms, e)[x].enabled == ms[x].enabled)
      && (e.interval_.Some? ==> Step(ms, e)[x].interval == e.interval_.value)
      && (e.interval_.None? ==> Step(ms, e)[x].interval == ms[x].interval)
    ensures e.Tick? && x in ms ==>
      && x in Step(ms, e) && Step(ms, e)[x].enabled == ms[x].enabled && Step(ms, e)[x].interval == ms[x].interval
      && (x !in e.picked ==> Step(ms, e)[x] == ms[x])
    ensures !e.Tick? && x != e.m ==> (x in Step(ms, e) <==> x in ms) && (x in ms ==> Step(ms, e)[x] == ms[x])
  {
  }

  /** The queue gets the picked ids it did not refuse. */
  lemma {:induction false} AcceptedAreQueued(picked: seq<nat>, refused: set<nat>, x: nat)
    ensures x in Accepted(picked, refused) <==> x in picked && x !in refused
  {
    if picked != [] {
      var n := |picked| - 1;
      AcceptedAreQueued(picked[..n], refused, x);
      assert picked == picked[..n] + [picked[n]];
    }
  }
}
