/** apps/notifier/cmd/notifier/main.go: one notifier drains the queue, retrying with exponential backoff. */
module Notifier {
  import opened Common

  const MAX_ATTEMPTS := 6
  const PASS_LIMIT := 50

  datatype Status = Pending | Sent | Failed | Dead

  datatype Row = Row(status: Status, attempts: nat, nextTryAt: Time)

  /** One provider call: for which row, when, whether the message was accepted, and when the row was written then. */
  datatype Attempt = Attempt(id: nat, at: Time, delivered: bool, writtenAt: Time)

  /** The notifications table (a row's id is its index) and everything that was ever sent out. */
  datatype Mailbox = Mailbox(rows: seq<Row>, log: seq<Attempt>)

  predicate Settled(r: Row) { r.status == Sent || r.status == Dead }

  predicate IsDue(r: Row, now: Time) { !Settled(r) && r.nextTryAt <= now }

  /** SELECT ... WHERE due ORDER BY next_try_at LIMIT 50; ties may fall either way. */
  ghost predicate IsPick(rows: seq<Row>, now: Time, picked: seq<nat>) {
    && |picked| <= PASS_LIMIT
    && (forall k | 0 <= k < |picked| :: picked[k] < |rows| && IsDue(rows[picked[k]], now))
    && (forall j, k | 0 <= j < k < |picked| ::
          picked[j] != picked[k] && rows[picked[j]].nextTryAt <= rows[picked[k]].nextTryAt)
    && (forall i: nat | i < |rows| && IsDue(rows[i], now) && i !in picked ::
          |picked| == PASS_LIMIT && forall k | 0 <= k < |picked| :: rows[picked[k]].nextTryAt <= rows[i].nextTryAt)
  }

  function Power2(n: nat): (p: nat)
    ensures p >= 1
  {
    if n == 0 then 1 else 2 * Power2(n - 1)
  }

  /** How one job went: sent when, accepted or not, row written when, and whether that write went through. */
  datatype Try = Try(sentAt: Time, delivered: bool, writtenAt: Time, stored: bool)

  function AfterTry(r: Row, t: Try): Row {
    if !t.stored then r
    else if t.delivered then r.(status := Sent, attempts := r.attempts + 1)
    else
      var attempts := r.attempts + 1;
      Row(if attempts >= MAX_ATTEMPTS then Dead else Failed, attempts, t.writtenAt + Power2(attempts - 1) * MINUTE)
  }

  function Deliver(box: Mailbox, id: nat, t: Try): Mailbox {
    if id < |box.rows| then
      Mailbox(box.rows[id := AfterTry(box.rows[id], t)], box.log + [Attempt(id, t.sentAt, t.delivered, t.writtenAt)])
    else box
  }

  /** The jobs of one pass, one after another. */
  function DeliverAll(box: Mailbox, picked: seq<nat>, tries: seq<Try>): (r: Mailbox)
    requires |picked| == |tries|
    ensures |r.rows| == |box.rows|
  {
    if picked == [] then box
    else
      var n := |picked| - 1;
      Deliver(DeliverAll(box, picked[..n], tries[..n]), picked[n], tries[n])
  }

  lemma DeliverOneMore(box: Mailbox, picked: seq<nat>, tries: seq<Try>, k: nat)
    requires k < |picked| == |tries|
    ensures DeliverAll(box, picked[..k + 1], tries[..k + 1])
         == Deliver(DeliverAll(box, picked[..k], tries[..k]), picked[k], tries[k])
  {
    assert picked[..k + 1][..k] == picked[..k] && tries[..k + 1][..k] == tries[..k];
  }

  class Service {
    var rows: seq<Row>
    var log: seq<Attempt>

    function State(): Mailbox
      reads this
    {
      Mailbox(rows, log)
    }

    /** One job: `attempts` as the SELECT read them, the fate of the message and of the row's update as inputs. */
    method DeliverOne(id: nat, attempts: nat, t: Try)
      requires id < |rows| && attempts == rows[id].attempts
      modifies this
      ensures State() == Deliver(old(State()), id, t)
    {
      log := log + [Attempt(id, t.sentAt, t.delivered, t.writtenAt)];
      if t.delivered {
        if t.stored {
          rows := rows[id := rows[id].(status := Sent, attempts := rows[id].attempts + 1)];
        }
      } else {
        var tried := attempts + 1;
        var status := Failed;
        if tried >= MAX_ATTEMPTS {
          status := Dead;
        }
        var backoff := Power2(tried - 1) * MINUTE;
        if t.stored {
          rows := rows[id := Row(status, tried, t.writtenAt + backoff)];
        }
      }
    }

    /** One pass; the clock, the choice of rows and the fate of each job are inputs. */
    method Drain(now: Time, picked: seq<nat>, tries: seq<Try>)
      requires IsPick(rows, now, picked) && |tries| == |picked|
      modifies this
      ensures State() == DeliverAll(old(State()), picked, tries)
    {
      var jobs := rows;  // what the SELECT returned: attempts are counted from this reading
      var k := 0;
      while k < |picked|
        invariant 0 <= k <= |picked|
        invariant |rows| == |jobs|
        invariant forall j | k <= j < |picked| :: rows[picked[j]] == jobs[picked[j]]
        invariant State() == DeliverAll(old(State()), picked[..k], tries[..k])
      {
        DeliverOneMore(old(State()), picked, tries, k);
        DeliverOne(picked[k], jobs[picked[k]].attempts, tries[k]);
        k := k + 1;
      }
      assert picked[..|picked|] == picked && tries[..|tries|] == tries;
    }
  }

  // ---- Runs of one notifier, with rows queued in between ----

  datatype Event = Enqueue(at: Time) | Pass(now: Time, picked: seq<nat>, tries: seq<Try>)

  /** Any send may fail, and so may any update of a row. */
  ghost predicate Legal(box: Mailbox, e: Event) {
    e.Pass? ==>
      && IsPick(box.rows, e.now, e.picked) && |e.tries| == |e.picked|
      && forall k | 0 <= k < |e.tries| :: e.now <= e.tries[k].sentAt <= e.tries[k].writtenAt
  }

  /** What a run's row updates must be for a claim to hold: all of them stored, or those after a delivery. */
  datatype Care = AllStored | DeliveriesStored

  predicate Heeds(t: Try, care: Care) { t.stored || (care == DeliveriesStored && !t.delivered) }

  ghost predicate HeedsAll(e: Event, care: Care) {
    e.Pass? ==> forall k | 0 <= k < |e.tries| :: Heeds(e.tries[k], care)
  }

  ghost predicate HeedsThroughout(es: seq<Event>, care: Care) {
    forall k | 0 <= k < |es| :: HeedsAll(es[k], care)
  }

  function Step(box: Mailbox, e: Event): Mailbox {
    match e
    case Enqueue(at) => box.(rows := box.rows + [Row(Pending, 0, at)])
    case Pass(now, picked, tries) => if |picked| == |tries| then DeliverAll(box, picked, tries) else box
  }

  function Exec(es: seq<Event>): Mailbox {
    if es == [] then Mailbox([], []) else Step(Exec(es[..|es| - 1]), es[|es| - 1])
  }

  ghost predicate LegalRun(es: seq<Event>) {
    forall k | 0 <= k < |es| :: Legal(Exec(es[..k]), es[k])
  }

  // ---- The life of one row ----

  function LogOf(log: seq<Attempt>, id: nat): seq<Attempt> {
    if log == [] then []
    else LogOf(log[..|log| - 1], id) + if log[|log| - 1].id == id then [log[|log| - 1]] else []
  }

  /** A row and the attempts made for it; if all updates were stored, the row knows of every one of them. */
  ghost predicate Life(r: Row, l: seq<Attempt>, care: Care) {
    && r.attempts <= |l| && r.attempts <= MAX_ATTEMPTS
    && (forall k | 0 <= k < |l| - 1 :: !l[k].delivered)
    && (r.status == Sent <==> l != [] && l[|l| - 1].delivered)
    && (r.status == Pending <==> r.attempts == 0)
    && (r.status == Dead <==> r.attempts == MAX_ATTEMPTS && r.status != Sent)
    && (care == AllStored ==> Timely(r, l))
  }

  ghost predicate Timely(r: Row, l: seq<Attempt>) {
    && r.attempts == |l|
    && (forall k | 0 <= k < |l| :: l[k].at <= l[k].writtenAt)
    && (forall k | 0 < k < |l| :: l[k - 1].writtenAt + Power2(k - 1) * MINUTE <= l[k].at)
    && (r.status == Failed ==> l != [] && r.nextTryAt == l[|l| - 1].writtenAt + Power2(|l| - 1) * MINUTE)
  }

  ghost predicate Lives(box: Mailbox, care: Care) {
    && (forall i: nat | i < |box.rows| :: Life(box.rows[i], LogOf(box.log, i), care))
    && (forall k | 0 <= k < |box.log| :: box.log[k].id < |box.rows|)
  }

  lemma LifeGoesOn(r: Row, l: seq<Attempt>, id: nat, now: Time, t: Try, care: Care)
    requires Life(r, l, care) && IsDue(r, now) && now <= t.sentAt <= t.writtenAt && Heeds(t, care)
    ensures Life(AfterTry(r, t), l + [Attempt(id, t.sentAt, t.delivered, t.writtenAt)], care)
    ensures if t.stored then Remaining(AfterTry(r, t)) < Remaining(r) else AfterTry(r, t) == r
  {
  }

  lemma LogOfAppend(log: seq<Attempt>, a: Attempt, id: nat)
    ensures LogOf(log + [a], id) == LogOf(log, id) + if a.id == id then [a] else []
  {
    assert (log + [a])[..|log|] == log;
  }

  lemma DeliverLives(box: Mailbox, id: nat, t: Try, now: Time, care: Care)
    requires Lives(box, care) && id < |box.rows| && IsDue(box.rows[id], now)
    requires now <= t.sentAt <= t.writtenAt && Heeds(t, care)
    ensures Lives(Deliver(box, id, t), care)
    ensures Measure(Deliver(box, id, t).rows) + (if t.stored then 1 else 0) <= Measure(box.rows)
  {
    var after, a := Deliver(box, id, t), Attempt(id, t.sentAt, t.delivered, t.writtenAt);
    LifeGoesOn(box.rows[id], LogOf(box.log, id), id, now, t, care);
    MeasureUpdate(box.rows, id, after.rows[id]);
    forall i: nat | i < |after.rows|
      ensures Life(after.rows[i], LogOf(after.log, i), care)
    {
      LogOfAppend(box.log, a, i);
      if i != id { assert LogOf(after.log, i) == LogOf(box.log, i) && after.rows[i] == box.rows[i]; }
    }
  }

  /** The rows and tries of a pass from position k on are still to come. */
  ghost predicate ToDo(rows: seq<Row>, now: Time, picked: seq<nat>, tries: seq<Try>, care: Care) {
    && |picked| == |tries|
    && (forall k | 0 <= k < |picked| :: picked[k] < |rows| && IsDue(rows[picked[k]], now))
    && (forall j, k | 0 <= j < k < |picked| :: picked[j] != picked[k])
    && (forall k | 0 <= k < |tries| :: now <= tries[k].sentAt <= tries[k].writtenAt && Heeds(tries[k], care))
  }

  /** A pass leaves rows it did not pick alone. */
  lemma {:induction false} PassFrame(box: Mailbox, picked: seq<nat>, tries: seq<Try>, i: nat)
    requires |picked| == |tries| && i < |box.rows| && i !in picked
    ensures DeliverAll(box, picked, tries).rows[i] == box.rows[i]
  {
    if picked != [] {
      var n := |picked| - 1;
      PassFrame(box, picked[..n], tries[..n], i);
      assert picked[n] in picked;
    }
  }

  lemma ToDoPrefix(rows: seq<Row>, now: Time, picked: seq<nat>, tries: seq<Try>, care: Care)
    requires ToDo(rows, now, picked, tries, care) && picked != []
    ensures var n := |picked| - 1; ToDo(rows, now, picked[..n], tries[..n], care) && picked[n] !in picked[..n]
  {
  }

  function StoredCount(tries: seq<Try>): nat {
    if tries == [] then 0 else StoredCount(tries[..|tries| - 1]) + if tries[|tries| - 1].stored then 1 else 0
  }

  lemma {:induction false} AllAreStored(tries: seq<Try>)
    requires forall k | 0 <= k < |tries| :: tries[k].stored
    ensures StoredCount(tries) == |tries|
  {
    if tries != [] { AllAreStored(tries[..|tries| - 1]); }
  }

  /** A pass keeps the bookkeeping of every row, and each update that is stored uses up the measure. */
  lemma {:induction false} PassEffect(box: Mailbox, now: Time, picked: seq<nat>, tries: seq<Try>, care: Care)
    requires Lives(box, care) && ToDo(box.rows, now, picked, tries, care)
    ensures Lives(DeliverAll(box, picked, tries), care)
    ensures Measure(DeliverAll(box, picked, tries).rows) + StoredCount(tries) <= Measure(box.rows)
    decreases |picked|
  {
    if picked != [] {
      var n := |picked| - 1;
      ToDoPrefix(box.rows, now, picked, tries, care);
      PassEffect(box, now, picked[..n], tries[..n], care);
      PassFrame(box, picked[..n], tries[..n], picked[n]);
      DeliverLives(DeliverAll(box, picked[..n], tries[..n]), picked[n], tries[n], now, care);
    }
  }

  function Remaining(r: Row): nat {
    if Settled(r) || r.attempts > MAX_ATTEMPTS then 0 else MAX_ATTEMPTS - r.attempts
  }

  /** The sum of (6 - attempts) over the rows still to be settled. */
  function Measure(rows: seq<Row>): nat {
    if rows == [] then 0 else Measure(rows[..|rows| - 1]) + Remaining(rows[|rows| - 1])
  }

  lemma {:induction false} MeasureUpdate(rows: seq<Row>, i: nat, r: Row)
    requires i < |rows|
    ensures Measure(rows[i := r]) == Measure(rows) - Remaining(rows[i]) + Remaining(r)
  {
    var n := |rows| - 1;
    if i < n {
      MeasureUpdate(rows[..n], i, r);
      assert rows[i := r][..n] == rows[..n][i := r];
    } else {
      assert rows[i := r][..n] == rows[..n];
    }
  }

  lemma {:induction false} NoLogBeforeRow(log: seq<Attempt>, id: nat)
    requires forall k | 0 <= k < |log| :: log[k].id < id
    ensures LogOf(log, id) == []
  {
    if log != [] { NoLogBeforeRow(log[..|log| - 1], id); }
  }

  lemma LegalRunPrefix(es: seq<Event>)
    requires es != [] && LegalRun(es)
    ensures LegalRun(es[..|es| - 1]) && Legal(Exec(es[..|es| - 1]), es[|es| - 1])
  {
    var before := es[..|es| - 1];
    assert forall k | 0 <= k < |before| :: before[..k] == es[..k];
  }

  lemma LegalRunBefore(es: seq<Event>, e: Event)
    requires LegalRun(es + [e])
    ensures LegalRun(es) && Legal(Exec(es), e) && Exec(es + [e]) == Step(Exec(es), e)
  {
    assert (es + [e])[..|es|] == es && (es + [e])[|es|] == e;
    LegalRunPrefix(es + [e]);
  }

  lemma LegalRunAppend(es: seq<Event>, e: Event)
    requires LegalRun(es) && Legal(Exec(es), e)
    ensures LegalRun(es + [e]) && Exec(es + [e]) == Step(Exec(es), e)
  {
    assert (es + [e])[..|es|] == es;
    forall k | 0 <= k < |es| + 1
      ensures Legal(Exec((es + [e])[..k]), (es + [e])[k])
    {
      if k < |es| { assert (es + [e])[..k] == es[..k]; }
    }
  }

  lemma {:induction false} EveryRunLives(es: seq<Event>, care: Care)
    requires LegalRun(es) && HeedsThroughout(es, care)
    ensures Lives(Exec(es), care)
  {
    if es != [] {
      var before, e := es[..|es| - 1], es[|es| - 1];
      LegalRunPrefix(es);
      EveryRunLives(before, care);
      LivesStep(Exec(before), e, care);
    }
  }

  lemma LivesStep(box: Mailbox, e: Event, care: Care)
    requires Lives(box, care) && Legal(box, e) && HeedsAll(e, care)
    ensures Lives(Step(box, e), care)
  {
    match e
    case Enqueue(at) => NoLogBeforeRow(box.log, |box.rows|);
    case Pass(now, picked, tries) => PassEffect(box, now, picked, tries, care);
  }

  // ---- What that means for every notification ----

  /** No notification is accepted by its provider twice. */
  ghost predicate AtMostOnce(log: seq<Attempt>) {
    forall j, k | 0 <= j < k < |log| && log[j].id == log[k].id :: !(log[j].delivered && log[k].delivered)
  }

  lemma {:induction false} LogOfMember(log: seq<Attempt>, id: nat, k: nat) returns (i: nat)
    requires k < |log| && log[k].id == id
    ensures i < |LogOf(log, id)| && LogOf(log, id)[i] == log[k]
    ensures i == |LogOf(log[..k], id)|
  {
    var n := |log| - 1;
    if k == n {
      i := |LogOf(log[..n], id)|;
    } else {
      i := LogOfMember(log[..n], id, k);
      assert log[..n][..k] == log[..k];
    }
  }

  lemma {:induction false} LogOfGrows(log: seq<Attempt>, id: nat, j: nat, k: nat)
    requires j < k <= |log| && log[j].id == id
    ensures |LogOf(log[..j], id)| < |LogOf(log[..k], id)|
  {
    assert log[..k][..k - 1] == log[..k - 1];
    if j < k - 1 { LogOfGrows(log, id, j, k - 1); }
  }

  /**
   * If the update after each accepted message is stored, then whatever else fails no message is accepted
   * twice, and a row is sent if and only if its message was.
   */
  lemma DeliveredAtMostOnce(es: seq<Event>)
    requires LegalRun(es) && HeedsThroughout(es, DeliveriesStored)
    ensures AtMostOnce(Exec(es).log)
    ensures forall id: nat | id < |Exec(es).rows| ::
      Exec(es).rows[id].status == Sent <==> exists k | 0 <= k < |Exec(es).log| ::
        Exec(es).log[k].id == id && Exec(es).log[k].delivered
  {
    EveryRunLives(es, DeliveriesStored);
    var box := Exec(es);
    forall j, k | 0 <= j < k < |box.log| && box.log[j].id == box.log[k].id
      ensures !(box.log[j].delivered && box.log[k].delivered)
    {
      var i := LogOfMember(box.log, box.log[k].id, j);
      var i' := LogOfMember(box.log, box.log[k].id, k);
      LogOfGrows(box.log, box.log[k].id, j, k);
      assert Life(box.rows[box.log[k].id], LogOf(box.log, box.log[k].id), DeliveriesStored);
    }
    forall id: nat | id < |box.rows|
      ensures box.rows[id].status == Sent <==>
        exists k | 0 <= k < |box.log| :: box.log[k].id == id && box.log[k].delivered
    {
      SentIffDelivered(box, id);
    }
  }

  lemma {:induction false} LogOfComesFrom(log: seq<Attempt>, id: nat, i: nat) returns (k: nat)
    requires i < |LogOf(log, id)|
    ensures k < |log| && log[k] == LogOf(log, id)[i] && log[k].id == id
  {
    var n := |log| - 1;
    if i < |LogOf(log[..n], id)| {
      k := LogOfComesFrom(log[..n], id, i);
    } else {
      k := n;
    }
  }

  lemma SentIffDelivered(box: Mailbox, id: nat)
    requires Lives(box, DeliveriesStored) && id < |box.rows|
    ensures box.rows[id].status == Sent <==>
      exists k | 0 <= k < |box.log| :: box.log[k].id == id && box.log[k].delivered
  {
    var l := LogOf(box.log, id);
    assert Life(box.rows[id], l, DeliveriesStored);
    if box.rows[id].status == Sent {
      var k := LogOfComesFrom(box.log, id, |l| - 1);
    }
    if k :| 0 <= k < |box.log| && box.log[k].id == id && box.log[k].delivered {
      var i := LogOfMember(box.log, id, k);
    }
  }

  /**
   * If every update is stored: at most 6 attempts; dead means exactly 6 failures, the last at least 31 minutes
   * after the first.
   */
  lemma DeadMeansSixFailures(es: seq<Event>, id: nat)
    requires LegalRun(es) && HeedsThroughout(es, AllStored) && id < |Exec(es).rows|
    ensures var r, l := Exec(es).rows[id], LogOf(Exec(es).log, id);
      && |l| <= MAX_ATTEMPTS
      && (r.status == Dead <==> |l| == 6 && forall k | 0 <= k < |l| :: !l[k].delivered)
      && (r.status == Dead ==> l[0].at + 31 * MINUTE <= l[5].at)
  {
    EveryRunLives(es, AllStored);
    var l := LogOf(Exec(es).log, id);
    assert Life(Exec(es).rows[id], l, AllStored);
    assert Power2(0) == 1 && Power2(1) == 2 && Power2(2) == 4 && Power2(3) == 8 && Power2(4) == 16;
    if |l| == 6 {
      assert forall k | 0 < k < 6 :: l[k - 1].writtenAt + Power2(k - 1) * MINUTE <= l[k].at;
      assert l[0].at + MINUTE <= l[1].at && l[1].at + 2 * MINUTE <= l[2].at && l[2].at + 4 * MINUTE <= l[3].at;
    }
  }

  /**
   * If every update is stored: a failed row is due exactly 1, 2, 4, 8 or 16 minutes after its last attempt was
   * written, according to whether that was its first, second, third, fourth or fifth.
   */
  lemma BackoffIsExact(es: seq<Event>, id: nat)
    requires LegalRun(es) && HeedsThroughout(es, AllStored)
    requires id < |Exec(es).rows| && Exec(es).rows[id].status == Failed
    ensures var l := LogOf(Exec(es).log, id);
      && 1 <= |l| <= 5 && !l[|l| - 1].delivered
      && Exec(es).rows[id].nextTryAt == l[|l| - 1].writtenAt + [1, 2, 4, 8, 16][|l| - 1] * MINUTE
  {
    EveryRunLives(es, AllStored);
    BackoffOf(Exec(es).rows[id], LogOf(Exec(es).log, id));
  }

  lemma BackoffOf(r: Row, l: seq<Attempt>)
    requires Life(r, l, AllStored) && r.status == Failed
    ensures 1 <= |l| <= 5 && !l[|l| - 1].delivered
    ensures r.nextTryAt == l[|l| - 1].writtenAt + [1, 2, 4, 8, 16][|l| - 1] * MINUTE
  {
    assert Power2(0) == 1 && Power2(1) == 2 && Power2(2) == 4 && Power2(3) == 8 && Power2(4) == 16;
    assert |l| == 1 || |l| == 2 || |l| == 3 || |l| == 4 || |l| == 5;
  }

  /** A pass with room among its 50 attempts every row that is pending or failed and due, and no other. */
  lemma DueRowsAreAttempted(box: Mailbox, e: Event, id: nat)
    requires e.Pass? && Legal(box, e) && |e.picked| < 50 && id < |box.rows|
    ensures id in e.picked <==>
      (box.rows[id].status == Pending || box.rows[id].status == Failed) && box.rows[id].nextTryAt <= e.now
  {
  }

  /** A row just queued is due at once. */
  lemma NewRowsAreAttempted(box: Mailbox, at: Time, e: Event)
    requires e.Pass? && Legal(Step(box, Enqueue(at)), e) && |e.picked| < 50 && at <= e.now
    ensures |box.rows| in e.picked
  {
    DueRowsAreAttempted(Step(box, Enqueue(at)), e, |box.rows|);
  }

  /** A full one attempts none that is due later than one it leaves out. */
  lemma EarliestAreAttempted(box: Mailbox, e: Event, id: nat, other: nat)
    requires e.Pass? && Legal(box, e) && id < |box.rows| && id !in e.picked && other in e.picked
    requires (box.rows[id].status == Pending || box.rows[id].status == Failed) && box.rows[id].nextTryAt <= e.now
    ensures |e.picked| == 50 && box.rows[other].nextTryAt <= box.rows[id].nextTryAt
  {
  }

  /** Sent and dead are final, whatever is lost: no event touches a settled row. */
  lemma SettledStays(box: Mailbox, e: Event, id: nat)
    requires Legal(box, e) && id < |box.rows| && Settled(box.rows[id])
    ensures id < |Step(box, e).rows| && Step(box, e).rows[id] == box.rows[id]
  {
    if e.Pass? { PassFrame(box, e.picked, e.tries, id); }
  }

  lemma {:induction false} SettledIsFinal(es: seq<Event>, more: seq<Event>, id: nat)
    requires LegalRun(es + more) && id < |Exec(es).rows| && Settled(Exec(es).rows[id])
    ensures id < |Exec(es + more).rows| && Exec(es + more).rows[id] == Exec(es).rows[id]
  {
    if more == [] {
      assert es + more == es;
    } else {
      var before, e := es + more[..|more| - 1], more[|more| - 1];
      assert es + more == before + [e];
      assert (before + [e])[..|before|] == before;
      LegalRunPrefix(before + [e]);
      SettledIsFinal(es, more[..|more| - 1], id);
      SettledStays(Exec(before), e, id);
    }
  }

  /** Each stored update of a pass uses up the measure. */
  lemma PassSettles(es: seq<Event>, e: Event)
    requires LegalRun(es) && HeedsThroughout(es, DeliveriesStored) && Legal(Exec(es), e) && e.Pass?
    requires HeedsAll(e, DeliveriesStored)
    ensures Measure(Step(Exec(es), e).rows) + StoredCount(e.tries) <= Measure(Exec(es).rows)
  {
    EveryRunLives(es, DeliveriesStored);
    PassEffect(Exec(es), e.now, e.picked, e.tries, DeliveriesStored);
  }

  lemma HeedsWeaker(es: seq<Event>)
    requires HeedsThroughout(es, AllStored)
    ensures HeedsThroughout(es, DeliveriesStored)
  {
    forall k | 0 <= k < |es| ensures HeedsAll(es[k], DeliveriesStored) {
      assert HeedsAll(es[k], AllStored);
    }
  }

  lemma PassUsesMeasure(es: seq<Event>, e: Event)
    requires LegalRun(es) && Legal(Exec(es), e) && e.Pass? && HeedsThroughout(es + [e], AllStored)
    ensures Measure(Step(Exec(es), e).rows) + |e.picked| <= Measure(Exec(es).rows)
  {
    assert (es + [e])[|es|] == e && forall k | 0 <= k < |es| :: (es + [e])[k] == es[k];
    HeedsWeaker(es);
    assert HeedsAll(e, AllStored);
    PassSettles(es, e);
    AllAreStored(e.tries);
  }

  lemma HeedsBefore(es: seq<Event>, e: Event, care: Care)
    requires HeedsThroughout(es + [e], care)
    ensures HeedsThroughout(es, care)
  {
    forall k | 0 <= k < |es| ensures HeedsAll(es[k], care) {
      assert (es + [e])[k] == es[k];
    }
  }

  /** So without new rows or lost updates at most as many passes pick anything as the measure says. */
  lemma {:induction false} PassesAreFinite(queued: seq<Event>, passes: seq<Event>)
    requires LegalRun(queued + passes) && HeedsThroughout(queued + passes, AllStored)
    requires forall k | 0 <= k < |passes| :: passes[k].Pass? && passes[k].picked != []
    ensures |passes| + Measure(Exec(queued + passes).rows) <= Measure(Exec(queued).rows)
  {
    if passes == [] {
      assert queued + passes == queued;
    } else {
      var n := |passes| - 1;
      var before, e := queued + passes[..n], passes[n];
      assert queued + passes == before + [e];
      LegalRunBefore(before, e);
      HeedsBefore(before, e, AllStored);
      PassesAreFinite(queued, passes[..n]);
      PassUsesMeasure(before, e);
    }
  }

  // ---- Exactly the lost update of a delivered message makes a second delivery possible ----

  /** A pass in which every message is accepted and every update stored. */
  function AllGoesWell(now: Time, picked: seq<nat>): Event {
    Pass(now, picked, seq(|picked|, _ => Try(now, true, now, true)))
  }

  function Unsettled(rows: seq<Row>): set<nat> {
    set i: nat | i < |rows| && !Settled(rows[i])
  }

  function DueIds(rows: seq<Row>, now: Time): set<nat> {
    set i: nat | i < |rows| && IsDue(rows[i], now)
  }

  /** There is always a pick. */
  lemma {:induction false} PickExists(rows: seq<Row>, due: set<nat>, now: Time, limit: nat) returns (picked: seq<nat>)
    requires forall i | i in due :: i < |rows|
    ensures |picked| <= limit && forall k | 0 <= k < |picked| :: picked[k] in due
    ensures forall j, k | 0 <= j < k < |picked| ::
      picked[j] != picked[k] && rows[picked[j]].nextTryAt <= rows[picked[k]].nextTryAt
    ensures forall i | i in due && i !in picked ::
      |picked| == limit && forall k | 0 <= k < |picked| :: rows[picked[k]].nextTryAt <= rows[i].nextTryAt
    decreases limit
  {
    picked := [];
    if limit > 0 && due != {} {
      var first := Earliest(rows, due);
      var rest := PickExists(rows, due - {first}, now, limit - 1);
      picked := [first] + rest;
    }
  }

  lemma {:induction false} Earliest(rows: seq<Row>, due: set<nat>) returns (first: nat)
    requires due != {} && forall i | i in due :: i < |rows|
    ensures first in due && forall i | i in due :: rows[first].nextTryAt <= rows[i].nextTryAt
    decreases |due|
  {
    first :| first in due;
    if due != {first} {
      assert due - {first} != {};
      var other := Earliest(rows, due - {first});
      if rows[other].nextTryAt < rows[first].nextTryAt { first := other; }
    }
  }

  lemma {:induction false} AllGoesWellEffect(box: Mailbox, now: Time, picked: seq<nat>)
    requires forall k | 0 <= k < |picked| :: picked[k] < |box.rows|
    requires forall j, k | 0 <= j < k < |picked| :: picked[j] != picked[k]
    ensures var after := DeliverAll(box, picked, AllGoesWell(now, picked).tries);
      && box.log <= after.log && |after.log| == |box.log| + |picked|
      && (forall i | i in picked :: i < |after.rows| && after.rows[i].status == Sent)
      && forall k | 0 <= k < |picked| :: after.log[|box.log| + k] == Attempt(picked[k], now, true, now)
  {
    if picked != [] {
      var n := |picked| - 1;
      var tries := AllGoesWell(now, picked).tries;
      assert tries[..n] == AllGoesWell(now, picked[..n]).tries;
      AllGoesWellEffect(box, now, picked[..n]);
      assert picked == picked[..n] + [picked[n]];
    }
  }

  lemma FewerUnsettled(box: Mailbox, now: Time, picked: seq<nat>)
    requires IsPick(box.rows, now, picked) && picked != []
    ensures |Unsettled(DeliverAll(box, picked, AllGoesWell(now, picked).tries).rows)| < |Unsettled(box.rows)|
  {
    var after := DeliverAll(box, picked, AllGoesWell(now, picked).tries);
    AllGoesWellEffect(box, now, picked);
    forall i | i in Unsettled(after.rows)
      ensures i in Unsettled(box.rows) && i != picked[0]
    {
      if i !in picked { PassFrame(box, picked, AllGoesWell(now, picked).tries, i); }
    }
    assert Unsettled(after.rows) <= Unsettled(box.rows) - {picked[0]};
    SubsetCount(Unsettled(after.rows), Unsettled(box.rows) - {picked[0]});
  }

  ghost predicate DeliveredSince(before: seq<Attempt>, after: seq<Attempt>, id: nat) {
    before <= after && exists k | |before| <= k < |after| :: after[k].id == id && after[k].delivered
  }

  lemma DuePick(rows: seq<Row>, now: Time) returns (picked: seq<nat>)
    ensures IsPick(rows, now, picked)
  {
    picked := PickExists(rows, DueIds(rows, now), now, PASS_LIMIT);
    assert forall i: nat | i < |rows| && IsDue(rows[i], now) :: i in DueIds(rows, now);
  }

  lemma PickIsDelivered(box: Mailbox, id: nat, now: Time, picked: seq<nat>)
    requires IsPick(box.rows, now, picked) && id in picked
    ensures DeliveredSince(box.log, Step(box, AllGoesWell(now, picked)).log, id)
  {
    AllGoesWellEffect(box, now, picked);
    var k :| 0 <= k < |picked| && picked[k] == id;
    assert Step(box, AllGoesWell(now, picked)).log[|box.log| + k] == Attempt(id, now, true, now);
  }

  /** A pass in which all goes well delivers the row, or leaves it due behind others that it settles. */
  lemma OnePass(box: Mailbox, id: nat, now: Time) returns (picked: seq<nat>)
    requires id < |box.rows| && IsDue(box.rows[id], now)
    ensures var e := AllGoesWell(now, picked);
      var after := Step(box, e);
      && Legal(box, e) && HeedsAll(e, AllStored) && box.log <= after.log
      && (|| DeliveredSince(box.log, after.log, id)
          || (id < |after.rows| && IsDue(after.rows[id], now) && |Unsettled(after.rows)| < |Unsettled(box.rows)|))
  {
    picked := DuePick(box.rows, now);
    AllGoesWellEffect(box, now, picked);
    if id in picked {
      PickIsDelivered(box, id, now, picked);
    } else {
      PassFrame(box, picked, AllGoesWell(now, picked).tries, id);
      FewerUnsettled(box, now, picked);
    }
  }

  lemma HeedsFirst(e: Event, rest: seq<Event>, care: Care)
    requires HeedsAll(e, care) && HeedsThroughout(rest, care)
    ensures HeedsThroughout([e] + rest, care)
  {
  }

  lemma DeliveredLater(a: seq<Attempt>, b: seq<Attempt>, c: seq<Attempt>, id: nat)
    requires a <= b && DeliveredSince(b, c, id)
    ensures DeliveredSince(a, c, id)
  {
  }

  /** A continuation without faults in which id is delivered. */
  ghost predicate Delivers(es: seq<Event>, more: seq<Event>, id: nat) {
    && LegalRun(es + more) && HeedsThroughout(more, AllStored)
    && DeliveredSince(Exec(es).log, Exec(es + more).log, id)
  }

  lemma DeliversFirst(es: seq<Event>, e: Event, rest: seq<Event>, id: nat)
    requires HeedsAll(e, AllStored) && Exec(es).log <= Exec(es + [e]).log && Delivers(es + [e], rest, id)
    ensures Delivers(es, [e] + rest, id)
  {
    HeedsFirst(e, rest, AllStored);
    var all := es + [e] + rest;
    assert es + ([e] + rest) == all;
    assert LegalRun(all);
    DeliveredLater(Exec(es).log, Exec(es + [e]).log, Exec(all).log, id);
  }

  lemma DeliversAtOnce(es: seq<Event>, e: Event, id: nat)
    requires LegalRun(es + [e]) && HeedsAll(e, AllStored) && DeliveredSince(Exec(es).log, Exec(es + [e]).log, id)
    ensures Delivers(es, [e], id)
  {
  }

  /** A due row is delivered in some continuation in which nothing at all fails. */
  lemma {:induction false} SomeContinuationDelivers(es: seq<Event>, id: nat, now: Time) returns (more: seq<Event>)
    requires LegalRun(es) && id < |Exec(es).rows| && IsDue(Exec(es).rows[id], now)
    ensures Delivers(es, more, id)
    decreases |Unsettled(Exec(es).rows)|
  {
    var picked := OnePass(Exec(es), id, now);
    var e := AllGoesWell(now, picked);
    LegalRunAppend(es, e);
    if DeliveredSince(Exec(es).log, Exec(es + [e]).log, id) {
      more := [e];
      DeliversAtOnce(es, e, id);
    } else {
      var rest := SomeContinuationDelivers(es + [e], id, now);
      more := [e] + rest;
      DeliversFirst(es, e, rest, id);
    }
  }

  /** A message accepted whose update is lost leaves its row as it was, due as before. */
  lemma {:induction false} LostDelivery(box: Mailbox, now: Time, picked: seq<nat>, tries: seq<Try>, k: nat)
    requires |picked| == |tries| && k < |picked|
    requires forall j | 0 <= j < |picked| :: picked[j] < |box.rows|
    requires forall i, j | 0 <= i < j < |picked| :: picked[i] != picked[j]
    requires tries[k].delivered && !tries[k].stored
    ensures var after := DeliverAll(box, picked, tries);
      after.rows[picked[k]] == box.rows[picked[k]] && DeliveredSince(box.log, after.log, picked[k])
  {
    var n := |picked| - 1;
    var before := DeliverAll(box, picked[..n], tries[..n]);
    LogGrows(box, picked[..n], tries[..n]);
    if k < n {
      LostDelivery(box, now, picked[..n], tries[..n], k);
      var i :| |box.log| <= i < |before.log| && before.log[i].id == picked[k] && before.log[i].delivered;
      assert DeliverAll(box, picked, tries).log[i] == before.log[i];
    } else {
      PassFrame(box, picked[..n], tries[..n], picked[k]);
      assert DeliverAll(box, picked, tries).log[|before.log|]
          == Attempt(picked[k], tries[k].sentAt, true, tries[k].writtenAt);
    }
  }

  lemma {:induction false} LogGrows(box: Mailbox, picked: seq<nat>, tries: seq<Try>)
    requires |picked| == |tries|
    ensures box.log <= DeliverAll(box, picked, tries).log
  {
    if picked != [] { LogGrows(box, picked[..|picked| - 1], tries[..|picked| - 1]); }
  }

  /** In any run a pass that loses such an update has a legal continuation, without faults, that delivers again. */
  lemma LostDeliveryIsRepeated(es: seq<Event>, e: Event, k: nat) returns (more: seq<Event>)
    requires LegalRun(es) && Legal(Exec(es), e) && e.Pass? && k < |e.tries|
    requires e.tries[k].delivered && !e.tries[k].stored
    ensures LegalRun(es + [e] + more) && HeedsThroughout(more, AllStored)
    ensures !AtMostOnce(Exec(es + [e] + more).log)
  {
    var box, id := Exec(es), e.picked[k];
    LegalRunAppend(es, e);
    LostDelivery(box, e.now, e.picked, e.tries, k);
    var after := Exec(es + [e]);
    var i :| |box.log| <= i < |after.log| && after.log[i].id == id && after.log[i].delivered;
    more := SomeContinuationDelivers(es + [e], id, e.now);
    var log := Exec(es + [e] + more).log;
    var j :| |after.log| <= j < |log| && log[j].id == id && log[j].delivered;
    assert log[i] == after.log[i];
  }

  /**
   * The exact condition: after a pass, at most one delivery of every message is certain, over all continuations
   * that store their deliveries, if and only if the pass stored its own.
   */
  lemma OnceIffDeliveriesStored(es: seq<Event>, e: Event)
    requires LegalRun(es) && HeedsThroughout(es, DeliveriesStored) && Legal(Exec(es), e)
    ensures HeedsAll(e, DeliveriesStored) <==>
      forall more | LegalRun(es + [e] + more) && HeedsThroughout(more, DeliveriesStored) ::
        AtMostOnce(Exec(es + [e] + more).log)
  {
    if HeedsAll(e, DeliveriesStored) {
      forall more | LegalRun(es + [e] + more) && HeedsThroughout(more, DeliveriesStored)
        ensures AtMostOnce(Exec(es + [e] + more).log)
      {
        DeliveredAtMostOnce(es + [e] + more);
      }
    } else {
      var k :| 0 <= k < |e.tries| && !Heeds(e.tries[k], DeliveriesStored);
      var more := LostDeliveryIsRepeated(es, e, k);
      HeedsWeaker(more);
    }
  }
}
