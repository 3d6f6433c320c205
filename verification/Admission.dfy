/**
 * internal/plans/plans.go and the handlers that create monitors and alert channels: count-then-insert
 * under a lock on the tenant row, statement by statement, with everything else running in between.
 */
module Admission {
  import opened Common

  datatype Resource = Monitors | Channels

  datatype Limits = Limits(maxMonitors: nat, maxChannels: nat, minInterval: nat)

  function Max(l: Limits, r: Resource): nat {
    match r case Monitors => l.maxMonitors case Channels => l.maxChannels
  }

  /** A committed row of monitors or alert_channels; only monitors have an interval. */
  datatype Item = Item(tenant: nat, resource: Resource, interval: nat)

  /** How far a request has come. It holds the tenant's row lock from Locked on. */
  datatype Progress =
    | Began
    | Locked
    | KnowsLimits(limits: Limits)
    | Admitted(limits: Limits)
    | Inserted(limits: Limits, id: nat)

  datatype Tx = Tx(item: Item, progress: Progress)

  /** Committed rows, the tenant row locks, and the transactions in progress with their own uncommitted row. */
  datatype Db = Db(plans: map<string, Limits>, planOf: map<nat, string>, items: map<nat, Item>,
                   locks: map<nat, nat>, txs: map<nat, Tx>)

  function ItemsOf(items: map<nat, Item>, tenant: nat, r: Resource): set<nat> {
    set i | i in items && items[i].tenant == tenant && items[i].resource == r
  }

  function Count(items: map<nat, Item>, tenant: nat, r: Resource): nat {
    |ItemsOf(items, tenant, r)|
  }

  // ---- One statement ----

  datatype Statement =
    | Begin(x: nat, item: Item)
    | LockTenant(x: nat)                 // SELECT ... FROM tenants WHERE id=$1 FOR UPDATE
    | ReadLimits(x: nat)                 // plans.Get, and the interval test of CheckMonitor
    | CountItems(x: nat)                 // SELECT count(*), and the limit test
    | Insert(x: nat, id: nat)
    | Commit(x: nat)
    | Rollback(x: nat)                   // a refusal, an error or a crash, at any point
    | ChangePlan(tenant: nat, plan: string) // the webhook's UPDATE tenants
    | DeleteItem(id: nat)

  function At(db: Db, x: nat): Option<Progress> {
    if x in db.txs then Some(db.txs[x].progress) else None
  }

  function Advance(db: Db, x: nat, p: Progress): Db
    requires x in db.txs
  {
    db.(txs := db.txs[x := db.txs[x].(progress := p)])
  }

  /** The transaction ends and gives up its lock, if it has one. */
  function End(db: Db, x: nat): Db
    requires x in db.txs
  {
    var t := db.txs[x].item.tenant;
    db.(txs := db.txs - {x}, locks := if t in db.locks && db.locks[t] == x then db.locks - {t} else db.locks)
  }

  function LimitsOf(db: Db, tenant: nat): Option<Limits> {
    if tenant in db.planOf && db.planOf[tenant] in db.plans then Some(db.plans[db.planOf[tenant]]) else None
  }

  /** A statement that has to wait for a row lock, or is out of place, changes nothing. */
  function Step(db: Db, s: Statement): Db {
    match s
    case Begin(x, item) =>
      if x in db.txs then db else db.(txs := db.txs[x := Tx(item, Began)])
    case LockTenant(x) =>
      if At(db, x) != Some(Began) then db
      else
        var t := db.txs[x].item.tenant;
        if t in db.locks then db
        else if t !in db.planOf then End(db, x)
        else Advance(db, x, Locked).(locks := db.locks[t := x])
    case ReadLimits(x) =>
      if At(db, x) != Some(Locked) then db
      else
        var item := db.txs[x].item;
        var l := LimitsOf(db, item.tenant);
        if l.None? || (item.resource == Monitors && item.interval < l.value.minInterval) then End(db, x)
        else Advance(db, x, KnowsLimits(l.value))
    case CountItems(x) =>
      if At(db, x).None? || !At(db, x).value.KnowsLimits? then db
      else
        var item, l := db.txs[x].item, db.txs[x].progress.limits;
        if Count(db.items, item.tenant, item.resource) >= Max(l, item.resource) then End(db, x)
        else Advance(db, x, Admitted(l))
    case Insert(x, id) =>
      if At(db, x).None? || !At(db, x).value.Admitted? then db
      else if id in db.items then End(db, x)
      else Advance(db, x, Inserted(db.txs[x].progress.limits, id))
    case Commit(x) =>
      if CommitsItem(db, s) then End(db, x).(items := db.items[db.txs[x].progress.id := db.txs[x].item]) else db
    case Rollback(x) =>
      if x in db.txs then End(db, x) else db
    case ChangePlan(t, plan) =>
      if t in db.planOf && t !in db.locks && plan in db.plans then db.(planOf := db.planOf[t := plan]) else db
    case DeleteItem(id) =>
      db.(items := db.items - {id})
  }

  predicate CommitsItem(db: Db, s: Statement) {
    s.Commit? && At(db, s.x).Some? && At(db, s.x).value.Inserted?
  }

  function Exec(db: Db, ss: seq<Statement>): Db {
    if ss == [] then db else Step(Exec(db, ss[..|ss| - 1]), ss[|ss| - 1])
  }

  // ---- The lock fixes the plan and bounds the count from check to commit ----

  /** Any plans, tenants and items, over a limit or not; nothing in progress. */
  ghost predicate Start(db: Db) {
    db.txs == map[] && db.locks == map[]
  }

  ghost predicate TxSound(db: Db, x: nat)
    requires x in db.txs
  {
    var item, p := db.txs[x].item, db.txs[x].progress;
    p != Began ==>
      && item.tenant in db.locks && db.locks[item.tenant] == x
      && (p != Locked ==>
            && LimitsOf(db, item.tenant) == Some(p.limits)
            && (item.resource == Monitors ==> p.limits.minInterval <= item.interval)
            && (!p.KnowsLimits? ==> Count(db.items, item.tenant, item.resource) < Max(p.limits, item.resource)))
  }

  ghost predicate Sound(db: Db) {
    forall x | x in db.txs :: TxSound(db, x)
  }

  lemma CountAfterDelete(items: map<nat, Item>, id: nat, tenant: nat, r: Resource)
    ensures Count(items - {id}, tenant, r) <= Count(items, tenant, r)
  {
    SubsetCount(ItemsOf(items - {id}, tenant, r), ItemsOf(items, tenant, r));
  }

  lemma CountAfterInsert(items: map<nat, Item>, id: nat, item: Item, tenant: nat, r: Resource)
    requires id !in items
    ensures Count(items[id := item], tenant, r) ==
      Count(items, tenant, r) + if item.tenant == tenant && item.resource == r then 1 else 0
  {
    var was, now' := ItemsOf(items, tenant, r), ItemsOf(items[id := item], tenant, r);
    if item.tenant == tenant && item.resource == r {
      assert now' == was + {id};
    } else {
      assert now' == was;
    }
  }

  lemma CountAfterPut(items: map<nat, Item>, id: nat, item: Item, tenant: nat, r: Resource)
    ensures Count(items[id := item], tenant, r) <=
      Count(items, tenant, r) + if item.tenant == tenant && item.resource == r then 1 else 0
  {
    CountAfterDelete(items, id, tenant, r);
    CountAfterInsert(items - {id}, id, item, tenant, r);
    assert items[id := item] == (items - {id})[id := item];
  }

  /** Ending a transaction takes no other transaction's lock. */
  lemma EndSound(db: Db, x: nat)
    requires Sound(db) && x in db.txs
    ensures Sound(End(db, x))
  {
    assert TxSound(db, x);
    forall y | y in End(db, x).txs
      ensures TxSound(End(db, x), y)
    {
      assert TxSound(db, y);
    }
  }

  /** The same for a transaction that moves on with its lock in hand and what it has learnt under it. */
  lemma AdvanceSound(db: Db, x: nat, after: Db)
    requires Sound(db) && x in db.txs && after.txs.Keys == db.txs.Keys
    requires after.plans == db.plans && after.planOf == db.planOf && after.items == db.items
    requires forall y | y in db.txs && y != x :: after.txs[y] == db.txs[y]
    requires
      || after.locks == db.locks
      || (after.locks == db.locks[after.txs[x].item.tenant := x] && after.txs[x].item.tenant !in db.locks)
    requires TxSound(after, x)
    ensures Sound(after)
  {
    forall y | y in after.txs
      ensures TxSound(after, y)
    {
      assert TxSound(db, y);
    }
  }

  /** Changes to committed rows that raise no count and touch no locked tenant's plan. */
  lemma CommittedSound(db: Db, after: Db)
    requires Sound(db) && after.txs == db.txs && after.locks == db.locks
    requires forall t | t in db.locks :: LimitsOf(after, t) == LimitsOf(db, t)
    requires forall x | x in db.txs :: var item := db.txs[x].item;
      Count(after.items, item.tenant, item.resource) <= Count(db.items, item.tenant, item.resource)
    ensures Sound(after)
  {
    forall y | y in after.txs
      ensures TxSound(after, y)
    {
      assert TxSound(db, y);
    }
  }

  lemma CommitSound(db: Db, s: Statement)
    requires Sound(db) && CommitsItem(db, s)
    ensures Sound(Step(db, s))
  {
    var x, ended, after := s.x, End(db, s.x), Step(db, s);
    EndSound(db, x);
    assert TxSound(db, x);
    forall y | y in after.txs
      ensures TxSound(after, y)
    {
      assert TxSound(db, y) && TxSound(ended, y);
      var item := db.txs[y].item;
      CountAfterPut(db.items, db.txs[x].progress.id, db.txs[x].item, item.tenant, item.resource);
    }
  }

  predicate OfRequest(s: Statement) { !s.Begin? && !s.ChangePlan? && !s.DeleteItem? }

  lemma RequestSound(db: Db, s: Statement)
    requires Sound(db) && OfRequest(s) && s.x in db.txs
    ensures Sound(Step(db, s))
  {
    var x, after := s.x, Step(db, s);
    assert TxSound(db, x);
    if CommitsItem(db, s) {
      CommitSound(db, s);
    } else if x !in after.txs {
      EndSound(db, x);
    } else if s.LockTenant? {
      AdvanceSound(db, x, after);
    } else if s.Commit? {
      assert after == db;
    } else {
      AdvanceSound(db, x, after);
    }
  }

  lemma BeginSound(db: Db, s: Statement)
    requires Sound(db) && s.Begin?
    ensures Sound(Step(db, s))
  {
    forall y | y in Step(db, s).txs
      ensures TxSound(Step(db, s), y)
    {
      if y in db.txs { assert TxSound(db, y); }
    }
  }

  lemma OtherSound(db: Db, s: Statement)
    requires Sound(db) && (s.ChangePlan? || s.DeleteItem?)
    ensures Sound(Step(db, s))
  {
    var after := Step(db, s);
    forall x | x in db.txs
      ensures var item := db.txs[x].item;
        Count(after.items, item.tenant, item.resource) <= Count(db.items, item.tenant, item.resource)
    {
      if s.DeleteItem? { CountAfterDelete(db.items, s.id, db.txs[x].item.tenant, db.txs[x].item.resource); }
    }
    CommittedSound(db, after);
  }

  lemma SoundStep(db: Db, s: Statement)
    requires Sound(db)
    ensures Sound(Step(db, s))
  {
    if s.Begin? {
      BeginSound(db, s);
    } else if !OfRequest(s) {
      OtherSound(db, s);
    } else if s.x in db.txs {
      RequestSound(db, s);
    }
  }

  lemma {:induction false} EveryRunIsSound(start: Db, ss: seq<Statement>)
    requires Start(start)
    ensures Sound(Exec(start, ss))
  {
    if ss != [] {
      EveryRunIsSound(start, ss[..|ss| - 1]);
      SoundStep(Exec(start, ss[..|ss| - 1]), ss[|ss| - 1]);
    }
  }

  /**
   * In every interleaving, a committed insert leaves the tenant within the plan in force at that very
   * commit, and a monitor that runs no more often than that plan allows.
   */
  lemma CommitIsWithinThePlan(start: Db, ss: seq<Statement>, s: Statement)
    requires Start(start) && CommitsItem(Exec(start, ss), s)
    ensures var before, after := Exec(start, ss), Step(Exec(start, ss), s);
      var item, limits := before.txs[s.x].item, LimitsOf(after, before.txs[s.x].item.tenant);
      && limits.Some?
      && Count(after.items, item.tenant, item.resource) <= Max(limits.value, item.resource)
      && (item.resource == Monitors ==> limits.value.minInterval <= item.interval)
  {
    var db := Exec(start, ss);
    EveryRunIsSound(start, ss);
    assert TxSound(db, s.x);
    var item := db.txs[s.x].item;
    CountAfterPut(db.items, db.txs[s.x].progress.id, item, item.tenant, item.resource);
  }

  /** Requests of one tenant queue: two of them are never past the lock together. */
  lemma OneRequestPerTenant(start: Db, ss: seq<Statement>, x: nat, y: nat)
    requires Start(start)
    requires var db := Exec(start, ss); x in db.txs && y in db.txs && db.txs[x].item.tenant == db.txs[y].item.tenant
    requires Exec(start, ss).txs[x].progress != Began && Exec(start, ss).txs[y].progress != Began
    ensures x == y
  {
    EveryRunIsSound(start, ss);
    assert TxSound(Exec(start, ss), x) && TxSound(Exec(start, ss), y);
  }

  /** A plan change takes effect if and only if no request of the tenant is past its lock; a delete always does. */
  lemma ChangesTakeEffect(start: Db, ss: seq<Statement>, t: nat, plan: string, id: nat)
    requires Start(start)
    requires var db := Exec(start, ss); t in db.planOf && db.planOf[t] != plan && plan in db.plans
    ensures var db := Exec(start, ss);
      && (Step(db, ChangePlan(t, plan)) == db.(planOf := db.planOf[t := plan]) <==> t !in db.locks)
      && (t in db.locks ==> Step(db, ChangePlan(t, plan)) == db)
      && Step(db, DeleteItem(id)) == db.(items := db.items - {id})
  {
  }

  /** A tenant's row is locked only by a request of that tenant in progress. */
  lemma LocksAreHeld(start: Db, ss: seq<Statement>, t: nat)
    requires Start(start) && t in Exec(start, ss).locks
    ensures var db := Exec(start, ss); db.locks[t] in db.txs && db.txs[db.locks[t]].item.tenant == t
  {
    HeldThroughout(start, ss, t);
  }

  lemma {:induction false} HeldThroughout(start: Db, ss: seq<Statement>, t: nat)
    requires Start(start)
    ensures LockHeld(Exec(start, ss), t)
  {
    if ss != [] {
      var before, s := ss[..|ss| - 1], ss[|ss| - 1];
      HeldThroughout(start, before, t);
      HeldStep(Exec(start, before), s, t);
    }
  }

  lemma HeldStep(db: Db, s: Statement, t: nat)
    requires LockHeld(db, t)
    ensures LockHeld(Step(db, s), t)
  {
    if OfRequest(s) && s.x in db.txs { HeldAfterRequest(db, s, t, Step(db, s)); }
  }

  /** A request's statement ends it, or moves only its own progress, and takes at most its own tenant's lock. */
  lemma HeldAfterRequest(db: Db, s: Statement, t: nat, after: Db)
    requires LockHeld(db, t) && OfRequest(s) && s.x in db.txs && after == Step(db, s)
    ensures LockHeld(after, t)
  {
    match s
    case LockTenant(x) =>
    case ReadLimits(x) =>
    case CountItems(x) =>
    case Insert(x, id) =>
    case Commit(x) =>
    case Rollback(x) =>
  }

  ghost predicate LockHeld(db: Db, t: nat) {
    t in db.locks ==>
      db.locks[t] in db.txs && db.txs[db.locks[t]].item.tenant == t && db.txs[db.locks[t]].progress != Began
  }

  // ---- Runs without a downgrade ----

  predicate WithinPlan(db: Db, tenant: nat, r: Resource) {
    var l := LimitsOf(db, tenant);
    l.Some? && Count(db.items, tenant, r) <= Max(l.value, r)
  }

  predicate Downgrades(db: Db, s: Statement, tenant: nat, r: Resource) {
    && s.ChangePlan? && s.tenant == tenant && s.plan in db.plans && LimitsOf(db, tenant).Some?
    && Max(db.plans[s.plan], r) < Max(LimitsOf(db, tenant).value, r)
  }

  lemma CommitOfOthers(db: Db, s: Statement, tenant: nat, r: Resource)
    requires Sound(db) && WithinPlan(db, tenant, r) && !Downgrades(db, s, tenant, r)
    ensures WithinPlan(Step(db, s), tenant, r)
  {
    match s
    case DeleteItem(id) => CountAfterDelete(db.items, id, tenant, r);
    case Commit(x) =>
      if CommitsItem(db, s) {
        assert TxSound(db, x);
        CountAfterPut(db.items, db.txs[x].progress.id, db.txs[x].item, tenant, r);
      }
    case _ =>
  }

  /** A tenant that starts within its plan and is never downgraded stays within it, whatever interleaves. */
  lemma {:induction false} NeverOverTheLimit(start: Db, ss: seq<Statement>, tenant: nat, r: Resource)
    requires Start(start) && WithinPlan(start, tenant, r)
    requires forall k | 0 <= k < |ss| :: !Downgrades(Exec(start, ss[..k]), ss[k], tenant, r)
    ensures WithinPlan(Exec(start, ss), tenant, r)
  {
    if ss != [] {
      var before := ss[..|ss| - 1];
      assert forall k | 0 <= k < |before| :: before[..k] == ss[..k];
      NeverOverTheLimit(start, before, tenant, r);
      EveryRunIsSound(start, before);
      assert !Downgrades(Exec(start, before), ss[|ss| - 1], tenant, r);
      CommitOfOthers(Exec(start, before), ss[|ss| - 1], tenant, r);
    }
  }

  // ---- The handler itself ----

  /** What CreateMonitor and CreateChannel send to the database when nothing is refused. */
  function Script(x: nat, item: Item, id: nat): seq<Statement> {
    [Begin(x, item), LockTenant(x), ReadLimits(x), CountItems(x), Insert(x, id), Commit(x)]
  }

  /** What the plan in force says about one more item. */
  predicate Admits(db: Db, item: Item) {
    var l := LimitsOf(db, item.tenant);
    && l.Some?
    && (item.resource == Monitors ==> l.value.minInterval <= item.interval)
    && Count(db.items, item.tenant, item.resource) < Max(l.value, item.resource)
  }

  /** x at p, holding the lock, with everything else as in db. */
  function Holding(db: Db, x: nat, item: Item, p: Progress): Db {
    db.(txs := db.txs[x := Tx(item, p)], locks := db.locks[item.tenant := x])
  }

  lemma EndOfHolding(db: Db, x: nat, item: Item, p: Progress)
    requires x !in db.txs && item.tenant !in db.locks
    ensures End(Holding(db, x, item, p), x) == db
  {
    assert db.txs[x := Tx(item, p)] - {x} == db.txs;
    assert db.locks[item.tenant := x] - {item.tenant} == db.locks;
  }

  lemma GoneStaysGone(db: Db, x: nat, id: nat)
    requires x !in db.txs
    ensures Step(db, ReadLimits(x)) == Step(db, CountItems(x)) == Step(db, Insert(x, id)) == Step(db, Commit(x)) == db
  {
  }

  lemma LockEffect(db: Db, x: nat, item: Item)
    requires x !in db.txs && item.tenant !in db.locks
    ensures Step(Step(db, Begin(x, item)), LockTenant(x)) ==
      if item.tenant in db.planOf then Holding(db, x, item, Locked) else db
  {
    var s1 := Step(db, Begin(x, item));
    assert s1 == db.(txs := db.txs[x := Tx(item, Began)]);
    if item.tenant !in db.planOf {
      assert s1.txs - {x} == db.txs;
    } else {
      assert s1.txs[x := Tx(item, Locked)] == db.txs[x := Tx(item, Locked)];
    }
  }

  lemma ReadEffect(db: Db, x: nat, item: Item)
    requires x !in db.txs && item.tenant !in db.locks
    ensures var l := LimitsOf(db, item.tenant);
      Step(Holding(db, x, item, Locked), ReadLimits(x)) ==
      if l.None? || (item.resource == Monitors && item.interval < l.value.minInterval) then db
      else Holding(db, x, item, KnowsLimits(l.value))
  {
    EndOfHolding(db, x, item, Locked);
  }

  lemma CountEffect(db: Db, x: nat, item: Item, l: Limits)
    requires x !in db.txs && item.tenant !in db.locks
    ensures Step(Holding(db, x, item, KnowsLimits(l)), CountItems(x)) ==
      if Count(db.items, item.tenant, item.resource) >= Max(l, item.resource) then db
      else Holding(db, x, item, Admitted(l))
  {
    EndOfHolding(db, x, item, KnowsLimits(l));
  }

  lemma InsertEffect(db: Db, x: nat, item: Item, l: Limits, id: nat)
    requires x !in db.txs && item.tenant !in db.locks && id !in db.items
    ensures Step(Step(Holding(db, x, item, Admitted(l)), Insert(x, id)), Commit(x))
         == db.(items := db.items[id := item])
  {
    EndOfHolding(db, x, item, Inserted(l, id));
    assert Step(Holding(db, x, item, Admitted(l)), Insert(x, id)) == Holding(db, x, item, Inserted(l, id));
  }

  lemma ScriptEffect(db: Db, x: nat, item: Item, id: nat)
    requires x !in db.txs && item.tenant !in db.locks && id !in db.items
    ensures Exec(db, Script(x, item, id)) == db.(items := if Admits(db, item) then db.items[id := item] else db.items)
  {
    Unroll(db, Script(x, item, id));
    LockEffect(db, x, item);
    ReadEffect(db, x, item);
    GoneStaysGone(db, x, id);
    var l := LimitsOf(db, item.tenant);
    if l.Some? {
      CountEffect(db, x, item, l.value);
      InsertEffect(db, x, item, l.value, id);
    }
  }

  lemma Unroll(db: Db, ss: seq<Statement>)
    requires |ss| == 6
    ensures Exec(db, ss) == Step(Step(Step(Step(Step(Step(db, ss[0]), ss[1]), ss[2]), ss[3]), ss[4]), ss[5])
  {
    assert ss[..6] == ss && ss[..6][..5] == ss[..5] && ss[..5][..4] == ss[..4] && ss[..4][..3] == ss[..3]
        && ss[..3][..2] == ss[..2] && ss[..2][..1] == ss[..1] && ss[..1][..0] == [];
    assert Exec(db, ss[..1]) == Step(db, ss[0]);
    assert Exec(db, ss[..2]) == Step(Exec(db, ss[..1]), ss[1]);
    assert Exec(db, ss[..3]) == Step(Exec(db, ss[..2]), ss[2]);
    assert Exec(db, ss[..4]) == Step(Exec(db, ss[..3]), ss[3]);
    assert Exec(db, ss[..5]) == Step(Exec(db, ss[..4]), ss[4]);
  }

  /**
   * Run alone, the handler inserts if and only if the tenant has a plan, the plan has room for one more of that
   * kind, and a monitor is no more frequent than it allows.
   */
  lemma InsertedIffRoom(db: Db, x: nat, item: Item, id: nat)
    requires x !in db.txs && item.tenant !in db.locks && id !in db.items
    ensures id in Exec(db, Script(x, item, id)).items <==>
      && item.tenant in db.planOf && db.planOf[item.tenant] in db.plans
      && var plan := db.plans[db.planOf[item.tenant]];
      && (item.resource == Monitors ==>
            && plan.minInterval <= item.interval
            && |set i | i in db.items && db.items[i].tenant == item.tenant && db.items[i].resource == Monitors|
               < plan.maxMonitors)
      && (item.resource == Channels ==>
            |set i | i in db.items && db.items[i].tenant == item.tenant && db.items[i].resource == Channels|
            < plan.maxChannels)
  {
    ScriptEffect(db, x, item, id);
    assert ItemsOf(db.items, item.tenant, item.resource)
        == set i | i in db.items && db.items[i].tenant == item.tenant && db.items[i].resource == item.resource;
  }

  /** In every interleaving: a committed monitor leaves at most max_monitors of them, a channel at most max_channels. */
  lemma EachKindWithinItsLimit(start: Db, ss: seq<Statement>, s: Statement)
    requires Start(start) && CommitsItem(Exec(start, ss), s)
    ensures var before, after := Exec(start, ss), Step(Exec(start, ss), s);
      var item := before.txs[s.x].item;
      && item.tenant in after.planOf && after.planOf[item.tenant] in after.plans
      && var plan := after.plans[after.planOf[item.tenant]];
      && (item.resource == Monitors ==>
            |set i | i in after.items && after.items[i].tenant == item.tenant && after.items[i].resource == Monitors|
            <= plan.maxMonitors)
      && (item.resource == Channels ==>
            |set i | i in after.items && after.items[i].tenant == item.tenant && after.items[i].resource == Channels|
            <= plan.maxChannels)
  {
    CommitIsWithinThePlan(start, ss, s);
    var after, item := Step(Exec(start, ss), s), Exec(start, ss).txs[s.x].item;
    assert ItemsOf(after.items, item.tenant, item.resource)
        == set i | i in after.items && after.items[i].tenant == item.tenant && after.items[i].resource == item.resource;
  }

  class Tables {
    var plans: map<string, Limits>
    var planOf: map<nat, string>
    var items: map<nat, Item>
    var locks: map<nat, nat>
    var txs: map<nat, Tx>

    function State(): Db
      reads this
    {
      Db(plans, planOf, items, locks, txs)
    }

    /** The handler with the tables to itself; `created` is a 201, anything else a refusal. */
    method Create(x: nat, item: Item, id: nat) returns (created: bool)
      requires x !in txs && item.tenant !in locks && id !in items
      modifies this
      ensures State() == Exec(old(State()), Script(x, item, id))
      ensures created <==> Admits(old(State()), item)
      ensures items == if created then old(items)[id := item] else old(items)
    {
      ScriptEffect(State(), x, item, id);
      if item.tenant !in planOf {
        return false;
      }
      ghost var unlocked := locks;
      locks := locks[item.tenant := x];
      var limits := LimitsOf(State(), item.tenant);
      created := false;
      if limits.Some? && (item.resource == Monitors ==> item.interval >= limits.value.minInterval) {
        var count := Count(items, item.tenant, item.resource);
        if count < Max(limits.value, item.resource) {
          items := items[id := item];
          created := true;
        }
      }
      locks := locks - {item.tenant};
      assert locks == unlocked;
    }
  }
}
