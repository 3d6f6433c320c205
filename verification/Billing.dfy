/** internal/http/billing_handlers.go: checkout's price, the webhook's bookkeeping, and what events do to tenants. */
module Billing {
  import opened Common

  type PriceId = nat

  datatype Period = Monthly | Quarterly | Yearly

  /** Stripe's ids of a plan's prices, as stored with the plan. */
  datatype Columns = Columns(monthly: Option<PriceId>, quarterly: Option<PriceId>, yearly: Option<PriceId>)

  datatype Plan = Plan(code: string, columns: Columns)

  function Column(c: Columns, p: Period): Option<PriceId> {
    match p case Monthly => c.monthly case Quarterly => c.quarterly case Yearly => c.yearly
  }

  function PeriodName(p: Period): string {
    match p case Monthly => "monthly" case Quarterly => "quarterly" case Yearly => "yearly"
  }

  predicate HasCode(plans: seq<Plan>, code: string) {
    exists k | 0 <= k < |plans| :: plans[k].code == code
  }

  // ---- CreateCheckout: from the requested period to a column ----

  function PeriodOf(requested: string): Period {
    if requested == "quarterly" then Quarterly else if requested == "yearly" then Yearly else Monthly
  }

  /** The price a checkout for this plan and period is opened with; None is a refusal. */
  function CheckoutPrice(plans: seq<Plan>, code: string, requested: string): Option<PriceId> {
    if plans == [] then None
    else if plans[0].code == code then Column(plans[0].columns, PeriodOf(requested))
    else CheckoutPrice(plans[1..], code, requested)
  }

  // ---- applySubscription: from a price back to a plan and period ----

  predicate Carries(c: Columns, price: PriceId) {
    c.monthly == Some(price) || c.quarterly == Some(price) || c.yearly == Some(price)
  }

  function Lookup(plans: seq<Plan>, price: PriceId): Option<(string, Period)> {
    if plans == [] then None
    else
      var c := plans[0].columns;
      if Carries(c, price) then
        Some((plans[0].code,
              if c.quarterly == Some(price) then Quarterly else if c.yearly == Some(price) then Yearly else Monthly))
      else Lookup(plans[1..], price)
  }

  // ---- Tenants and events ----

  datatype Tenant = Tenant(plan: string, customer: Option<string>, subscription: Option<string>, status: string,
                           period: string, cancelAtPeriodEnd: bool, trialEndsAt: Option<int>,
                           currentPeriodEnd: Option<int>)

  datatype Subscription = Subscription(id: string, customer: string, prices: seq<PriceId>, status: string,
                                       trialEnd: int, cancelAtPeriodEnd: bool, currentPeriodEnd: int)

  datatype Payload =
    | CheckoutCompleted(tenant: string, plan: string, subscription: string, period: string)
    | SubscriptionChanged(sub: Subscription)          // created or updated
    | SubscriptionDeleted(id: string, customer: string)
    | PaymentFailed(customer: string)
    | Unhandled

  /** UNIQUE (stripe_subscription_id): tenant t may take this subscription only if no other has it. */
  predicate Takeable(tenants: map<string, Tenant>, t: string, id: string) {
    forall o | o in tenants && o != t :: tenants[o].subscription != Some(id)
  }

  function FromCheckout(t: Tenant, plan: string, subscription: string, period: string): Tenant {
    t.(plan := plan, subscription := if subscription == "" then None else Some(subscription),
       status := "trialing", period := if period == "" then "monthly" else period)
  }

  predicate Accepts(t: Tenant, sub: Subscription) {
    t.customer == Some(sub.customer) && (t.subscription.None? || t.subscription == Some(sub.id))
  }

  function Effective(plan: string, status: string): string {
    if status == "active" || status == "trialing" then plan else "free"
  }

  function Applied(t: Tenant, sub: Subscription, plan: string, period: Period): Tenant {
    t.(plan := Effective(plan, sub.status), status := sub.status, subscription := Some(sub.id),
       cancelAtPeriodEnd := sub.cancelAtPeriodEnd, period := PeriodName(period),
       trialEndsAt := if sub.trialEnd > 0 then Some(sub.trialEnd) else None,
       currentPeriodEnd := Some(sub.currentPeriodEnd))
  }

  function Revoked(t: Tenant): Tenant {
    t.(plan := "free", status := "canceled", subscription := None, cancelAtPeriodEnd := false)
  }

  /** One UPDATE of the tenants an event is about; None is an error that leaves every row as it was. */
  function HandleEvent(plans: seq<Plan>, tenants: map<string, Tenant>, e: Payload): Option<map<string, Tenant>> {
    match e
    case CheckoutCompleted(t, plan, subscription, period) =>
      if t == "" || plan == "" || t !in tenants then Some(tenants)
      else if !HasCode(plans, plan) || (subscription != "" && !Takeable(tenants, t, subscription))
        || (period != "" && period != PeriodName(PeriodOf(period))) then None
      else Some(tenants[t := FromCheckout(tenants[t], plan, subscription, period)])
    case SubscriptionChanged(sub) =>
      if sub.prices == [] || Lookup(plans, sub.prices[0]).None? then Some(tenants)
      else
        var (plan, period) := Lookup(plans, sub.prices[0]).value;
        if exists t | t in tenants :: Accepts(tenants[t], sub)
             && (!HasCode(plans, Effective(plan, sub.status)) || !Takeable(tenants, t, sub.id)) then None
        else Some(map t | t in tenants ::
          if Accepts(tenants[t], sub) then Applied(tenants[t], sub, plan, period) else tenants[t])
    case SubscriptionDeleted(id, customer) =>
      Some(map t | t in tenants ::
        if tenants[t].customer == Some(customer) && tenants[t].subscription == Some(id) then Revoked(tenants[t])
        else tenants[t])
    case PaymentFailed(customer) =>
      Some(map t | t in tenants ::
        if tenants[t].customer == Some(customer) then tenants[t].(status := "past_due") else tenants[t])
    case Unhandled => Some(tenants)
  }

  // ---- The webhook ----

  /**
   * One delivery, and what fails in it: recording it, looking its price up, handling it otherwise (decoding,
   * or the UPDATE), or un-recording it.
   */
  datatype Delivery = Delivery(id: string, event: Payload,
                               recordFails: bool, lookupFails: bool, handlerFails: bool, undoFails: bool)

  datatype Outcome = NotRecorded | Duplicate | Failed | Processed

  datatype State = State(tenants: map<string, Tenant>, recorded: set<string>)

  /** The handler gets as far as the price lookup, and that fails: it logs so and reports success. */
  predicate Swallowed(d: Delivery) {
    d.lookupFails && d.event.SubscriptionChanged? && d.event.sub.prices != []
  }

  function Attempt(plans: seq<Plan>, tenants: map<string, Tenant>, d: Delivery): Option<map<string, Tenant>> {
    AttemptOf(tenants, d, HandleEvent(plans, tenants, d.event))
  }

  /** handled: what becomes of the tenants if nothing fails. */
  function AttemptOf(tenants: map<string, Tenant>, d: Delivery, handled: Option<map<string, Tenant>>):
    Option<map<string, Tenant>>
  {
    if Swallowed(d) then Some(tenants) else if d.handlerFails then None else handled
  }

  function OutcomeOf(plans: seq<Plan>, st: State, d: Delivery): Outcome {
    if d.recordFails then NotRecorded
    else if d.id in st.recorded then Duplicate
    else if Attempt(plans, st.tenants, d).None? then Failed
    else Processed
  }

  function Deliver(plans: seq<Plan>, st: State, d: Delivery): State {
    Recording(st, d, Attempt(plans, st.tenants, d))
  }

  /** Record, attempt, un-record if that fails. */
  function Recording(st: State, d: Delivery, attempt: Option<map<string, Tenant>>): State {
    if d.recordFails || d.id in st.recorded then st
    else if attempt.Some? then State(attempt.value, st.recorded + {d.id})
    else if d.undoFails then st.(recorded := st.recorded + {d.id})
    else st
  }

  class Webhook {
    const plans: seq<Plan>
    var tenants: map<string, Tenant>
    var recorded: set<string>

    method Receive(d: Delivery) returns (outcome: Outcome)
      modifies this
      ensures outcome == OutcomeOf(plans, State(old(tenants), old(recorded)), d)
      ensures State(tenants, recorded) == Deliver(plans, State(old(tenants), old(recorded)), d)
    {
      if d.recordFails {
        return NotRecorded;
      }
      if d.id in recorded {
        return Duplicate;
      }
      recorded := recorded + {d.id};
      var handled := Attempt(plans, tenants, d);
      if handled.None? {
        if !d.undoFails {
          recorded := recorded - {d.id};
          assert recorded == old(recorded);
        }
        return Failed;
      }
      tenants := handled.value;
      return Processed;
    }
  }

  // ---- Delivery lists with duplicates and failures ----

  function Exec(plans: seq<Plan>, st: State, ds: seq<Delivery>): State {
    if ds == [] then st else Deliver(plans, Exec(plans, st, ds[..|ds| - 1]), ds[|ds| - 1])
  }

  /** Handling events one after another, each of them exactly once, with nothing going wrong. */
  function Fold(plans: seq<Plan>, tenants: map<string, Tenant>, es: seq<Delivery>): map<string, Tenant> {
    if es == [] then tenants
    else
      var before := Fold(plans, tenants, es[..|es| - 1]);
      var after := HandleEvent(plans, before, es[|es| - 1].event);
      if after.Some? then after.value else before
  }

  function Ids(ds: seq<Delivery>): set<string> {
    set d | d in ds :: d.id
  }

  /** The deliveries that took effect, and the event ids that never will. */
  datatype Books = Books(handled: seq<Delivery>, lost: set<string>)

  /**
   * Of every event id, the first delivery that is handled in full, provided none before it was recorded for
   * good without being handled: by a lookup failure taken for success, or a failure that was not un-recorded.
   */
  function Reckon(plans: seq<Plan>, tenants: map<string, Tenant>, ds: seq<Delivery>): Books {
    if ds == [] then Books([], {})
    else
      var b, d := Reckon(plans, tenants, ds[..|ds| - 1]), ds[|ds| - 1];
      Entered(b, d, d.handlerFails || HandleEvent(plans, Fold(plans, tenants, b.handled), d.event).None?)
  }

  function Entered(b: Books, d: Delivery, fails: bool): Books {
    if d.recordFails || d.id in Ids(b.handled) || d.id in b.lost then b
    else if Swallowed(d) || (fails && d.undoFails) then b.(lost := b.lost + {d.id})
    else if fails then b
    else b.(handled := b.handled + [d])
  }

  /**
   * Over any list of deliveries, whatever fails in them: the tenants are what handling the deliveries that
   * took effect, and nothing else, makes of them, and recorded are their ids and those of the lost.
   */
  lemma {:induction false} EachEventCountsOnce(plans: seq<Plan>, tenants: map<string, Tenant>, ds: seq<Delivery>)
    ensures var b := Reckon(plans, tenants, ds);
      Exec(plans, State(tenants, {}), ds) == StateOf(plans, tenants, b)
  {
    if ds != [] {
      var before, d := ds[..|ds| - 1], ds[|ds| - 1];
      EachEventCountsOnce(plans, tenants, before);
      EventCountsOnce(plans, tenants, Reckon(plans, tenants, before), d);
    }
  }

  /** The state the books describe. */
  function StateOf(plans: seq<Plan>, tenants: map<string, Tenant>, b: Books): State {
    State(Fold(plans, tenants, b.handled), Ids(b.handled) + b.lost)
  }

  lemma EventCountsOnce(plans: seq<Plan>, tenants: map<string, Tenant>, b: Books, d: Delivery)
    ensures var handled := HandleEvent(plans, Fold(plans, tenants, b.handled), d.event);
      Deliver(plans, StateOf(plans, tenants, b), d)
      == StateOf(plans, tenants, Entered(b, d, d.handlerFails || handled.None?))
  {
    var st, handled := StateOf(plans, tenants, b), HandleEvent(plans, Fold(plans, tenants, b.handled), d.event);
    FoldOneMore(plans, tenants, b.handled, d);
    RecordingEntered(plans, tenants, b, d, handled);
    assert Deliver(plans, st, d) == Recording(st, d, AttemptOf(st.tenants, d, handled));
  }

  lemma RecordingEntered(plans: seq<Plan>, tenants: map<string, Tenant>, b: Books, d: Delivery,
                         handled: Option<map<string, Tenant>>)
    requires handled.Some? ==> Fold(plans, tenants, b.handled + [d]) == handled.value
    ensures var st := StateOf(plans, tenants, b);
      Recording(st, d, AttemptOf(st.tenants, d, handled))
      == StateOf(plans, tenants, Entered(b, d, d.handlerFails || handled.None?))
  {
    var st := StateOf(plans, tenants, b);
    assert Ids(b.handled + [d]) == Ids(b.handled) + {d.id};
    assert Ids(b.handled) + {d.id} + b.lost == st.recorded + {d.id};
    assert Ids(b.handled) + (b.lost + {d.id}) == st.recorded + {d.id};
  }

  lemma FoldOneMore(plans: seq<Plan>, tenants: map<string, Tenant>, es: seq<Delivery>, d: Delivery)
    ensures Ids(es + [d]) == Ids(es) + {d.id}
    ensures var before := Fold(plans, tenants, es);
      var after := HandleEvent(plans, before, d.event);
      Fold(plans, tenants, es + [d]) == if after.Some? then after.value else before
  {
    assert (es + [d])[..|es|] == es;
  }

  /** The deliveries whose outcome was "processed", without those that a failed lookup passed off as such. */
  function ProcessedOnes(plans: seq<Plan>, tenants: map<string, Tenant>, ds: seq<Delivery>): seq<Delivery> {
    if ds == [] then []
    else
      var before, d := ds[..|ds| - 1], ds[|ds| - 1];
      var outcome := OutcomeOf(plans, Exec(plans, State(tenants, {}), before), d);
      ProcessedOnes(plans, tenants, before) + if outcome == Processed && !Swallowed(d) then [d] else []
  }

  /** Those, in their order, are exactly the deliveries that took effect. */
  lemma {:induction false} HandledAreTheProcessed(plans: seq<Plan>, tenants: map<string, Tenant>, ds: seq<Delivery>)
    ensures Reckon(plans, tenants, ds).handled == ProcessedOnes(plans, tenants, ds)
  {
    if ds != [] {
      var before, d := ds[..|ds| - 1], ds[|ds| - 1];
      HandledAreTheProcessed(plans, tenants, before);
      EachEventCountsOnce(plans, tenants, before);
      var b, st := Reckon(plans, tenants, before), Exec(plans, State(tenants, {}), before);
      ProcessedStep(plans, st, b, d, HandleEvent(plans, st.tenants, d.event));
    }
  }

  lemma ProcessedStep(plans: seq<Plan>, st: State, b: Books, d: Delivery, handled: Option<map<string, Tenant>>)
    requires handled == HandleEvent(plans, st.tenants, d.event) && st.recorded == Ids(b.handled) + b.lost
    ensures Entered(b, d, d.handlerFails || handled.None?).handled ==
      if OutcomeOf(plans, st, d) == Processed && !Swallowed(d) then b.handled + [d] else b.handled
  {
    assert Attempt(plans, st.tenants, d) == AttemptOf(st.tenants, d, handled);
  }

  ghost predicate DistinctIds(ds: seq<Delivery>) {
    forall j, k | 0 <= j < k < |ds| :: ds[j].id != ds[k].id
  }

  /** No id takes effect twice, and none that is lost takes effect at all. */
  lemma {:induction false} HandledAreDistinct(plans: seq<Plan>, tenants: map<string, Tenant>, ds: seq<Delivery>)
    ensures var b := Reckon(plans, tenants, ds); DistinctIds(b.handled) && Ids(b.handled) !! b.lost
  {
    if ds != [] {
      var b, d := Reckon(plans, tenants, ds[..|ds| - 1]), ds[|ds| - 1];
      HandledAreDistinct(plans, tenants, ds[..|ds| - 1]);
      EnteredAreDistinct(b, d, d.handlerFails || HandleEvent(plans, Fold(plans, tenants, b.handled), d.event).None?);
    }
  }

  lemma EnteredAreDistinct(b: Books, d: Delivery, fails: bool)
    requires DistinctIds(b.handled) && Ids(b.handled) !! b.lost
    ensures var after := Entered(b, d, fails); DistinctIds(after.handled) && Ids(after.handled) !! after.lost
  {
    assert Ids(b.handled + [d]) == Ids(b.handled) + {d.id};
    if d.id !in Ids(b.handled) { DistinctAppend(b.handled, d); }
  }

  lemma DistinctAppend(ds: seq<Delivery>, d: Delivery)
    requires DistinctIds(ds) && d.id !in Ids(ds)
    ensures DistinctIds(ds + [d])
  {
    forall j | 0 <= j < |ds|
      ensures ds[j].id != d.id
    {
      assert ds[j] in ds;
    }
  }

  /** The delivery that loses its event, as the webhook could tell: first to be recorded, and not handled. */
  predicate Loses(plans: seq<Plan>, st: State, d: Delivery) {
    && !d.recordFails && d.id !in st.recorded
    && (Swallowed(d) || (Attempt(plans, st.tenants, d).None? && d.undoFails))
  }

  lemma LostStep(plans: seq<Plan>, st: State, b: Books, d: Delivery, handled: Option<map<string, Tenant>>, id: string)
    requires handled == HandleEvent(plans, st.tenants, d.event) && st.recorded == Ids(b.handled) + b.lost
    ensures id in Entered(b, d, d.handlerFails || handled.None?).lost <==>
      id in b.lost || (d.id == id && Loses(plans, st, d))
  {
    assert Attempt(plans, st.tenants, d) == AttemptOf(st.tenants, d, handled);
  }

  /** Delivery k is one of this id, and loses it. */
  predicate LosesAt(plans: seq<Plan>, tenants: map<string, Tenant>, ds: seq<Delivery>, id: string, k: nat)
    requires k < |ds|
  {
    ds[k].id == id && Loses(plans, Exec(plans, State(tenants, {}), ds[..k]), ds[k])
  }

  predicate LosesSomewhere(plans: seq<Plan>, tenants: map<string, Tenant>, ds: seq<Delivery>, id: string) {
    exists k | 0 <= k < |ds| :: LosesAt(plans, tenants, ds, id, k)
  }

  lemma LosesSomewhereStep(plans: seq<Plan>, tenants: map<string, Tenant>, ds: seq<Delivery>, id: string)
    requires ds != []
    ensures LosesSomewhere(plans, tenants, ds, id) <==>
      LosesSomewhere(plans, tenants, ds[..|ds| - 1], id) || LosesAt(plans, tenants, ds, id, |ds| - 1)
  {
    var before := ds[..|ds| - 1];
    forall k | 0 <= k < |before|
      ensures LosesAt(plans, tenants, before, id, k) <==> LosesAt(plans, tenants, ds, id, k)
    {
      assert before[..k] == ds[..k];
    }
  }

  /** An event id is lost if and only if one of its deliveries loses it. */
  lemma {:induction false} LostIff(plans: seq<Plan>, tenants: map<string, Tenant>, ds: seq<Delivery>, id: string)
    ensures id in Reckon(plans, tenants, ds).lost <==> LosesSomewhere(plans, tenants, ds, id)
  {
    if ds != [] {
      var before, d := ds[..|ds| - 1], ds[|ds| - 1];
      LostIff(plans, tenants, before, id);
      EachEventCountsOnce(plans, tenants, before);
      LosesSomewhereStep(plans, tenants, ds, id);
      var b, st := Reckon(plans, tenants, before), Exec(plans, State(tenants, {}), before);
      LostStep(plans, st, b, d, HandleEvent(plans, st.tenants, d.event), id);
    }
  }

  /** A lost event stays lost: its retries, however many and however they go, leave every tenant alone. */
  lemma {:induction false} LostEventIsNeverHandled(plans: seq<Plan>, st: State, d: Delivery, retries: seq<Delivery>)
    requires Loses(plans, st, d) && forall k | 0 <= k < |retries| :: retries[k].id == d.id
    ensures Exec(plans, Deliver(plans, st, d), retries) == State(st.tenants, st.recorded + {d.id})
  {
    if retries != [] {
      LostEventIsNeverHandled(plans, st, d, retries[..|retries| - 1]);
    }
  }

  /** A delivery not handled in full is retried to effect, if nothing fails then, unless it loses its event. */
  lemma RetryIsHandledIff(plans: seq<Plan>, st: State, d: Delivery, retry: Delivery)
    requires d.id !in st.recorded && (d.recordFails || Swallowed(d) || Attempt(plans, st.tenants, d).None?)
    requires retry.id == d.id && !retry.recordFails && !retry.lookupFails && !retry.handlerFails
    requires HandleEvent(plans, st.tenants, retry.event).Some?
    ensures var after := Deliver(plans, Deliver(plans, st, d), retry);
      && (!Loses(plans, st, d) ==> after.tenants == HandleEvent(plans, st.tenants, retry.event).value)
      && (OutcomeOf(plans, Deliver(plans, st, d), retry) == Duplicate <==> Loses(plans, st, d))
  {
  }

  // ---- A customer's upgrade that is lost ----

  const FREE_AND_PRO := [Plan("free", Columns(None, None, None)), Plan("pro", Columns(Some(1), None, None))]
  const CUSTOMER := Tenant("free", Some("c"), None, "", "monthly", false, None, None)
  const UPGRADE := Subscription("s", "c", [1], "active", 0, false, 0)
  const LOOKUP_FAILS := Delivery("e", SubscriptionChanged(UPGRADE), false, true, false, false)

  lemma ProIsKnown()
    ensures HasCode(FREE_AND_PRO, "pro") && Lookup(FREE_AND_PRO, 1) == Some(("pro", Monthly))
  {
    assert FREE_AND_PRO[1..] == [FREE_AND_PRO[1]];
    assert Lookup(FREE_AND_PRO[1..], 1) == Some(("pro", Monthly));
    assert FREE_AND_PRO[1].code == "pro";
  }

  lemma UpgradeIsMeant(tenants: map<string, Tenant>)
    requires tenants == map["t" := CUSTOMER]
    ensures var meant := HandleEvent(FREE_AND_PRO, tenants, LOOKUP_FAILS.event);
      meant.Some? && "t" in meant.value && meant.value["t"].plan == "pro"
  {
    ProIsKnown();
    assert Accepts(tenants["t"], UPGRADE) && Takeable(tenants, "t", "s");
  }

  /** One failed price lookup, answered 200, and the customer who pays for "pro" stays on "free". */
  lemma {:induction false} FailedLookupLosesTheUpgrade(tenants: map<string, Tenant>, retries: seq<Delivery>)
    requires tenants == map["t" := CUSTOMER] && forall k | 0 <= k < |retries| :: retries[k].id == LOOKUP_FAILS.id
    ensures var meant := HandleEvent(FREE_AND_PRO, tenants, LOOKUP_FAILS.event);
      meant.Some? && "t" in meant.value && meant.value["t"].plan == "pro"
    ensures OutcomeOf(FREE_AND_PRO, State(tenants, {}), LOOKUP_FAILS) == Processed
    ensures Exec(FREE_AND_PRO, Deliver(FREE_AND_PRO, State(tenants, {}), LOOKUP_FAILS), retries).tenants
      == tenants
  {
    UpgradeIsMeant(tenants);
    LostEventIsNeverHandled(FREE_AND_PRO, State(tenants, {}), LOOKUP_FAILS, retries);
  }

  // ---- One tracked subscription per tenant ----

  predicate ConcernsOther(e: Payload, tracked: string) {
    match e
    case SubscriptionChanged(sub) => sub.id != tracked
    case SubscriptionDeleted(id, _) => id != tracked
    case _ => false
  }

  lemma OtherSubscriptionIgnored(plans: seq<Plan>, tenants: map<string, Tenant>, e: Payload, t: string)
    requires t in tenants && tenants[t].subscription.Some? && ConcernsOther(e, tenants[t].subscription.value)
    ensures var after := HandleEvent(plans, tenants, e);
      after.Some? ==> t in after.value && after.value[t] == tenants[t]
  {
  }

  /** Events about other subscriptions, however many and of whatever customer, leave the tenant as it is. */
  lemma {:induction false} OnlyTheTrackedSubscriptionCounts(plans: seq<Plan>, st: State, ds: seq<Delivery>, t: string)
    requires t in st.tenants && st.tenants[t].subscription.Some?
    requires forall k | 0 <= k < |ds| :: ConcernsOther(ds[k].event, st.tenants[t].subscription.value)
    ensures var after := Exec(plans, st, ds).tenants; t in after && after[t] == st.tenants[t]
  {
    if ds != [] {
      OnlyTheTrackedSubscriptionCounts(plans, st, ds[..|ds| - 1], t);
      OtherSubscriptionIgnored(plans, Exec(plans, st, ds[..|ds| - 1]).tenants, ds[|ds| - 1].event, t);
    }
  }

  // ---- Round trip: checkout's price leads the webhook back to the plan and period ----

  /** No price id is stored twice, and codes are the table's key. */
  ghost predicate PricesDistinct(plans: seq<Plan>) {
    && (forall j, k | 0 <= j < k < |plans| :: plans[j].code != plans[k].code)
    && (forall j, k, p, q |
          0 <= j < |plans| && 0 <= k < |plans| && (j != k || p != q) && Column(plans[j].columns, p).Some? ::
          Column(plans[j].columns, p) != Column(plans[k].columns, q))
  }

  lemma {:induction false} LookupInvertsCheckout(plans: seq<Plan>, code: string, requested: string)
    requires PricesDistinct(plans) && CheckoutPrice(plans, code, requested).Some?
    ensures Lookup(plans, CheckoutPrice(plans, code, requested).value) == Some((code, PeriodOf(requested)))
  {
    var price, p := CheckoutPrice(plans, code, requested).value, PeriodOf(requested);
    if plans[0].code == code {
      assert forall q | q != p :: Column(plans[0].columns, q) != Column(plans[0].columns, p);
      assert Column(plans[0].columns, Quarterly) == plans[0].columns.quarterly;
      assert Column(plans[0].columns, Yearly) == plans[0].columns.yearly;
    } else {
      var rest := plans[1..];
      CheckoutIsStored(rest, code, requested);
      var k :| 0 <= k < |rest| && Column(rest[k].columns, p) == Some(price);
      assert plans[k + 1] == rest[k];
      assert forall q :: Column(plans[k + 1].columns, p) != Column(plans[0].columns, q);
      assert Column(plans[0].columns, Monthly) == plans[0].columns.monthly;
      assert Column(plans[0].columns, Quarterly) == plans[0].columns.quarterly;
      assert Column(plans[0].columns, Yearly) == plans[0].columns.yearly;
      assert PricesDistinct(rest);
      LookupInvertsCheckout(rest, code, requested);
    }
  }

  lemma {:induction false} CheckoutIsStored(plans: seq<Plan>, code: string, requested: string)
    requires CheckoutPrice(plans, code, requested).Some?
    ensures exists k | 0 <= k < |plans| ::
      plans[k].code == code && Column(plans[k].columns, PeriodOf(requested)) == CheckoutPrice(plans, code, requested)
  {
    if plans[0].code != code {
      CheckoutIsStored(plans[1..], code, requested);
      var k :| 0 <= k < |plans[1..]| && plans[1..][k].code == code
        && Column(plans[1..][k].columns, PeriodOf(requested)) == CheckoutPrice(plans[1..], code, requested);
      assert plans[k + 1] == plans[1..][k];
    }
  }

  /** A subscription bought at checkout, once active or on trial, puts its customer on the plan and period chosen. */
  lemma CheckoutDeliversThePlan(plans: seq<Plan>, tenants: map<string, Tenant>, t: string, code: string,
                                requested: string, sub: Subscription)
    requires PricesDistinct(plans) && CheckoutPrice(plans, code, requested).Some?
    requires sub.prices == [CheckoutPrice(plans, code, requested).value]
    requires sub.status == "active" || sub.status == "trialing"
    requires t in tenants && Accepts(tenants[t], sub)
    requires HandleEvent(plans, tenants, SubscriptionChanged(sub)).Some?
    ensures var after := HandleEvent(plans, tenants, SubscriptionChanged(sub)).value;
      && t in after && after[t].plan == code && after[t].period == PeriodName(PeriodOf(requested))
      && after[t].subscription == Some(sub.id)
      && after[t].period == (if requested == "quarterly" || requested == "yearly" then requested else "monthly")
  {
    LookupInvertsCheckout(plans, code, requested);
  }
}
