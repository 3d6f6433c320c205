/** What webhook events make of a tenant: its plan, its status and its subscription, in any order of deliveries. */
module BillingEffects {
  import opened Common
  import opened Billing

  // ---- Nobody keeps a paid plan without a subscription that is live, on trial or in arrears ----

  ghost predicate PaidIsLive(tenants: map<string, Tenant>) {
    forall t | t in tenants && tenants[t].plan != "free" ::
      tenants[t].status == "active" || tenants[t].status == "trialing" || tenants[t].status == "past_due"
  }

  lemma HandledKeepsPaidLive(plans: seq<Plan>, tenants: map<string, Tenant>, e: Payload)
    requires PaidIsLive(tenants) && HandleEvent(plans, tenants, e).Some?
    ensures PaidIsLive(HandleEvent(plans, tenants, e).value)
  {
  }

  /** Over any list of deliveries, whatever fails: a plan other than "free" means one of those three statuses. */
  lemma {:induction false} PaidStaysLive(plans: seq<Plan>, st: State, ds: seq<Delivery>)
    requires PaidIsLive(st.tenants)
    ensures PaidIsLive(Exec(plans, st, ds).tenants)
  {
    if ds != [] {
      var n := |ds| - 1;
      var before := Exec(plans, st, ds[..n]);
      PaidStaysLive(plans, st, ds[..n]);
      if HandleEvent(plans, before.tenants, ds[n].event).Some? {
        HandledKeepsPaidLive(plans, before.tenants, ds[n].event);
      }
    }
  }

  // ---- What a handled event does ----

  /** Handled in full, after whatever deliveries came before. */
  predicate Handled(plans: seq<Plan>, st: State, d: Delivery) {
    OutcomeOf(plans, st, d) == Processed && !Swallowed(d)
  }

  lemma {:induction false} LookupFinds(plans: seq<Plan>, price: PriceId)
    ensures Lookup(plans, price).Some? <==> exists k | 0 <= k < |plans| ::
      Some(price) in [plans[k].columns.monthly, plans[k].columns.quarterly, plans[k].columns.yearly]
    ensures Lookup(plans, price).Some? ==> exists k | 0 <= k < |plans| ::
      && plans[k].code == Lookup(plans, price).value.0
      && Some(price) in [plans[k].columns.monthly, plans[k].columns.quarterly, plans[k].columns.yearly]
  {
    if plans != [] {
      LookupFinds(plans[1..], price);
      assert forall k | 0 <= k < |plans[1..]| :: plans[1..][k] == plans[k + 1];
      assert forall k | 0 < k < |plans| :: plans[k] == plans[1..][k - 1];
    }
  }

  /**
   * A subscription change that the tenant accepts, at a price some plan is sold at: the tenant is on such a plan if
   * the subscription is active or on trial, and on "free" otherwise; the rest of the row is the subscription's.
   */
  lemma ChangeIsApplied(plans: seq<Plan>, st: State, d: Delivery, t: string, sub: Subscription)
    requires d.event == SubscriptionChanged(sub) && Handled(plans, st, d)
    requires t in st.tenants && st.tenants[t].customer == Some(sub.customer)
    requires st.tenants[t].subscription == None || st.tenants[t].subscription == Some(sub.id)
    requires sub.prices != [] && exists k | 0 <= k < |plans| ::
      Some(sub.prices[0]) in [plans[k].columns.monthly, plans[k].columns.quarterly, plans[k].columns.yearly]
    ensures var after := Deliver(plans, st, d).tenants;
      && t in after
      && (sub.status != "active" && sub.status != "trialing" ==> after[t].plan == "free")
      && (sub.status == "active" || sub.status == "trialing" ==> exists k | 0 <= k < |plans| ::
            && plans[k].code == after[t].plan
            && Some(sub.prices[0]) in [plans[k].columns.monthly, plans[k].columns.quarterly, plans[k].columns.yearly])
      && after[t].status == sub.status && after[t].subscription == Some(sub.id)
      && after[t].customer == st.tenants[t].customer
      && after[t].cancelAtPeriodEnd == sub.cancelAtPeriodEnd && after[t].currentPeriodEnd == Some(sub.currentPeriodEnd)
      && after[t].trialEndsAt == (if sub.trialEnd > 0 then Some(sub.trialEnd) else None)
  {
    LookupFinds(plans, sub.prices[0]);
    assert Accepts(st.tenants[t], sub);
  }

  /** A change without a price, or at a price no plan is sold at, changes nothing. */
  lemma UnknownPriceIsIgnored(plans: seq<Plan>, st: State, d: Delivery, sub: Subscription)
    requires d.event == SubscriptionChanged(sub)
    requires sub.prices == [] || forall k | 0 <= k < |plans| ::
      Some(sub.prices[0]) !in [plans[k].columns.monthly, plans[k].columns.quarterly, plans[k].columns.yearly]
    ensures Deliver(plans, st, d).tenants == st.tenants
  {
    if sub.prices != [] { LookupFinds(plans, sub.prices[0]); }
  }

  /** Deleting the tracked subscription ends on "free", with none tracked. */
  lemma DeletionEndsFree(plans: seq<Plan>, st: State, d: Delivery, t: string, id: string, customer: string)
    requires d.event == SubscriptionDeleted(id, customer) && Handled(plans, st, d)
    requires t in st.tenants && st.tenants[t].customer == Some(customer) && st.tenants[t].subscription == Some(id)
    ensures var after := Deliver(plans, st, d).tenants;
      && t in after && after[t].plan == "free" && after[t].status == "canceled"
      && after[t].subscription == None && !after[t].cancelAtPeriodEnd
  {
  }

  /** A failed payment takes nothing away yet. */
  lemma FailedPaymentOnlyWarns(plans: seq<Plan>, st: State, d: Delivery, t: string, customer: string)
    requires d.event == PaymentFailed(customer) && Handled(plans, st, d)
    requires t in st.tenants && st.tenants[t].customer == Some(customer)
    ensures var after := Deliver(plans, st, d).tenants;
      t in after && after[t] == st.tenants[t].(status := "past_due")
  {
  }

  /** A completed checkout starts the trial of the plan bought. */
  lemma CheckoutStartsTrial(plans: seq<Plan>, st: State, d: Delivery,
                            t: string, plan: string, sub: string, period: string)
    requires d.event == CheckoutCompleted(t, plan, sub, period) && Handled(plans, st, d)
    requires t in st.tenants && t != "" && plan != ""
    ensures var after := Deliver(plans, st, d).tenants;
      && t in after && after[t].plan == plan && after[t].status == "trialing"
      && after[t].subscription == (if sub == "" then None else Some(sub))
      && after[t].period == (if period == "" then "monthly" else period)
      && after[t].customer == st.tenants[t].customer
  {
  }

  /** The tenant an event names, or those of the customer it names. */
  predicate Concerns(e: Payload, t: string, tenant: Tenant) {
    match e
    case CheckoutCompleted(named, _, _, _) => t == named
    case SubscriptionChanged(sub) => tenant.customer == Some(sub.customer)
    case SubscriptionDeleted(_, customer) => tenant.customer == Some(customer)
    case PaymentFailed(customer) => tenant.customer == Some(customer)
    case Unhandled => false
  }

  /** Whatever becomes of a delivery, it leaves all other tenants alone, adds none and drops none. */
  lemma OtherTenantsUntouched(plans: seq<Plan>, st: State, d: Delivery, t: string)
    ensures t in Deliver(plans, st, d).tenants <==> t in st.tenants
    ensures t in st.tenants && !Concerns(d.event, t, st.tenants[t]) ==>
      t in Deliver(plans, st, d).tenants && Deliver(plans, st, d).tenants[t] == st.tenants[t]
  {
  }

  // ---- No subscription pays for two tenants ----

  ghost predicate CustomersDistinct(tenants: map<string, Tenant>) {
    forall t, u | t in tenants && u in tenants && t != u && tenants[t].customer.Some? ::
      tenants[t].customer != tenants[u].customer
  }

  ghost predicate SubscriptionsDistinct(tenants: map<string, Tenant>) {
    forall t, u | t in tenants && u in tenants && t != u && tenants[t].subscription.Some? ::
      tenants[t].subscription != tenants[u].subscription
  }

  lemma HandledKeepsDistinct(plans: seq<Plan>, tenants: map<string, Tenant>, e: Payload)
    requires CustomersDistinct(tenants) && SubscriptionsDistinct(tenants) && HandleEvent(plans, tenants, e).Some?
    ensures var after := HandleEvent(plans, tenants, e).value; CustomersDistinct(after) && SubscriptionsDistinct(after)
  {
  }

  /** Over any list of deliveries: a subscription is tracked by one tenant at most. */
  lemma {:induction false} SubscriptionsStayDistinct(plans: seq<Plan>, st: State, ds: seq<Delivery>)
    requires CustomersDistinct(st.tenants) && SubscriptionsDistinct(st.tenants)
    ensures var after := Exec(plans, st, ds).tenants; CustomersDistinct(after) && SubscriptionsDistinct(after)
  {
    if ds != [] {
      var n := |ds| - 1;
      var before := Exec(plans, st, ds[..n]);
      SubscriptionsStayDistinct(plans, st, ds[..n]);
      if HandleEvent(plans, before.tenants, ds[n].event).Some? {
        HandledKeepsDistinct(plans, before.tenants, ds[n].event);
      }
    }
  }
}
