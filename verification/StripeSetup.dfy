/** apps/stripe-setup/cmd/stripe-setup/main.go: create or reuse a price per plan and period, and store its id. */
module StripeSetup {
  import opened Common
  import opened Billing

  datatype Interval = Month | Year

  /** A Stripe price; amounts are never edited, only replaced by new prices. */
  datatype Price = Price(id: PriceId, product: nat, active: bool, cents: nat, interval: Interval, count: nat)

  /** What the plans table says a plan costs; the longer periods may be NULL. */
  datatype Cost = Cost(monthly: nat, quarterly: Option<nat>, yearly: Option<nat>)

  /** Rows whose longer prices are NULL cannot be scanned, and free plans are not selected. */
  predicate Selected(c: Cost) {
    c.monthly > 0 && c.quarterly.Some? && c.yearly.Some?
  }

  function Cents(c: Cost, p: Period): nat
    requires Selected(c)
  {
    match p case Monthly => c.monthly case Quarterly => c.quarterly.value case Yearly => c.yearly.value
  }

  /** A quarter is three months. */
  function Recurrence(p: Period): (Interval, nat) {
    match p case Monthly => (Month, 1) case Quarterly => (Month, 3) case Yearly => (Year, 1)
  }

  const PERIODS := [Monthly, Quarterly, Yearly]

  function WithColumn(c: Columns, p: Period, id: PriceId): Columns {
    match p
    case Monthly => c.(monthly := Some(id))
    case Quarterly => c.(quarterly := Some(id))
    case Yearly => c.(yearly := Some(id))
  }

  predicate Matches(pr: Price, product: nat, cents: nat, p: Period) {
    pr.product == product && pr.active && pr.cents == cents && (pr.interval, pr.count) == Recurrence(p)
  }

  /** Price ids are unique at Stripe. */
  ghost predicate UniqueIds(prices: seq<Price>) {
    forall j, k | 0 <= j < k < |prices| :: prices[j].id != prices[k].id
  }

  /** The first price that matches of Stripe's list, which has the newest first. */
  function FirstMatch(prices: seq<Price>, product: nat, cents: nat, p: Period): (r: Option<PriceId>)
    ensures r.Some? ==> exists k | 0 <= k < |prices| :: prices[k].id == r.value && Matches(prices[k], product, cents, p)
  {
    if prices == [] then None
    else
      var n := |prices| - 1;
      if Matches(prices[n], product, cents, p) then Some(prices[n].id) else FirstMatch(prices[..n], product, cents, p)
  }

  /** Prices are only added, and only such as no price on sale was there for. */
  ghost predicate AddsMissing(prices: seq<Price>, prices': seq<Price>) {
    && prices <= prices'
    && forall k, product, cents, p | |prices| <= k < |prices'| && Matches(prices'[k], product, cents, p) ::
         FirstMatch(prices, product, cents, p).None?
  }

  lemma {:induction false} FirstMatchStays(prices: seq<Price>, more: seq<Price>, product: nat, cents: nat, p: Period)
    requires prices <= more && forall k | |prices| <= k < |more| :: !Matches(more[k], product, cents, p)
    ensures FirstMatch(more, product, cents, p) == FirstMatch(prices, product, cents, p)
  {
    if prices != more {
      FirstMatchStays(prices, more[..|more| - 1], product, cents, p);
    }
  }

  lemma FirstMatchKept(prices: seq<Price>, more: seq<Price>, product: nat, cents: nat, p: Period)
    requires AddsMissing(prices, more) && FirstMatch(prices, product, cents, p).Some?
    ensures FirstMatch(more, product, cents, p) == FirstMatch(prices, product, cents, p)
  {
    FirstMatchStays(prices, more, product, cents, p);
  }

  lemma AddsMissingTwice(a: seq<Price>, b: seq<Price>, c: seq<Price>)
    requires AddsMissing(a, b) && AddsMissing(b, c)
    ensures AddsMissing(a, c)
  {
    forall k, product, cents, p | |a| <= k < |c| && Matches(c[k], product, cents, p)
      ensures FirstMatch(a, product, cents, p).None?
    {
      if FirstMatch(a, product, cents, p).Some? { FirstMatchKept(a, b, product, cents, p); }
      if k < |b| { assert c[k] == b[k]; }
    }
  }

  /** If any price matches, the one taken does, and is no older. */
  lemma {:induction false} NewestMatchIsTaken(prices: seq<Price>, product: nat, cents: nat, p: Period, k: nat)
    requires k < |prices| && Matches(prices[k], product, cents, p)
    ensures exists j | k <= j < |prices| ::
      FirstMatch(prices, product, cents, p) == Some(prices[j].id) && Matches(prices[j], product, cents, p)
  {
    var n := |prices| - 1;
    if k < n && !Matches(prices[n], product, cents, p) {
      NewestMatchIsTaken(prices[..n], product, cents, p, k);
      var j :| k <= j < n
        && FirstMatch(prices[..n], product, cents, p) == Some(prices[..n][j].id)
        && Matches(prices[..n][j], product, cents, p);
      assert prices[..n][j] == prices[j];
    }
  }

  /** The plans' table, and what Stripe has. */
  datatype Shop = Shop(plans: seq<Plan>, products: map<nat, string>, prices: seq<Price>)

  /** What the setup does to Stripe: it only ever adds. */
  ghost predicate Grows(products: map<nat, string>, prices: seq<Price>,
                        products': map<nat, string>, prices': seq<Price>)
  {
    && AddsMissing(prices, prices')
    && forall p | p in products :: p in products' && products'[p] == products[p]
  }

  class Setup {
    var plans: seq<Plan>
    const costs: seq<Cost>            // one per plan, in the same order
    var products: map<nat, string>    // product -> metadata pulse_plan
    var prices: seq<Price>
    var nextId: nat                   // ids Stripe has not given out yet

    ghost predicate Valid()
      reads this
    {
      && |costs| == |plans|
      && UniqueIds(prices)
      && (forall k | 0 <= k < |prices| :: prices[k].id < nextId && prices[k].product < nextId)
      && (forall p | p in products :: p < nextId)
    }

    ghost function State(): Shop
      reads this
    {
      Shop(plans, products, prices)
    }

    /** The loop over Stripe's list of the product's prices. */
    method FindPrice(product: nat, cents: nat, p: Period) returns (found: Option<PriceId>)
      ensures found == FirstMatch(prices, product, cents, p)
    {
      var k := |prices|;
      assert prices[..k] == prices;
      while k > 0
        invariant 0 <= k <= |prices|
        invariant FirstMatch(prices, product, cents, p) == FirstMatch(prices[..k], product, cents, p)
      {
        k := k - 1;
        assert prices[..k + 1][..k] == prices[..k];
        if Matches(prices[k], product, cents, p) {
          return Some(prices[k].id);
        }
      }
      found := None;
    }

    /**
     * The newest active price of the product that matches, and then nothing is created; or a new one, which
     * matches. failed: Stripe refused to create it.
     */
    method FindOrCreatePrice(product: nat, cents: nat, p: Period) returns (id: PriceId, failed: bool)
      requires Valid() && product in products
      modifies this`prices, this`nextId
      ensures Valid() && AddsMissing(old(prices), prices)
      ensures FirstMatch(old(prices), product, cents, p).Some? ==>
        !failed && prices == old(prices) && nextId == old(nextId)
      ensures failed ==> prices == old(prices)
      ensures !failed ==> FirstMatch(prices, product, cents, p) == Some(id)
    {
      failed := false;
      var found := FindPrice(product, cents, p);
      if found.Some? {
        id := found.value;
        return;
      }
      if * {
        id, failed := 0, true;
        return;
      }
      id := nextId;
      var (interval, count) := Recurrence(p);
      prices := prices + [Price(id, product, true, cents, interval, count)];
      nextId := nextId + 1;
      assert prices[..|prices| - 1] == old(prices);
      OnePriceMissing(old(prices), prices, product, cents, p);
    }

    /** Find or create the price, then store its id in the plan's column; either can fail. */
    method StorePrice(k: nat, product: nat, cents: nat, period: Period) returns (done: bool)
      requires Valid() && k < |plans| && product in products && products[product] == plans[k].code
      modifies this`plans, this`prices, this`nextId
      ensures Valid() && AddsMissing(old(prices), prices)
      ensures FirstMatch(old(prices), product, cents, period).Some? ==> prices == old(prices)
      ensures plans == old(plans)[k := plans[k]] && plans[k].code == old(plans)[k].code
      ensures forall p | p != period :: Column(plans[k].columns, p) == Column(old(plans)[k].columns, p)
      ensures !done ==> plans == old(plans)
      ensures done ==>
        Column(plans[k].columns, period).Some?
        && Column(plans[k].columns, period) == FirstMatch(prices, product, cents, period)
    {
      var id, failed := FindOrCreatePrice(product, cents, period);
      if failed {
        return false;
      }
      if * {
        return false;
      }
      plans := plans[k := plans[k].(columns := WithColumn(plans[k].columns, period, id))];
      done := true;
    }

    /** One plan: its product, then its three periods. Stops where Stripe or the database fails. */
    method SetUpPlan(k: nat, hit: Option<nat>) returns (done: bool, ghost used: nat)
      requires Valid() && k < |plans|
      requires hit.Some? ==> hit.value in products && products[hit.value] == plans[k].code
      modifies this
      ensures Valid() && Grows(old(products), old(prices), products, prices)
      ensures plans == old(plans)[k := plans[k]]
      ensures forall p :: Settles(old(plans)[k], plans[k], costs[k], used, products, prices, p, done)
      ensures IsUsed(hit, used, old(prices))
      ensures IsStocked(old(prices), costs[k], hit) ==> products == old(products) && prices == old(prices)
    {
      used := if hit.Some? then hit.value else nextId;
      if !Selected(costs[k]) {
        return true, used;
      }
      var product;
      if hit.Some? {
        product := hit.value;
      } else {
        if * {
          return false, used;
        }
        product := nextId;
        products := products[product := plans[k].code];
        nextId := nextId + 1;
      }
      var q := 0;
      done := true;
      while q < |PERIODS| && done
        invariant 0 <= q <= |PERIODS|
        invariant Valid() && Grows(old(products), old(prices), products, prices)
        invariant plans == old(plans)[k := plans[k]]
        invariant used == product && product in products
        invariant products[product] == plans[k].code == old(plans)[k].code
        invariant SettlesUpTo(old(plans)[k], plans[k], costs[k], product, products, prices, q)
        invariant IsStocked(old(prices), costs[k], hit) ==> products == old(products) && prices == old(prices)
        invariant done || q < |PERIODS|
        decreases |PERIODS| - q, done
      {
        var period := PERIODS[q];
        var cents := Cents(costs[k], period);
        if cents != 0 {
          ghost var before, prices' := plans[k], prices;
          done := StorePrice(k, product, cents, period);
          AddsMissingTwice(old(prices), prices', prices);
          SettlesStep(old(plans)[k], before, plans[k], costs[k], product, products, prices', prices, q, done);
        }
        if done {
          q := q + 1;
        }
      }
      AllPeriods(old(plans)[k], plans[k], costs[k], product, products, prices, done, q);
    }

    /**
     * The whole setup, over any plans and any catalogue; hits[k] is what the product search returns, and the
     * first `reached` plans are read, for the driver may stop at a row it cannot read. Every column it writes
     * holds the matching price of that very plan and period, every other column is left alone, and a run that
     * is not cut short writes every column on sale. It creates nothing that is there.
     */
    method Run(hits: seq<Option<nat>>, reached: nat) returns (done: bool, ghost used: seq<nat>)
      requires Valid() && HitsRight(State(), hits) && reached <= |plans|
      modifies this
      ensures Valid() && Ran(old(State()), State(), Read(costs, reached), hits, used, done)
    {
      var k := 0;
      ghost var read := Read(costs, reached);
      used := ToUse(hits, nextId);
      done := true;
      UsedAtFirst(prices, hits, used, nextId);
      AllUntouched(plans, read, used, products, prices);
      while k < reached && done
        invariant 0 <= k <= reached <= |plans| == |old(plans)| == |hits| == |used|
        invariant Valid() && Grows(old(products), old(prices), products, prices)
        invariant done ==> forall j | k <= j < |plans| :: plans[j] == old(plans)[j]
        invariant done ==>
          forall j, p | 0 <= j < k :: Settles(old(plans)[j], plans[j], read[j], used[j], products, prices, p, true)
        invariant
          forall j, p | 0 <= j < |plans| ::
            Settles(old(plans)[j], plans[j], read[j], used[j], products, prices, p, false)
        invariant forall j | 0 <= j < |plans| :: IsUsed(hits[j], used[j], old(prices))
        invariant AllStocked(old(prices), read, hits) ==> products == old(products) && prices == old(prices)
        decreases reached - k, done
      {
        ghost var plans', products', prices', u := plans, products, prices, 0;
        done, u := SetUpPlan(k, hits[k]);
        ghost var used' := used;
        used := used[k := u];
        forall j, p | 0 <= j < |plans|
          ensures Settles(old(plans)[j], plans[j], read[j], used[j], products, prices, p, false)
          ensures done && j <= k ==> Settles(old(plans)[j], plans[j], read[j], used[j], products, prices, p, true)
        {
          if j == k {
            assert Settles(plans'[k], plans[k], read[k], u, products, prices, p, done);
          } else {
            assert Settles(old(plans)[j], plans'[j], read[j], used'[j], products', prices', p, j < k);
            SettlesGrowsAll(old(plans)[j], plans[j], read[j], used[j], products', prices', products, prices, p, j < k);
          }
        }
        forall j | 0 <= j < |plans|
          ensures IsUsed(hits[j], used[j], old(prices))
        {
          if j == k { UsedBefore(hits[k], u, old(prices), prices'); }
        }
        AddsMissingTwice(old(prices), prices', prices);
        if done {
          k := k + 1;
        }
      }
      PastReached(old(plans), plans, costs, reached, used, products, prices);
    }
  }

  lemma OnePriceMissing(prices: seq<Price>, prices': seq<Price>, product: nat, cents: nat, p: Period)
    requires |prices'| == |prices| + 1 && prices <= prices'
    requires Matches(prices'[|prices|], product, cents, p) && FirstMatch(prices, product, cents, p).None?
    ensures AddsMissing(prices, prices')
  {
    forall k, product', cents', p' | |prices| <= k < |prices'| && Matches(prices'[k], product', cents', p')
      ensures FirstMatch(prices, product', cents', p').None?
    {
      assert k == |prices| && Recurrence(p') == Recurrence(p);
      assert p' == p;
    }
  }

  // ---- The contract of one run ----

  /** Plans that are not read are left alone as if they were free. */
  function Read(costs: seq<Cost>, reached: nat): seq<Cost> {
    seq(|costs|, i requires 0 <= i < |costs| => if i < reached then costs[i] else Cost(0, None, None))
  }

  lemma PastReached(was: seq<Plan>, plans: seq<Plan>, costs: seq<Cost>, reached: nat, used: seq<nat>,
                    products: map<nat, string>, prices: seq<Price>)
    requires |was| == |plans| == |costs| == |used|
    requires forall j, p | 0 <= j < |plans| ::
      Settles(was[j], plans[j], Read(costs, reached)[j], used[j], products, prices, p, false)
    ensures forall j, p | reached <= j < |plans| ::
      Settles(was[j], plans[j], Read(costs, reached)[j], used[j], products, prices, p, true)
  {
    forall j, p | reached <= j < |plans|
      ensures Settles(was[j], plans[j], Read(costs, reached)[j], used[j], products, prices, p, true)
    {
      assert Settles(was[j], plans[j], Read(costs, reached)[j], used[j], products, prices, p, false);
    }
  }

  /** On sale: the setup looks after this column. */
  predicate Wanted(c: Cost, p: Period) {
    Selected(c) && Cents(c, p) != 0
  }

  /** What became of a plan's column; final: the setup got past it. */
  ghost predicate Settles(was: Plan, now: Plan, c: Cost, product: nat, products: map<nat, string>, prices: seq<Price>,
                          p: Period, final: bool)
  {
    && now.code == was.code
    && (|| (Wanted(c, p) && product in products && products[product] == now.code && Column(now.columns, p).Some?
            && Column(now.columns, p) == FirstMatch(prices, product, Cents(c, p), p))
        || ((Wanted(c, p) ==> !final) && Column(now.columns, p) == Column(was.columns, p)))
  }

  /** The search's product, or a new one that no price is of yet. */
  ghost predicate IsUsed(hit: Option<nat>, used: nat, prices: seq<Price>) {
    if hit.Some? then used == hit.value else forall k | 0 <= k < |prices| :: prices[k].product != used
  }

  /** All the plan has on sale is there to be reused. */
  predicate IsStocked(prices: seq<Price>, c: Cost, hit: Option<nat>) {
    Selected(c) ==> hit.Some? && forall p | Wanted(c, p) :: FirstMatch(prices, hit.value, Cents(c, p), p).Some?
  }

  ghost predicate AllStocked(prices: seq<Price>, costs: seq<Cost>, hits: seq<Option<nat>>) {
    forall k | 0 <= k < |costs| && k < |hits| :: IsStocked(prices, costs[k], hits[k])
  }

  /** The search finds a product of the plan it is asked for, if it finds one. */
  ghost predicate HitsRight(s: Shop, hits: seq<Option<nat>>) {
    && |hits| == |s.plans|
    && forall k | 0 <= k < |hits| && hits[k].Some? ::
         hits[k].value in s.products && s.products[hits[k].value] == s.plans[k].code
  }

  ghost predicate Ran(s: Shop, s': Shop, costs: seq<Cost>, hits: seq<Option<nat>>, used: seq<nat>, done: bool) {
    && |s.plans| == |s'.plans| == |costs| == |hits| == |used|
    && Grows(s.products, s.prices, s'.products, s'.prices) && UniqueIds(s'.prices)
    && (forall k, p | 0 <= k < |costs| ::
          Settles(s.plans[k], s'.plans[k], costs[k], used[k], s'.products, s'.prices, p, done))
    && (forall k | 0 <= k < |costs| :: IsUsed(hits[k], used[k], s.prices))
    && (AllStocked(s.prices, costs, hits) ==> s'.products == s.products && s'.prices == s.prices)
  }

  /** The first q periods are done with, the others untouched. */
  ghost predicate SettlesUpTo(was: Plan, now: Plan, c: Cost, product: nat, products: map<nat, string>,
                              prices: seq<Price>, q: nat)
  {
    forall i | 0 <= i < |PERIODS| :: Settles(was, now, c, product, products, prices, PERIODS[i], i < q)
  }

  lemma SettlesStep(was: Plan, before: Plan, now: Plan, c: Cost, product: nat, products: map<nat, string>,
                    prices: seq<Price>, prices': seq<Price>, q: nat, done: bool)
    requires q < |PERIODS| && Wanted(c, PERIODS[q]) && AddsMissing(prices, prices') && before.code == now.code
    requires SettlesUpTo(was, before, c, product, products, prices, q)
    requires product in products && products[product] == now.code
    requires forall p | p != PERIODS[q] :: Column(now.columns, p) == Column(before.columns, p)
    requires !done ==> now == before
    requires done ==>
      && Column(now.columns, PERIODS[q]).Some?
      && Column(now.columns, PERIODS[q]) == FirstMatch(prices', product, Cents(c, PERIODS[q]), PERIODS[q])
    ensures SettlesUpTo(was, now, c, product, products, prices', if done then q + 1 else q)
  {
    forall i | 0 <= i < |PERIODS|
      ensures Settles(was, now, c, product, products, prices', PERIODS[i], i < if done then q + 1 else q)
    {
      assert Settles(was, before, c, product, products, prices, PERIODS[i], i < q);
      SettlesGrowsAll(was, before, c, product, products, prices, products, prices', PERIODS[i], i < q);
    }
  }

  lemma AllPeriods(was: Plan, now: Plan, c: Cost, product: nat, products: map<nat, string>, prices: seq<Price>,
                   final: bool, q: nat)
    requires SettlesUpTo(was, now, c, product, products, prices, q) && (final ==> q == |PERIODS|)
    ensures forall p :: Settles(was, now, c, product, products, prices, p, final)
  {
    forall p ensures Settles(was, now, c, product, products, prices, p, final) {
      var i := match p case Monthly => 0 case Quarterly => 1 case Yearly => 2;
      assert PERIODS[i] == p;
      assert Settles(was, now, c, product, products, prices, PERIODS[i], i < q);
    }
  }

  lemma AllUntouched(plans: seq<Plan>, costs: seq<Cost>, used: seq<nat>, products: map<nat, string>, prices: seq<Price>)
    requires |plans| == |costs| == |used|
    ensures forall j, p | 0 <= j < |plans| :: Settles(plans[j], plans[j], costs[j], used[j], products, prices, p, false)
  {
  }

  function ToUse(hits: seq<Option<nat>>, nextId: nat): seq<nat> {
    seq(|hits|, i requires 0 <= i < |hits| => if hits[i].Some? then hits[i].value else nextId)
  }

  lemma UsedAtFirst(prices: seq<Price>, hits: seq<Option<nat>>, used: seq<nat>, nextId: nat)
    requires forall k | 0 <= k < |prices| :: prices[k].product < nextId
    requires used == ToUse(hits, nextId)
    ensures forall j | 0 <= j < |hits| :: IsUsed(hits[j], used[j], prices)
  {
  }

  lemma UsedBefore(hit: Option<nat>, used: nat, prices: seq<Price>, prices': seq<Price>)
    requires IsUsed(hit, used, prices') && prices <= prices'
    ensures IsUsed(hit, used, prices)
  {
    assert forall k | 0 <= k < |prices| :: prices[k] == prices'[k];
  }

  lemma SettlesGrowsAll(was: Plan, now: Plan, c: Cost, product: nat, products: map<nat, string>, prices: seq<Price>,
                        products': map<nat, string>, prices': seq<Price>, p: Period, final: bool)
    requires Settles(was, now, c, product, products, prices, p, final) && Grows(products, prices, products', prices')
    ensures Settles(was, now, c, product, products', prices', p, final)
  {
    if Wanted(c, p) && FirstMatch(prices, product, Cents(c, p), p).Some? {
      FirstMatchKept(prices, prices', product, Cents(c, p), p);
    }
  }

  // ---- What a complete run stores ----

  /** A price on sale of one of the plan's products, of this amount, charged every `count` intervals. */
  ghost predicate Sells(s: Shop, code: string, id: Option<PriceId>, cents: nat, interval: Interval, count: nat) {
    exists k | 0 <= k < |s.prices| ::
      && id == Some(s.prices[k].id) && s.prices[k].active && s.prices[k].cents == cents
      && s.prices[k].product in s.products && s.products[s.prices[k].product] == code
      && s.prices[k].interval == interval && s.prices[k].count == count
  }

  /**
   * After a complete run a plan that is not free and has all its prices set is sold at them: monthly every month,
   * quarterly every three months, yearly every year; a longer period at no price is not touched.
   */
  lemma StoredPricesAreThePlans(s: Shop, s': Shop, costs: seq<Cost>, hits: seq<Option<nat>>, used: seq<nat>, k: nat)
    requires Ran(s, s', costs, hits, used, true) && k < |costs|
    requires costs[k].monthly > 0 && costs[k].quarterly.Some? && costs[k].yearly.Some?
    ensures var now, c := s'.plans[k], costs[k];
      && now.code == s.plans[k].code
      && Sells(s', now.code, now.columns.monthly, c.monthly, Month, 1)
      && (if c.quarterly.value > 0 then Sells(s', now.code, now.columns.quarterly, c.quarterly.value, Month, 3)
          else now.columns.quarterly == s.plans[k].columns.quarterly)
      && (if c.yearly.value > 0 then Sells(s', now.code, now.columns.yearly, c.yearly.value, Year, 1)
          else now.columns.yearly == s.plans[k].columns.yearly)
  {
    StoredPriceIsThePlans(s, s', costs, hits, used, k, Monthly);
    StoredPriceIsThePlans(s, s', costs, hits, used, k, Quarterly);
    StoredPriceIsThePlans(s, s', costs, hits, used, k, Yearly);
  }

  lemma StoredPriceIsThePlans(s: Shop, s': Shop, costs: seq<Cost>, hits: seq<Option<nat>>, used: seq<nat>,
                              k: nat, p: Period)
    requires Ran(s, s', costs, hits, used, true) && k < |costs| && Selected(costs[k])
    ensures var now, (interval, count) := s'.plans[k], Recurrence(p);
      && now.code == s.plans[k].code
      && if Cents(costs[k], p) > 0 then Sells(s', now.code, Column(now.columns, p), Cents(costs[k], p), interval, count)
         else Column(now.columns, p) == Column(s.plans[k].columns, p)
  {
    assert Settles(s.plans[k], s'.plans[k], costs[k], used[k], s'.products, s'.prices, p, true);
    if Cents(costs[k], p) > 0 {
      var id := Column(s'.plans[k].columns, p).value;
      var i :| 0 <= i < |s'.prices| && s'.prices[i].id == id
        && Matches(s'.prices[i], used[k], Cents(costs[k], p), p);
    }
  }

  // ---- A second run creates nothing ----

  /**
   * A run that finished, repeated at the same prices, with the search now finding the products it used: nothing
   * is created and no column changes.
   */
  lemma SecondRunChangesNothing(s: Shop, s': Shop, s'': Shop, costs: seq<Cost>, hits: seq<Option<nat>>, used: seq<nat>,
                                again: seq<Option<nat>>, used': seq<nat>, done: bool)
    requires Ran(s, s', costs, hits, used, true) && Ran(s', s'', costs, again, used', done)
    requires forall k | 0 <= k < |again| && Selected(costs[k]) :: again[k] == Some(used[k])
    ensures s'' == s'
  {
    forall k | 0 <= k < |costs|
      ensures IsStocked(s'.prices, costs[k], again[k])
    {
      assert forall p | Wanted(costs[k], p) ::
        Settles(s.plans[k], s'.plans[k], costs[k], used[k], s'.products, s'.prices, p, true);
    }
    forall k | 0 <= k < |costs|
      ensures s''.plans[k] == s'.plans[k]
    {
      forall p
        ensures Column(s''.plans[k].columns, p) == Column(s'.plans[k].columns, p)
      {
        assert Settles(s.plans[k], s'.plans[k], costs[k], used[k], s'.products, s'.prices, p, true);
        assert Settles(s'.plans[k], s''.plans[k], costs[k], used'[k], s''.products, s''.prices, p, done);
        assert IsUsed(again[k], used'[k], s'.prices);
      }
      SameColumns(s'.plans[k].columns, s''.plans[k].columns);
      assert Settles(s'.plans[k], s''.plans[k], costs[k], used'[k], s''.products, s''.prices, Monthly, done);
    }
  }

  lemma SameColumns(a: Columns, b: Columns)
    requires forall p :: Column(a, p) == Column(b, p)
    ensures a == b
  {
    assert Column(a, Monthly) == Column(b, Monthly) && Column(a, Quarterly) == Column(b, Quarterly);
    assert Column(a, Yearly) == Column(b, Yearly);
  }

  // ---- From an empty table, prices are distinct for ever ----

  /** id is a price of this plan that recurs as the period does, whatever it costs and on sale or not. */
  ghost predicate IsPriceOf(products: map<nat, string>, prices: seq<Price>, code: string, p: Period, id: PriceId) {
    exists k | 0 <= k < |prices| ::
      && prices[k].id == id
      && prices[k].product in products && products[prices[k].product] == code
      && (prices[k].interval, prices[k].count) == Recurrence(p)
  }

  ghost predicate Placed(products: map<nat, string>, prices: seq<Price>, plan: Plan, p: Period) {
    Column(plan.columns, p).Some? ==> IsPriceOf(products, prices, plan.code, p, Column(plan.columns, p).value)
  }

  ghost predicate AllPlaced(s: Shop) {
    && UniqueIds(s.prices) && DistinctCodes(s.plans)
    && forall k, p | 0 <= k < |s.plans| :: Placed(s.products, s.prices, s.plans[k], p)
  }

  ghost predicate DistinctCodes(plans: seq<Plan>) {
    forall j, k | 0 <= j < k < |plans| :: plans[j].code != plans[k].code
  }

  /** Columns holding prices of their own plan and period never share a price. */
  lemma PlacedMeansDistinct(s: Shop)
    requires AllPlaced(s)
    ensures PricesDistinct(s.plans)
  {
    var plans := s.plans;
    forall j, k, p, q | 0 <= j < |plans| && 0 <= k < |plans| && (j != k || p != q) && Column(plans[j].columns, p).Some?
      ensures Column(plans[j].columns, p) != Column(plans[k].columns, q)
    {
      assert Placed(s.products, s.prices, plans[j], p) && Placed(s.products, s.prices, plans[k], q);
    }
  }

  lemma RanPlaced(s: Shop, s': Shop, costs: seq<Cost>, hits: seq<Option<nat>>, used: seq<nat>, done: bool)
    requires AllPlaced(s) && Ran(s, s', costs, hits, used, done)
    ensures AllPlaced(s')
  {
    SameCodes(s, s', costs, hits, used, done);
    forall k, p | 0 <= k < |s'.plans|
      ensures Placed(s'.products, s'.prices, s'.plans[k], p)
    {
      assert Settles(s.plans[k], s'.plans[k], costs[k], used[k], s'.products, s'.prices, p, done);
      assert Placed(s.products, s.prices, s.plans[k], p);
      if Column(s'.plans[k].columns, p) == Column(s.plans[k].columns, p) && Column(s.plans[k].columns, p).Some? {
        var i :| 0 <= i < |s.prices|
          && s.prices[i].id == Column(s.plans[k].columns, p).value
          && s.prices[i].product in s.products && s.products[s.prices[i].product] == s.plans[k].code
          && (s.prices[i].interval, s.prices[i].count) == Recurrence(p);
        assert s'.prices[i] == s.prices[i];
      }
    }
  }

  lemma SameCodes(s: Shop, s': Shop, costs: seq<Cost>, hits: seq<Option<nat>>, used: seq<nat>, done: bool)
    requires DistinctCodes(s.plans) && Ran(s, s', costs, hits, used, done)
    ensures DistinctCodes(s'.plans) && forall k | 0 <= k < |s.plans| :: s'.plans[k].code == s.plans[k].code
  {
    forall k | 0 <= k < |s.plans|
      ensures s'.plans[k].code == s.plans[k].code
    {
      assert Settles(s.plans[k], s'.plans[k], costs[k], used[k], s'.products, s'.prices, Monthly, done);
    }
  }

  /** What others do to the catalogue between two runs: add to it, and take prices off sale or put them back. */
  ghost predicate Edited(s: Shop, s': Shop) {
    && s'.plans == s.plans && UniqueIds(s'.prices) && |s.prices| <= |s'.prices|
    && (forall k | 0 <= k < |s.prices| :: s'.prices[k] == s.prices[k].(active := s'.prices[k].active))
    && forall p | p in s.products :: p in s'.products && s'.products[p] == s.products[p]
  }

  lemma EditedPlaced(s: Shop, s': Shop)
    requires AllPlaced(s) && Edited(s, s')
    ensures AllPlaced(s')
  {
    forall k, p | 0 <= k < |s'.plans|
      ensures Placed(s'.products, s'.prices, s'.plans[k], p)
    {
      assert Placed(s.products, s.prices, s.plans[k], p);
      if Column(s.plans[k].columns, p).Some? {
        var i :| 0 <= i < |s.prices|
          && s.prices[i].id == Column(s.plans[k].columns, p).value
          && s.prices[i].product in s.products && s.products[s.prices[i].product] == s.plans[k].code
          && (s.prices[i].interval, s.prices[i].count) == Recurrence(p);
        assert s'.prices[i].id == s.prices[i].id;
      }
    }
  }

  /** A run, complete or cut short, at whatever the plans cost that day; or an edit of the catalogue. */
  ghost predicate Follows(s: Shop, s': Shop) {
    Edited(s, s') || exists costs, hits, used, done :: Ran(s, s', costs, hits, used, done)
  }

  /**
   * From a table with no prices stored, after any number of runs with failures, cost changes and edits of the
   * catalogue in between, stored price ids are pairwise distinct across plan and period.
   */
  lemma {:induction false} RunsStoreDistinctPrices(shops: seq<Shop>)
    requires shops != [] && DistinctCodes(shops[0].plans) && UniqueIds(shops[0].prices)
    requires forall k, p | 0 <= k < |shops[0].plans| :: Column(shops[0].plans[k].columns, p).None?
    requires forall i | 0 < i < |shops| :: Follows(shops[i - 1], shops[i])
    ensures AllPlaced(shops[|shops| - 1]) && PricesDistinct(shops[|shops| - 1].plans)
  {
    var n := |shops| - 1;
    if n > 0 {
      var s, s' := shops[n - 1], shops[n];
      RunsStoreDistinctPrices(shops[..n]);
      assert shops[..n][n - 1] == s && Follows(s, s');
      if Edited(s, s') {
        EditedPlaced(s, s');
      } else {
        var costs, hits, used, done :| Ran(s, s', costs, hits, used, done);
        RanPlaced(s, s', costs, hits, used, done);
      }
    }
    PlacedMeansDistinct(shops[n]);
  }

  // ---- From any table: the exact condition ----

  /** The price a run will put into this column, if it is there already. */
  function Reused(s: Shop, costs: seq<Cost>, hits: seq<Option<nat>>, k: nat, p: Period): Option<PriceId>
    requires k < |costs| && k < |hits| && Wanted(costs[k], p)
  {
    if hits[k].Some? then FirstMatch(s.prices, hits[k].value, Cents(costs[k], p), p) else None
  }

  /** What the columns hold after a run as far as it can be told before. */
  function Foreseen(s: Shop, costs: seq<Cost>, hits: seq<Option<nat>>, k: nat, p: Period): Option<PriceId>
    requires k < |costs| && k < |hits| && k < |s.plans|
  {
    if Wanted(costs[k], p) then Reused(s, costs, hits, k, p) else Column(s.plans[k].columns, p)
  }

  /**
   * No column that the run will leave alone, such as those of a plan that is free or has a NULL price, holds
   * an id that another column will hold.
   */
  ghost predicate NoneStale(s: Shop, costs: seq<Cost>, hits: seq<Option<nat>>)
    requires |s.plans| == |costs| == |hits|
  {
    forall j, k, p, q | 0 <= j < |costs| && 0 <= k < |costs| && (j != k || p != q) && !Wanted(costs[j], p) ::
      Column(s.plans[j].columns, p).Some? ==> Column(s.plans[j].columns, p) != Foreseen(s, costs, hits, k, q)
  }

  /** Ids stored in the table are Stripe's. */
  ghost predicate KnownIds(s: Shop) {
    forall k, p | 0 <= k < |s.plans| && Column(s.plans[k].columns, p).Some? ::
      exists i | 0 <= i < |s.prices| :: s.prices[i].id == Column(s.plans[k].columns, p).value
  }

  lemma WrittenAsForeseen(s: Shop, s': Shop, costs: seq<Cost>, hits: seq<Option<nat>>, used: seq<nat>,
                          k: nat, q: Period)
    requires Ran(s, s', costs, hits, used, true) && k < |costs| && Wanted(costs[k], q)
    ensures var id := Column(s'.plans[k].columns, q);
      && id.Some? && id == FirstMatch(s'.prices, used[k], Cents(costs[k], q), q)
      && used[k] in s'.products && s'.products[used[k]] == s'.plans[k].code
      && if Reused(s, costs, hits, k, q).Some? then id == Reused(s, costs, hits, k, q)
         else forall i | 0 <= i < |s.prices| :: s.prices[i].id != id.value
  {
    var cents := Cents(costs[k], q);
    assert Settles(s.plans[k], s'.plans[k], costs[k], used[k], s'.products, s'.prices, q, true);
    assert IsUsed(hits[k], used[k], s.prices);
    if Reused(s, costs, hits, k, q).Some? {
      FirstMatchKept(s.prices, s'.prices, used[k], cents, q);
    } else {
      NewIsNew(s.prices, s'.prices, used[k], cents, q);
    }
  }

  lemma NewIsNew(prices: seq<Price>, prices': seq<Price>, product: nat, cents: nat, p: Period)
    requires prices <= prices' && UniqueIds(prices') && FirstMatch(prices', product, cents, p).Some?
    requires FirstMatch(prices, product, cents, p).None? || forall k | 0 <= k < |prices| :: prices[k].product != product
    ensures forall i | 0 <= i < |prices| :: prices[i].id != FirstMatch(prices', product, cents, p).value
  {
    var id := FirstMatch(prices', product, cents, p).value;
    var k :| 0 <= k < |prices'| && prices'[k].id == id && Matches(prices'[k], product, cents, p);
    if k < |prices| {
      assert prices[k] == prices'[k];
      NewestMatchIsTaken(prices, product, cents, p, k);
      assert false;
    }
    forall i | 0 <= i < |prices|
      ensures prices[i].id != id
    {
      assert prices[i] == prices'[i];
    }
  }

  lemma WrittenAreDistinct(s: Shop, s': Shop, costs: seq<Cost>, hits: seq<Option<nat>>, used: seq<nat>,
                           j: nat, p: Period, k: nat, q: Period)
    requires Ran(s, s', costs, hits, used, true) && DistinctCodes(s'.plans) && j < |costs| && k < |costs|
    requires (j != k || p != q) && Wanted(costs[j], p) && Wanted(costs[k], q)
    ensures Column(s'.plans[j].columns, p) != Column(s'.plans[k].columns, q)
  {
    WrittenAsForeseen(s, s', costs, hits, used, j, p);
    WrittenAsForeseen(s, s', costs, hits, used, k, q);
    var id, id' := Column(s'.plans[j].columns, p).value, Column(s'.plans[k].columns, q).value;
    var i :| 0 <= i < |s'.prices| && s'.prices[i].id == id && Matches(s'.prices[i], used[j], Cents(costs[j], p), p);
    var i' :| 0 <= i' < |s'.prices| && s'.prices[i'].id == id'
      && Matches(s'.prices[i'], used[k], Cents(costs[k], q), q);
  }

  lemma LeftAlone(s: Shop, s': Shop, costs: seq<Cost>, hits: seq<Option<nat>>, used: seq<nat>, done: bool,
                  k: nat, p: Period)
    requires Ran(s, s', costs, hits, used, done) && k < |costs| && !Wanted(costs[k], p)
    ensures Column(s'.plans[k].columns, p) == Column(s.plans[k].columns, p)
  {
    assert Settles(s.plans[k], s'.plans[k], costs[k], used[k], s'.products, s'.prices, p, done);
  }

  lemma AloneDiffers(s: Shop, s': Shop, costs: seq<Cost>, hits: seq<Option<nat>>, used: seq<nat>,
                     j: nat, p: Period, k: nat, q: Period)
    requires Ran(s, s', costs, hits, used, true) && KnownIds(s) && j < |costs| && k < |costs|
    requires !Wanted(costs[j], p) && Column(s.plans[j].columns, p).Some?
    ensures Column(s'.plans[j].columns, p) == Column(s'.plans[k].columns, q)
      <==> Column(s.plans[j].columns, p) == Foreseen(s, costs, hits, k, q)
  {
    LeftAlone(s, s', costs, hits, used, true, j, p);
    if Wanted(costs[k], q) {
      WrittenAsForeseen(s, s', costs, hits, used, k, q);
      var i :| 0 <= i < |s.prices| && s.prices[i].id == Column(s.plans[j].columns, p).value;
    } else {
      LeftAlone(s, s', costs, hits, used, true, k, q);
    }
  }

  /** After a complete run over any table, prices are distinct if and only if no column left alone is stale. */
  lemma DistinctIffNoneStale(s: Shop, s': Shop, costs: seq<Cost>, hits: seq<Option<nat>>, used: seq<nat>)
    requires Ran(s, s', costs, hits, used, true) && DistinctCodes(s.plans) && KnownIds(s)
    ensures PricesDistinct(s'.plans) <==> NoneStale(s, costs, hits)
  {
    SameCodes(s, s', costs, hits, used, true);
    if NoneStale(s, costs, hits) {
      forall j, k, p, q |
        0 <= j < |costs| && 0 <= k < |costs| && (j != k || p != q) && Column(s'.plans[j].columns, p).Some?
        ensures Column(s'.plans[j].columns, p) != Column(s'.plans[k].columns, q)
      {
        TwoColumns(s, s', costs, hits, used, j, p, k, q);
      }
    } else {
      var j, k, p, q :| 0 <= j < |costs| && 0 <= k < |costs| && (j != k || p != q) && !Wanted(costs[j], p)
        && Column(s.plans[j].columns, p).Some? && Column(s.plans[j].columns, p) == Foreseen(s, costs, hits, k, q);
      AloneDiffers(s, s', costs, hits, used, j, p, k, q);
      LeftAlone(s, s', costs, hits, used, true, j, p);
    }
  }

  lemma TwoColumns(s: Shop, s': Shop, costs: seq<Cost>, hits: seq<Option<nat>>, used: seq<nat>,
                   j: nat, p: Period, k: nat, q: Period)
    requires Ran(s, s', costs, hits, used, true) && DistinctCodes(s'.plans) && KnownIds(s) && NoneStale(s, costs, hits)
    requires j < |costs| && k < |costs| && (j != k || p != q) && Column(s'.plans[j].columns, p).Some?
    ensures Column(s'.plans[j].columns, p) != Column(s'.plans[k].columns, q)
  {
    if !Wanted(costs[j], p) {
      LeftAlone(s, s', costs, hits, used, true, j, p);
      AloneDiffers(s, s', costs, hits, used, j, p, k, q);
    } else if !Wanted(costs[k], q) {
      LeftAlone(s, s', costs, hits, used, true, k, q);
      if Column(s.plans[k].columns, q).Some? { AloneDiffers(s, s', costs, hits, used, k, q, j, p); }
    } else {
      WrittenAreDistinct(s, s', costs, hits, used, j, p, k, q);
    }
  }

  // ---- A stale column ----

  /** "old" is skipped, because its longer prices are NULL, and its column still holds the price "pro" now sells at. */
  const STALE := Shop(
    [Plan("pro", Columns(None, None, None)), Plan("old", Columns(Some(5), None, None))],
    map[1 := "pro"], [Price(5, 1, true, 900, Month, 1)])
  const STALE_COSTS := [Cost(900, Some(0), Some(0)), Cost(900, None, None)]
  const STALE_HITS := [Some(1), None]

  /** The table's ids are distinct before the run, and whoever buys "pro" after it may be put on "old". */
  lemma StaleColumnCollides(s': Shop, used: seq<nat>)
    requires Ran(STALE, s', STALE_COSTS, STALE_HITS, used, true)
    ensures PricesDistinct(STALE.plans) && !PricesDistinct(s'.plans)
    ensures Column(s'.plans[0].columns, Monthly) == Column(s'.plans[1].columns, Monthly) == Some(5)
  {
    assert Matches(STALE.prices[0], 1, 900, Monthly);
    assert Foreseen(STALE, STALE_COSTS, STALE_HITS, 0, Monthly) == Some(5);
    assert Column(STALE.plans[1].columns, Monthly) == Some(5);
    WrittenAsForeseen(STALE, s', STALE_COSTS, STALE_HITS, used, 0, Monthly);
    LeftAlone(STALE, s', STALE_COSTS, STALE_HITS, used, true, 1, Monthly);
  }

  const COLLIDED := STALE.(plans := [Plan("pro", Columns(Some(5), None, None)), STALE.plans[1]])

  /** Such a run there is. */
  lemma StaleRunExists()
    ensures Ran(STALE, COLLIDED, STALE_COSTS, STALE_HITS, [1, 2], true)
  {
    assert Matches(STALE.prices[0], 1, 900, Monthly);
    assert FirstMatch(STALE.prices, 1, 900, Monthly) == Some(5);
    forall k, p | 0 <= k < |STALE_COSTS|
      ensures Settles(STALE.plans[k], COLLIDED.plans[k], STALE_COSTS[k], [1, 2][k], STALE.products, STALE.prices,
                      p, true)
    {
      match p
      case Monthly =>
      case Quarterly =>
      case Yearly =>
    }
  }
}
