/** The billing tables, ledger and entitlement cache, updated in place by the services and the worker. */
module BillingServices {
  import opened Wrappers
  import opened BillingTables
  import B = Billing
  import E = EntitlementsService

  class BillingService {
    const catalog: B.Catalog
    var now: int
    var customers: seq<B.Customer>
    var subscriptions: B.Subscriptions
    var invoices: B.Invoices
    var methods: B.Methods
    var cache: map<B.Tenant, B.CacheEntry>
    var ledger: map<string, B.LedgerRow>
    ghost var done: seq<(string, B.Event)>

    constructor (catalog: B.Catalog, now: int)
      ensures this.catalog == catalog
      ensures Abs() == B.State(now, [], [], [], [], map[], map[], [])
    {
      this.catalog := catalog;
      this.now := now;
      customers, subscriptions, invoices, methods := [], [], [], [];
      cache, ledger := map[], map[];
      done := [];
    }

    ghost function Abs(): B.State
      reads this
    {
      B.State(now, customers, subscriptions, invoices, methods, cache, ledger, done)
    }

    /** `resolveCustomerForEvent` */
    method ResolveCustomer(id: string) returns (r: Result<nat, B.Error>)
      ensures r.Success? <==> B.FindCustomer(customers, id).Some?
      ensures r.Success? ==> B.FindCustomer(customers, id) == Some(r.value)
      ensures r.Failure? ==> r.error == B.BillingCustomerMissing(id)
    {
      var found := B.FindCustomer(customers, id);
      match found {
        case None => r := Failure(B.BillingCustomerMissing(id));
        case Some(i) => r := Success(i);
      }
    }

    /** `resolvePlanForSubscription`: by way of the price. */
    method ResolvePlan(price: string) returns (plan: Option<string>)
      ensures plan == B.ResolvePlan(catalog, price)
    {
      if price !in catalog.prices { return None; }
      var id := catalog.prices[price];
      if id !in catalog.plans { return None; }
      plan := Some(id);
    }

    method DispatchSubscription(e: B.SubscriptionEvent) returns (r: Result<B.Applied, B.Error>)
      modifies this`subscriptions, this`cache
      ensures (Abs(), r) == B.Dispatch(catalog, old(Abs()), B.SubscriptionChanged(e))
    {
      var customer := ResolveCustomer(e.customer);
      if customer.Failure? { return Failure(customer.error); }
      var tenant := customers[customer.value].tenant;
      var plan := ResolvePlan(e.price);
      var row := Row(e.id, B.Owner(tenant, customer.value), B.SubscriptionFields(
        plan, e.status, e.periodStart, e.periodEnd, e.cancelAt, e.canceledAt, e.trialEnd, e.metadata));
      subscriptions := Upsert(subscriptions, row);
      var id := Find(subscriptions, e.id).value;
      Invalidate(tenant);
      r := Success(B.AppliedRow(id));
    }

    method DispatchInvoice(e: B.InvoiceEvent) returns (r: Result<B.Applied, B.Error>)
      modifies this`invoices
      ensures (Abs(), r) == B.Dispatch(catalog, old(Abs()), B.InvoiceChanged(e))
    {
      var customer := ResolveCustomer(e.customer);
      if customer.Failure? { return Failure(customer.error); }
      var link: Option<nat> := None;
      if e.subscription.Some? {
        link := Find(subscriptions, e.subscription.value);
      }
      var owner := B.Owner(customers[customer.value].tenant, customer.value);
      var row := Row(e.id, B.InvoiceOwner(owner, link, e.issuedAt), e.fields);
      invoices := Upsert(invoices, row);
      r := Success(B.AppliedRow(Find(invoices, e.id).value));
    }

    /** An upsert that would leave two live defaults for one customer is refused by the index, and changes nothing. */
    method DispatchMethod(e: B.Event) returns (r: Result<B.Applied, B.Error>)
      requires e.MethodChanged? || e.MethodDetached?
      modifies this`methods
      ensures (Abs(), r) == B.Dispatch(catalog, old(Abs()), e)
    {
      var m := e.instrument;
      var customer := ResolveCustomer(m.customer);
      if customer.Failure? { return Failure(customer.error); }
      if e.MethodDetached? {
        var at := Find(methods, m.id);
        if at.Some? && methods[at.value].fields.deletedAt.None? {
          var row := methods[at.value];
          methods := methods[at.value := row.(fields := row.fields.(deletedAt := Some(now)))];
        }
        return Success(B.AppliedDetach);
      }
      var owner := B.Owner(customers[customer.value].tenant, customer.value);
      var row := Row(m.id, B.MethodOwner(owner, m.kind), B.MethodFields(m.card, None));
      var rows := Upsert(methods, row);
      if B.DefaultTwice(rows) { return Failure(B.UniqueViolation); }
      methods := rows;
      r := Success(B.AppliedRow(Find(methods, m.id).value));
    }

    /** `dispatchEvent` */
    method DispatchEvent(e: B.Event) returns (r: Result<B.Applied, B.Error>)
      modifies this
      ensures (Abs(), r) == B.Dispatch(catalog, old(Abs()), e)
    {
      match e {
        case SubscriptionChanged(s) => r := DispatchSubscription(s);
        case InvoiceChanged(i) => r := DispatchInvoice(i);
        case MethodChanged(_) => r := DispatchMethod(e);
        case MethodDetached(_) => r := DispatchMethod(e);
        case CheckoutCompleted(customer) =>
          var found := ResolveCustomer(customer);
          r := Success(if found.Success? then B.AppliedCheckout else B.Skipped);
        case DisputeCreated => r := Success(B.AppliedDispute);
      }
    }

    /** The webhook receiver: true when the event id is new. */
    method Append(id: string, e: B.Event) returns (isNew: bool)
      modifies this`ledger
      ensures Abs() == B.Receive(old(Abs()), id, e)
      ensures isNew <==> id !in old(ledger)
    {
      isNew := id !in ledger;
      if isNew { ledger := ledger[id := B.LedgerRow(e, false)]; }
    }

    /** The worker's handling of one ledger row. */
    method ProcessEvent(id: string)
      modifies this
      ensures Abs() == B.Process(catalog, old(Abs()), id)
    {
      if id !in ledger || ledger[id].processed { return; }
      var e := ledger[id].event;
      var r := DispatchEvent(e);
      if r.Success? {
        ledger := ledger[id := B.LedgerRow(e, true)];
        done := done + [(id, e)];
      }
    }

    /** `ensureCustomer`; the provider's answer is `created`. */
    method EnsureCustomer(tenant: B.Tenant, email: string, created: string)
      modifies this`customers
      ensures Abs() == B.EnsureCustomer(old(Abs()), tenant, email, created)
      ensures B.CustomersOf(customers, tenant) ==
              if B.CustomersOf(old(customers), tenant) != [] || B.FindCustomer(old(customers), created).Some?
              then B.CustomersOf(old(customers), tenant)
              else [B.Customer(tenant, created, email)]
    {
      ghost var was := customers;
      B.NoCustomers(customers, tenant);
      if exists cu <- customers :: cu.tenant == tenant { return; }
      if exists cu <- customers :: cu.providerCustomerId == created { return; }
      customers := customers + [B.Customer(tenant, created, email)];
      assert customers[..|was|] == was;
    }

    // ---------------------------------------------------------------- entitlements

    method Invalidate(tenant: B.Tenant)
      modifies this`cache
      ensures cache == old(cache) - {tenant}
      ensures E.Lookup(catalog, Abs(), tenant).1 == E.Resolve(catalog, subscriptions, tenant)
    {
      cache := cache - {tenant};
    }

    /** `resolveFromDb`: the loop fills the map row by row. */
    method ResolveFromDb(tenant: B.Tenant) returns (m: B.Entitlements)
      ensures m == E.Resolve(catalog, subscriptions, tenant)
    {
      var at := E.FindActive(subscriptions, tenant);
      if at.None? || subscriptions[at.value].fields.plan in {None, Some("")} {
        return catalog.freeTier;
      }
      var features := E.FeaturesOf(catalog, subscriptions[at.value].fields.plan.value);
      m := map[];
      for i := 0 to |features|
        invariant m == E.FeatureMap(features[..i])
      {
        assert features[..i + 1][..i] == features[..i];
        m := m[features[i].0 := features[i].1];
      }
      assert features[..|features|] == features;
    }

    method GetEntitlements(tenant: B.Tenant) returns (m: B.Entitlements)
      modifies this`cache
      ensures (Abs(), m) == E.Lookup(catalog, old(Abs()), tenant)
    {
      if tenant in cache && now < cache[tenant].expiresAt {
        match cache[tenant].cached {
          case Json(value) => return value;
          case Garbled =>
        }
      }
      m := ResolveFromDb(tenant);
      cache := cache[tenant := B.CacheEntry(B.Json(m), now + catalog.cacheTtl * 1000)];
    }

    method IsFeatureEnabled(feature: string, tenant: B.Tenant) returns (enabled: bool)
      modifies this`cache
      ensures Abs() == E.Lookup(catalog, old(Abs()), tenant).0
      ensures enabled <==> E.Enabled(E.Lookup(catalog, old(Abs()), tenant).1, feature)
    {
      var m := GetEntitlements(tenant);
      if feature !in m { return false; }
      match m[feature] {
        case Flag(on) => return on;
        case Limit(_) => return true;
        case Quota(_) => return true;
      }
    }
  }
}
