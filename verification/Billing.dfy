/** packages/kit/billing: the tables, the catalog, `dispatchEvent` and the webhook ledger. */
module Billing {
  import opened Wrappers
  import opened BillingTables

  type Tenant = nat

  datatype Status = Trialing | Active | PastDue | Canceled | Incomplete | IncompleteExpired | Unpaid

  datatype Owner = Owner(tenant: Tenant, customer: nat)

  datatype SubscriptionFields = SubscriptionFields(
    plan: Option<string>, status: Status, periodStart: int, periodEnd: int,
    cancelAt: Option<int>, canceledAt: Option<int>, trialEnd: Option<int>, metadata: map<string, string>)

  datatype InvoiceOwner = InvoiceOwner(owner: Owner, subscription: Option<nat>, issuedAt: int)

  datatype InvoiceFields = InvoiceFields(
    amountCents: int, currency: string, status: string, hostedUrl: Option<string>,
    pdfUrl: Option<string>, paidAt: Option<int>)

  datatype MethodOwner = MethodOwner(owner: Owner, kind: string)

  datatype Card = Card(
    brand: Option<string>, last4: Option<string>, expMonth: Option<int>, expYear: Option<int>, isDefault: bool)

  datatype MethodFields = MethodFields(card: Card, deletedAt: Option<int>)

  datatype Customer = Customer(tenant: Tenant, providerCustomerId: string, email: string)

  datatype Feature = Flag(enabled: bool) | Limit(n: int) | Quota(n: int)

  type Entitlements = map<string, Feature>

  /** `features` holds the `plan_features` rows of each plan. */
  datatype Catalog = Catalog(
    prices: map<string, string>, plans: set<string>, features: map<string, seq<(string, Feature)>>,
    freeTier: Entitlements, cacheTtl: nat)

  /** A cached JSON text: one that parses back to its map, or one that does not parse. */
  datatype Cached = Json(value: Entitlements) | Garbled

  datatype CacheEntry = CacheEntry(cached: Cached, expiresAt: int)

  datatype SubscriptionEvent = SubscriptionEvent(
    id: string, customer: string, price: string, status: Status, periodStart: int, periodEnd: int,
    cancelAt: Option<int>, canceledAt: Option<int>, trialEnd: Option<int>, metadata: map<string, string>)

  datatype InvoiceEvent = InvoiceEvent(
    id: string, customer: string, subscription: Option<string>, issuedAt: int, fields: InvoiceFields)

  datatype MethodEvent = MethodEvent(id: string, customer: string, kind: string, card: Card)

  datatype Event =
    | SubscriptionChanged(subscription: SubscriptionEvent)
    | InvoiceChanged(invoice: InvoiceEvent)
    | MethodChanged(instrument: MethodEvent)
    | MethodDetached(instrument: MethodEvent)
    | CheckoutCompleted(customer: string)
    | DisputeCreated

  datatype Error = BillingCustomerMissing(id: string) | UniqueViolation

  datatype Applied = AppliedRow(id: nat) | AppliedDetach | AppliedCheckout | AppliedDispute | Skipped

  type Subscriptions = seq<Row<Owner, SubscriptionFields>>
  type Invoices = seq<Row<InvoiceOwner, InvoiceFields>>
  type Methods = seq<Row<MethodOwner, MethodFields>>

  /** A webhook ledger row: the event received under an event id, and whether it was processed. */
  datatype LedgerRow = LedgerRow(event: Event, processed: bool)

  /** `done` records the events processed, with their ids. */
  datatype State = State(
    now: int, customers: seq<Customer>, subscriptions: Subscriptions, invoices: Invoices, methods: Methods,
    cache: map<Tenant, CacheEntry>, ledger: map<string, LedgerRow>,
    done: seq<(string, Event)>)

  // ---------------------------------------------------------------- lookups

  function FindCustomer(customers: seq<Customer>, id: string, from: nat := 0): (r: Option<nat>)
    requires from <= |customers|
    ensures r.Some? ==> from <= r.value < |customers| && customers[r.value].providerCustomerId == id
    ensures r.None? ==> forall i :: from <= i < |customers| ==> customers[i].providerCustomerId != id
    decreases |customers| - from
  {
    if from == |customers| then None
    else if customers[from].providerCustomerId == id then Some(from)
    else FindCustomer(customers, id, from + 1)
  }

  /** `resolvePlanForSubscription` */
  function ResolvePlan(c: Catalog, price: string): Option<string> {
    if price in c.prices && c.prices[price] in c.plans then Some(c.prices[price]) else None
  }

  // ---------------------------------------------------------------- dispatchEvent

  function SubscriptionRow(c: Catalog, owner: Owner, e: SubscriptionEvent): Row<Owner, SubscriptionFields> {
    Row(e.id, owner, SubscriptionFields(
      ResolvePlan(c, e.price), e.status, e.periodStart, e.periodEnd, e.cancelAt, e.canceledAt, e.trialEnd, e.metadata))
  }

  function InvoiceRow(st: State, owner: Owner, e: InvoiceEvent): Row<InvoiceOwner, InvoiceFields> {
    var link := if e.subscription.Some? then Find(st.subscriptions, e.subscription.value) else None;
    Row(e.id, InvoiceOwner(owner, link, e.issuedAt), e.fields)
  }

  function MethodRow(owner: Owner, e: MethodEvent): Row<MethodOwner, MethodFields> {
    Row(e.id, MethodOwner(owner, e.kind), MethodFields(e.card, None))
  }

  predicate LiveDefault(row: Row<MethodOwner, MethodFields>, owner: Owner) {
    row.owner.owner == owner && row.fields.card.isDefault && row.fields.deletedAt.None?
  }

  /** The partial unique index: one live default payment method per (tenant, customer). */
  predicate DefaultTwice(rows: Methods) {
    exists i: nat, j: nat :: i < j < |rows| && LiveDefault(rows[i], rows[j].owner.owner)
      && LiveDefault(rows[j], rows[j].owner.owner)
  }

  /** `markDetached`: only a row that is not deleted yet. */
  function MarkDetached(rows: Methods, key: string, now: int): Methods {
    var at := Find(rows, key);
    if at.None? || rows[at.value].fields.deletedAt.Some? then rows
    else rows[at.value := rows[at.value].(fields := rows[at.value].fields.(deletedAt := Some(now)))]
  }

  function Dispatch(c: Catalog, st: State, e: Event): (State, Result<Applied, Error>) {
    match e
    case SubscriptionChanged(s) =>
      var customer := FindCustomer(st.customers, s.customer);
      if customer.None? then (st, Failure(BillingCustomerMissing(s.customer)))
      else
        var tenant := st.customers[customer.value].tenant;
        var row := SubscriptionRow(c, Owner(tenant, customer.value), s);
        var rows := Upsert(st.subscriptions, row);
        (st.(subscriptions := rows, cache := st.cache - {tenant}),
         Success(AppliedRow(Find(rows, s.id).value)))
    case InvoiceChanged(i) =>
      var customer := FindCustomer(st.customers, i.customer);
      if customer.None? then (st, Failure(BillingCustomerMissing(i.customer)))
      else
        var row := InvoiceRow(st, Owner(st.customers[customer.value].tenant, customer.value), i);
        var rows := Upsert(st.invoices, row);
        (st.(invoices := rows), Success(AppliedRow(Find(rows, i.id).value)))
    case MethodChanged(m) =>
      var customer := FindCustomer(st.customers, m.customer);
      if customer.None? then (st, Failure(BillingCustomerMissing(m.customer)))
      else
        var row := MethodRow(Owner(st.customers[customer.value].tenant, customer.value), m);
        var rows := Upsert(st.methods, row);
        if DefaultTwice(rows) then (st, Failure(UniqueViolation))
        else (st.(methods := rows), Success(AppliedRow(Find(rows, m.id).value)))
    case MethodDetached(m) =>
      var customer := FindCustomer(st.customers, m.customer);
      if customer.None? then (st, Failure(BillingCustomerMissing(m.customer)))
      else
        (st.(methods := MarkDetached(st.methods, m.id, st.now)), Success(AppliedDetach))
    case CheckoutCompleted(customer) =>
      (st, Success(if FindCustomer(st.customers, customer).Some? then AppliedCheckout else Skipped))
    case DisputeCreated => (st, Success(AppliedDispute))
  }

  // ---------------------------------------------------------------- the ledger and its worker

  /** The receiver: `append` absorbs an event id it has seen. */
  function Receive(st: State, id: string, e: Event): State {
    if id in st.ledger then st else st.(ledger := st.ledger[id := LedgerRow(e, false)])
  }

  /** The worker: dispatch an unprocessed ledger row, and mark it processed unless the dispatch threw. */
  function Process(c: Catalog, st: State, id: string): State {
    if id !in st.ledger || st.ledger[id].processed then st
    else
      var (st', r) := Dispatch(c, st, st.ledger[id].event);
      if r.Failure? then st
      else
        var e := st.ledger[id].event;
        st'.(ledger := st'.ledger[id := LedgerRow(e, true)], done := st'.done + [(id, e)])
  }

  /** `ensureCustomer`; `created` is the id the provider hands out for a new customer. */
  function EnsureCustomer(st: State, tenant: Tenant, email: string, created: string): State {
    if exists cu <- st.customers :: cu.tenant == tenant then st
    else if exists cu <- st.customers :: cu.providerCustomerId == created then st
    else st.(customers := st.customers + [Customer(tenant, created, email)])
  }

  /** The customers recorded for a tenant. */
  function CustomersOf(customers: seq<Customer>, tenant: Tenant): seq<Customer> {
    if customers == [] then []
    else
      var last := customers[|customers| - 1];
      var rest := CustomersOf(customers[..|customers| - 1], tenant);
      if last.tenant == tenant then rest + [last] else rest
  }

  lemma {:induction false} NoCustomers(customers: seq<Customer>, tenant: Tenant)
    ensures CustomersOf(customers, tenant) == [] <==> forall cu <- customers :: cu.tenant != tenant
  {
    if customers != [] {
      var last := |customers| - 1;
      NoCustomers(customers[..last], tenant);
      assert customers == customers[..last] + [customers[last]];
    }
  }
}
