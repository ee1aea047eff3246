/**
 What single billing calls do, told row by row and column by column, and what a paying tenant
 is served after its event.
 */
module BillingEffects {
  import opened Wrappers
  import opened BillingTables
  import opened Billing
  import opened EntitlementsService
  import W = WebhookStream

  ghost predicate Known(customers: seq<Customer>, id: string) {
    exists cu <- customers :: cu.providerCustomerId == id
  }

  /** Customer `k` is the one with the provider's id `id`. */
  ghost predicate IsCustomer(customers: seq<Customer>, k: nat, id: string) {
    && W.DistinctCustomers(customers)
    && k < |customers| && customers[k].providerCustomerId == id
  }

  lemma CustomerFound(customers: seq<Customer>, k: nat, id: string)
    requires IsCustomer(customers, k, id)
    ensures FindCustomer(customers, id) == Some(k)
  {
    var at := FindCustomer(customers, id);
    assert at.Some?;
  }

  lemma KnownIsFound(customers: seq<Customer>, id: string)
    ensures Known(customers, id) <==> FindCustomer(customers, id).Some?
  {
    var at := FindCustomer(customers, id);
    if at.Some? { assert customers[at.value] in customers; }
  }

  /** Row `i` of `rows'` has the key; the others are as they were, and a new row comes last. */
  ghost predicate OneRow<O(!new), U(!new)>(rows: seq<Row<O, U>>, rows': seq<Row<O, U>>, i: nat, key: string) {
    && i < |rows'| && rows'[i].key == key
    && |rows'| == (if i < |rows| then |rows| else |rows| + 1)
    && (i < |rows| ==> rows[i].key == key && rows'[i].owner == rows[i].owner)
    && (i >= |rows| ==> forall j :: 0 <= j < |rows| ==> rows[j].key != key)
    && forall j :: 0 <= j < |rows| && j != i ==> rows'[j] == rows[j]
  }

  // ---------------------------------------------------------------- events

  /** The columns of a subscription row are those of the event, its plan the one behind the event's price. */
  ghost predicate HasColumns(c: Catalog, f: SubscriptionFields, e: SubscriptionEvent) {
    && f.status == e.status && f.periodStart == e.periodStart && f.periodEnd == e.periodEnd
    && f.cancelAt == e.cancelAt && f.canceledAt == e.canceledAt && f.trialEnd == e.trialEnd
    && f.metadata == e.metadata
    && forall p :: f.plan == Some(p) <==> e.price in c.prices && c.prices[e.price] == p && p in c.plans
  }

  /**
   A subscription event of customer `k` writes its columns to the row with its id and to no
   other; an existing row keeps its owner, a new one belongs to customer `k`. Of the cache
   exactly the entry of that customer's tenant is dropped.
   */
  lemma SubscriptionEventWrites(c: Catalog, st: State, e: SubscriptionEvent, k: nat)
    requires UniqueKeys(st.subscriptions) && IsCustomer(st.customers, k, e.customer)
    ensures
      var (st', r) := Dispatch(c, st, SubscriptionChanged(e));
      && r.Success? && r.value.AppliedRow?
      && var i := r.value.id;
      && OneRow(st.subscriptions, st'.subscriptions, i, e.id)
      && HasColumns(c, st'.subscriptions[i].fields, e)
      && (i == |st.subscriptions| ==> st'.subscriptions[i].owner == Owner(st.customers[k].tenant, k))
      && (forall t :: t in st'.cache <==> t in st.cache && t != st.customers[k].tenant)
      && (forall t <- st'.cache :: st'.cache[t] == st.cache[t])
      && st' == st.(subscriptions := st'.subscriptions, cache := st'.cache)
  {
    CustomerFound(st.customers, k, e.customer);
    var row := SubscriptionRow(c, Owner(st.customers[k].tenant, k), e);
    var (st', r) := Dispatch(c, st, SubscriptionChanged(e));
    assert st'.cache == st.cache - {st.customers[k].tenant};
  }

  /** Two live default methods of one customer. */
  ghost predicate Rivals(a: Row<MethodOwner, MethodFields>, b: Row<MethodOwner, MethodFields>) {
    && a.owner.owner == b.owner.owner
    && a.fields.card.isDefault && a.fields.deletedAt.None?
    && b.fields.card.isDefault && b.fields.deletedAt.None?
  }

  ghost predicate OneDefault(rows: Methods) {
    forall i, j :: 0 <= i < j < |rows| ==> !Rivals(rows[i], rows[j])
  }

  /** A default card next to another live default of the customer who owns the row, or will own it. */
  ghost predicate SecondDefault(rows: Methods, e: MethodEvent, newcomer: Owner) {
    e.card.isDefault
    && exists j: nat :: j < |rows| && rows[j].key != e.id && HoldsDefault(rows, j, RowOwner(rows, e.id, newcomer))
  }

  predicate HoldsDefault(rows: Methods, j: nat, owner: Owner)
    requires j < |rows|
  {
    rows[j].owner.owner == owner && rows[j].fields.card.isDefault && rows[j].fields.deletedAt.None?
  }

  /** The owner that the row with the key has, or that a new one would get. */
  ghost function RowOwner(rows: Methods, key: string, newcomer: Owner): (r: Owner)
    ensures (forall row <- rows :: row.key != key) ==> r == newcomer
    ensures UniqueKeys(rows) ==> forall row <- rows :: row.key == key ==> r == row.owner.owner
  {
    if i: nat :| i < |rows| && rows[i].key == key then rows[i].owner.owner else newcomer
  }

  lemma TwiceIff(rows: Methods, e: MethodEvent, newcomer: MethodOwner)
    requires UniqueKeys(rows) && OneDefault(rows)
    ensures DefaultTwice(Upsert(rows, Row(e.id, newcomer, MethodFields(e.card, None))))
       <==> SecondDefault(rows, e, newcomer.owner)
  {
    var row := Row(e.id, newcomer, MethodFields(e.card, None));
    var rows' := Upsert(rows, row);
    var i := Find(rows', e.id).value;
    assert i < |rows| ==> rows[i] in rows;
    var owner := RowOwner(rows, e.id, newcomer.owner);
    assert rows'[i].owner.owner == owner;
    if SecondDefault(rows, e, newcomer.owner) {
      var j: nat :| j < |rows| && rows[j].key != e.id && HoldsDefault(rows, j, owner);
      var a, b := if i < j then i else j, if i < j then j else i;
      assert LiveDefault(rows'[a], rows'[b].owner.owner) && LiveDefault(rows'[b], rows'[b].owner.owner);
    }
    if DefaultTwice(rows') {
      var a: nat, b: nat :| a < b < |rows'| && LiveDefault(rows'[a], rows'[b].owner.owner)
        && LiveDefault(rows'[b], rows'[b].owner.owner);
      assert Rivals(rows'[a], rows'[b]);
      assert a == i || b == i;
      var j := if a == i then b else a;
      assert j < |rows| && rows[j] == rows'[j] && rows[j].key != e.id && HoldsDefault(rows, j, owner);
    }
  }

  /** An attaching or updating event of customer `k` is refused, and changes nothing, iff it makes a second default. */
  lemma MethodEventRefusedIff(c: Catalog, st: State, e: MethodEvent, k: nat)
    requires UniqueKeys(st.methods) && OneDefault(st.methods) && IsCustomer(st.customers, k, e.customer)
    ensures
      var (st', r) := Dispatch(c, st, MethodChanged(e));
      && (r.Failure? <==> SecondDefault(st.methods, e, Owner(st.customers[k].tenant, k)))
      && (r.Failure? ==> r.error == UniqueViolation && st' == st)
      && (r.Success? ==>
            && r.value.AppliedRow?
            && var i := r.value.id;
            && OneRow(st.methods, st'.methods, i, e.id)
            && st'.methods[i].fields == MethodFields(e.card, None)
            && (i == |st.methods| ==> st'.methods[i].owner == MethodOwner(Owner(st.customers[k].tenant, k), e.kind))
            && st' == st.(methods := st'.methods))
  {
    CustomerFound(st.customers, k, e.customer);
    var row := MethodRow(Owner(st.customers[k].tenant, k), e);
    TwiceIff(st.methods, e, row.owner);
  }

  /** A detach stamps the live row with the key and changes nothing else. */
  lemma DetachStamps(c: Catalog, st: State, e: MethodEvent, k: nat)
    requires UniqueKeys(st.methods) && IsCustomer(st.customers, k, e.customer)
    ensures
      var (st', r) := Dispatch(c, st, MethodDetached(e));
      && r == Success(AppliedDetach)
      && |st'.methods| == |st.methods| && st' == st.(methods := st'.methods)
      && forall j :: 0 <= j < |st.methods| ==>
           var was, now := st.methods[j], st'.methods[j];
           && now == was.(fields := was.fields.(deletedAt := now.fields.deletedAt))
           && now.fields.deletedAt ==
              if was.key == e.id && was.fields.deletedAt.None? then Some(st.now) else was.fields.deletedAt
  {
    CustomerFound(st.customers, k, e.customer);
    var at := Find(st.methods, e.id);
    if at.Some? {
      forall j | 0 <= j < |st.methods| && j != at.value ensures st.methods[j].key != e.id {}
    } else {
      forall j | 0 <= j < |st.methods| ensures st.methods[j].key != e.id { assert st.methods[j] in st.methods; }
    }
  }

  // ---------------------------------------------------------------- the worker

  /** The events that the tables take. */
  ghost predicate Applicable(st: State, e: Event) {
    match e
    case SubscriptionChanged(s) => Known(st.customers, s.customer)
    case InvoiceChanged(i) => Known(st.customers, i.customer)
    case MethodChanged(m) =>
      Known(st.customers, m.customer)
      && forall k: nat :: IsCustomer(st.customers, k, m.customer) ==>
           !SecondDefault(st.methods, m, Owner(st.customers[k].tenant, k))
    case MethodDetached(m) => Known(st.customers, m.customer)
    case CheckoutCompleted(_) => true
    case DisputeCreated => true
  }

  lemma DispatchesIff(c: Catalog, st: State, e: Event)
    requires UniqueKeys(st.methods) && OneDefault(st.methods) && W.DistinctCustomers(st.customers)
    ensures Dispatch(c, st, e).1.Success? <==> Applicable(st, e)
  {
    match e
    case SubscriptionChanged(s) => KnownIsFound(st.customers, s.customer);
    case InvoiceChanged(i) => KnownIsFound(st.customers, i.customer);
    case MethodDetached(m) => KnownIsFound(st.customers, m.customer);
    case MethodChanged(m) =>
      KnownIsFound(st.customers, m.customer);
      var at := FindCustomer(st.customers, m.customer);
      if at.Some? {
        assert IsCustomer(st.customers, at.value, m.customer);
        MethodEventRefusedIff(c, st, m, at.value);
        assert forall k: nat :: IsCustomer(st.customers, k, m.customer) ==> k == at.value;
      }
    case _ =>
  }

  /**
   The worker applies an unprocessed event and marks it iff the tables take it; otherwise
   nothing changes, and the row stays for the next attempt.
   */
  lemma WorkAppliesIff(c: Catalog, st: State, id: string)
    requires UniqueKeys(st.methods) && OneDefault(st.methods) && W.DistinctCustomers(st.customers)
    requires id in st.ledger && !st.ledger[id].processed
    ensures
      var e, st' := st.ledger[id].event, Process(c, st, id);
      if Applicable(st, e) then
        && st'.ledger == st.ledger[id := LedgerRow(e, true)] && st'.done == st.done + [(id, e)]
        && var applied := Dispatch(c, st, e).0;
           && st'.subscriptions == applied.subscriptions && st'.invoices == applied.invoices
           && st'.methods == applied.methods && st'.cache == applied.cache
      else st' == st
  {
    DispatchesIff(c, st, st.ledger[id].event);
    W.DispatchKeepsLedger(c, st, st.ledger[id].event);
  }

  /** Checkouts and disputes write nothing; a checkout of an unknown customer is skipped. */
  lemma OtherEventsWriteNothing(c: Catalog, st: State, customer: string)
    ensures
      var (st', r) := Dispatch(c, st, CheckoutCompleted(customer));
      && st' == st && r.Success? && (r.value == Skipped <==> !Known(st.customers, customer))
      && (r.value == AppliedCheckout <==> Known(st.customers, customer))
    ensures Dispatch(c, st, DisputeCreated) == (st, Success(AppliedDispute))
  {
    KnownIsFound(st.customers, customer);
  }

  /** A delivery stores its event, unprocessed, iff the event id is new; another one changes nothing. */
  lemma DeliveryStores(st: State, id: string, e: Event)
    ensures
      var st' := Receive(st, id, e);
      if id in st.ledger then st' == st
      else
        && st' == st.(ledger := st'.ledger) && st'.ledger.Keys == st.ledger.Keys + {id}
        && st'.ledger[id].event == e && !st'.ledger[id].processed
        && forall i <- st.ledger :: st'.ledger[i] == st.ledger[i]
  {
  }

  /** From the first delivery of an event that the tables take to its being applied, by the first worker that comes. */
  lemma DeliveredIsApplied(c: Catalog, st: State, id: string, e: Event)
    requires UniqueKeys(st.methods) && OneDefault(st.methods) && W.DistinctCustomers(st.customers)
    requires id !in st.ledger && Applicable(st, e)
    ensures
      var st' := W.Run(c, st, [W.Deliver(id, e), W.Work(id)]);
      && st'.done == st.done + [(id, e)]
      && W.Run(c, st', [W.Work(id)]) == st' && W.Run(c, st', [W.Deliver(id, e)]) == st'
  {
    var st1 := Receive(st, id, e);
    assert forall k: nat, i: string :: IsCustomer(st1.customers, k, i) <==> IsCustomer(st.customers, k, i);
    WorkAppliesIff(c, st1, id);
    var st2 := Process(c, st1, id);
    var ops := [W.Deliver(id, e), W.Work(id)];
    assert ops[1..] == [W.Work(id)] && ops[1..][1..] == [];
    assert W.Run(c, st1, ops[1..]) == W.Run(c, st2, ops[1..][1..]);
    assert [W.Work(id)][1..] == [] && [W.Deliver(id, e)][1..] == [];
  }

  /** A tenant without a customer gets the one created, and is known by it; the others stay as they are. */
  lemma CustomerIsMade(st: State, tenant: Tenant, email: string, created: string)
    ensures
      var st' := EnsureCustomer(st, tenant, email, created);
      && st' == st.(customers := st'.customers) && st.customers <= st'.customers
      && (Known(st.customers, created) || (exists cu <- st.customers :: cu.tenant == tenant) ==> st' == st)
      && (!Known(st.customers, created) && (forall cu <- st.customers :: cu.tenant != tenant) ==>
            && |st'.customers| == |st.customers| + 1
            && st'.customers[|st.customers|] == Customer(tenant, created, email))
  {
  }

  /** A customer has at most one live default, whatever is delivered and worked. */
  lemma {:induction false} RunKeepsOneDefault(c: Catalog, st: State, ops: seq<W.Op>)
    requires OneDefault(st.methods)
    ensures OneDefault(W.Run(c, st, ops).methods)
    decreases |ops|
  {
    if ops != [] {
      if ops[0].Work? && ops[0].id in st.ledger { DispatchKeepsOneDefault(c, st, st.ledger[ops[0].id].event); }
      RunKeepsOneDefault(c, W.Next(c, st, ops[0]), ops[1..]);
    }
  }

  lemma DispatchKeepsOneDefault(c: Catalog, st: State, e: Event)
    requires OneDefault(st.methods)
    ensures OneDefault(Dispatch(c, st, e).0.methods)
  {
    if e.MethodChanged? && Dispatch(c, st, e).1.Success? {
      var rows := Dispatch(c, st, e).0.methods;
      forall i, j | 0 <= i < j < |rows| ensures !Rivals(rows[i], rows[j]) {
        assert Rivals(rows[i], rows[j]) ==>
            LiveDefault(rows[i], rows[j].owner.owner) && LiveDefault(rows[j], rows[j].owner.owner);
      }
    }
  }

  // ---------------------------------------------------------------- what a tenant is served

  /** Row `j` gives the tenant access: trialing, active, or past due. */
  predicate Paying(rows: Subscriptions, j: nat, tenant: Tenant)
    requires j < |rows|
  {
    && rows[j].owner.tenant == tenant
    && (rows[j].fields.status == Trialing || rows[j].fields.status == Active || rows[j].fields.status == PastDue)
  }

  /** Row `w` is the paying row that ends last, and the first of those that end with it. */
  ghost predicate Decides(rows: Subscriptions, w: nat, tenant: Tenant) {
    && w < |rows| && Paying(rows, w, tenant)
    && (forall j: nat :: j < |rows| && Paying(rows, j, tenant) ==> rows[j].fields.periodEnd <= rows[w].fields.periodEnd)
    && (forall j: nat :: j < w && Paying(rows, j, tenant) ==> rows[j].fields.periodEnd < rows[w].fields.periodEnd)
  }

  lemma DecidingRow(rows: Subscriptions, tenant: Tenant, w: nat)
    requires Decides(rows, w, tenant)
    ensures FindActive(rows, tenant) == Some(w)
  {
    forall j: nat | j < |rows| ensures GivesAccess(rows[j], tenant) <==> Paying(rows, j, tenant) {}
    FindActiveIs(rows, tenant, w);
  }

  /** A tenant without a paying subscription, or on one without a plan, has the free tier. */
  lemma FreeTierWhen(c: Catalog, rows: Subscriptions, tenant: Tenant, w: nat)
    requires (forall j: nat :: j < |rows| ==> !Paying(rows, j, tenant))
             || (Decides(rows, w, tenant) && (rows[w].fields.plan == None || rows[w].fields.plan == Some("")))
    ensures Resolve(c, rows, tenant) == c.freeTier
  {
    if forall j: nat :: j < |rows| ==> !Paying(rows, j, tenant) {
      var at := FindActive(rows, tenant);
      if at.Some? { assert Paying(rows, at.value, tenant); }
    } else {
      DecidingRow(rows, tenant, w);
    }
  }

  /** Otherwise it has exactly the features listed for the plan of the row that decides, each with its last value. */
  lemma PlanFeatures(c: Catalog, rows: Subscriptions, tenant: Tenant, w: nat, feature: string, value: Feature)
    requires Decides(rows, w, tenant) && rows[w].fields.plan.Some? && rows[w].fields.plan != Some("")
    ensures
      var plan, m := rows[w].fields.plan.value, Resolve(c, rows, tenant);
      feature in m && m[feature] == value <==>
        plan in c.features
        && exists i: nat :: Last(c.features[plan], i, feature) && c.features[plan][i].1 == value
  {
    DecidingRow(rows, tenant, w);
    var features := FeaturesOf(c, rows[w].fields.plan.value);
    if feature in FeatureMap(features) {
      var i := FeatureMapOnly(features, feature);
      FeatureMapHolds(features, i, feature);
    }
    if i: nat :| Last(features, i, feature) {
      FeatureMapHolds(features, i, feature);
    }
  }

  /** An entry that parses is served as it is until it expires. */
  lemma HitIsServed(c: Catalog, st: State, tenant: Tenant, m: Entitlements)
    requires tenant in st.cache && st.cache[tenant].cached == Json(m) && st.now < st.cache[tenant].expiresAt
    ensures Lookup(c, st, tenant) == (st, m)
  {
  }

  /** Without one the tables answer, and the answer is kept for the configured number of seconds. */
  lemma MissIsResolved(c: Catalog, st: State, tenant: Tenant)
    requires tenant !in st.cache || st.cache[tenant].cached.Garbled? || st.cache[tenant].expiresAt <= st.now
    ensures
      var (st', m) := Lookup(c, st, tenant);
      && m == Resolve(c, st.subscriptions, tenant)
      && st' == st.(cache := st'.cache)
      && (forall t :: t in st'.cache <==> t in st.cache || t == tenant)
      && (forall t <- st'.cache :: t != tenant ==> st'.cache[t] == st.cache[t])
  {
  }

  /** A resolved answer is served for the configured time even when the rows change unseen, and no longer. */
  lemma MissIsKept(c: Catalog, st: State, tenant: Tenant, rows: Subscriptions, ms: nat)
    requires tenant !in st.cache || st.cache[tenant].cached.Garbled? || st.cache[tenant].expiresAt <= st.now
    ensures
      var (st', m) := Lookup(c, st, tenant);
      Lookup(c, st'.(now := st.now + ms, subscriptions := rows), tenant).1
      == if ms < c.cacheTtl * 1000 then m else Resolve(c, rows, tenant)
  {
  }

  /**
   From a paying customer's event to what its tenant is served: when the row that the event
   writes is this customer's and ends after its other paying rows, the next lookup has every
   feature that the plan behind the price lists, and no other.
   */
  lemma PaidEventIsServed(c: Catalog, st: State, e: SubscriptionEvent, k: nat, feature: string, value: Feature)
    requires UniqueKeys(st.subscriptions) && IsCustomer(st.customers, k, e.customer)
    requires e.status == Trialing || e.status == Active || e.status == PastDue
    requires e.price in c.prices && c.prices[e.price] in c.plans && c.prices[e.price] != ""
    requires forall j: nat :: j < |st.subscriptions| && st.subscriptions[j].key == e.id ==>
               st.subscriptions[j].owner.tenant == st.customers[k].tenant
    requires forall j: nat ::
               (j < |st.subscriptions| && st.subscriptions[j].key != e.id
                && Paying(st.subscriptions, j, st.customers[k].tenant)) ==>
                 st.subscriptions[j].fields.periodEnd < e.periodEnd
    ensures
      var st' := Dispatch(c, st, SubscriptionChanged(e)).0;
      var m, plan := Lookup(c, st', st.customers[k].tenant).1, c.prices[e.price];
      feature in m && m[feature] == value <==>
        plan in c.features
        && exists i: nat :: Last(c.features[plan], i, feature) && c.features[plan][i].1 == value
  {
    SubscriptionEventWrites(c, st, e, k);
    var (st', r) := Dispatch(c, st, SubscriptionChanged(e));
    var tenant, i := st.customers[k].tenant, r.value.id;
    forall j: nat | j < |st'.subscriptions| && j != i && Paying(st'.subscriptions, j, tenant)
      ensures st'.subscriptions[j].fields.periodEnd < e.periodEnd
    {
      assert st.subscriptions[j] == st'.subscriptions[j];
    }
    assert Decides(st'.subscriptions, i, tenant);
    PlanFeatures(c, st'.subscriptions, tenant, i, feature, value);
    MissIsResolved(c, st', tenant);
  }

  /** After the end of the last paying subscription the next lookup answers the free tier. */
  lemma EndedEventIsServed(c: Catalog, st: State, e: SubscriptionEvent, k: nat)
    requires UniqueKeys(st.subscriptions) && IsCustomer(st.customers, k, e.customer)
    requires !(e.status == Trialing || e.status == Active || e.status == PastDue)
    requires forall j: nat :: j < |st.subscriptions| && st.subscriptions[j].key != e.id ==>
               !Paying(st.subscriptions, j, st.customers[k].tenant)
    ensures Lookup(c, Dispatch(c, st, SubscriptionChanged(e)).0, st.customers[k].tenant).1 == c.freeTier
  {
    SubscriptionEventWrites(c, st, e, k);
    var (st', r) := Dispatch(c, st, SubscriptionChanged(e));
    var tenant := st.customers[k].tenant;
    forall j: nat | j < |st'.subscriptions| ensures !Paying(st'.subscriptions, j, tenant) {
      if j != r.value.id { assert st.subscriptions[j] == st'.subscriptions[j]; }
    }
    FreeTierWhen(c, st'.subscriptions, tenant, 0);
    MissIsResolved(c, st', tenant);
  }
}
