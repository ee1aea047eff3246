/**
 "Is feature X enabled for tenant Y?": resolution from the tables, the per-tenant cache in
 front of it, and what keeps the two in step. A lookup is one step here; EntitlementReaders
 splits it.
 */
module EntitlementsService {
  import opened Wrappers
  import opened BillingTables
  import opened Billing
  import WebhookStream

  /** A subscription that gives its tenant access. */
  predicate GivesAccess(row: Row<Owner, SubscriptionFields>, tenant: Tenant) {
    row.owner.tenant == tenant && row.fields.status in {Active, Trialing, PastDue}
  }

  /** `findActiveByTenant`: the access-giving row that ends last; the first of those on a tie. */
  function FindActive(rows: Subscriptions, tenant: Tenant): (r: Option<nat>)
    ensures r.None? <==> forall row <- rows :: !GivesAccess(row, tenant)
    ensures r.Some? ==> r.value < |rows| && GivesAccess(rows[r.value], tenant)
    ensures r.Some? ==> forall row <- rows ::
                          GivesAccess(row, tenant) ==> row.fields.periodEnd <= rows[r.value].fields.periodEnd
  {
    if rows == [] then None
    else
      var last := |rows| - 1;
      var best := FindActive(rows[..last], tenant);
      if GivesAccess(rows[last], tenant)
         && (best.None? || rows[best.value].fields.periodEnd < rows[last].fields.periodEnd) then Some(last)
      else best
  }

  /** On a tie the first row wins. */
  lemma {:induction false} FindActiveFirst(rows: Subscriptions, tenant: Tenant, j: nat)
    requires FindActive(rows, tenant).Some? && j < FindActive(rows, tenant).value && GivesAccess(rows[j], tenant)
    ensures rows[j].fields.periodEnd < rows[FindActive(rows, tenant).value].fields.periodEnd
  {
    var before := rows[..|rows| - 1];
    var best := FindActive(before, tenant).value;
    if FindActive(rows, tenant) == Some(best) {
      FindActiveFirst(before, tenant, j);
    }
  }

  /** The map filled row by row: of two rows with one key the later wins. */
  function FeatureMap(features: seq<(string, Feature)>): Entitlements {
    if features == [] then map[]
    else
      var last := features[|features| - 1];
      FeatureMap(features[..|features| - 1])[last.0 := last.1]
  }

  function FeaturesOf(c: Catalog, plan: string): seq<(string, Feature)> {
    if plan in c.features then c.features[plan] else []
  }

  /** `resolveFromDb`; a subscription without a plan (an empty plan id included) gets the free tier. */
  function Resolve(c: Catalog, rows: Subscriptions, tenant: Tenant): Entitlements {
    var at := FindActive(rows, tenant);
    if at.None? || rows[at.value].fields.plan in {None, Some("")} then c.freeTier
    else FeatureMap(FeaturesOf(c, rows[at.value].fields.plan.value))
  }

  /** The value a cache read yields: an entry that has not expired and still parses. */
  function CacheRead(cache: map<Tenant, CacheEntry>, now: int, tenant: Tenant): Option<Entitlements> {
    if tenant in cache && now < cache[tenant].expiresAt && cache[tenant].cached.Json?
    then Some(cache[tenant].cached.value)
    else None
  }

  /** `getEntitlements` */
  function Lookup(c: Catalog, st: State, tenant: Tenant): (State, Entitlements) {
    var hit := CacheRead(st.cache, st.now, tenant);
    if hit.Some? then (st, hit.value)
    else
      var current := Resolve(c, st.subscriptions, tenant);
      (st.(cache := st.cache[tenant := CacheEntry(Json(current), st.now + c.cacheTtl * 1000)]), current)
  }

  /** `isFeatureEnabled` on the map a lookup returned: limits and quotas count as enabled when present. */
  predicate Enabled(m: Entitlements, feature: string) {
    feature in m && (m[feature].Flag? ==> m[feature].enabled)
  }

  // ---------------------------------------------------------------- the cache agrees with the tables

  ghost predicate CoherentFor(c: Catalog, st: State, tenant: Tenant) {
    var hit := CacheRead(st.cache, st.now, tenant);
    hit.Some? ==> hit.value == Resolve(c, st.subscriptions, tenant)
  }

  ghost predicate Coherent(c: Catalog, st: State) {
    forall tenant :: CoherentFor(c, st, tenant)
  }

  /** Being access-giving, ending last, and before all that end with it, is what `FindActive` finds. */
  lemma FindActiveIs(rows: Subscriptions, tenant: Tenant, w: nat)
    requires w < |rows| && GivesAccess(rows[w], tenant)
    requires forall j: nat :: j < |rows| && GivesAccess(rows[j], tenant) ==>
                 rows[j].fields.periodEnd <= rows[w].fields.periodEnd
    requires forall j: nat :: j < w && GivesAccess(rows[j], tenant) ==>
                 rows[j].fields.periodEnd < rows[w].fields.periodEnd
    ensures FindActive(rows, tenant) == Some(w)
  {
    assert rows[w] in rows;
    var found := FindActive(rows, tenant).value;
    assert rows[found].fields.periodEnd == rows[w].fields.periodEnd;
    if w < found { FindActiveFirst(rows, tenant, w); }
  }

  /**
   Row `i` becoming `row` does not change who gives the tenant access: neither version gives
   any, or both do and end together, or another row outlasts both.
   */
  predicate KeepsActive(rows: Subscriptions, i: nat, row: Row<Owner, SubscriptionFields>, tenant: Tenant)
    requires i < |rows|
  {
    var w, was, will := FindActive(rows, tenant), GivesAccess(rows[i], tenant), GivesAccess(row, tenant);
    || (!was && !will)
    || (was && will && rows[i].fields.periodEnd == row.fields.periodEnd)
    || (w.Some? && w.value != i && (will ==> row.fields.periodEnd < rows[w.value].fields.periodEnd))
  }

  lemma FindActiveKept(rows: Subscriptions, i: nat, row: Row<Owner, SubscriptionFields>, tenant: Tenant)
    requires i < |rows| && KeepsActive(rows, i, row, tenant)
    ensures FindActive(rows[i := row], tenant) == FindActive(rows, tenant)
  {
    var rows' := rows[i := row];
    forall j: nat | j < |rows| ensures rows[j] in rows && rows'[j] in rows' {}
    var w := FindActive(rows, tenant);
    if w.Some? {
      forall j: nat | j < w.value && GivesAccess(rows[j], tenant)
        ensures rows[j].fields.periodEnd < rows[w.value].fields.periodEnd
      {
        FindActiveFirst(rows, tenant, j);
      }
      FindActiveIs(rows', tenant, w.value);
    }
  }

  /** The tenant whose entitlements an upsert can change: the owner on the row, which an update keeps. */
  function TouchedTenant(rows: Subscriptions, row: Row<Owner, SubscriptionFields>): Tenant {
    var at := Find(rows, row.key);
    if at.Some? then rows[at.value].owner.tenant else row.owner.tenant
  }

  lemma UpsertElsewhere(c: Catalog, rows: Subscriptions, row: Row<Owner, SubscriptionFields>, tenant: Tenant)
    requires tenant != TouchedTenant(rows, row)
    ensures Resolve(c, Upsert(rows, row), tenant) == Resolve(c, rows, tenant)
  {
    var at := Find(rows, row.key);
    if at.Some? {
      UpdateElsewhere(c, rows, at.value, rows[at.value].(fields := row.fields), tenant);
      assert Upsert(rows, row) == rows[at.value := rows[at.value].(fields := row.fields)];
    } else {
      assert Upsert(rows, row) == rows + [row];
    }
  }

  lemma UpdateElsewhere(c: Catalog, rows: Subscriptions, i: nat, row: Row<Owner, SubscriptionFields>, tenant: Tenant)
    requires i < |rows| && rows[i].owner.tenant != tenant && row.owner.tenant != tenant
    ensures Resolve(c, rows[i := row], tenant) == Resolve(c, rows, tenant)
  {
    ResolveKept(c, rows, i, row, tenant);
  }

  /** The same row gives access, on the same plan. */
  lemma ResolveKept(c: Catalog, rows: Subscriptions, i: nat, row: Row<Owner, SubscriptionFields>, tenant: Tenant)
    requires i < |rows| && KeepsActive(rows, i, row, tenant)
    requires FindActive(rows, tenant) == Some(i) ==> row.fields.plan == rows[i].fields.plan
    ensures Resolve(c, rows[i := row], tenant) == Resolve(c, rows, tenant)
  {
    FindActiveKept(rows, i, row, tenant);
    var at := FindActive(rows, tenant);
    if at.Some? { assert rows[i := row][at.value].fields.plan == rows[at.value].fields.plan; }
  }

  lemma OneLeft(c: Catalog, st: State, owner: Tenant)
    requires forall tenant | tenant != owner :: CoherentFor(c, st, tenant)
    ensures Coherent(c, st) <==> CoherentFor(c, st, owner)
  {
    if CoherentFor(c, st, owner) {
      forall tenant ensures CoherentFor(c, st, tenant) {
        assert tenant == owner || tenant != owner;
      }
    }
  }

  /** What a state becomes when `busted` loses its entry and the subscriptions become `rows`. */
  function Rebuilt(st: State, rows: Subscriptions, busted: Tenant): State {
    st.(subscriptions := rows, cache := st.cache - {busted})
  }

  lemma ElsewhereStays(c: Catalog, st: State, row: Row<Owner, SubscriptionFields>, busted: Tenant, tenant: Tenant)
    requires CoherentFor(c, st, tenant) && tenant != TouchedTenant(st.subscriptions, row)
    ensures CoherentFor(c, Rebuilt(st, Upsert(st.subscriptions, row), busted), tenant)
  {
    UpsertElsewhere(c, st.subscriptions, row, tenant);
  }

  lemma AtOwner(c: Catalog, st: State, rows: Subscriptions, busted: Tenant, owner: Tenant)
    requires CoherentFor(c, st, owner)
    ensures CoherentFor(c, Rebuilt(st, rows, busted), owner) <==>
            (owner == busted || CacheRead(st.cache, st.now, owner).None?
             || Resolve(c, rows, owner) == Resolve(c, st.subscriptions, owner))
  {
  }

  /**
   Exactly when a subscription event leaves the cache coherent: it busts the tenant of the
   event's customer, so what can go stale is the entry of the tenant on the stored row.
   */
  lemma EventKeepsCoherentIff(c: Catalog, st: State, e: SubscriptionEvent)
    requires Coherent(c, st)
    requires FindCustomer(st.customers, e.customer).Some?
    ensures
      var st' := Dispatch(c, st, SubscriptionChanged(e)).0;
      var at := Find(st.subscriptions, e.id);
      var busted := st.customers[FindCustomer(st.customers, e.customer).value].tenant;
      var owner := if at.Some? then st.subscriptions[at.value].owner.tenant else busted;
      Coherent(c, st') <==>
        (owner == busted || CacheRead(st.cache, st.now, owner).None?
         || Resolve(c, st'.subscriptions, owner) == Resolve(c, st.subscriptions, owner))
  {
    var customer := FindCustomer(st.customers, e.customer).value;
    var busted := st.customers[customer].tenant;
    var row := SubscriptionRow(c, Owner(busted, customer), e);
    var owner := TouchedTenant(st.subscriptions, row);
    var rows := Upsert(st.subscriptions, row);
    var st' := Rebuilt(st, rows, busted);
    assert st' == Dispatch(c, st, SubscriptionChanged(e)).0;
    forall tenant | tenant != owner ensures CoherentFor(c, st', tenant) {
      assert CoherentFor(c, st, tenant);
      ElsewhereStays(c, st, row, busted, tenant);
    }
    assert CoherentFor(c, st, owner);
    OneLeft(c, st', owner);
    AtOwner(c, st, rows, busted, owner);
  }

  /**
   Which updates leave the owner's resolution alone, told from the stored row and the event:
   those that keep the row that gives access, and keep its plan when it is the stored one.
   */
  lemma EventLeavesResolution(c: Catalog, rows: Subscriptions, e: SubscriptionEvent, at: nat)
    requires Find(rows, e.id) == Some(at)
    ensures
      var stored := rows[at];
      var row := stored.(fields := SubscriptionRow(c, stored.owner, e).fields);
      var tenant := stored.owner.tenant;
      KeepsActive(rows, at, row, tenant)
      && (FindActive(rows, tenant) == Some(at) ==> row.fields.plan == stored.fields.plan) ==>
        Resolve(c, Upsert(rows, SubscriptionRow(c, stored.owner, e)), tenant) == Resolve(c, rows, tenant)
  {
    var row := rows[at].(fields := SubscriptionRow(c, rows[at].owner, e).fields);
    var tenant := rows[at].owner.tenant;
    assert Upsert(rows, SubscriptionRow(c, rows[at].owner, e)) == rows[at := row];
    if KeepsActive(rows, at, row, tenant)
       && (FindActive(rows, tenant) == Some(at) ==> row.fields.plan == rows[at].fields.plan) {
      ResolveKept(c, rows, at, row, tenant);
    }
  }

  const PRO := SubscriptionFields(Some("pro"), Active, 0, 10, None, None, None, map[])
  const PRO_CATALOG := Catalog(map["price" := "pro"], {"pro"}, map["pro" := [("sso", Flag(true))]], map[], 300)
  const MOVED := SubscriptionEvent("sub", "cus2", "price", Canceled, 0, 10, None, None, None, map[])
  const SERVED := State(
    0, [Customer(1, "cus1", ""), Customer(2, "cus2", "")], [Row("sub", Owner(1, 0), PRO)], [], [],
    map[1 := CacheEntry(Json(map["sso" := Flag(true)]), 300000)], map[], [])

  /** A cancellation reported under another tenant's customer leaves the owner's paid features cached. */
  lemma MovedSubscriptionStaysCached()
    ensures Coherent(PRO_CATALOG, SERVED)
    ensures
      var st' := Dispatch(PRO_CATALOG, SERVED, SubscriptionChanged(MOVED)).0;
      && Enabled(Lookup(PRO_CATALOG, st', 1).1, "sso")
      && !Enabled(Resolve(PRO_CATALOG, st'.subscriptions, 1), "sso")
  {
    var rows := SERVED.subscriptions;
    assert rows[..0] == [];
    assert FindActive(rows, 1) == Some(0);
    var features := PRO_CATALOG.features["pro"];
    assert features[..0] == [];
    assert FeatureMap(features) == map["sso" := Flag(true)];
    assert CoherentFor(PRO_CATALOG, SERVED, 1);
    assert FindCustomer(SERVED.customers, "cus2", 1) == Some(1);
    assert FindCustomer(SERVED.customers, "cus2") == Some(1);
    assert Find(rows, "sub") == Some(0);
  }

  // ---------------------------------------------------------------- runs

  /** Webhook traffic, lookups, manual busts, and entries that get corrupted in the cache. */
  datatype Op =
    | Webhook(op: WebhookStream.Op)
    | Ask(tenant: Tenant)
    | Bust(tenant: Tenant)
    | Corrupt(tenant: Tenant, expiresAt: int)

  function Next(c: Catalog, st: State, op: Op): State {
    match op
    case Webhook(w) => WebhookStream.Next(c, st, w)
    case Ask(tenant) => Lookup(c, st, tenant).0
    case Bust(tenant) => st.(cache := st.cache - {tenant})
    case Corrupt(tenant, at) => st.(cache := st.cache[tenant := CacheEntry(Garbled, at)])
  }

  function Run(c: Catalog, st: State, ops: seq<Op>): State
    decreases |ops|
  {
    if ops == [] then st else Run(c, Next(c, st, ops[0]), ops[1..])
  }

  /** Every event about one subscription names the one customer that `cust` gives it. */
  ghost predicate FixedEvent(e: Event, cust: string -> string) {
    e.SubscriptionChanged? ==> e.subscription.customer == cust(e.subscription.id)
  }

  ghost predicate FixedCustomers(ops: seq<Op>, cust: string -> string) {
    forall op <- ops :: op.Webhook? && op.op.Deliver? ==> FixedEvent(op.op.event, cust)
  }

  /** A row belongs to the tenant that its subscription's one customer resolves to. */
  ghost predicate OwnedAs(customers: seq<Customer>, row: Row<Owner, SubscriptionFields>, cust: string -> string) {
    && row.owner.customer < |customers|
    && customers[row.owner.customer].tenant == row.owner.tenant
    && customers[row.owner.customer].providerCustomerId == cust(row.key)
  }

  ghost predicate Inv(c: Catalog, st: State, cust: string -> string) {
    && WebhookStream.DistinctCustomers(st.customers)
    && (forall row <- st.subscriptions :: OwnedAs(st.customers, row, cust))
    && (forall id <- st.ledger :: FixedEvent(st.ledger[id].event, cust))
    && Coherent(c, st)
  }

  lemma SubscriptionEventKeeps(c: Catalog, st: State, e: SubscriptionEvent, cust: string -> string)
    requires Inv(c, st, cust) && FixedEvent(SubscriptionChanged(e), cust)
    ensures Inv(c, Dispatch(c, st, SubscriptionChanged(e)).0, cust)
  {
    var found := FindCustomer(st.customers, e.customer);
    if found.Some? {
      EventKeepsCoherentIff(c, st, e);
      var at := Find(st.subscriptions, e.id);
      if at.Some? {
        assert OwnedAs(st.customers, st.subscriptions[at.value], cust);
        assert st.subscriptions[at.value].owner.customer == found.value;
      }
    }
  }

  lemma OtherEventsTouchNothingHere(c: Catalog, st: State, e: Event)
    requires !e.SubscriptionChanged?
    ensures
      var st' := Dispatch(c, st, e).0;
      && st'.now == st.now && st'.customers == st.customers && st'.subscriptions == st.subscriptions
      && st'.cache == st.cache && st'.ledger == st.ledger
  {
  }

  /** Coherence and ownership depend on nothing but the clock, customers, subscriptions, cache and ledger events. */
  lemma InvTransfers(c: Catalog, st: State, st': State, cust: string -> string)
    requires Inv(c, st, cust)
    requires st'.now == st.now && st'.customers == st.customers && st'.subscriptions == st.subscriptions
    requires st'.cache == st.cache
    requires forall id <- st'.ledger :: id in st.ledger && st'.ledger[id].event == st.ledger[id].event
    ensures Inv(c, st', cust)
  {
    forall tenant ensures CoherentFor(c, st', tenant) {
      assert CoherentFor(c, st, tenant);
    }
  }

  lemma WorkKeeps(c: Catalog, st: State, id: string, cust: string -> string)
    requires Inv(c, st, cust)
    ensures Inv(c, Process(c, st, id), cust)
  {
    if id in st.ledger && !st.ledger[id].processed {
      var e := st.ledger[id].event;
      var (st1, r) := Dispatch(c, st, e);
      if e.SubscriptionChanged? {
        SubscriptionEventKeeps(c, st, e.subscription, cust);
      } else {
        OtherEventsTouchNothingHere(c, st, e);
        InvTransfers(c, st, st1, cust);
      }
      if r.Success? {
        WebhookStream.DispatchKeepsLedger(c, st, e);
        InvTransfers(c, st1, Process(c, st, id), cust);
      }
    }
  }

  lemma WebhookKeeps(c: Catalog, st: State, op: WebhookStream.Op, cust: string -> string)
    requires Inv(c, st, cust) && (op.Deliver? ==> FixedEvent(op.event, cust))
    ensures Inv(c, WebhookStream.Next(c, st, op), cust)
  {
    var st' := WebhookStream.Next(c, st, op);
    if op.Work? {
      WorkKeeps(c, st, op.id, cust);
    } else {
      forall tenant ensures CoherentFor(c, st', tenant) {
        assert CoherentFor(c, st, tenant);
      }
    }
  }

  lemma NextKeeps(c: Catalog, st: State, op: Op, cust: string -> string)
    requires Inv(c, st, cust) && FixedCustomers([op], cust)
    ensures Inv(c, Next(c, st, op), cust)
  {
    assert op in [op];
    if op.Webhook? {
      WebhookKeeps(c, st, op.op, cust);
    } else {
      forall tenant ensures CoherentFor(c, Next(c, st, op), tenant) {
        assert CoherentFor(c, st, tenant);
      }
    }
  }

  lemma {:induction false} RunKeeps(c: Catalog, st: State, ops: seq<Op>, cust: string -> string)
    requires Inv(c, st, cust) && FixedCustomers(ops, cust)
    ensures Inv(c, Run(c, st, ops), cust)
    decreases |ops|
  {
    if ops != [] {
      assert ops[0] in ops;
      NextKeeps(c, st, ops[0], cust);
      RunKeeps(c, Next(c, st, ops[0]), ops[1..], cust);
    }
  }

  /**
   With service calls atomic and each subscription's customer fixed, every lookup in every
   reachable state answers what the tables say at that moment, whatever the cache holds.
   */
  lemma LookupsAreTrue(c: Catalog, st: State, ops: seq<Op>, cust: string -> string, tenant: Tenant)
    requires WebhookStream.Initial(st) && st.cache == map[] && FixedCustomers(ops, cust)
    ensures
      var st' := Run(c, st, ops);
      Lookup(c, st', tenant).1 == Resolve(c, st'.subscriptions, tenant)
  {
    RunKeeps(c, st, ops, cust);
    assert CoherentFor(c, Run(c, st, ops), tenant);
  }

  predicate Last(features: seq<(string, Feature)>, i: nat, key: string) {
    && i < |features| && features[i].0 == key
    && forall j :: i < j < |features| ==> features[j].0 != key
  }

  /** Filling the map row by row: a key holds the value of its last row ... */
  lemma {:induction false} FeatureMapHolds(features: seq<(string, Feature)>, i: nat, key: string)
    requires Last(features, i, key)
    ensures key in FeatureMap(features) && FeatureMap(features)[key] == features[i].1
  {
    var last := |features| - 1;
    if i < last {
      assert features[last].0 != key;
      FeatureMapHolds(features[..last], i, key);
    }
  }

  /** ... and there are no other keys. */
  lemma {:induction false} FeatureMapOnly(features: seq<(string, Feature)>, key: string) returns (i: nat)
    requires key in FeatureMap(features)
    ensures Last(features, i, key)
  {
    var last := |features| - 1;
    if features[last].0 == key {
      i := last;
    } else {
      i := FeatureMapOnly(features[..last], key);
      assert features[..last][i] == features[i];
      forall j | i < j < |features| ensures features[j].0 != key {
        if j < last { assert features[..last][j] == features[j]; }
      }
    }
  }
}
