/**
 What the billing tables hold after any run of deliveries, redeliveries, worker runs in any
 order, and new customers.
 */
module WebhookStream {
  import opened Wrappers
  import opened BillingTables
  import opened Billing

  datatype Op =
    | Deliver(id: string, event: Event)
    | Work(id: string)
    | NewCustomer(tenant: Tenant, email: string, created: string)
    | Tick(ms: nat)

  function Next(c: Catalog, st: State, op: Op): State {
    match op
    case Deliver(id, event) => Receive(st, id, event)
    case Work(id) => Process(c, st, id)
    case NewCustomer(tenant, email, created) => EnsureCustomer(st, tenant, email, created)
    case Tick(ms) => st.(now := st.now + ms)
  }

  function Run(c: Catalog, st: State, ops: seq<Op>): State
    decreases |ops|
  {
    if ops == [] then st else Run(c, Next(c, st, ops[0]), ops[1..])
  }

  ghost predicate Initial(st: State) {
    && st.subscriptions == [] && st.invoices == [] && st.methods == []
    && st.ledger == map[] && st.done == []
    && DistinctCustomers(st.customers)
  }

  ghost predicate DistinctCustomers(customers: seq<Customer>) {
    forall i, j :: 0 <= i < j < |customers| ==> customers[i].providerCustomerId != customers[j].providerCustomerId
  }

  // ---------------------------------------------------------------- redeliveries

  /** The run without the deliveries of an event id that has been received before. */
  function FirstDeliveries(ops: seq<Op>, seen: set<string>): seq<Op> {
    if ops == [] then []
    else if !ops[0].Deliver? then [ops[0]] + FirstDeliveries(ops[1..], seen)
    else if ops[0].id in seen then FirstDeliveries(ops[1..], seen)
    else [ops[0]] + FirstDeliveries(ops[1..], seen + {ops[0].id})
  }

  /** Redeliveries, whatever they carry, change nothing at all. */
  lemma {:induction false} RedeliveriesAreAbsorbed(c: Catalog, st: State, ops: seq<Op>)
    ensures Run(c, st, ops) == Run(c, st, FirstDeliveries(ops, st.ledger.Keys))
    decreases |ops|
  {
    if ops != [] {
      var st1 := Next(c, st, ops[0]);
      RedeliveriesAreAbsorbed(c, st1, ops[1..]);
      if !(ops[0].Deliver? && ops[0].id in st.ledger) {
        assert st1.ledger.Keys == if ops[0].Deliver? then st.ledger.Keys + {ops[0].id} else st.ledger.Keys;
        var rest := FirstDeliveries(ops[1..], st1.ledger.Keys);
        assert FirstDeliveries(ops, st.ledger.Keys) == [ops[0]] + rest;
        assert ([ops[0]] + rest)[1..] == rest;
      }
    }
  }

  // ---------------------------------------------------------------- the tables as a fold over the processed events

  predicate Resolves(customers: seq<Customer>, e: Event) {
    match e
    case SubscriptionChanged(s) => FindCustomer(customers, s.customer).Some?
    case InvoiceChanged(i) => FindCustomer(customers, i.customer).Some?
    case MethodChanged(m) => FindCustomer(customers, m.customer).Some?
    case MethodDetached(m) => FindCustomer(customers, m.customer).Some?
    case _ => true
  }

  function OwnerOf(customers: seq<Customer>, id: string): Owner {
    var at := FindCustomer(customers, id);
    if at.Some? then Owner(customers[at.value].tenant, at.value) else Owner(0, 0)
  }

  /** The subscription upserts that the processed events ask for, in order. */
  function SubscriptionUpserts(c: Catalog, customers: seq<Customer>, done: seq<(string, Event)>): Subscriptions {
    if done == [] then []
    else
      var e, rest := done[|done| - 1].1, SubscriptionUpserts(c, customers, done[..|done| - 1]);
      if e.SubscriptionChanged? then
        rest + [SubscriptionRow(c, OwnerOf(customers, e.subscription.customer), e.subscription)]
      else rest
  }

  function Position(ids: seq<string>, id: string): (r: Option<nat>)
    ensures r.Some? ==> r.value < |ids| && ids[r.value] == id
    ensures r.None? <==> id !in ids
  {
    if ids == [] then None
    else
      var last := |ids| - 1;
      if ids[last] == id then Some(last) else Position(ids[..last], id)
  }

  /** The subscription ids of the processed events, in the order in which they first came. */
  function SubscriptionIds(done: seq<(string, Event)>): seq<string> {
    if done == [] then []
    else
      var e, rest := done[|done| - 1].1, SubscriptionIds(done[..|done| - 1]);
      if e.SubscriptionChanged? && e.subscription.id !in rest then rest + [e.subscription.id] else rest
  }

  /** The row that the named subscription has once `done` is processed. */
  function Link(done: seq<(string, Event)>, named: Option<string>): Option<nat> {
    if named.None? then None else Position(SubscriptionIds(done), named.value)
  }

  /** The row that an invoice event asks for after `done`. */
  function LinkedRow(customers: seq<Customer>, done: seq<(string, Event)>, e: InvoiceEvent):
      Row<InvoiceOwner, InvoiceFields> {
    Row(e.id, InvoiceOwner(OwnerOf(customers, e.customer), Link(done, e.subscription), e.issuedAt), e.fields)
  }

  /** The invoice upserts; each is linked by what was processed before it. */
  function InvoiceUpserts(customers: seq<Customer>, done: seq<(string, Event)>): Invoices {
    if done == [] then []
    else
      var before := done[..|done| - 1];
      var e, rest := done[|done| - 1].1, InvoiceUpserts(customers, before);
      if e.InvoiceChanged? then rest + [LinkedRow(customers, before, e.invoice)] else rest
  }

  function MethodUpserts(customers: seq<Customer>, done: seq<(string, Event)>): Methods {
    if done == [] then []
    else
      var e, rest := done[|done| - 1].1, MethodUpserts(customers, done[..|done| - 1]);
      if e.MethodChanged? then rest + [MethodRow(OwnerOf(customers, e.instrument.customer), e.instrument)] else rest
  }

  /** The last processed event of payment method `key` was a detach. */
  predicate EndsDetached(done: seq<(string, Event)>, key: string) {
    if done == [] then false
    else
      var e := done[|done| - 1].1;
      if e.MethodChanged? && e.instrument.id == key then false
      else if e.MethodDetached? && e.instrument.id == key then true
      else EndsDetached(done[..|done| - 1], key)
  }

  /** The card columns as after the last upsert, and soft-deleted iff a detach came after it. */
  ghost predicate MethodOk(methods: Methods, upserts: Methods, done: seq<(string, Event)>, key: string) {
    var at := Find(methods, key);
    && (at.None? <==> FirstOf(upserts, key).None?)
    && (at.None? <==> LastOf(upserts, key).None?)
    && (at.Some? ==>
          && methods[at.value].owner == FirstOf(upserts, key).value.owner
          && methods[at.value].fields.card == LastOf(upserts, key).value.fields.card
          && (methods[at.value].fields.deletedAt.Some? <==> EndsDetached(done, key)))
  }

  ghost predicate MethodsOk(methods: Methods, upserts: Methods, done: seq<(string, Event)>) {
    UniqueKeys(methods) && forall key :: MethodOk(methods, upserts, done, key)
  }

  /** An event id is done iff its ledger row is processed; no id is done twice. */
  ghost predicate LedgerOk(st: State) {
    && (forall i, j :: 0 <= i < j < |st.done| ==> st.done[i].0 != st.done[j].0)
    && (forall d <- st.done :: d.0 in st.ledger && st.ledger[d.0] == LedgerRow(d.1, true))
    && (forall id <- st.ledger :: st.ledger[id].processed ==> (id, st.ledger[id].event) in st.done)
  }

  ghost predicate Inv(c: Catalog, st: State) {
    && DistinctCustomers(st.customers)
    && (forall d <- st.done :: Resolves(st.customers, d.1))
    && LedgerOk(st)
    && TablesOk(c, st, st.done)
  }

  /** The three tables are what the processed events `done` make them. */
  ghost predicate TablesOk(c: Catalog, st: State, done: seq<(string, Event)>) {
    && Reflects(st.subscriptions, SubscriptionUpserts(c, st.customers, done))
    && KeysAre(st.subscriptions, SubscriptionIds(done))
    && Reflects(st.invoices, InvoiceUpserts(st.customers, done))
    && MethodsOk(st.methods, MethodUpserts(st.customers, done), done)
  }

  ghost predicate KeysAre<O, U>(rows: seq<Row<O, U>>, ids: seq<string>) {
    |rows| == |ids| && forall i :: 0 <= i < |rows| ==> rows[i].key == ids[i]
  }

  lemma {:induction false} FindIsPosition<O, U>(rows: seq<Row<O, U>>, ids: seq<string>, key: string)
    requires KeysAre(rows, ids)
    ensures Find(rows, key) == Position(ids, key)
  {
    if rows != [] {
      FindIsPosition(rows[..|rows| - 1], ids[..|rows| - 1], key);
    }
  }

  // ---------------------------------------------------------------- preservation

  lemma {:induction false} CustomerStays(customers: seq<Customer>, cu: Customer, id: string, from: nat)
    requires from <= |customers| && FindCustomer(customers, id, from).Some?
    ensures FindCustomer(customers + [cu], id, from) == FindCustomer(customers, id, from)
    decreases |customers| - from
  {
    if customers[from].providerCustomerId != id {
      CustomerStays(customers, cu, id, from + 1);
    }
  }

  /** A new customer changes nothing that was resolved before. */
  lemma {:induction false} UpsertsStay(c: Catalog, customers: seq<Customer>, cu: Customer, done: seq<(string, Event)>)
    requires forall d <- done :: Resolves(customers, d.1)
    ensures forall d <- done :: Resolves(customers + [cu], d.1)
    ensures SubscriptionUpserts(c, customers + [cu], done) == SubscriptionUpserts(c, customers, done)
    ensures InvoiceUpserts(customers + [cu], done) == InvoiceUpserts(customers, done)
    ensures MethodUpserts(customers + [cu], done) == MethodUpserts(customers, done)
  {
    if done != [] {
      var last := done[|done| - 1];
      var rest := done[..|done| - 1];
      UpsertsStay(c, customers, cu, rest);
      assert Resolves(customers, last.1);
      match last.1 {
        case SubscriptionChanged(s) => CustomerStays(customers, cu, s.customer, 0);
        case InvoiceChanged(i) => CustomerStays(customers, cu, i.customer, 0);
        case MethodChanged(m) => CustomerStays(customers, cu, m.customer, 0);
        case MethodDetached(m) => CustomerStays(customers, cu, m.customer, 0);
        case _ =>
      }
      assert done == rest + [last];
    }
  }

  lemma UpsertMethodOk(
    methods: Methods, upserts: Methods, done: seq<(string, Event)>, d: (string, Event),
    row: Row<MethodOwner, MethodFields>)
    requires MethodsOk(methods, upserts, done)
    requires d.1.MethodChanged? && row.key == d.1.instrument.id && row.fields.deletedAt.None?
    ensures MethodsOk(Upsert(methods, row), upserts + [row], done + [d])
  {
    var methods' := Upsert(methods, row);
    FindUpsert(methods, row, row.key);
    assert (done + [d])[..|done|] == done && (upserts + [row])[..|upserts|] == upserts;
    forall key ensures MethodOk(methods', upserts + [row], done + [d], key) {
      assert MethodOk(methods, upserts, done, key);
      FindUpsert(methods, row, key);
      FirstAppend(upserts, row, key);
    }
  }

  lemma DetachMethodOk(methods: Methods, upserts: Methods, done: seq<(string, Event)>, d: (string, Event), now: int)
    requires MethodsOk(methods, upserts, done) && d.1.MethodDetached?
    ensures MethodsOk(MarkDetached(methods, d.1.instrument.id, now), upserts, done + [d])
  {
    var id := d.1.instrument.id;
    var methods' := MarkDetached(methods, id, now);
    assert (done + [d])[..|done|] == done;
    assert UniqueKeys(methods');
    forall key ensures MethodOk(methods', upserts, done + [d], key) {
      assert MethodOk(methods, upserts, done, key);
      var at := Find(methods, key);
      if at.Some? {
        assert methods'[at.value].key == key;
        FindUnique(methods', at.value);
      } else {
        forall i | 0 <= i < |methods'| ensures methods'[i].key != key {
          assert methods[i] in methods;
        }
      }
    }
  }

  lemma OtherMethodOk(methods: Methods, upserts: Methods, done: seq<(string, Event)>, d: (string, Event))
    requires MethodsOk(methods, upserts, done) && !d.1.MethodChanged? && !d.1.MethodDetached?
    ensures MethodsOk(methods, upserts, done + [d])
  {
    assert (done + [d])[..|done|] == done;
    forall key ensures MethodOk(methods, upserts, done + [d], key) {
      assert MethodOk(methods, upserts, done, key);
    }
  }

  lemma SubscriptionKeeps(c: Catalog, st: State, d: (string, Event))
    requires TablesOk(c, st, st.done) && d.1.SubscriptionChanged? && Dispatch(c, st, d.1).1.Success?
    ensures TablesOk(c, Dispatch(c, st, d.1).0, st.done + [d])
  {
    var row := SubscriptionRow(c, OwnerOf(st.customers, d.1.subscription.customer), d.1.subscription);
    var log := SubscriptionUpserts(c, st.customers, st.done);
    assert SubscriptionUpserts(c, st.customers, st.done + [d]) == log + [row] by {
      assert (st.done + [d])[..|st.done|] == st.done;
    }
    UpsertReflects(st.subscriptions, log, row);
    OtherMethodOk(st.methods, MethodUpserts(st.customers, st.done), st.done, d);
  }

  lemma InvoiceKeeps(c: Catalog, st: State, d: (string, Event))
    requires TablesOk(c, st, st.done) && d.1.InvoiceChanged? && Dispatch(c, st, d.1).1.Success?
    ensures TablesOk(c, Dispatch(c, st, d.1).0, st.done + [d])
  {
    InvoiceApplied(c, st, d);
    OtherMethodOk(st.methods, MethodUpserts(st.customers, st.done), st.done, d);
  }

  lemma InvoiceApplied(c: Catalog, st: State, d: (string, Event))
    requires TablesOk(c, st, st.done) && d.1.InvoiceChanged? && Dispatch(c, st, d.1).1.Success?
    ensures
      var st' := Dispatch(c, st, d.1).0;
      && st' == st.(invoices := st'.invoices)
      && Reflects(st'.invoices, InvoiceUpserts(st.customers, st.done + [d]))
  {
    var i := d.1.invoice;
    if i.subscription.Some? {
      FindIsPosition(st.subscriptions, SubscriptionIds(st.done), i.subscription.value);
    }
    var row := InvoiceRow(st, OwnerOf(st.customers, i.customer), i);
    assert row == LinkedRow(st.customers, st.done, i);
    assert (st.done + [d])[..|st.done|] == st.done;
    UpsertReflects(st.invoices, InvoiceUpserts(st.customers, st.done), row);
  }

  lemma ChangedKeeps(c: Catalog, st: State, d: (string, Event))
    requires TablesOk(c, st, st.done) && d.1.MethodChanged? && Dispatch(c, st, d.1).1.Success?
    ensures
      var st' := Dispatch(c, st, d.1).0;
      && st' == st.(methods := st'.methods)
      && MethodsOk(st'.methods, MethodUpserts(st.customers, st.done + [d]), st.done + [d])
  {
    assert (st.done + [d])[..|st.done|] == st.done;
    var row := MethodRow(OwnerOf(st.customers, d.1.instrument.customer), d.1.instrument);
    UpsertMethodOk(st.methods, MethodUpserts(st.customers, st.done), st.done, d, row);
  }

  lemma DetachedKeeps(c: Catalog, st: State, d: (string, Event))
    requires TablesOk(c, st, st.done) && d.1.MethodDetached? && Dispatch(c, st, d.1).1.Success?
    ensures
      var st' := Dispatch(c, st, d.1).0;
      && st' == st.(methods := st'.methods)
      && MethodsOk(st'.methods, MethodUpserts(st.customers, st.done + [d]), st.done + [d])
  {
    assert (st.done + [d])[..|st.done|] == st.done;
    DetachMethodOk(st.methods, MethodUpserts(st.customers, st.done), st.done, d, st.now);
  }

  lemma MethodKeeps(c: Catalog, st: State, d: (string, Event))
    requires TablesOk(c, st, st.done) && Dispatch(c, st, d.1).1.Success?
    requires d.1.MethodChanged? || d.1.MethodDetached?
    ensures TablesOk(c, Dispatch(c, st, d.1).0, st.done + [d])
  {
    if d.1.MethodChanged? {
      ChangedKeeps(c, st, d);
    } else {
      DetachedKeeps(c, st, d);
    }
  }

  lemma QuietKeeps(c: Catalog, st: State, d: (string, Event))
    requires TablesOk(c, st, st.done) && (d.1.CheckoutCompleted? || d.1.DisputeCreated?)
    ensures TablesOk(c, Dispatch(c, st, d.1).0, st.done + [d])
  {
    OtherMethodOk(st.methods, MethodUpserts(st.customers, st.done), st.done, d);
  }

  lemma DispatchKeeps(c: Catalog, st: State, d: (string, Event))
    requires TablesOk(c, st, st.done) && Dispatch(c, st, d.1).1.Success?
    ensures
      var st' := Dispatch(c, st, d.1).0;
      && st'.customers == st.customers && st'.ledger == st.ledger && st'.done == st.done
      && Resolves(st.customers, d.1)
      && TablesOk(c, st', st.done + [d])
  {
    match d.1 {
      case SubscriptionChanged(_) => SubscriptionKeeps(c, st, d);
      case InvoiceChanged(_) => InvoiceKeeps(c, st, d);
      case MethodChanged(_) => MethodKeeps(c, st, d);
      case MethodDetached(_) => MethodKeeps(c, st, d);
      case _ => QuietKeeps(c, st, d);
    }
  }

  lemma CustomerKeeps(c: Catalog, st: State, tenant: Tenant, email: string, created: string)
    requires Inv(c, st)
    ensures Inv(c, EnsureCustomer(st, tenant, email, created))
  {
    var st' := EnsureCustomer(st, tenant, email, created);
    if st' != st {
      UpsertsStay(c, st.customers, Customer(tenant, created, email), st.done);
      assert DistinctCustomers(st'.customers) by {
        forall i | 0 <= i < |st.customers| ensures st.customers[i].providerCustomerId != created {
          assert st.customers[i] in st.customers;
        }
      }
    }
  }

  lemma WorkKeeps(c: Catalog, st: State, id: string)
    requires Inv(c, st)
    ensures Inv(c, Process(c, st, id))
  {
    if id in st.ledger && !st.ledger[id].processed {
      var d := (id, st.ledger[id].event);
      if Dispatch(c, st, d.1).1.Success? {
        DispatchKeeps(c, st, d);
        WorkLedger(c, st, id);
      }
    }
  }

  lemma ReceiveKeeps(c: Catalog, st: State, id: string, e: Event)
    requires Inv(c, st)
    ensures Inv(c, Receive(st, id, e))
  {
    var st' := Receive(st, id, e);
    assert LedgerOk(st') by {
      forall d <- st'.done ensures d.0 in st'.ledger && st'.ledger[d.0] == LedgerRow(d.1, true) {
        assert d.0 in st.ledger;
      }
    }
  }

  lemma NextKeeps(c: Catalog, st: State, op: Op)
    requires Inv(c, st)
    ensures Inv(c, Next(c, st, op))
  {
    match op {
      case Deliver(id, event) => ReceiveKeeps(c, st, id, event);
      case Work(id) => WorkKeeps(c, st, id);
      case NewCustomer(tenant, email, created) => CustomerKeeps(c, st, tenant, email, created);
      case Tick(_) =>
    }
  }

  lemma DispatchKeepsLedger(c: Catalog, st: State, e: Event)
    ensures Dispatch(c, st, e).0.ledger == st.ledger && Dispatch(c, st, e).0.done == st.done
  {
  }

  lemma WorkLedger(c: Catalog, st: State, id: string)
    requires LedgerOk(st) && id in st.ledger && !st.ledger[id].processed
    requires Dispatch(c, st, st.ledger[id].event).1.Success?
    ensures LedgerOk(Process(c, st, id))
  {
    DispatchKeepsLedger(c, st, st.ledger[id].event);
  }

  lemma {:induction false} RunKeeps(c: Catalog, st: State, ops: seq<Op>)
    requires Inv(c, st)
    ensures Inv(c, Run(c, st, ops))
    decreases |ops|
  {
    if ops != [] {
      NextKeeps(c, st, ops[0]);
      RunKeeps(c, Next(c, st, ops[0]), ops[1..]);
    }
  }

  // ---------------------------------------------------------------- the theorem

  /** Event `i` is about subscription `id`. */
  predicate Subscribes(done: seq<(string, Event)>, i: nat, id: string) {
    i < |done| && done[i].1.SubscriptionChanged? && done[i].1.subscription.id == id
  }

  /** Where the first and the last processed events of a subscription are. */
  function FirstSubscription(done: seq<(string, Event)>, key: string): (r: Option<nat>)
    ensures r.Some? ==> Subscribes(done, r.value, key) && forall j: nat :: j < r.value ==> !Subscribes(done, j, key)
    ensures r.None? ==> forall j: nat :: !Subscribes(done, j, key)
  {
    if done == [] then None
    else
      var last := |done| - 1;
      var before := FirstSubscription(done[..last], key);
      assert forall j: nat :: j < last ==> (Subscribes(done, j, key) <==> Subscribes(done[..last], j, key));
      if before.Some? then before
      else if Subscribes(done, last, key) then Some(last)
      else None
  }

  function LastSubscription(done: seq<(string, Event)>, key: string): (r: Option<nat>)
    ensures r.Some? ==> Subscribes(done, r.value, key) && forall j: nat :: r.value < j ==> !Subscribes(done, j, key)
    ensures r.None? ==> forall j: nat :: !Subscribes(done, j, key)
  {
    if done == [] then None
    else
      var last := |done| - 1;
      assert forall j: nat :: j < last ==> (Subscribes(done, j, key) <==> Subscribes(done[..last], j, key));
      if Subscribes(done, last, key) then Some(last) else LastSubscription(done[..last], key)
  }

  lemma {:induction false} SubscriptionEnds(
    c: Catalog, customers: seq<Customer>, done: seq<(string, Event)>, key: string)
    ensures
      var log := SubscriptionUpserts(c, customers, done);
      var first, last := FirstSubscription(done, key), LastSubscription(done, key);
      && (FirstOf(log, key).Some? <==> first.Some?)
      && (LastOf(log, key).Some? <==> last.Some?)
      && (first.Some? ==>
            var e := done[first.value].1.subscription;
            FirstOf(log, key).value == SubscriptionRow(c, OwnerOf(customers, e.customer), e))
      && (last.Some? ==>
            var e := done[last.value].1.subscription;
            LastOf(log, key).value == SubscriptionRow(c, OwnerOf(customers, e.customer), e))
  {
    if done != [] {
      var rest := done[..|done| - 1];
      var e := done[|done| - 1].1;
      SubscriptionEnds(c, customers, rest, key);
      if e.SubscriptionChanged? {
        var log := SubscriptionUpserts(c, customers, rest);
        var row := SubscriptionRow(c, OwnerOf(customers, e.subscription.customer), e.subscription);
        FirstAppend(log, row, key);
        assert (log + [row])[..|log|] == log;
      }
    }
  }

  /** The owner is the recorded customer with the provider's id, and its tenant. */
  ghost predicate OwnedBy(customers: seq<Customer>, owner: Owner, id: string) {
    && owner.customer < |customers|
    && customers[owner.customer].providerCustomerId == id
    && customers[owner.customer].tenant == owner.tenant
  }

  /**
   After any run of deliveries and worker runs each event id was applied at most once. A
   subscription row exists iff one of its events was applied; it is owned by the customer that
   the first one names, and every other column is that of the last one. Its plan is the plan
   that the catalog gives for that event's price, if the catalog has it.
   */
  lemma StreamSemantics(c: Catalog, st: State, ops: seq<Op>, key: string)
    requires Initial(st)
    ensures
      var st' := Run(c, st, ops);
      && LedgerOk(st')
      && var at, first := Find(st'.subscriptions, key), FirstSubscription(st'.done, key);
         var last := LastSubscription(st'.done, key);
      && (at.Some? <==> first.Some?) && (at.Some? <==> last.Some?)
      && (at.Some? ==>
            var row, e := st'.subscriptions[at.value], st'.done[last.value].1.subscription;
            && OwnedBy(st'.customers, row.owner, st'.done[first.value].1.subscription.customer)
            && row.fields.status == e.status
            && row.fields.periodStart == e.periodStart && row.fields.periodEnd == e.periodEnd
            && row.fields.cancelAt == e.cancelAt && row.fields.canceledAt == e.canceledAt
            && row.fields.trialEnd == e.trialEnd && row.fields.metadata == e.metadata
            && forall p :: row.fields.plan == Some(p) <==>
                           e.price in c.prices && c.prices[e.price] == p && p in c.plans)
  {
    assert Inv(c, st);
    RunKeeps(c, st, ops);
    var st' := Run(c, st, ops);
    assert ReflectsKey(st'.subscriptions, SubscriptionUpserts(c, st'.customers, st'.done), key);
    SubscriptionEnds(c, st'.customers, st'.done, key);
    var first := FirstSubscription(st'.done, key);
    if first.Some? { DoneIsOwned(c, st', first.value); }
  }

  /** The customer that an applied event names was found. */
  lemma DoneIsOwned(c: Catalog, st: State, i: nat)
    requires Inv(c, st) && i < |st.done|
    ensures
      var e := st.done[i].1;
      && (e.SubscriptionChanged? ==>
            OwnedBy(st.customers, OwnerOf(st.customers, e.subscription.customer), e.subscription.customer))
      && (e.InvoiceChanged? ==> OwnedBy(st.customers, OwnerOf(st.customers, e.invoice.customer), e.invoice.customer))
      && (e.MethodChanged? ==>
            OwnedBy(st.customers, OwnerOf(st.customers, e.instrument.customer), e.instrument.customer))
  {
    assert st.done[i] in st.done;
    assert Resolves(st.customers, st.done[i].1);
  }

  // ---------------------------------------------------------------- payment methods

  /** Event `i` attaches or updates payment method `id`. */
  predicate Attaches(done: seq<(string, Event)>, i: nat, id: string) {
    i < |done| && done[i].1.MethodChanged? && done[i].1.instrument.id == id
  }

  /** Event `i` detaches payment method `id`. */
  predicate Detaches(done: seq<(string, Event)>, i: nat, id: string) {
    i < |done| && done[i].1.MethodDetached? && done[i].1.instrument.id == id
  }

  /** Where the first and the last attaching or updating events of a payment method are. */
  function FirstMethod(done: seq<(string, Event)>, key: string): (r: Option<nat>)
    ensures r.Some? ==> Attaches(done, r.value, key) && forall j: nat :: j < r.value ==> !Attaches(done, j, key)
    ensures r.None? ==> forall j: nat :: !Attaches(done, j, key)
  {
    if done == [] then None
    else
      var last := |done| - 1;
      var before := FirstMethod(done[..last], key);
      assert forall j: nat :: j < last ==> (Attaches(done, j, key) <==> Attaches(done[..last], j, key));
      if before.Some? then before
      else if Attaches(done, last, key) then Some(last)
      else None
  }

  function LastMethod(done: seq<(string, Event)>, key: string): (r: Option<nat>)
    ensures r.Some? ==> Attaches(done, r.value, key) && forall j: nat :: r.value < j ==> !Attaches(done, j, key)
    ensures r.None? ==> forall j: nat :: !Attaches(done, j, key)
  {
    if done == [] then None
    else
      var last := |done| - 1;
      assert forall j: nat :: j < last ==> (Attaches(done, j, key) <==> Attaches(done[..last], j, key));
      if Attaches(done, last, key) then Some(last) else LastMethod(done[..last], key)
  }

  lemma {:induction false} MethodEnds(customers: seq<Customer>, done: seq<(string, Event)>, key: string)
    ensures
      var log := MethodUpserts(customers, done);
      var first, last := FirstMethod(done, key), LastMethod(done, key);
      && (FirstOf(log, key).Some? <==> first.Some?)
      && (LastOf(log, key).Some? <==> last.Some?)
      && (first.Some? ==>
            var e := done[first.value].1.instrument;
            FirstOf(log, key).value.owner == MethodOwner(OwnerOf(customers, e.customer), e.kind))
      && (last.Some? ==> LastOf(log, key).value.fields.card == done[last.value].1.instrument.card)
  {
    if done != [] {
      var rest := done[..|done| - 1];
      var e := done[|done| - 1].1;
      MethodEnds(customers, rest, key);
      if e.MethodChanged? {
        var log := MethodUpserts(customers, rest);
        var row := MethodRow(OwnerOf(customers, e.instrument.customer), e.instrument);
        FirstAppend(log, row, key);
        assert (log + [row])[..|log|] == log;
      }
    }
  }

  lemma {:induction false} EndsDetachedIff(done: seq<(string, Event)>, key: string)
    requires LastMethod(done, key).Some?
    ensures EndsDetached(done, key) <==> exists j: nat :: LastMethod(done, key).value < j && Detaches(done, j, key)
  {
    var last := |done| - 1;
    var rest := done[..last];
    if !Attaches(done, last, key) {
      if Detaches(done, last, key) {
        assert LastMethod(done, key).value < last;
      } else {
        EndsDetachedIff(rest, key);
        forall j: nat ensures Detaches(done, j, key) <==> Detaches(rest, j, key) {}
      }
    } else {
      forall j: nat | last < j ensures !Detaches(done, j, key) {}
    }
  }

  /**
   A payment method row exists iff an attaching or updating event of it was applied; customer
   and kind are those of the first, the card that of the last, and it is soft-deleted iff a
   detach was applied after that.
   */
  lemma MethodSemantics(c: Catalog, st: State, ops: seq<Op>, key: string)
    requires Initial(st)
    ensures
      var st' := Run(c, st, ops);
      var at, first := Find(st'.methods, key), FirstMethod(st'.done, key);
      var last := LastMethod(st'.done, key);
      && (at.Some? <==> first.Some?) && (at.Some? <==> last.Some?)
      && (at.Some? ==>
            var row, e := st'.methods[at.value], st'.done[first.value].1.instrument;
            && OwnedBy(st'.customers, row.owner.owner, e.customer) && row.owner.kind == e.kind
            && row.fields.card == st'.done[last.value].1.instrument.card
            && (row.fields.deletedAt.Some? <==> exists j: nat :: last.value < j && Detaches(st'.done, j, key)))
  {
    assert Inv(c, st);
    RunKeeps(c, st, ops);
    var st' := Run(c, st, ops);
    assert MethodOk(st'.methods, MethodUpserts(st'.customers, st'.done), st'.done, key);
    MethodEnds(st'.customers, st'.done, key);
    var first := FirstMethod(st'.done, key);
    if first.Some? {
      DoneIsOwned(c, st', first.value);
      EndsDetachedIff(st'.done, key);
    }
  }

  // ---------------------------------------------------------------- invoices

  /** Event `i` is about invoice `id`. */
  predicate Bills(done: seq<(string, Event)>, i: nat, id: string) {
    i < |done| && done[i].1.InvoiceChanged? && done[i].1.invoice.id == id
  }

  /** Where the first and the last processed events of an invoice are. */
  function FirstInvoice(done: seq<(string, Event)>, key: string): (r: Option<nat>)
    ensures r.Some? ==> Bills(done, r.value, key) && forall j: nat :: j < r.value ==> !Bills(done, j, key)
    ensures r.None? ==> forall j: nat :: !Bills(done, j, key)
  {
    if done == [] then None
    else
      var last := |done| - 1;
      var before := FirstInvoice(done[..last], key);
      assert forall j: nat :: j < last ==> (Bills(done, j, key) <==> Bills(done[..last], j, key));
      if before.Some? then before
      else if Bills(done, last, key) then Some(last)
      else None
  }

  function LastInvoice(done: seq<(string, Event)>, key: string): (r: Option<nat>)
    ensures r.Some? ==> Bills(done, r.value, key) && forall j: nat :: r.value < j ==> !Bills(done, j, key)
    ensures r.None? ==> forall j: nat :: !Bills(done, j, key)
  {
    if done == [] then None
    else
      var last := |done| - 1;
      assert forall j: nat :: j < last ==> (Bills(done, j, key) <==> Bills(done[..last], j, key));
      if Bills(done, last, key) then Some(last) else LastInvoice(done[..last], key)
  }

  lemma {:induction false} InvoiceEnds(customers: seq<Customer>, done: seq<(string, Event)>, key: string)
    ensures
      var log := InvoiceUpserts(customers, done);
      var first, last := FirstInvoice(done, key), LastInvoice(done, key);
      && (FirstOf(log, key).Some? <==> first.Some?)
      && (LastOf(log, key).Some? <==> last.Some?)
      && (first.Some? ==>
            FirstOf(log, key).value == LinkedRow(customers, done[..first.value], done[first.value].1.invoice))
      && (last.Some? ==> LastOf(log, key).value.fields == done[last.value].1.invoice.fields)
  {
    if done != [] {
      var rest := done[..|done| - 1];
      var e := done[|done| - 1].1;
      InvoiceEnds(customers, rest, key);
      var first := FirstInvoice(rest, key);
      if first.Some? { assert rest[..first.value] == done[..first.value]; }
      if e.InvoiceChanged? {
        var log := InvoiceUpserts(customers, rest);
        FirstAppend(log, LinkedRow(customers, rest, e.invoice), key);
        assert (log + [LinkedRow(customers, rest, e.invoice)])[..|log|] == log;
      }
    }
  }

  lemma {:induction false} IdsAreApplied(done: seq<(string, Event)>, id: string)
    ensures id in SubscriptionIds(done) <==> exists i: nat :: Subscribes(done, i, id)
  {
    if done != [] {
      var last := |done| - 1;
      IdsAreApplied(done[..last], id);
      if exists i: nat :: Subscribes(done[..last], i, id) {
        var i: nat :| Subscribes(done[..last], i, id);
        assert Subscribes(done, i, id);
      }
      if exists i: nat :: Subscribes(done, i, id) {
        var i: nat :| Subscribes(done, i, id);
        assert i < last ==> Subscribes(done[..last], i, id);
      }
      assert done[last].1.SubscriptionChanged? ==> Subscribes(done, last, done[last].1.subscription.id);
    }
  }

  lemma {:induction false} IdsGrow(done: seq<(string, Event)>, p: nat)
    requires p <= |done|
    ensures SubscriptionIds(done[..p]) <= SubscriptionIds(done)
  {
    if p < |done| {
      var rest := done[..|done| - 1];
      IdsGrow(rest, p);
      assert rest[..p] == done[..p];
    } else {
      assert done[..p] == done;
    }
  }

  /**
   After any run an invoice row exists iff an event of it was applied. Tenant, customer and
   issue date are those of the first, the other columns those of the last. It is linked iff a
   subscription event with the id that the first one named was applied before it, and then to
   the row of that subscription.
   */
  lemma InvoiceSemantics(c: Catalog, st: State, ops: seq<Op>, key: string)
    requires Initial(st)
    ensures
      var st' := Run(c, st, ops);
      var at, first := Find(st'.invoices, key), FirstInvoice(st'.done, key);
      var last := LastInvoice(st'.done, key);
      && (at.Some? <==> first.Some?) && (at.Some? <==> last.Some?)
      && (at.Some? ==>
            var e, row := st'.done[first.value].1.invoice, st'.invoices[at.value];
            && OwnedBy(st'.customers, row.owner.owner, e.customer)
            && row.owner.issuedAt == e.issuedAt
            && row.fields == st'.done[last.value].1.invoice.fields
            && (row.owner.subscription.Some? <==>
                  e.subscription.Some?
                  && exists i: nat :: i < first.value && Subscribes(st'.done, i, e.subscription.value))
            && (row.owner.subscription.Some? ==>
                  && row.owner.subscription.value < |st'.subscriptions|
                  && st'.subscriptions[row.owner.subscription.value].key == e.subscription.value))
  {
    assert Inv(c, st);
    RunKeeps(c, st, ops);
    var st' := Run(c, st, ops);
    assert ReflectsKey(st'.invoices, InvoiceUpserts(st'.customers, st'.done), key);
    InvoiceEnds(st'.customers, st'.done, key);
    var first := FirstInvoice(st'.done, key);
    if first.Some? {
      LinkMeans(st'.subscriptions, st'.done, first.value);
      DoneIsOwned(c, st', first.value);
    }
  }

  /** What the link of an invoice event means, in terms of the events applied before it. */
  lemma LinkMeans(subscriptions: Subscriptions, done: seq<(string, Event)>, p: nat)
    requires KeysAre(subscriptions, SubscriptionIds(done)) && p < |done| && done[p].1.InvoiceChanged?
    ensures
      var named := done[p].1.invoice.subscription;
      var link := Link(done[..p], named);
      && (link.Some? <==> named.Some? && exists i: nat :: i < p && Subscribes(done, i, named.value))
      && (link.Some? ==> link.value < |subscriptions| && subscriptions[link.value].key == named.value)
  {
    var named := done[p].1.invoice.subscription;
    if named.Some? {
      IdsAreApplied(done[..p], named.value);
      IdsGrow(done, p);
      forall i: nat ensures Subscribes(done[..p], i, named.value) <==> i < p && Subscribes(done, i, named.value) {}
    }
  }
}
