/** `getEntitlements` split at its awaits: read cache, subscription and plan features, write the cache. */
module EntitlementReaders {
  import opened Wrappers
  import opened Billing
  import BillingTables
  import opened EntitlementsService

  datatype Phase =
    | Idle
    | Asking(tenant: Tenant)
    | Missed(tenant: Tenant)
    | Chosen(tenant: Tenant, plan: string)
    | Fetched(tenant: Tenant, value: Entitlements)
    | Answered(tenant: Tenant, value: Entitlements, at: int)

  /** The free tier and the TTL of `catalog` are fixed when the service is made. */
  datatype World = World(
    now: int, catalog: Catalog, subscriptions: Subscriptions,
    cache: map<Tenant, CacheEntry>, lookups: map<nat, Phase>)

  /** Lookups in flight; subscriptions and features change, entries are busted and corrupted, at any step. */
  datatype Step =
    | Ask(id: nat, tenant: Tenant)
    | ReadCache(id: nat)
    | ReadSubscription(id: nat)
    | ReadFeatures(id: nat)
    | WriteCache(id: nat)
    | Subscribe(subscriptions: Subscriptions)
    | EditFeatures(features: map<string, seq<(string, Feature)>>)
    | Bust(tenant: Tenant)
    | Corrupt(tenant: Tenant, expiresAt: int)
    | Tick(ms: nat)

  function PhaseOf(w: World, id: nat): Phase {
    if id in w.lookups then w.lookups[id] else Idle
  }

  function Put(w: World, id: nat, phase: Phase): World {
    w.(lookups := w.lookups[id := phase])
  }

  function Lifetime(w: World): int {
    w.catalog.cacheTtl * 1000
  }

  /** The plan whose features a tenant gets; none for the free tier. */
  function PlanOf(w: World, tenant: Tenant): Option<string> {
    var at := FindActive(w.subscriptions, tenant);
    if at.None? || w.subscriptions[at.value].fields.plan in {None, Some("")} then None
    else w.subscriptions[at.value].fields.plan
  }

  /** The map of a plan, or of the free tier, as it is now. */
  function MapOf(w: World, plan: Option<string>): Entitlements {
    if plan.None? then w.catalog.freeTier else FeatureMap(FeaturesOf(w.catalog, plan.value))
  }

  /** The map that `resolveFromDb` would give, were it one step. */
  function Truth(w: World, tenant: Tenant): Entitlements {
    Resolve(w.catalog, w.subscriptions, tenant)
  }

  /** A step a lookup is not ready for does nothing. */
  function Next(w: World, step: Step): World {
    match step
    case Ask(id, tenant) => if PhaseOf(w, id).Idle? then Put(w, id, Asking(tenant)) else w
    case ReadCache(id) =>
      var p := PhaseOf(w, id);
      if !p.Asking? then w
      else
        var hit := CacheRead(w.cache, w.now, p.tenant);
        Put(w, id, if hit.Some? then Answered(p.tenant, hit.value, w.now) else Missed(p.tenant))
    case ReadSubscription(id) =>
      var p := PhaseOf(w, id);
      if !p.Missed? then w
      else
        var plan := PlanOf(w, p.tenant);
        Put(w, id, if plan.Some? then Chosen(p.tenant, plan.value) else Fetched(p.tenant, w.catalog.freeTier))
    case ReadFeatures(id) =>
      var p := PhaseOf(w, id);
      if !p.Chosen? then w
      else Put(w, id, Fetched(p.tenant, FeatureMap(FeaturesOf(w.catalog, p.plan))))
    case WriteCache(id) =>
      var p := PhaseOf(w, id);
      if !p.Fetched? then w
      else
        Put(w, id, Answered(p.tenant, p.value, w.now)).(
        cache := w.cache[p.tenant := CacheEntry(Json(p.value), w.now + Lifetime(w))])
    case Subscribe(subscriptions) => w.(subscriptions := subscriptions)
    case EditFeatures(features) => w.(catalog := w.catalog.(features := features))
    case Bust(tenant) => w.(cache := w.cache - {tenant})
    case Corrupt(tenant, at) => w.(cache := w.cache[tenant := CacheEntry(Garbled, at)])
    case Tick(ms) => w.(now := w.now + ms)
  }

  /** The world after the first `n` steps. */
  function After(w: World, steps: seq<Step>, n: nat): World
    requires n <= |steps|
  {
    if n == 0 then w else Next(After(w, steps, n - 1), steps[n - 1])
  }

  ghost predicate Initial(w: World) {
    w.cache == map[] && w.lookups == map[]
  }

  lemma {:induction false} ClockAdvances(w: World, steps: seq<Step>, m: nat, n: nat)
    requires m <= n <= |steps|
    ensures After(w, steps, m).now <= After(w, steps, n).now
    ensures Lifetime(After(w, steps, m)) == Lifetime(After(w, steps, n))
    ensures After(w, steps, m).catalog.freeTier == After(w, steps, n).catalog.freeTier
  {
    if m < n {
      ClockAdvances(w, steps, m, n - 1);
    }
  }

  // ---------------------------------------------------------------- the two reads of a fill

  /**
   Lookup `id` read the subscription of `tenant` at step `k` and the features of the plan it
   found at step `r`, and so put `value` together; with no plan the one read is all there is.
   */
  ghost predicate ReadBy(w: World, steps: seq<Step>, k: nat, r: nat, id: nat, tenant: Tenant, value: Entitlements) {
    && k <= r < |steps| && steps[k] == ReadSubscription(id)
    && PhaseOf(After(w, steps, k), id) == Missed(tenant)
    && var plan := PlanOf(After(w, steps, k), tenant);
       && value == MapOf(After(w, steps, r), plan)
       && (if plan.None? then r == k
           else k < r && steps[r] == ReadFeatures(id) && PhaseOf(After(w, steps, r), id) == Chosen(tenant, plan.value))
  }

  /** What a lookup has put together is its plan's map at the second read; and the truth is the map of the plan then. */
  lemma TruthIsPlanMap(w: World, tenant: Tenant)
    ensures Truth(w, tenant) == MapOf(w, PlanOf(w, tenant))
  {
  }

  /**
   When a fill is the truth at some instant between its reads: exactly when the plan that the
   tenant has at that instant has, at that instant, the map that the plan first read has at
   the second read. At the first read this says that the plan's features have not changed in
   between; at the second, that the tenant is still on that plan, or on one with the same map.
   */
  lemma FillTrueIff(
    w: World, steps: seq<Step>, k: nat, r: nat, id: nat, tenant: Tenant, value: Entitlements, j: nat)
    requires ReadBy(w, steps, k, r, id, tenant, value) && k <= j <= r
    ensures
      var plan := PlanOf(After(w, steps, k), tenant);
      && (Truth(After(w, steps, j), tenant) == value <==>
            MapOf(After(w, steps, j), PlanOf(After(w, steps, j), tenant)) == MapOf(After(w, steps, r), plan))
      && (Truth(After(w, steps, k), tenant) == value <==>
            MapOf(After(w, steps, k), plan) == MapOf(After(w, steps, r), plan))
  {
    TruthIsPlanMap(After(w, steps, j), tenant);
    TruthIsPlanMap(After(w, steps, k), tenant);
  }

  /** No features were edited, or no subscription changed, in the steps from `k` up to `r`. */
  ghost predicate OneTableStill(steps: seq<Step>, k: nat, r: nat)
    requires k <= r <= |steps|
  {
    (forall j :: k <= j < r ==> !steps[j].EditFeatures?) || (forall j :: k <= j < r ==> !steps[j].Subscribe?)
  }

  lemma {:induction false} TablesStill(w: World, steps: seq<Step>, k: nat, r: nat)
    requires k <= r <= |steps|
    ensures (forall j :: k <= j < r ==> !steps[j].EditFeatures?) ==>
              After(w, steps, k).catalog == After(w, steps, r).catalog
    ensures (forall j :: k <= j < r ==> !steps[j].Subscribe?) ==>
              After(w, steps, k).subscriptions == After(w, steps, r).subscriptions
  {
    if k < r {
      TablesStill(w, steps, k, r - 1);
      StepTouches(After(w, steps, r - 1), steps[r - 1]);
    }
  }

  lemma StepTouches(w: World, step: Step)
    ensures !step.EditFeatures? ==> Next(w, step).catalog == w.catalog
    ensures !step.Subscribe? ==> Next(w, step).subscriptions == w.subscriptions
  {
  }

  /** So a map that was never true needs both tables to change between the two reads. */
  lemma StillFillIsTrue(w: World, steps: seq<Step>, k: nat, r: nat, id: nat, tenant: Tenant, value: Entitlements)
    requires ReadBy(w, steps, k, r, id, tenant, value) && OneTableStill(steps, k, r)
    ensures value in {Truth(After(w, steps, k), tenant), Truth(After(w, steps, r), tenant)}
  {
    TablesStill(w, steps, k, r);
    FillTrueIff(w, steps, k, r, id, tenant, value, r);
  }

  // ---------------------------------------------------------------- where an answer came from

  /** A fill: both reads, and then the write to the cache by the same lookup at step `m`. */
  ghost predicate Filled(
    w: World, steps: seq<Step>, k: nat, r: nat, m: nat, id: nat, tenant: Tenant, value: Entitlements) {
    && r < m < |steps| && steps[m] == WriteCache(id)
    && ReadBy(w, steps, k, r, id, tenant, value)
    && PhaseOf(After(w, steps, m), id) == Fetched(tenant, value)
  }

  /** An answer given at time `at` is what some fill read, and that fill's entry had not expired or was its own. */
  ghost predicate Justified(
    w: World, steps: seq<Step>, k: nat, r: nat, m: nat, id: nat, tenant: Tenant, value: Entitlements, at: int) {
    && Filled(w, steps, k, r, m, id, tenant, value)
    && var read, written := After(w, steps, k).now, After(w, steps, m).now;
       read <= written <= at && (at == written || at < written + Lifetime(w))
  }

  ghost predicate ReadBefore(w: World, steps: seq<Step>, n: nat, id: nat, tenant: Tenant, value: Entitlements) {
    exists k: nat, r: nat :: r < n && ReadBy(w, steps, k, r, id, tenant, value)
  }

  ghost predicate JustifiedBefore(w: World, steps: seq<Step>, n: nat, tenant: Tenant, value: Entitlements, at: int) {
    exists k: nat, r: nat, m: nat, f: nat :: m < n && Justified(w, steps, k, r, m, f, tenant, value, at)
  }

  ghost predicate PhaseOk(w: World, steps: seq<Step>, n: nat, id: nat)
    requires n <= |steps|
  {
    match PhaseOf(After(w, steps, n), id)
    case Chosen(tenant, plan) =>
      exists k: nat :: k < n && steps[k] == ReadSubscription(id)
                       && PhaseOf(After(w, steps, k), id) == Missed(tenant)
                       && PlanOf(After(w, steps, k), tenant) == Some(plan)
    case Fetched(tenant, value) => ReadBefore(w, steps, n, id, tenant, value)
    case Answered(tenant, value, at) => JustifiedBefore(w, steps, n, tenant, value, at)
    case _ => true
  }

  /** Cached for `tenant` after `n` steps: what a fill wrote at a step from `since` on, with its expiry. */
  ghost predicate CachedSince(w: World, steps: seq<Step>, since: nat, n: nat, tenant: Tenant)
    requires n <= |steps|
  {
    var s := After(w, steps, n);
    tenant in s.cache && s.cache[tenant].cached.Json? ==>
      exists k: nat, r: nat, m: nat, f: nat ::
        since <= m < n && Filled(w, steps, k, r, m, f, tenant, s.cache[tenant].cached.value)
        && s.cache[tenant].expiresAt == After(w, steps, m).now + Lifetime(w)
  }

  lemma WriteCaches(w: World, steps: seq<Step>, since: nat, n: nat, id: nat, tenant: Tenant)
    requires since <= n < |steps| && steps[n] == WriteCache(id)
    requires PhaseOf(After(w, steps, n), id).Fetched? && PhaseOf(After(w, steps, n), id).tenant == tenant
    requires PhaseOk(w, steps, n, id)
    ensures CachedSince(w, steps, since, n + 1, tenant)
  {
    var value := PhaseOf(After(w, steps, n), id).value;
    var k: nat, r: nat :| r < n && ReadBy(w, steps, k, r, id, tenant, value);
    ClockAdvances(w, steps, 0, n);
    assert Filled(w, steps, k, r, n, id, tenant, value);
  }

  lemma CacheFrame(w: World, steps: seq<Step>, since: nat, n: nat, tenant: Tenant)
    requires since <= n < |steps| && CachedSince(w, steps, since, n, tenant)
    requires
      var s, s' := After(w, steps, n), After(w, steps, n + 1);
      tenant in s'.cache && s'.cache[tenant].cached.Json? ==> tenant in s.cache && s.cache[tenant] == s'.cache[tenant]
    ensures CachedSince(w, steps, since, n + 1, tenant)
  {
    var s' := After(w, steps, n + 1);
    if tenant in s'.cache && s'.cache[tenant].cached.Json? {
      var k: nat, r: nat, m: nat, f: nat :|
        since <= m < n && Filled(w, steps, k, r, m, f, tenant, s'.cache[tenant].cached.value)
        && s'.cache[tenant].expiresAt == After(w, steps, m).now + Lifetime(w);
    }
  }

  lemma CachedKeeps(w: World, steps: seq<Step>, since: nat, n: nat, tenant: Tenant)
    requires since <= n < |steps| && CachedSince(w, steps, since, n, tenant)
    requires forall id :: PhaseOk(w, steps, n, id)
    ensures CachedSince(w, steps, since, n + 1, tenant)
  {
    var s := After(w, steps, n);
    if steps[n].WriteCache? && PhaseOf(s, steps[n].id).Fetched? && PhaseOf(s, steps[n].id).tenant == tenant {
      assert PhaseOk(w, steps, n, steps[n].id);
      WriteCaches(w, steps, since, n, steps[n].id, tenant);
    } else {
      CacheFrame(w, steps, since, n, tenant);
    }
  }

  /** A read of the cache answers with what a fill wrote since. */
  lemma HitJustified(w: World, steps: seq<Step>, since: nat, n: nat, tenant: Tenant)
    returns (k: nat, r: nat, m: nat, f: nat)
    requires n <= |steps| && CachedSince(w, steps, since, n, tenant)
    requires var s := After(w, steps, n); CacheRead(s.cache, s.now, tenant).Some?
    ensures
      var s := After(w, steps, n);
      since <= m < n && Justified(w, steps, k, r, m, f, tenant, CacheRead(s.cache, s.now, tenant).value, s.now)
  {
    var s := After(w, steps, n);
    k, r, m, f :|
      since <= m < n && Filled(w, steps, k, r, m, f, tenant, s.cache[tenant].cached.value)
      && s.cache[tenant].expiresAt == After(w, steps, m).now + Lifetime(w);
    ClockAdvances(w, steps, k, m);
    ClockAdvances(w, steps, m, n);
  }

  lemma OwnJustified(w: World, steps: seq<Step>, n: nat, id: nat, tenant: Tenant, value: Entitlements)
    returns (k: nat, r: nat)
    requires n < |steps| && steps[n] == WriteCache(id) && PhaseOf(After(w, steps, n), id) == Fetched(tenant, value)
    requires PhaseOk(w, steps, n, id)
    ensures Justified(w, steps, k, r, n, id, tenant, value, After(w, steps, n).now)
  {
    k, r :| r < n && ReadBy(w, steps, k, r, id, tenant, value);
    ClockAdvances(w, steps, k, n);
  }

  lemma FeaturesRead(w: World, steps: seq<Step>, n: nat, id: nat)
    requires n < |steps| && steps[n] == ReadFeatures(id) && PhaseOf(After(w, steps, n), id).Chosen?
    requires PhaseOk(w, steps, n, id)
    ensures PhaseOk(w, steps, n + 1, id)
  {
    var s := After(w, steps, n);
    var p := PhaseOf(s, id);
    var k: nat :| k < n && steps[k] == ReadSubscription(id)
      && PhaseOf(After(w, steps, k), id) == Missed(p.tenant)
      && PlanOf(After(w, steps, k), p.tenant) == Some(p.plan);
    assert ReadBy(w, steps, k, n, id, p.tenant, MapOf(s, Some(p.plan)));
  }

  lemma SubscriptionRead(w: World, steps: seq<Step>, n: nat, id: nat)
    requires n < |steps| && steps[n] == ReadSubscription(id) && PhaseOf(After(w, steps, n), id).Missed?
    ensures PhaseOk(w, steps, n + 1, id)
  {
    var s := After(w, steps, n);
    var tenant := PhaseOf(s, id).tenant;
    if PlanOf(s, tenant).None? {
      assert ReadBy(w, steps, n, n, id, tenant, s.catalog.freeTier);
    }
  }

  lemma PhaseKeeps(w: World, steps: seq<Step>, n: nat, id: nat)
    requires n < |steps| && PhaseOk(w, steps, n, id)
    requires forall tenant :: CachedSince(w, steps, 0, n, tenant)
    ensures PhaseOk(w, steps, n + 1, id)
  {
    var s := After(w, steps, n);
    var p := PhaseOf(s, id);
    if steps[n] == ReadCache(id) && p.Asking? {
      if CacheRead(s.cache, s.now, p.tenant).Some? {
        var k, r, m, f := HitJustified(w, steps, 0, n, p.tenant);
      }
    } else if steps[n] == ReadSubscription(id) && p.Missed? {
      SubscriptionRead(w, steps, n, id);
    } else if steps[n] == ReadFeatures(id) && p.Chosen? {
      FeaturesRead(w, steps, n, id);
    } else if steps[n] == WriteCache(id) && p.Fetched? {
      var k, r := OwnJustified(w, steps, n, id, p.tenant, p.value);
    } else {
      PhaseMoves(s, steps[n], id);
    }
  }

  /** Only its own four operations move a lookup that has been asked. */
  lemma PhaseMoves(w: World, step: Step, id: nat)
    ensures
      var p, p' := PhaseOf(w, id), PhaseOf(Next(w, step), id);
      || p' == p
      || (p.Idle? && p'.Asking?)
      || (step == ReadCache(id) && p.Asking? && (p'.Missed? || p'.Answered?))
      || (step == ReadSubscription(id) && p.Missed? && (p'.Chosen? || p'.Fetched?))
      || (step == ReadFeatures(id) && p.Chosen? && p'.Fetched?)
      || (step == WriteCache(id) && p.Fetched? && p'.Answered?)
  {
  }

  lemma {:induction false} RunKeeps(w: World, steps: seq<Step>, n: nat)
    requires Initial(w) && n <= |steps|
    ensures forall id :: PhaseOk(w, steps, n, id)
    ensures forall tenant :: CachedSince(w, steps, 0, n, tenant)
  {
    if n > 0 {
      RunKeeps(w, steps, n - 1);
      forall id ensures PhaseOk(w, steps, n, id) { PhaseKeeps(w, steps, n - 1, id); }
      forall tenant ensures CachedSince(w, steps, 0, n, tenant) { CachedKeeps(w, steps, 0, n - 1, tenant); }
    }
  }

  /** A fill that was the truth at one of its two reads; see `FillTrueIff` for when that is. */
  ghost predicate TrueFill(w: World, steps: seq<Step>, k: nat, r: nat, tenant: Tenant, value: Entitlements)
    requires k <= r <= |steps|
  {
    value in {Truth(After(w, steps, k), tenant), Truth(After(w, steps, r), tenant)}
  }

  /**
   Every map a lookup returns was put together by the two reads of some fill, and is older
   than the answer by less than the TTL plus that fill's own duration; it was the tenant's
   true map at the first of them if and only if the features of the plan read did not change
   in between, and at one of the two whenever only one of the two tables changed.
   */
  lemma AnswersWereRead(w: World, steps: seq<Step>, id: nat) returns (k: nat, r: nat, m: nat, f: nat)
    requires Initial(w) && PhaseOf(After(w, steps, |steps|), id).Answered?
    ensures
      var p := PhaseOf(After(w, steps, |steps|), id);
      && Justified(w, steps, k, r, m, f, p.tenant, p.value, p.at)
      && (Truth(After(w, steps, k), p.tenant) == p.value <==>
            var plan := PlanOf(After(w, steps, k), p.tenant);
            MapOf(After(w, steps, k), plan) == MapOf(After(w, steps, r), plan))
      && (OneTableStill(steps, k, r) ==> TrueFill(w, steps, k, r, p.tenant, p.value))
  {
    RunKeeps(w, steps, |steps|);
    assert PhaseOk(w, steps, |steps|, id);
    var p := PhaseOf(After(w, steps, |steps|), id);
    k, r, m, f :| m < |steps| && Justified(w, steps, k, r, m, f, p.tenant, p.value, p.at);
    FillTrueIff(w, steps, k, r, f, p.tenant, p.value, k);
    if OneTableStill(steps, k, r) {
      StillFillIsTrue(w, steps, k, r, f, p.tenant, p.value);
    }
  }

  // ---------------------------------------------------------------- what a bust ends

  /** The lookup has read its subscription for `tenant` and not written yet. */
  predicate InFlight(p: Phase, tenant: Tenant) {
    (p.Chosen? || p.Fetched?) && p.tenant == tenant
  }

  /** How far a lookup is; it never goes back. */
  function Rank(p: Phase): nat {
    match p
    case Idle => 0
    case Asking(_) => 1
    case Missed(_) => 2
    case Chosen(_, _) => 3
    case Fetched(_, _) => 4
    case Answered(_, _, _) => 5
  }

  lemma {:induction false} RankGrows(w: World, steps: seq<Step>, m: nat, n: nat, id: nat)
    requires m <= n <= |steps|
    ensures
      var p, p' := PhaseOf(After(w, steps, m), id), PhaseOf(After(w, steps, n), id);
      Rank(p) <= Rank(p') && (!p.Idle? ==> p'.tenant == p.tenant)
  {
    if m < n {
      RankGrows(w, steps, m, n - 1, id);
      StepRank(After(w, steps, n - 1), steps[n - 1], id);
    }
  }

  lemma StepRank(w: World, step: Step, id: nat)
    ensures
      var p, p' := PhaseOf(w, id), PhaseOf(Next(w, step), id);
      Rank(p) <= Rank(p') && (!p.Idle? ==> p'.tenant == p.tenant)
  {
    PhaseMoves(w, step, id);
  }

  lemma {:induction false} CachedAfterBust(w: World, steps: seq<Step>, b: nat, n: nat, tenant: Tenant)
    requires Initial(w) && b < n <= |steps| && steps[b] == Step.Bust(tenant)
    ensures CachedSince(w, steps, b + 1, n, tenant)
  {
    if n > b + 1 {
      CachedAfterBust(w, steps, b, n - 1, tenant);
      RunKeeps(w, steps, n - 1);
      CachedKeeps(w, steps, b + 1, n - 1, tenant);
    }
  }

  /**
   After a bust, an answer for the tenant comes from a fill that was written after the bust;
   and that fill had read before it if and only if its lookup was in flight when the bust ran.
   */
  lemma AnswersAfterBust(w: World, steps: seq<Step>, b: nat, n: nat, id: nat, tenant: Tenant)
    returns (k: nat, r: nat, m: nat, f: nat)
    requires Initial(w) && b < n < |steps| && steps[b] == Step.Bust(tenant)
    requires !PhaseOf(After(w, steps, n), id).Answered?
    requires PhaseOf(After(w, steps, n + 1), id).Answered? && PhaseOf(After(w, steps, n + 1), id).tenant == tenant
    ensures
      var p := PhaseOf(After(w, steps, n + 1), id);
      && Justified(w, steps, k, r, m, f, tenant, p.value, p.at)
      && b < m <= n
      && (k < b <==> InFlight(PhaseOf(After(w, steps, b), f), tenant))
  {
    var s := After(w, steps, n);
    var p := PhaseOf(s, id);
    RunKeeps(w, steps, n);
    PhaseMoves(s, steps[n], id);
    if steps[n] == ReadCache(id) {
      CachedAfterBust(w, steps, b, n, tenant);
      k, r, m, f := HitJustified(w, steps, b + 1, n, tenant);
    } else {
      assert PhaseOk(w, steps, n, id);
      m, f := n, id;
      k, r := OwnJustified(w, steps, n, id, tenant, p.value);
    }
    ReadBeforeIff(w, steps, b, k, r, m, f, tenant, PhaseOf(After(w, steps, n + 1), id).value);
  }

  lemma ReadBeforeIff(
    w: World, steps: seq<Step>, b: nat, k: nat, r: nat, m: nat, f: nat, tenant: Tenant, value: Entitlements)
    requires Filled(w, steps, k, r, m, f, tenant, value) && b < m && steps[b] == Step.Bust(tenant)
    ensures k < b <==> InFlight(PhaseOf(After(w, steps, b), f), tenant)
  {
    if k < b {
      PhaseMoves(After(w, steps, k), steps[k], f);
      RankGrows(w, steps, k + 1, b, f);
      RankGrows(w, steps, b, m, f);
    } else {
      RankGrows(w, steps, b, k, f);
    }
  }

  ghost predicate NoneInFlight(w: World, tenant: Tenant) {
    forall f: nat :: !InFlight(PhaseOf(w, f), tenant)
  }

  /** With no lookup of the tenant in flight, a bust ends the old map: every later answer was read after it. */
  lemma BustHolds(w: World, steps: seq<Step>, b: nat, n: nat, id: nat, tenant: Tenant)
    returns (k: nat, r: nat, m: nat, f: nat)
    requires Initial(w) && b < n < |steps| && steps[b] == Step.Bust(tenant)
    requires NoneInFlight(After(w, steps, b), tenant)
    requires !PhaseOf(After(w, steps, n), id).Answered?
    requires PhaseOf(After(w, steps, n + 1), id).Answered? && PhaseOf(After(w, steps, n + 1), id).tenant == tenant
    ensures
      var p := PhaseOf(After(w, steps, n + 1), id);
      Justified(w, steps, k, r, m, f, tenant, p.value, p.at) && b < k
  {
    k, r, m, f := AnswersAfterBust(w, steps, b, n, id, tenant);
    ReadAfterBust(w, steps, b, k, f, tenant);
  }

  lemma ReadAfterBust(w: World, steps: seq<Step>, b: nat, k: nat, f: nat, tenant: Tenant)
    requires b < |steps| && k < |steps| && NoneInFlight(After(w, steps, b), tenant)
    requires steps[b] == Step.Bust(tenant) && steps[k] == ReadSubscription(f)
    requires k < b <==> InFlight(PhaseOf(After(w, steps, b), f), tenant)
    ensures b < k
  {
    assert !InFlight(PhaseOf(After(w, steps, b), f), tenant);
  }

  /**
   With one in flight, it can be lost: that lookup finishes, and a lookup asked after the
   bust is answered from what the first had read before it.
   */
  lemma BustLost(w: World, f: nat, tenant: Tenant, late: nat)
    requires InFlight(PhaseOf(w, f), tenant) && PhaseOf(w, late).Idle? && Lifetime(w) > 0
    ensures
      var steps := [Step.Bust(tenant), ReadFeatures(f), WriteCache(f), Step.Ask(late, tenant), ReadCache(late)];
      var p := PhaseOf(w, f);
      PhaseOf(After(w, steps, 5), late)
      == Answered(tenant, if p.Fetched? then p.value else FeatureMap(FeaturesOf(w.catalog, p.plan)), w.now)
  {
    var steps := [Step.Bust(tenant), ReadFeatures(f), WriteCache(f), Step.Ask(late, tenant), ReadCache(late)];
    var p := PhaseOf(w, f);
    var value := if p.Fetched? then p.value else FeatureMap(FeaturesOf(w.catalog, p.plan));
    var w1 := Next(w, Step.Bust(tenant));
    AfterStep(w, steps, 0, w1);
    var w2 := Next(w1, ReadFeatures(f));
    assert PhaseOf(w2, f) == Fetched(tenant, value) && PhaseOf(w2, late).Idle?;
    AfterStep(w, steps, 1, w2);
    var w3 := Next(w2, WriteCache(f));
    assert CacheRead(w3.cache, w3.now, tenant) == Some(value) && PhaseOf(w3, late).Idle?;
    AfterStep(w, steps, 2, w3);
    var w4 := Put(w3, late, Asking(tenant));
    AfterStep(w, steps, 3, w4);
    AfterStep(w, steps, 4, Put(w4, late, Answered(tenant, value, w.now)));
  }

  // ---------------------------------------------------------------- one lookup alone

  /** The world a billing state is seen as, with no lookup in flight. */
  function Seen(c: Catalog, st: State): World {
    World(st.now, c, st.subscriptions, st.cache, map[])
  }

  lemma AfterStep(w: World, steps: seq<Step>, n: nat, next: World)
    requires n < |steps| && Next(After(w, steps, n), steps[n]) == next
    ensures After(w, steps, n + 1) == next
  {
  }

  /** Left alone, the store operations of one lookup leave the cache and give the answer of the atomic one. */
  lemma SoloLookup(c: Catalog, st: State, id: nat, tenant: Tenant)
    ensures
      var steps := [Step.Ask(id, tenant), ReadCache(id), ReadSubscription(id), ReadFeatures(id), WriteCache(id)];
      var w := After(Seen(c, st), steps, 5);
      var (st', answer) := Lookup(c, st, tenant);
      w.cache == st'.cache && PhaseOf(w, id) == Answered(tenant, answer, st.now)
  {
    var steps := [Step.Ask(id, tenant), ReadCache(id), ReadSubscription(id), ReadFeatures(id), WriteCache(id)];
    var w := Seen(c, st);
    AfterStep(w, steps, 0, Put(w, id, Asking(tenant)));
    var hit := CacheRead(w.cache, w.now, tenant);
    if hit.Some? {
      var answered := Put(w, id, Answered(tenant, hit.value, w.now));
      AfterStep(w, steps, 1, answered);
      AfterStep(w, steps, 2, answered);
      AfterStep(w, steps, 3, answered);
      AfterStep(w, steps, 4, answered);
    } else {
      AfterStep(w, steps, 1, Put(w, id, Missed(tenant)));
      SoloFill(w, steps, id, tenant);
    }
  }

  lemma SoloFill(w: World, steps: seq<Step>, id: nat, tenant: Tenant)
    requires steps == [Step.Ask(id, tenant), ReadCache(id), ReadSubscription(id), ReadFeatures(id), WriteCache(id)]
    requires After(w, steps, 2) == Put(w, id, Missed(tenant))
    ensures
      var truth := Truth(w, tenant);
      After(w, steps, 5) == Put(w, id, Answered(tenant, truth, w.now)).(
                            cache := w.cache[tenant := CacheEntry(Json(truth), w.now + Lifetime(w))])
  {
    var plan := PlanOf(w, tenant);
    TruthIsPlanMap(w, tenant);
    var missed, fetched := Put(w, id, Missed(tenant)), Put(w, id, Fetched(tenant, Truth(w, tenant)));
    if plan.Some? {
      var chosen := Put(w, id, Chosen(tenant, plan.value));
      assert Next(missed, ReadSubscription(id)) == chosen;
      AfterStep(w, steps, 2, chosen);
      assert Next(chosen, ReadFeatures(id)) == fetched;
    } else {
      assert Next(missed, ReadSubscription(id)) == fetched;
      AfterStep(w, steps, 2, fetched);
      assert Next(fetched, ReadFeatures(id)) == fetched;
    }
    AfterStep(w, steps, 3, fetched);
    WriteIs(w, id, tenant, Truth(w, tenant));
    AfterStep(w, steps, 4, Next(fetched, WriteCache(id)));
  }

  lemma WriteIs(w: World, id: nat, tenant: Tenant, value: Entitlements)
    ensures Next(Put(w, id, Fetched(tenant, value)), WriteCache(id))
         == Put(w, id, Answered(tenant, value, w.now)).(
            cache := w.cache[tenant := CacheEntry(Json(value), w.now + Lifetime(w))])
  {
  }

  // ---------------------------------------------------------------- a map that never was

  const FREE: Entitlements := map[]
  const ON: Entitlements := map["sso" := Flag(true)]
  const BEFORE: map<string, seq<(string, Feature)>> := map["a" := [], "b" := []]
  const EDITED: map<string, seq<(string, Feature)>> := map["a" := [("sso", Flag(true))], "b" := []]
  const START := World(0, Catalog(map[], {}, BEFORE, FREE, 300), OnPlan("a"), map[], map[])

  /** Tenant 1 on one active subscription to the plan. */
  function OnPlan(plan: string): Subscriptions {
    [BillingTables.Row("sub", Owner(1, 0), SubscriptionFields(Some(plan), Active, 0, 9, None, None, None, map[]))]
  }

  const TORN := [
    Step.Ask(0, 1), ReadCache(0), ReadSubscription(0), Subscribe(OnPlan("b")), EditFeatures(EDITED), ReadFeatures(0),
    WriteCache(0)]

  lemma OnPlanResolves(w: World, plan: string)
    requires w.subscriptions == OnPlan(plan) && plan != ""
    ensures PlanOf(w, 1) == Some(plan) && Truth(w, 1) == FeatureMap(FeaturesOf(w.catalog, plan))
  {
    var rows := OnPlan(plan);
    assert rows[..0] == [];
    assert FindActive(rows, 1) == Some(0);
  }

  /** On "a" before the edit, or on "b" at any time, the tenant has the empty map. */
  lemma NothingGranted(w: World)
    requires w.catalog.features in {BEFORE, EDITED} && w.catalog.freeTier == FREE
    requires
      || (w.subscriptions == OnPlan("a") && w.catalog.features == BEFORE)
      || w.subscriptions == OnPlan("b")
    ensures Truth(w, 1) == FREE
  {
    OnPlanResolves(w, if w.subscriptions == OnPlan("b") then "b" else "a");
    assert FeatureMap([]) == FREE;
  }

  lemma TornReads()
    ensures After(START, TORN, 1) == Put(START, 0, Asking(1))
    ensures After(START, TORN, 2) == Put(START, 0, Missed(1))
    ensures After(START, TORN, 3) == Put(START, 0, Chosen(1, "a"))
  {
    AfterStep(START, TORN, 0, Put(START, 0, Asking(1)));
    AfterStep(START, TORN, 1, Put(START, 0, Missed(1)));
    OnPlanResolves(Put(START, 0, Missed(1)), "a");
    AfterStep(START, TORN, 2, Put(START, 0, Chosen(1, "a")));
  }

  const MOVED := START.(subscriptions := OnPlan("b"), lookups := map[0 := Chosen(1, "a")])
  const CHANGED := MOVED.(catalog := MOVED.catalog.(features := EDITED))

  const TORN_FETCHED := Put(CHANGED, 0, Fetched(1, ON))
  const TORN_ANSWERED := Put(CHANGED, 0, Answered(1, ON, 0)).(cache := map[1 := CacheEntry(Json(ON), 300000)])

  lemma TornChanges()
    ensures After(START, TORN, 4) == MOVED && After(START, TORN, 5) == CHANGED
  {
    TornReads();
    AfterStep(START, TORN, 3, MOVED);
    AfterStep(START, TORN, 4, CHANGED);
  }

  lemma TornWrites()
    ensures After(START, TORN, 6) == TORN_FETCHED && After(START, TORN, 7) == TORN_ANSWERED
  {
    TornChanges();
    assert EDITED["a"][..0] == [] && FeatureMap(EDITED["a"]) == ON;
    AfterStep(START, TORN, 5, TORN_FETCHED);
    AfterStep(START, TORN, 6, TORN_ANSWERED);
  }

  /**
   The tenant moves off plan "a" between the two reads, and then "a" is given a feature: the
   answer grants it, though at no step of the run did the tenant's tables.
   */
  lemma TornAnswerWasNeverTrue(n: nat)
    requires n <= 7
    ensures PhaseOf(After(START, TORN, 7), 0) == Answered(1, ON, 0)
    ensures Truth(After(START, TORN, n), 1) == FREE
  {
    TornReads();
    TornChanges();
    TornWrites();
    assert n in {0, 1, 2, 3, 4, 5, 6, 7};
    NothingGranted(After(START, TORN, n));
  }
}
