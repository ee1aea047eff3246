/** Idempotency keys: get, tryLock, handler, set, unlock; any number of requests interleaved at each store operation. */
module Idempotency {
  import opened Wrappers

  type Key = string
  type Id = nat

  datatype Response = Response(statusCode: nat, headers: map<string, string>, body: string)

  datatype Entry = Entry(response: Response, expiresAt: int)

  /** A response that an execution of the handler stored. */
  datatype Stored = Stored(key: Key, owner: Id, response: Response, at: int)

  /** `seen` and `getAt`: how many responses had been stored, and the time, when this request read the store. */
  datatype Request =
    | Arrived(key: Key)
    | Missed(key: Key, seen: nat, getAt: int)
    | Handling(key: Key, seen: nat, getAt: int, deadline: int)
    | Saved(key: Key, seen: nat, getAt: int, deadline: int, response: Response)
    | Answered(key: Key, response: Response)
    | Replayed(key: Key, response: Response)
    | InProgress(key: Key)

  datatype State = State(
    now: int, cache: map<Key, Entry>, locks: map<Key, int>, requests: map<Id, Request>, log: seq<Stored>)

  datatype Event =
    | Arrive(id: Id, key: Key)
    | Get(id: Id)
    | TryLock(id: Id)
    | Set(id: Id, response: Response)
    | Unlock(id: Id)
    | Tick(ms: nat)

  // ---------------------------------------------------------------- the store

  function Lookup(cache: map<Key, Entry>, now: int, key: Key): Option<Response> {
    if key in cache && now < cache[key].expiresAt then Some(cache[key].response) else None
  }

  predicate Locked(locks: map<Key, int>, now: int, key: Key) { key in locks && now < locks[key] }

  // ---------------------------------------------------------------- steps

  predicate Holds(r: Request) { r.Handling? || r.Saved? }

  /** Handlers are assumed shorter than the TTL: no lock ends whose holder has not unlocked yet. */
  predicate TickAllowed(st: State, ms: nat) {
    forall id <- st.requests :: Holds(st.requests[id]) ==> st.now + ms < st.requests[id].deadline
  }

  function Put(st: State, id: Id, r: Request): State { st.(requests := st.requests[id := r]) }

  /** One store operation; an event that does not fit the request's position changes nothing. */
  function Next(ttl: nat, st: State, e: Event): State {
    match e
    case Arrive(id, key) => if id in st.requests then st else Put(st, id, Arrived(key))
    case Get(id) =>
      if id !in st.requests || !st.requests[id].Arrived? then st
      else
        var key := st.requests[id].key;
        var cached := Lookup(st.cache, st.now, key);
        if cached.Some? then Put(st, id, Replayed(key, cached.value))
        else Put(st, id, Missed(key, |st.log|, st.now))
    case TryLock(id) =>
      if id !in st.requests || !st.requests[id].Missed? then st
      else
        var r := st.requests[id];
        if Locked(st.locks, st.now, r.key) then Put(st, id, InProgress(r.key))
        else
          Put(st.(locks := st.locks[r.key := st.now + ttl]), id,
              Handling(r.key, r.seen, r.getAt, st.now + ttl))
    case Set(id, response) =>
      if id !in st.requests || !st.requests[id].Handling? then st
      else
        var r := st.requests[id];
        Put(st.(cache := st.cache[r.key := Entry(response, st.now + ttl)],
                log := st.log + [Stored(r.key, id, response, st.now)]),
            id, Saved(r.key, r.seen, r.getAt, r.deadline, response))
    case Unlock(id) =>
      if id !in st.requests || !st.requests[id].Saved? then st
      else
        var r := st.requests[id];
        Put(st.(locks := st.locks - {r.key}), id, Answered(r.key, r.response))
    case Tick(ms) => if TickAllowed(st, ms) then st.(now := st.now + ms) else st
  }

  function Run(ttl: nat, st: State, events: seq<Event>): State
    decreases |events|
  {
    if events == [] then st else Run(ttl, Next(ttl, st, events[0]), events[1..])
  }

  ghost predicate Initial(st: State) {
    st.cache == map[] && st.locks == map[] && st.requests == map[] && st.log == []
  }

  // ---------------------------------------------------------------- the invariant

  ghost predicate InLog(log: seq<Stored>, key: Key, response: Response) {
    exists s <- log :: s.key == key && s.response == response
  }

  /** Every response stored for `key` before position `upto` had expired by `time`. */
  ghost predicate ExpiredBy(ttl: nat, log: seq<Stored>, key: Key, upto: nat, time: int) {
    upto <= |log| && forall j :: 0 <= j < upto && log[j].key == key ==> log[j].at + ttl <= time
  }

  ghost predicate RequestOk(ttl: nat, st: State, r: Request) {
    && (Holds(r) ==> r.key in st.locks && st.locks[r.key] == r.deadline && st.now < r.deadline)
    && (r.Missed? || Holds(r) ==> ExpiredBy(ttl, st.log, r.key, r.seen, r.getAt))
    && (r.Saved? || r.Answered? || r.Replayed? ==> InLog(st.log, r.key, r.response))
  }

  ghost predicate CacheOk(ttl: nat, st: State) {
    && (forall key <- st.cache :: InLog(st.log, key, st.cache[key].response))
    && (forall j :: 0 <= j < |st.log| ==>
          && st.log[j].at <= st.now
          && st.log[j].key in st.cache
          && st.log[j].at + ttl <= st.cache[st.log[j].key].expiresAt)
  }

  ghost predicate Exclusive(requests: map<Id, Request>) {
    forall i <- requests, j <- requests ::
      i != j && Holds(requests[i]) && Holds(requests[j]) ==> requests[i].key != requests[j].key
  }

  predicate HasStored(r: Request) { r.Saved? || r.Answered? }

  ghost predicate OwnerStored(requests: map<Id, Request>, s: Stored) {
    s.owner in requests && HasStored(requests[s.owner])
  }

  /** Who stored: a request that has passed its `set`, and only once. */
  ghost predicate StoredOnce(st: State) {
    && (forall s <- st.log :: OwnerStored(st.requests, s))
    && (forall i, j :: 0 <= i < j < |st.log| ==> st.log[i].owner != st.log[j].owner)
  }

  ghost predicate Inv(ttl: nat, st: State) {
    && (forall id <- st.requests :: RequestOk(ttl, st, st.requests[id]))
    && CacheOk(ttl, st)
    && Exclusive(st.requests)
    && StoredOnce(st)
  }

  /** No other request holds `key`. */
  ghost predicate FreeOfOthers(requests: map<Id, Request>, id: Id, key: Key) {
    forall i <- requests :: i != id && Holds(requests[i]) ==> requests[i].key != key
  }

  lemma PutExclusive(requests: map<Id, Request>, id: Id, r: Request)
    requires Exclusive(requests)
    requires Holds(r) ==> FreeOfOthers(requests, id, r.key)
    ensures Exclusive(requests[id := r])
  {
  }

  /** A request that has stored keeps having stored. */
  lemma PutStored(st: State, st': State, id: Id, r: Request)
    requires StoredOnce(st) && st'.log == st.log && st'.requests == st.requests[id := r]
    requires id in st.requests && HasStored(st.requests[id]) ==> HasStored(r)
    ensures StoredOnce(st')
  {
    forall s <- st'.log ensures OwnerStored(st'.requests, s) {
      assert OwnerStored(st.requests, s);
    }
  }

  /** Steps of request `id` that leave the cache and the log alone. */
  lemma QuietKeeps(ttl: nat, st: State, st': State, id: Id, r: Request)
    requires Inv(ttl, st) && st'.requests == st.requests[id := r]
    requires st'.log == st.log && st'.cache == st.cache && st'.now == st.now
    requires RequestOk(ttl, st', r)
    requires Holds(r) ==> FreeOfOthers(st.requests, id, r.key)
    requires id in st.requests && HasStored(st.requests[id]) ==> HasStored(r)
    requires forall i <- st.requests :: i != id && Holds(st.requests[i]) ==>
               st.requests[i].key in st'.locks && st'.locks[st.requests[i].key] == st.locks[st.requests[i].key]
    ensures Inv(ttl, st')
  {
    forall i <- st'.requests ensures RequestOk(ttl, st', st'.requests[i]) {
      if i != id {
        assert RequestOk(ttl, st, st.requests[i]);
      }
    }
    PutExclusive(st.requests, id, r);
    PutStored(st, st', id, r);
  }

  lemma ArriveKeeps(ttl: nat, st: State, id: Id, key: Key)
    requires Inv(ttl, st)
    ensures Inv(ttl, Next(ttl, st, Arrive(id, key)))
  {
    if id !in st.requests {
      QuietKeeps(ttl, st, Put(st, id, Arrived(key)), id, Arrived(key));
    }
  }

  /** What `get` answers: a stored response, or the proof that all stored ones had expired. */
  lemma GetOk(ttl: nat, st: State, id: Id)
    requires CacheOk(ttl, st) && id in st.requests && st.requests[id].Arrived?
    ensures
      var st' := Next(ttl, st, Get(id));
      RequestOk(ttl, st', st'.requests[id])
  {
    var key := st.requests[id].key;
    if Lookup(st.cache, st.now, key).None? {
      assert ExpiredBy(ttl, st.log, key, |st.log|, st.now);
    }
  }

  lemma GetKeeps(ttl: nat, st: State, id: Id)
    requires Inv(ttl, st)
    ensures Inv(ttl, Next(ttl, st, Get(id)))
  {
    if id in st.requests && st.requests[id].Arrived? {
      GetOk(ttl, st, id);
      QuietKeeps(ttl, st, Next(ttl, st, Get(id)), id, Next(ttl, st, Get(id)).requests[id]);
    }
  }

  lemma TryLockKeeps(ttl: nat, st: State, id: Id)
    requires ttl > 0 && Inv(ttl, st)
    ensures Inv(ttl, Next(ttl, st, TryLock(id)))
  {
    var st' := Next(ttl, st, TryLock(id));
    if id in st.requests && st.requests[id].Missed? {
      var key := st.requests[id].key;
      assert RequestOk(ttl, st, st.requests[id]);
      if !Locked(st.locks, st.now, key) {
        forall i <- st.requests | Holds(st.requests[i]) ensures st.requests[i].key != key {
          assert RequestOk(ttl, st, st.requests[i]);
        }
      }
      QuietKeeps(ttl, st, st', id, st'.requests[id]);
    }
  }

  lemma UnlockKeeps(ttl: nat, st: State, id: Id)
    requires Inv(ttl, st)
    ensures Inv(ttl, Next(ttl, st, Unlock(id)))
  {
    var st' := Next(ttl, st, Unlock(id));
    if id in st.requests && st.requests[id].Saved? {
      assert RequestOk(ttl, st, st.requests[id]);
      forall i <- st.requests | i != id && Holds(st.requests[i])
        ensures st.requests[i].key in st'.locks
        ensures st'.locks[st.requests[i].key] == st.locks[st.requests[i].key]
      {
        assert RequestOk(ttl, st, st.requests[i]);
        assert st.requests[i].key != st.requests[id].key;
      }
      QuietKeeps(ttl, st, st', id, st'.requests[id]);
    }
  }

  lemma SetKeeps(ttl: nat, st: State, id: Id, response: Response)
    requires Inv(ttl, st)
    ensures Inv(ttl, Next(ttl, st, Set(id, response)))
  {
    var st' := Next(ttl, st, Set(id, response));
    if id in st.requests && st.requests[id].Handling? {
      var r := st.requests[id];
      assert RequestOk(ttl, st, r);
      assert Stored(r.key, id, response, st.now) in st'.log;
      forall i <- st'.requests ensures RequestOk(ttl, st', st'.requests[i]) {
        assert RequestOk(ttl, st, st.requests[i]);
      }
      PutExclusive(st.requests, id, st'.requests[id]);
      SetKeepsCache(ttl, st, id, response);
      SetKeepsStored(ttl, st, id, response);
    }
  }

  lemma SetKeepsCache(ttl: nat, st: State, id: Id, response: Response)
    requires Inv(ttl, st) && id in st.requests && st.requests[id].Handling?
    ensures CacheOk(ttl, Next(ttl, st, Set(id, response)))
  {
    var st' := Next(ttl, st, Set(id, response));
    var s := Stored(st.requests[id].key, id, response, st.now);
    assert st'.log == st.log + [s] && s in st'.log;
    forall key <- st'.cache ensures InLog(st'.log, key, st'.cache[key].response) {}
  }

  lemma SetKeepsStored(ttl: nat, st: State, id: Id, response: Response)
    requires StoredOnce(st) && id in st.requests && st.requests[id].Handling?
    ensures StoredOnce(Next(ttl, st, Set(id, response)))
  {
    var st' := Next(ttl, st, Set(id, response));
    var latest := Stored(st.requests[id].key, id, response, st.now);
    assert st'.log == st.log + [latest];
    forall s <- st.log ensures s.owner != id && OwnerStored(st'.requests, s) {
      assert OwnerStored(st.requests, s);
    }
    forall s <- st'.log ensures OwnerStored(st'.requests, s) {
      assert s in st.log || s == latest;
    }
    forall i, j | 0 <= i < j < |st'.log| ensures st'.log[i].owner != st'.log[j].owner {
      assert st.log[i] in st.log;
    }
  }

  lemma TickKeeps(ttl: nat, st: State, ms: nat)
    requires Inv(ttl, st)
    ensures Inv(ttl, Next(ttl, st, Tick(ms)))
  {
  }

  lemma NextKeeps(ttl: nat, st: State, e: Event)
    requires ttl > 0 && Inv(ttl, st)
    ensures Inv(ttl, Next(ttl, st, e))
  {
    match e {
      case Arrive(id, key) => ArriveKeeps(ttl, st, id, key);
      case Get(id) => GetKeeps(ttl, st, id);
      case TryLock(id) => TryLockKeeps(ttl, st, id);
      case Set(id, response) => SetKeeps(ttl, st, id, response);
      case Unlock(id) => UnlockKeeps(ttl, st, id);
      case Tick(ms) => TickKeeps(ttl, st, ms);
    }
  }

  lemma {:induction false} RunKeeps(ttl: nat, st: State, events: seq<Event>)
    requires ttl > 0 && Inv(ttl, st)
    ensures Inv(ttl, Run(ttl, st, events))
    decreases |events|
  {
    if events != [] {
      NextKeeps(ttl, st, events[0]);
      RunKeeps(ttl, Next(ttl, st, events[0]), events[1..]);
    }
  }

  // ---------------------------------------------------------------- the theorems

  /**
   Over every interleaving: at most one request per key is between lock and unlock; each
   request stores at most once, after it took the lock; and every replayed response is one
   that an execution for the same key stored.
   */
  lemma IdempotencySafety(ttl: nat, st: State, events: seq<Event>)
    requires ttl > 0 && Initial(st)
    ensures
      var st' := Run(ttl, st, events);
      && Exclusive(st'.requests)
      && StoredOnce(st')
      && (forall id <- st'.requests :: st'.requests[id].Replayed? ==>
            InLog(st'.log, st'.requests[id].key, st'.requests[id].response))
  {
    RunKeeps(ttl, st, events);
  }

  /**
   In every reachable state, a response is stored only by a request whose lock the store still
   holds for it, unexpired, and for nobody else; and then exactly that response is added.
   */
  lemma OnlyHolderStores(ttl: nat, start: State, events: seq<Event>, e: Event)
    requires ttl > 0 && Initial(start)
    requires var st := Run(ttl, start, events); Next(ttl, st, e).log != st.log
    ensures
      var st := Run(ttl, start, events);
      && e.Set? && e.id in st.requests && Holds(st.requests[e.id])
      && var r := st.requests[e.id];
         && Locked(st.locks, st.now, r.key) && st.locks[r.key] == r.deadline
         && (forall i <- st.requests :: i != e.id && Holds(st.requests[i]) ==> st.requests[i].key != r.key)
         && Next(ttl, st, e).log == st.log + [Stored(r.key, e.id, e.response, st.now)]
  {
    RunKeeps(ttl, start, events);
    var st := Run(ttl, start, events);
    assert RequestOk(ttl, st, st.requests[e.id]);
  }

  /**
   A second execution for a key inside the TTL of a stored response is possible only for a
   request that had read the store before that response was stored.
   */
  lemma LateReadersDoNotRun(ttl: nat, st: State, events: seq<Event>, id: Id, j: nat)
    requires ttl > 0 && Initial(st)
    requires
      var st' := Run(ttl, st, events);
      && id in st'.requests && Holds(st'.requests[id])
      && j < |st'.log| && st'.log[j].key == st'.requests[id].key
      && st'.requests[id].getAt < st'.log[j].at + ttl
    ensures Run(ttl, st, events).requests[id].seen <= j
  {
    RunKeeps(ttl, st, events);
    var st' := Run(ttl, st, events);
    assert RequestOk(ttl, st', st'.requests[id]);
  }

  /**
   Exactly when a second execution starts: in every reachable state, while the response stored
   at position `j` is valid, a request for its key begins to execute at `tryLock` if and only
   if it read the store, and found nothing, before that response was stored, and nobody holds
   the key's lock now.
   */
  lemma SecondExecutionIff(ttl: nat, start: State, events: seq<Event>, id: Id, j: nat)
    requires ttl > 0 && Initial(start)
    requires
      var st := Run(ttl, start, events);
      && id in st.requests && !st.requests[id].Handling?
      && j < |st.log| && st.log[j].key == st.requests[id].key && st.now < st.log[j].at + ttl
    ensures
      var st := Run(ttl, start, events);
      var r := st.requests[id];
      Next(ttl, st, TryLock(id)).requests[id].Handling? <==>
        r.Missed? && r.seen <= j && !Locked(st.locks, st.now, r.key)
  {
    RunKeeps(ttl, start, events);
    var st := Run(ttl, start, events);
    assert RequestOk(ttl, st, st.requests[id]);
    RunReadsInThePast(ttl, start, events);
  }

  /** Requests read the store no later than now. */
  ghost predicate ReadInThePast(st: State) {
    forall id <- st.requests :: st.requests[id].Missed? ==> st.requests[id].getAt <= st.now
  }

  lemma {:induction false} RunReadsInThePast(ttl: nat, st: State, events: seq<Event>)
    requires ReadInThePast(st)
    ensures ReadInThePast(Run(ttl, st, events))
    decreases |events|
  {
    if events != [] {
      RunReadsInThePast(ttl, Next(ttl, st, events[0]), events[1..]);
    }
  }

  /** The position a request keeps while a stored response for its key is still valid. */
  ghost predicate NeverRuns(r: Request) { r.Arrived? || r.Replayed? }

  ghost predicate CachedUntil(st: State, key: Key, until: int) {
    key in st.cache && st.cache[key].expiresAt >= until
  }

  /**
   A request that arrives after a response was stored, and reads the store before it expires,
   is answered by replay: it never takes the lock or runs the handler.
   */
  lemma {:induction false} ReplayWithinTtl(ttl: nat, st: State, events: seq<Event>, id: Id, until: int)
    requires ttl > 0 && id in st.requests && NeverRuns(st.requests[id])
    requires CachedUntil(st, st.requests[id].key, until) && until <= st.now + ttl
    requires Run(ttl, st, events).now < until
    ensures id in Run(ttl, st, events).requests && NeverRuns(Run(ttl, st, events).requests[id])
    decreases |events|
  {
    if events != [] {
      var st1 := Next(ttl, st, events[0]);
      TimePasses(ttl, st, events);
      TimePasses(ttl, st1, events[1..]);
      CacheOutlasts(ttl, st, events[0], st.requests[id].key, until);
      ReplayWithinTtl(ttl, st1, events[1..], id, until);
    }
  }

  lemma {:induction false} TimePasses(ttl: nat, st: State, events: seq<Event>)
    ensures st.now <= Run(ttl, st, events).now
    decreases |events|
  {
    if events != [] {
      TimePasses(ttl, Next(ttl, st, events[0]), events[1..]);
    }
  }

  /** A cached response is only ever replaced by one that expires no earlier. */
  lemma CacheOutlasts(ttl: nat, st: State, e: Event, key: Key, until: int)
    requires CachedUntil(st, key, until) && until <= st.now + ttl
    ensures CachedUntil(Next(ttl, st, e), key, until) && until <= Next(ttl, st, e).now + ttl
  {
  }

  /**
   The protocol does not re-read the store after locking, so two executions for one key can
   complete inside the TTL when both read the store first.
   */
  lemma TwoExecutions(ttl: nat, key: Key, x: Response, y: Response) returns (events: seq<Event>, st: State)
    requires ttl > 0
    ensures Initial(st)
    ensures
      var st' := Run(ttl, st, events);
      && st'.now == st.now
      && st'.log == [Stored(key, 0, x, st.now), Stored(key, 1, y, st.now)]
  {
    st := State(0, map[], map[], map[], []);
    var read := [Arrive(0, key), Arrive(1, key), Get(0), Get(1)];
    var first, second := [TryLock(0), Set(0, x), Unlock(0)], [TryLock(1), Set(1, y)];
    events := read + (first + second);
    BothMiss(ttl, key);
    OneRuns(ttl, key, x);
    OtherRuns(ttl, key, x, y);
    RunAppend(ttl, st, read, first + second);
    RunAppend(ttl, BothMissed(key), first, second);
  }

  ghost function BothMissed(key: Key): State {
    State(0, map[], map[], map[0 := Missed(key, 0, 0), 1 := Missed(key, 0, 0)], [])
  }

  ghost function OneAnswered(ttl: nat, key: Key, x: Response): State {
    State(0, map[key := Entry(x, ttl)], map[], map[0 := Answered(key, x), 1 := Missed(key, 0, 0)],
          [Stored(key, 0, x, 0)])
  }

  lemma BothMiss(ttl: nat, key: Key)
    ensures Run(ttl, State(0, map[], map[], map[], []), [Arrive(0, key), Arrive(1, key), Get(0), Get(1)])
         == BothMissed(key)
  {
    var s0 := State(0, map[], map[], map[], []);
    var s1 := Next(ttl, s0, Arrive(0, key));
    var s2 := Next(ttl, s1, Arrive(1, key));
    var s3 := Next(ttl, s2, Get(0));
    RunAppend(ttl, s0, [Arrive(0, key), Arrive(1, key)], [Get(0), Get(1)]);
    assert [Arrive(0, key), Arrive(1, key)] + [Get(0), Get(1)] == [Arrive(0, key), Arrive(1, key), Get(0), Get(1)];
    RunTwo(ttl, s0, Arrive(0, key), Arrive(1, key));
    RunTwo(ttl, s2, Get(0), Get(1));
    assert Next(ttl, s3, Get(1)) == BothMissed(key);
  }

  lemma OneRuns(ttl: nat, key: Key, x: Response)
    requires ttl > 0
    ensures Run(ttl, BothMissed(key), [TryLock(0), Set(0, x), Unlock(0)]) == OneAnswered(ttl, key, x)
  {
    var s4 := BothMissed(key);
    RunAppend(ttl, s4, [TryLock(0), Set(0, x)], [Unlock(0)]);
    assert [TryLock(0), Set(0, x)] + [Unlock(0)] == [TryLock(0), Set(0, x), Unlock(0)];
    RunTwo(ttl, s4, TryLock(0), Set(0, x));
    var s6 := Next(ttl, Next(ttl, s4, TryLock(0)), Set(0, x));
    assert Run(ttl, s6, [Unlock(0)]) == Run(ttl, Next(ttl, s6, Unlock(0)), []);
    assert Next(ttl, s6, Unlock(0)).locks == map[];
    assert Next(ttl, s6, Unlock(0)) == OneAnswered(ttl, key, x);
  }

  lemma OtherRuns(ttl: nat, key: Key, x: Response, y: Response)
    requires ttl > 0
    ensures
      var st' := Run(ttl, OneAnswered(ttl, key, x), [TryLock(1), Set(1, y)]);
      st'.now == 0 && st'.log == [Stored(key, 0, x, 0), Stored(key, 1, y, 0)]
  {
    RunTwo(ttl, OneAnswered(ttl, key, x), TryLock(1), Set(1, y));
  }

  lemma RunTwo(ttl: nat, st: State, a: Event, b: Event)
    ensures Run(ttl, st, [a, b]) == Next(ttl, Next(ttl, st, a), b)
  {
    assert [a, b][1..] == [b] && [b][1..] == [];
    var s1 := Next(ttl, st, a);
    assert Run(ttl, st, [a, b]) == Run(ttl, s1, [b]);
    assert Run(ttl, s1, [b]) == Run(ttl, Next(ttl, s1, b), []);
  }

  lemma {:induction false} RunAppend(ttl: nat, st: State, before: seq<Event>, after: seq<Event>)
    ensures Run(ttl, st, before + after) == Run(ttl, Run(ttl, st, before), after)
    decreases |before|
  {
    if before == [] {
      assert before + after == after;
    } else {
      RunAppend(ttl, Next(ttl, st, before[0]), before[1..], after);
      assert (before + after)[1..] == before[1..] + after;
    }
  }
}
