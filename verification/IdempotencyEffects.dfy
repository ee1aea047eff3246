/** What each operation of the idempotency protocol answers, told from the responses stored so far and who holds a lock. */
module IdempotencyEffects {
  import opened Wrappers
  import opened Idempotency

  /** Position `j` is the last response stored for `key`. */
  ghost predicate LastFor(log: seq<Stored>, key: Key, j: nat) {
    && j < |log| && log[j].key == key
    && forall i :: j < i < |log| ==> log[i].key != key
  }

  /** The store holds the last response of each key, for the TTL from when it was stored. */
  ghost predicate CacheIsLast(ttl: nat, st: State) {
    && (forall key <- st.cache :: HasLast(st.log, key))
    && (forall j: nat, key: Key :: LastFor(st.log, key, j) ==>
          key in st.cache && st.cache[key] == Entry(st.log[j].response, st.log[j].at + ttl))
  }

  ghost predicate HasLast(log: seq<Stored>, key: Key) { exists j: nat :: LastFor(log, key, j) }

  ghost predicate HeldBy(st: State, key: Key, id: Id) {
    && id in st.requests && Holds(st.requests[id]) && st.requests[id].key == key
    && key in st.locks && st.locks[key] == st.requests[id].deadline && st.now < st.locks[key]
  }

  ghost predicate Held(st: State, key: Key) { exists id: Id :: HeldBy(st, key, id) }

  /** The locks are those of the requests between `tryLock` and `unlock`. */
  ghost predicate LocksAreHeld(st: State) {
    && (forall key <- st.locks :: Held(st, key))
    && (forall id <- st.requests :: Holds(st.requests[id]) ==> HeldBy(st, st.requests[id].key, id))
    && Exclusive(st.requests)
  }

  ghost predicate Truthful(ttl: nat, st: State) { CacheIsLast(ttl, st) && LocksAreHeld(st) }

  lemma LastAppend(log: seq<Stored>, s: Stored, key: Key, j: nat)
    ensures LastFor(log + [s], key, j) <==> if s.key == key then j == |log| else LastFor(log, key, j)
  {
    var log' := log + [s];
    if s.key == key {
      assert j < |log| ==> log'[|log|].key == key;
    } else if LastFor(log, key, j) {
      forall i | j < i < |log'| ensures log'[i].key != key {}
    } else if LastFor(log', key, j) {
      forall i | j < i < |log| ensures log[i].key != key { assert log'[i] == log[i]; }
    }
  }

  lemma SetKeepsCache(ttl: nat, st: State, st': State, s: Stored)
    requires CacheIsLast(ttl, st)
    requires st'.log == st.log + [s] && st'.cache == st.cache[s.key := Entry(s.response, s.at + ttl)]
    ensures CacheIsLast(ttl, st')
  {
    forall key <- st'.cache ensures HasLast(st'.log, key) {
      if key == s.key {
        LastAppend(st.log, s, key, |st.log|);
      } else {
        assert HasLast(st.log, key);
        var j: nat :| LastFor(st.log, key, j);
        LastAppend(st.log, s, key, j);
      }
    }
    forall j: nat, key: Key | LastFor(st'.log, key, j)
      ensures key in st'.cache && st'.cache[key] == Entry(st'.log[j].response, st'.log[j].at + ttl)
    {
      LastAppend(st.log, s, key, j);
    }
  }

  /** A request that takes no lock and gives none up. */
  lemma MoveKeepsLocks(st: State, st': State, id: Id, r: Request)
    requires LocksAreHeld(st) && st'.requests == st.requests[id := r] && st'.locks == st.locks && st'.now == st.now
    requires if id in st.requests && Holds(st.requests[id]) then
               Holds(r) && r.key == st.requests[id].key && r.deadline == st.requests[id].deadline
             else !Holds(r)
    ensures LocksAreHeld(st')
  {
    forall key: Key, i: Id ensures HeldBy(st, key, i) <==> HeldBy(st', key, i) {}
    forall key <- st'.locks ensures Held(st', key) {
      assert Held(st, key);
    }
  }

  lemma LockKeeps(st: State, st': State, id: Id, r: Request)
    requires LocksAreHeld(st) && st'.requests == st.requests[id := r] && st'.now == st.now
    requires Holds(r) && r.key !in st.locks && st'.locks == st.locks[r.key := r.deadline] && st.now < r.deadline
    requires id in st.requests ==> !Holds(st.requests[id])
    ensures LocksAreHeld(st')
  {
    forall key: Key, i: Id | HeldBy(st, key, i) ensures HeldBy(st', key, i) {}
    forall i <- st'.requests | Holds(st'.requests[i]) ensures HeldBy(st', st'.requests[i].key, i) {
      if i != id { assert HeldBy(st, st.requests[i].key, i); }
    }
    assert Exclusive(st'.requests) by {
      forall i <- st.requests | i != id && Holds(st.requests[i]) ensures st.requests[i].key != r.key {
        assert HeldBy(st, st.requests[i].key, i);
      }
      PutExclusive(st.requests, id, r);
    }
    forall key <- st'.locks ensures Held(st', key) {
      if key == r.key {
        assert HeldBy(st', key, id);
      } else {
        assert Held(st, key);
        var i: Id :| HeldBy(st, key, i);
        assert HeldBy(st', key, i);
      }
    }
  }

  lemma UnlockKeeps(st: State, st': State, id: Id, r: Request)
    requires LocksAreHeld(st) && st'.requests == st.requests[id := r] && st'.now == st.now && !Holds(r)
    requires id in st.requests && Holds(st.requests[id]) && st'.locks == st.locks - {st.requests[id].key}
    ensures LocksAreHeld(st')
  {
    var freed := st.requests[id].key;
    forall key: Key, i: Id | HeldBy(st, key, i) && i != id ensures HeldBy(st', key, i) {
      assert key != freed;
    }
    forall key <- st'.locks ensures Held(st', key) {
      assert Held(st, key);
      var i: Id :| HeldBy(st, key, i);
      assert HeldBy(st', key, i);
    }
  }

  lemma TickKeeps(st: State, ms: nat)
    requires LocksAreHeld(st) && TickAllowed(st, ms)
    ensures LocksAreHeld(st.(now := st.now + ms))
  {
    var st' := st.(now := st.now + ms);
    forall key: Key, i: Id | HeldBy(st, key, i) ensures HeldBy(st', key, i) {}
    forall key <- st'.locks ensures Held(st', key) {
      assert Held(st, key);
      var i: Id :| HeldBy(st, key, i);
      assert HeldBy(st', key, i);
    }
  }

  lemma NextKeepsCache(ttl: nat, st: State, e: Event)
    requires CacheIsLast(ttl, st)
    ensures CacheIsLast(ttl, Next(ttl, st, e))
  {
    var st' := Next(ttl, st, e);
    if e.Set? && e.id in st.requests && st.requests[e.id].Handling? {
      SetKeepsCache(ttl, st, st', Stored(st.requests[e.id].key, e.id, e.response, st.now));
    } else {
      assert st'.cache == st.cache && st'.log == st.log;
    }
  }

  lemma TryLockKeeps(ttl: nat, st: State, id: Id)
    requires ttl > 0 && LocksAreHeld(st)
    ensures LocksAreHeld(Next(ttl, st, TryLock(id)))
  {
    var st' := Next(ttl, st, TryLock(id));
    if id in st.requests && st.requests[id].Missed? {
      var key := st.requests[id].key;
      if key in st.locks {
        assert Held(st, key);
        MoveKeepsLocks(st, st', id, st'.requests[id]);
      } else {
        LockKeeps(st, st', id, st'.requests[id]);
      }
    }
  }

  lemma MoveOn(ttl: nat, st: State, e: Event)
    requires LocksAreHeld(st) && (e.Arrive? || e.Get? || e.Set?)
    ensures LocksAreHeld(Next(ttl, st, e))
  {
    var st' := Next(ttl, st, e);
    if st' != st { MoveKeepsLocks(st, st', e.id, st'.requests[e.id]); }
  }

  lemma NextKeepsLocks(ttl: nat, st: State, e: Event)
    requires ttl > 0 && LocksAreHeld(st)
    ensures LocksAreHeld(Next(ttl, st, e))
  {
    match e {
      case TryLock(id) => TryLockKeeps(ttl, st, id);
      case Unlock(id) =>
        var st' := Next(ttl, st, e);
        if id in st.requests && st.requests[id].Saved? { UnlockKeeps(st, st', id, st'.requests[id]); }
      case Tick(ms) => if TickAllowed(st, ms) { TickKeeps(st, ms); }
      case _ => MoveOn(ttl, st, e);
    }
  }

  lemma {:induction false} RunIsTruthful(ttl: nat, st: State, events: seq<Event>)
    requires ttl > 0 && Truthful(ttl, st)
    ensures Truthful(ttl, Run(ttl, st, events))
    decreases |events|
  {
    if events != [] {
      NextKeepsCache(ttl, st, events[0]);
      NextKeepsLocks(ttl, st, events[0]);
      RunIsTruthful(ttl, Next(ttl, st, events[0]), events[1..]);
    }
  }

  /**
   In every reachable state: a request is answered from the store iff the last response stored
   for its key is younger than the TTL, and then with that response; otherwise it goes on, and
   nothing else changes.
   */
  lemma ReplayIff(ttl: nat, start: State, events: seq<Event>, id: Id)
    requires ttl > 0 && Initial(start)
    requires var st := Run(ttl, start, events); id in st.requests && st.requests[id].Arrived?
    ensures
      var st := Run(ttl, start, events);
      var key, st' := st.requests[id].key, Next(ttl, st, Get(id));
      && (forall response :: st'.requests[id] == Replayed(key, response) <==>
            exists j: nat :: LastFor(st.log, key, j) && st.now < st.log[j].at + ttl && st.log[j].response == response)
      && (!st'.requests[id].Replayed? ==> st'.requests[id] == Missed(key, |st.log|, st.now))
      && st' == st.(requests := st.requests[id := st'.requests[id]])
  {
    RunIsTruthful(ttl, start, events);
    var st := Run(ttl, start, events);
    var key, st' := st.requests[id].key, Next(ttl, st, Get(id));
    if st'.requests[id].Replayed? {
      assert HasLast(st.log, key);
      var j: nat :| LastFor(st.log, key, j);
      assert st.log[j].response == st'.requests[id].response;
    }
  }

  /**
   In every reachable state: a request that found nothing begins to execute iff no other request
   is executing for its key; otherwise it is turned away, and nothing else changes.
   */
  lemma ExecuteIff(ttl: nat, start: State, events: seq<Event>, id: Id)
    requires ttl > 0 && Initial(start)
    requires var st := Run(ttl, start, events); id in st.requests && st.requests[id].Missed?
    ensures
      var st := Run(ttl, start, events);
      var key, st' := st.requests[id].key, Next(ttl, st, TryLock(id));
      if exists i <- st.requests :: Holds(st.requests[i]) && st.requests[i].key == key then
        st' == st.(requests := st.requests[id := InProgress(key)])
      else
        && st'.requests[id].Handling? && st'.requests[id].key == key && st'.requests[id].deadline == st.now + ttl
        && st'.now == st.now && st'.cache == st.cache && st'.log == st.log
  {
    RunIsTruthful(ttl, start, events);
    var st := Run(ttl, start, events);
    var key := st.requests[id].key;
    if key in st.locks {
      assert Held(st, key);
      var i: Id :| HeldBy(st, key, i);
      assert i in st.requests;
    }
  }

  /**
   One request after another: whatever happened before, a request that runs alone from its lock
   to its unlock leaves its response to be replayed to the next one for the TTL, and the lock free.
   */
  lemma ExecutedThenReplayed(ttl: nat, st: State, id: Id, next: Id, response: Response, ms: nat)
    requires ttl > 0 && id != next && id in st.requests && st.requests[id].Handling? && next !in st.requests
    requires forall i <- st.requests :: i != id ==> !Holds(st.requests[i])
    ensures
      var key := st.requests[id].key;
      var done := Next(ttl, Next(ttl, st, Set(id, response)), Unlock(id));
      var later := Next(ttl, Next(ttl, Next(ttl, done, Tick(ms)), Arrive(next, key)), Get(next));
      && done.requests[id] == Answered(key, response) && key !in done.locks
      && (later.requests[next] == Replayed(key, response) <==> ms < ttl)
      && (later.requests[next].Missed? <==> ttl <= ms)
  {
  }
}
