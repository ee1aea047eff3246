/** The hooks `withIdempotency` returns, run without interleaving over the store they use. */
module IdempotencyHooks {
  import opened Wrappers
  import opened Idempotency

  /** What `preHandler` decided. */
  datatype Decision =
    | KeyRequired
    | PassThrough
    | Replay(response: Response)
    | Conflict
    | Proceed

  /** What the hooks assign on a request. */
  class RequestFlags {
    var idempotencyKey: Option<Key>
    var idempotencyActive: bool

    constructor ()
      ensures idempotencyKey == None && !idempotencyActive
    {
      idempotencyKey, idempotencyActive := None, false;
    }
  }

  class Hooks {
    const ttl: nat
    var now: int
    var cache: map<Key, Entry>
    var locks: map<Key, int>

    constructor (ttl: nat)
      ensures this.ttl == ttl && cache == map[] && locks == map[]
    {
      this.ttl, now, cache, locks := ttl, 0, map[], map[];
    }

    /**
     The decision is the one the protocol's Get and TryLock steps lead to. A key is noted on the
     request; it is active from now on iff it proceeds, and inactive if it is replayed.
     */
    method PreHandler(request: RequestFlags, key: Option<Key>, required: bool) returns (decision: Decision)
      modifies this`locks, request
      ensures key.None? || key.value == "" ==>
                && decision == (if required then KeyRequired else PassThrough)
                && locks == old(locks) && unchanged(request)
      ensures key.Some? && key.value != "" ==>
                var st := State(now, cache, old(locks), map[0 := Arrived(key.value)], []);
                var got := Next(ttl, st, Get(0));
                var locked := Next(ttl, got, TryLock(0));
                && locks == locked.locks
                && (decision.Replay? <==> locked.requests[0].Replayed?)
                && (decision.Conflict? <==> locked.requests[0].InProgress?)
                && (decision.Proceed? <==> locked.requests[0].Handling?)
                && (decision.Replay? ==> decision.response == locked.requests[0].response)
      ensures key.Some? && key.value != "" ==>
                && request.idempotencyKey == key
                && request.idempotencyActive
                == (decision.Proceed? || (decision.Conflict? && old(request.idempotencyActive)))
    {
      if key.None? || key.value == "" {
        return if required then KeyRequired else PassThrough;
      }
      request.idempotencyKey := key;
      var cached := Lookup(cache, now, key.value);
      if cached.Some? {
        request.idempotencyActive := false;
        var headers := CopyHeaders(cached.value.headers);
        return Replay(Response(cached.value.statusCode, headers, cached.value.body));
      }
      if key.value in locks && now < locks[key.value] {
        return Conflict;
      }
      locks := locks[key.value := now + ttl];
      request.idempotencyActive := true;
      return Proceed;
    }

    /** Setting each stored header on an empty reply reproduces them all. */
    method CopyHeaders(stored: map<string, string>) returns (reply: map<string, string>)
      ensures reply == stored
    {
      reply := map[];
      var names := stored.Keys;
      while names != {}
        invariant names <= stored.Keys
        invariant reply.Keys == stored.Keys - names
        invariant forall name <- reply :: reply[name] == stored[name]
        decreases |names|
      {
        var name :| name in names;
        reply := reply[name := stored[name]];
        names := names - {name};
      }
    }

    /** `responseHeaders`: the reply's headers that have a value; of a repeated name, the last. */
    method CollectHeaders(raw: seq<(string, Option<string>)>) returns (headers: map<string, string>)
      ensures forall name :: name in headers <==> exists i :: 0 <= i < |raw| && raw[i].0 == name && raw[i].1.Some?
      ensures forall i :: 0 <= i < |raw| && raw[i].1.Some?
                && (forall j :: i < j < |raw| ==> raw[j].0 != raw[i].0 || raw[j].1.None?)
                ==> headers[raw[i].0] == raw[i].1.value
    {
      headers := map[];
      for k := 0 to |raw|
        invariant forall name :: name in headers <==> exists i :: 0 <= i < k && raw[i].0 == name && raw[i].1.Some?
        invariant forall i :: 0 <= i < k && raw[i].1.Some?
                    && (forall j :: i < j < k ==> raw[j].0 != raw[i].0 || raw[j].1.None?)
                    ==> headers[raw[i].0] == raw[i].1.value
      {
        if raw[k].1.Some? {
          headers := headers[raw[k].0 := raw[k].1.value];
        }
      }
    }

    /** Only the request that proceeded stores and unlocks, as the protocol's Set and Unlock steps do. */
    method OnSend(request: RequestFlags, response: Response)
      modifies this`cache, this`locks
      ensures request.idempotencyKey.None? || !request.idempotencyActive ==> cache == old(cache) && locks == old(locks)
      ensures request.idempotencyKey.Some? && request.idempotencyActive ==>
                var key := request.idempotencyKey.value;
                var holder := Handling(key, 0, now, now + ttl);
                var st := State(now, old(cache), old(locks), map[0 := holder], []);
                var done := Next(ttl, Next(ttl, st, Set(0, response)), Unlock(0));
                && cache == done.cache && locks == done.locks
                && (ttl > 0 ==> Lookup(cache, now, key) == Some(response))
    {
      if request.idempotencyKey.None? || !request.idempotencyActive {
        return;
      }
      var key := request.idempotencyKey.value;
      cache := cache[key := Entry(response, now + ttl)];
      locks := locks - {key};
    }
  }
}
