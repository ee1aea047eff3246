/** The repository itself, over a table and a cache updated in place. */
module SuppressionServices {
  import opened Wrappers
  import S = Suppressions
  import Tenancy

  class MailSuppressionsRepository {
    var now: int
    var rows: map<(S.Scope, string), S.Row>
    var cache: map<S.Scope, S.CachedSet>

    constructor (now: int)
      ensures Abs() == S.State(now, map[], map[])
    {
      this.now := now;
      rows, cache := map[], map[];
    }

    function Abs(): S.State
      reads this
    {
      S.State(now, rows, cache)
    }

    method SAdd(scope: S.Scope, member: string)
      modifies this`cache
      ensures Abs() == S.Remember(old(Abs()), scope, member)
    {
      var members := S.Members(Abs(), scope);
      cache := cache[scope := S.CachedSet(members + {member}, now + S.CACHE_TTL)];
    }

    /** `context` is the tenant of the current frame, used unless the caller overrides it. */
    method IsSuppressed(email: string, override: Option<S.Scope>, context: S.Scope) returns (suppressed: bool)
      modifies this`cache
      ensures
        var scope := if override.Some? then override.value else context;
        (Abs(), suppressed) == S.IsSuppressed(old(Abs()), email, scope)
    {
      var scope := if override.Some? then override.value else context;
      var lower := Tenancy.Lower(email);
      if lower in S.Members(Abs(), scope) { return true; }
      suppressed := S.Active(Abs(), scope, lower) || S.Active(Abs(), S.GLOBAL, lower);
      if suppressed { SAdd(scope, lower); }
    }

    method Add(scope: S.Scope, email: string, row: S.Row)
      modifies this
      ensures Abs() == S.Add(old(Abs()), scope, email, row)
    {
      var lower := Tenancy.Lower(email);
      rows := rows[(scope, lower) := row];
      SAdd(scope, lower);
    }

    method Remove(scope: S.Scope, email: string) returns (removed: bool)
      modifies this
      ensures (Abs(), removed) == S.Remove(old(Abs()), scope, email)
    {
      var lower := Tenancy.Lower(email);
      removed := (scope, lower) in rows;
      if removed {
        rows := rows - {(scope, lower)};
        if scope in cache {
          cache := cache[scope := S.CachedSet(cache[scope].members - {lower}, cache[scope].expiresAt)];
        }
      }
    }

    method InvalidateCache(scope: S.Scope)
      modifies this`cache
      ensures Abs() == S.Invalidate(old(Abs()), scope)
      ensures forall email: string ::
                S.IsSuppressed(Abs(), email, scope).1 <==> S.Suppressed(Abs(), scope, Tenancy.Lower(email))
    {
      cache := cache - {scope};
    }
  }
}
