/** What single calls on the suppression list answer and write, told row by row. */
module SuppressionEffects {
  import opened Wrappers
  import opened Suppressions
  import Tenancy

  /** A row that counts now: without an expiry, or with one still to come. */
  ghost predicate Counts(st: State, scope: Scope, lower: string) {
    (scope, lower) in st.rows
    && (st.rows[(scope, lower)].expiresAt == None
        || exists at :: st.rows[(scope, lower)].expiresAt == Some(at) && st.now < at)
  }

  /** The address is in the scope's cached set, and that has not expired. */
  ghost predicate InCache(st: State, scope: Scope, lower: string) {
    scope in st.cache && st.now < st.cache[scope].expiresAt && lower in st.cache[scope].members
  }

  /**
   A lookup says yes iff the cached set has the address, or the scope's own list or the global
   one has a row that counts. It writes nothing but the scope's cached set, and that only when a
   row answered: the address joins what had not expired, for an hour.
   */
  lemma LookupIff(st: State, email: string, scope: Scope)
    ensures
      var lower := Tenancy.Lower(email);
      var (st', yes) := IsSuppressed(st, email, scope);
      && (yes <==> InCache(st, scope, lower) || Counts(st, scope, lower) || Counts(st, None, lower))
      && st'.rows == st.rows && st'.now == st.now
      && (forall s :: s != scope ==> (s in st'.cache <==> s in st.cache))
      && (forall s <- st.cache :: s != scope ==> st'.cache[s] == st.cache[s])
      && (if InCache(st, scope, lower) || !yes then st' == st
          else
            && scope in st'.cache && st'.cache[scope].expiresAt == st.now + 3600000
            && forall e :: e in st'.cache[scope].members <==> e == lower || InCache(st, scope, e))
  {
    var lower := Tenancy.Lower(email);
    forall s ensures Active(st, s, lower) <==> Counts(st, s, lower) {}
  }

  /** Adding writes the row, over any there was, and no other; from then on the address is answered yes. */
  lemma AddWrites(st: State, scope: Scope, email: string, row: Row)
    ensures
      var lower, st' := Tenancy.Lower(email), Add(st, scope, email, row);
      && (forall s, e :: (s, e) in st'.rows <==> (s, e) in st.rows || (s == scope && e == lower))
      && st'.rows[(scope, lower)] == row
      && (forall s, e :: (s, e) in st.rows && !(s == scope && e == lower) ==> st'.rows[(s, e)] == st.rows[(s, e)])
      && InCache(st', scope, lower) && st'.cache[scope].expiresAt == st.now + 3600000
      && (forall e :: e in st'.cache[scope].members <==> e == lower || InCache(st, scope, e))
      && (forall s :: s != scope ==> (s in st'.cache <==> s in st.cache))
      && (forall s <- st.cache :: s != scope ==> st'.cache[s] == st.cache[s])
  {
  }

  /**
   An added row is found by every spelling of the address that differs in capitals only, until
   the row expires: in its own scope, and in every scope when it is global.
   */
  lemma AddedIsFound(st: State, scope: Scope, email: string, row: Row, spelling: string, asker: Scope, ms: nat)
    requires asker == scope || scope == None
    requires row.expiresAt.None? || st.now + ms < row.expiresAt.value
    requires |spelling| == |email|
    requires forall i :: 0 <= i < |email| ==>
               || spelling[i] == email[i]
               || ('A' <= spelling[i] <= 'Z' && email[i] as int == spelling[i] as int + 32)
               || ('A' <= email[i] <= 'Z' && spelling[i] as int == email[i] as int + 32)
    ensures IsSuppressed(Next(Add(st, scope, email, row), Tick(ms)), spelling, asker).1
  {
    assert Tenancy.Lower(spelling) == Tenancy.Lower(email);
    assert Active(Next(Add(st, scope, email, row), Tick(ms)), scope, Tenancy.Lower(email));
  }

  /**
   Removing deletes the row and says so iff there was one; then the address leaves the scope's
   cached set too, and the scope answers yes only if a global row still counts.
   */
  lemma RemoveDeletes(st: State, scope: Scope, email: string)
    ensures
      var lower := Tenancy.Lower(email);
      var (st', removed) := Remove(st, scope, email);
      && (removed <==> (scope, lower) in st.rows)
      && (forall s, e :: (s, e) in st'.rows <==> (s, e) in st.rows && !(s == scope && e == lower))
      && (forall s, e :: (s, e) in st'.rows ==> st'.rows[(s, e)] == st.rows[(s, e)])
      && (!removed ==> st' == st)
      && (forall s, e :: InCache(st', s, e) <==> InCache(st, s, e) && !(removed && s == scope && e == lower))
      && (removed ==>
            (IsSuppressed(st', email, scope).1 <==> scope.Some? && Counts(st, None, lower)))
  {
    var lower := Tenancy.Lower(email);
    var st' := Remove(st, scope, email).0;
    forall s ensures Active(st', s, lower) <==> Counts(st', s, lower) {}
    forall s ensures Counts(st', s, lower) <==> Counts(st, s, lower) && s != scope {}
  }
}
