/** The mail suppression list: its table, and the expiring per-tenant sets cached in front of it. */
module Suppressions {
  import opened Wrappers
  import Tenancy

  /** A tenant's list, or the global one. */
  type Scope = Option<nat>

  datatype Reason = HardBounce | Complaint | Unsubscribe | Manual

  datatype Row = Row(reason: Reason, source: string, expiresAt: Option<int>)

  datatype CachedSet = CachedSet(members: set<string>, expiresAt: int)

  /** The two partial unique indexes make (scope, address) the key of a row. */
  datatype State = State(now: int, rows: map<(Scope, string), Row>, cache: map<Scope, CachedSet>)

  const GLOBAL: Scope := None

  const CACHE_TTL := 3600 * 1000

  // ---------------------------------------------------------------- the store operations

  /** The members of a key that has not expired. */
  function Members(st: State, scope: Scope): set<string> {
    if scope in st.cache && st.now < st.cache[scope].expiresAt then st.cache[scope].members else {}
  }

  /** SADD and then EXPIRE, which renews the whole set. */
  function Remember(st: State, scope: Scope, email: string): State {
    st.(cache := st.cache[scope := CachedSet(Members(st, scope) + {email}, st.now + CACHE_TTL)])
  }

  /** SREM */
  function Forget(st: State, scope: Scope, email: string): State {
    if scope !in st.cache then st
    else st.(cache := st.cache[scope := st.cache[scope].(members := st.cache[scope].members - {email})])
  }

  predicate Active(st: State, scope: Scope, email: string) {
    (scope, email) in st.rows
    && (st.rows[(scope, email)].expiresAt.None? || st.rows[(scope, email)].expiresAt.value > st.now)
  }

  /** What a tenant's query finds: a row of its own, or a global one. */
  predicate Suppressed(st: State, scope: Scope, email: string) {
    Active(st, scope, email) || Active(st, GLOBAL, email)
  }

  // ---------------------------------------------------------------- the operations

  function IsSuppressed(st: State, email: string, scope: Scope): (r: (State, bool))
    ensures Suppressed(st, scope, Tenancy.Lower(email)) ==> r.1
  {
    var lower := Tenancy.Lower(email);
    if lower in Members(st, scope) then (st, true)
    else if Suppressed(st, scope, lower) then (Remember(st, scope, lower), true)
    else (st, false)
  }

  function Add(st: State, scope: Scope, email: string, row: Row): State {
    var lower := Tenancy.Lower(email);
    Remember(st.(rows := st.rows[(scope, lower) := row]), scope, lower)
  }

  function Remove(st: State, scope: Scope, email: string): (State, bool) {
    var lower := Tenancy.Lower(email);
    if (scope, lower) !in st.rows then (st, false)
    else (Forget(st.(rows := st.rows - {(scope, lower)}), scope, lower), true)
  }

  function Invalidate(st: State, scope: Scope): State {
    st.(cache := st.cache - {scope})
  }

  // ---------------------------------------------------------------- agreement

  /** Everything a lookup would take from the cache is suppressed by an active row. */
  ghost predicate Agrees(st: State) {
    forall scope, email :: email in Members(st, scope) ==> Suppressed(st, scope, email)
  }

  /** Under agreement the cache is invisible. */
  lemma AgreementAnswers(st: State, email: string, scope: Scope)
    requires Agrees(st)
    ensures IsSuppressed(st, email, scope).1 <==> Suppressed(st, scope, Tenancy.Lower(email))
    ensures Agrees(IsSuppressed(st, email, scope).0)
  {
    var lower := Tenancy.Lower(email);
    if lower in Members(st, scope) {
      assert Suppressed(st, scope, lower);
    }
    var st' := IsSuppressed(st, email, scope).0;
    forall s, e | e in Members(st', s) ensures Suppressed(st', s, e) {
      assert e in Members(st, s) || (s == scope && e == lower && Suppressed(st, scope, lower));
    }
  }

  /**
   Exactly when a removal keeps agreement: it forgets the address under its own key only, so
   removing a global row is harmful iff some tenant has cached the address without an active
   row of its own.
   */
  lemma RemoveKeepsAgreementIff(st: State, scope: Scope, email: string)
    requires Agrees(st)
    ensures
      var lower := Tenancy.Lower(email);
      Agrees(Remove(st, scope, email).0) <==>
        (scope.Some? || (GLOBAL, lower) !in st.rows
         || forall t: nat :: lower in Members(st, Some(t)) ==> Active(st, Some(t), lower))
  {
    var lower := Tenancy.Lower(email);
    var st' := Remove(st, scope, email).0;
    if (scope, lower) in st.rows {
      forall s, e ensures e in Members(st', s) <==> e in Members(st, s) && !(s == scope && e == lower) {}
      forall s, e ensures Active(st', s, e) <==> Active(st, s, e) && !(s == scope && e == lower) {}
      if scope.Some? {
        forall s, e | e in Members(st', s) ensures Suppressed(st', s, e) {
          assert Suppressed(st, s, e);
        }
      }
    }
  }

  // ---------------------------------------------------------------- runs

  datatype Op =
    | Ask(email: string, scope: Scope)
    | Suppress(email: string, scope: Scope, row: Row)
    | Unblock(email: string, scope: Scope)
    | InvalidateCache(scope: Scope)
    | KeyExpires(scope: Scope)
    | Tick(ms: nat)

  function Next(st: State, op: Op): State {
    match op
    case Ask(email, scope) => IsSuppressed(st, email, scope).0
    case Suppress(email, scope, row) => Add(st, scope, email, row)
    case Unblock(email, scope) => Remove(st, scope, email).0
    case InvalidateCache(scope) => Invalidate(st, scope)
    case KeyExpires(scope) => st.(cache := st.cache - {scope})
    case Tick(ms) => st.(now := st.now + ms)
  }

  function Run(st: State, ops: seq<Op>): State
    decreases |ops|
  {
    if ops == [] then st else Run(Next(st, ops[0]), ops[1..])
  }

  /** Permanent rows, and only tenants' own rows removed. */
  predicate Tame(op: Op) {
    match op
    case Suppress(_, _, row) => row.expiresAt.None?
    case Unblock(_, scope) => scope.Some?
    case _ => true
  }

  ghost predicate Inv(st: State) {
    && (forall key <- st.rows :: st.rows[key].expiresAt.None?)
    && Agrees(st)
  }

  lemma AddKeepsAgreement(st: State, scope: Scope, email: string, row: Row)
    requires Inv(st) && row.expiresAt.None?
    ensures Inv(Add(st, scope, email, row))
  {
    var st' := Add(st, scope, email, row);
    var lower := Tenancy.Lower(email);
    forall s, e | e in Members(st', s) ensures Suppressed(st', s, e) {
      if !(s == scope && e == lower) {
        assert e in Members(st, s);
        assert Suppressed(st, s, e);
      }
    }
  }

  lemma NextKeeps(st: State, op: Op)
    requires Inv(st) && Tame(op)
    ensures Inv(Next(st, op))
  {
    match op {
      case Ask(email, scope) => AgreementAnswers(st, email, scope);
      case Suppress(email, scope, row) => AddKeepsAgreement(st, scope, email, row);
      case Unblock(email, scope) => RemoveKeepsAgreementIff(st, scope, email);
      case _ =>
        var st' := Next(st, op);
        forall s, e | e in Members(st', s) ensures Suppressed(st', s, e) {
          assert Suppressed(st, s, e);
        }
    }
  }

  lemma {:induction false} RunKeeps(st: State, ops: seq<Op>)
    requires Inv(st) && forall op <- ops :: Tame(op)
    ensures Inv(Run(st, ops))
    decreases |ops|
  {
    if ops != [] {
      assert ops[0] in ops;
      NextKeeps(st, ops[0]);
      RunKeeps(Next(st, ops[0]), ops[1..]);
    }
  }

  /** With permanent rows and tenant-level removals, a lookup answers exactly whether a row exists. */
  lemma AnswersMatchTable(st: State, ops: seq<Op>, email: string, scope: Scope)
    requires st.rows == map[] && st.cache == map[]
    requires forall op <- ops :: Tame(op)
    ensures
      var st' := Run(st, ops);
      var lower := Tenancy.Lower(email);
      IsSuppressed(st', email, scope).1 <==> ((scope, lower) in st'.rows || (GLOBAL, lower) in st'.rows)
  {
    RunKeeps(st, ops);
    AgreementAnswers(Run(st, ops), email, scope);
  }

  // ---------------------------------------------------------------- how long a stale answer lasts

  /** An hour less a second, and then a renewal of tenant 1's key for another address. */
  function Renewals(n: nat): seq<Op> {
    if n == 0 then []
    else [Tick(3599000), Suppress("b", Some(1), Row(Manual, "", None))] + Renewals(n - 1)
  }

  /** "a" is answered from tenant 1's cache with no row behind it. */
  ghost predicate Stale(st: State) {
    && "a" in Members(st, Some(1)) && st.cache[Some(1)].expiresAt == st.now + CACHE_TTL
    && !Suppressed(st, Some(1), "a")
  }

  lemma StaleStays(st: State)
    requires Stale(st)
    ensures Stale(Next(Next(st, Tick(3599000)), Suppress("b", Some(1), Row(Manual, "", None))))
  {
    assert Tenancy.Lower("b") == "b";
  }

  lemma {:induction false} StaleThroughRenewals(st: State, n: nat)
    requires Stale(st)
    ensures Stale(Run(st, Renewals(n)))
    decreases n
  {
    if n > 0 {
      var ops := Renewals(n);
      var mid := Next(st, ops[0]);
      assert ops[1..][0] == ops[1] && ops[1..][1..] == Renewals(n - 1);
      StaleStays(st);
      assert Run(st, ops) == Run(Next(mid, ops[1]), Renewals(n - 1));
      StaleThroughRenewals(Next(mid, ops[1]), n - 1);
    }
  }

  /**
   A global unblock need never reach a tenant that has cached the address: every add under
   the tenant's key renews the whole set, for as many hours as one likes.
   */
  lemma GlobalUnblockCanStayUnseen(n: nat)
    ensures
      var start := State(0, map[], map[]);
      var ops := [Suppress("a", GLOBAL, Row(Manual, "", None)), Ask("a", Some(1)), Unblock("a", GLOBAL)];
      var st := Run(Run(start, ops), Renewals(n));
      IsSuppressed(st, "a", Some(1)).1 && !Suppressed(st, Some(1), "a")
  {
    var start := State(0, map[], map[]);
    var ops := [Suppress("a", GLOBAL, Row(Manual, "", None)), Ask("a", Some(1)), Unblock("a", GLOBAL)];
    assert Tenancy.Lower("a") == "a";
    var st1 := Next(start, ops[0]);
    var st2 := Next(st1, ops[1]);
    var st3 := Next(st2, ops[2]);
    assert ops[1..] == [ops[1], ops[2]] && ops[1..][1..] == [ops[2]];
    assert Run(start, ops) == st3 by {
      assert Run(start, ops) == Run(st1, ops[1..]);
      assert Run(st1, ops[1..]) == Run(st2, ops[1..][1..]);
      assert Run(st2, ops[1..][1..]) == Run(st3, []);
    }
    assert Stale(st3) by {
      assert Active(st1, GLOBAL, "a") && "a" !in Members(st1, Some(1));
      assert "a" in Members(st2, Some(1));
      assert (GLOBAL, "a") in st2.rows && (Some(1), "a") !in st2.rows;
    }
    StaleThroughRenewals(st3, n);
  }
}
