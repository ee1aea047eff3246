/**
 JWT revocation: stateless access and refresh tokens, and the two kinds of expiring
 store keys that revoke them. The clock is in milliseconds; `iat` and `exp` in seconds.
 */
module AuthRevocation {
  import opened Wrappers

  type User = nat

  /** Added to the refresh TTL for the store keys. */
  const BLACKLIST_BUFFER_SECONDS := 6 * 3600

  datatype Kind = Access | Refresh

  datatype Token = Token(kind: Kind, sub: User, jti: nat, iat: int, exp: int)

  datatype Config = Config(accessTtl: nat, refreshTtl: nat)

  datatype Cleared = Cleared(timestamp: int, expiresAt: int)

  datatype ResetRow = ResetRow(user: User, expiresAt: int, usedAt: Option<int>)

  /** `issued` are the tokens whose signature verifies; `blacklist` maps a jti to the instant its key expires. */
  datatype State = State(
    now: int, passwords: map<User, string>, issued: set<Token>, nextJti: nat,
    blacklist: map<nat, int>, cleared: map<User, Cleared>, resets: seq<ResetRow>)

  datatype Error = InvalidToken | ExpiredToken | TokenRevoked | InvalidTokenFlow

  datatype Pair = Pair(access: Token, refresh: Token)

  function Seconds(ms: int): int { ms / 1000 }

  function BlacklistTtl(c: Config): nat { c.refreshTtl + BLACKLIST_BUFFER_SECONDS }

  function Ttl(c: Config, kind: Kind): nat { if kind.Access? then c.accessTtl else c.refreshTtl }

  // ---------------------------------------------------------------- the service calls

  /**
   Signing reads the clock once for `iat` and once for `exp`; `late` says the second reading
   fell in the next second.
   */
  function Sign(c: Config, st: State, kind: Kind, user: User, jti: nat, late: bool): Token {
    var iat := Seconds(st.now);
    Token(kind, user, jti, iat, iat + (if late then 1 else 0) + Ttl(c, kind))
  }

  function IssuePair(c: Config, st: State, user: User, lateA: bool, lateR: bool): (State, Pair) {
    var access := Sign(c, st, Access, user, st.nextJti, lateA);
    var refresh := Sign(c, st, Refresh, user, st.nextJti + 1, lateR);
    (st.(issued := st.issued + {access, refresh}, nextJti := st.nextJti + 2), Pair(access, refresh))
  }

  /** `verifyToken`: signature, then `exp`, then type. A token is refused on and after the second `exp`. */
  function VerifyToken(st: State, token: Token, expected: Kind): Result<Token, Error> {
    if token !in st.issued then Failure(InvalidToken)
    else if token.exp <= Seconds(st.now) then Failure(ExpiredToken)
    else if token.kind != expected then Failure(InvalidToken)
    else Success(token)
  }

  predicate IsBlacklisted(st: State, jti: nat) { jti in st.blacklist && st.now < st.blacklist[jti] }

  function GetClearedAt(st: State, user: User): Option<int> {
    if user in st.cleared && st.now < st.cleared[user].expiresAt then Some(st.cleared[user].timestamp) else None
  }

  /** The check shared by `assertNotRevoked` and `verifyJwt`. */
  predicate Revoked(st: State, token: Token) {
    || IsBlacklisted(st, token.jti)
    || (var at := GetClearedAt(st, token.sub); at.Some? && token.iat < at.value)
  }

  function BlacklistToken(c: Config, st: State, jti: nat): State {
    st.(blacklist := st.blacklist[jti := st.now + 1000 * BlacklistTtl(c)])
  }

  function SetClearedAt(c: Config, st: State, user: User): State {
    st.(cleared := st.cleared[user := Cleared(Seconds(st.now), st.now + 1000 * BlacklistTtl(c))])
  }

  function VerifyJwt(st: State, token: Token): Result<Token, Error> {
    var verified := VerifyToken(st, token, Access);
    if verified.Failure? then verified
    else if Revoked(st, token) then Failure(TokenRevoked)
    else verified
  }

  /** The reading half of `refresh`, and the writing half. */
  function CheckRefresh(st: State, token: Token): Result<Token, Error> {
    var verified := VerifyToken(st, token, Refresh);
    if verified.Failure? then verified
    else if Revoked(st, token) then Failure(TokenRevoked)
    else if token.sub !in st.passwords then Failure(InvalidToken)
    else verified
  }

  function RotateRefresh(c: Config, st: State, token: Token, lateA: bool, lateR: bool): (State, Pair) {
    IssuePair(c, BlacklistToken(c, st, token.jti), token.sub, lateA, lateR)
  }

  function RefreshTokens(c: Config, st: State, token: Token, lateA: bool, lateR: bool): (State, Result<Pair, Error>) {
    var checked := CheckRefresh(st, token);
    if checked.Failure? then (st, Failure(checked.error))
    else
      var (st', pair) := RotateRefresh(c, st, token, lateA, lateR);
      (st', Success(pair))
  }

  function Logout(c: Config, st: State, token: Token): State {
    if VerifyToken(st, token, Refresh).Success? then BlacklistToken(c, st, token.jti) else st
  }

  /** Redeems the reset row `id`, whose token hash was presented. */
  function ConfirmReset(c: Config, st: State, id: nat, hash: string): (State, Result<User, Error>) {
    if id >= |st.resets| || st.resets[id].usedAt.Some? || st.resets[id].expiresAt <= st.now then
      (st, Failure(InvalidTokenFlow))
    else
      var row := st.resets[id];
      var used := st.(resets := st.resets[id := row.(usedAt := Some(st.now))]);
      (SetClearedAt(c, used.(passwords := used.passwords[row.user := hash]), row.user), Success(row.user))
  }

  datatype Event =
    | Login(user: User, lateA: bool, lateR: bool)
    | DoRefresh(token: Token, lateA: bool, lateR: bool)
    | DoLogout(token: Token)
    | ClearSessions(user: User)
    | RequestReset(user: User, ttl: nat)
    | DoReset(id: nat, hash: string)
    | Tick(ms: nat)

  function Next(c: Config, st: State, e: Event): State {
    match e
    case Login(user, lateA, lateR) =>
      if user in st.passwords then IssuePair(c, st, user, lateA, lateR).0 else st
    case DoRefresh(token, lateA, lateR) => RefreshTokens(c, st, token, lateA, lateR).0
    case DoLogout(token) => Logout(c, st, token)
    case ClearSessions(user) => SetClearedAt(c, st, user)
    case RequestReset(user, ttl) =>
      if user in st.passwords then st.(resets := st.resets + [ResetRow(user, st.now + ttl, None)]) else st
    case DoReset(id, hash) => ConfirmReset(c, st, id, hash).0
    case Tick(ms) => st.(now := st.now + ms)
  }

  function Run(c: Config, st: State, events: seq<Event>): State
    decreases |events|
  {
    if events == [] then st else Run(c, Next(c, st, events[0]), events[1..])
  }

  // ---------------------------------------------------------------- what every run keeps

  /** Every token was issued no later than now, and lives at most its TTL and one second. */
  ghost predicate TokensOk(c: Config, st: State) {
    forall t <- st.issued ::
      t.jti < st.nextJti && t.iat <= Seconds(st.now) && t.exp <= t.iat + 1 + Ttl(c, t.kind)
  }

  /** Tokens never share a jti, so blacklisting one revokes no other. */
  ghost predicate DistinctJtis(st: State) {
    forall t <- st.issued, u <- st.issued :: t.jti == u.jti ==> t == u
  }

  lemma NextKeepsTokens(c: Config, st: State, e: Event)
    requires TokensOk(c, st) && DistinctJtis(st)
    ensures TokensOk(c, Next(c, st, e)) && DistinctJtis(Next(c, st, e))
  {
  }

  /** The blacklist key of a spent token lives at least until the token itself has expired. */
  ghost predicate Spent(st: State, token: Token) {
    token.jti in st.blacklist && token.exp <= Seconds(st.blacklist[token.jti])
  }

  /** The user's sessions were cleared at or after second `since`, under a key that covers it. */
  ghost predicate ClearedSince(c: Config, st: State, user: User, since: int) {
    && user in st.cleared
    && st.cleared[user].timestamp >= since
    && Seconds(st.cleared[user].expiresAt) >= since + BlacklistTtl(c)
  }

  lemma NextKeepsRevocations(c: Config, st: State, e: Event, token: Token, user: User, since: int)
    requires TokensOk(c, st)
    requires token in st.issued && token.kind.Refresh? && since <= Seconds(st.now)
    ensures Spent(st, token) ==> Spent(Next(c, st, e), token)
    ensures ClearedSince(c, st, user, since) ==> ClearedSince(c, Next(c, st, e), user, since)
    ensures token in Next(c, st, e).issued && since <= Seconds(Next(c, st, e).now)
  {
    KeyOutlives(c, st.now);
  }

  /** A key written now expires `BlacklistTtl` seconds after the current second. */
  lemma KeyOutlives(c: Config, now: int)
    ensures Seconds(now + 1000 * BlacklistTtl(c)) == Seconds(now) + BlacklistTtl(c)
  {
  }

  lemma {:induction false} RunKeeps(c: Config, st: State, events: seq<Event>, token: Token, user: User, since: int)
    requires TokensOk(c, st) && DistinctJtis(st)
    requires token in st.issued && token.kind.Refresh? && since <= Seconds(st.now)
    ensures
      var st' := Run(c, st, events);
      && TokensOk(c, st') && DistinctJtis(st') && token in st'.issued
      && (Spent(st, token) ==> Spent(st', token))
      && (ClearedSince(c, st, user, since) ==> ClearedSince(c, st', user, since))
    decreases |events|
  {
    if events != [] {
      NextKeepsTokens(c, st, events[0]);
      NextKeepsRevocations(c, st, events[0], token, user, since);
      RunKeeps(c, Next(c, st, events[0]), events[1..], token, user, since);
    }
  }

  // ---------------------------------------------------------------- consumed tokens

  /** A refresh token that `refresh` or `logout` consumed. */
  ghost predicate Consumes(st: State, e: Event, token: Token) {
    || (e.DoRefresh? && e.token == token && CheckRefresh(st, token).Success?)
    || (e.DoLogout? && e.token == token && VerifyToken(st, token, Refresh).Success?)
  }

  /**
   Revocation outlives the token: a consumed refresh token is refused by `refresh` and by
   `verifyJwt` at every later time, also after its blacklist key has expired.
   */
  lemma ConsumedForever(c: Config, st: State, e: Event, token: Token, later: seq<Event>)
    requires TokensOk(c, st) && DistinctJtis(st) && Consumes(st, e, token)
    ensures
      var st' := Run(c, Next(c, st, e), later);
      CheckRefresh(st', token).Failure? && VerifyJwt(st', token).Failure?
  {
    var st1 := Next(c, st, e);
    KeyOutlives(c, st.now);
    assert Spent(st1, token);
    NextKeepsTokens(c, st, e);
    RunKeeps(c, st1, later, token, 0, Seconds(st1.now));
    var st' := Run(c, st1, later);
  }

  // ---------------------------------------------------------------- cleared sessions

  /** `clearSessions`, or a password reset, for `user`. */
  ghost predicate Clears(st: State, e: Event, user: User) {
    || (e.ClearSessions? && e.user == user)
    || (e.DoReset? && e.id < |st.resets| && st.resets[e.id].user == user
        && st.resets[e.id].usedAt.None? && st.resets[e.id].expiresAt > st.now)
  }

  /** No token issued yet. */
  ghost predicate Initial(st: State) {
    st.issued == {} && st.blacklist == map[] && st.cleared == map[]
  }

  /** In every run, a token issued in a second before its user's sessions were cleared is refused from then on. */
  ghost predicate ClearedForever(c: Config) {
    forall start: State, before: seq<Event>, e: Event, token: Token, later: seq<Event> ::
      Initial(start) && HitBy(Run(c, start, before), e, token) ==>
        RefusedAfter(c, Run(c, start, before), e, token, later)
  }

  /** `e` clears the sessions of the owner of `token`, which was issued in an earlier second. */
  ghost predicate HitBy(st: State, e: Event, token: Token) {
    token in st.issued && Clears(st, e, token.sub) && token.iat < Seconds(st.now)
  }

  ghost predicate RefusedAfter(c: Config, st: State, e: Event, token: Token, later: seq<Event>) {
    var st' := Run(c, Next(c, st, e), later);
    CheckRefresh(st', token).Failure? && VerifyJwt(st', token).Failure?
  }

  lemma ClearRefuses(c: Config, st: State, e: Event, token: Token, later: seq<Event>)
    requires c.accessTtl <= BlacklistTtl(c)
    requires TokensOk(c, st) && DistinctJtis(st) && HitBy(st, e, token)
    ensures RefusedAfter(c, st, e, token, later)
  {
    var st1, since := Next(c, st, e), Seconds(st.now);
    KeyOutlives(c, st.now);
    assert ClearedSince(c, st1, token.sub, since);
    NextKeepsTokens(c, st, e);
    RunKeepsClear(c, st1, later, token.sub, since);
    var st' := Run(c, st1, later);
    if GetClearedAt(st', token.sub).None? {
      assert token.exp <= since + BlacklistTtl(c) <= Seconds(st'.now);
    }
  }

  lemma {:induction false} RunKeepsClear(c: Config, st: State, events: seq<Event>, user: User, since: int)
    requires ClearedSince(c, st, user, since) && since <= Seconds(st.now)
    ensures ClearedSince(c, Run(c, st, events), user, since)
    decreases |events|
  {
    if events != [] {
      KeyOutlives(c, st.now);
      RunKeepsClear(c, Next(c, st, events[0]), events[1..], user, since);
    }
  }

  /**
   The guarantee holds exactly for configurations whose access TTL is at most the refresh
   TTL and six hours: with a longer one, an access token outlives the cleared-at key.
   */
  lemma ClearedForeverIff(c: Config)
    ensures ClearedForever(c) <==> c.accessTtl <= c.refreshTtl + BLACKLIST_BUFFER_SECONDS
  {
    if c.accessTtl <= BlacklistTtl(c) {
      forall start: State, before: seq<Event>, e: Event, token: Token, later: seq<Event> |
        Initial(start) && HitBy(Run(c, start, before), e, token)
        ensures RefusedAfter(c, Run(c, start, before), e, token, later)
      {
        RunKeepsTokens(c, start, before);
        ClearRefuses(c, Run(c, start, before), e, token, later);
      }
    } else {
      LongAccessTokenReturns(c);
    }
  }

  lemma {:induction false} RunKeepsTokens(c: Config, st: State, events: seq<Event>)
    requires TokensOk(c, st) && DistinctJtis(st)
    ensures TokensOk(c, Run(c, st, events)) && DistinctJtis(Run(c, st, events))
    decreases |events|
  {
    if events != [] {
      NextKeepsTokens(c, st, events[0]);
      RunKeepsTokens(c, Next(c, st, events[0]), events[1..]);
    }
  }

  /** Log in at 0, clear at 1000 ms, wait until the key is gone: the access token is back. */
  lemma LongAccessTokenReturns(c: Config)
    requires c.accessTtl > BlacklistTtl(c)
    ensures !ClearedForever(c)
  {
    var start := State(0, map[0 := "hash"], {}, 0, map[], map[], []);
    var login, tick := Login(0, true, false), Tick(1000);
    var token := Token(Access, 0, 0, 0, 1 + c.accessTtl);
    var logged := Next(c, start, login);
    var st := Next(c, logged, tick);
    assert [login, tick][1..] == [tick] && [tick][1..] == [];
    assert Run(c, start, [login, tick]) == Run(c, logged, [tick]) == Run(c, st, []) == st;
    assert token in st.issued && Seconds(st.now) == 1;
    var e, wait := ClearSessions(0), Tick(1000 * BlacklistTtl(c));
    var st1 := Next(c, st, e);
    var st2 := Next(c, st1, wait);
    assert [wait][1..] == [];
    assert Run(c, st1, [wait]) == Run(c, st2, []) == st2;
    KeyOutlives(c, st.now);
    assert Seconds(st2.now) == 1 + BlacklistTtl(c);
    assert HitBy(st, e, token);
    assert VerifyJwt(st2, token).Success?;
    assert !RefusedAfter(c, st, e, token, [wait]);
  }

  // ---------------------------------------------------------------- reset tokens

  /** A reset row redeems at most once, whatever runs in between. */
  lemma ResetIsSingleUse(c: Config, st: State, id: nat, hash: string, later: seq<Event>, other: string)
    requires ConfirmReset(c, st, id, hash).1.Success?
    ensures ConfirmReset(c, Run(c, ConfirmReset(c, st, id, hash).0, later), id, other).1.Failure?
  {
    UsedStays(c, ConfirmReset(c, st, id, hash).0, later, id);
  }

  lemma {:induction false} UsedStays(c: Config, st: State, events: seq<Event>, id: nat)
    requires id < |st.resets| && st.resets[id].usedAt.Some?
    ensures id < |Run(c, st, events).resets| && Run(c, st, events).resets[id].usedAt.Some?
    decreases |events|
  {
    if events != [] {
      UsedStays(c, Next(c, st, events[0]), events[1..], id);
    }
  }
}
