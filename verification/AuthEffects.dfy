/** What each auth call decides and stores, told from the tokens, keys and rows; and that tokens work. */
module AuthEffects {
  import opened Wrappers
  import opened AuthRevocation

  /** The token's own blacklist key is there and has not expired. */
  ghost predicate Blacklisted(st: State, token: Token) {
    token.jti in st.blacklist && st.now < st.blacklist[token.jti]
  }

  /** Its owner's sessions were cleared in a second after the one it was issued in, under a key not yet expired. */
  ghost predicate ClearedAfter(st: State, token: Token) {
    token.sub in st.cleared && st.now < st.cleared[token.sub].expiresAt && token.iat < st.cleared[token.sub].timestamp
  }

  // ---------------------------------------------------------------- the checks

  /** `verifyJwt` accepts exactly the issued access tokens that have not expired and are not revoked. */
  lemma VerifyJwtIff(st: State, token: Token)
    ensures
      var r := VerifyJwt(st, token);
      && (r.Success? <==>
            && token in st.issued && token.kind == Access && st.now / 1000 < token.exp
            && !Blacklisted(st, token) && !ClearedAfter(st, token))
      && (r.Success? ==> r.value == token)
      && (r == Failure(ExpiredToken) <==> token in st.issued && token.exp <= st.now / 1000)
  {
  }

  /** `refresh` accepts exactly the issued refresh tokens of known users that have not expired and are not revoked. */
  lemma CheckRefreshIff(st: State, token: Token)
    ensures CheckRefresh(st, token).Success? <==>
            && token in st.issued && token.kind == Refresh && st.now / 1000 < token.exp
            && !Blacklisted(st, token) && !ClearedAfter(st, token) && token.sub in st.passwords
  {
  }

  // ---------------------------------------------------------------- the writes

  /** A pair made now: an access and a refresh token of the user, under fresh jtis, living their TTLs. */
  ghost predicate MadeNow(c: Config, st: State, pair: Pair, user: User) {
    var a, r, second := pair.access, pair.refresh, st.now / 1000;
    && a.kind == Access && r.kind == Refresh && a.sub == user && r.sub == user
    && a.iat == second && r.iat == second
    && second + c.accessTtl <= a.exp <= second + c.accessTtl + 1
    && second + c.refreshTtl <= r.exp <= second + c.refreshTtl + 1
    && a.jti >= st.nextJti && r.jti >= st.nextJti && a.jti != r.jti
  }

  /** Issuing adds exactly such a pair to the tokens that verify, and changes nothing else. */
  lemma IssueMakesPair(c: Config, st: State, user: User, lateA: bool, lateR: bool)
    ensures
      var (st', pair) := IssuePair(c, st, user, lateA, lateR);
      && MadeNow(c, st, pair, user)
      && st' == st.(issued := st.issued + {pair.access, pair.refresh}, nextJti := st'.nextJti)
      && pair.access.jti < st'.nextJti && pair.refresh.jti < st'.nextJti
  {
  }

  /** A refresh that passes its check blacklists the old jti and issues a pair to its user; one that does not changes nothing. */
  lemma RefreshRotates(c: Config, st: State, token: Token, lateA: bool, lateR: bool)
    ensures
      var (st', r) := RefreshTokens(c, st, token, lateA, lateR);
      if CheckRefresh(st, token).Success? then
        && r.Success? && MadeNow(c, st, r.value, token.sub)
        && st'.issued == st.issued + {r.value.access, r.value.refresh}
        && st'.blacklist == st.blacklist[token.jti := st.now + 1000 * (c.refreshTtl + 6 * 3600)]
        && st' == st.(issued := st'.issued, nextJti := st'.nextJti, blacklist := st'.blacklist)
      else r.Failure? && st' == st
  {
  }

  /** A logout blacklists the jti of an issued, unexpired refresh token, and ignores any other. */
  lemma LogoutBlacklists(c: Config, st: State, token: Token)
    ensures Logout(c, st, token)
         == if token in st.issued && token.kind == Refresh && st.now / 1000 < token.exp then
              st.(blacklist := st.blacklist[token.jti := st.now + 1000 * (c.refreshTtl + 6 * 3600)])
            else st
  {
  }

  /**
   A reset succeeds iff its row exists, is unused and unexpired. Then the new hash is the
   password of the row's user and nobody else's password has changed, the row is used, and the
   user's sessions are cleared as of the current second. Otherwise nothing changes.
   */
  lemma ConfirmResetIff(c: Config, st: State, id: nat, hash: string)
    ensures
      var (st', r) := ConfirmReset(c, st, id, hash);
      && (r.Success? <==> id < |st.resets| && st.resets[id].usedAt.None? && st.resets[id].expiresAt > st.now)
      && (r.Failure? ==> st' == st && r.error == InvalidTokenFlow)
      && (r.Success? ==>
            var user := st.resets[id].user;
            && r.value == user
            && user in st'.passwords && st'.passwords[user] == hash
            && st'.passwords.Keys == st.passwords.Keys + {user}
            && (forall other <- st.passwords :: other != user ==> st'.passwords[other] == st.passwords[other])
            && |st'.resets| == |st.resets|
            && (forall j :: 0 <= j < |st.resets| && j != id ==> st'.resets[j] == st.resets[j])
            && st'.resets[id] == ResetRow(user, st.resets[id].expiresAt, Some(st.now))
            && GetClearedAt(st', user) == Some(st.now / 1000)
            && st'.cleared == st.cleared[user := Cleared(st.now / 1000, st.now + 1000 * (c.refreshTtl + 6 * 3600))]
            && st' == st.(passwords := st'.passwords, resets := st'.resets, cleared := st'.cleared))
  {
  }

  lemma {:induction false} ResetWaits(c: Config, st: State, events: seq<Event>, id: nat)
    requires id < |st.resets| && forall e <- events :: !(e.DoReset? && e.id == id)
    ensures id < |Run(c, st, events).resets| && Run(c, st, events).resets[id] == st.resets[id]
    decreases |events|
  {
    if events != [] {
      assert events[0] in events;
      ResetWaits(c, Next(c, st, events[0]), events[1..], id);
    }
  }

  /** A reset that a known user requested is redeemed once, within its TTL, whatever happened in between. */
  lemma RequestedResetWorks(c: Config, st: State, user: User, ttl: nat, later: seq<Event>, hash: string)
    requires user in st.passwords && forall e <- later :: !(e.DoReset? && e.id == |st.resets|)
    ensures
      var st' := Run(c, Next(c, st, RequestReset(user, ttl)), later);
      var (end, r) := ConfirmReset(c, st', |st.resets|, hash);
      && (r == Success(user) <==> st'.now < st.now + ttl)
      && (r.Success? ==> user in end.passwords && end.passwords[user] == hash)
  {
    var st1 := Next(c, st, RequestReset(user, ttl));
    ResetWaits(c, st1, later, |st.resets|);
    ConfirmResetIff(c, Run(c, st1, later), |st.resets|, hash);
  }

  // ---------------------------------------------------------------- tokens work until something ends them

  /** Keys are written for issued tokens, and clears in the past. */
  ghost predicate KeysOk(st: State) {
    && (forall jti <- st.blacklist :: jti < st.nextJti)
    && (forall user <- st.cleared :: st.cleared[user].timestamp <= st.now / 1000)
  }

  lemma {:induction false} RunKeepsKeys(c: Config, st: State, events: seq<Event>)
    requires TokensOk(c, st) && DistinctJtis(st) && KeysOk(st)
    ensures TokensOk(c, Run(c, st, events)) && DistinctJtis(Run(c, st, events)) && KeysOk(Run(c, st, events))
    decreases |events|
  {
    if events != [] {
      NextKeepsTokens(c, st, events[0]);
      RunKeepsKeys(c, Next(c, st, events[0]), events[1..]);
    }
  }

  /** The event spends the token, or clears its owner's sessions. */
  ghost predicate Ends(st: State, e: Event, token: Token) {
    || (e.DoRefresh? && e.token == token)
    || (e.DoLogout? && e.token == token)
    || (e.ClearSessions? && e.user == token.sub)
    || (e.DoReset? && e.id < |st.resets| && st.resets[e.id].user == token.sub)
  }

  ghost predicate NeverEnded(c: Config, st: State, events: seq<Event>, token: Token)
    decreases |events|
  {
    events != [] ==> !Ends(st, events[0], token) && NeverEnded(c, Next(c, st, events[0]), events[1..], token)
  }

  /** Issued to a known user, never spent, and issued no earlier than the last clear. */
  ghost predicate Intact(st: State, token: Token) {
    && token in st.issued && token.sub in st.passwords && token.jti !in st.blacklist
    && (token.sub in st.cleared ==> st.cleared[token.sub].timestamp <= token.iat)
  }

  lemma {:induction false} RunKeepsIntact(c: Config, st: State, events: seq<Event>, token: Token)
    requires TokensOk(c, st) && DistinctJtis(st) && Intact(st, token) && NeverEnded(c, st, events, token)
    ensures Intact(Run(c, st, events), token)
    decreases |events|
  {
    if events != [] {
      NextKeepsTokens(c, st, events[0]);
      RunKeepsIntact(c, Next(c, st, events[0]), events[1..], token);
    }
  }

  /**
   The tokens of a login work: after any run in which nothing ends them, the access token passes
   `verifyJwt` and the refresh token the check of `refresh`, each until its own `exp`.
   */
  lemma LoginTokensWork(
    c: Config, start: State, before: seq<Event>, user: User, lateA: bool, lateR: bool, later: seq<Event>)
    requires Initial(start) && user in Run(c, start, before).passwords
    requires
      var (st, pair) := IssuePair(c, Run(c, start, before), user, lateA, lateR);
      NeverEnded(c, st, later, pair.access) && NeverEnded(c, st, later, pair.refresh)
    ensures
      var (st, pair) := IssuePair(c, Run(c, start, before), user, lateA, lateR);
      var st' := Run(c, st, later);
      && Next(c, Run(c, start, before), Login(user, lateA, lateR)) == st
      && (st'.now / 1000 < pair.access.exp ==> VerifyJwt(st', pair.access).Success?)
      && (st'.now / 1000 < pair.refresh.exp ==> CheckRefresh(st', pair.refresh).Success?)
  {
    var st0 := Run(c, start, before);
    RunKeepsKeys(c, start, before);
    var (st, pair) := IssuePair(c, st0, user, lateA, lateR);
    NextKeepsTokens(c, st0, Login(user, lateA, lateR));
    IssueMakesPair(c, st0, user, lateA, lateR);
    RunKeepsIntact(c, st, later, pair.access);
    RunKeepsIntact(c, st, later, pair.refresh);
    VerifyJwtIff(Run(c, st, later), pair.access);
    CheckRefreshIff(Run(c, st, later), pair.refresh);
  }
}
