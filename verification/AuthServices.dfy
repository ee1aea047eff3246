/** `createAuthService` and the `verifyJwt` decorator, over the stores they use. */
module AuthServices {
  import opened Wrappers
  import opened AuthRevocation

  class AuthService {
    const config: Config
    var now: int
    var passwords: map<User, string>
    var issued: set<Token>
    var nextJti: nat
    var blacklist: map<nat, int>
    var cleared: map<User, Cleared>
    var resets: seq<ResetRow>

    ghost function Now(): State
      reads this
    {
      State(now, passwords, issued, nextJti, blacklist, cleared, resets)
    }

    constructor (config: Config, st: State)
      ensures Now() == st && this.config == config
    {
      this.config, now, passwords, issued := config, st.now, st.passwords, st.issued;
      nextJti, blacklist, cleared, resets := st.nextJti, st.blacklist, st.cleared, st.resets;
    }

    function Verify(token: Token, expected: Kind): (r: Result<Token, Error>)
      reads this
      ensures r == VerifyToken(Now(), token, expected)
    {
      if token !in issued then Failure(InvalidToken)
      else if now / 1000 >= token.exp then Failure(ExpiredToken)
      else if token.kind != expected then Failure(InvalidToken)
      else Success(token)
    }

    method AssertNotRevoked(jti: nat, iat: int, user: User) returns (error: Option<Error>)
      ensures forall t: Token :: t.jti == jti && t.iat == iat && t.sub == user ==>
                error == if Revoked(Now(), t) then Some(TokenRevoked) else None
    {
      var blacklisted := jti in blacklist && now < blacklist[jti];
      var clearedAt: Option<int> := None;
      if user in cleared && now < cleared[user].expiresAt {
        clearedAt := Some(cleared[user].timestamp);
      }
      if blacklisted {
        return Some(TokenRevoked);
      }
      if clearedAt.Some? && iat < clearedAt.value {
        return Some(TokenRevoked);
      }
      return None;
    }

    method VerifyJwt(token: Token) returns (auth: Result<Token, Error>)
      ensures auth == AuthRevocation.VerifyJwt(Now(), token)
    {
      auth := Verify(token, Access);
      if auth.Success? {
        var error := AssertNotRevoked(auth.value.jti, auth.value.iat, auth.value.sub);
        if error.Some? {
          auth := Failure(error.value);
        }
      }
    }

    method IssueTokenPair(user: User, lateA: bool, lateR: bool) returns (pair: Pair)
      modifies this`issued, this`nextJti
      ensures (Now(), pair) == IssuePair(config, old(Now()), user, lateA, lateR)
    {
      var iat := now / 1000;
      var a, r := if lateA then iat + 1 else iat, if lateR then iat + 1 else iat;
      pair := Pair(Token(Access, user, nextJti, iat, a + config.accessTtl),
                   Token(Kind.Refresh, user, nextJti + 1, iat, r + config.refreshTtl));
      issued := issued + {pair.access, pair.refresh};
      nextJti := nextJti + 2;
    }

    method Refresh(token: Token, lateA: bool, lateR: bool) returns (result: Result<Pair, Error>)
      modifies this
      ensures (Now(), result) == RefreshTokens(config, old(Now()), token, lateA, lateR)
    {
      var payload := Verify(token, Kind.Refresh);
      if payload.Failure? {
        return Failure(payload.error);
      }
      var error := AssertNotRevoked(payload.value.jti, payload.value.iat, payload.value.sub);
      if error.Some? {
        return Failure(error.value);
      }
      if payload.value.sub !in passwords {
        return Failure(InvalidToken);
      }
      blacklist := blacklist[payload.value.jti := now + 1000 * BlacklistTtl(config)];
      var pair := IssueTokenPair(payload.value.sub, lateA, lateR);
      return Success(pair);
    }

    method Logout(token: Token)
      modifies this`blacklist
      ensures Now() == AuthRevocation.Logout(config, old(Now()), token)
      ensures CheckRefresh(Now(), token).Failure?
    {
      var payload := Verify(token, Kind.Refresh);
      if payload.Success? {
        blacklist := blacklist[payload.value.jti := now + 1000 * BlacklistTtl(config)];
      }
    }

    method ClearSessions(user: User)
      modifies this`cleared
      ensures Now() == SetClearedAt(config, old(Now()), user)
    {
      cleared := cleared[user := Cleared(now / 1000, now + 1000 * BlacklistTtl(config))];
    }

    /** The store's guard: true iff the row was not used yet, which it is from now on. */
    method MarkUsed(id: nat) returns (marked: bool)
      requires id < |resets|
      modifies this`resets
      ensures marked <==> old(resets)[id].usedAt.None?
      ensures resets == if marked then old(resets)[id := old(resets)[id].(usedAt := Some(now))] else old(resets)
    {
      marked := resets[id].usedAt.None?;
      if marked { resets := resets[id := resets[id].(usedAt := Some(now))]; }
    }

    method ConfirmPasswordReset(id: nat, hash: string) returns (result: Result<User, Error>)
      modifies this
      ensures (Now(), result) == ConfirmReset(config, old(Now()), id, hash)
    {
      if id >= |resets| || resets[id].usedAt.Some? || resets[id].expiresAt <= now {
        return Failure(InvalidTokenFlow);
      }
      var row := resets[id];
      var used := MarkUsed(id);
      if !used {
        return Failure(InvalidTokenFlow);
      }
      passwords := passwords[row.user := hash];
      ClearSessions(row.user);
      return Success(row.user);
    }
  }
}
