/**
 `refresh` and `confirmPasswordReset` split at their awaits, any number of calls in flight,
 among logins, logouts, clears, reset requests and the passing of time.
 */
module AuthSessions {
  import opened Wrappers
  import opened AuthRevocation

  /** Where one call is. A reset is known by the row that its token's hash finds. */
  datatype Session =
    | RefreshBegun(token: Token)
    | RefreshChecked(token: Token)
    | RefreshSpent(token: Token)
    | RefreshDone(token: Token, pair: Result<Pair, Error>)
    | ResetBegun(id: nat, hash: string)
    | ResetFound(id: nat, hash: string)
    | ResetMarked(id: nat, hash: string)
    | ResetHashed(id: nat, hash: string)
    | ResetDone(id: nat, user: Result<User, Error>)

  datatype World = World(auth: State, sessions: map<nat, Session>)

  datatype Event =
    | StartRefresh(sid: nat, token: Token)
    | StartReset(sid: nat, id: nat, hash: string)
    | Advance(sid: nat, lateA: bool, lateR: bool)
    | Other(event: AuthRevocation.Event)

  function Put(w: World, sid: nat, s: Session): World {
    w.(sessions := w.sessions[sid := s])
  }

  /** The two guards on a row before the gate: it exists, unused and unexpired. */
  predicate Redeemable(st: State, id: nat) {
    id < |st.resets| && st.resets[id].usedAt.None? && st.resets[id].expiresAt > st.now
  }

  /** `markUsed`: sets `usedAt` only if it is NULL, and says whether it did. */
  function MarkUsed(st: State, id: nat): (State, bool) {
    if id < |st.resets| && st.resets[id].usedAt.None?
    then (st.(resets := st.resets[id := st.resets[id].(usedAt := Some(st.now))]), true)
    else (st, false)
  }

  /** The next store operation of a call. */
  function Step(c: Config, w: World, sid: nat, lateA: bool, lateR: bool): World
    requires sid in w.sessions
  {
    var st := w.auth;
    match w.sessions[sid]
    case RefreshBegun(token) =>
      var checked := CheckRefresh(st, token);
      Put(w, sid, if checked.Failure? then RefreshDone(token, Failure(checked.error)) else RefreshChecked(token))
    case RefreshChecked(token) => Put(World(BlacklistToken(c, st, token.jti), w.sessions), sid, RefreshSpent(token))
    case RefreshSpent(token) =>
      var (st', pair) := IssuePair(c, st, token.sub, lateA, lateR);
      Put(World(st', w.sessions), sid, RefreshDone(token, Success(pair)))
    case ResetBegun(id, hash) =>
      Put(w, sid, if Redeemable(st, id) then ResetFound(id, hash) else ResetDone(id, Failure(InvalidTokenFlow)))
    case ResetFound(id, hash) =>
      var (st', marked) := MarkUsed(st, id);
      if marked then Put(World(st', w.sessions), sid, ResetMarked(id, hash))
      else Put(w, sid, ResetDone(id, Failure(InvalidTokenFlow)))
    case ResetMarked(id, hash) =>
      if id >= |st.resets| then w
      else Put(World(st.(passwords := st.passwords[st.resets[id].user := hash]), w.sessions), sid, ResetHashed(id, hash))
    case ResetHashed(id, _) =>
      if id >= |st.resets| then w
      else
        var user := st.resets[id].user;
        Put(World(SetClearedAt(c, st, user), w.sessions), sid, ResetDone(id, Success(user)))
    case _ => w
  }

  /** Refreshes and resets come as sessions, the other calls as one step. */
  function Next(c: Config, w: World, e: Event): World {
    match e
    case StartRefresh(sid, token) => if sid in w.sessions then w else Put(w, sid, RefreshBegun(token))
    case StartReset(sid, id, hash) => if sid in w.sessions then w else Put(w, sid, ResetBegun(id, hash))
    case Advance(sid, lateA, lateR) => if sid in w.sessions then Step(c, w, sid, lateA, lateR) else w
    case Other(event) =>
      if event.DoRefresh? || event.DoReset? then w else w.(auth := AuthRevocation.Next(c, w.auth, event))
  }

  /** The world after the first `n` events. */
  function After(c: Config, w: World, events: seq<Event>, n: nat): World
    requires n <= |events|
  {
    if n == 0 then w else Next(c, After(c, w, events, n - 1), events[n - 1])
  }

  // ---------------------------------------------------------------- what every run keeps

  /** A refresh that has passed its check holds an issued refresh token. */
  ghost predicate SessionOk(st: State, s: Session) {
    s.RefreshChecked? || s.RefreshSpent? ==> s.token in st.issued && s.token.kind.Refresh?
  }

  ghost predicate SessionsOk(w: World) {
    forall sid <- w.sessions :: SessionOk(w.auth, w.sessions[sid])
  }

  ghost predicate Inv(c: Config, w: World) {
    TokensOk(c, w.auth) && DistinctJtis(w.auth) && SessionsOk(w)
  }

  lemma IssueKeeps(c: Config, st: State, user: User, lateA: bool, lateR: bool)
    requires TokensOk(c, st) && DistinctJtis(st)
    ensures
      var st' := IssuePair(c, st, user, lateA, lateR).0;
      TokensOk(c, st') && DistinctJtis(st') && st.issued <= st'.issued
  {
  }

  lemma IssuedGrows(c: Config, st: State, e: AuthRevocation.Event)
    ensures st.issued <= AuthRevocation.Next(c, st, e).issued && st.now <= AuthRevocation.Next(c, st, e).now
  {
  }

  ghost predicate TokensKept(c: Config, st: State, st': State) {
    TokensOk(c, st') && DistinctJtis(st') && st.issued <= st'.issued && st.now <= st'.now
  }

  lemma StepTokens(c: Config, w: World, e: Event)
    requires TokensOk(c, w.auth) && DistinctJtis(w.auth)
    ensures TokensKept(c, w.auth, Next(c, w, e).auth)
  {
    if e.Other? {
      NextKeepsTokens(c, w.auth, e.event);
      IssuedGrows(c, w.auth, e.event);
    }
  }

  /** A call reaches its check's far side only with an issued refresh token. */
  lemma OwnSessionOk(c: Config, w: World, sid: nat, lateA: bool, lateR: bool)
    requires sid in w.sessions && SessionOk(w.auth, w.sessions[sid])
    ensures
      var w' := Step(c, w, sid, lateA, lateR);
      && w'.sessions.Keys == w.sessions.Keys
      && SessionOk(w.auth, w'.sessions[sid])
      && forall k <- w.sessions :: k != sid ==> w'.sessions[k] == w.sessions[k]
  {
  }

  lemma NextKeeps(c: Config, w: World, e: Event)
    requires Inv(c, w)
    ensures Inv(c, Next(c, w, e))
  {
    var w' := Next(c, w, e);
    StepTokens(c, w, e);
    if e.Advance? && e.sid in w.sessions {
      assert SessionOk(w.auth, w.sessions[e.sid]);
      OwnSessionOk(c, w, e.sid, e.lateA, e.lateR);
    }
    forall sid <- w'.sessions ensures SessionOk(w'.auth, w'.sessions[sid]) {
      assert sid in w.sessions ==> SessionOk(w.auth, w.sessions[sid]);
    }
  }

  lemma {:induction false} RunKeeps(c: Config, w: World, events: seq<Event>, n: nat)
    requires Inv(c, w) && n <= |events|
    ensures Inv(c, After(c, w, events, n))
  {
    if n > 0 {
      RunKeeps(c, w, events, n - 1);
      NextKeeps(c, After(c, w, events, n - 1), events[n - 1]);
    }
  }

  // ---------------------------------------------------------------- a second pair for one refresh token

  /** The call has passed its check of the token, or is past everything. */
  predicate PastCheck(w: World, sid: nat, token: Token) {
    && sid in w.sessions
    && var s := w.sessions[sid];
       || s == RefreshChecked(token) || s == RefreshSpent(token)
       || (s.RefreshDone? && s.token == token && s.pair.Success?)
  }

  lemma SpentStays(c: Config, w: World, e: Event, token: Token)
    requires Inv(c, w) && Spent(w.auth, token) && token in w.auth.issued && token.kind.Refresh?
    ensures Spent(Next(c, w, e).auth, token)
  {
    KeyOutlives(c, w.auth.now);
    if e.Other? {
      NextKeepsRevocations(c, w.auth, e.event, token, 0, Seconds(w.auth.now));
    }
  }

  /** Once the token is spent, no call passes its check, and none that has passed is stopped. */
  lemma PastCheckFixed(c: Config, w: World, e: Event, sid: nat, token: Token)
    requires Inv(c, w) && Spent(w.auth, token)
    ensures PastCheck(Next(c, w, e), sid, token) <==> PastCheck(w, sid, token)
  {
  }

  lemma {:induction false} PastCheckFrom(
    c: Config, w: World, events: seq<Event>, i: nat, n: nat, sid: nat, token: Token)
    requires Inv(c, w) && i <= n <= |events|
    requires var st := After(c, w, events, i).auth; Spent(st, token) && token in st.issued && token.kind.Refresh?
    ensures
      var w' := After(c, w, events, n);
      && Spent(w'.auth, token) && token in w'.auth.issued
      && (PastCheck(w', sid, token) <==> PastCheck(After(c, w, events, i), sid, token))
    decreases n
  {
    if i < n {
      PastCheckFrom(c, w, events, i, n - 1, sid, token);
      var w1 := After(c, w, events, n - 1);
      RunKeeps(c, w, events, n - 1);
      SpentStays(c, w1, events[n - 1], token);
      StepTokens(c, w1, events[n - 1]);
      PastCheckFixed(c, w1, events[n - 1], sid, token);
    }
  }

  /**
   Exactly when a refresh token yields another pair: event `i` being the blacklist write of a
   call, another call with the same token ends with a pair if and only if it had passed its
   check before that write.
   */
  lemma SecondPairIff(c: Config, w: World, events: seq<Event>, i: nat, n: nat, b: nat, token: Token)
    requires TokensOk(c, w.auth) && DistinctJtis(w.auth) && w.sessions == map[]
    requires i < n <= |events| && events[i].Advance? && events[i].sid != b
    requires
      var before := After(c, w, events, i);
      events[i].sid in before.sessions && before.sessions[events[i].sid] == RefreshChecked(token)
    requires
      var after := After(c, w, events, n);
      b in after.sessions && after.sessions[b].RefreshDone? && after.sessions[b].token == token
    ensures
      After(c, w, events, n).sessions[b].pair.Success? <==> PastCheck(After(c, w, events, i), b, token)
  {
    RunKeeps(c, w, events, i);
    PastCheckFrom(c, w, events, i + 1, n, b, token);
  }

  lemma AfterStep(c: Config, w: World, events: seq<Event>, n: nat, next: World)
    requires n < |events| && Next(c, After(c, w, events, n), events[n]) == next
    ensures After(c, w, events, n + 1) == next
  {
  }

  function Go(sid: nat): Event { Advance(sid, false, false) }

  function Race(token: Token): seq<Event> {
    [StartRefresh(0, token), StartRefresh(1, token), Go(0), Go(1), Go(0), Go(0), Go(1), Go(1)]
  }

  lemma RaceChecks(c: Config, st: State, token: Token)
    requires CheckRefresh(st, token).Success?
    ensures After(c, World(st, map[]), Race(token), 4)
         == World(st, map[0 := RefreshChecked(token), 1 := RefreshChecked(token)])
  {
    var w := World(st, map[]);
    AfterStep(c, w, Race(token), 0, World(st, map[0 := RefreshBegun(token)]));
    AfterStep(c, w, Race(token), 1, World(st, map[0 := RefreshBegun(token), 1 := RefreshBegun(token)]));
    AfterStep(c, w, Race(token), 2, World(st, map[0 := RefreshChecked(token), 1 := RefreshBegun(token)]));
    AfterStep(c, w, Race(token), 3, World(st, map[0 := RefreshChecked(token), 1 := RefreshChecked(token)]));
  }

  /** A run that shows it, for every token that passes its check: both checks first, and two different pairs. */
  lemma RefreshRace(c: Config, st: State, token: Token)
    requires CheckRefresh(st, token).Success?
    ensures
      var end := After(c, World(st, map[]), Race(token), 8).sessions;
      && 0 in end && 1 in end
      && end[0].RefreshDone? && end[1].RefreshDone? && end[0].token == token && end[1].token == token
      && end[0].pair.Success? && end[1].pair.Success? && end[0].pair.value != end[1].pair.value
  {
    var w := World(st, map[]);
    RaceChecks(c, st, token);
    var st1 := BlacklistToken(c, st, token.jti);
    AfterStep(c, w, Race(token), 4, World(st1, map[0 := RefreshSpent(token), 1 := RefreshChecked(token)]));
    var (st2, first) := IssuePair(c, st1, token.sub, false, false);
    var done := RefreshDone(token, Success(first));
    AfterStep(c, w, Race(token), 5, World(st2, map[0 := done, 1 := RefreshChecked(token)]));
    var st3 := BlacklistToken(c, st2, token.jti);
    AfterStep(c, w, Race(token), 6, World(st3, map[0 := done, 1 := RefreshSpent(token)]));
    var (st4, second) := IssuePair(c, st3, token.sub, false, false);
    AfterStep(c, w, Race(token), 7, World(st4, map[0 := done, 1 := RefreshDone(token, Success(second))]));
  }

  // ---------------------------------------------------------------- one redemption per reset row

  /** The call went through the gate of reset row `id`. */
  predicate PastGate(w: World, sid: nat, id: nat) {
    && sid in w.sessions
    && var s := w.sessions[sid];
       && (s.ResetMarked? || s.ResetHashed? || (s.ResetDone? && s.user.Success?))
       && s.id == id
  }

  /** A call past the gate left its row used, and is the only one past it. */
  ghost predicate GateOk(w: World) {
    && (forall a: nat, id: nat :: PastGate(w, a, id) ==> id < |w.auth.resets| && w.auth.resets[id].usedAt.Some?)
    && (forall a: nat, b: nat, id: nat :: PastGate(w, a, id) && PastGate(w, b, id) ==> a == b)
  }

  /** Reset rows are only ever added and used. */
  ghost predicate ResetsEvolve(st: State, st': State) {
    && |st.resets| <= |st'.resets|
    && forall id: nat :: id < |st.resets| && st.resets[id].usedAt.Some? ==> st'.resets[id].usedAt.Some?
  }

  lemma ResetsStep(c: Config, w: World, e: Event)
    ensures ResetsEvolve(w.auth, Next(c, w, e).auth)
  {
  }

  /** Only a call that finds its row unused goes through the gate. */
  lemma GateStep(c: Config, w: World, e: Event, sid: nat, id: nat)
    requires PastGate(Next(c, w, e), sid, id) && !PastGate(w, sid, id)
    ensures e.Advance? && e.sid == sid
    ensures id < |w.auth.resets| && w.auth.resets[id].usedAt.None?
    ensures id < |Next(c, w, e).auth.resets| && Next(c, w, e).auth.resets[id].usedAt.Some?
  {
  }

  lemma GateKeeps(c: Config, w: World, e: Event)
    requires GateOk(w)
    ensures GateOk(Next(c, w, e))
  {
    var w' := Next(c, w, e);
    ResetsStep(c, w, e);
    forall a: nat, id: nat | PastGate(w', a, id) && !PastGate(w, a, id)
      ensures id < |w.auth.resets| && w.auth.resets[id].usedAt.None? && e.Advance? && e.sid == a
      ensures id < |w'.auth.resets| && w'.auth.resets[id].usedAt.Some?
    {
      GateStep(c, w, e, a, id);
    }
  }

  lemma {:induction false} RunGateOk(c: Config, w: World, events: seq<Event>, n: nat)
    requires GateOk(w) && n <= |events|
    ensures GateOk(After(c, w, events, n))
  {
    if n > 0 {
      RunGateOk(c, w, events, n - 1);
      GateKeeps(c, After(c, w, events, n - 1), events[n - 1]);
    }
  }

  /** Over every interleaving, two different calls never both redeem one reset row. */
  lemma ResetOnce(c: Config, st: State, events: seq<Event>, a: nat, b: nat)
    requires a != b
    ensures
      var sessions := After(c, World(st, map[]), events, |events|).sessions;
      (a in sessions && b in sessions && sessions[a].ResetDone? && sessions[b].ResetDone?
       && sessions[a].user.Success? && sessions[b].user.Success?) ==> sessions[a].id != sessions[b].id
  {
    var w := After(c, World(st, map[]), events, |events|);
    RunGateOk(c, World(st, map[]), events, |events|);
    if a in w.sessions && b in w.sessions && w.sessions[a].ResetDone? && w.sessions[b].ResetDone?
       && w.sessions[a].user.Success? && w.sessions[b].user.Success? {
      assert PastGate(w, a, w.sessions[a].id) && PastGate(w, b, w.sessions[b].id);
    }
  }

  /**
   A call that reaches `ResetHashed` has stored its hash as the password of its row's user, and
   nobody else's; the row is the one it found.
   */
  lemma HashedIsStored(c: Config, w: World, e: Event, sid: nat)
    requires sid in Next(c, w, e).sessions && Next(c, w, e).sessions[sid].ResetHashed?
    requires sid in w.sessions && !w.sessions[sid].ResetHashed?
    ensures
      var w', s := Next(c, w, e), Next(c, w, e).sessions[sid];
      && w.sessions[sid] == ResetMarked(s.id, s.hash)
      && s.id < |w'.auth.resets|
      && var user := w'.auth.resets[s.id].user;
         && user in w'.auth.passwords && w'.auth.passwords[user] == s.hash
         && w'.auth.passwords.Keys == w.auth.passwords.Keys + {user}
         && forall other <- w.auth.passwords :: other != user ==> w'.auth.passwords[other] == w.auth.passwords[other]
  {
  }

  /** A call that ends in success has cleared the sessions of its row's user as of the current second. */
  lemma DoneIsCleared(c: Config, w: World, e: Event, sid: nat)
    requires sid in Next(c, w, e).sessions && Next(c, w, e).sessions[sid].ResetDone?
    requires Next(c, w, e).sessions[sid].user.Success?
    requires sid in w.sessions && !w.sessions[sid].ResetDone?
    ensures
      var w', s := Next(c, w, e), Next(c, w, e).sessions[sid];
      && w.sessions[sid].ResetHashed? && w.sessions[sid].id == s.id
      && s.id < |w'.auth.resets| && w'.auth.resets[s.id].user == s.user.value
      && s.user.value in w'.auth.cleared
      && w'.auth.cleared[s.user.value]
      == Cleared(w.auth.now / 1000, w.auth.now + 1000 * (c.refreshTtl + 6 * 3600))
  {
  }

  // ---------------------------------------------------------------- one call alone

  /** Left alone, the store operations of one refresh add up to the atomic one ... */
  lemma SoloRefresh(c: Config, st: State, token: Token, lateA: bool, lateR: bool)
    ensures
      var go := Advance(0, lateA, lateR);
      var w := After(c, World(st, map[]), [StartRefresh(0, token), go, go, go], 4);
      var (st', result) := RefreshTokens(c, st, token, lateA, lateR);
      w == World(st', map[0 := RefreshDone(token, result)])
  {
    var go := Advance(0, lateA, lateR);
    var w, events := World(st, map[]), [StartRefresh(0, token), go, go, go];
    var w1 := Put(w, 0, RefreshBegun(token));
    AfterStep(c, w, events, 0, w1);
    var w2 := Next(c, w1, go);
    AfterStep(c, w, events, 1, w2);
    var w3 := Next(c, w2, go);
    AfterStep(c, w, events, 2, w3);
    AfterStep(c, w, events, 3, Next(c, w3, go));
  }

  /** ... and those of one reset. */
  lemma SoloReset(c: Config, st: State, id: nat, hash: string)
    ensures
      var w := After(c, World(st, map[]), [StartReset(0, id, hash), Go(0), Go(0), Go(0), Go(0)], 5);
      var (st', result) := ConfirmReset(c, st, id, hash);
      w == World(st', map[0 := ResetDone(id, result)])
  {
    var w, events := World(st, map[]), [StartReset(0, id, hash), Go(0), Go(0), Go(0), Go(0)];
    AfterStep(c, w, events, 0, Put(w, 0, ResetBegun(id, hash)));
    if Redeemable(st, id) {
      AfterStep(c, w, events, 1, Put(w, 0, ResetFound(id, hash)));
      SoloRedeems(c, w, events, id, hash);
    } else {
      var refused := Put(w, 0, ResetDone(id, Failure(InvalidTokenFlow)));
      AfterStep(c, w, events, 1, refused);
      AfterStep(c, w, events, 2, refused);
      AfterStep(c, w, events, 3, refused);
      AfterStep(c, w, events, 4, refused);
    }
  }

  lemma SoloRedeems(c: Config, w: World, events: seq<Event>, id: nat, hash: string)
    requires events == [StartReset(0, id, hash), Go(0), Go(0), Go(0), Go(0)] && Redeemable(w.auth, id)
    requires After(c, w, events, 2) == World(w.auth, map[0 := ResetFound(id, hash)])
    ensures
      var (st', result) := ConfirmReset(c, w.auth, id, hash);
      After(c, w, events, 5) == World(st', map[0 := ResetDone(id, result)])
  {
    var user := w.auth.resets[id].user;
    var used := MarkUsed(w.auth, id).0;
    AfterStep(c, w, events, 2, World(used, map[0 := ResetMarked(id, hash)]));
    var hashed := used.(passwords := used.passwords[user := hash]);
    AfterStep(c, w, events, 3, World(hashed, map[0 := ResetHashed(id, hash)]));
    AfterStep(c, w, events, 4, World(SetClearedAt(c, hashed, user), map[0 := ResetDone(id, Success(user))]));
  }
}
