/** One-time codes: `requestOtp` and `verifyOtp`, interleaved at every store operation, and each as one step. */
module OtpCodes {
  import opened Wrappers

  type Id = nat

  /** Codes are hashed injectively. */
  datatype Digest = Sha256(code: string)

  /** A row's id is its index, so the freshest row of a pair is its last one. */
  datatype Row = Row(
    user: Id, purpose: string, codeHash: Digest, expiresAt: int, usedAt: Option<int>, attempts: nat)

  /** What happened to a row: hash comparisons made, and codes that redeemed it. */
  datatype History = History(compared: nat, redeemed: seq<string>)

  datatype Error = InvalidTokenFlow | OtpLockedOut

  /** `Locking` and `Redeeming` are about to call `markUsed`. */
  datatype Session =
    | VerifyBegun(user: Id, purpose: string, code: string)
    | VerifyFound(id: Id, row: Row, code: string)
    | Locking(id: Id)
    | Redeeming(id: Id, code: string)
    | RequestBegun(user: Id, purpose: string, code: string, ttl: int)
    | RequestFound(existing: Option<Id>, user: Id, purpose: string, code: string, ttl: int)
    | RequestReady(user: Id, purpose: string, code: string, ttl: int)
    | Finished(result: Result<(), Error>)

  datatype State = State(now: int, rows: seq<Row>, sessions: map<Id, Session>, history: seq<History>)

  datatype Event =
    | StartVerify(sid: Id, user: Id, purpose: string, code: string)
    | StartRequest(sid: Id, user: Id, purpose: string, code: string, ttl: int)
    | Advance(sid: Id)
    | Tick(ms: nat)

  // ---------------------------------------------------------------- the store

  predicate Active(row: Row, user: Id, purpose: string) {
    row.user == user && row.purpose == purpose && row.usedAt.None?
  }

  /** `findActive`: the freshest unused code of the pair. */
  function FindActive(rows: seq<Row>, user: Id, purpose: string): (r: Option<Id>)
    ensures r.Some? ==> r.value < |rows| && Active(rows[r.value], user, purpose)
    ensures r.Some? ==> forall j: Id :: r.value < j < |rows| ==> !Active(rows[j], user, purpose)
    ensures r.None? ==> forall j: Id :: j < |rows| ==> !Active(rows[j], user, purpose)
  {
    if rows == [] then None
    else
      var last := |rows| - 1;
      if Active(rows[last], user, purpose) then Some(last) else FindActive(rows[..last], user, purpose)
  }

  /** `markUsed`: sets `used_at` only if it is NULL, and says whether it did. */
  function MarkUsed(rows: seq<Row>, id: Id, now: int): (seq<Row>, bool)
    requires id < |rows|
  {
    if rows[id].usedAt.None? then (rows[id := rows[id].(usedAt := Some(now))], true) else (rows, false)
  }

  function Increment(rows: seq<Row>, id: Id): seq<Row>
    requires id < |rows|
  {
    rows[id := rows[id].(attempts := rows[id].attempts + 1)]
  }

  function Fresh(user: Id, purpose: string, code: string, expiresAt: int): Row {
    Row(user, purpose, Sha256(code), expiresAt, None, 0)
  }

  // ---------------------------------------------------------------- one store operation at a time

  function Put(st: State, sid: Id, s: Session): State { st.(sessions := st.sessions[sid := s]) }

  /** What `verifyOtp` does with the incremented count, up to its next store operation. */
  function Judge(max: nat, id: Id, row: Row, code: string, attempts: nat): Session {
    if attempts > max then Locking(id)
    else if row.codeHash != Sha256(code) then
      if attempts >= max then Locking(id) else Finished(Failure(InvalidTokenFlow))
    else Redeeming(id, code)
  }

  function Step(max: nat, st: State, sid: Id): (r: State)
    requires sid in st.sessions && |st.history| == |st.rows|
    ensures |r.history| == |r.rows| && r.sessions.Keys == st.sessions.Keys
  {
    var rows := st.rows;
    match st.sessions[sid]
    case VerifyBegun(user, purpose, code) =>
      var active := FindActive(rows, user, purpose);
      if active.None? || rows[active.value].expiresAt <= st.now then
        Put(st, sid, Finished(Failure(InvalidTokenFlow)))
      else Put(st, sid, VerifyFound(active.value, rows[active.value], code))
    case VerifyFound(id, row, code) =>
      if id >= |rows| then st
      else
        var attempts := rows[id].attempts + 1;
        var h := st.history[id];
        var h' := if attempts <= max then h.(compared := h.compared + 1) else h;
        Put(st.(rows := Increment(rows, id), history := st.history[id := h']),
            sid, Judge(max, id, row, code, attempts))
    case Locking(id) =>
      if id >= |rows| then st
      else Put(st.(rows := MarkUsed(rows, id, st.now).0), sid, Finished(Failure(OtpLockedOut)))
    case Redeeming(id, code) =>
      if id >= |rows| then st
      else
        var (rows', marked) := MarkUsed(rows, id, st.now);
        if !marked then Put(st, sid, Finished(Failure(InvalidTokenFlow)))
        else
          var h := st.history[id];
          Put(st.(rows := rows', history := st.history[id := h.(redeemed := h.redeemed + [code])]),
              sid, Finished(Success(())))
    case RequestBegun(user, purpose, code, ttl) =>
      Put(st, sid, RequestFound(FindActive(rows, user, purpose), user, purpose, code, ttl))
    case RequestFound(existing, user, purpose, code, ttl) =>
      var ready := RequestReady(user, purpose, code, ttl);
      if existing.Some? && existing.value < |rows| then
        Put(st.(rows := MarkUsed(rows, existing.value, st.now).0), sid, ready)
      else Put(st, sid, ready)
    case RequestReady(user, purpose, code, ttl) =>
      Put(st.(rows := rows + [Fresh(user, purpose, code, st.now + ttl)], history := st.history + [History(0, [])]),
          sid, Finished(Success(())))
    case Finished(_) => st
  }

  function Next(max: nat, st: State, e: Event): (r: State)
    requires |st.history| == |st.rows|
    ensures |r.history| == |r.rows|
  {
    match e
    case StartVerify(sid, user, purpose, code) =>
      if sid in st.sessions then st else Put(st, sid, VerifyBegun(user, purpose, code))
    case StartRequest(sid, user, purpose, code, ttl) =>
      if sid in st.sessions then st else Put(st, sid, RequestBegun(user, purpose, code, ttl))
    case Advance(sid) => if sid in st.sessions then Step(max, st, sid) else st
    case Tick(ms) => st.(now := st.now + ms)
  }

  function Run(max: nat, st: State, events: seq<Event>): State
    requires |st.history| == |st.rows|
    decreases |events|
  {
    if events == [] then st else Run(max, Next(max, st, events[0]), events[1..])
  }

  // ---------------------------------------------------------------- the invariant

  function Min(a: nat, b: nat): nat { if a < b then a else b }

  ghost predicate RowOk(max: nat, row: Row, h: History) {
    && h.compared == Min(row.attempts, max)
    && |h.redeemed| <= 1
    && (row.usedAt.None? ==> h.redeemed == [])
    && (forall code <- h.redeemed :: row.codeHash == Sha256(code))
  }

  ghost predicate SessionOk(rows: seq<Row>, s: Session) {
    && (s.VerifyFound? ==> s.id < |rows| && s.row.codeHash == rows[s.id].codeHash)
    && (s.Locking? ==> s.id < |rows|)
    && (s.Redeeming? ==> s.id < |rows| && rows[s.id].codeHash == Sha256(s.code))
    && (s.RequestFound? && s.existing.Some? ==> s.existing.value < |rows|)
  }

  ghost predicate Inv(max: nat, st: State) {
    && |st.history| == |st.rows|
    && (forall i: Id :: i < |st.rows| ==> RowOk(max, st.rows[i], st.history[i]))
    && (forall k <- st.sessions :: SessionOk(st.rows, st.sessions[k]))
  }

  /** No code issued, no call in progress. */
  ghost predicate Initial(st: State) {
    st.rows == [] && st.history == [] && st.sessions == map[]
  }

  /** Rows are appended and worked on, but keep their owner and code; a used row stays used and redeems no more. */
  ghost predicate Evolves(st: State, st': State) {
    && |st.history| == |st.rows| <= |st'.rows| == |st'.history|
    && forall i: Id :: i < |st.rows| ==>
         && st'.rows[i].codeHash == st.rows[i].codeHash
         && st'.rows[i].user == st.rows[i].user && st'.rows[i].purpose == st.rows[i].purpose
         && (st.rows[i].usedAt.Some? ==>
               st'.rows[i].usedAt == st.rows[i].usedAt && st'.history[i].redeemed == st.history[i].redeemed)
  }

  lemma PutKeeps(max: nat, st: State, sid: Id, s: Session)
    requires Inv(max, st) && SessionOk(st.rows, s)
    ensures Inv(max, Put(st, sid, s)) && Evolves(st, Put(st, sid, s))
  {
  }

  lemma VerifyStepKeeps(max: nat, st: State, sid: Id)
    requires Inv(max, st) && sid in st.sessions
    requires var s := st.sessions[sid]; (s.VerifyFound? || s.Locking? || s.Redeeming?)
    ensures Inv(max, Step(max, st, sid)) && Evolves(st, Step(max, st, sid))
  {
    var s, st' := st.sessions[sid], Step(max, st, sid);
    assert SessionOk(st.rows, s);
    assert RowOk(max, st.rows[s.id], st.history[s.id]);
    assert st.history == st.history[s.id := st.history[s.id]] && st.rows == st.rows[s.id := st.rows[s.id]];
  }

  lemma RequestStepKeeps(max: nat, st: State, sid: Id)
    requires Inv(max, st) && sid in st.sessions
    requires var s := st.sessions[sid]; (s.RequestFound? || s.RequestReady?)
    ensures Inv(max, Step(max, st, sid)) && Evolves(st, Step(max, st, sid))
  {
    var s, st' := st.sessions[sid], Step(max, st, sid);
    assert SessionOk(st.rows, s);
    if s.RequestReady? {
      forall i: Id | i < |st'.rows| ensures RowOk(max, st'.rows[i], st'.history[i]) {
        assert i < |st.rows| ==> RowOk(max, st.rows[i], st.history[i]);
      }
      forall k <- st'.sessions ensures SessionOk(st'.rows, st'.sessions[k]) {
        assert k != sid ==> SessionOk(st.rows, st.sessions[k]);
      }
    } else if s.existing.Some? {
      var id := s.existing.value;
      assert RowOk(max, st.rows[id], st.history[id]);
      assert st.history == st.history[id := st.history[id]] && st.rows == st.rows[id := st.rows[id]];
    } else {
      PutKeeps(max, st, sid, st'.sessions[sid]);
    }
  }

  lemma NextKeeps(max: nat, st: State, e: Event)
    requires Inv(max, st)
    ensures Inv(max, Next(max, st, e)) && Evolves(st, Next(max, st, e))
  {
    match e {
      case StartVerify(sid, user, purpose, code) =>
        if sid !in st.sessions { PutKeeps(max, st, sid, VerifyBegun(user, purpose, code)); }
      case StartRequest(sid, user, purpose, code, ttl) =>
        if sid !in st.sessions { PutKeeps(max, st, sid, RequestBegun(user, purpose, code, ttl)); }
      case Advance(sid) =>
        if sid in st.sessions {
          var s := st.sessions[sid];
          if s.VerifyFound? || s.Locking? || s.Redeeming? {
            VerifyStepKeeps(max, st, sid);
          } else if s.RequestFound? || s.RequestReady? {
            RequestStepKeeps(max, st, sid);
          } else if !s.Finished? {
            PutKeeps(max, st, sid, Step(max, st, sid).sessions[sid]);
          }
        }
      case Tick(_) =>
    }
  }

  lemma {:induction false} RunKeeps(max: nat, st: State, events: seq<Event>)
    requires Inv(max, st)
    ensures Inv(max, Run(max, st, events)) && Evolves(st, Run(max, st, events))
    decreases |events|
  {
    if events != [] {
      NextKeeps(max, st, events[0]);
      RunKeeps(max, Next(max, st, events[0]), events[1..]);
    }
  }

  // ---------------------------------------------------------------- the theorems

  /**
   Over every interleaving of any number of calls, a code row sees at most OTP_MAX_ATTEMPTS
   hash comparisons and at most one success, and a success presented the code that was issued.
   */
  lemma OtpSafety(max: nat, st: State, events: seq<Event>, id: Id)
    requires Initial(st) && id < |Run(max, st, events).rows|
    ensures
      var st' := Run(max, st, events);
      && |st'.history| == |st'.rows|
      && st'.history[id].compared <= max
      && |st'.history[id].redeemed| <= 1
      && (forall code <- st'.history[id].redeemed :: Sha256(code) == st'.rows[id].codeHash)
  {
    RunKeeps(max, st, events);
  }

  /** After a lockout has called `markUsed`, no later success on that row, whatever else is in flight. */
  lemma NoSuccessAfterLockout(max: nat, st: State, before: seq<Event>, sid: Id, after: seq<Event>)
    requires Initial(st)
    requires
      var st1 := Run(max, st, before);
      sid in st1.sessions && st1.sessions[sid].Locking?
    ensures
      var st1 := Run(max, st, before);
      var id := st1.sessions[sid].id;
      var st2 := Run(max, st, before + [Advance(sid)]);
      var st3 := Run(max, st, before + [Advance(sid)] + after);
      && id < |st2.history| == |st2.rows| <= |st3.rows| == |st3.history|
      && st2.rows[id].usedAt.Some?
      && st3.history[id].redeemed == st2.history[id].redeemed
  {
    RunKeeps(max, st, before);
    var st1 := Run(max, st, before);
    assert SessionOk(st1.rows, st1.sessions[sid]);
    RunAppend(max, st, before, [Advance(sid)]);
    RunAppend(max, st, before + [Advance(sid)], after);
    var st2 := Next(max, st1, Advance(sid));
    NextKeeps(max, st1, Advance(sid));
    assert Run(max, st1, [Advance(sid)]) == Run(max, st2, []);
    RunKeeps(max, st2, after);
  }

  lemma {:induction false} RunAppend(max: nat, st: State, before: seq<Event>, after: seq<Event>)
    requires Inv(max, st)
    ensures Inv(max, Run(max, st, before))
    ensures Run(max, st, before + after) == Run(max, Run(max, st, before), after)
    decreases |before|
  {
    if before == [] {
      assert before + after == after;
    } else {
      NextKeeps(max, st, before[0]);
      RunAppend(max, Next(max, st, before[0]), before[1..], after);
      assert (before + after)[1..] == before[1..] + after;
    }
  }

  // ---------------------------------------------------------------- each call as one step

  function RequestOtp(rows: seq<Row>, now: int, user: Id, purpose: string, code: string, ttl: int): seq<Row> {
    var existing := FindActive(rows, user, purpose);
    var cleared := if existing.Some? then MarkUsed(rows, existing.value, now).0 else rows;
    cleared + [Fresh(user, purpose, code, now + ttl)]
  }

  function VerifyOtp(max: nat, rows: seq<Row>, now: int, user: Id, purpose: string, code: string)
    : (seq<Row>, Result<(), Error>)
  {
    var active := FindActive(rows, user, purpose);
    if active.None? || rows[active.value].expiresAt <= now then (rows, Failure(InvalidTokenFlow))
    else
      var id := active.value;
      var counted := Increment(rows, id);
      if counted[id].attempts > max then (MarkUsed(counted, id, now).0, Failure(OtpLockedOut))
      else if rows[id].codeHash != Sha256(code) then
        if counted[id].attempts >= max then (MarkUsed(counted, id, now).0, Failure(OtpLockedOut))
        else (counted, Failure(InvalidTokenFlow))
      else (MarkUsed(counted, id, now).0, Success(()))
  }

  datatype Call =
    | Request(user: Id, purpose: string, code: string, ttl: int)
    | Verify(user: Id, purpose: string, code: string)
    | Wait(ms: nat)

  function Serial(max: nat, rows: seq<Row>, now: int, calls: seq<Call>): (seq<Row>, int)
    decreases |calls|
  {
    if calls == [] then (rows, now)
    else
      match calls[0]
      case Request(user, purpose, code, ttl) =>
        Serial(max, RequestOtp(rows, now, user, purpose, code, ttl), now, calls[1..])
      case Verify(user, purpose, code) =>
        Serial(max, VerifyOtp(max, rows, now, user, purpose, code).0, now, calls[1..])
      case Wait(ms) => Serial(max, rows, now + ms, calls[1..])
  }

  /** Of the codes issued for one (user, purpose), all but the last are used. */
  ghost predicate OnlyLatestLive(rows: seq<Row>) {
    forall i: Id, j: Id :: i < j < |rows| && rows[i].user == rows[j].user && rows[i].purpose == rows[j].purpose
      ==> rows[i].usedAt.Some?
  }

  lemma {:induction false} SerialOnlyLatestLive(max: nat, rows: seq<Row>, now: int, calls: seq<Call>)
    requires OnlyLatestLive(rows)
    ensures OnlyLatestLive(Serial(max, rows, now, calls).0)
    decreases |calls|
  {
    if calls != [] {
      match calls[0] {
        case Request(user, purpose, code, ttl) =>
          SerialOnlyLatestLive(max, RequestOtp(rows, now, user, purpose, code, ttl), now, calls[1..]);
        case Verify(user, purpose, code) =>
          SerialOnlyLatestLive(max, VerifyOtp(max, rows, now, user, purpose, code).0, now, calls[1..]);
        case Wait(ms) => SerialOnlyLatestLive(max, rows, now + ms, calls[1..]);
      }
    }
  }

  /**
   With calls one at a time, a success redeems the code issued last for that user and
   purpose, unexpired, and leaves no live code for the pair.
   */
  lemma OnlyLatestRedeems(max: nat, now: int, calls: seq<Call>, user: Id, purpose: string, code: string)
    ensures
      var (rows, at) := Serial(max, [], now, calls);
      var (rows', r) := VerifyOtp(max, rows, at, user, purpose, code);
      r.Success? ==>
        && FindActive(rows', user, purpose) == None
        && exists id: Id ::
             && id < |rows|
             && Active(rows[id], user, purpose)
             && rows[id].codeHash == Sha256(code)
             && rows[id].expiresAt > at
             && (forall j: Id :: id < j < |rows| ==> !(rows[j].user == user && rows[j].purpose == purpose))
  {
    SerialOnlyLatestLive(max, [], now, calls);
    var (rows, at) := Serial(max, [], now, calls);
    var (rows', r) := VerifyOtp(max, rows, at, user, purpose, code);
    if r.Success? {
      var id := FindActive(rows, user, purpose).value;
      assert Active(rows[id], user, purpose);
    }
  }

  /** Left alone, the store operations of one `verifyOtp` add up to that step. */
  lemma SoloVerify(max: nat, st: State, sid: Id, user: Id, purpose: string, code: string)
    requires Inv(max, st) && sid !in st.sessions
    ensures
      var s1 := Next(max, st, StartVerify(sid, user, purpose, code));
      var s4 := Step(max, Step(max, Step(max, s1, sid), sid), sid);
      var (rows, result) := VerifyOtp(max, st.rows, st.now, user, purpose, code);
      s4.rows == rows && s4.sessions[sid] == Finished(result)
  {
  }

  /** So do those of one `requestOtp`. */
  lemma SoloRequest(max: nat, st: State, sid: Id, user: Id, purpose: string, code: string, ttl: int)
    requires Inv(max, st) && sid !in st.sessions
    ensures
      var s1 := Next(max, st, StartRequest(sid, user, purpose, code, ttl));
      var s4 := Step(max, Step(max, Step(max, s1, sid), sid), sid);
      s4.rows == RequestOtp(st.rows, st.now, user, purpose, code, ttl) && s4.sessions[sid] == Finished(Success(()))
  {
    var existing := FindActive(st.rows, user, purpose);
    var rows := if existing.Some? then MarkUsed(st.rows, existing.value, st.now).0 else st.rows;
    assert Next(max, st, StartRequest(sid, user, purpose, code, ttl))
        == Put(st, sid, RequestBegun(user, purpose, code, ttl));
  }
}
