/** What `requestOtp` and `verifyOtp` decide and store, told from the code rows; and that codes work. */
module OtpEffects {
  import opened Wrappers
  import opened OtpCodes

  /** Row `i` holds the unused code issued last for the pair. */
  ghost predicate Latest(rows: seq<Row>, user: Id, purpose: string, i: Id) {
    && i < |rows| && rows[i].user == user && rows[i].purpose == purpose && rows[i].usedAt.None?
    && forall j: Id :: i < j < |rows| && rows[j].user == user && rows[j].purpose == purpose ==> rows[j].usedAt.Some?
  }

  /**
   What `verifyOtp` answers, told from the latest unused row: success iff it is unexpired, has
   seen fewer than `max` attempts and carries the code; a lockout iff it is unexpired and has
   had its attempts, or spends its last one on a wrong code; and otherwise an invalid code.
   */
  lemma VerifyOtpIff(max: nat, rows: seq<Row>, now: int, user: Id, purpose: string, code: string, i: Id)
    requires Latest(rows, user, purpose, i)
    ensures
      var row, r := rows[i], VerifyOtp(max, rows, now, user, purpose, code).1;
      var right := row.codeHash == Sha256(code);
      && (r.Success? <==> now < row.expiresAt && row.attempts < max && right)
      && (r == Failure(OtpLockedOut) <==>
            now < row.expiresAt && (row.attempts >= max || (row.attempts + 1 >= max && !right)))
      && (r == Failure(InvalidTokenFlow) <==>
            now >= row.expiresAt || (row.attempts + 1 < max && !right))
  {
  }

  /** Without an unused row of the pair the code is invalid, and nothing changes. */
  lemma VerifyOtpNone(max: nat, rows: seq<Row>, now: int, user: Id, purpose: string, code: string)
    requires forall i: Id :: i < |rows| && rows[i].user == user && rows[i].purpose == purpose ==> rows[i].usedAt.Some?
    ensures VerifyOtp(max, rows, now, user, purpose, code) == (rows, Failure(InvalidTokenFlow))
  {
    forall j: Id | j < |rows| ensures !Active(rows[j], user, purpose) {}
  }

  /** An attempt on an unexpired row is counted, and uses the row up iff it succeeds or locks out; no other row changes. */
  lemma VerifyOtpCounts(max: nat, rows: seq<Row>, now: int, user: Id, purpose: string, code: string, i: Id)
    requires Latest(rows, user, purpose, i)
    ensures
      var (rows', r) := VerifyOtp(max, rows, now, user, purpose, code);
      && |rows'| == |rows| && (forall j: Id :: j < |rows| && j != i ==> rows'[j] == rows[j])
      && if now >= rows[i].expiresAt then rows'[i] == rows[i]
         else
           && rows'[i].attempts == rows[i].attempts + 1
           && rows'[i].usedAt == (if r.Success? || r == Failure(OtpLockedOut) then Some(now) else None)
           && rows'[i].codeHash == rows[i].codeHash && rows'[i].expiresAt == rows[i].expiresAt
           && rows'[i].user == user && rows'[i].purpose == purpose
  {
  }

  /** A request uses up the latest unused row, if any, and appends a row for its code. */
  lemma RequestOtpIssues(rows: seq<Row>, now: int, user: Id, purpose: string, code: string, ttl: int)
    ensures
      var rows' := RequestOtp(rows, now, user, purpose, code, ttl);
      && |rows'| == |rows| + 1
      && rows'[|rows|] == Row(user, purpose, Sha256(code), now + ttl, None, 0)
      && Latest(rows', user, purpose, |rows|)
      && forall j: Id :: j < |rows| ==>
           rows'[j] == if Latest(rows, user, purpose, j) then rows[j].(usedAt := Some(now)) else rows[j]
  {
    var found := FindActive(rows, user, purpose);
    if found.Some? {
      assert Active(rows[found.value], user, purpose);
      assert forall j: Id :: found.value < j < |rows| ==> !Active(rows[j], user, purpose);
      assert Latest(rows, user, purpose, found.value);
    }
    forall j: Id | j < |rows| && Latest(rows, user, purpose, j) ensures found == Some(j) {}
  }

  // ---------------------------------------------------------------- a code works

  /** The call does not replace or spend the pair's code: no request for it, and only wrong codes tried. */
  ghost predicate Spares(call: Call, user: Id, purpose: string, code: string) {
    match call
    case Request(u, p, _, _) => u != user || p != purpose
    case Verify(u, p, tried) => u == user && p == purpose ==> tried != code
    case Wait(_) => true
  }

  /** How many codes are tried for the pair. */
  function Tries(calls: seq<Call>, user: Id, purpose: string): nat {
    if calls == [] then 0
    else
      var rest := Tries(calls[1..], user, purpose);
      if calls[0].Verify? && calls[0].user == user && calls[0].purpose == purpose then rest + 1 else rest
  }

  /** The pair's latest unused row carries the code until `until`, after at most `tries` attempts. */
  ghost predicate Waits(
    rows: seq<Row>, user: Id, purpose: string, code: string, until: int, tries: nat, i: Id) {
    Latest(rows, user, purpose, i) && rows[i].codeHash == Sha256(code)
    && rows[i].expiresAt == until && rows[i].attempts <= tries
  }

  lemma {:induction false} RunSpares(
    max: nat, rows: seq<Row>, now: int, calls: seq<Call>, user: Id, purpose: string, code: string, until: int,
    tries: nat, i: Id)
    requires Waits(rows, user, purpose, code, until, tries, i)
    requires forall call <- calls :: Spares(call, user, purpose, code)
    requires tries + Tries(calls, user, purpose) < max
    ensures Waits(Serial(max, rows, now, calls).0, user, purpose, code, until, tries + Tries(calls, user, purpose), i)
    decreases |calls|
  {
    if calls != [] {
      assert calls[0] in calls;
      assert Tries([calls[0]], user, purpose) + Tries(calls[1..], user, purpose) == Tries(calls, user, purpose) by {
        assert [calls[0]][1..] == [];
      }
      SerialHead(max, rows, now, calls);
      var (rows1, now1) := Serial(max, rows, now, [calls[0]]);
      RunSpares(max, rows1, now1, calls[1..], user, purpose, code, until, tries + Tries([calls[0]], user, purpose), i);
    }
  }

  lemma SerialHead(max: nat, rows: seq<Row>, now: int, calls: seq<Call>)
    requires calls != []
    ensures
      var (rows1, now1) := Serial(max, rows, now, [calls[0]]);
      Serial(max, rows, now, calls) == Serial(max, rows1, now1, calls[1..])
  {
    assert [calls[0]][1..] == [];
  }

  /**
   An issued code works: after any calls that do not replace it, with fewer than `max` codes
   tried for the pair and all of them wrong, it is accepted until it expires.
   */
  lemma IssuedCodeAccepted(
    max: nat, rows: seq<Row>, now: int, user: Id, purpose: string, code: string, ttl: int, calls: seq<Call>)
    requires forall call <- calls :: Spares(call, user, purpose, code)
    requires Tries(calls, user, purpose) < max
    ensures
      var (rows', later) := Serial(max, RequestOtp(rows, now, user, purpose, code, ttl), now, calls);
      VerifyOtp(max, rows', later, user, purpose, code).1.Success? <==> later < now + ttl
  {
    RequestOtpIssues(rows, now, user, purpose, code, ttl);
    var issued := RequestOtp(rows, now, user, purpose, code, ttl);
    RunSpares(max, issued, now, calls, user, purpose, code, now + ttl, 0, |rows|);
    var (rows', later) := Serial(max, issued, now, calls);
    VerifyOtpIff(max, rows', later, user, purpose, code, |rows|);
  }
}
