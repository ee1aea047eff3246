/** `requestOtp` and `verifyOtp` of `createAuthService`, over the code store. */
module OtpServices {
  import opened Wrappers
  import opened OtpCodes

  class OtpService {
    const maxAttempts: nat
    var now: int
    var rows: seq<Row>

    constructor (maxAttempts: nat, now: int)
      ensures this.maxAttempts == maxAttempts && this.now == now && rows == []
    {
      this.maxAttempts, this.now, rows := maxAttempts, now, [];
    }

    method StoreMarkUsed(id: Id) returns (marked: bool)
      requires id < |rows|
      modifies this`rows
      ensures (rows, marked) == MarkUsed(old(rows), id, now)
    {
      marked := rows[id].usedAt.None?;
      if marked {
        rows := rows[id := rows[id].(usedAt := Some(now))];
      }
    }

    method StoreIncrementAttempts(id: Id) returns (attempts: nat)
      requires id < |rows|
      modifies this`rows
      ensures rows == Increment(old(rows), id) && attempts == rows[id].attempts
    {
      attempts := rows[id].attempts + 1;
      rows := rows[id := rows[id].(attempts := attempts)];
    }

    method RequestOtp(user: Id, purpose: string, code: string, ttl: int)
      modifies this`rows
      ensures rows == OtpCodes.RequestOtp(old(rows), now, user, purpose, code, ttl)
    {
      var existing := FindActive(rows, user, purpose);
      if existing.Some? {
        var _ := StoreMarkUsed(existing.value);
      }
      rows := rows + [Row(user, purpose, Sha256(code), now + ttl, None, 0)];
    }

    method VerifyOtp(user: Id, purpose: string, code: string) returns (result: Result<(), Error>)
      modifies this`rows
      ensures (rows, result) == OtpCodes.VerifyOtp(maxAttempts, old(rows), now, user, purpose, code)
    {
      var found := FindActive(rows, user, purpose);
      if found.None? || rows[found.value].expiresAt <= now {
        return Failure(InvalidTokenFlow);
      }
      var active := rows[found.value];
      var attempts := StoreIncrementAttempts(found.value);
      if attempts > maxAttempts {
        var _ := StoreMarkUsed(found.value);
        return Failure(OtpLockedOut);
      }
      if active.codeHash != Sha256(code) {
        if attempts >= maxAttempts {
          var _ := StoreMarkUsed(found.value);
          return Failure(OtpLockedOut);
        }
        return Failure(InvalidTokenFlow);
      }
      var marked := StoreMarkUsed(found.value);
      if !marked {
        return Failure(InvalidTokenFlow);
      }
      return Success(());
    }
  }
}
