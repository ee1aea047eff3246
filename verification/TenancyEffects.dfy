/** What each tenancy call does to the rows, told from their columns. */
module TenancyEffects {
  import opened Wrappers
  import opened Tenancy

  // ---------------------------------------------------------------- e-mail addresses

  predicate White(ch: char) { ch in {' ', '\t', '\n', '\r'} || ch as int in {11, 12} }

  lemma {:induction false} TrimStartDrops(s: string) returns (a: nat)
    ensures a <= |s| && TrimStart(s) == s[a..] && (forall i :: 0 <= i < a ==> White(s[i]))
    ensures a < |s| ==> !White(s[a])
  {
    if s != [] && Blank(s[0]) {
      a := TrimStartDrops(s[1..]);
      assert TrimStart(s) == s[1..][a..];
      forall i | 0 <= i < a + 1 ensures White(s[i]) {
        if i > 0 { assert s[i] == s[1..][i - 1]; }
      }
      a := a + 1;
    } else {
      a := 0;
    }
  }

  lemma {:induction false} TrimEndDrops(s: string) returns (b: nat)
    ensures b <= |s| && TrimEnd(s) == s[..b] && (forall i :: b <= i < |s| ==> White(s[i]))
    ensures b > 0 ==> !White(s[b - 1])
  {
    if s != [] && Blank(s[|s| - 1]) {
      b := TrimEndDrops(s[..|s| - 1]);
    } else {
      b := |s|;
    }
  }

  /** The normal form of an address: what is left without white space at its ends, capitals made small. */
  lemma NormalFormMeans(email: string) returns (a: nat, b: nat)
    ensures a <= b <= |email|
    ensures forall i :: 0 <= i < a || b <= i < |email| ==> White(email[i])
    ensures a < b ==> !White(email[a]) && !White(email[b - 1])
    ensures |NormalizeEmail(email)| == b - a
    ensures forall k :: 0 <= k < b - a ==>
              var ch, n := email[a + k], NormalizeEmail(email)[k];
              if 'A' <= ch <= 'Z' then n as int == ch as int + 32 else n == ch
  {
    a := TrimStartDrops(email);
    var rest := email[a..];
    var n := TrimEndDrops(rest);
    b := a + n;
    forall i | b <= i < |email| ensures White(email[i]) {
      assert email[i] == rest[i - a];
    }
  }

  // ---------------------------------------------------------------- accept

  /** Row `i` is the only live one with the token's hash. */
  ghost predicate Bears(t: Tables, i: Id, token: string) {
    && i < |t.invitations| && t.invitations[i].tokenHash == Sha256(token) && t.invitations[i].deletedAt.None?
    && forall j: Id :: j < |t.invitations| && j != i && t.invitations[j].tokenHash == Sha256(token) ==>
         t.invitations[j].deletedAt.Some?
  }

  /** The user has an address, and in normal form it is the invitation's. */
  ghost predicate Addressed(users: Users, user: Id, inv: Invitation) {
    user in users && users[user] != "" && NormalizeEmail(users[user]) == NormalizeEmail(inv.email)
  }

  ghost predicate LiveMember(m: Membership, tenant: Id, user: Id) {
    m.tenant == tenant && m.user == user && m.deletedAt.None?
  }

  /**
   When an accept is refused, and with what: as a mismatch iff the user has no such address;
   otherwise by the state of the row, and not at all iff it is pending.
   */
  lemma AcceptIff(t: Tables, users: Users, now: int, token: string, user: Id, i: Id)
    requires Bears(t, i, token)
    ensures
      var inv, r := t.invitations[i], Accept(t, users, now, token, user).1;
      && (r == Failure(InvitationEmailMismatch) <==> !Addressed(users, user, inv))
      && (r == Failure(InvitationAlreadyAccepted) <==> Addressed(users, user, inv) && inv.acceptedAt.Some?)
      && (r == Failure(InvitationExpired) <==>
            Addressed(users, user, inv) && inv.acceptedAt.None? && inv.expiresAt <= now)
      && (r.Success? <==> Addressed(users, user, inv) && inv.acceptedAt.None? && inv.expiresAt > now)
      && (r.Failure? ==> Accept(t, users, now, token, user).0 == t)
  {
  }

  /**
   What an accept that succeeds leaves: the invitation stamped, and the user a live member of its
   tenant, by the membership there was or else by a new one with the invitation's role.
   */
  lemma AcceptJoins(t: Tables, users: Users, now: int, token: string, user: Id, i: Id)
    requires Bears(t, i, token) && Accept(t, users, now, token, user).1.Success?
    ensures
      var (t', r) := Accept(t, users, now, token, user);
      var inv := t.invitations[i];
      && t'.tenants == t.tenants
      && t'.invitations == t.invitations[i := inv.(acceptedAt := Some(now))]
      && r.value < |t'.memberships| && LiveMember(t'.memberships[r.value], inv.tenant, user)
      && (if exists m <- t.memberships :: LiveMember(m, inv.tenant, user) then t'.memberships == t.memberships
          else
            && r.value == |t.memberships|
            && t'.memberships == t.memberships + [Membership(inv.tenant, user, inv.role, inv.invitedBy, now, None)])
  {
    var inv := t.invitations[i];
    var existing := FindMembership(t.memberships, inv.tenant, user);
    if existing.Some? {
      assert t.memberships[existing.value] in t.memberships;
    } else {
      forall m <- t.memberships ensures !LiveMember(m, inv.tenant, user) {
        var j: Id :| j < |t.memberships| && t.memberships[j] == m;
      }
    }
  }

  // ---------------------------------------------------------------- regenerate, revoke and the cascade

  /** Regenerating renews token and expiry of an own, live, unaccepted row, and touches nothing else. */
  lemma RegenerateRenews(t: Tables, now: int, tenant: Id, id: Id, ttl: int, token: string)
    ensures
      var (t', r) := Regenerate(t, now, tenant, id, ttl, token);
      if id < |t.invitations| && t.invitations[id].tenant == tenant && t.invitations[id].deletedAt.None? then
        if t.invitations[id].acceptedAt.Some? then t' == t && r == Failure(InvitationAlreadyAccepted)
        else
          && r == Success(id) && t'.tenants == t.tenants && t'.memberships == t.memberships
          && |t'.invitations| == |t.invitations|
          && (forall j: Id :: j < |t.invitations| && j != id ==> t'.invitations[j] == t.invitations[j])
          && var was, now' := t.invitations[id], t'.invitations[id];
             now' == Invitation(was.tenant, was.email, was.role, Sha256(token), was.invitedBy, now + ttl, None, None)
      else t' == t && r == Failure(InvitationNotFound)
  {
  }

  /** Revoking soft-deletes an own live membership, and touches nothing else. */
  lemma RevokeDeletes(t: Tables, now: int, tenant: Id, id: Id)
    ensures
      var (t', r) := Revoke(t, now, tenant, id);
      if id < |t.memberships| && t.memberships[id].tenant == tenant && t.memberships[id].deletedAt.None? then
        && r == Success(id) && t'.tenants == t.tenants && t'.invitations == t.invitations
        && |t'.memberships| == |t.memberships|
        && (forall j: Id :: j < |t.memberships| && j != id ==> t'.memberships[j] == t.memberships[j])
        && var was := t.memberships[id];
           t'.memberships[id] == Membership(was.tenant, was.user, was.role, was.invitedBy, was.joinedAt, Some(now))
      else t' == t && r == Failure(MembershipNotFound)
  {
  }

  /** The cascade soft-deletes a live tenant and exactly its live memberships and invitations. */
  lemma SoftDeleteCascades(t: Tables, now: int, id: Id)
    ensures
      var (t', r) := SoftDeleteTenant(t, now, id);
      if id < |t.tenants| && t.tenants[id].deletedAt.None? then
        && r == Success(id)
        && |t'.tenants| == |t.tenants| && |t'.memberships| == |t.memberships| && |t'.invitations| == |t.invitations|
        && (forall j: Id :: j < |t.tenants| ==>
              t'.tenants[j] == if j == id then t.tenants[j].(deletedAt := Some(now)) else t.tenants[j])
        && (forall j: Id :: j < |t.memberships| ==>
              var m := t.memberships[j];
              t'.memberships[j] == if m.tenant == id && m.deletedAt.None? then m.(deletedAt := Some(now)) else m)
        && (forall j: Id :: j < |t.invitations| ==>
              var inv := t.invitations[j];
              t'.invitations[j]
              == if inv.tenant == id && inv.deletedAt.None? then inv.(deletedAt := Some(now)) else inv)
      else t' == t && r == Failure(TenantNotFound)
  {
  }

  // ---------------------------------------------------------------- invite

  /** Pending for the address in the tenant: not accepted, not deleted, not expired. */
  ghost predicate PendingFor(inv: Invitation, tenant: Id, email: string, now: int) {
    && inv.tenant == tenant && inv.email == email
    && inv.acceptedAt.None? && inv.deletedAt.None? && inv.expiresAt > now
  }

  /** The known user of the address is a live member already. */
  ghost predicate AlreadyMember(t: Tables, tenant: Id, known: Option<Id>) {
    known.Some? && exists m <- t.memberships :: LiveMember(m, tenant, known.value)
  }

  lemma MemberFound(t: Tables, tenant: Id, user: Id)
    ensures FindMembership(t.memberships, tenant, user).Some? <==>
            exists m <- t.memberships :: LiveMember(m, tenant, user)
  {
    var found := FindMembership(t.memberships, tenant, user);
    if found.Some? {
      assert t.memberships[found.value] in t.memberships;
    } else {
      forall m <- t.memberships ensures !LiveMember(m, tenant, user) {
        var j: Id :| j < |t.memberships| && t.memberships[j] == m;
      }
    }
  }

  /**
   An invite is refused exactly for a live member; it renews a row pending for the address in
   normal form if there is one, and otherwise adds one for that address.
   */
  lemma InviteOnce(
    t: Tables, now: int, tenant: Id, email: string, role: string, invitedBy: Option<Id>,
    known: Option<Id>, ttl: int, token: string)
    requires tenant < |t.tenants|
    ensures
      var (t', r) := Invite(t, now, tenant, email, role, invitedBy, known, ttl, token);
      var normal := NormalizeEmail(email);
      && (r.Failure? <==> AlreadyMember(t, tenant, known))
      && (r.Failure? ==> t' == t && r.error.MembershipExists?)
      && (r.Success? ==>
            && t'.tenants == t.tenants && t'.memberships == t.memberships
            && r.value < |t'.invitations|
            && (forall j: Id :: j < |t.invitations| && j != r.value ==>
                  j < |t'.invitations| && t'.invitations[j] == t.invitations[j])
            && if exists inv <- t.invitations :: PendingFor(inv, tenant, normal, now) then
                 && |t'.invitations| == |t.invitations| && PendingFor(t.invitations[r.value], tenant, normal, now)
                 && t'.invitations[r.value]
                 == t.invitations[r.value].(tokenHash := Sha256(token), expiresAt := now + ttl)
               else
                 && r.value == |t.invitations| && |t'.invitations| == |t.invitations| + 1
                 && t'.invitations[r.value]
                 == Invitation(tenant, normal, role, Sha256(token), invitedBy, now + ttl, None, None))
  {
    var normal := NormalizeEmail(email);
    if known.Some? { MemberFound(t, tenant, known.value); }
    var pending := FindPendingByEmail(t.invitations, tenant, normal, now);
    if pending.Some? {
      assert t.invitations[pending.value] in t.invitations;
    } else {
      forall inv <- t.invitations ensures !PendingFor(inv, tenant, normal, now) {
        var j: Id :| j < |t.invitations| && t.invitations[j] == inv;
      }
    }
  }
}
