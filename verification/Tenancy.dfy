/**
 Tenants, invitations and memberships. Rows are never physically deleted by the
 services modelled here, so a table is a sequence and a row's id is its index; a
 lookup without ORDER BY takes the lowest id.
 */
module Tenancy {
  import opened Wrappers

  type Id = nat

  /** `sha256`, taken as injective. */
  datatype Digest = Sha256(token: string)

  datatype Tenant = Tenant(slug: string, name: string, deletedAt: Option<int>)

  datatype Invitation = Invitation(
    tenant: Id, email: string, role: string, tokenHash: Digest, invitedBy: Option<Id>,
    expiresAt: int, acceptedAt: Option<int>, deletedAt: Option<int>)

  datatype Membership = Membership(
    tenant: Id, user: Id, role: string, invitedBy: Option<Id>, joinedAt: int, deletedAt: Option<int>)

  datatype Tables = Tables(tenants: seq<Tenant>, invitations: seq<Invitation>, memberships: seq<Membership>)

  datatype Error =
    | InvitationNotFound
    | InvitationEmailMismatch
    | InvitationAlreadyAccepted
    | InvitationExpired
    | MembershipExists(id: Id)
    | MembershipNotFound
    | TenantNotFound
    | UniqueViolation
    | ForeignKeyViolation

  /** The users' e-mail addresses, as `resolveUserEmail` reads them. */
  type Users = map<Id, string>

  // ---------------------------------------------------------------- e-mail normal form

  predicate Blank(ch: char) { ch == ' ' || '\t' <= ch <= '\r' }

  function LowerChar(ch: char): char { if 'A' <= ch <= 'Z' then ch - 'A' + 'a' else ch }

  function Lower(s: string): string { seq(|s|, i requires 0 <= i < |s| => LowerChar(s[i])) }

  function TrimStart(s: string): string {
    if s != [] && Blank(s[0]) then TrimStart(s[1..]) else s
  }

  function TrimEnd(s: string): string {
    if s != [] && Blank(s[|s| - 1]) then TrimEnd(s[..|s| - 1]) else s
  }

  function NormalizeEmail(email: string): string { Lower(TrimEnd(TrimStart(email))) }

  predicate Trimmed(s: string) { s == [] || (!Blank(s[0]) && !Blank(s[|s| - 1])) }

  lemma {:induction false} TrimEndKeepsStart(s: string)
    requires s == [] || !Blank(s[0])
    ensures Trimmed(TrimEnd(s))
  {
    if s != [] && Blank(s[|s| - 1]) {
      TrimEndKeepsStart(s[..|s| - 1]);
    }
  }

  lemma {:induction false} TrimStartStops(s: string)
    ensures TrimStart(s) == [] || !Blank(TrimStart(s)[0])
  {
    if s != [] && Blank(s[0]) {
      TrimStartStops(s[1..]);
    }
  }

  /** Normalising twice is normalising once, so a stored normal form is found again by it. */
  lemma NormalizeIdempotent(email: string)
    ensures NormalizeEmail(NormalizeEmail(email)) == NormalizeEmail(email)
  {
    TrimStartStops(email);
    TrimEndKeepsStart(TrimStart(email));
    var n := NormalizeEmail(email);
    assert Trimmed(n);
    assert Lower(n) == n;
  }

  // ---------------------------------------------------------------- lookups

  /** The first element at or after `from` that satisfies `p`. */
  function FindFirst<T>(s: seq<T>, p: T -> bool, from: nat := 0): (r: Option<Id>)
    requires from <= |s|
    ensures r.Some? ==> from <= r.value < |s| && p(s[r.value]) && forall j :: from <= j < r.value ==> !p(s[j])
    ensures r.None? ==> forall j :: from <= j < |s| ==> !p(s[j])
    decreases |s| - from
  {
    if from == |s| then None
    else if p(s[from]) then Some(from)
    else FindFirst(s, p, from + 1)
  }

  predicate LiveTenant(t: Tables, id: Id) { id < |t.tenants| && t.tenants[id].deletedAt.None? }

  predicate Pending(inv: Invitation, now: int) {
    inv.acceptedAt.None? && inv.deletedAt.None? && inv.expiresAt > now
  }

  /** `invitationsRepository.findByTokenHash`: across tenants, live rows only. */
  function FindByTokenHash(invitations: seq<Invitation>, hash: Digest): Option<Id> {
    FindFirst(invitations, (inv: Invitation) => inv.tokenHash == hash && inv.deletedAt.None?)
  }

  /** `invitationsRepository.findPendingByEmail` in the frame of `tenant`. */
  function FindPendingByEmail(invitations: seq<Invitation>, tenant: Id, email: string, now: int): Option<Id> {
    FindFirst(invitations, (inv: Invitation) => inv.tenant == tenant && inv.email == email && Pending(inv, now))
  }

  /** `membershipsRepository.findByUserIdInCurrentTenant` in the frame of `tenant`. */
  function FindMembership(memberships: seq<Membership>, tenant: Id, user: Id): Option<Id> {
    FindFirst(memberships, (m: Membership) => m.tenant == tenant && m.user == user && m.deletedAt.None?)
  }

  // ---------------------------------------------------------------- the unique indexes

  predicate Same(m: Membership, n: Membership) { m.tenant == n.tenant && m.user == n.user }

  /** The partial unique index: at most one live membership per (tenant, user). */
  ghost predicate OneLive(ms: seq<Membership>) {
    forall i: Id, j: Id :: i < j < |ms| && ms[i].deletedAt.None? && ms[j].deletedAt.None? ==> !Same(ms[i], ms[j])
  }

  /** The unique index on the token hash. */
  ghost predicate UniqueTokens(invs: seq<Invitation>) {
    forall i: Id, j: Id :: i < j < |invs| ==> invs[i].tokenHash != invs[j].tokenHash
  }

  // ---------------------------------------------------------------- the services, each call one step

  predicate EmailMatches(users: Users, user: Id, inv: Invitation) {
    && user in users
    && users[user] != ""
    && NormalizeEmail(users[user]) == NormalizeEmail(inv.email)
  }

  /** What `accept` throws when the gate did not match: decided on the row read before the gate. */
  function GateError(snapshot: Invitation, now: int): Error {
    if snapshot.acceptedAt.Some? then InvitationAlreadyAccepted
    else if snapshot.expiresAt <= now then InvitationExpired
    else InvitationAlreadyAccepted
  }

  function NewMember(inv: Invitation, user: Id, now: int): Membership {
    Membership(inv.tenant, user, inv.role, inv.invitedBy, now, None)
  }

  function Accept(t: Tables, users: Users, now: int, token: string, user: Id): (Tables, Result<Id, Error>) {
    var found := FindByTokenHash(t.invitations, Sha256(token));
    if found.None? then (t, Failure(InvitationNotFound))
    else
      var inv := t.invitations[found.value];
      if !EmailMatches(users, user, inv) then (t, Failure(InvitationEmailMismatch))
      else if !Pending(inv, now) then (t, Failure(GateError(inv, now)))
      else
        var t1 := t.(invitations := t.invitations[found.value := inv.(acceptedAt := Some(now))]);
        var existing := FindMembership(t.memberships, inv.tenant, user);
        if existing.Some? then (t1, Success(existing.value))
        else (t1.(memberships := t.memberships + [NewMember(inv, user, now)]), Success(|t.memberships|))
  }

  function Regenerate(t: Tables, now: int, tenant: Id, id: Id, ttl: int, token: string): (Tables, Result<Id, Error>) {
    if id >= |t.invitations| || t.invitations[id].tenant != tenant || t.invitations[id].deletedAt.Some? then
      (t, Failure(InvitationNotFound))
    else if t.invitations[id].acceptedAt.Some? then
      (t, Failure(InvitationAlreadyAccepted))
    else
      var inv := t.invitations[id].(tokenHash := Sha256(token), expiresAt := now + ttl);
      (t.(invitations := t.invitations[id := inv]), Success(id))
  }

  /** `known` is the answer of the optional `resolveUserIdByEmail`. */
  function Invite(
    t: Tables, now: int, tenant: Id, email: string, role: string, invitedBy: Option<Id>,
    known: Option<Id>, ttl: int, token: string): (Tables, Result<Id, Error>)
  {
    var normal := NormalizeEmail(email);
    var member := if known.Some? then FindMembership(t.memberships, tenant, known.value) else None;
    if member.Some? then (t, Failure(MembershipExists(member.value)))
    else
      var pending := FindPendingByEmail(t.invitations, tenant, normal, now);
      if pending.Some? then Regenerate(t, now, tenant, pending.value, ttl, token)
      else if tenant >= |t.tenants| then (t, Failure(ForeignKeyViolation))
      else
        var inv := Invitation(tenant, normal, role, Sha256(token), invitedBy, now + ttl, None, None);
        (t.(invitations := t.invitations + [inv]), Success(|t.invitations|))
  }

  function Revoke(t: Tables, now: int, tenant: Id, id: Id): (Tables, Result<Id, Error>) {
    if id >= |t.memberships| || t.memberships[id].tenant != tenant || t.memberships[id].deletedAt.Some? then
      (t, Failure(MembershipNotFound))
    else
      (t.(memberships := t.memberships[id := t.memberships[id].(deletedAt := Some(now))]), Success(id))
  }

  function CascadeMemberships(ms: seq<Membership>, tenant: Id, now: int): seq<Membership> {
    seq(|ms|, i requires 0 <= i < |ms| =>
      if ms[i].tenant == tenant && ms[i].deletedAt.None? then ms[i].(deletedAt := Some(now)) else ms[i])
  }

  function CascadeInvitations(invs: seq<Invitation>, tenant: Id, now: int): seq<Invitation> {
    seq(|invs|, i requires 0 <= i < |invs| =>
      if invs[i].tenant == tenant && invs[i].deletedAt.None? then invs[i].(deletedAt := Some(now)) else invs[i])
  }

  function SoftDeleteTenant(t: Tables, now: int, id: Id): (Tables, Result<Id, Error>) {
    if !LiveTenant(t, id) then (t, Failure(TenantNotFound))
    else
      (Tables(t.tenants[id := t.tenants[id].(deletedAt := Some(now))],
              CascadeInvitations(t.invitations, id, now),
              CascadeMemberships(t.memberships, id, now)),
       Success(id))
  }
}
