/** The service objects: their methods work on the tables statement by statement. */
module TenancyServices {
  import opened Wrappers
  import opened Tenancy

  /** `createMembershipsService` and the `softDelete` of `createTenantsService`, over the tables they write. */
  class Services {
    const users: Users
    var tables: Tables
    var now: int

    constructor (users: Users, tables: Tables, now: int)
      ensures this.users == users && this.tables == tables && this.now == now
    {
      this.users, this.tables, this.now := users, tables, now;
    }

    /** The conditional UPDATE that is the gate of `accept`. */
    method MarkAccepted(tenant: Id, id: Id) returns (accepted: Option<Invitation>)
      requires id < |tables.invitations|
      modifies this`tables
      ensures
        var inv := old(tables).invitations[id];
        if inv.tenant == tenant && Pending(inv, now) then
          && accepted == Some(inv.(acceptedAt := Some(now)))
          && tables == old(tables).(invitations := old(tables).invitations[id := accepted.value])
        else
          accepted == None && tables == old(tables)
    {
      var inv := tables.invitations[id];
      if inv.tenant == tenant && inv.acceptedAt.None? && inv.deletedAt.None? && inv.expiresAt > now {
        inv := inv.(acceptedAt := Some(now));
        tables := tables.(invitations := tables.invitations[id := inv]);
        return Some(inv);
      }
      return None;
    }

    method Accept(token: string, user: Id) returns (result: Result<Id, Error>)
      modifies this`tables
      ensures (tables, result) == Tenancy.Accept(old(tables), users, now, token, user)
    {
      var found := FindByTokenHash(tables.invitations, Sha256(token));
      if found.None? {
        return Failure(InvitationNotFound);
      }
      var invitation := tables.invitations[found.value];
      if user !in users || users[user] == ""
         || NormalizeEmail(users[user]) != NormalizeEmail(invitation.email) {
        return Failure(InvitationEmailMismatch);
      }
      var accepted := MarkAccepted(invitation.tenant, found.value);
      if accepted.None? {
        if invitation.acceptedAt.Some? {
          return Failure(InvitationAlreadyAccepted);
        }
        if invitation.expiresAt <= now {
          return Failure(InvitationExpired);
        }
        return Failure(InvitationAlreadyAccepted);
      }
      var existing := FindMembership(tables.memberships, invitation.tenant, user);
      if existing.Some? {
        return Success(existing.value);
      }
      var member := Membership(
        invitation.tenant, user, accepted.value.role, accepted.value.invitedBy, now, None);
      result := Success(|tables.memberships|);
      tables := tables.(memberships := tables.memberships + [member]);
    }

    method Regenerate(tenant: Id, id: Id, ttl: int, token: string) returns (result: Result<Id, Error>)
      modifies this`tables
      ensures (tables, result) == Tenancy.Regenerate(old(tables), now, tenant, id, ttl, token)
      ensures
        result.Success? && UniqueTokens(old(tables).invitations)
        && (forall inv <- old(tables).invitations :: inv.tokenHash != Sha256(token)) ==>
          && FindByTokenHash(tables.invitations, old(tables).invitations[id].tokenHash) == None
          && FindByTokenHash(tables.invitations, Sha256(token)) == Some(id)
    {
      if id >= |tables.invitations| {
        return Failure(InvitationNotFound);
      }
      var existing := tables.invitations[id];
      if existing.tenant != tenant || existing.deletedAt.Some? {
        return Failure(InvitationNotFound);
      }
      if existing.acceptedAt.Some? {
        return Failure(InvitationAlreadyAccepted);
      }
      var row := existing.(tokenHash := Sha256(token), expiresAt := now + ttl);
      ghost var was := tables.invitations;
      tables := tables.(invitations := tables.invitations[id := row]);
      assert forall j: Id :: j < |was| ==> was[j] in was;
      assert tables.invitations[id].tokenHash == Sha256(token) && tables.invitations[id].deletedAt.None?;
      return Success(id);
    }

    method Invite(
      tenant: Id, email: string, role: string, invitedBy: Option<Id>, known: Option<Id>, ttl: int, token: string)
      returns (result: Result<Id, Error>)
      modifies this`tables
      ensures (tables, result) == Tenancy.Invite(old(tables), now, tenant, email, role, invitedBy, known, ttl, token)
    {
      var normal := NormalizeEmail(email);
      if known.Some? {
        var existing := FindMembership(tables.memberships, tenant, known.value);
        if existing.Some? {
          return Failure(MembershipExists(existing.value));
        }
      }
      var pending := FindPendingByEmail(tables.invitations, tenant, normal, now);
      if pending.Some? {
        result := Regenerate(tenant, pending.value, ttl, token);
        return;
      }
      if tenant >= |tables.tenants| {
        return Failure(ForeignKeyViolation);
      }
      result := Success(|tables.invitations|);
      var row := Invitation(tenant, normal, role, Sha256(token), invitedBy, now + ttl, None, None);
      tables := tables.(invitations := tables.invitations + [row]);
    }

    method Revoke(tenant: Id, id: Id) returns (result: Result<Id, Error>)
      modifies this`tables
      ensures (tables, result) == Tenancy.Revoke(old(tables), now, tenant, id)
      ensures
        result.Success? && OneLive(old(tables).memberships) ==>
          var m := old(tables).memberships[id];
          && FindMembership(old(tables).memberships, m.tenant, m.user) == Some(id)
          && FindMembership(tables.memberships, m.tenant, m.user) == None
    {
      if id >= |tables.memberships| || tables.memberships[id].tenant != tenant {
        return Failure(MembershipNotFound);
      }
      if tables.memberships[id].deletedAt.Some? {
        return Failure(MembershipNotFound);
      }
      var row := tables.memberships[id].(deletedAt := Some(now));
      tables := tables.(memberships := tables.memberships[id := row]);
      return Success(id);
    }

    method SoftDeleteTenant(id: Id) returns (result: Result<Id, Error>)
      modifies this`tables
      ensures (tables, result) == Tenancy.SoftDeleteTenant(old(tables), now, id)
    {
      if id >= |tables.tenants| || tables.tenants[id].deletedAt.Some? {
        return Failure(TenantNotFound);
      }
      var row := tables.tenants[id].(deletedAt := Some(now));
      tables := tables.(tenants := tables.tenants[id := row]);
      tables := tables.(memberships := CascadeMemberships(tables.memberships, id, now));
      tables := tables.(invitations := CascadeInvitations(tables.invitations, id, now));
      return Success(id);
    }
  }
}
