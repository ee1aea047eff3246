/**
 Runs of the tenancy services, each call one step: no live membership or invitation
 outlives its tenant, and no e-mail has two pending invitations in one tenant.
 */
module NoGhosts {
  import opened Wrappers
  import opened Tenancy

  datatype World = World(now: int, users: Users, tables: Tables)

  datatype Call =
    | CreateTenant(slug: string, name: string)
    | SoftDelete(tenant: Id)
    | SendInvite(tenant: Id, email: string, role: string, invitedBy: Option<Id>, known: Option<Id>, ttl: int, token: string)
    | Renew(tenant: Id, invitation: Id, ttl: int, token: string)
    | Redeem(token: string, user: Id)
    | Remove(tenant: Id, membership: Id)
    | Wait(ms: nat)

  function Do(w: World, call: Call): (World, Result<Id, Error>) {
    match call
    case CreateTenant(slug, name) =>
      var t := w.tables.(tenants := w.tables.tenants + [Tenant(slug, name, None)]);
      (w.(tables := t), Success(|w.tables.tenants|))
    case SoftDelete(tenant) =>
      var (t, r) := SoftDeleteTenant(w.tables, w.now, tenant); (w.(tables := t), r)
    case SendInvite(tenant, email, role, invitedBy, known, ttl, token) =>
      var (t, r) := Invite(w.tables, w.now, tenant, email, role, invitedBy, known, ttl, token); (w.(tables := t), r)
    case Renew(tenant, invitation, ttl, token) =>
      var (t, r) := Regenerate(w.tables, w.now, tenant, invitation, ttl, token); (w.(tables := t), r)
    case Redeem(token, user) =>
      var (t, r) := Accept(w.tables, w.users, w.now, token, user); (w.(tables := t), r)
    case Remove(tenant, membership) =>
      var (t, r) := Revoke(w.tables, w.now, tenant, membership); (w.(tables := t), r)
    case Wait(ms) => (w.(now := w.now + ms), Success(0))
  }

  function Run(w: World, calls: seq<Call>): World
    decreases |calls|
  {
    if calls == [] then w else Run(Do(w, calls[0]).0, calls[1..])
  }

  // ---------------------------------------------------------------- no ghosts

  /** A live membership or invitation belongs to a live tenant. */
  ghost predicate GhostFree(t: Tables) {
    && (forall m <- t.memberships :: m.deletedAt.None? ==> LiveTenant(t, m.tenant))
    && (forall inv <- t.invitations :: inv.deletedAt.None? ==> LiveTenant(t, inv.tenant))
  }

  /** An invite sent in the frame of a tenant that was soft-deleted. */
  predicate InviteIntoDeadTenant(w: World, call: Call) {
    call.SendInvite? && call.tenant < |w.tables.tenants| && !LiveTenant(w.tables, call.tenant)
  }

  lemma SoftDeleteGhostFree(w: World, tenant: Id)
    requires GhostFree(w.tables)
    ensures GhostFree(Do(w, SoftDelete(tenant)).0.tables)
  {
    var t, t' := w.tables, Do(w, SoftDelete(tenant)).0.tables;
    if LiveTenant(t, tenant) {
      forall m <- t'.memberships | m.deletedAt.None? ensures LiveTenant(t', m.tenant) {
        var i :| 0 <= i < |t'.memberships| && t'.memberships[i] == m;
        assert t.memberships[i] == m && m.tenant != tenant;
      }
      forall inv <- t'.invitations | inv.deletedAt.None? ensures LiveTenant(t', inv.tenant) {
        var i :| 0 <= i < |t'.invitations| && t'.invitations[i] == inv;
        assert t.invitations[i] == inv && inv.tenant != tenant;
      }
    }
  }

  lemma InviteGhostFree(w: World, call: Call)
    requires GhostFree(w.tables) && call.SendInvite?
    ensures GhostFree(Do(w, call).0.tables) <==> !InviteIntoDeadTenant(w, call)
  {
    var t, t' := w.tables, Do(w, call).0.tables;
    if InviteIntoDeadTenant(w, call) {
      assert t'.invitations[|t.invitations|] in t'.invitations;
    }
  }

  lemma RedeemGhostFree(w: World, token: string, user: Id)
    requires GhostFree(w.tables)
    ensures GhostFree(Do(w, Redeem(token, user)).0.tables)
  {
  }

  /** Exactly one kind of call can create a ghost: an invite in a soft-deleted tenant's frame. */
  lemma StepGhostFree(w: World, call: Call)
    requires GhostFree(w.tables)
    ensures GhostFree(Do(w, call).0.tables) <==> !InviteIntoDeadTenant(w, call)
  {
    match call {
      case SendInvite(_, _, _, _, _, _, _) => InviteGhostFree(w, call);
      case SoftDelete(tenant) => SoftDeleteGhostFree(w, tenant);
      case Redeem(token, user) => RedeemGhostFree(w, token, user);
      case _ =>
    }
  }

  /** `invite` is only called in the frame of a tenant that is live then (the route resolved it). */
  ghost predicate InvitesInLiveFrames(w: World, calls: seq<Call>)
    decreases |calls|
  {
    calls != [] ==> !InviteIntoDeadTenant(w, calls[0]) && InvitesInLiveFrames(Do(w, calls[0]).0, calls[1..])
  }

  lemma {:induction false} RunGhostFree(w: World, calls: seq<Call>)
    requires GhostFree(w.tables)
    ensures InvitesInLiveFrames(w, calls) ==> GhostFree(Run(w, calls).tables)
    decreases |calls|
  {
    if calls != [] && InvitesInLiveFrames(w, calls) {
      StepGhostFree(w, calls[0]);
      RunGhostFree(Do(w, calls[0]).0, calls[1..]);
    }
  }

  /** A soft-deleted tenant never comes back in a run. */
  lemma {:induction false} DeadStaysDead(w: World, calls: seq<Call>, tenant: Id)
    requires tenant < |w.tables.tenants| && !LiveTenant(w.tables, tenant)
    ensures tenant < |Run(w, calls).tables.tenants| && !LiveTenant(Run(w, calls).tables, tenant)
    decreases |calls|
  {
    if calls != [] {
      DeadStaysDead(Do(w, calls[0]).0, calls[1..], tenant);
    }
  }

  /**
   Once `softDelete` has succeeded, no later accept, after any run, can join that tenant:
   it has no live member, and an accept that succeeds is for some other tenant.
   */
  lemma NothingSurvivesSoftDelete(w: World, tenant: Id, calls: seq<Call>, token: string, user: Id)
    requires GhostFree(w.tables)
    requires Do(w, SoftDelete(tenant)).1.Success?
    requires InvitesInLiveFrames(Do(w, SoftDelete(tenant)).0, calls)
    ensures
      var w' := Run(Do(w, SoftDelete(tenant)).0, calls);
      var (t, r) := Accept(w'.tables, w'.users, w'.now, token, user);
      && (forall m <- w'.tables.memberships :: m.tenant == tenant ==> m.deletedAt.Some?)
      && (r.Success? ==> r.value < |t.memberships| && t.memberships[r.value].tenant != tenant)
  {
    var w1 := Do(w, SoftDelete(tenant)).0;
    StepGhostFree(w, SoftDelete(tenant));
    RunGhostFree(w1, calls);
    DeadStaysDead(w1, calls, tenant);
  }

  // ---------------------------------------------------------------- one pending invitation per e-mail

  ghost predicate SamePending(t: Tables, now: int, i: Id, j: Id)
    requires i < |t.invitations| && j < |t.invitations|
  {
    && Pending(t.invitations[i], now)
    && Pending(t.invitations[j], now)
    && t.invitations[i].tenant == t.invitations[j].tenant
    && t.invitations[i].email == t.invitations[j].email
  }

  ghost predicate OnePending(t: Tables, now: int) {
    forall i: Id, j: Id :: i < j < |t.invitations| ==> !SamePending(t, now, i, j)
  }

  ghost predicate NormalEmails(t: Tables) {
    forall inv <- t.invitations :: NormalizeEmail(inv.email) == inv.email
  }

  /** Another invitation is pending for the e-mail of the one being renewed. */
  ghost predicate CompetingPending(t: Tables, now: int, id: Id)
    requires id < |t.invitations|
  {
    exists j: Id :: j < |t.invitations| && j != id && Pending(t.invitations[j], now)
      && t.invitations[j].tenant == t.invitations[id].tenant
      && t.invitations[j].email == t.invitations[id].email
  }

  /** Renewing keeps the rule exactly when no other pending row competes, or the new expiry has already passed. */
  lemma RenewKeepsOnePending(t: Tables, now: int, tenant: Id, id: Id, ttl: int, token: string)
    requires OnePending(t, now)
    requires Regenerate(t, now, tenant, id, ttl, token).1.Success?
    ensures OnePending(Regenerate(t, now, tenant, id, ttl, token).0, now)
            <==> ttl <= 0 || !CompetingPending(t, now, id)
  {
    var t' := Regenerate(t, now, tenant, id, ttl, token).0;
    if ttl <= 0 || !CompetingPending(t, now, id) {
      forall i: Id, j: Id | i < j < |t'.invitations| ensures !SamePending(t', now, i, j) {
        if i != id && j != id {
          assert !SamePending(t, now, i, j);
        }
      }
    } else {
      var j: Id :| j < |t.invitations| && j != id && Pending(t.invitations[j], now)
        && t.invitations[j].tenant == t.invitations[id].tenant
        && t.invitations[j].email == t.invitations[id].email;
      assert SamePending(t', now, id, j) && SamePending(t', now, j, id);
    }
  }

  /** A renewal of a row that is not pending any more (it had expired). */
  predicate RenewsStale(w: World, call: Call) {
    && call.Renew?
    && call.invitation < |w.tables.invitations|
    && !Pending(w.tables.invitations[call.invitation], w.now)
  }

  /** An invite keeps one pending row per e-mail: it refreshes the one there is, or adds the only one. */
  lemma InviteOnePending(w: World, call: Call)
    requires OnePending(w.tables, w.now) && NormalEmails(w.tables) && call.SendInvite?
    ensures OnePending(Do(w, call).0.tables, w.now) && NormalEmails(Do(w, call).0.tables)
  {
    var t, t', normal := w.tables, Do(w, call).0.tables, NormalizeEmail(call.email);
    NormalizeIdempotent(call.email);
    var pending := FindPendingByEmail(t.invitations, call.tenant, normal, w.now);
    if t' != t && pending.Some? {
      PendingHasNoRival(t, w.now, pending.value);
      RenewKeepsOnePending(t, w.now, call.tenant, pending.value, call.ttl, call.token);
    } else {
      forall i: Id, j: Id | i < j < |t'.invitations| ensures !SamePending(t', w.now, i, j) {
        if j < |t.invitations| {
          assert !SamePending(t, w.now, i, j);
        }
      }
    }
  }

  lemma RenewOnePending(w: World, call: Call)
    requires OnePending(w.tables, w.now) && NormalEmails(w.tables) && call.Renew? && !RenewsStale(w, call)
    ensures OnePending(Do(w, call).0.tables, w.now) && NormalEmails(Do(w, call).0.tables)
  {
    if Do(w, call).0.tables != w.tables {
      PendingHasNoRival(w.tables, w.now, call.invitation);
      RenewKeepsOnePending(w.tables, w.now, call.tenant, call.invitation, call.ttl, call.token);
    }
  }

  lemma StepOnePending(w: World, call: Call)
    requires OnePending(w.tables, w.now) && NormalEmails(w.tables)
    requires !RenewsStale(w, call)
    ensures OnePending(Do(w, call).0.tables, Do(w, call).0.now) && NormalEmails(Do(w, call).0.tables)
  {
    var t, w' := w.tables, Do(w, call).0;
    if call.SendInvite? {
      InviteOnePending(w, call);
    } else if call.Renew? {
      RenewOnePending(w, call);
    } else {
      forall i: Id, j: Id | i < j < |w'.tables.invitations| ensures !SamePending(w'.tables, w'.now, i, j) {
        assert !SamePending(t, w.now, i, j);
      }
    }
  }

  lemma PendingHasNoRival(t: Tables, now: int, id: Id)
    requires OnePending(t, now) && id < |t.invitations| && Pending(t.invitations[id], now)
    ensures !CompetingPending(t, now, id)
  {
    forall j: Id | j < |t.invitations| && j != id ensures !SamePending(t, now, id, j) {
      assert if j < id then !SamePending(t, now, j, id) else !SamePending(t, now, id, j);
    }
    if CompetingPending(t, now, id) {
      var j: Id :| j < |t.invitations| && j != id && Pending(t.invitations[j], now)
        && t.invitations[j].tenant == t.invitations[id].tenant
        && t.invitations[j].email == t.invitations[id].email;
      assert SamePending(t, now, id, j);
    }
  }

  ghost predicate RenewsOnlyPending(w: World, calls: seq<Call>)
    decreases |calls|
  {
    calls != [] ==> !RenewsStale(w, calls[0]) && RenewsOnlyPending(Do(w, calls[0]).0, calls[1..])
  }

  lemma {:induction false} RunOnePending(w: World, calls: seq<Call>)
    requires OnePending(w.tables, w.now) && NormalEmails(w.tables)
    requires RenewsOnlyPending(w, calls)
    ensures OnePending(Run(w, calls).tables, Run(w, calls).now) && NormalEmails(Run(w, calls).tables)
    decreases |calls|
  {
    if calls != [] {
      StepOnePending(w, calls[0]);
      RunOnePending(Do(w, calls[0]).0, calls[1..]);
    }
  }

  /** Renewing an expired invitation next to a newer pending one leaves two pending tokens. */
  lemma RenewedExpiredRivalsNewer() returns (w: World, calls: seq<Call>)
    ensures OnePending(w.tables, w.now) && NormalEmails(w.tables)
    ensures !OnePending(Run(w, calls).tables, Run(w, calls).now)
  {
    var stale := Invitation(0, "a", "member", Sha256("x"), None, 5, None, None);
    var newer := Invitation(0, "a", "member", Sha256("y"), None, 20, None, None);
    w := World(10, map[], Tables([Tenant("s", "n", None)], [stale, newer], []));
    var call := Renew(0, 0, 10, "z");
    calls := [call];
    assert Lower("a") == "a" && NormalizeEmail("a") == "a";
    var w' := Do(w, call).0;
    assert Run(w, calls) == Run(w', []) == w';
    assert SamePending(w'.tables, w'.now, 0, 1);
  }

  // ---------------------------------------------------------------- what an accept does

  /** `accept` reports an unknown token iff every row with its hash has been soft-deleted. */
  lemma AcceptNotFound(t: Tables, users: Users, now: int, token: string, user: Id)
    ensures Accept(t, users, now, token, user).1 == Failure(InvitationNotFound) <==>
            forall inv <- t.invitations :: inv.tokenHash == Sha256(token) ==> inv.deletedAt.Some?
  {
    var found := FindByTokenHash(t.invitations, Sha256(token));
    if found.Some? {
      assert t.invitations[found.value] in t.invitations;
    }
  }

  /** Whatever row has the token's hash has been accepted or soft-deleted. */
  ghost predicate SpentToken(t: Tables, token: string) {
    forall i: Id :: i < |t.invitations| && t.invitations[i].tokenHash == Sha256(token) ==>
      t.invitations[i].acceptedAt.Some? || t.invitations[i].deletedAt.Some?
  }

  /** The call draws another token than this one. */
  predicate DrawsOther(call: Call, token: string) {
    (call.SendInvite? || call.Renew?) ==> call.token != token
  }

  lemma {:induction false} RunSpent(w: World, calls: seq<Call>, token: string)
    requires SpentToken(w.tables, token) && forall call <- calls :: DrawsOther(call, token)
    ensures SpentToken(Run(w, calls).tables, token)
    decreases |calls|
  {
    if calls != [] {
      assert calls[0] in calls;
      RunSpent(Do(w, calls[0]).0, calls[1..], token);
    }
  }

  /** Single use: a token redeemed once is refused after any run of calls, whoever presents it. */
  lemma AcceptTwice(w: World, token: string, user: Id, calls: seq<Call>, other: Id)
    requires UniqueTokens(w.tables.invitations) && Do(w, Redeem(token, user)).1.Success?
    requires forall call <- calls :: DrawsOther(call, token)
    ensures Do(Run(Do(w, Redeem(token, user)).0, calls), Redeem(token, other)).1.Failure?
  {
    var w1 := Do(w, Redeem(token, user)).0;
    assert SpentToken(w1.tables, token);
    RunSpent(w1, calls, token);
  }
}
