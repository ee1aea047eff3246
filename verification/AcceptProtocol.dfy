/** `accept`, `regenerate`, the tenant `softDelete` cascade, invites and revokes, interleaved statement by statement. */
module AcceptProtocol {
  import opened Wrappers
  import opened Tenancy

  /** Where one call is. `row` is the invitation as read, from the gate on as the gate returned it. */
  datatype Session =
    | AcceptBegun(token: string, user: Id)
    | AcceptRead(user: Id, id: Id, row: Invitation)
    | AcceptChecked(user: Id, id: Id, row: Invitation)
    | AcceptGated(user: Id, id: Id, row: Invitation)
    | AcceptLooked(user: Id, id: Id, row: Invitation, existing: Option<Id>)
    | AcceptInserted(user: Id, id: Id, row: Invitation, member: Membership)
    | RenewBegun(tenant: Id, id: Id, ttl: int, token: string)
    | RenewRead(tenant: Id, id: Id, ttl: int, token: string)
    | CascadeBegun(tenant: Id)
    | CascadeTenant(tenant: Id, at: int)
    | CascadeMembers(tenant: Id, at: int, members: set<Id>)
    | CascadeAll(tenant: Id, at: int, members: set<Id>, invitations: set<Id>)
    | Finished(result: Result<Id, Error>)

  /** A committed accept. */
  datatype Grant = Grant(invitation: Id, user: Id, at: int, membership: Id, created: bool)

  /** `tables` is what is committed; `base` counts the memberships there were at the start. */
  datatype State = State(
    now: int, users: Users, tables: Tables, sessions: map<Id, Session>, log: seq<Grant>, base: nat)

  datatype Event =
    | StartAccept(sid: Id, token: string, user: Id)
    | StartRenew(sid: Id, tenant: Id, invitation: Id, ttl: int, token: string)
    | StartCascade(sid: Id, tenant: Id)
    | Advance(sid: Id)
    | InsertInvitation(tenant: Id, email: string, role: string, invitedBy: Option<Id>, ttl: int, token: string)
    | RevokeMember(tenant: Id, membership: Id)
    | Tick(ms: nat)

  // ---------------------------------------------------------------- locks

  // Statements read committed rows. A row written inside an open transaction stays locked
  // by it until it commits or rolls back: whoever needs that row waits (the event is not
  // enabled). An insert that meets an uncommitted insert for the same live (tenant, user)
  // pair waits too; one that meets a committed live row aborts its transaction.

  predicate OwnsGate(s: Session) { s.AcceptGated? || s.AcceptLooked? || s.AcceptInserted? }

  predicate LocksInvitation(s: Session, id: Id) {
    (OwnsGate(s) && s.id == id) || (s.CascadeAll? && id in s.invitations)
  }

  predicate LocksMembership(s: Session, id: Id) {
    (s.CascadeMembers? || s.CascadeAll?) && id in s.members
  }

  predicate LocksTenant(s: Session, tenant: Id) {
    (s.CascadeTenant? || s.CascadeMembers? || s.CascadeAll?) && s.tenant == tenant
  }

  predicate InvitationBusy(st: State, id: Id) { exists k <- st.sessions :: LocksInvitation(st.sessions[k], id) }
  predicate MembershipBusy(st: State, id: Id) { exists k <- st.sessions :: LocksMembership(st.sessions[k], id) }
  predicate TenantBusy(st: State, tenant: Id) { exists k <- st.sessions :: LocksTenant(st.sessions[k], tenant) }

  predicate InsertsPair(s: Session, tenant: Id, user: Id) {
    s.AcceptInserted? && s.row.tenant == tenant && s.user == user
  }

  predicate PairBusy(st: State, tenant: Id, user: Id) {
    exists k <- st.sessions :: InsertsPair(st.sessions[k], tenant, user)
  }

  // ---------------------------------------------------------------- steps

  function Put(st: State, sid: Id, s: Session): State { st.(sessions := st.sessions[sid := s]) }

  function Fail(st: State, sid: Id, error: Error): State { Put(st, sid, Finished(Failure(error))) }

  function LiveMembers(ms: seq<Membership>, tenant: Id): set<Id> {
    set i: Id | 0 <= i < |ms| && ms[i].tenant == tenant && ms[i].deletedAt.None?
  }

  function LiveInvitations(invs: seq<Invitation>, tenant: Id): set<Id> {
    set i: Id | 0 <= i < |invs| && invs[i].tenant == tenant && invs[i].deletedAt.None?
  }

  /** COMMIT of an accept: the stamped invitation and the inserted membership become visible. */
  function CommitAccept(st: State, sid: Id): State
    requires sid in st.sessions && OwnsGate(st.sessions[sid])
  {
    var s := st.sessions[sid];
    if s.id >= |st.tables.invitations| || s.row.acceptedAt.None? then st
    else
      var invs := st.tables.invitations;
      var stamped := invs[s.id := invs[s.id].(acceptedAt := s.row.acceptedAt)];
      if s.AcceptInserted? then
        var ms := st.tables.memberships;
        Put(st.(tables := Tables(st.tables.tenants, stamped, ms + [s.member]),
                log := st.log + [Grant(s.id, s.user, s.row.acceptedAt.value, |ms|, true)]),
            sid, Finished(Success(|ms|)))
      else if s.AcceptLooked? && s.existing.Some? then
        Put(st.(tables := st.tables.(invitations := stamped),
                log := st.log + [Grant(s.id, s.user, s.row.acceptedAt.value, s.existing.value, false)]),
            sid, Finished(Success(s.existing.value)))
      else st
  }

  function CommitCascade(st: State, sid: Id): State
    requires sid in st.sessions && st.sessions[sid].CascadeAll?
  {
    var s := st.sessions[sid];
    var t := st.tables;
    if s.tenant >= |t.tenants| then st
    else
      var tenants := t.tenants[s.tenant := t.tenants[s.tenant].(deletedAt := Some(s.at))];
      var invs := seq(|t.invitations|, i requires 0 <= i < |t.invitations| =>
        if i in s.invitations then t.invitations[i].(deletedAt := Some(s.at)) else t.invitations[i]);
      var ms := seq(|t.memberships|, i requires 0 <= i < |t.memberships| =>
        if i in s.members then t.memberships[i].(deletedAt := Some(s.at)) else t.memberships[i]);
      Put(st.(tables := Tables(tenants, invs, ms)), sid, Finished(Success(s.tenant)))
  }

  /** The next statement of session `sid`; None when it has to wait, or is finished. */
  function Step(st: State, sid: Id): Option<State>
    requires sid in st.sessions
  {
    var t := st.tables;
    var invs := t.invitations;
    match st.sessions[sid]
    case AcceptBegun(token, user) =>
      var found := FindByTokenHash(invs, Sha256(token));
      if found.None? then Some(Fail(st, sid, InvitationNotFound))
      else Some(Put(st, sid, AcceptRead(user, found.value, invs[found.value])))
    case AcceptRead(user, id, row) =>
      if EmailMatches(st.users, user, row) then Some(Put(st, sid, AcceptChecked(user, id, row)))
      else Some(Fail(st, sid, InvitationEmailMismatch))
    case AcceptChecked(user, id, row) =>
      if InvitationBusy(st, id) then None
      else if id < |invs| && invs[id].tenant == row.tenant && Pending(invs[id], st.now) then
        Some(Put(st, sid, AcceptGated(user, id, invs[id].(acceptedAt := Some(st.now)))))
      else Some(Fail(st, sid, GateError(row, st.now)))
    case AcceptGated(user, id, row) =>
      Some(Put(st, sid, AcceptLooked(user, id, row, FindMembership(t.memberships, row.tenant, user))))
    case AcceptLooked(user, id, row, existing) =>
      if existing.Some? then Some(CommitAccept(st, sid))
      else if PairBusy(st, row.tenant, user) then None
      else
        var rival := FindMembership(t.memberships, row.tenant, user);
        if rival.None? then Some(Put(st, sid, AcceptInserted(user, id, row, NewMember(row, user, st.now))))
        else if MembershipBusy(st, rival.value) then None
        else Some(Fail(st, sid, UniqueViolation))
    case AcceptInserted(_, _, _, _) => Some(CommitAccept(st, sid))
    case RenewBegun(tenant, id, ttl, token) =>
      if id >= |invs| || invs[id].tenant != tenant || invs[id].deletedAt.Some? then
        Some(Fail(st, sid, InvitationNotFound))
      else if invs[id].acceptedAt.Some? then Some(Fail(st, sid, InvitationAlreadyAccepted))
      else Some(Put(st, sid, RenewRead(tenant, id, ttl, token)))
    case RenewRead(tenant, id, ttl, token) =>
      if InvitationBusy(st, id) then None
      else if id >= |invs| || invs[id].tenant != tenant || invs[id].deletedAt.Some? then
        Some(Fail(st, sid, InvitationNotFound))
      else
        var row := invs[id].(tokenHash := Sha256(token), expiresAt := st.now + ttl);
        Some(Put(st.(tables := t.(invitations := invs[id := row])), sid, Finished(Success(id))))
    case CascadeBegun(tenant) =>
      if TenantBusy(st, tenant) then None
      else if !LiveTenant(t, tenant) then Some(Fail(st, sid, TenantNotFound))
      else Some(Put(st, sid, CascadeTenant(tenant, st.now)))
    case CascadeTenant(tenant, at) =>
      Some(Put(st, sid, CascadeMembers(tenant, at, LiveMembers(t.memberships, tenant))))
    case CascadeMembers(tenant, at, members) =>
      var all := LiveInvitations(invs, tenant);
      if exists id <- all :: InvitationBusy(st, id) then None
      else Some(Put(st, sid, CascadeAll(tenant, at, members, all)))
    case CascadeAll(_, _, _, _) => Some(CommitCascade(st, sid))
    case Finished(_) => None
  }

  /** One event; one that is not enabled changes nothing. */
  function Next(st: State, e: Event): State {
    match e
    case StartAccept(sid, token, user) =>
      if sid in st.sessions then st else Put(st, sid, AcceptBegun(token, user))
    case StartRenew(sid, tenant, id, ttl, token) =>
      if sid in st.sessions then st else Put(st, sid, RenewBegun(tenant, id, ttl, token))
    case StartCascade(sid, tenant) =>
      if sid in st.sessions then st else Put(st, sid, CascadeBegun(tenant))
    case Advance(sid) =>
      if sid !in st.sessions then st
      else
        var next := Step(st, sid);
        if next.None? then st else next.value
    case InsertInvitation(tenant, email, role, invitedBy, ttl, token) =>
      if tenant >= |st.tables.tenants| then st
      else
        var inv := Invitation(
          tenant, NormalizeEmail(email), role, Sha256(token), invitedBy, st.now + ttl, None, None);
        st.(tables := st.tables.(invitations := st.tables.invitations + [inv]))
    case RevokeMember(tenant, membership) =>
      if MembershipBusy(st, membership) then st
      else st.(tables := Revoke(st.tables, st.now, tenant, membership).0)
    case Tick(ms) => st.(now := st.now + ms)
  }

  function Run(st: State, events: seq<Event>): State
    decreases |events|
  {
    if events == [] then st else Run(Next(st, events[0]), events[1..])
  }

  // ---------------------------------------------------------------- the invariant

  ghost predicate NoneLive(ms: seq<Membership>, tenant: Id, user: Id) {
    forall i: Id :: i < |ms| && ms[i].deletedAt.None? ==> !(ms[i].tenant == tenant && ms[i].user == user)
  }

  /** What a session has read that nobody may change under it. */
  ghost predicate SessionOk(st: State, s: Session) {
    var t := st.tables;
    && (s.AcceptRead? || s.AcceptChecked? || OwnsGate(s) ==>
          && s.id < |t.invitations|
          && s.row.tenant == t.invitations[s.id].tenant
          && s.row.email == t.invitations[s.id].email)
    && (s.AcceptChecked? || OwnsGate(s) ==> EmailMatches(st.users, s.user, s.row))
    && (OwnsGate(s) ==>
          && s.row.acceptedAt.Some?
          && t.invitations[s.id].acceptedAt.None?
          && s.row.role == t.invitations[s.id].role)
    && (s.AcceptLooked? && s.existing.Some? ==>
          && s.existing.value < |t.memberships|
          && t.memberships[s.existing.value].tenant == s.row.tenant
          && t.memberships[s.existing.value].user == s.user)
    && (s.AcceptInserted? ==>
          && s.member.tenant == s.row.tenant
          && s.member.user == s.user
          && s.member.role == s.row.role
          && NoneLive(t.memberships, s.row.tenant, s.user))
  }

  ghost predicate SessionsOk(st: State) {
    forall k <- st.sessions :: SessionOk(st, st.sessions[k])
  }

  /** Session `s`, were it `sid`'s, would hold nothing that another session holds. */
  ghost predicate Alone(sessions: map<Id, Session>, sid: Id, s: Session) {
    forall k <- sessions :: k != sid ==> Apart(s, sessions[k])
  }

  ghost predicate Apart(s: Session, r: Session) {
    && (forall id: Id :: LocksInvitation(s, id) ==> !LocksInvitation(r, id))
    && (s.AcceptInserted? && r.AcceptInserted? ==> !(s.row.tenant == r.row.tenant && s.user == r.user))
  }

  /** No two open transactions hold the same invitation, nor an insert for the same pair. */
  ghost predicate LocksExclusive(sessions: map<Id, Session>) {
    forall j <- sessions :: Alone(sessions, j, sessions[j])
  }

  /** A committed accept agrees with the rows it left behind. */
  ghost predicate GrantOk(st: State, g: Grant) {
    var t := st.tables;
    && g.invitation < |t.invitations|
    && g.membership < |t.memberships|
    && var inv, m := t.invitations[g.invitation], t.memberships[g.membership];
    && inv.acceptedAt == Some(g.at)
    && EmailMatches(st.users, g.user, inv)
    && m.tenant == inv.tenant
    && m.user == g.user
    && (g.created ==> m.role == inv.role)
  }

  ghost predicate LogOk(st: State) {
    && (forall g <- st.log :: GrantOk(st, g))
    && (forall i, j :: 0 <= i < j < |st.log| ==> st.log[i].invitation != st.log[j].invitation)
    && st.base <= |st.tables.memberships|
    && (forall m: Id :: st.base <= m < |st.tables.memberships| ==> Created(st.log, m))
  }

  ghost predicate Created(log: seq<Grant>, m: Id) {
    exists g <- log :: g.created && g.membership == m
  }

  ghost predicate Inv(st: State) {
    SessionsOk(st) && LocksExclusive(st.sessions) && OneLive(st.tables.memberships) && LogOk(st)
  }

  /** A state at rest: any rows, no call in progress, nothing logged yet. */
  ghost predicate AtRest(st: State) {
    st.sessions == map[] && st.log == [] && st.base == |st.tables.memberships| && OneLive(st.tables.memberships)
  }

  /** What committed rows keep from one state to a later one. */
  ghost predicate RowsEvolve(t: Tables, t': Tables) {
    && |t.invitations| <= |t'.invitations|
    && |t.memberships| <= |t'.memberships|
    && (forall i: Id :: i < |t.invitations| ==> InvitationEvolves(t.invitations[i], t'.invitations[i]))
    && (forall i: Id :: i < |t.memberships| ==> MembershipEvolves(t.memberships[i], t'.memberships[i]))
  }

  ghost predicate InvitationEvolves(i: Invitation, i': Invitation) {
    && i'.tenant == i.tenant && i'.email == i.email && i'.role == i.role
    && (i.acceptedAt.Some? ==> i'.acceptedAt == i.acceptedAt)
    && (i.deletedAt.Some? ==> i'.deletedAt.Some?)
  }

  /** A membership is only ever soft-deleted. */
  ghost predicate MembershipEvolves(m: Membership, m': Membership) {
    m' == m.(deletedAt := m'.deletedAt) && (m.deletedAt.Some? ==> m'.deletedAt.Some?)
  }

  ghost predicate Evolves(st: State, st': State) {
    st.users == st'.users && st.base == st'.base && st.log <= st'.log && RowsEvolve(st.tables, st'.tables)
  }

  // ---------------------------------------------------------------- preservation

  lemma PutExclusive(sessions: map<Id, Session>, sid: Id, s: Session)
    requires LocksExclusive(sessions) && Alone(sessions, sid, s)
    ensures LocksExclusive(sessions[sid := s])
  {
    var after := sessions[sid := s];
    forall j <- after ensures Alone(after, j, after[j]) {
      forall k <- after | k != j ensures Apart(after[j], after[k]) {
        if j == sid {
          assert Apart(s, sessions[k]);
        } else if k == sid {
          assert Apart(s, sessions[j]);
        } else {
          assert Alone(sessions, j, sessions[j]);
          assert Apart(sessions[j], sessions[k]);
        }
      }
    }
  }

  /** Everything but session `sid` and the tables, which only evolve, stays as it was. */
  lemma Keeps(st: State, st': State, sid: Id, s: Session)
    requires Inv(st) && st'.sessions == st.sessions[sid := s] && Evolves(st, st')
    requires SessionOk(st', s) && Alone(st.sessions, sid, s)
    requires forall k <- st.sessions :: k != sid ==> Undisturbed(st', st.sessions[k])
    requires OneLive(st'.tables.memberships) && LogOk(st')
    ensures Inv(st')
  {
    forall k <- st'.sessions ensures SessionOk(st', st'.sessions[k]) {
      if k != sid {
        assert SessionOk(st, st.sessions[k]) && Undisturbed(st', st.sessions[k]);
      }
    }
    PutExclusive(st.sessions, sid, s);
  }

  ghost predicate Undisturbed(st': State, s: Session) {
    && (OwnsGate(s) ==> s.id < |st'.tables.invitations| ==> st'.tables.invitations[s.id].acceptedAt.None?)
    && (s.AcceptInserted? ==> NoneLive(st'.tables.memberships, s.row.tenant, s.user))
  }

  /** A step that commits nothing keeps the invariant if the new position is sound and takes no held lock. */
  lemma PutKeeps(st: State, sid: Id, s: Session)
    requires Inv(st) && SessionOk(st, s) && Alone(st.sessions, sid, s)
    ensures Inv(Put(st, sid, s)) && Evolves(st, Put(st, sid, s))
  {
    var st' := Put(st, sid, s);
    forall k <- st.sessions ensures Undisturbed(st', st.sessions[k]) {
      assert SessionOk(st, st.sessions[k]);
    }
    Keeps(st, st', sid, s);
  }

  /** A position that holds no lock and has read nothing yet, or has ended. */
  lemma QuietKeeps(st: State, sid: Id, s: Session)
    requires Inv(st) && SessionOk(st, s) && !OwnsGate(s) && !s.CascadeAll?
    ensures Inv(Put(st, sid, s)) && Evolves(st, Put(st, sid, s))
  {
    PutKeeps(st, sid, s);
  }

  lemma CommitAcceptKeeps(st: State, sid: Id)
    requires Inv(st) && sid in st.sessions
    requires var s := st.sessions[sid]; (s.AcceptInserted? || (s.AcceptLooked? && s.existing.Some?))
    ensures Inv(CommitAccept(st, sid)) && Evolves(st, CommitAccept(st, sid))
  {
    var s, st' := st.sessions[sid], CommitAccept(st, sid);
    assert SessionOk(st, s);
    CommittedLog(st, sid);
    forall k <- st.sessions | k != sid ensures Undisturbed(st', st.sessions[k]) {
      OthersUndisturbed(st, sid, k);
    }
    Keeps(st, st', sid, st'.sessions[sid]);
  }

  lemma CommittedLog(st: State, sid: Id)
    requires Inv(st) && sid in st.sessions
    requires var s := st.sessions[sid]; (s.AcceptInserted? || (s.AcceptLooked? && s.existing.Some?))
    ensures LogOk(CommitAccept(st, sid))
  {
    var s, st' := st.sessions[sid], CommitAccept(st, sid);
    assert SessionOk(st, s);
    var latest := st'.log[|st.log|];
    assert st'.log == st.log + [latest];
    forall g <- st'.log ensures GrantOk(st', g) {}
    forall i, j | 0 <= i < j < |st'.log| ensures st'.log[i].invitation != st'.log[j].invitation {
      if j == |st.log| {
        assert GrantOk(st, st.log[i]);
      }
    }
    forall m: Id | st'.base <= m < |st'.tables.memberships| ensures Created(st'.log, m) {
      if m < |st.tables.memberships| {
        assert Created(st.log, m);
        var g :| g in st.log && g.created && g.membership == m;
        assert g in st'.log;
      } else {
        assert latest in st'.log;
      }
    }
  }

  lemma OthersUndisturbed(st: State, sid: Id, k: Id)
    requires Inv(st) && sid in st.sessions && k in st.sessions && k != sid
    requires var s := st.sessions[sid]; (s.AcceptInserted? || (s.AcceptLooked? && s.existing.Some?))
    ensures Undisturbed(CommitAccept(st, sid), st.sessions[k])
  {
    var s, r := st.sessions[sid], st.sessions[k];
    assert SessionOk(st, s) && SessionOk(st, r);
    assert Alone(st.sessions, sid, s);
    assert Apart(s, r) && LocksInvitation(s, s.id);
    if OwnsGate(r) {
      assert LocksInvitation(r, r.id);
      assert s.id != r.id;
    }
  }

  lemma CommitCascadeKeeps(st: State, sid: Id)
    requires Inv(st) && sid in st.sessions && st.sessions[sid].CascadeAll?
    ensures Inv(CommitCascade(st, sid)) && Evolves(st, CommitCascade(st, sid))
  {
    var st' := CommitCascade(st, sid);
    if st.sessions[sid].tenant < |st.tables.tenants| {
      forall k <- st.sessions | k != sid ensures Undisturbed(st', st.sessions[k]) {
        assert SessionOk(st, st.sessions[k]);
      }
      Keeps(st, st', sid, st'.sessions[sid]);
    }
  }

  /** Rewriting the token and expiry of an invitation. */
  lemma RenewKeeps(st: State, sid: Id, id: Id, row: Invitation)
    requires Inv(st) && id < |st.tables.invitations|
    requires row == st.tables.invitations[id].(tokenHash := row.tokenHash, expiresAt := row.expiresAt)
    ensures
      var st' := Put(st.(tables := st.tables.(invitations := st.tables.invitations[id := row])),
                     sid, Finished(Success(id)));
      Inv(st') && Evolves(st, st')
  {
    var st' := Put(st.(tables := st.tables.(invitations := st.tables.invitations[id := row])),
                   sid, Finished(Success(id)));
    forall k <- st.sessions ensures Undisturbed(st', st.sessions[k]) {
      assert SessionOk(st, st.sessions[k]);
    }
    Keeps(st, st', sid, Finished(Success(id)));
  }

  /** The gate: the row is free, so stamping it takes a lock nobody holds. */
  lemma GateKeeps(st: State, sid: Id)
    requires Inv(st) && sid in st.sessions && st.sessions[sid].AcceptChecked? && Step(st, sid).Some?
    ensures Inv(Step(st, sid).value) && Evolves(st, Step(st, sid).value)
  {
    var s, s' := st.sessions[sid], Step(st, sid).value.sessions[sid];
    assert SessionOk(st, s);
    forall k <- st.sessions | k != sid ensures Apart(s', st.sessions[k]) {
      assert !LocksInvitation(st.sessions[k], s.id);
    }
    PutKeeps(st, sid, s');
  }

  lemma LookKeeps(st: State, sid: Id)
    requires Inv(st) && sid in st.sessions && st.sessions[sid].AcceptGated?
    ensures Inv(Step(st, sid).value) && Evolves(st, Step(st, sid).value)
  {
    var s, s' := st.sessions[sid], Step(st, sid).value.sessions[sid];
    assert SessionOk(st, s) && Alone(st.sessions, sid, s);
    forall k <- st.sessions | k != sid ensures Apart(s', st.sessions[k]) {
      assert Apart(s, st.sessions[k]);
      assert LocksInvitation(s, s.id);
    }
    PutKeeps(st, sid, s');
  }

  lemma InsertKeeps(st: State, sid: Id)
    requires Inv(st) && sid in st.sessions && Step(st, sid).Some?
    requires st.sessions[sid].AcceptLooked? && st.sessions[sid].existing.None?
    ensures Inv(Step(st, sid).value) && Evolves(st, Step(st, sid).value)
  {
    var s, s' := st.sessions[sid], Step(st, sid).value.sessions[sid];
    assert SessionOk(st, s) && Alone(st.sessions, sid, s);
    forall k <- st.sessions | k != sid ensures Apart(s', st.sessions[k]) {
      assert Apart(s, st.sessions[k]);
      assert LocksInvitation(s, s.id);
      assert !InsertsPair(st.sessions[k], s.row.tenant, s.user);
    }
    PutKeeps(st, sid, s');
  }

  lemma CascadeAllKeeps(st: State, sid: Id)
    requires Inv(st) && sid in st.sessions && st.sessions[sid].CascadeMembers? && Step(st, sid).Some?
    ensures Inv(Step(st, sid).value) && Evolves(st, Step(st, sid).value)
  {
    var s' := Step(st, sid).value.sessions[sid];
    forall k <- st.sessions | k != sid ensures Apart(s', st.sessions[k]) {
      forall id: Id | LocksInvitation(s', id) ensures !LocksInvitation(st.sessions[k], id) {
        assert !InvitationBusy(st, id);
      }
    }
    PutKeeps(st, sid, s');
  }

  /** The steps that only read, or fail. */
  lemma ReadKeeps(st: State, sid: Id)
    requires Inv(st) && sid in st.sessions && Step(st, sid).Some?
    requires
      var s := st.sessions[sid];
      s.AcceptBegun? || s.AcceptRead? || s.RenewBegun? || s.CascadeBegun? || s.CascadeTenant?
    ensures Inv(Step(st, sid).value) && Evolves(st, Step(st, sid).value)
  {
    assert SessionOk(st, st.sessions[sid]);
    var s' := Step(st, sid).value.sessions[sid];
    assert Step(st, sid).value == Put(st, sid, s');
    QuietKeeps(st, sid, s');
  }

  lemma RenewStepKeeps(st: State, sid: Id)
    requires Inv(st) && sid in st.sessions && st.sessions[sid].RenewRead? && Step(st, sid).Some?
    ensures Inv(Step(st, sid).value) && Evolves(st, Step(st, sid).value)
  {
    var s, st' := st.sessions[sid], Step(st, sid).value;
    if st'.sessions[sid] == Finished(Success(s.id)) {
      RenewKeeps(st, sid, s.id, st'.tables.invitations[s.id]);
    } else {
      QuietKeeps(st, sid, st'.sessions[sid]);
    }
  }

  lemma CommitStepKeeps(st: State, sid: Id)
    requires Inv(st) && sid in st.sessions
    requires var s := st.sessions[sid]; (s.AcceptInserted? || (s.AcceptLooked? && s.existing.Some?) || s.CascadeAll?)
    ensures Step(st, sid).Some? && Inv(Step(st, sid).value) && Evolves(st, Step(st, sid).value)
  {
    if st.sessions[sid].CascadeAll? {
      CommitCascadeKeeps(st, sid);
    } else {
      CommitAcceptKeeps(st, sid);
    }
  }

  lemma StepKeeps(st: State, sid: Id)
    requires Inv(st) && sid in st.sessions && Step(st, sid).Some?
    ensures Inv(Step(st, sid).value) && Evolves(st, Step(st, sid).value)
  {
    var s := st.sessions[sid];
    if s.AcceptChecked? {
      GateKeeps(st, sid);
    } else if s.AcceptGated? {
      LookKeeps(st, sid);
    } else if s.AcceptLooked? && s.existing.None? {
      InsertKeeps(st, sid);
    } else if s.CascadeMembers? {
      CascadeAllKeeps(st, sid);
    } else if s.RenewRead? {
      RenewStepKeeps(st, sid);
    } else if s.AcceptLooked? || s.AcceptInserted? || s.CascadeAll? {
      CommitStepKeeps(st, sid);
    } else if !s.Finished? {
      ReadKeeps(st, sid);
    }
  }

  /** An event outside the sessions: it touches no accepted row and no held one. */
  lemma OutsideKeeps(st: State, st': State)
    requires Inv(st) && Evolves(st, st') && st'.sessions == st.sessions && st'.log == st.log
    requires |st'.tables.memberships| == |st.tables.memberships|
    requires forall i: Id :: i < |st.tables.invitations| ==> st'.tables.invitations[i] == st.tables.invitations[i]
    ensures Inv(st')
  {
    forall k <- st'.sessions ensures SessionOk(st', st'.sessions[k]) {
      assert SessionOk(st, st.sessions[k]);
    }
  }

  lemma RevokeKeeps(st: State, tenant: Id, membership: Id)
    requires Inv(st)
    ensures Inv(Next(st, RevokeMember(tenant, membership)))
    ensures Evolves(st, Next(st, RevokeMember(tenant, membership)))
  {
    OutsideKeeps(st, Next(st, RevokeMember(tenant, membership)));
  }

  lemma NextKeeps(st: State, e: Event)
    requires Inv(st)
    ensures Inv(Next(st, e)) && Evolves(st, Next(st, e))
  {
    match e {
      case StartAccept(sid, token, user) =>
        if sid !in st.sessions { QuietKeeps(st, sid, AcceptBegun(token, user)); }
      case StartRenew(sid, tenant, id, ttl, token) =>
        if sid !in st.sessions { QuietKeeps(st, sid, RenewBegun(tenant, id, ttl, token)); }
      case StartCascade(sid, tenant) =>
        if sid !in st.sessions { QuietKeeps(st, sid, CascadeBegun(tenant)); }
      case Advance(sid) =>
        if sid in st.sessions && Step(st, sid).Some? { StepKeeps(st, sid); }
      case RevokeMember(tenant, membership) => RevokeKeeps(st, tenant, membership);
      case _ => OutsideKeeps(st, Next(st, e));
    }
  }

  lemma {:induction false} RunKeeps(st: State, events: seq<Event>)
    requires Inv(st)
    ensures Inv(Run(st, events)) && Evolves(st, Run(st, events))
    decreases |events|
  {
    if events != [] {
      NextKeeps(st, events[0]);
      RunKeeps(Next(st, events[0]), events[1..]);
    }
  }

  // ---------------------------------------------------------------- the theorems

  /**
   Over every interleaving from a state at rest: an invitation has at most one committed
   accept; at most one live membership exists per (tenant, user); and every membership
   made is owed to a consumed invitation of the same tenant and role, whose normalised
   e-mail is the user's.
   */
  lemma AcceptSafety(st: State, events: seq<Event>)
    requires AtRest(st)
    ensures
      var st' := Run(st, events);
      var t := st'.tables;
      && OneLive(t.memberships)
      && (forall i, j :: 0 <= i < j < |st'.log| ==> st'.log[i].invitation != st'.log[j].invitation)
      && (forall m: Id :: st.base <= m < |t.memberships| ==> OwedTo(st', m))
  {
    RunKeeps(st, events);
    var st' := Run(st, events);
    forall m: Id | st.base <= m < |st'.tables.memberships| ensures OwedTo(st', m) {
      assert Created(st'.log, m);
      var g :| g in st'.log && g.created && g.membership == m;
      assert GrantOk(st', g);
    }
  }

  /** Membership `m` is owed to a consumed invitation of its tenant, its role and its user's e-mail. */
  ghost predicate OwedTo(st: State, m: Id)
    requires m < |st.tables.memberships|
  {
    exists g <- st.log ::
      && g.membership == m
      && g.invitation < |st.tables.invitations|
      && var inv, member := st.tables.invitations[g.invitation], st.tables.memberships[m];
      && inv.acceptedAt == Some(g.at)
      && inv.tenant == member.tenant
      && inv.role == member.role
      && g.user == member.user
      && g.user in st.users
      && NormalizeEmail(st.users[g.user]) == NormalizeEmail(inv.email)
  }

  /** Once committed, `acceptedAt` never changes, whatever else runs. */
  lemma AcceptedAtIsFinal(st: State, before: seq<Event>, after: seq<Event>, id: Id)
    requires AtRest(st)
    requires id < |Run(st, before).tables.invitations|
    requires Run(st, before).tables.invitations[id].acceptedAt.Some?
    ensures id < |Run(Run(st, before), after).tables.invitations|
    ensures Run(Run(st, before), after).tables.invitations[id].acceptedAt
         == Run(st, before).tables.invitations[id].acceptedAt
  {
    RunKeeps(st, before);
    RunKeeps(Run(st, before), after);
  }

  // ---------------------------------------------------------------- one call alone

  function Repeat(st: State, e: Event, n: nat): State
    decreases n
  {
    if n == 0 then st else Repeat(Next(st, e), e, n - 1)
  }

  lemma FinishedStays(st: State, sid: Id, n: nat)
    requires sid in st.sessions && st.sessions[sid].Finished?
    ensures Repeat(st, Advance(sid), n) == st
  {
  }

  /** The gate is passed: the rest of the accept, membership looked up, inserted and committed. */
  lemma SoloAfterGate(s3: State, sid: Id, st: State, user: Id, id: Id)
    requires AtRest(st) && id < |st.tables.invitations|
    requires s3 == Put(st, sid, AcceptGated(user, id, st.tables.invitations[id].(acceptedAt := Some(st.now))))
    ensures
      var inv := st.tables.invitations[id];
      var t1 := st.tables.(invitations := st.tables.invitations[id := inv.(acceptedAt := Some(st.now))]);
      var existing := FindMembership(st.tables.memberships, inv.tenant, user);
      var st' := Repeat(s3, Advance(sid), 3);
      if existing.Some? then
        st'.tables == t1 && st'.sessions == map[sid := Finished(Success(existing.value))]
      else
        && st'.tables == t1.(memberships := st.tables.memberships + [NewMember(inv, user, st.now)])
        && st'.sessions == map[sid := Finished(Success(|st.tables.memberships|))]
  {
    var a := Advance(sid);
    var row := st.tables.invitations[id].(acceptedAt := Some(st.now));
    var existing := FindMembership(st.tables.memberships, row.tenant, user);
    var s4 := Next(s3, a);
    assert s4 == Put(st, sid, AcceptLooked(user, id, row, existing));
    assert Repeat(s3, a, 3) == Repeat(s4, a, 2);
    RepeatTwo(s4, a);
  }

  lemma SoloFromGate(s2: State, sid: Id, st: State, token: string, user: Id, id: Id)
    requires AtRest(st) && FindByTokenHash(st.tables.invitations, Sha256(token)) == Some(id)
    requires EmailMatches(st.users, user, st.tables.invitations[id])
    requires s2 == Put(st, sid, AcceptChecked(user, id, st.tables.invitations[id]))
    ensures
      var st' := Repeat(s2, Advance(sid), 4);
      var (t, result) := Accept(st.tables, st.users, st.now, token, user);
      st'.tables == t && st'.sessions == map[sid := Finished(result)]
  {
    var a := Advance(sid);
    var inv := st.tables.invitations[id];
    var s3 := Next(s2, a);
    assert Repeat(s2, a, 4) == Repeat(s3, a, 3);
    if !Pending(inv, st.now) {
      FinishedStays(s3, sid, 3);
    } else {
      assert s3 == Put(st, sid, AcceptGated(user, id, inv.(acceptedAt := Some(st.now))));
      SoloAfterGate(s3, sid, st, user, id);
    }
  }

  /** The first two reads: refused, or on to the gate. */
  lemma SoloUpToGate(st: State, sid: Id, token: string, user: Id)
    requires AtRest(st)
    ensures
      var s2 := Repeat(Next(st, StartAccept(sid, token, user)), Advance(sid), 2);
      var found := FindByTokenHash(st.tables.invitations, Sha256(token));
      s2 == Put(st, sid,
                if found.None? then Finished(Failure(InvitationNotFound))
                else if !EmailMatches(st.users, user, st.tables.invitations[found.value]) then
                  Finished(Failure(InvitationEmailMismatch))
                else AcceptChecked(user, found.value, st.tables.invitations[found.value]))
  {
    var a := Advance(sid);
    var s0 := Next(st, StartAccept(sid, token, user));
    assert s0 == Put(st, sid, AcceptBegun(token, user));
    RepeatTwo(s0, a);
  }

  lemma RepeatTwo(st: State, e: Event)
    ensures Repeat(st, e, 2) == Next(Next(st, e), e)
  {
    assert Repeat(st, e, 2) == Repeat(Next(st, e), e, 1);
  }

  lemma RepeatSplit(st: State, e: Event, m: nat, n: nat)
    ensures Repeat(st, e, m + n) == Repeat(Repeat(st, e, m), e, n)
    decreases m
  {
    if m > 0 { RepeatSplit(Next(st, e), e, m - 1, n); }
  }

  /** Left alone, the statements of one accept add up to the service call of `Tenancy`. */
  lemma SoloAccept(st: State, sid: Id, token: string, user: Id)
    requires AtRest(st)
    ensures
      var st' := Repeat(Next(st, StartAccept(sid, token, user)), Advance(sid), 6);
      var (t, result) := Accept(st.tables, st.users, st.now, token, user);
      st'.tables == t && st'.sessions == map[sid := Finished(result)]
  {
    var s0 := Next(st, StartAccept(sid, token, user));
    var s2 := Repeat(s0, Advance(sid), 2);
    SoloUpToGate(st, sid, token, user);
    RepeatSplit(s0, Advance(sid), 2, 4);
    var found := FindByTokenHash(st.tables.invitations, Sha256(token));
    if found.None? || !EmailMatches(st.users, user, st.tables.invitations[found.value]) {
      FinishedStays(s2, sid, 4);
    } else {
      SoloFromGate(s2, sid, st, token, user, found.value);
    }
  }

  /** So do the two statements of one regenerate ... */
  lemma SoloRenew(st: State, sid: Id, tenant: Id, id: Id, ttl: int, token: string)
    requires AtRest(st)
    ensures
      var st' := Repeat(Next(st, StartRenew(sid, tenant, id, ttl, token)), Advance(sid), 2);
      var (t, result) := Regenerate(st.tables, st.now, tenant, id, ttl, token);
      st'.tables == t && st'.sessions == map[sid := Finished(result)]
  {
    var s0 := Next(st, StartRenew(sid, tenant, id, ttl, token));
    assert s0 == Put(st, sid, RenewBegun(tenant, id, ttl, token));
    RepeatTwo(s0, Advance(sid));
    var s1 := Next(s0, Advance(sid));
    if s1.sessions[sid].Finished? {
      assert Next(s1, Advance(sid)) == s1;
    } else {
      assert s1 == Put(st, sid, RenewRead(tenant, id, ttl, token));
      assert !InvitationBusy(s1, id) by {
        forall k <- s1.sessions ensures !LocksInvitation(s1.sessions[k], id) {
          assert k == sid;
        }
      }
    }
  }

  /** ... and the four of one tenant soft delete. */
  lemma SoloCascade(st: State, sid: Id, tenant: Id)
    requires AtRest(st)
    ensures
      var st' := Repeat(Next(st, StartCascade(sid, tenant)), Advance(sid), 4);
      var (t, result) := SoftDeleteTenant(st.tables, st.now, tenant);
      st'.tables == t && st'.sessions == map[sid := Finished(result)]
  {
    var s0 := Put(st, sid, CascadeBegun(tenant));
    assert Next(st, StartCascade(sid, tenant)) == s0;
    RepeatSplit(s0, Advance(sid), 2, 2);
    CascadeOpens(st, sid, tenant);
    if !LiveTenant(st.tables, tenant) {
      FinishedStays(Fail(st, sid, TenantNotFound), sid, 2);
    } else {
      var s2 := Put(st, sid, CascadeMembers(tenant, st.now, LiveMembers(st.tables.memberships, tenant)));
      RepeatTwo(s2, Advance(sid));
      CascadeCommit(st, s2, sid, tenant);
    }
  }

  /** An insert is what `invite` does for an address with nothing pending, of nobody known to be a member. */
  lemma InsertIsInvite(
    st: State, tenant: Id, email: string, role: string, invitedBy: Option<Id>, known: Option<Id>, ttl: int,
    token: string)
    requires known.Some? ==> FindMembership(st.tables.memberships, tenant, known.value).None?
    requires FindPendingByEmail(st.tables.invitations, tenant, NormalizeEmail(email), st.now).None?
    ensures Next(st, InsertInvitation(tenant, email, role, invitedBy, ttl, token))
         == st.(tables := Invite(st.tables, st.now, tenant, email, role, invitedBy, known, ttl, token).0)
  {
  }

  /** The first two statements: refused, or on to the invitations. */
  lemma CascadeOpens(st: State, sid: Id, tenant: Id)
    requires AtRest(st)
    ensures Repeat(Put(st, sid, CascadeBegun(tenant)), Advance(sid), 2)
         == if !LiveTenant(st.tables, tenant) then Fail(st, sid, TenantNotFound)
            else Put(st, sid, CascadeMembers(tenant, st.now, LiveMembers(st.tables.memberships, tenant)))
  {
    var s0 := Put(st, sid, CascadeBegun(tenant));
    RepeatTwo(s0, Advance(sid));
    if !LiveTenant(st.tables, tenant) {
      assert Next(s0, Advance(sid)) == Fail(st, sid, TenantNotFound);
    } else {
      assert Next(s0, Advance(sid)) == Put(st, sid, CascadeTenant(tenant, st.now));
    }
  }

  lemma CascadeCommit(st: State, s2: State, sid: Id, tenant: Id)
    requires AtRest(st) && LiveTenant(st.tables, tenant)
    requires s2 == Put(st, sid, CascadeMembers(tenant, st.now, LiveMembers(st.tables.memberships, tenant)))
    ensures
      var st' := Next(Next(s2, Advance(sid)), Advance(sid));
      var (t, result) := SoftDeleteTenant(st.tables, st.now, tenant);
      st'.tables == t && st'.sessions == map[sid := Finished(result)]
  {
    var members := LiveMembers(st.tables.memberships, tenant);
    var all := LiveInvitations(st.tables.invitations, tenant);
    var s3 := Put(st, sid, CascadeAll(tenant, st.now, members, all));
    assert Next(s2, Advance(sid)) == s3 by {
      forall id <- all ensures !InvitationBusy(s2, id) {
        forall k <- s2.sessions ensures !LocksInvitation(s2.sessions[k], id) {
          assert k == sid;
        }
      }
    }
    CascadeAllCommits(st, s3, sid, tenant);
  }

  lemma CascadeAllCommits(st: State, s3: State, sid: Id, tenant: Id)
    requires AtRest(st) && LiveTenant(st.tables, tenant)
    requires
      var members := LiveMembers(st.tables.memberships, tenant);
      s3 == Put(st, sid, CascadeAll(tenant, st.now, members, LiveInvitations(st.tables.invitations, tenant)))
    ensures
      var st' := Next(s3, Advance(sid));
      var (t, result) := SoftDeleteTenant(st.tables, st.now, tenant);
      st'.tables == t && st'.sessions == map[sid := Finished(result)]
  {
    var st' := CommitCascade(s3, sid);
    SameMembers(st.tables.memberships, tenant, st.now);
    SameInvitations(st.tables.invitations, tenant, st.now);
    assert Next(s3, Advance(sid)) == st';
  }

  /** Soft-deleting the live rows by their ids is soft-deleting them by their columns. */
  lemma SameMembers(ms: seq<Membership>, tenant: Id, at: int)
    ensures CascadeMemberships(ms, tenant, at)
         == seq(|ms|, i requires 0 <= i < |ms| =>
                if i in LiveMembers(ms, tenant) then ms[i].(deletedAt := Some(at)) else ms[i])
  {
  }

  lemma SameInvitations(invs: seq<Invitation>, tenant: Id, at: int)
    ensures CascadeInvitations(invs, tenant, at)
         == seq(|invs|, i requires 0 <= i < |invs| =>
                if i in LiveInvitations(invs, tenant) then invs[i].(deletedAt := Some(at)) else invs[i])
  {
  }

  // ---------------------------------------------------------------- what interleaving costs

  /** A live membership of a soft-deleted tenant. */
  ghost predicate Ghost(t: Tables) {
    exists m <- t.memberships :: m.deletedAt.None? && m.tenant < |t.tenants| && !LiveTenant(t, m.tenant)
  }

  /** One live tenant, one pending invitation for user 7. */
  const INVITATION := Invitation(0, "a", "member", Sha256("x"), None, 9, None, None)
  const STAMPED := INVITATION.(acceptedAt := Some(0))
  const MEMBER := NewMember(STAMPED, 7, 0)
  const START := State(0, map[7 := "a"], Tables([Tenant("s", "n", None)], [INVITATION], []), map[], [], 0)
  const CHECKED := Put(START, 1, AcceptChecked(7, 0, INVITATION))
  const INSERTED := Put(START, 1, AcceptInserted(7, 0, STAMPED, MEMBER))
  const WAITING := Put(INSERTED, 2, CascadeMembers(0, 0, {}))

  lemma AcceptUpToGate()
    ensures Run(START, [StartAccept(1, "x", 7), Advance(1), Advance(1)]) == CHECKED
  {
    var a := Advance(1);
    assert Lower("a") == "a" && NormalizeEmail("a") == "a";
    assert FindByTokenHash([INVITATION], Sha256("x")) == Some(0);
    RunThree(START, StartAccept(1, "x", 7), a, a);
    assert Next(START, StartAccept(1, "x", 7)) == Put(START, 1, AcceptBegun("x", 7));
    assert Next(Put(START, 1, AcceptBegun("x", 7)), a) == Put(START, 1, AcceptRead(7, 0, INVITATION));
    assert Next(Put(START, 1, AcceptRead(7, 0, INVITATION)), a) == CHECKED;
  }

  const GATED := Put(START, 1, AcceptGated(7, 0, STAMPED))
  const LOOKED := Put(START, 1, AcceptLooked(7, 0, STAMPED, None))

  lemma AcceptUpToLook()
    ensures Next(CHECKED, Advance(1)) == GATED && Next(GATED, Advance(1)) == LOOKED
  {
    assert FindMembership([], 0, 7) == None;
  }

  lemma AcceptUpToInsert()
    ensures Run(CHECKED, [Advance(1), Advance(1), Advance(1)]) == INSERTED
  {
    RunThree(CHECKED, Advance(1), Advance(1), Advance(1));
    AcceptUpToLook();
    assert Next(LOOKED, Advance(1)) == INSERTED;
  }

  lemma CascadeStarts()
    ensures Next(INSERTED, StartCascade(2, 0)) == Put(INSERTED, 2, CascadeBegun(0))
    ensures Next(Put(INSERTED, 2, CascadeBegun(0)), Advance(2)) == Put(INSERTED, 2, CascadeTenant(0, 0))
  {
  }

  lemma CascadeUpToWait()
    ensures Run(INSERTED, [StartCascade(2, 0), Advance(2), Advance(2)]) == WAITING
  {
    RunThree(INSERTED, StartCascade(2, 0), Advance(2), Advance(2));
    CascadeStarts();
    assert LiveMembers([], 0) == {};
    assert Next(Put(INSERTED, 2, CascadeTenant(0, 0)), Advance(2)) == WAITING;
  }

  const COMMITTED := START.(
    tables := Tables(START.tables.tenants, [STAMPED], [MEMBER]),
    sessions := map[1 := Finished(Success(0)), 2 := CascadeMembers(0, 0, {})],
    log := Next(WAITING, Advance(1)).log)

  lemma CascadeCommits()
    ensures Ghost(Next(Next(COMMITTED, Advance(2)), Advance(2)).tables)
  {
    var c := Advance(2);
    var s11 := Next(COMMITTED, c);
    assert LiveInvitations([STAMPED], 0) == {0};
    assert s11.sessions[2] == CascadeAll(0, 0, {}, {0}) && s11.tables == COMMITTED.tables;
    var s12 := Next(s11, c);
    assert s12.tables.memberships[0] == MEMBER && !LiveTenant(s12.tables, 0);
    assert MEMBER in s12.tables.memberships;
  }

  lemma BothCommit()
    ensures Ghost(Run(WAITING, [Advance(1), Advance(2), Advance(2)]).tables)
  {
    RunThree(WAITING, Advance(1), Advance(2), Advance(2));
    assert Next(WAITING, Advance(1)) == COMMITTED;
    CascadeCommits();
  }

  /**
   The cascade soft-deletes memberships before it waits for an invitation that an open
   accept holds: the accept's own insert, not yet committed, escapes it. `CascadeGhosts`
   says exactly when a cascade leaves no ghost.
   */
  lemma CascadeCanMissAnAccept() returns (st: State, events: seq<Event>)
    ensures AtRest(st) && !Ghost(st.tables)
    ensures Ghost(Run(st, events).tables)
  {
    st := START;
    var a, c := Advance(1), Advance(2);
    var read, insert := [StartAccept(1, "x", 7), a, a], [a, a, a];
    var wait, commit := [StartCascade(2, 0), c, c], [a, c, c];
    events := read + insert + wait + commit;
    AcceptUpToGate();
    AcceptUpToInsert();
    CascadeUpToWait();
    BothCommit();
    RunAppend(st, read + insert + wait, commit);
    RunAppend(st, read + insert, wait);
    RunAppend(st, read, insert);
  }

  lemma {:induction false} RunAppend(st: State, before: seq<Event>, after: seq<Event>)
    ensures Run(st, before + after) == Run(Run(st, before), after)
    decreases |before|
  {
    if before == [] {
      assert before + after == after;
    } else {
      RunAppend(Next(st, before[0]), before[1..], after);
      assert (before + after)[1..] == before[1..] + after;
    }
  }

  lemma RunThree(st: State, a: Event, b: Event, c: Event)
    ensures Run(st, [a, b, c]) == Next(Next(Next(st, a), b), c)
  {
    assert [a, b, c][1..] == [b, c] && [b, c][1..] == [c] && [c][1..] == [];
    var s1 := Next(st, a);
    assert Run(st, [a, b, c]) == Run(s1, [b, c]);
    var s2 := Next(s1, b);
    assert Run(s1, [b, c]) == Run(s2, [c]);
    assert Run(s2, [c]) == Run(Next(s2, c), []);
  }
}
