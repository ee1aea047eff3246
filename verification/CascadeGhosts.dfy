/**
 Exactly when a tenant soft delete, interleaved statement by statement with everything that
 `AcceptProtocol` interleaves, leaves a live row behind in its tenant.
 */
module CascadeGhosts {
  import opened Wrappers
  import opened Tenancy
  import opened AcceptProtocol

  /** No live membership and no live invitation of the tenant. */
  ghost predicate NoneLeft(t: Tables, tenant: Id) {
    LiveMembers(t.memberships, tenant) == {} && LiveInvitations(t.invitations, tenant) == {}
  }

  lemma InvitationsLeft(st: State, sid: Id)
    requires sid in st.sessions && st.sessions[sid].CascadeAll?
    requires st.sessions[sid].tenant < |st.tables.tenants|
    ensures
      var s, tenant := st.sessions[sid], st.sessions[sid].tenant;
      LiveInvitations(CommitCascade(st, sid).tables.invitations, tenant)
      == LiveInvitations(st.tables.invitations, tenant) - s.invitations
  {
  }

  /** A cascade leaves nothing iff its two statements took every row that is live when it commits. */
  lemma CommitLeavesNoneIff(st: State, sid: Id)
    requires sid in st.sessions && st.sessions[sid].CascadeAll?
    requires st.sessions[sid].tenant < |st.tables.tenants|
    ensures
      var s := st.sessions[sid];
      NoneLeft(Next(st, Advance(sid)).tables, s.tenant) <==>
        && LiveMembers(st.tables.memberships, s.tenant) <= s.members
        && LiveInvitations(st.tables.invitations, s.tenant) <= s.invitations
  {
    var s := st.sessions[sid];
    CommitStep(st, sid);
    InvitationsLeft(st, sid);
    EmptyDifference(LiveMembers(st.tables.memberships, s.tenant), s.members);
    EmptyDifference(LiveInvitations(st.tables.invitations, s.tenant), s.invitations);
  }

  lemma CommitStep(st: State, sid: Id)
    requires sid in st.sessions && st.sessions[sid].CascadeAll?
    ensures Next(st, Advance(sid)) == CommitCascade(st, sid)
  {
  }

  lemma EmptyDifference(a: set<Id>, b: set<Id>)
    ensures a - b == {} <==> a <= b
  {
    if a - b == {} {
      forall i <- a ensures i in b {
        assert i !in a - b;
      }
    }
  }

  // ---------------------------------------------------------------- what open cascades keep

  /** The tenant whose row an open cascade has locked. */
  function Deleting(s: Session): Option<Id> {
    if s.CascadeTenant? || s.CascadeMembers? || s.CascadeAll? then Some(s.tenant) else None
  }

  /** An open cascade works on an existing tenant, and has taken that tenant's invitations only. */
  ghost predicate CascadeOk(t: Tables, s: Session) {
    && (Deleting(s).Some? ==> s.tenant < |t.tenants|)
    && (s.CascadeAll? ==>
          forall i <- s.invitations :: i < |t.invitations| && t.invitations[i].tenant == s.tenant)
  }

  /** No two open cascades work on one tenant. */
  ghost predicate CascadesOk(st: State) {
    && (forall k <- st.sessions :: CascadeOk(st.tables, st.sessions[k]))
    && (forall j <- st.sessions, k <- st.sessions ::
          j != k && Deleting(st.sessions[j]).Some? ==> Deleting(st.sessions[j]) != Deleting(st.sessions[k]))
  }

  /** One session moves on, keeping or giving up its tenant. */
  lemma MoveKeeps(st: State, st': State, sid: Id, s: Session)
    requires CascadesOk(st) && st'.sessions == st.sessions[sid := s] && RowsEvolve(st.tables, st'.tables)
    requires |st'.tables.tenants| == |st.tables.tenants| && CascadeOk(st'.tables, s)
    requires
      || Deleting(s).None? || (sid in st.sessions && Deleting(st.sessions[sid]) == Deleting(s))
      || !TenantBusy(st, Deleting(s).value)
    ensures CascadesOk(st')
  {
    forall k <- st'.sessions | k != sid ensures CascadeOk(st'.tables, st'.sessions[k]) {
      assert CascadeOk(st.tables, st.sessions[k]);
      CascadeFrame(st.tables, st'.tables, st.sessions[k]);
    }
    if Deleting(s).Some? {
      forall k <- st.sessions | k != sid ensures Deleting(st.sessions[k]) != Deleting(s) {
        assert LocksTenant(st.sessions[k], s.tenant) <==> Deleting(st.sessions[k]) == Deleting(s);
      }
    }
  }

  lemma CascadeFrame(t: Tables, t': Tables, s: Session)
    requires CascadeOk(t, s) && RowsEvolve(t, t') && |t'.tenants| == |t.tenants|
    ensures CascadeOk(t', s)
  {
    if s.CascadeAll? {
      forall i <- s.invitations ensures i < |t'.invitations| && t'.invitations[i].tenant == s.tenant {
        assert InvitationEvolves(t.invitations[i], t'.invitations[i]);
      }
    }
  }

  /** Statements that write nothing but the position of their call. */
  predicate OnlyMoves(s: Session) {
    !s.AcceptLooked? && !s.AcceptInserted? && !s.RenewRead? && !s.CascadeAll?
  }

  lemma QuietStep(st: State, sid: Id)
    requires sid in st.sessions && Step(st, sid).Some? && OnlyMoves(st.sessions[sid])
    ensures sid in Step(st, sid).value.sessions
    ensures Step(st, sid).value == Put(st, sid, Step(st, sid).value.sessions[sid])
  {
  }

  /** A step moves its own session only, and removes no tenant. */
  lemma StepMoves(st: State, sid: Id)
    requires sid in st.sessions && Step(st, sid).Some?
    ensures
      var st' := Step(st, sid).value;
      && sid in st'.sessions
      && |st'.tables.tenants| == |st.tables.tenants|
      && (st' == st || st'.sessions == st.sessions[sid := st'.sessions[sid]])
  {
    if OnlyMoves(st.sessions[sid]) { QuietStep(st, sid); }
  }

  /** A step takes a free tenant, or keeps or gives up the one it has. */
  lemma StepDeletes(st: State, sid: Id)
    requires sid in st.sessions && Step(st, sid).Some? && CascadeOk(st.tables, st.sessions[sid])
    ensures
      var st' := Step(st, sid).value;
      && sid in st'.sessions
      && var s, s' := st.sessions[sid], st'.sessions[sid];
         && CascadeOk(st'.tables, s')
         && (Deleting(s').None? || Deleting(s) == Deleting(s') || !TenantBusy(st, Deleting(s').value))
  {
    if OnlyMoves(st.sessions[sid]) { QuietStep(st, sid); }
  }

  lemma AdvanceKeeps(st: State, sid: Id)
    requires Inv(st) && CascadesOk(st) && sid in st.sessions && Step(st, sid).Some?
    ensures CascadesOk(Step(st, sid).value)
  {
    var st' := Step(st, sid).value;
    StepKeeps(st, sid);
    StepMoves(st, sid);
    StepDeletes(st, sid);
    if st' != st { MoveKeeps(st, st', sid, st'.sessions[sid]); }
  }

  lemma NextCascadesOk(st: State, e: Event)
    requires Inv(st) && CascadesOk(st)
    ensures CascadesOk(Next(st, e))
  {
    var st' := Next(st, e);
    NextKeeps(st, e);
    if e.Advance? {
      if e.sid in st.sessions && Step(st, e.sid).Some? { AdvanceKeeps(st, e.sid); }
    } else if st'.sessions != st.sessions {
      MoveKeeps(st, st', e.sid, st'.sessions[e.sid]);
    } else {
      forall k <- st'.sessions ensures CascadeOk(st'.tables, st'.sessions[k]) {
        CascadeFrame(st.tables, st'.tables, st.sessions[k]);
      }
    }
  }

  lemma {:induction false} RunCascadesOk(st: State, events: seq<Event>)
    requires Inv(st) && CascadesOk(st)
    ensures Inv(Run(st, events)) && CascadesOk(Run(st, events))
    decreases |events|
  {
    if events != [] {
      NextKeeps(st, events[0]);
      NextCascadesOk(st, events[0]);
      RunCascadesOk(Next(st, events[0]), events[1..]);
    }
  }

  // ---------------------------------------------------------------- between a cascade's statements

  /** Where an open cascade can be after it was `s`. */
  predicate Follows(s: Session, s': Session) {
    || s' == s
    || s'.Finished?
    || (s.CascadeMembers? && s'.CascadeAll? && s'.tenant == s.tenant && s'.at == s.at && s'.members == s.members)
  }

  lemma StepFollows(st: State, e: Event, sid: Id)
    requires sid in st.sessions
    requires var s := st.sessions[sid]; s.CascadeMembers? || s.CascadeAll? || s.Finished?
    ensures sid in Next(st, e).sessions && Follows(st.sessions[sid], Next(st, e).sessions[sid])
  {
    if e.Advance? && e.sid in st.sessions && Step(st, e.sid).Some? {
      StepMoves(st, e.sid);
    }
  }

  lemma {:induction false} CascadeFollows(st: State, events: seq<Event>, sid: Id)
    requires sid in st.sessions
    requires var s := st.sessions[sid]; s.CascadeMembers? || s.CascadeAll? || s.Finished?
    ensures sid in Run(st, events).sessions && Follows(st.sessions[sid], Run(st, events).sessions[sid])
    decreases |events|
  {
    if events != [] {
      StepFollows(st, events[0], sid);
      CascadeFollows(Next(st, events[0]), events[1..], sid);
    }
  }

  /** What was committed since: the log grew, and by accepts that inserted behind the rows there were. */
  lemma {:induction false} NewGrantsInsertBehind(st: State, events: seq<Event>)
    ensures
      var st' := Run(st, events);
      && st.log <= st'.log
      && |st.tables.memberships| <= |st'.tables.memberships|
      && forall g <- st'.log[|st.log|..] :: g.created ==> g.membership >= |st.tables.memberships|
    decreases |events|
  {
    if events != [] {
      var st1, st' := Next(st, events[0]), Run(st, events);
      NewGrantsInsertBehind(st1, events[1..]);
      GrantInsertsBehind(st, events[0]);
      forall g <- st'.log[|st.log|..] | g.created ensures g.membership >= |st.tables.memberships| {
        var i :| |st.log| <= i < |st'.log| && st'.log[i] == g;
        if i < |st1.log| {
          assert st1.log[i] == g;
        } else {
          assert st'.log[|st1.log|..][i - |st1.log|] == g;
        }
      }
    }
  }

  lemma GrantInsertsBehind(st: State, e: Event)
    ensures InsertsBehind(st, Next(st, e))
  {
    if e.Advance? && e.sid in st.sessions && Step(st, e.sid).Some? {
      if OnlyMoves(st.sessions[e.sid]) {
        QuietStep(st, e.sid);
      } else if st.sessions[e.sid].CascadeAll? {
        assert InsertsBehind(st, CommitCascade(st, e.sid));
      }
    }
  }

  ghost predicate InsertsBehind(st: State, st': State) {
    && st.log <= st'.log
    && |st.tables.memberships| <= |st'.tables.memberships|
    && forall i :: |st.log| <= i < |st'.log| && st'.log[i].created ==>
         st'.log[i].membership >= |st.tables.memberships|
  }

  /** Invitations keep their tenants, those of `tenant` their life, and new ones are live. */
  ghost predicate Stays(invs: seq<Invitation>, invs': seq<Invitation>, tenant: Id) {
    && |invs| <= |invs'|
    && (forall i: Id :: i < |invs| ==> invs'[i].tenant == invs[i].tenant)
    && (forall i: Id :: i < |invs| && invs[i].tenant == tenant ==> invs'[i].deletedAt == invs[i].deletedAt)
    && (forall i: Id :: |invs| <= i < |invs'| && invs'[i].tenant == tenant ==> invs'[i].deletedAt.None?)
  }

  /** Only a cascade's commit soft-deletes invitations. */
  lemma StepStays(st: State, sid: Id, tenant: Id)
    requires sid in st.sessions && Step(st, sid).Some? && !st.sessions[sid].CascadeAll?
    ensures Stays(st.tables.invitations, Step(st, sid).value.tables.invitations, tenant)
  {
    if OnlyMoves(st.sessions[sid]) { QuietStep(st, sid); }
  }

  lemma CommitStays(st: State, sid: Id, tenant: Id)
    requires sid in st.sessions && st.sessions[sid].CascadeAll? && st.sessions[sid].tenant != tenant
    requires CascadeOk(st.tables, st.sessions[sid])
    ensures Stays(st.tables.invitations, CommitCascade(st, sid).tables.invitations, tenant)
  {
  }

  /** While a cascade is open, nobody else soft-deletes an invitation of its tenant. */
  lemma InvitationsStay(st: State, e: Event, sid: Id, tenant: Id)
    requires CascadesOk(st) && sid in st.sessions && st.sessions[sid].CascadeAll?
    requires sid in Next(st, e).sessions && Next(st, e).sessions[sid] == st.sessions[sid]
    requires st.sessions[sid].tenant == tenant
    ensures Stays(st.tables.invitations, Next(st, e).tables.invitations, tenant)
  {
    if e.Advance? && e.sid in st.sessions && Step(st, e.sid).Some? {
      var s := st.sessions[e.sid];
      if !s.CascadeAll? {
        StepStays(st, e.sid, tenant);
      } else if s.tenant != tenant {
        assert CascadeOk(st.tables, s);
        CommitStays(st, e.sid, tenant);
      } else {
        assert Deleting(s) == Deleting(st.sessions[sid]);
      }
    }
  }

  lemma {:induction false} InvitationsStayLive(st: State, events: seq<Event>, sid: Id)
    requires Inv(st) && CascadesOk(st) && sid in st.sessions && st.sessions[sid].CascadeAll?
    requires sid in Run(st, events).sessions && Run(st, events).sessions[sid] == st.sessions[sid]
    ensures Stays(st.tables.invitations, Run(st, events).tables.invitations, st.sessions[sid].tenant)
    decreases |events|
  {
    if events != [] {
      var st1 := Next(st, events[0]);
      StepFollows(st, events[0], sid);
      if st1.sessions[sid].Finished? {
        CascadeFollows(st1, events[1..], sid);
      }
      InvitationsStay(st, events[0], sid, st.sessions[sid].tenant);
      NextKeeps(st, events[0]);
      NextCascadesOk(st, events[0]);
      InvitationsStayLive(st1, events[1..], sid);
    }
  }

  // ---------------------------------------------------------------- the exact condition

  /** An accept of the tenant committed an insert between two states, of a membership that is still live. */
  ghost predicate JoinedSince(st: State, st': State, tenant: Id)
    requires |st.log| <= |st'.log|
  {
    exists g <- st'.log[|st.log|..] ::
      && g.created && g.membership < |st'.tables.memberships|
      && st'.tables.memberships[g.membership].tenant == tenant
      && st'.tables.memberships[g.membership].deletedAt.None?
  }

  /** An invitation of the tenant was inserted between two states. */
  ghost predicate InvitedSince(st: State, st': State, tenant: Id) {
    exists i: Id :: |st.tables.invitations| <= i < |st'.tables.invitations|
                    && st'.tables.invitations[i].tenant == tenant
  }

  /** The membership statement missed a row iff an accept joined since. */
  lemma MissedMemberIff(s1: State, events: seq<Event>, tenant: Id)
    requires Inv(s1)
    ensures
      var s4 := Run(s1, events);
      && |s1.log| <= |s4.log|
      && (LiveMembers(s4.tables.memberships, tenant) <= LiveMembers(s1.tables.memberships, tenant) <==>
            !JoinedSince(s1, s4, tenant))
  {
    var s4 := Run(s1, events);
    RunKeeps(s1, events);
    NewGrantsInsertBehind(s1, events);
    var ms1, ms4 := s1.tables.memberships, s4.tables.memberships;
    forall i: Id | i < |ms1| && i in LiveMembers(ms4, tenant) ensures i in LiveMembers(ms1, tenant) {
      assert MembershipEvolves(ms1[i], ms4[i]);
    }
    if JoinedSince(s1, s4, tenant) {
      var g :| g in s4.log[|s1.log|..] && g.created && g.membership < |ms4|
        && ms4[g.membership].tenant == tenant && ms4[g.membership].deletedAt.None?;
      assert g.membership in LiveMembers(ms4, tenant) && g.membership >= |ms1|;
    }
    forall i: Id | i in LiveMembers(ms4, tenant) && i >= |ms1| ensures JoinedSince(s1, s4, tenant) {
      assert Created(s4.log, i);
      var g :| g in s4.log && g.created && g.membership == i;
      GrantIsNew(s1, s4, g);
    }
  }

  lemma GrantIsNew(s1: State, s4: State, g: Grant)
    requires Inv(s1) && s1.log <= s4.log && g in s4.log && g.membership >= |s1.tables.memberships|
    ensures g in s4.log[|s1.log|..]
  {
    forall i | 0 <= i < |s1.log| ensures s4.log[i] != g {
      assert s1.log[i] == s4.log[i];
      assert GrantOk(s1, s1.log[i]);
    }
    var i :| 0 <= i < |s4.log| && s4.log[i] == g;
    assert s4.log[|s1.log|..][i - |s1.log|] == g;
  }

  /** The invitation statement missed a row iff one was inserted since. */
  lemma MissedInvitationIff(s3: State, events: seq<Event>, sid: Id)
    requires Inv(s3) && CascadesOk(s3) && sid in s3.sessions && s3.sessions[sid].CascadeAll?
    requires sid in Run(s3, events).sessions && Run(s3, events).sessions[sid] == s3.sessions[sid]
    ensures
      var s4, tenant := Run(s3, events), s3.sessions[sid].tenant;
      LiveInvitations(s4.tables.invitations, tenant) <= LiveInvitations(s3.tables.invitations, tenant) <==>
        !InvitedSince(s3, s4, tenant)
  {
    var s4, tenant := Run(s3, events), s3.sessions[sid].tenant;
    InvitationsStayLive(s3, events, sid);
    if InvitedSince(s3, s4, tenant) {
      var i: Id :| |s3.tables.invitations| <= i < |s4.tables.invitations| && s4.tables.invitations[i].tenant == tenant;
      assert i in LiveInvitations(s4.tables.invitations, tenant);
    }
  }

  /**
   The five states of one cascade in a run: about to take the memberships, having taken
   them, about to take the invitations, having taken them, and about to commit.
   */
  ghost predicate OneCascade(
    s0: State, s1: State, during1: seq<Event>, s2: State, s3: State, during2: seq<Event>, s4: State, sid: Id) {
    && sid in s0.sessions && s0.sessions[sid].CascadeTenant? && s1 == Next(s0, Advance(sid))
    && s2 == Run(s1, during1) && sid in s2.sessions && s2.sessions[sid].CascadeMembers?
    && s3 == Next(s2, Advance(sid)) && sid in s3.sessions && s3.sessions[sid].CascadeAll?
    && s4 == Run(s3, during2) && sid in s4.sessions && s4.sessions[sid].CascadeAll?
  }

  /**
   In every run: a cascade leaves its tenant without a live membership or invitation if and
   only if no accept of the tenant committed an insert between its membership statement and
   its commit (other than one revoked again), and no invitation of the tenant was inserted
   between its invitation statement and its commit.
   */
  lemma CascadeLeavesNoGhostIff(
    start: State, before: seq<Event>, s1: State, during1: seq<Event>, s2: State, s3: State, during2: seq<Event>,
    s4: State, sid: Id)
    requires AtRest(start)
    requires OneCascade(Run(start, before), s1, during1, s2, s3, during2, s4, sid)
    ensures |s1.log| <= |s4.log|
    ensures
      var tenant := s4.sessions[sid].tenant;
      NoneLeft(Next(s4, Advance(sid)).tables, tenant) <==>
        !JoinedSince(s1, s4, tenant) && !InvitedSince(s3, s4, tenant)
  {
    var s0 := Run(start, before);
    RunCascadesOk(start, before);
    CascadeKeeps(s0, s1, during1, s2, s3, during2, s4, sid);
    CascadeTook(s0, s1, during1, s2, s3, during2, s4, sid);
    CascadeMissed(s1, during1, s2, s3, during2, s4, sid);
    CommitLeavesNoneIff(s4, sid);
  }

  lemma CascadeMissed(
    s1: State, during1: seq<Event>, s2: State, s3: State, during2: seq<Event>, s4: State, sid: Id)
    requires Inv(s1) && Inv(s3) && CascadesOk(s3)
    requires s2 == Run(s1, during1) && s3 == Next(s2, Advance(sid)) && s4 == Run(s3, during2)
    requires sid in s3.sessions && s3.sessions[sid].CascadeAll? && sid in s4.sessions
    requires s4.sessions[sid] == s3.sessions[sid]
    requires
      var s := s4.sessions[sid];
      && s.members == LiveMembers(s1.tables.memberships, s.tenant)
      && s.invitations == LiveInvitations(s3.tables.invitations, s.tenant)
    ensures |s1.log| <= |s4.log|
    ensures
      var s := s4.sessions[sid];
      && (LiveMembers(s4.tables.memberships, s.tenant) <= s.members <==> !JoinedSince(s1, s4, s.tenant))
      && (LiveInvitations(s4.tables.invitations, s.tenant) <= s.invitations <==> !InvitedSince(s3, s4, s.tenant))
  {
    RunThrough(s1, during1, sid, during2);
    MissedMemberIff(s1, during1 + [Advance(sid)] + during2, s4.sessions[sid].tenant);
    MissedInvitationIff(s3, during2, sid);
  }

  lemma CascadeTook(
    s0: State, s1: State, during1: seq<Event>, s2: State, s3: State, during2: seq<Event>, s4: State, sid: Id)
    requires OneCascade(s0, s1, during1, s2, s3, during2, s4, sid)
    ensures s4.sessions[sid] == s3.sessions[sid]
    ensures s4.sessions[sid].members == LiveMembers(s1.tables.memberships, s4.sessions[sid].tenant)
    ensures s4.sessions[sid].invitations == LiveInvitations(s3.tables.invitations, s4.sessions[sid].tenant)
  {
    CascadeFollows(s1, during1, sid);
    CascadeFollows(s3, during2, sid);
  }

  lemma CascadeKeeps(
    s0: State, s1: State, during1: seq<Event>, s2: State, s3: State, during2: seq<Event>, s4: State, sid: Id)
    requires Inv(s0) && CascadesOk(s0) && OneCascade(s0, s1, during1, s2, s3, during2, s4, sid)
    ensures Inv(s1) && Inv(s3) && CascadesOk(s3)
    ensures s4.sessions[sid].tenant < |s4.tables.tenants|
  {
    NextKeeps(s0, Advance(sid));
    NextCascadesOk(s0, Advance(sid));
    RunCascadesOk(s1, during1);
    NextKeeps(s2, Advance(sid));
    NextCascadesOk(s2, Advance(sid));
    RunCascadesOk(s3, during2);
    assert CascadeOk(s4.tables, s4.sessions[sid]);
  }

  lemma RunThrough(s1: State, during1: seq<Event>, sid: Id, during2: seq<Event>)
    ensures Run(s1, during1 + [Advance(sid)] + during2) == Run(Next(Run(s1, during1), Advance(sid)), during2)
  {
    var s2 := Run(s1, during1);
    RunAppend(s1, during1 + [Advance(sid)], during2);
    RunAppend(s1, during1, [Advance(sid)]);
    assert [Advance(sid)][1..] == [];
    assert Run(s2, [Advance(sid)]) == Run(Next(s2, Advance(sid)), []);
  }
}
