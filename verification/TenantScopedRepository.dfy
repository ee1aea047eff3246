/** packages/kit/tenancy/src/repository.ts: the soft-delete repository over one table shared by all tenants. */
module TenantScopedRepository {
  import opened Wrappers
  import opened Tables
  import Private = SoftDeleteRepository

  /** `active` and `scopedAll`: the tenant clause, with and without the soft-delete clause. */
  function Active(tenant: string): Filter { Filter(Some(tenant), true, None) }
  function ScopedAll(tenant: string): Filter { Filter(Some(tenant), false, None) }

  function StripTenantColumn(c: Columns, data: Payload): Payload {
    if c.tenant !in data.cols then data else Payload(data.id, data.cols - {c.tenant})
  }

  function Stamp(c: Columns, tenant: string, data: Payload): Payload {
    Payload(data.id, data.cols[c.tenant := Text(tenant)])
  }

  /** One call under the tenant frame `tenant`. */
  function Step(c: Columns, t: seq<Row>, tenant: string, op: Op): (seq<Row>, Reply) {
    var active, all := Active(tenant), ScopedAll(tenant);
    match op
    case FindById(id) => (t, One(First(Select(c, t, active.(id := Some(id))))))
    case FindByIdOrThrow(id) =>
      var found := First(Select(c, t, active.(id := Some(id))));
      (t, if found.None? then Failed(NoResult) else One(found))
    case FindAll => (t, Many(Select(c, t, active)))
    case FindPaginated(limit, offset, order) => (t, Paginate(Select(c, t, active), limit, offset, order))
    case FindPaginatedByPage(page, limit, order) =>
      (t, Paginate(Select(c, t, active), limit, (page - 1) * limit, order))
    case CountLive => (t, Count(|Select(c, t, active)|))
    case FindByIdIncludingDeleted(id) => (t, One(First(Select(c, t, all.(id := Some(id))))))
    case FindAllIncludingDeleted => (t, Many(Select(c, t, all)))
    case FindPaginatedIncludingDeleted(limit, offset, order) =>
      (t, Paginate(Select(c, t, all), limit, offset, order))
    case Create(data, drawn) => Insert(t, Stamp(c, tenant, data), drawn)
    case Update(id, data) => Change(c, t, active.(id := Some(id)), StripTenantColumn(c, data))
    case SoftDelete(id, now) =>
      Change(c, t, active.(id := Some(id)), Payload(None, map[c.deletedAt := Instant(now)]))
    case Restore(id) => Change(c, t, all.(id := Some(id)), Payload(None, map[c.deletedAt := Null]))
    case HardDelete(id) =>
      (DeleteRows(c, t, all.(id := Some(id))), One(First(Select(c, t, all.(id := Some(id))))))
  }

  /** A call made under a frame, or under none: then it throws and changes nothing. */
  datatype Call = Call(frame: Option<string>, op: Op)

  function Do(c: Columns, t: seq<Row>, call: Call): (seq<Row>, Reply) {
    if call.frame.None? then (t, Failed(TenantNotResolved)) else Step(c, t, call.frame.value, call.op)
  }

  /** What tenant `u` owns of the shared table. */
  function Slice(c: Columns, t: seq<Row>, u: string): seq<Row> { Select(c, t, ScopedAll(u)) }

  /** The call as a private repository would receive it: the create stamped, the update stripped. */
  function Privately(c: Columns, tenant: string, op: Op): Op {
    match op
    case Create(data, drawn) => Create(Stamp(c, tenant, data), drawn)
    case Update(id, data) => Update(id, StripTenantColumn(c, data))
    case _ => op
  }

  ghost predicate Owned(c: Columns, u: string, r: Row) { Matches(c, ScopedAll(u), r) }

  /** The key `id` is in use, and only by rows that are not of tenant `u`. */
  ghost predicate HeldByOthers(c: Columns, t: seq<Row>, u: string, id: string) {
    Holds(t, id) && !Holds(Slice(c, t, u), id)
  }

  /**
   The one way a call can notice another tenant: it writes a primary key that only
   another tenant's rows use, in a new row or in an own live row that it renames.
   */
  ghost predicate ForeignKeyReuse(c: Columns, t: seq<Row>, tenant: string, op: Op) {
    match op
    case Create(data, drawn) => HeldByOthers(c, t, tenant, NewKey(data, drawn))
    case Update(id, data) =>
      && data.id.Some?
      && HeldByOthers(c, t, tenant, data.id.value)
      && Select(c, Slice(c, t, tenant), Private.WithId(Private.Live, id)) != []
    case _ => false
  }

  // ---------------------------------------------------------------- statements and slices

  /** The clause a scoped filter adds is the slice: filtering twice is filtering once. */
  lemma {:induction false} SelectThroughSlice(c: Columns, t: seq<Row>, u: string, f: Filter)
    requires f.tenant.None?
    ensures Select(c, t, f.(tenant := Some(u))) == Select(c, Slice(c, t, u), f)
  {
    if t != [] {
      SelectThroughSlice(c, t[1..], u, f);
      if Owned(c, u, t[0]) {
        assert Slice(c, t, u) == [t[0]] + Slice(c, t[1..], u);
      } else {
        assert Slice(c, t, u) == Slice(c, t[1..], u);
      }
    }
  }

  /** An update that leaves the tenant column alone acts on its own slice as on a private table ... */
  lemma {:induction false} UpdateOwnSlice(c: Columns, t: seq<Row>, u: string, f: Filter, p: Payload)
    requires f.tenant.None? && c.tenant !in p.cols
    ensures Slice(c, UpdateRows(c, t, f.(tenant := Some(u)), p), u) == UpdateRows(c, Slice(c, t, u), f, p)
    ensures Returned(c, t, f.(tenant := Some(u)), p) == Returned(c, Slice(c, t, u), f, p)
  {
    if t != [] {
      UpdateOwnSlice(c, t[1..], u, f, p);
      var g := f.(tenant := Some(u));
      assert UpdateRows(c, t, g, p)[1..] == UpdateRows(c, t[1..], g, p);
      if Owned(c, u, t[0]) {
        assert Slice(c, t, u) == [t[0]] + Slice(c, t[1..], u);
      } else {
        assert Slice(c, t, u) == Slice(c, t[1..], u);
      }
    }
  }

  /** ... and not at all on any other slice. */
  lemma {:induction false} UpdateOtherSlice(c: Columns, t: seq<Row>, u: string, v: string, f: Filter, p: Payload)
    requires u != v && c.tenant !in p.cols
    ensures Slice(c, UpdateRows(c, t, f.(tenant := Some(u)), p), v) == Slice(c, t, v)
  {
    if t != [] {
      UpdateOtherSlice(c, t[1..], u, v, f, p);
      var g := f.(tenant := Some(u));
      assert UpdateRows(c, t, g, p)[1..] == UpdateRows(c, t[1..], g, p);
    }
  }

  lemma DeleteHead(c: Columns, t: seq<Row>, f: Filter)
    requires t != []
    ensures DeleteRows(c, t, f)
         == if Matches(c, f, t[0]) then DeleteRows(c, t[1..], f) else [t[0]] + DeleteRows(c, t[1..], f)
  {
  }

  /** A delete acts on its own slice as on a private table ... */
  lemma {:induction false} DeleteOwnSlice(c: Columns, t: seq<Row>, u: string, f: Filter)
    requires f.tenant.None?
    ensures Slice(c, DeleteRows(c, t, f.(tenant := Some(u))), u) == DeleteRows(c, Slice(c, t, u), f)
  {
    if t != [] {
      var g := f.(tenant := Some(u));
      var rest := DeleteRows(c, t[1..], g);
      DeleteOwnSlice(c, t[1..], u, f);
      DeleteHead(c, t, g);
      if Owned(c, u, t[0]) {
        var own := Slice(c, t, u);
        assert own == [t[0]] + Slice(c, t[1..], u);
        assert own[1..] == Slice(c, t[1..], u);
        DeleteHead(c, own, f);
      } else {
        assert Slice(c, t, u) == Slice(c, t[1..], u);
        assert !Matches(c, g, t[0]);
      }
    }
  }

  /** ... and not at all on any other slice. */
  lemma {:induction false} DeleteOtherSlice(c: Columns, t: seq<Row>, u: string, v: string, f: Filter)
    requires u != v
    ensures Slice(c, DeleteRows(c, t, f.(tenant := Some(u))), v) == Slice(c, t, v)
  {
    if t != [] {
      var g := f.(tenant := Some(u));
      DeleteOtherSlice(c, t[1..], u, v, f);
      DeleteHead(c, t, g);
    }
  }

  lemma DeleteSlices(c: Columns, t: seq<Row>, u: string, v: string, f: Filter)
    requires f.tenant.None?
    ensures Slice(c, DeleteRows(c, t, f.(tenant := Some(u))), u) == DeleteRows(c, Slice(c, t, u), f)
    ensures u != v ==> Slice(c, DeleteRows(c, t, f.(tenant := Some(u))), v) == Slice(c, t, v)
  {
    DeleteOwnSlice(c, t, u, f);
    if u != v { DeleteOtherSlice(c, t, u, v, f); }
  }

  lemma {:induction false} SliceAppend(c: Columns, t: seq<Row>, r: Row, u: string)
    ensures Slice(c, t + [r], u) == Slice(c, t, u) + (if Owned(c, u, r) then [r] else [])
  {
    if t == [] {
      assert [] + [r] == [r];
    } else {
      SliceAppend(c, t[1..], r, u);
      assert (t + [r])[1..] == t[1..] + [r];
    }
  }

  lemma {:induction false} SliceMembers(c: Columns, t: seq<Row>, u: string, r: Row)
    ensures r in Slice(c, t, u) <==> r in t && Owned(c, u, r)
  {
    if t != [] {
      SliceMembers(c, t[1..], u, r);
      assert t == [t[0]] + t[1..];
    }
  }

  /** The primary key: no two rows of the table share an id. */
  ghost predicate UniqueIds(t: seq<Row>) {
    forall i, j :: 0 <= i < j < |t| ==> t[i].id != t[j].id
  }

  /** A key clash seen by a scoped update is one of the slice's own, or the reuse of a foreign key. */
  lemma ClashThroughSlice(c: Columns, t: seq<Row>, u: string, f: Filter, p: Payload)
    requires UniqueIds(t) && f.tenant.None? && f.id.Some?
    ensures KeyClash(c, t, f.(tenant := Some(u)), p) <==>
            || KeyClash(c, Slice(c, t, u), f, p)
            || (p.id.Some? && HeldByOthers(c, t, u, p.id.value) && Select(c, Slice(c, t, u), f) != [])
  {
    var g := f.(tenant := Some(u));
    SelectThroughSlice(c, t, u, f);
    forall r ensures r in Slice(c, t, u) <==> r in t && Owned(c, u, r) {
      SliceMembers(c, t, u, r);
    }
  }

  /** An insert clashes in the shared table iff it clashes in the slice or reuses a foreign key. */
  lemma HoldsThroughSlice(c: Columns, t: seq<Row>, u: string, id: string)
    ensures Holds(t, id) <==> Holds(Slice(c, t, u), id) || HeldByOthers(c, t, u, id)
  {
    forall r ensures r in Slice(c, t, u) <==> r in t && Owned(c, u, r) {
      SliceMembers(c, t, u, r);
    }
  }

  // ---------------------------------------------------------------- one call

  /**
   One call under tenant `u`: its reply and its effect on u's slice are those of a
   private soft-delete repository holding just that slice, if and only if the call
   does not write a primary key that only other tenants' rows use.
   */
  lemma CallRefinesPrivate(c: Columns, t: seq<Row>, u: string, op: Op)
    requires c.tenant != c.deletedAt && UniqueIds(t)
    ensures
      var (t', reply) := Step(c, t, u, op);
      var (own', reply') := Private.Step(c, Slice(c, t, u), Privately(c, u, op));
      && (!ForeignKeyReuse(c, t, u, op) ==> Slice(c, t', u) == own' && reply == reply')
      && (ForeignKeyReuse(c, t, u, op) ==> reply == Failed(UniqueViolation) != reply' && t' == t)
  {
    var own := Slice(c, t, u);
    SelectThroughSlice(c, t, u, Private.Live);
    SelectThroughSlice(c, t, u, Private.Everything);
    match op {
      case FindById(id) => SelectThroughSlice(c, t, u, Private.WithId(Private.Live, id));
      case FindByIdOrThrow(id) => SelectThroughSlice(c, t, u, Private.WithId(Private.Live, id));
      case FindByIdIncludingDeleted(id) => SelectThroughSlice(c, t, u, Private.WithId(Private.Everything, id));
      case Create(data, drawn) =>
        var row := Row(NewKey(data, drawn), Stamp(c, u, data).cols);
        HoldsThroughSlice(c, t, u, row.id);
        SliceAppend(c, t, row, u);
      case Update(id, data) => ChangeRefinesPrivate(c, t, u, Private.WithId(Private.Live, id), StripTenantColumn(c, data));
      case SoftDelete(id, now) =>
        ChangeRefinesPrivate(c, t, u, Private.WithId(Private.Live, id), Payload(None, map[c.deletedAt := Instant(now)]));
      case Restore(id) =>
        ChangeRefinesPrivate(c, t, u, Private.WithId(Private.Everything, id), Payload(None, map[c.deletedAt := Null]));
      case HardDelete(id) =>
        SelectThroughSlice(c, t, u, Private.WithId(Private.Everything, id));
        DeleteSlices(c, t, u, u, Private.WithId(Private.Everything, id));
      case _ =>
    }
  }

  lemma ChangeRefinesPrivate(c: Columns, t: seq<Row>, u: string, f: Filter, p: Payload)
    requires UniqueIds(t) && f.tenant.None? && f.id.Some? && c.tenant !in p.cols
    ensures
      var (t', reply) := Change(c, t, f.(tenant := Some(u)), p);
      var (own', reply') := Change(c, Slice(c, t, u), f, p);
      if p.id.Some? && HeldByOthers(c, t, u, p.id.value) && Select(c, Slice(c, t, u), f) != [] then
        reply == Failed(UniqueViolation) != reply' && t' == t
      else
        Slice(c, t', u) == own' && reply == reply'
  {
    ClashThroughSlice(c, t, u, f, p);
    UpdateOwnSlice(c, t, u, f, p);
  }

  /** No call under `u` changes any other tenant's slice, whatever it writes. */
  lemma CallLeavesOthersAlone(c: Columns, t: seq<Row>, u: string, op: Op, v: string)
    requires c.tenant != c.deletedAt && u != v
    ensures Slice(c, Step(c, t, u, op).0, v) == Slice(c, t, v)
  {
    match op {
      case Create(data, drawn) => SliceAppend(c, t, Row(NewKey(data, drawn), Stamp(c, u, data).cols), v);
      case Update(id, data) => UpdateOtherSlice(c, t, u, v, Private.WithId(Private.Live, id), StripTenantColumn(c, data));
      case SoftDelete(id, now) =>
        UpdateOtherSlice(c, t, u, v, Private.WithId(Private.Live, id), Payload(None, map[c.deletedAt := Instant(now)]));
      case Restore(id) =>
        UpdateOtherSlice(c, t, u, v, Private.WithId(Private.Everything, id), Payload(None, map[c.deletedAt := Null]));
      case HardDelete(id) => DeleteSlices(c, t, u, v, Private.WithId(Private.Everything, id));
      case _ =>
    }
  }

  // ---------------------------------------------------------------- the primary key is kept

  lemma {:induction false} UpdateAt(c: Columns, t: seq<Row>, f: Filter, p: Payload)
    ensures |UpdateRows(c, t, f, p)| == |t|
    ensures forall i :: 0 <= i < |t| ==>
              UpdateRows(c, t, f, p)[i] == if Matches(c, f, t[i]) then SetRow(t[i], p) else t[i]
    ensures forall r <- t :: Matches(c, f, r) ==> Select(c, t, f) != []
  {
    if t != [] {
      UpdateAt(c, t[1..], f, p);
    }
  }

  lemma {:induction false} DeleteKeepsIds(c: Columns, t: seq<Row>, f: Filter)
    requires UniqueIds(t)
    ensures UniqueIds(DeleteRows(c, t, f))
    ensures forall r <- DeleteRows(c, t, f) :: r in t
  {
    if t != [] {
      DeleteKeepsIds(c, t[1..], f);
      forall r | r in DeleteRows(c, t[1..], f) ensures r.id != t[0].id {
        var i :| 0 <= i < |t[1..]| && t[1..][i] == r;
        assert t[i + 1] == r;
      }
    }
  }

  lemma ChangeKeepsIds(c: Columns, t: seq<Row>, f: Filter, p: Payload)
    requires UniqueIds(t) && f.id.Some?
    ensures UniqueIds(Change(c, t, f, p).0)
  {
    UpdateAt(c, t, f, p);
    if !KeyClash(c, t, f, p) {
      var t' := UpdateRows(c, t, f, p);
      forall i, j | 0 <= i < j < |t| ensures t'[i].id != t'[j].id {
        assert t[i] in t && t[j] in t;
      }
    }
  }

  lemma StepKeepsIds(c: Columns, t: seq<Row>, u: string, op: Op)
    requires UniqueIds(t)
    ensures UniqueIds(Step(c, t, u, op).0)
  {
    match op {
      case Create(data, drawn) =>
      case Update(id, data) => ChangeKeepsIds(c, t, Active(u).(id := Some(id)), StripTenantColumn(c, data));
      case SoftDelete(id, now) =>
        ChangeKeepsIds(c, t, Active(u).(id := Some(id)), Payload(None, map[c.deletedAt := Instant(now)]));
      case Restore(id) =>
        ChangeKeepsIds(c, t, ScopedAll(u).(id := Some(id)), Payload(None, map[c.deletedAt := Null]));
      case HardDelete(id) => DeleteKeepsIds(c, t, ScopedAll(u).(id := Some(id)));
      case _ =>
    }
  }

  // ---------------------------------------------------------------- whole runs

  /** Calls of any tenants, in any order, on the one shared table. */
  function Run(c: Columns, t: seq<Row>, calls: seq<Call>): (seq<Row>, seq<Reply>)
    decreases |calls|
  {
    if calls == [] then (t, [])
    else
      var (t1, reply) := Do(c, t, calls[0]);
      var (t2, replies) := Run(c, t1, calls[1..]);
      (t2, [reply] + replies)
  }

  /** The calls tenant `u` made, as its private repository receives them. */
  function OwnCalls(c: Columns, calls: seq<Call>, u: string): seq<Op> {
    if calls == [] then []
    else (if calls[0].frame == Some(u) then [Privately(c, u, calls[0].op)] else []) + OwnCalls(c, calls[1..], u)
  }

  /** The replies tenant `u` received. */
  function OwnReplies(calls: seq<Call>, replies: seq<Reply>, u: string): seq<Reply>
    requires |calls| == |replies|
  {
    if calls == [] then []
    else (if calls[0].frame == Some(u) then [replies[0]] else []) + OwnReplies(calls[1..], replies[1..], u)
  }

  /** At no point of the run does `u` write a key that only other tenants' rows use. */
  ghost predicate NeverReusesForeignKey(c: Columns, t: seq<Row>, calls: seq<Call>, u: string)
    decreases |calls|
  {
    calls != [] ==>
      && (calls[0].frame == Some(u) ==> !ForeignKeyReuse(c, t, u, calls[0].op))
      && NeverReusesForeignKey(c, Do(c, t, calls[0]).0, calls[1..], u)
  }

  /**
   Tenant isolation. Under any interleaving with other tenants' calls, tenant `u` gets
   exactly the replies of a private soft-delete repository that ran only u's calls if
   and only if u never writes a key that only foreign rows use; and then the rows
   it ends with are also those of the private repository.
   */
  lemma {:induction false} TenantIsolation(c: Columns, t: seq<Row>, calls: seq<Call>, u: string)
    requires c.tenant != c.deletedAt && UniqueIds(t)
    ensures |Run(c, t, calls).1| == |calls|
    ensures
      var (t', replies) := Run(c, t, calls);
      var (own', replies') := Private.Run(c, Slice(c, t, u), OwnCalls(c, calls, u));
      && (NeverReusesForeignKey(c, t, calls, u) <==> OwnReplies(calls, replies, u) == replies')
      && (NeverReusesForeignKey(c, t, calls, u) ==> Slice(c, t', u) == own')
    decreases |calls|
  {
    if calls != [] {
      var call := calls[0];
      var (t1, reply) := Do(c, t, call);
      var rest := Run(c, t1, calls[1..]).1;
      if call.frame.Some? {
        StepKeepsIds(c, t, call.frame.value, call.op);
      }
      TenantIsolation(c, t1, calls[1..], u);
      assert Run(c, t, calls).1[1..] == rest;
      assert OwnReplies(calls, Run(c, t, calls).1, u)
          == (if call.frame == Some(u) then [reply] else []) + OwnReplies(calls[1..], rest, u);
      if call.frame == Some(u) {
        CallRefinesPrivate(c, t, u, call.op);
        var (own1, reply') := Private.Step(c, Slice(c, t, u), Privately(c, u, call.op));
        var replies' := Private.Run(c, own1, OwnCalls(c, calls[1..], u)).1;
        HeadAndTail(reply, OwnReplies(calls[1..], rest, u), reply', replies');
      } else {
        if call.frame.Some? {
          CallLeavesOthersAlone(c, t, call.frame.value, call.op, u);
        }
        assert OwnCalls(c, calls, u) == OwnCalls(c, calls[1..], u);
      }
    }
  }

  lemma HeadAndTail(x: Reply, xs: seq<Reply>, y: Reply, ys: seq<Reply>)
    ensures [x] + xs == [y] + ys <==> x == y && xs == ys
  {
    assert ([x] + xs)[1..] == xs && ([y] + ys)[1..] == ys;
    assert ([x] + xs)[0] == x && ([y] + ys)[0] == y;
  }

  /** Payloads that never set `id`, and drawn keys that no row holds yet. */
  ghost predicate DrawsFreshKeys(c: Columns, t: seq<Row>, calls: seq<Call>)
    decreases |calls|
  {
    calls != [] ==>
      && (calls[0].op.Create? ==> calls[0].op.data.id.None? && !Holds(t, calls[0].op.drawn))
      && (calls[0].op.Update? ==> calls[0].op.data.id.None?)
      && DrawsFreshKeys(c, Do(c, t, calls[0]).0, calls[1..])
  }

  lemma {:induction false} FreshKeysAreNotForeign(c: Columns, t: seq<Row>, calls: seq<Call>, u: string)
    requires DrawsFreshKeys(c, t, calls)
    ensures NeverReusesForeignKey(c, t, calls, u)
    decreases |calls|
  {
    if calls != [] {
      FreshKeysAreNotForeign(c, Do(c, t, calls[0]).0, calls[1..], u);
    }
  }

  /**
   Non-interference: whatever the other tenants own and do, a tenant that starts with
   the same rows and makes the same calls receives the same replies and keeps the same rows.
   */
  lemma NonInterference(c: Columns, t1: seq<Row>, t2: seq<Row>, calls1: seq<Call>, calls2: seq<Call>, u: string)
    requires c.tenant != c.deletedAt && UniqueIds(t1) && UniqueIds(t2)
    requires DrawsFreshKeys(c, t1, calls1) && DrawsFreshKeys(c, t2, calls2)
    requires Slice(c, t1, u) == Slice(c, t2, u) && OwnCalls(c, calls1, u) == OwnCalls(c, calls2, u)
    ensures |Run(c, t1, calls1).1| == |calls1| && |Run(c, t2, calls2).1| == |calls2|
    ensures OwnReplies(calls1, Run(c, t1, calls1).1, u) == OwnReplies(calls2, Run(c, t2, calls2).1, u)
    ensures Slice(c, Run(c, t1, calls1).0, u) == Slice(c, Run(c, t2, calls2).0, u)
  {
    FreshKeysAreNotForeign(c, t1, calls1, u);
    FreshKeysAreNotForeign(c, t2, calls2, u);
    TenantIsolation(c, t1, calls1, u);
    TenantIsolation(c, t2, calls2, u);
  }

  // ---------------------------------------------------------------- the repository object

  /** The object `createTenantScopedSoftDeleteRepository` returns, over the table it writes. */
  class Repository {
    const columns: Columns
    var table: seq<Row>
    var frame: Option<string>

    ghost predicate Valid()
      reads this
    {
      columns.tenant != columns.deletedAt && UniqueIds(table)
    }

    /** Only the slice of the active tenant may change. */
    twostate predicate OthersKept()
      reads this
    {
      forall v: string :: frame != Some(v) ==> Slice(columns, table, v) == Slice(columns, old(table), v)
    }

    twostate lemma Kept(op: Op)
      requires old(Valid()) && frame == old(frame)
      requires table == Do(columns, old(table), Call(frame, op)).0
      ensures Valid() && OthersKept()
    {
      if frame.Some? {
        StepKeepsIds(columns, old(table), frame.value, op);
        forall v: string | frame != Some(v) ensures Slice(columns, table, v) == Slice(columns, old(table), v) {
          CallLeavesOthersAlone(columns, old(table), frame.value, op, v);
        }
      }
    }

    constructor (columns: Columns, rows: seq<Row>)
      requires columns.tenant != columns.deletedAt && UniqueIds(rows)
      ensures Valid() && this.columns == columns && table == rows && frame == None
    {
      this.columns, table, frame := columns, rows, None;
    }

    method Create(data: Payload, drawn: string) returns (reply: Reply)
      requires Valid()
      modifies this`table
      ensures Valid() && OthersKept()
      ensures (table, reply) == Do(columns, old(table), Call(frame, Op.Create(data, drawn)))
    {
      if frame.None? {
        return Failed(TenantNotResolved);
      }
      var values := data.cols[columns.tenant := Text(frame.value)];
      var id := if data.id.Some? then data.id.value else drawn;
      if Holds(table, id) {
        reply := Failed(UniqueViolation);
      } else {
        var row := Row(id, values);
        table := table + [row];
        reply := One(Some(row));
      }
      Kept(Op.Create(data, drawn));
    }

    method Update(id: string, data: Payload) returns (reply: Reply)
      requires Valid()
      modifies this`table
      ensures Valid() && OthersKept()
      ensures (table, reply) == Do(columns, old(table), Call(frame, Op.Update(id, data)))
    {
      var safe := data;
      if columns.tenant in data.cols {
        safe := Payload(data.id, data.cols - {columns.tenant});
      }
      reply := SetActive(id, true, safe);
      Kept(Op.Update(id, data));
    }

    method SoftDelete(id: string, now: int) returns (reply: Reply)
      requires Valid()
      modifies this`table
      ensures Valid() && OthersKept()
      ensures (table, reply) == Do(columns, old(table), Call(frame, Op.SoftDelete(id, now)))
    {
      reply := SetActive(id, true, Payload(None, map[columns.deletedAt := Instant(now)]));
      Kept(Op.SoftDelete(id, now));
    }

    method Restore(id: string) returns (reply: Reply)
      requires Valid()
      modifies this`table
      ensures Valid() && OthersKept()
      ensures (table, reply) == Do(columns, old(table), Call(frame, Op.Restore(id)))
    {
      reply := SetActive(id, false, Payload(None, map[columns.deletedAt := Null]));
      Kept(Op.Restore(id));
    }

    /** The scoped UPDATE of one row: `active` or `whereTenant`, and the row's id. */
    method SetActive(id: string, live: bool, patch: Payload) returns (reply: Reply)
      modifies this`table
      ensures frame.None? ==> reply == Failed(TenantNotResolved) && table == old(table)
      ensures frame.Some? ==> (table, reply) == Change(columns, old(table), Filter(frame, live, Some(id)), patch)
    {
      if frame.None? {
        return Failed(TenantNotResolved);
      }
      var where := Filter(frame, live, Some(id));
      if KeyClash(columns, table, where, patch) {
        return Failed(UniqueViolation);
      }
      reply := One(First(Returned(columns, table, where, patch)));
      table := UpdateRows(columns, table, where, patch);
    }

    method HardDeleteById(id: string) returns (reply: Reply)
      requires Valid()
      modifies this`table
      ensures Valid() && OthersKept()
      ensures (table, reply) == Do(columns, old(table), Call(frame, HardDelete(id)))
    {
      if frame.None? {
        return Failed(TenantNotResolved);
      }
      var where := Filter(frame, false, Some(id));
      reply := One(First(Select(columns, table, where)));
      table := DeleteRows(columns, table, where);
      Kept(HardDelete(id));
    }

    method FindPaginatedByPage(page: int, limit: int, order: Order) returns (reply: Reply)
      ensures (table, reply) == Do(columns, table, Call(frame, Op.FindPaginatedByPage(page, limit, order)))
    {
      if frame.None? {
        return Failed(TenantNotResolved);
      }
      var offset := (page - 1) * limit;
      reply := Paginate(Select(columns, table, Filter(frame, true, None)), limit, offset, order);
    }
  }
}
