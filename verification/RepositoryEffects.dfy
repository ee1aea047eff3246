/**
 What each call of the tenant-scoped repository does to the rows, told from their columns: the
 row it finds, the columns it writes and keeps, and what a later `findById` sees.
 */
module RepositoryEffects {
  import opened Wrappers
  import opened Tables
  import opened TenantScopedRepository

  /** What a column reads; a column that was never written reads NULL. */
  function Cell(r: Row, name: string): Value {
    if name in r.cols then r.cols[name] else Null
  }

  /** Row `i` is the tenant's and bears the id; no other row bears it. */
  ghost predicate OwnRow(c: Columns, t: seq<Row>, u: string, i: nat, id: string) {
    && i < |t| && t[i].id == id && Cell(t[i], c.tenant) == Text(u)
    && forall j: nat :: j < |t| && j != i ==> t[j].id != id
  }

  ghost predicate LiveRow(c: Columns, r: Row) {
    Cell(r, c.deletedAt) == Null
  }

  /** No row of the tenant bears the id, or none that is live if `live`. */
  ghost predicate NoOwnRow(c: Columns, t: seq<Row>, u: string, id: string, live: bool) {
    forall j: nat :: j < |t| && t[j].id == id && Cell(t[j], c.tenant) == Text(u) ==> live && !LiveRow(c, t[j])
  }

  // ---------------------------------------------------------------- statements that name one row

  lemma {:induction false} SelectOne(c: Columns, t: seq<Row>, f: Filter, i: nat)
    requires f.id.Some? && i < |t| && t[i].id == f.id.value
    requires forall j: nat :: j < |t| && j != i ==> t[j].id != f.id.value
    ensures Select(c, t, f) == if Matches(c, f, t[i]) then [t[i]] else []
  {
    if i == 0 {
      SelectNone(c, t[1..], f);
    } else {
      SelectOne(c, t[1..], f, i - 1);
    }
  }

  lemma {:induction false} SelectNone(c: Columns, t: seq<Row>, f: Filter)
    requires forall j: nat :: j < |t| ==> !Matches(c, f, t[j])
    ensures Select(c, t, f) == []
  {
    if t != [] { SelectNone(c, t[1..], f); }
  }

  lemma {:induction false} ChangeNone(c: Columns, t: seq<Row>, f: Filter, p: Payload)
    requires forall j: nat :: j < |t| ==> !Matches(c, f, t[j])
    ensures UpdateRows(c, t, f, p) == t && Returned(c, t, f, p) == []
  {
    if t != [] { ChangeNone(c, t[1..], f, p); }
  }

  lemma {:induction false} ChangeOne(c: Columns, t: seq<Row>, f: Filter, p: Payload, i: nat)
    requires f.id.Some? && i < |t| && Matches(c, f, t[i])
    requires forall j: nat :: j < |t| && j != i ==> t[j].id != f.id.value
    ensures UpdateRows(c, t, f, p) == t[i := SetRow(t[i], p)] && Returned(c, t, f, p) == [SetRow(t[i], p)]
  {
    if i == 0 {
      ChangeNone(c, t[1..], f, p);
    } else {
      ChangeOne(c, t[1..], f, p, i - 1);
      assert t[i := SetRow(t[i], p)] == [t[0]] + t[1..][i - 1 := SetRow(t[i], p)];
    }
  }

  lemma {:induction false} DeleteNone(c: Columns, t: seq<Row>, f: Filter)
    requires forall j: nat :: j < |t| ==> !Matches(c, f, t[j])
    ensures DeleteRows(c, t, f) == t
  {
    if t != [] { DeleteNone(c, t[1..], f); }
  }

  lemma {:induction false} DeleteOne(c: Columns, t: seq<Row>, f: Filter, i: nat)
    requires f.id.Some? && i < |t| && Matches(c, f, t[i])
    requires forall j: nat :: j < |t| && j != i ==> t[j].id != f.id.value
    ensures DeleteRows(c, t, f) == t[..i] + t[i + 1..]
  {
    if i == 0 {
      DeleteNone(c, t[1..], f);
    } else {
      DeleteOne(c, t[1..], f, i - 1);
      assert t[..i] + t[i + 1..] == [t[0]] + (t[1..][..i - 1] + t[1..][i..]);
    }
  }

  // ---------------------------------------------------------------- reads

  /** `findById` answers with the tenant's live row, and with nothing when there is none. */
  lemma FindByIdFinds(c: Columns, t: seq<Row>, u: string, id: string, i: nat)
    ensures OwnRow(c, t, u, i, id) && LiveRow(c, t[i]) ==> Step(c, t, u, FindById(id)) == (t, One(Some(t[i])))
    ensures NoOwnRow(c, t, u, id, true) ==> Step(c, t, u, FindById(id)) == (t, One(None))
  {
    var f := Filter(Some(u), true, Some(id));
    if OwnRow(c, t, u, i, id) && LiveRow(c, t[i]) { SelectOne(c, t, f, i); }
    if NoOwnRow(c, t, u, id, true) { SelectNone(c, t, f); }
  }

  lemma {:induction false} SelectMembers(c: Columns, t: seq<Row>, f: Filter, r: Row)
    ensures r in Select(c, t, f) <==> r in t && Matches(c, f, r)
  {
    if t != [] { SelectMembers(c, t[1..], f, r); }
  }

  /** `findAll` answers with exactly the tenant's live rows, and `count` with their number. */
  lemma FindAllFinds(c: Columns, t: seq<Row>, u: string, r: Row)
    ensures
      var (t', all) := Step(c, t, u, FindAll);
      && t' == t && all.Many?
      && (r in all.rows <==> r in t && Cell(r, c.tenant) == Text(u) && LiveRow(c, r))
      && Step(c, t, u, CountLive) == (t, Count(|all.rows|))
  {
    SelectMembers(c, t, Filter(Some(u), true, None), r);
  }

  // ---------------------------------------------------------------- writes

  /** The id is not taken by a row other than `i`. */
  ghost predicate FreeFor(t: seq<Row>, id: string, i: nat) {
    forall j: nat :: j < |t| && j != i ==> t[j].id != id
  }

  /**
   An update of an own live row writes every column of the payload but the tenant column, keeps
   every other column and every other row, and answers with the row as it is then.
   */
  lemma UpdateWrites(c: Columns, t: seq<Row>, u: string, id: string, data: Payload, i: nat)
    requires c.tenant != c.deletedAt && OwnRow(c, t, u, i, id) && LiveRow(c, t[i])
    requires data.id.Some? ==> FreeFor(t, data.id.value, i)
    ensures
      var (t', reply) := Step(c, t, u, Update(id, data));
      && |t'| == |t| && t' == t[i := t'[i]]
      && reply == One(Some(t'[i]))
      && t'[i].id == (if data.id.Some? then data.id.value else id)
      && forall k ::
           Cell(t'[i], k) == if k != c.tenant && k in data.cols then data.cols[k] else Cell(t[i], k)
  {
    var f := Filter(Some(u), true, Some(id));
    assert Matches(c, f, t[i]);
    ChangeOne(c, t, f, StripTenantColumn(c, data), i);
  }

  /** A new key that another row bears is refused, and without an own live row nothing happens. */
  lemma UpdateRefuses(c: Columns, t: seq<Row>, u: string, id: string, data: Payload, i: nat, j: nat)
    requires c.tenant != c.deletedAt
    ensures
      OwnRow(c, t, u, i, id) && LiveRow(c, t[i]) && j < |t| && j != i && data.id == Some(t[j].id) ==>
        Step(c, t, u, Update(id, data)) == (t, Failed(UniqueViolation))
    ensures NoOwnRow(c, t, u, id, true) ==> Step(c, t, u, Update(id, data)) == (t, One(None))
  {
    var f, p := Filter(Some(u), true, Some(id)), StripTenantColumn(c, data);
    if OwnRow(c, t, u, i, id) && LiveRow(c, t[i]) && j < |t| && j != i && data.id == Some(t[j].id) {
      SelectOne(c, t, f, i);
      assert t[j] in t && !Matches(c, f, t[j]);
    }
    if NoOwnRow(c, t, u, id, true) {
      SelectNone(c, t, f);
      ChangeNone(c, t, f, p);
    }
  }

  /** A soft delete stamps an own live row and nothing else; `findById` finds it no more. */
  lemma SoftDeleteStamps(c: Columns, t: seq<Row>, u: string, id: string, now: int, i: nat)
    requires c.tenant != c.deletedAt && OwnRow(c, t, u, i, id) && LiveRow(c, t[i])
    ensures
      var (t', reply) := Step(c, t, u, SoftDelete(id, now));
      && |t'| == |t| && t' == t[i := t'[i]] && t'[i].id == id
      && reply == One(Some(t'[i]))
      && (forall k :: Cell(t'[i], k) == if k == c.deletedAt then Instant(now) else Cell(t[i], k))
      && Step(c, t', u, FindById(id)).1 == One(None)
  {
    var f := Filter(Some(u), true, Some(id));
    assert Matches(c, f, t[i]);
    ChangeOne(c, t, f, Payload(None, map[c.deletedAt := Instant(now)]), i);
    var t' := Step(c, t, u, SoftDelete(id, now)).0;
    assert Cell(t'[i], c.deletedAt) == Instant(now);
    FindByIdFinds(c, t', u, id, i);
  }

  /** A restore clears the stamp of an own row, deleted or not; `findById` finds it again. */
  lemma RestoreClears(c: Columns, t: seq<Row>, u: string, id: string, i: nat)
    requires c.tenant != c.deletedAt && OwnRow(c, t, u, i, id)
    ensures
      var (t', reply) := Step(c, t, u, Restore(id));
      && |t'| == |t| && t' == t[i := t'[i]] && t'[i].id == id
      && reply == One(Some(t'[i]))
      && (forall k :: Cell(t'[i], k) == if k == c.deletedAt then Null else Cell(t[i], k))
      && Step(c, t', u, FindById(id)).1 == One(Some(t'[i]))
  {
    var f := Filter(Some(u), false, Some(id));
    assert Matches(c, f, t[i]);
    ChangeOne(c, t, f, Payload(None, map[c.deletedAt := Null]), i);
    var t' := Step(c, t, u, Restore(id)).0;
    assert Cell(t'[i], c.deletedAt) == Null && Cell(t'[i], c.tenant) == Cell(t[i], c.tenant);
    FindByIdFinds(c, t', u, id, i);
  }

  /** A hard delete removes an own row, deleted or not, and answers with it; without one nothing happens. */
  lemma HardDeleteRemoves(c: Columns, t: seq<Row>, u: string, id: string, i: nat)
    ensures OwnRow(c, t, u, i, id) ==> Step(c, t, u, HardDelete(id)) == (t[..i] + t[i + 1..], One(Some(t[i])))
    ensures NoOwnRow(c, t, u, id, false) ==> Step(c, t, u, HardDelete(id)) == (t, One(None))
  {
    var f := Filter(Some(u), false, Some(id));
    if OwnRow(c, t, u, i, id) {
      SelectOne(c, t, f, i);
      DeleteOne(c, t, f, i);
    }
    if NoOwnRow(c, t, u, id, false) {
      SelectNone(c, t, f);
      DeleteNone(c, t, f);
    }
  }

  /**
   A create under a free key appends a row with the payload's columns, whatever it says of the
   tenant column, which is the frame's; a used key is refused.
   */
  lemma CreateAppends(c: Columns, t: seq<Row>, u: string, data: Payload, drawn: string)
    ensures
      var (t', reply) := Step(c, t, u, Create(data, drawn));
      var key := if data.id.Some? then data.id.value else drawn;
      if exists j: nat :: j < |t| && t[j].id == key then t' == t && reply == Failed(UniqueViolation)
      else
        && |t'| == |t| + 1 && t'[..|t|] == t && reply == One(Some(t'[|t|]))
        && t'[|t|].id == key
        && forall k ::
             Cell(t'[|t|], k)
             == if k == c.tenant then Text(u) else if k in data.cols then data.cols[k] else Null
  {
    var key := if data.id.Some? then data.id.value else drawn;
    if exists j: nat :: j < |t| && t[j].id == key {
      var j: nat :| j < |t| && t[j].id == key;
      assert t[j] in t;
    }
  }
}
