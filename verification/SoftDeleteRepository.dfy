/** packages/kit/db/src/runtime/soft-delete-repository.ts: the repository without tenants. */
module SoftDeleteRepository {
  import opened Wrappers
  import opened Tables

  const Everything := Filter(None, false, None)
  const Live := Filter(None, true, None)

  function WithId(f: Filter, id: string): Filter { f.(id := Some(id)) }

  function Step(c: Columns, t: seq<Row>, op: Op): (seq<Row>, Reply) {
    match op
    case FindById(id) => (t, One(First(Select(c, t, WithId(Live, id)))))
    case FindByIdOrThrow(id) =>
      var found := First(Select(c, t, WithId(Live, id)));
      (t, if found.None? then Failed(NoResult) else One(found))
    case FindAll => (t, Many(Select(c, t, Live)))
    case FindPaginated(limit, offset, order) => (t, Paginate(Select(c, t, Live), limit, offset, order))
    case FindPaginatedByPage(page, limit, order) =>
      (t, Paginate(Select(c, t, Live), limit, (page - 1) * limit, order))
    case CountLive => (t, Count(|Select(c, t, Live)|))
    case FindByIdIncludingDeleted(id) => (t, One(First(Select(c, t, WithId(Everything, id)))))
    case FindAllIncludingDeleted => (t, Many(Select(c, t, Everything)))
    case FindPaginatedIncludingDeleted(limit, offset, order) =>
      (t, Paginate(Select(c, t, Everything), limit, offset, order))
    case Create(data, drawn) => Insert(t, data, drawn)
    case Update(id, data) => Change(c, t, WithId(Live, id), data)
    case SoftDelete(id, now) => Change(c, t, WithId(Live, id), Payload(None, map[c.deletedAt := Instant(now)]))
    case Restore(id) => Change(c, t, WithId(Everything, id), Payload(None, map[c.deletedAt := Null]))
    case HardDelete(id) =>
      (DeleteRows(c, t, WithId(Everything, id)), One(First(Select(c, t, WithId(Everything, id)))))
  }

  /** A run of calls, with every reply. */
  function Run(c: Columns, t: seq<Row>, ops: seq<Op>): (seq<Row>, seq<Reply>)
    decreases |ops|
  {
    if ops == [] then (t, [])
    else
      var (t1, reply) := Step(c, t, ops[0]);
      var (t2, replies) := Run(c, t1, ops[1..]);
      (t2, [reply] + replies)
  }
}
