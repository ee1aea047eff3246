/**
 The shared table and the SQL statements that the repositories build.
 A statement carries its WHERE clauses as a `Filter`; rows keep insertion order,
 which is the order a query without ORDER BY is given here.
 */
module Tables {
  import opened Wrappers

  datatype Value = Null | Text(text: string) | Instant(at: int) | Number(n: int)

  /** A row: its primary key, and its other columns (an absent column reads NULL). */
  datatype Row = Row(id: string, cols: map<string, Value>)

  /** An insert or update payload; it may or may not set the primary key. */
  datatype Payload = Payload(id: Option<string>, cols: map<string, Value>)

  /** The names of the two special columns. */
  datatype Columns = Columns(tenant: string, deletedAt: string)

  datatype Filter = Filter(tenant: Option<string>, live: bool, id: Option<string>)

  function Column(r: Row, name: string): Value {
    if name in r.cols then r.cols[name] else Null
  }

  predicate Matches(c: Columns, f: Filter, r: Row) {
    && (f.tenant.Some? ==> Column(r, c.tenant) == Text(f.tenant.value))
    && (f.live ==> Column(r, c.deletedAt) == Null)
    && (f.id.Some? ==> r.id == f.id.value)
  }

  function Select(c: Columns, t: seq<Row>, f: Filter): seq<Row> {
    if t == [] then []
    else (if Matches(c, f, t[0]) then [t[0]] else []) + Select(c, t[1..], f)
  }

  function SetRow(r: Row, p: Payload): Row {
    Row(if p.id.Some? then p.id.value else r.id, r.cols + p.cols)
  }

  function UpdateRows(c: Columns, t: seq<Row>, f: Filter, p: Payload): seq<Row> {
    if t == [] then []
    else [if Matches(c, f, t[0]) then SetRow(t[0], p) else t[0]] + UpdateRows(c, t[1..], f, p)
  }

  /** The rows an UPDATE returns (RETURNING *), as they are after it. */
  function Returned(c: Columns, t: seq<Row>, f: Filter, p: Payload): seq<Row> {
    if t == [] then []
    else (if Matches(c, f, t[0]) then [SetRow(t[0], p)] else []) + Returned(c, t[1..], f, p)
  }

  function DeleteRows(c: Columns, t: seq<Row>, f: Filter): seq<Row> {
    if t == [] then []
    else (if Matches(c, f, t[0]) then [] else [t[0]]) + DeleteRows(c, t[1..], f)
  }

  /** Some row holds the key `id`. */
  predicate Holds(t: seq<Row>, id: string) {
    exists r <- t :: r.id == id
  }

  /** An update would give a matched row the primary key of a row it does not match. */
  predicate KeyClash(c: Columns, t: seq<Row>, f: Filter, p: Payload) {
    && p.id.Some?
    && Select(c, t, f) != []
    && exists r <- t :: r.id == p.id.value && !Matches(c, f, r)
  }

  datatype Error = TenantNotResolved | NoResult | UniqueViolation | NegativeLimit

  datatype Reply =
    | One(row: Option<Row>)
    | Many(rows: seq<Row>)
    | Count(n: nat)
    | Page(data: seq<Row>, total: nat, limit: int, offset: int)
    | Failed(error: Error)

  /** An ORDER BY clause: any function of the selected rows. */
  type Order = seq<Row> -> seq<Row>

  /** The calls of a soft-delete repository. `Create` is given the key that the column default would draw. */
  datatype Op =
    | FindById(id: string)
    | FindByIdOrThrow(id: string)
    | FindAll
    | FindPaginated(limit: int, offset: int, order: Order)
    | FindPaginatedByPage(page: int, limit: int, order: Order)
    | CountLive
    | FindByIdIncludingDeleted(id: string)
    | FindAllIncludingDeleted
    | FindPaginatedIncludingDeleted(limit: int, offset: int, order: Order)
    | Create(data: Payload, drawn: string)
    | Update(id: string, data: Payload)
    | SoftDelete(id: string, now: int)
    | Restore(id: string)
    | HardDelete(id: string)

  function First(rows: seq<Row>): Option<Row> {
    if rows == [] then None else Some(rows[0])
  }

  function Min(a: int, b: int): int { if a < b then a else b }

  /** LIMIT / OFFSET over the ordered rows; Postgres rejects negative bounds. */
  function Paginate(rows: seq<Row>, limit: int, offset: int, order: Order): Reply {
    if limit < 0 || offset < 0 then Failed(NegativeLimit)
    else
      var ordered := order(rows);
      var from := Min(offset, |ordered|);
      Page(ordered[from..Min(from + limit, |ordered|)], |rows|, limit, offset)
  }

  function NewKey(data: Payload, drawn: string): string {
    if data.id.Some? then data.id.value else drawn
  }

  function Insert(t: seq<Row>, data: Payload, drawn: string): (seq<Row>, Reply) {
    var row := Row(NewKey(data, drawn), data.cols);
    if Holds(t, row.id) then (t, Failed(UniqueViolation)) else (t + [row], One(Some(row)))
  }

  function Change(c: Columns, t: seq<Row>, f: Filter, p: Payload): (seq<Row>, Reply) {
    if KeyClash(c, t, f, p) then (t, Failed(UniqueViolation))
    else (UpdateRows(c, t, f, p), One(First(Returned(c, t, f, p))))
  }
}
