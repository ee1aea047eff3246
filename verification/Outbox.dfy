/** The mail outbox: delivery rows, the marks the worker puts on them, and provider events. */
module Outbox {
  import opened Wrappers

  datatype Status = Queued | Sending | Sent | Bounced | Complained | Failed | Suppressed

  /** What an enqueue asks for, optional columns included. */
  datatype EnqueueInput = EnqueueInput(
    idempotencyKey: string, tenantId: Option<nat>, userId: Option<nat>, template: string,
    templateVersion: Option<string>, locale: Option<string>, toAddress: string, fromAddress: string,
    replyTo: Option<string>, subject: string, payload: Option<string>, correlationId: Option<string>,
    tags: Option<seq<string>>, scheduledFor: Option<int>)

  /** The columns written on insert only. */
  datatype Envelope = Envelope(
    idempotencyKey: string, tenantId: Option<nat>, userId: Option<nat>, template: string,
    templateVersion: string, locale: string, toAddress: string, fromAddress: string,
    replyTo: Option<string>, subject: string, payload: Option<string>, correlationId: Option<string>,
    tags: seq<string>, scheduledFor: Option<int>)

  datatype Stamps = Stamps(
    sentAt: Option<int>, bouncedAt: Option<int>, complainedAt: Option<int>,
    openedAt: Option<int>, clickedAt: Option<int>, failedAt: Option<int>)

  datatype LastError = LastError(code: Option<string>, message: Option<string>)

  datatype Delivery = Delivery(
    envelope: Envelope, status: Status, provider: Option<string>, providerMessageId: Option<string>,
    attempts: nat, lastError: LastError, stamps: Stamps, queuedAt: int, updatedAt: int)

  /** A row's id is its index. */
  datatype State = State(now: int, rows: seq<Delivery>)

  datatype EventType = Delivered | HardBounce | SoftBounce | Complaint | Opened | Clicked | Unknown(name: string)

  datatype Mark =
    | ToSending(provider: string)
    | ToSent(providerMessageId: string)
    | ToBounced(reason: Option<string>)
    | ToComplained(reason: Option<string>)
    | ToSuppressed
    | ToFailed(code: string, message: string)
    | Attempt(code: string, message: string)

  // ---------------------------------------------------------------- the operations

  function Default<T>(value: Option<T>, otherwise: T): T {
    if value.Some? then value.value else otherwise
  }

  function EnvelopeOf(e: EnqueueInput): Envelope {
    Envelope(
      e.idempotencyKey, e.tenantId, e.userId, e.template, Default(e.templateVersion, "v1"), Default(e.locale, "en"),
      e.toAddress, e.fromAddress, e.replyTo, e.subject, e.payload, e.correlationId, Default(e.tags, []), e.scheduledFor)
  }

  function NewRow(now: int, e: EnqueueInput): Delivery {
    Delivery(EnvelopeOf(e), Queued, None, None, 0, LastError(None, None),
             Stamps(None, None, None, None, None, None), now, now)
  }

  function FindKey(rows: seq<Delivery>, key: string): (r: Option<nat>)
    ensures r.Some? ==> r.value < |rows| && rows[r.value].envelope.idempotencyKey == key
    ensures r.None? <==> forall row <- rows :: row.envelope.idempotencyKey != key
  {
    if rows == [] then None
    else
      var last := |rows| - 1;
      if rows[last].envelope.idempotencyKey == key then Some(last) else FindKey(rows[..last], key)
  }

  /** INSERT ... ON CONFLICT (idempotency_key) DO UPDATE SET updated_at. */
  function Enqueue(st: State, e: EnqueueInput): State {
    var at := FindKey(st.rows, e.idempotencyKey);
    if at.Some? then st.(rows := st.rows[at.value := st.rows[at.value].(updatedAt := st.now)])
    else st.(rows := st.rows + [NewRow(st.now, e)])
  }

  function Marked(row: Delivery, mark: Mark, now: int): Delivery {
    var r := row.(updatedAt := now);
    match mark
    case ToSending(p) => r.(status := Sending, provider := Some(p), attempts := row.attempts + 1)
    case ToSent(m) =>
      r.(status := Sent, providerMessageId := Some(m), stamps := row.stamps.(sentAt := Some(now)),
         lastError := LastError(None, None))
    case ToBounced(why) =>
      r.(status := Bounced, stamps := row.stamps.(bouncedAt := Some(now)), lastError := LastError(Some("BOUNCED"), why))
    case ToComplained(why) =>
      r.(status := Complained, stamps := row.stamps.(complainedAt := Some(now)),
         lastError := LastError(Some("COMPLAINED"), why))
    case ToSuppressed =>
      r.(status := Suppressed, lastError := LastError(Some("SUPPRESSED"), Some("Recipient on suppression list")))
    case ToFailed(code, message) =>
      r.(status := Failed, stamps := row.stamps.(failedAt := Some(now)),
         lastError := LastError(Some(code), Some(message)))
    case Attempt(code, message) => r.(lastError := LastError(Some(code), Some(message)))
  }

  /** An update of a row that does not exist changes nothing. */
  function MarkRow(st: State, id: nat, mark: Mark): State {
    if id < |st.rows| then st.(rows := st.rows[id := Marked(st.rows[id], mark, st.now)]) else st
  }

  function EventToStatus(t: EventType): Option<Status> {
    match t
    case Delivered => Some(Sent)
    case HardBounce => Some(Bounced)
    case SoftBounce => Some(Bounced)
    case Complaint => Some(Complained)
    case _ => None
  }

  /** `eventToTimestampColumn`, and the write to that column. */
  function Stamped(s: Stamps, t: EventType, at: int): Stamps {
    match t
    case Delivered => s.(sentAt := Some(at))
    case HardBounce => s.(bouncedAt := Some(at))
    case SoftBounce => s.(bouncedAt := Some(at))
    case Complaint => s.(complainedAt := Some(at))
    case Opened => s.(openedAt := Some(at))
    case Clicked => s.(clickedAt := Some(at))
    case Unknown(_) => s
  }

  function WithEvent(row: Delivery, t: EventType, at: int, reason: Option<string>, now: int): Delivery {
    var status := EventToStatus(t);
    var r := row.(updatedAt := now, stamps := Stamped(row.stamps, t, at), status := Default(status, row.status));
    if status == Some(Bounced) then r.(lastError := LastError(Some("BOUNCED"), reason))
    else if status == Some(Complained) then r.(lastError := LastError(Some("COMPLAINED"), reason))
    else r
  }

  function RowAfter(row: Delivery, id: string, t: EventType, at: int, reason: Option<string>, now: int): Delivery {
    if row.providerMessageId == Some(id) then WithEvent(row, t, at, reason, now) else row
  }

  /** The update carried out on the first `n` rows. */
  function RowsAfter(rows: seq<Delivery>, n: nat, id: string, t: EventType, at: int, reason: Option<string>, now: int):
      seq<Delivery> {
    seq(|rows|, i requires 0 <= i < |rows| => if i < n then RowAfter(rows[i], id, t, at, reason, now) else rows[i])
  }

  /** Provider message ids are not unique: every row that carries the id is updated. */
  function ApplyEvent(st: State, id: string, t: EventType, at: int, reason: Option<string>): State {
    if t.Unknown? then st else st.(rows := RowsAfter(st.rows, |st.rows|, id, t, at, reason, st.now))
  }

  /** The first row that carries a provider message id. */
  function FirstWith(rows: seq<Delivery>, id: string, from: nat := 0): (r: Option<nat>)
    requires from <= |rows|
    ensures r.Some? ==> from <= r.value < |rows| && rows[r.value].providerMessageId == Some(id)
    ensures forall j :: from <= j < (if r.Some? then r.value else |rows|) ==> rows[j].providerMessageId != Some(id)
    decreases |rows| - from
  {
    if from == |rows| then None
    else if rows[from].providerMessageId == Some(id) then Some(from)
    else FirstWith(rows, id, from + 1)
  }

  // ---------------------------------------------------------------- runs

  datatype Op =
    | Add(input: EnqueueInput)
    | Put(id: nat, mark: Mark)
    | Event(messageId: string, eventType: EventType, at: int, reason: Option<string>)
    | Tick(ms: nat)

  function Next(st: State, op: Op): State {
    match op
    case Add(input) => Enqueue(st, input)
    case Put(id, mark) => MarkRow(st, id, mark)
    case Event(m, t, at, reason) => ApplyEvent(st, m, t, at, reason)
    case Tick(ms) => st.(now := st.now + ms)
  }

  function Run(st: State, ops: seq<Op>): State
    decreases |ops|
  {
    if ops == [] then st else Run(Next(st, ops[0]), ops[1..])
  }

  /** A row's status and timestamps agree, and an unsent row has no provider message id. */
  ghost predicate RowOk(r: Delivery) {
    && (r.status.Sent? ==> r.stamps.sentAt.Some?)
    && (r.status.Bounced? ==> r.stamps.bouncedAt.Some?)
    && (r.status.Complained? ==> r.stamps.complainedAt.Some?)
    && (r.status.Failed? ==> r.stamps.failedAt.Some?)
    && (r.status.Queued? ==> r.providerMessageId.None? && r.attempts == 0 && r.provider.None?)
  }

  ghost predicate Inv(st: State) {
    && (forall i, j :: 0 <= i < j < |st.rows| ==>
                         st.rows[i].envelope.idempotencyKey != st.rows[j].envelope.idempotencyKey)
    && (forall i :: 0 <= i < |st.rows| ==> RowOk(st.rows[i]))
  }

  lemma AddKeeps(st: State, e: EnqueueInput)
    requires Inv(st)
    ensures Inv(Enqueue(st, e))
  {
    if FindKey(st.rows, e.idempotencyKey).None? {
      forall i | 0 <= i < |st.rows| ensures st.rows[i].envelope.idempotencyKey != e.idempotencyKey {
        assert st.rows[i] in st.rows;
      }
    }
  }

  lemma EventKeeps(st: State, id: string, t: EventType, at: int, reason: Option<string>)
    requires Inv(st)
    ensures Inv(ApplyEvent(st, id, t, at, reason))
  {
    var st' := ApplyEvent(st, id, t, at, reason);
    forall i | 0 <= i < |st.rows| ensures RowOk(st'.rows[i]) && st'.rows[i].envelope == st.rows[i].envelope {}
  }

  lemma MarkKeeps(st: State, id: nat, mark: Mark)
    requires Inv(st)
    ensures Inv(MarkRow(st, id, mark))
  {
  }

  lemma NextKeeps(st: State, op: Op)
    requires Inv(st)
    ensures Inv(Next(st, op))
  {
    match op {
      case Add(input) => AddKeeps(st, input);
      case Put(id, mark) => MarkKeeps(st, id, mark);
      case Event(m, t, at, reason) => EventKeeps(st, m, t, at, reason);
      case Tick(_) =>
    }
  }

  /** Marks that move row `id` out of the queue. */
  predicate Moves(op: Op, id: nat) {
    op.Put? && op.id == id && !op.mark.Attempt?
  }

  predicate Sends(op: Op, id: nat) {
    op.Put? && op.id == id && op.mark.ToSending?
  }

  function CountSends(ops: seq<Op>, id: nat): nat {
    if ops == [] then 0
    else
      var rest := CountSends(ops[1..], id);
      if Sends(ops[0], id) then rest + 1 else rest
  }

  /** What one operation can do to an existing row. */
  lemma RowStep(st: State, op: Op, id: nat)
    requires Inv(st) && id < |st.rows|
    ensures
      var row, row' := st.rows[id], Next(st, op).rows[id];
      && row'.envelope == row.envelope && row'.queuedAt == row.queuedAt
      && row'.attempts == row.attempts + CountSends([op], id)
      && (row'.status.Queued? <==> row.status.Queued? && !Moves(op, id))
  {
    var rows := st.rows;
    assert RowOk(rows[id]);
    assert [op][1..] == [];
  }

  /**
   The life of a row, over any run: what was enqueued never changes, `attempts` grows by the
   number of sends, and the row is still queued iff it was and nothing marked it since.
   */
  lemma {:induction false} RowHistory(st: State, ops: seq<Op>, id: nat)
    requires Inv(st) && id < |st.rows|
    ensures
      var st' := Run(st, ops);
      && id < |st'.rows|
      && var row, row' := st.rows[id], st'.rows[id];
         && row'.envelope == row.envelope && row'.queuedAt == row.queuedAt
         && row'.attempts == row.attempts + CountSends(ops, id)
         && (row'.status.Queued? <==> row.status.Queued? && forall op <- ops :: !Moves(op, id))
    decreases |ops|
  {
    if ops != [] {
      var st1 := Next(st, ops[0]);
      NextKeeps(st, ops[0]);
      RowStep(st, ops[0], id);
      assert [ops[0]][1..] == [];
      RowHistory(st1, ops[1..], id);
      assert forall op <- ops :: op == ops[0] || op in ops[1..];
    }
  }

  lemma {:induction false} RunKeeps(st: State, ops: seq<Op>)
    requires Inv(st)
    ensures Inv(Run(st, ops))
    decreases |ops|
  {
    if ops != [] {
      NextKeeps(st, ops[0]);
      RunKeeps(Next(st, ops[0]), ops[1..]);
    }
  }

  /** Over any run from an empty outbox: one row per idempotency key, and every status has its timestamp. */
  lemma OutboxConsistent(now: int, ops: seq<Op>)
    ensures
      var rows := Run(State(now, []), ops).rows;
      && (forall i, j :: 0 <= i < j < |rows| ==> rows[i].envelope.idempotencyKey != rows[j].envelope.idempotencyKey)
      && (forall i :: 0 <= i < |rows| ==> RowOk(rows[i]))
  {
    RunKeeps(State(now, []), ops);
  }

  /** A repeated enqueue, whatever it carries, touches the one row's `updatedAt` and nothing else. */
  lemma EnqueueAgain(st: State, e: EnqueueInput, i: nat)
    requires Inv(st) && i < |st.rows| && st.rows[i].envelope.idempotencyKey == e.idempotencyKey
    ensures Enqueue(st, e) == st.(rows := st.rows[i := st.rows[i].(updatedAt := st.now)])
  {
    assert st.rows[i] in st.rows;
  }

  /** After any run in which it was enqueued first, a key's row is still there, as first enqueued. */
  lemma FirstEnqueueWins(st: State, e: EnqueueInput, ops: seq<Op>)
    requires Inv(st) && FindKey(st.rows, e.idempotencyKey).None?
    ensures
      var st' := Run(Enqueue(st, e), ops);
      var id := |st.rows|;
      && id < |st'.rows|
      && st'.rows[id].envelope == EnvelopeOf(e)
      && st'.rows[id].attempts == CountSends(ops, id)
      && (st'.rows[id].status.Queued? <==> forall op <- ops :: !Moves(op, id))
      && forall j :: 0 <= j < |st'.rows| && st'.rows[j].envelope.idempotencyKey == e.idempotencyKey ==> j == id
  {
    NextKeeps(st, Add(e));
    RowHistory(Enqueue(st, e), ops, |st.rows|);
    RunKeeps(Enqueue(st, e), ops);
  }
}
