/** What single calls on the outbox write, told row by row and column by column. */
module OutboxEffects {
  import opened Wrappers
  import opened Outbox

  /** The columns of a row that is enqueued for the first time; the rows before it stay. */
  lemma FirstEnqueueInserts(st: State, e: EnqueueInput)
    requires forall row <- st.rows :: row.envelope.idempotencyKey != e.idempotencyKey
    ensures
      var st' := Enqueue(st, e);
      && st'.now == st.now && |st'.rows| == |st.rows| + 1 && st'.rows[..|st.rows|] == st.rows
      && var row := st'.rows[|st.rows|];
      && row.envelope.idempotencyKey == e.idempotencyKey
      && row.envelope.tenantId == e.tenantId && row.envelope.userId == e.userId
      && row.envelope.template == e.template && row.envelope.subject == e.subject
      && row.envelope.toAddress == e.toAddress && row.envelope.fromAddress == e.fromAddress
      && row.envelope.replyTo == e.replyTo && row.envelope.payload == e.payload
      && row.envelope.correlationId == e.correlationId && row.envelope.scheduledFor == e.scheduledFor
      && (e.templateVersion == Some(row.envelope.templateVersion)
          || (e.templateVersion == None && row.envelope.templateVersion == "v1"))
      && (e.locale == Some(row.envelope.locale) || (e.locale == None && row.envelope.locale == "en"))
      && (e.tags == Some(row.envelope.tags) || (e.tags == None && row.envelope.tags == []))
      && row.status == Queued && row.attempts == 0 && row.provider == None && row.providerMessageId == None
      && row.lastError == LastError(None, None) && row.stamps == Stamps(None, None, None, None, None, None)
      && row.queuedAt == st.now && row.updatedAt == st.now
  {
  }

  /** Column by column: which mark writes it, and what; every other row stays as it is. */
  lemma MarkWrites(st: State, id: nat, mark: Mark)
    requires id < |st.rows|
    ensures
      var st' := MarkRow(st, id, mark);
      var was, row := st.rows[id], st'.rows[id];
      && st'.now == st.now && |st'.rows| == |st.rows|
      && (forall j :: 0 <= j < |st.rows| && j != id ==> st'.rows[j] == st.rows[j])
      && row.updatedAt == st.now && row.queuedAt == was.queuedAt && row.envelope == was.envelope
      && (mark.Attempt? ==> row.status == was.status)
      && (row.status != was.status ==>
            || (row.status == Sending && mark.ToSending?) || (row.status == Sent && mark.ToSent?)
            || (row.status == Bounced && mark.ToBounced?) || (row.status == Complained && mark.ToComplained?)
            || (row.status == Suppressed && mark.ToSuppressed?) || (row.status == Failed && mark.ToFailed?))
      && (mark.ToSending? ==> row.status == Sending) && (mark.ToSent? ==> row.status == Sent)
      && (mark.ToBounced? ==> row.status == Bounced) && (mark.ToComplained? ==> row.status == Complained)
      && (mark.ToSuppressed? ==> row.status == Suppressed) && (mark.ToFailed? ==> row.status == Failed)
      && row.provider == (if mark.ToSending? then Some(mark.provider) else was.provider)
      && row.attempts == was.attempts + (if mark.ToSending? then 1 else 0)
      && row.providerMessageId == (if mark.ToSent? then Some(mark.providerMessageId) else was.providerMessageId)
      && row.stamps.sentAt == (if mark.ToSent? then Some(st.now) else was.stamps.sentAt)
      && row.stamps.bouncedAt == (if mark.ToBounced? then Some(st.now) else was.stamps.bouncedAt)
      && row.stamps.complainedAt == (if mark.ToComplained? then Some(st.now) else was.stamps.complainedAt)
      && row.stamps.failedAt == (if mark.ToFailed? then Some(st.now) else was.stamps.failedAt)
      && row.stamps.openedAt == was.stamps.openedAt && row.stamps.clickedAt == was.stamps.clickedAt
      && (mark.ToSending? ==> row.lastError == was.lastError)
      && (mark.ToSent? ==> row.lastError == LastError(None, None))
      && (mark.ToBounced? ==> row.lastError == LastError(Some("BOUNCED"), mark.reason))
      && (mark.ToComplained? ==> row.lastError == LastError(Some("COMPLAINED"), mark.reason))
      && (mark.ToSuppressed? ==>
            row.lastError == LastError(Some("SUPPRESSED"), Some("Recipient on suppression list")))
      && (mark.ToFailed? || mark.Attempt? ==> row.lastError == LastError(Some(mark.code), Some(mark.message)))
  {
  }

  /** Column by column: what an event writes to a row with its message id; other rows stay as they are. */
  lemma EventWrites(st: State, m: string, t: EventType, at: int, reason: Option<string>, id: nat)
    requires id < |st.rows|
    ensures
      var st' := ApplyEvent(st, m, t, at, reason);
      && st'.now == st.now && |st'.rows| == |st.rows|
      && var was, row := st.rows[id], st'.rows[id];
      if was.providerMessageId != Some(m) || t.Unknown? then row == was
      else
        var bounced := t == HardBounce || t == SoftBounce;
        && row.updatedAt == st.now && row.queuedAt == was.queuedAt && row.envelope == was.envelope
        && row.provider == was.provider && row.providerMessageId == was.providerMessageId
        && row.attempts == was.attempts
        && (t == Delivered ==> row.status == Sent) && (bounced ==> row.status == Bounced)
        && (t == Complaint ==> row.status == Complained)
        && (t == Opened || t == Clicked ==> row.status == was.status)
        && row.stamps.sentAt == (if t == Delivered then Some(at) else was.stamps.sentAt)
        && row.stamps.bouncedAt == (if bounced then Some(at) else was.stamps.bouncedAt)
        && row.stamps.complainedAt == (if t == Complaint then Some(at) else was.stamps.complainedAt)
        && row.stamps.openedAt == (if t == Opened then Some(at) else was.stamps.openedAt)
        && row.stamps.clickedAt == (if t == Clicked then Some(at) else was.stamps.clickedAt)
        && row.stamps.failedAt == was.stamps.failedAt
        && row.lastError == (if bounced then LastError(Some("BOUNCED"), reason)
                             else if t == Complaint then LastError(Some("COMPLAINED"), reason)
                             else was.lastError)
  {
  }

  /** The operation gives row `id` another message id. */
  predicate Resends(op: Op, id: nat) {
    op.Put? && op.id == id && op.mark.ToSent?
  }

  lemma {:induction false} MessageIdStays(st: State, ops: seq<Op>, id: nat)
    requires id < |st.rows| && forall op <- ops :: !Resends(op, id)
    ensures
      var st' := Run(st, ops);
      id < |st'.rows| && st'.rows[id].providerMessageId == st.rows[id].providerMessageId
    decreases |ops|
  {
    if ops != [] {
      assert ops[0] in ops;
      MessageIdStays(Next(st, ops[0]), ops[1..], id);
    }
  }

  /**
   From sending to the provider's answer: once a row was marked sent under a message id, a
   bounce or a complaint under that id reaches it, whatever happened in between but another send.
   */
  lemma AnswerReachesRow(st: State, id: nat, m: string, ops: seq<Op>, t: EventType, at: int, reason: Option<string>)
    requires id < |st.rows| && (forall op <- ops :: !Resends(op, id))
    requires t == HardBounce || t == SoftBounce || t == Complaint
    ensures
      var sent := Run(MarkRow(st, id, ToSent(m)), ops);
      var rows := ApplyEvent(sent, m, t, at, reason).rows;
      && id < |rows|
      && (t == Complaint ==>
            rows[id].status == Complained && rows[id].stamps.complainedAt == Some(at)
            && rows[id].lastError == LastError(Some("COMPLAINED"), reason))
      && (t != Complaint ==>
            rows[id].status == Bounced && rows[id].stamps.bouncedAt == Some(at)
            && rows[id].lastError == LastError(Some("BOUNCED"), reason))
  {
    MessageIdStays(MarkRow(st, id, ToSent(m)), ops, id);
    EventWrites(Run(MarkRow(st, id, ToSent(m)), ops), m, t, at, reason, id);
  }
}
