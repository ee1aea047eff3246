/** The outbox table, updated in place. */
module OutboxServices {
  import opened Wrappers
  import O = Outbox

  class MailDeliveriesRepository {
    var now: int
    var rows: seq<O.Delivery>

    constructor (now: int)
      ensures Abs() == O.State(now, [])
    {
      this.now := now;
      rows := [];
    }

    ghost function Abs(): O.State
      reads this
    {
      O.State(now, rows)
    }

    /** The id of the row, new or old. */
    method Enqueue(e: O.EnqueueInput) returns (id: nat)
      modifies this`rows
      ensures Abs() == O.Enqueue(old(Abs()), e)
      ensures id < |rows| && rows[id].envelope.idempotencyKey == e.idempotencyKey
    {
      var at := O.FindKey(rows, e.idempotencyKey);
      if at.Some? {
        id := at.value;
        rows := rows[id := rows[id].(updatedAt := now)];
      } else {
        id := |rows|;
        var envelope := O.Envelope(
          e.idempotencyKey, e.tenantId, e.userId, e.template,
          if e.templateVersion.Some? then e.templateVersion.value else "v1",
          if e.locale.Some? then e.locale.value else "en",
          e.toAddress, e.fromAddress, e.replyTo, e.subject, e.payload, e.correlationId,
          if e.tags.Some? then e.tags.value else [], e.scheduledFor);
        var blank := O.Stamps(None, None, None, None, None, None);
        rows := rows + [O.Delivery(envelope, O.Queued, None, None, 0, O.LastError(None, None), blank, now, now)];
      }
    }

    /** The columns that the `markX` updates set, besides `updated_at`. */
    method UpdateRow(id: nat, status: O.Status, stamps: O.Stamps, lastError: O.LastError)
      requires id < |rows|
      modifies this`rows
      ensures rows == old(rows)[id := old(rows)[id].(
                                  status := status, stamps := stamps, lastError := lastError, updatedAt := now)]
    {
      rows := rows[id := rows[id].(status := status, stamps := stamps, lastError := lastError, updatedAt := now)];
    }

    method MarkSending(id: nat, provider: string)
      modifies this`rows
      ensures Abs() == O.MarkRow(old(Abs()), id, O.ToSending(provider))
    {
      if id >= |rows| { return; }
      var row := rows[id];
      UpdateRow(id, O.Sending, row.stamps, row.lastError);
      rows := rows[id := rows[id].(provider := Some(provider), attempts := row.attempts + 1)];
    }

    method MarkSent(id: nat, providerMessageId: string)
      modifies this`rows
      ensures Abs() == O.MarkRow(old(Abs()), id, O.ToSent(providerMessageId))
    {
      if id >= |rows| { return; }
      UpdateRow(id, O.Sent, rows[id].stamps.(sentAt := Some(now)), O.LastError(None, None));
      rows := rows[id := rows[id].(providerMessageId := Some(providerMessageId))];
    }

    method MarkBounced(id: nat, reason: Option<string>)
      modifies this`rows
      ensures Abs() == O.MarkRow(old(Abs()), id, O.ToBounced(reason))
    {
      if id >= |rows| { return; }
      UpdateRow(id, O.Bounced, rows[id].stamps.(bouncedAt := Some(now)), O.LastError(Some("BOUNCED"), reason));
    }

    method MarkComplained(id: nat, reason: Option<string>)
      modifies this`rows
      ensures Abs() == O.MarkRow(old(Abs()), id, O.ToComplained(reason))
    {
      if id >= |rows| { return; }
      UpdateRow(id, O.Complained, rows[id].stamps.(complainedAt := Some(now)), O.LastError(Some("COMPLAINED"), reason));
    }

    method MarkSuppressed(id: nat)
      modifies this`rows
      ensures Abs() == O.MarkRow(old(Abs()), id, O.ToSuppressed)
    {
      if id >= |rows| { return; }
      var why := O.LastError(Some("SUPPRESSED"), Some("Recipient on suppression list"));
      UpdateRow(id, O.Suppressed, rows[id].stamps, why);
    }

    method MarkFailed(id: nat, code: string, message: string)
      modifies this`rows
      ensures Abs() == O.MarkRow(old(Abs()), id, O.ToFailed(code, message))
    {
      if id >= |rows| { return; }
      UpdateRow(id, O.Failed, rows[id].stamps.(failedAt := Some(now)), O.LastError(Some(code), Some(message)));
    }

    method RecordAttempt(id: nat, code: string, message: string)
      modifies this`rows
      ensures Abs() == O.MarkRow(old(Abs()), id, O.Attempt(code, message))
    {
      if id >= |rows| { return; }
      UpdateRow(id, rows[id].status, rows[id].stamps, O.LastError(Some(code), Some(message)));
    }

    /** The columns an event sets on a row. */
    method SetFromEvent(row: O.Delivery, t: O.EventType, at: int, reason: Option<string>) returns (r: O.Delivery)
      ensures r == O.WithEvent(row, t, at, reason, now)
    {
      var status := O.EventToStatus(t);
      r := row.(updatedAt := now, stamps := O.Stamped(row.stamps, t, at));
      if status.Some? { r := r.(status := status.value); }
      if status == Some(O.Bounced) || status == Some(O.Complained) {
        var code := if status == Some(O.Bounced) then "BOUNCED" else "COMPLAINED";
        r := r.(lastError := O.LastError(Some(code), reason));
      }
    }

    /** The first row updated, if any; events of unknown type update none. */
    method ApplyEvent(messageId: string, t: O.EventType, at: int, reason: Option<string>) returns (r: Option<O.Delivery>)
      modifies this`rows
      ensures Abs() == O.ApplyEvent(old(Abs()), messageId, t, at, reason)
      ensures
        var first := O.FirstWith(old(rows), messageId);
        if t.Unknown? || first.None? then r == None
        else first.value < |rows| && r == Some(rows[first.value])
    {
      if t.Unknown? { return None; }
      var first := O.FirstWith(rows, messageId);
      ghost var was := rows;
      for i := 0 to |rows|
        invariant rows == O.RowsAfter(was, i, messageId, t, at, reason, now)
      {
        if rows[i].providerMessageId == Some(messageId) {
          var row := SetFromEvent(rows[i], t, at, reason);
          rows := rows[i := row];
        }
      }
      r := if first.Some? then Some(rows[first.value]) else None;
    }
  }
}
