/**
 The idempotency service over its table: one row per key, an atomic find-or-create, and a row lock
 that a caller's own transaction keeps until it ends.
 */
module Idempotency {
  import opened Common

  datatype Status = Pending | Processing | Completed | Failed

  datatype Body = Stored(content: Id) | PreviousAttemptFailed

  datatype Record = Record(status: Status, code: Option<int>, body: Option<Body>)

  /** What is committed for a key, the transaction that holds the row's lock, and what it wrote so far. */
  datatype Row = Row(committed: Option<Record>, holder: Option<Id>, staged: Option<Record>)

  const NO_ROW := Row(None, None, None)
  const NEW_RECORD := Record(Pending, None, None)
  const INTERNAL_SERVER_ERROR := 500

  datatype Reply = NewRequest | Replay(code: Option<int>, body: Option<Body>) | Rejected | Blocked

  /** The lock of the row is in another transaction's hands: the statement waits, nothing happens yet. */
  predicate Waits(row: Row, txn: Option<Id>) {
    row.holder.Some? && row.holder != txn
  }

  /** The record as a statement inside the given transaction sees it. */
  function Seen(row: Row, txn: Option<Id>): Option<Record> {
    if txn.Some? && row.holder == txn && row.staged.Some? then row.staged else row.committed
  }

  predicate IsFinal(record: Record) {
    record.status == Completed || record.status == Status.Failed
  }

  /** A stored failure is completed with defaults where it lacks a code or a body; 0 counts as lacking. */
  function ReplyFor(record: Record): Reply {
    match record.status
    case Completed => Replay(record.code, record.body)
    case Failed =>
      Replay(if record.code.Some? && record.code.value != 0 then record.code else Some(INTERNAL_SERVER_ERROR),
             if record.body.Some? then record.body else Some(PreviousAttemptFailed))
    case _ => Rejected
  }

  /** Without a transaction of the caller's, the service opens one and ends it before it answers. */
  function CheckRow(row: Row, txn: Option<Id>): (Row, Reply) {
    if Waits(row, txn) then (row, Blocked)
    else
      match Seen(row, txn)
      case None =>
        (if txn.Some? then row.(holder := txn, staged := Some(NEW_RECORD)) else row.(committed := Some(NEW_RECORD)),
         NewRequest)
      case Some(record) => (if txn.Some? then row.(holder := txn) else row, ReplyFor(record))
  }

  function WithOutcome(record: Record, status: Status, code: Option<int>, body: Option<Body>): Record {
    Record(status, if code.Some? then code else record.code, if body.Some? then body else record.body)
  }

  /** Updating a row that is not there changes nothing. */
  function MarkRow(row: Row, txn: Option<Id>, status: Status, code: Option<int>, body: Option<Body>): Row {
    if Waits(row, txn) || Seen(row, txn).None? then row
    else
      var record := WithOutcome(Seen(row, txn).value, status, code, body);
      if txn.Some? then row.(holder := txn, staged := Some(record)) else row.(committed := Some(record))
  }

  function EndRow(row: Row, txn: Id, commits: bool): Row {
    if row.holder != Some(txn) then row
    else Row(if commits && row.staged.Some? then row.staged else row.committed, None, None)
  }

  function At(rows: map<Id, Row>, key: Id): Row {
    if key in rows then rows[key] else NO_ROW
  }

  /** The table with the service's operations; a call that has to wait answers Blocked and can be made again. */
  class IdempotencyService {
    var rows: map<Id, Row>

    /** A request without a key always counts as new. */
    method CheckAndLockKey(key: Option<Id>, txn: Option<Id>) returns (reply: Reply)
      modifies this
      ensures key.None? ==> rows == old(rows) && reply == NewRequest
      ensures key.Some? ==>
                && (At(rows, key.value), reply) == CheckRow(old(At(rows, key.value)), txn)
                && forall k :: k != key.value ==> At(rows, k) == old(At(rows, k))
    {
      if key.None? {
        return NewRequest;
      }
      var row := At(rows, key.value);
      if Waits(row, txn) {
        return Blocked;
      }
      var existing, created := FindOrCreateRecord(key.value, txn);
      if !created {
        if existing.status == Completed {
          return Replay(existing.code, existing.body);
        } else if existing.status == Status.Failed {
          var code := if existing.code.Some? && existing.code.value != 0 then existing.code
                      else Some(INTERNAL_SERVER_ERROR);
          var body := if existing.body.Some? then existing.body else Some(PreviousAttemptFailed);
          return Replay(code, body);
        } else {
          return Rejected;
        }
      }
      return NewRequest;
    }

    /** The repository's find-or-create; it takes the row's lock for the caller's transaction. */
    method FindOrCreateRecord(key: Id, txn: Option<Id>) returns (record: Record, created: bool)
      requires !Waits(At(rows, key), txn)
      modifies this
      ensures At(rows, key) == CheckRow(old(At(rows, key)), txn).0
      ensures forall k :: k != key ==> At(rows, k) == old(At(rows, k))
      ensures created <==> Seen(old(At(rows, key)), txn).None?
      ensures !created ==> Seen(old(At(rows, key)), txn) == Some(record)
    {
      var row := At(rows, key);
      var seen := Seen(row, txn);
      created := seen.None?;
      record := if created then NEW_RECORD else seen.value;
      if txn.Some? {
        row := row.(holder := txn, staged := if created then Some(NEW_RECORD) else row.staged);
      } else if created {
        row := row.(committed := Some(NEW_RECORD));
      }
      rows := rows[key := row];
    }

    method UpdateRecord(key: Id, txn: Option<Id>, status: Status, code: Option<int>, body: Option<Body>)
      modifies this
      ensures At(rows, key) == MarkRow(old(At(rows, key)), txn, status, code, body)
      ensures forall k :: k != key ==> At(rows, k) == old(At(rows, k))
    {
      var row := At(rows, key);
      if !Waits(row, txn) && Seen(row, txn).Some? {
        var record := WithOutcome(Seen(row, txn).value, status, code, body);
        row := if txn.Some? then row.(holder := txn, staged := Some(record)) else row.(committed := Some(record));
        rows := rows[key := row];
      }
    }

    method MarkAsCompleted(key: Option<Id>, code: Option<int>, body: Option<Body>, txn: Option<Id>)
      modifies this
      ensures key.None? ==> rows == old(rows)
      ensures key.Some? ==>
                && At(rows, key.value) == MarkRow(old(At(rows, key.value)), txn, Completed, code, body)
                && forall k :: k != key.value ==> At(rows, k) == old(At(rows, k))
    {
      if key.None? {
        return;
      }
      UpdateRecord(key.value, txn, Completed, code, body);
    }

    method MarkAsFailed(key: Option<Id>, code: Option<int>, body: Option<Body>, txn: Option<Id>)
      modifies this
      ensures key.None? ==> rows == old(rows)
      ensures key.Some? ==>
                && At(rows, key.value) == MarkRow(old(At(rows, key.value)), txn, Status.Failed, code, body)
                && forall k :: k != key.value ==> At(rows, k) == old(At(rows, k))
    {
      if key.None? {
        return;
      }
      UpdateRecord(key.value, txn, Status.Failed, code, body);
    }

    /** Commit or rollback of a caller's transaction, on every row at once. */
    method EndTransaction(txn: Id, commits: bool)
      modifies this
      ensures forall k :: At(rows, k) == EndRow(old(At(rows, k)), txn, commits)
    {
      rows := map k | k in rows :: EndRow(rows[k], txn, commits);
    }
  }
}
