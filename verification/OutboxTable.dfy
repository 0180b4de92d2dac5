/**
 The CRM outbox table, its dead-letter table, and the repository calls over them. Each call is
 one transaction. A row is named by its position, which stands for its freshly drawn UUID: rows
 are never deleted. `version` numbers the enqueue call that wrote the row's payload.
 */
module OutboxTable {
  import opened Common
  import opened Batching

  type Payload = string

  datatype Key = Key(aggregate: string, operation: string)

  datatype Status = Pending | Processing | Done | Dlq

  datatype Row = Row(
    key: Key, payload: Payload, version: nat, status: Status, attempts: int,
    nextRetryAt: Option<Time>, lastError: Option<string>, createdAt: Time, updatedAt: Time)

  datatype DlqEntry = DlqEntry(original: nat, payload: Payload, error: string, movedAt: Time)

  datatype Table = Table(rows: seq<Row>, dlq: seq<DlqEntry>)

  predicate IsPendingFor(r: Row, key: Key) {
    r.status == Pending && r.key == key
  }

  /** The partial unique index on (aggregate, operation) where status is pending. */
  ghost predicate OnePending(rows: seq<Row>) {
    forall i, j :: 0 <= i < j < |rows| && rows[i].status == Pending && rows[j].status == Pending
                   ==> rows[i].key != rows[j].key
  }

  predicate IsDue(r: Row, now: Time) {
    r.status == Pending && (r.nextRetryAt.Some? ==> r.nextRetryAt.value <= now)
  }

  function DueRows(rows: seq<Row>, now: Time): set<nat> {
    set i: nat | i < |rows| && IsDue(rows[i], now)
  }

  function ClaimRanks(rows: seq<Row>): seq<Rank> {
    seq(|rows|, i requires 0 <= i < |rows| => Rank(rows[i].createdAt, 0))
  }

  /** The first pending row of a key at position `from` or later. */
  function PendingFrom(rows: seq<Row>, key: Key, from: nat): (r: Option<nat>)
    requires from <= |rows|
    ensures r.Some? ==> from <= r.value < |rows| && IsPendingFor(rows[r.value], key)
    ensures r.None? ==> forall i :: from <= i < |rows| ==> !IsPendingFor(rows[i], key)
    decreases |rows| - from
  {
    if from == |rows| then None
    else if IsPendingFor(rows[from], key) then Some(from)
    else PendingFrom(rows, key, from + 1)
  }

  /** Insert, or overwrite the payload of the key's pending row and reset its retry state. */
  function Enqueue(t: Table, key: Key, payload: Payload, version: nat, now: Time): (t': Table)
  {
    match PendingFrom(t.rows, key, 0)
    case Some(i) =>
      t.(rows := t.rows[i := t.rows[i].(payload := payload, version := version, attempts := 0,
                                        nextRetryAt := None, lastError := None, updatedAt := now)])
    case None =>
      t.(rows := t.rows + [Row(key, payload, version, Pending, 0, None, None, now, now)])
  }

  function Claim(t: Table, ids: seq<nat>, now: Time): (t': Table)
    ensures |t'.rows| == |t.rows|
  {
    t.(rows := seq(|t.rows|, i requires 0 <= i < |t.rows| =>
      if i in ids then t.rows[i].(status := Processing, updatedAt := now) else t.rows[i]))
  }

  function MarkDone(t: Table, id: nat, now: Time): (t': Table)
    ensures |t'.rows| == |t.rows|
  {
    if id < |t.rows| then
      t.(rows := t.rows[id := t.rows[id].(status := Done, lastError := None, nextRetryAt := None, updatedAt := now)])
    else t
  }

  /** The index rejects a row going back to pending when another row of its key is pending. */
  ghost predicate RetryCollides(t: Table, id: nat) {
    id < |t.rows| && exists j :: 0 <= j < |t.rows| && j != id && IsPendingFor(t.rows[j], t.rows[id].key)
  }

  function ScheduleRetry(t: Table, id: nat, error: string, next: Time, attempt: int, now: Time): (t': Table)
    ensures |t'.rows| == |t.rows|
  {
    if id < |t.rows| then
      t.(rows := t.rows[id := t.rows[id].(status := Pending, attempts := attempt, lastError := Some(error),
                                          nextRetryAt := Some(next), updatedAt := now)])
    else t
  }

  function MoveToDlq(t: Table, id: nat, error: string, now: Time): (t': Table)
    ensures |t'.rows| == |t.rows|
  {
    if id < |t.rows| then
      t.(rows := t.rows[id := t.rows[id].(status := Dlq, lastError := Some(error), updatedAt := now)],
         dlq := t.dlq + [DlqEntry(id, t.rows[id].payload, error, now)])
    else t
  }

  /** After an enqueue the key has a single pending row, it carries the new payload with a clean
      retry budget, it is due at once, and no other row changed. */
  lemma EnqueueLeavesOneFreshPendingRow(t: Table, key: Key, payload: Payload, version: nat, now: Time)
    requires OnePending(t.rows)
    ensures var t' := Enqueue(t, key, payload, version, now);
            && OnePending(t'.rows) && t'.dlq == t.dlq && |t.rows| <= |t'.rows| <= |t.rows| + 1
            && exists i :: 0 <= i < |t'.rows| && IsPendingFor(t'.rows[i], key) && IsDue(t'.rows[i], now)
                 && t'.rows[i] == Row(key, payload, version, Pending, 0, None, None,
                                      if i < |t.rows| then t.rows[i].createdAt else now, now)
                 && forall j :: 0 <= j < |t'.rows| && j != i ==>
                      j < |t.rows| && t'.rows[j] == t.rows[j] && !IsPendingFor(t'.rows[j], key)
  {
    var t' := Enqueue(t, key, payload, version, now);
    var found := PendingFrom(t.rows, key, 0);
    var i := if found.Some? then found.value else |t.rows|;
    assert IsPendingFor(t'.rows[i], key);
    if found.Some? {
      assert forall j :: 0 <= j < |t.rows| && j != i && t.rows[j].status == Pending ==> t.rows[j].key != t.rows[i].key;
    }
  }

  /** Among due rows none is left behind for, or dispatched after, a row created later. */
  lemma OldestRowsGoFirst(rows: seq<Row>, now: Time, limit: nat, ids: seq<nat>)
    requires LeastBatch(ClaimRanks(rows), DueRows(rows, now), limit, ids)
    ensures forall k :: 0 <= k < |ids| ==> ids[k] < |rows|
    ensures forall i, j :: 0 <= i < j < |ids| ==> rows[ids[i]].createdAt <= rows[ids[j]].createdAt
    ensures forall k, left: nat ::
              0 <= k < |ids| && left < |rows| && left !in ids && rows[left].status == Pending
              && (rows[left].nextRetryAt.Some? ==> rows[left].nextRetryAt.value <= now)
              ==> rows[ids[k]].createdAt <= rows[left].createdAt
  {
    var ranks := ClaimRanks(rows);
    assert forall k :: 0 <= k < |ids| ==> ids[k] in DueRows(rows, now);
    forall i, j | 0 <= i < j < |ids|
      ensures rows[ids[i]].createdAt <= rows[ids[j]].createdAt
    {
      assert Leq(ranks[ids[i]], ranks[ids[j]]);
    }
    forall k, left: nat | 0 <= k < |ids| && left in DueRows(rows, now) && left !in ids
      ensures rows[ids[k]].createdAt <= rows[left].createdAt
    {
      assert Leq(ranks[ids[k]], ranks[left]);
    }
  }

  /** The repository object over both tables. `clock` is the database's time and `enqueued` the
      number of enqueue calls so far. A call that fails for a reason of the database itself
      leaves the tables alone; callers choose when that happens. */
  class CrmOutboxRepository {
    var rows: seq<Row>
    var dlq: seq<DlqEntry>
    var enqueued: nat
    var clock: Time

    function Contents(): Table
      reads this
    {
      Table(rows, dlq)
    }

    constructor ()
      ensures Contents() == Table([], []) && enqueued == 0
    {
      rows, dlq, enqueued, clock := [], [], 0, 0;
    }

    /** One upsert statement over the partial unique index. */
    method EnqueueOperation(key: Key, payload: Payload) returns (id: nat)
      modifies this`rows, this`enqueued
      ensures Contents() == Enqueue(old(Contents()), key, payload, old(enqueued), clock)
      ensures enqueued == old(enqueued) + 1
      ensures id < |rows| && IsPendingFor(rows[id], key) && rows[id].payload == payload
    {
      id := 0;
      while id < |rows| && !IsPendingFor(rows[id], key)
        invariant id <= |rows|
        invariant PendingFrom(rows, key, id) == PendingFrom(rows, key, 0)
      {
        id := id + 1;
      }
      if id < |rows| {
        rows := rows[id := rows[id].(payload := payload, version := enqueued, attempts := 0,
                                     nextRetryAt := None, lastError := None, updatedAt := clock)];
      } else {
        rows := rows + [Row(key, payload, enqueued, Pending, 0, None, None, clock, clock)];
      }
      enqueued := enqueued + 1;
    }

    /** Selects the due pending rows, oldest first, and marks each as processing. */
    method GetPendingBatch(limit: nat) returns (ids: seq<nat>)
      modifies this`rows
      ensures LeastBatch(ClaimRanks(old(rows)), DueRows(old(rows), clock), limit, ids)
      ensures Contents() == Claim(old(Contents()), ids, clock)
      ensures forall i: nat :: i < |rows| && i in ids ==> rows[i].status == Processing
    {
      ids := SelectBatch(ClaimRanks(rows), DueRows(rows, clock), limit);
      var k := 0;
      while k < |ids|
        invariant k <= |ids| && |rows| == |old(rows)|
        invariant forall i :: 0 <= i < |rows| ==>
          rows[i] == if i in ids[..k] then old(rows)[i].(status := Processing, updatedAt := clock) else old(rows)[i]
      {
        assert ids[k] in DueRows(old(rows), clock) && ids[..k + 1] == ids[..k] + [ids[k]];
        rows := rows[ids[k] := rows[ids[k]].(status := Processing, updatedAt := clock)];
        k := k + 1;
      }
      assert ids[..k] == ids;
      assert rows == Claim(old(Contents()), ids, clock).rows;
    }

    method MarkAsDone(id: nat)
      modifies this`rows
      ensures Contents() == MarkDone(old(Contents()), id, clock)
      ensures id < |rows| ==> rows[id].status == Done && rows[id].lastError == None && rows[id].nextRetryAt == None
    {
      if id < |rows| {
        rows := rows[id := rows[id].(status := Done, lastError := None, nextRetryAt := None, updatedAt := clock)];
      }
    }

    /** Raises, with the transaction rolled back, exactly when the unique index is violated. */
    method MarkAsFailedWithRetry(id: nat, error: string, next: Time, attempt: int) returns (raised: bool)
      modifies this`rows
      ensures raised <==> RetryCollides(old(Contents()), id)
      ensures Contents() == if raised then old(Contents())
                            else ScheduleRetry(old(Contents()), id, error, next, attempt, clock)
      ensures !raised && id < |rows| ==>
                && rows[id].status == Pending && rows[id].attempts == attempt
                && rows[id].lastError == Some(error) && rows[id].nextRetryAt == Some(next)
    {
      if |rows| <= id {
        return false;
      }
      for j := 0 to |rows|
        invariant forall k :: 0 <= k < j && k != id ==> !IsPendingFor(rows[k], rows[id].key)
      {
        if j != id && IsPendingFor(rows[j], rows[id].key) {
          return true;
        }
      }
      rows := rows[id := rows[id].(status := Pending, attempts := attempt, lastError := Some(error),
                                   nextRetryAt := Some(next), updatedAt := clock)];
      return false;
    }

    method MoveItemToDlq(id: nat, error: string)
      modifies this`rows, this`dlq
      ensures Contents() == MoveToDlq(old(Contents()), id, error, clock)
      ensures id < |rows| ==>
                && rows[id].status == Dlq && rows[id].lastError == Some(error)
                && dlq == old(dlq) + [DlqEntry(id, old(rows)[id].payload, error, clock)]
    {
      if id < |rows| {
        dlq := dlq + [DlqEntry(id, rows[id].payload, error, clock)];
        rows := rows[id := rows[id].(status := Dlq, lastError := Some(error), updatedAt := clock)];
      }
    }
  }
}
