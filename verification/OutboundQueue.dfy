/** The outbound message queue and its repository. A row is named by its position: rows are never deleted. */
module OutboundQueue {
  import opened Common
  import opened Batching

  /** What rendering the payload's template yields: a stripped text, or the exception it raises. */
  datatype Rendering = Rendered(text: string) | Broken(error: string)

  datatype Payload = Payload(phone: Option<string>, to: Option<string>, message: Rendering)

  datatype Status = Pending | Processing | Sent | Failed

  datatype Row = Row(lead: Option<nat>, payload: Payload, priority: int, scheduledAt: Time,
                     status: Status, attempts: nat, sentAt: Option<Time>, lastError: Option<string>)

  /** What a worker is handed for a claimed row. */
  datatype Item = Item(id: nat, leadPhone: Option<string>, payload: Payload)

  predicate IsDue(r: Row, now: Time) {
    r.status == Pending && r.scheduledAt <= now
  }

  function DueRows(rows: seq<Row>, now: Time): set<nat> {
    set i: nat | i < |rows| && IsDue(rows[i], now)
  }

  function SendRanks(rows: seq<Row>): seq<Rank> {
    seq(|rows|, i requires 0 <= i < |rows| => Rank(rows[i].priority, rows[i].scheduledAt))
  }

  function Claim(rows: seq<Row>, ids: seq<nat>): seq<Row> {
    seq(|rows|, i requires 0 <= i < |rows| =>
      if i in ids then rows[i].(status := Processing, attempts := rows[i].attempts + 1) else rows[i])
  }

  function LeadPhone(leads: map<nat, string>, lead: Option<nat>): Option<string> {
    if lead.Some? && lead.value in leads then Some(leads[lead.value]) else None
  }

  function Items(rows: seq<Row>, ids: seq<nat>, leads: map<nat, string>): seq<Item>
    requires forall k :: 0 <= k < |ids| ==> ids[k] < |rows|
  {
    seq(|ids|, k requires 0 <= k < |ids| => Item(ids[k], LeadPhone(leads, rows[ids[k]].lead), rows[ids[k]].payload))
  }

  /** The item stands for this row: its payload, and the phone of its lead if there is one. */
  ghost predicate Carries(item: Item, id: nat, row: Row, leads: map<nat, string>) {
    && item.id == id && item.payload == row.payload
    && forall phone :: item.leadPhone == Some(phone) <==>
                       row.lead.Some? && row.lead.value in leads && leads[row.lead.value] == phone
  }

  /** The claimed rows are in processing, with one attempt more. */
  ghost predicate AllTaken(rows: seq<Row>, rows': seq<Row>, ids: seq<nat>) {
    && |rows'| == |rows|
    && forall i :: 0 <= i < |rows| && i in ids ==>
         rows'[i].status == Processing && rows'[i].attempts == rows[i].attempts + 1
  }

  lemma ClaimTakes(rows: seq<Row>, ids: seq<nat>)
    ensures AllTaken(rows, Claim(rows, ids), ids)
  {
  }

  lemma OneMoreClaimed(rows: seq<Row>, ids: seq<nat>, k: nat, leads: map<nat, string>)
    requires k < |ids| && Distinct(ids) && forall j :: 0 <= j < |ids| ==> ids[j] < |rows|
    ensures var row := rows[ids[k]];
            && Claim(rows, ids[..k])[ids[k]] == row
            && Claim(rows, ids[..k + 1]) ==
               Claim(rows, ids[..k])[ids[k] := row.(status := Processing, attempts := row.attempts + 1)]
            && Items(rows, ids[..k + 1], leads) ==
               Items(rows, ids[..k], leads) + [Item(ids[k], LeadPhone(leads, row.lead), row.payload)]
  {
    assert ids[..k + 1] == ids[..k] + [ids[k]] && ids[k] !in ids[..k];
  }

  lemma ItemsCarry(rows: seq<Row>, ids: seq<nat>, leads: map<nat, string>)
    requires forall k :: 0 <= k < |ids| ==> ids[k] < |rows|
    ensures AllCarry(Items(rows, ids, leads), ids, rows, leads)
  {
  }

  ghost predicate AllCarry(items: seq<Item>, ids: seq<nat>, rows: seq<Row>, leads: map<nat, string>) {
    && |items| == |ids|
    && forall k :: 0 <= k < |ids| ==> ids[k] < |rows| && Carries(items[k], ids[k], rows[ids[k]], leads)
  }

  function MarkSent(rows: seq<Row>, id: nat, now: Time): seq<Row> {
    if id < |rows| then rows[id := rows[id].(status := Sent, sentAt := Some(now), lastError := None)] else rows
  }

  function MarkFailed(rows: seq<Row>, id: nat, error: string): seq<Row> {
    if id < |rows| then rows[id := rows[id].(status := Failed, lastError := Some(error))] else rows
  }

  ghost predicate PrioritiesAreBinary(rows: seq<Row>) {
    forall i :: 0 <= i < |rows| ==> rows[i].priority == 0 || rows[i].priority == 1
  }

  /** No due row of priority 0 is skipped for one of priority 1, and none is sent after one; among rows of
      one priority an earlier schedule is neither skipped nor sent later. */
  lemma UrgentRowsGoFirst(rows: seq<Row>, now: Time, limit: nat, ids: seq<nat>, taken: nat, left: nat)
    requires LeastBatch(SendRanks(rows), DueRows(rows, now), limit, ids) && taken in ids && left in DueRows(rows, now)
    ensures taken < |rows|
    ensures left !in Claimed(ids) || After(ids, taken, left) ==>
              && rows[taken].priority <= rows[left].priority
              && (rows[taken].priority == rows[left].priority ==> rows[taken].scheduledAt <= rows[left].scheduledAt)
  {
    var ranks := SendRanks(rows);
    var k :| 0 <= k < |ids| && ids[k] == taken;
    assert taken in DueRows(rows, now);
    if left !in ids {
      assert Leq(ranks[ids[k]], ranks[left]);
    } else if After(ids, taken, left) {
      var i, j :| 0 <= i < j < |ids| && ids[i] == taken && ids[j] == left;
      assert Leq(ranks[ids[i]], ranks[ids[j]]);
    }
  }

  ghost function Claimed(ids: seq<nat>): set<nat> {
    set i | i in ids
  }

  ghost predicate After(ids: seq<nat>, first: nat, second: nat) {
    exists i, j :: 0 <= i < j < |ids| && ids[i] == first && ids[j] == second
  }

  /** A batch shorter than the limit leaves no due row behind. */
  lemma {:induction false} ShortBatchIsEverything(rows: seq<Row>, now: Time, limit: nat, ids: seq<nat>)
    requires LeastBatch(SendRanks(rows), DueRows(rows, now), limit, ids) && |ids| < limit
    ensures Claimed(ids) == DueRows(rows, now)
  {
    DistinctCount(ids);
    var due := DueRows(rows, now);
    assert Claimed(ids) <= due && |due - Claimed(ids)| == |due| - |Claimed(ids)|;
  }

  lemma {:induction false} DistinctCount(ids: seq<nat>)
    requires Distinct(ids)
    ensures |Claimed(ids)| == |ids|
  {
    if ids != [] {
      var init, last := ids[..|ids| - 1], ids[|ids| - 1];
      DistinctCount(init);
      assert Claimed(ids) == Claimed(init) + {last} && last !in Claimed(init);
    }
  }

  class OutboundQueueRepository {
    var rows: seq<Row>
    var clock: Time

    constructor ()
      ensures rows == [] && clock == 0
    {
      rows, clock := [], 0;
    }

    /** Raises when the check constraint on the priority or the foreign key to the lead profiles is violated. */
    method Enqueue(lead: Option<nat>, payload: Payload, priority: int, scheduledAt: Time, leads: map<nat, string>)
      returns (id: Option<nat>)
      modifies this`rows
      ensures id.None? <==> priority !in {0, 1} || (lead.Some? && lead.value !in leads)
      ensures id.None? ==> rows == old(rows)
      ensures id.Some? ==> id.value == |old(rows)|
                           && rows == old(rows) + [Row(lead, payload, priority, scheduledAt, Pending, 0, None, None)]
    {
      if priority != 0 && priority != 1 {
        return None;
      }
      if lead.Some? && lead.value !in leads {
        return None;
      }
      id := Some(|rows|);
      rows := rows + [Row(lead, payload, priority, scheduledAt, Pending, 0, None, None)];
    }

    /** Selects the due rows of least (priority, schedule) and marks each as processing. */
    method GetNextBatch(limit: nat, leads: map<nat, string>) returns (ghost ids: seq<nat>, items: seq<Item>)
      modifies this`rows
      ensures LeastBatch(SendRanks(old(rows)), DueRows(old(rows), clock), limit, ids)
      ensures rows == Claim(old(rows), ids) && forall k :: 0 <= k < |ids| ==> ids[k] < |old(rows)|
      ensures items == Items(old(rows), ids, leads)
      ensures AllCarry(items, ids, old(rows), leads) && AllTaken(old(rows), rows, ids)
    {
      var batch := SelectBatch(SendRanks(rows), DueRows(rows, clock), limit);
      ids := batch;
      assert forall k :: 0 <= k < |batch| ==> batch[k] in DueRows(rows, clock);
      ItemsCarry(rows, ids, leads);
      ClaimTakes(rows, ids);
      items := TakeRows(batch, leads);
    }

    /** Marks these rows as processing, one by one, and hands them out. */
    method TakeRows(ids: seq<nat>, leads: map<nat, string>) returns (items: seq<Item>)
      requires Distinct(ids) && forall k :: 0 <= k < |ids| ==> ids[k] < |rows|
      modifies this`rows
      ensures rows == Claim(old(rows), ids) && items == Items(old(rows), ids, leads)
    {
      items := [];
      for k := 0 to |ids|
        invariant rows == Claim(old(rows), ids[..k]) && items == Items(old(rows), ids[..k], leads)
      {
        OneMoreClaimed(old(rows), ids, k, leads);
        var model := rows[ids[k]];
        rows := rows[ids[k] := model.(status := Processing, attempts := model.attempts + 1)];
        items := items + [Item(ids[k], LeadPhone(leads, model.lead), model.payload)];
      }
      assert ids[..|ids|] == ids;
    }

    method MarkAsSent(id: nat)
      modifies this`rows
      ensures rows == MarkSent(old(rows), id, clock)
      ensures id < |rows| ==> rows[id].status == Sent && rows[id].sentAt == Some(clock) && rows[id].lastError == None
    {
      if id < |rows| {
        rows := rows[id := rows[id].(status := Sent, sentAt := Some(clock), lastError := None)];
      }
    }

    method MarkAsFailed(id: nat, error: string)
      modifies this`rows
      ensures rows == MarkFailed(old(rows), id, error)
      ensures id < |rows| ==> rows[id].status == Failed && rows[id].lastError == Some(error)
    {
      if id < |rows| {
        rows := rows[id := rows[id].(status := Failed, lastError := Some(error))];
      }
    }
  }
}
