/**
 The CRM sync worker. Between any two of its awaits the world may let time pass and other callers
 enqueue; a dispatch may raise and so may every repository call. A script `world` fixes these
 choices, and the worker is proved to perform a run of the outbox protocol under every script.
 */
module CrmWorker {
  import opened Common
  import opened Batching
  import opened OutboxTable
  import opened OutboxProtocol
  import opened OutboxSafety
  import opened OutboxRetries
  import opened OutboxOrder

  datatype Request = Request(key: Key, payload: Payload)

  /** What happens before and during one await of the worker. */
  datatype Turn = Turn(delay: nat, enqueues: seq<Request>, raised: Option<string>)

  /** Claimed rows before position `k` have left processing; the others are still in it. */
  ghost predicate HandledPrefix(rows: seq<Row>, claimed: seq<nat>, k: nat) {
    forall j :: 0 <= j < |claimed| ==> claimed[j] < |rows| && (rows[claimed[j]].status == Processing <==> k <= j)
  }

  lemma OneMoreHandled(rows: seq<Row>, rows': seq<Row>, claimed: seq<nat>, i: nat)
    requires Distinct(claimed) && HandledPrefix(rows, claimed, i) && i < |claimed| && |rows'| == |rows|
    requires rows'[claimed[i]].status != Processing
    requires forall n :: 0 <= n < |rows| && n != claimed[i] ==> rows'[n].status == rows[n].status
    ensures HandledPrefix(rows', claimed, i + 1)
  {
  }

  /** The table after the except block, when its repository call goes through. */
  function RetriedOrBuried(t: Table, item: Item, error: string, now: Time): (t': Table)
    ensures |t'.rows| == |t.rows|
  {
    var next := item.attempts + 1;
    if next < MAX_ATTEMPTS then ScheduleRetry(t, item.id, error, now + next * BACKOFF_MINUTES * MINUTE, next, now)
    else MoveToDlq(t, item.id, error, now)
  }

  /** The except block escapes: the repository fails, or a retry meets a newer pending row of its key. */
  ghost predicate Escapes(t: Table, item: Item, dbDown: bool) {
    dbDown || (item.attempts + 1 < MAX_ATTEMPTS && RetryCollides(t, item.id))
  }

  lemma FailureOutcome(z: Sys, queue: seq<Item>, error: string, dbDown: bool, at: Time)
    requires z.runs == map[0 := Run(queue, Failed(error))] && queue != [] && z.now <= at
    ensures Enabled(z, FailureStep(0, dbDown, at))
    ensures Apply(z, FailureStep(0, dbDown, at)) ==
            if Escapes(z.table, queue[0], dbDown) then z.(runs := map[], now := at)
            else z.(table := RetriedOrBuried(z.table, queue[0], error, at),
                    runs := map[0 := Run(queue[1..], Ready)], now := at)
  {
    assert map[0 := Run(queue, Failed(error))] - {0} == map[];
  }

  // ----- what a batch does to its rows, whatever the protocol calls it

  /** The table after these requests, numbered from `version`. */
  function EnqueueAll(t: Table, requests: seq<Request>, version: nat, now: Time): Table {
    if requests == [] then t
    else
      var n := |requests| - 1;
      Enqueue(EnqueueAll(t, requests[..n], version, now), requests[n].key, requests[n].payload, version + n, now)
  }

  lemma EnqueueAllSnoc(t: Table, requests: seq<Request>, i: nat, version: nat, now: Time)
    requires i < |requests|
    ensures EnqueueAll(t, requests[..i + 1], version, now) ==
            Enqueue(EnqueueAll(t, requests[..i], version, now), requests[i].key, requests[i].payload, version + i, now)
  {
    assert requests[..i + 1][..i] == requests[..i];
  }

  /** Enqueues leave this of a row: all of it unless it is pending, and then its key and that it is pending. */
  ghost predicate RowKept(r: Row, r': Row) {
    if r.status == Pending then r'.status == Pending && r'.key == r.key else r' == r
  }

  ghost predicate KeptExcept(rows: seq<Row>, rows': seq<Row>, changed: set<nat>) {
    |rows| <= |rows'| && forall i: nat :: i < |rows| && i !in changed ==> RowKept(rows[i], rows'[i])
  }

  lemma KeptOn(a: seq<Row>, b: seq<Row>, c: seq<Row>, changed: set<nat>)
    requires KeptExcept(a, b, changed) && KeptExcept(b, c, changed)
    ensures KeptExcept(a, c, changed)
  {
  }

  lemma EnqueueKeeps(t: Table, key: Key, payload: Payload, version: nat, now: Time)
    ensures KeptExcept(t.rows, Enqueue(t, key, payload, version, now).rows, {})
  {
  }

  lemma KeptKeepsHandled(rows: seq<Row>, rows': seq<Row>, claimed: seq<nat>, k: nat)
    requires KeptExcept(rows, rows', {}) && HandledPrefix(rows, claimed, k)
    ensures HandledPrefix(rows', claimed, k)
  {
    forall j | 0 <= j < |claimed|
      ensures claimed[j] < |rows'| && (rows'[claimed[j]].status == Processing <==> k <= j)
    {
      assert claimed[j] < |rows| && RowKept(rows[claimed[j]], rows'[claimed[j]]);
    }
  }

  /** What becomes of a row: done when neither the dispatch nor the mark raises, otherwise back to pending while
      the budget lasts, else dead. */
  ghost predicate Dealt(r: Row, attempts: int, dispatch: Turn, mark: Turn) {
    if dispatch.raised.None? && mark.raised.None? then r.status == Done
    else if attempts + 1 < 3 then r.status == Pending
    else r.status == Dlq
  }

  ghost predicate DealtAt(rows: seq<Row>, item: Item, dispatch: Turn, mark: Turn) {
    item.id < |rows| && Dealt(rows[item.id], item.attempts, dispatch, mark)
  }

  /** The first `k` items were dealt with as the script has it, three turns for each. */
  ghost predicate DealtPrefix(rows: seq<Row>, items: seq<Item>, world: nat -> Turn, k: nat)
    requires k <= |items|
  {
    forall j: nat :: j < k ==> DealtAt(rows, items[j], world(3 * j + 1), world(3 * j + 2))
  }

  lemma DealtStays(rows: seq<Row>, rows': seq<Row>, items: seq<Item>, world: nat -> Turn, k: nat, changed: set<nat>)
    requires k <= |items| && DealtPrefix(rows, items, world, k) && KeptExcept(rows, rows', changed)
    requires forall j :: 0 <= j < k ==> items[j].id !in changed
    ensures DealtPrefix(rows', items, world, k)
  {
    forall j: nat | j < k
      ensures DealtAt(rows', items[j], world(3 * j + 1), world(3 * j + 2))
    {
      assert DealtAt(rows, items[j], world(3 * j + 1), world(3 * j + 2));
      assert RowKept(rows[items[j].id], rows'[items[j].id]);
    }
  }

  /** The dispatch carries the item as it was claimed. */
  ghost predicate DispatchOf(d: Dispatch, item: Item) {
    d.id == item.id && d.key == item.key && d.payload == item.payload && d.version == item.version
    && d.attempt == item.attempts + 1
  }

  /** The dispatches since `before` are those of the first `n` items, one each and in order. */
  ghost predicate DispatchedInOrder(before: seq<Dispatch>, log: seq<Dispatch>, items: seq<Item>, n: nat)
    requires n <= |items|
  {
    before <= log && |log| == |before| + n && forall j: nat :: j < n ==> DispatchOf(log[|before| + j], items[j])
  }

  lemma KeptWiden(rows: seq<Row>, rows': seq<Row>, changed: set<nat>)
    requires KeptExcept(rows, rows', {})
    ensures KeptExcept(rows, rows', changed)
  {
  }

  lemma OneItemMore(before: seq<Dispatch>, log: seq<Dispatch>, log': seq<Dispatch>, items: seq<Item>, n: nat)
    requires n < |items| && DispatchedInOrder(before, log, items, n)
    requires |log'| == |log| + 1 && log <= log' && DispatchOf(log'[|log|], items[n])
    ensures DispatchedInOrder(before, log', items, n + 1)
  {
    assert forall j :: 0 <= j < |log| ==> log'[j] == log[j];
  }

  lemma AllDone(rows: seq<Row>, items: seq<Item>, claimed: seq<nat>, world: nat -> Turn, handled: nat)
    requires handled <= |items| == |claimed| && DealtPrefix(rows, items, world, handled)
    requires forall j :: 0 <= j < |items| ==> items[j].id == claimed[j]
    requires handled < |items| ==> exists t :: world(t).raised.Some?
    ensures (forall t :: world(t).raised.None?) ==> handled == |items| && EveryDone(rows, claimed)
  {
    if forall t :: world(t).raised.None? {
      forall j: nat | j < |claimed|
        ensures claimed[j] < |rows| && rows[claimed[j]].status == Done
      {
        assert DealtAt(rows, items[j], world(3 * j + 1), world(3 * j + 2));
      }
    }
  }

  /** A failure's row says why and, while the budget lasts, when it is tried again. */
  ghost predicate FailureRecorded(rows: seq<Row>, item: Item, error: string, now: Time) {
    && item.id < |rows| && rows[item.id].lastError == Some(error)
    && if item.attempts + 1 < 3 then
         && rows[item.id].status == Pending && rows[item.id].attempts == item.attempts + 1
         && rows[item.id].nextRetryAt == Some(now + (item.attempts + 1) * 5 * MINUTE)
       else rows[item.id].status == Dlq
  }

  /** The batch is the least due rows for the limit, and its items are those rows as they were. */
  ghost predicate Claimed(rows: seq<Row>, now: Time, limit: nat, claimed: seq<nat>, items: seq<Item>) {
    && LeastBatch(ClaimRanks(rows), DueRows(rows, now), limit, claimed)
    && (forall j :: 0 <= j < |claimed| ==> claimed[j] < |rows|)
    && items == Snapshots(rows, claimed)
  }

  // ----- batch after batch

  /** The tables and the dispatch log between two batches. */
  datatype Moment = Moment(table: Table, log: seq<Dispatch>, enqueued: nat, clock: Time)

  /** The rows a batch is claimed from: those there were, and what was enqueued during the first await. */
  ghost function RowsFor(m: Moment, turn: Turn): seq<Row> {
    EnqueueAll(m.table, turn.enqueues, m.enqueued, m.clock + turn.delay).rows
  }

  ghost predicate ItemsOf(items: seq<Item>, claimed: seq<nat>) {
    |items| == |claimed| && forall j :: 0 <= j < |items| ==> items[j].id == claimed[j]
  }

  ghost predicate EveryDone(rows: seq<Row>, claimed: seq<nat>) {
    forall j :: 0 <= j < |claimed| ==> claimed[j] < |rows| && rows[claimed[j]].status == Done
  }

  /** From these rows at the claim: the batch is the oldest due rows there are then, as many as the limit allows;
      its items are dispatched in order, once each; and each item handled is dealt with as the script has it. When
      nothing raises, that is all of them, and they end done. */
  ghost predicate AchievedFrom(rows: seq<Row>, now: Time, before: seq<Dispatch>, rows': seq<Row>, log: seq<Dispatch>,
                               limit: nat, world: nat -> Turn, claimed: seq<nat>, items: seq<Item>, handled: nat)
  {
    && Claimed(rows, now, limit, claimed, items) && ItemsOf(items, claimed)
    && handled <= |items| && DealtPrefix(rows', items, world, handled)
    && DispatchedInOrder(before, log, items, if handled < |items| then handled + 1 else handled)
    && ((forall t :: world(t).raised.None?) ==> handled == |items| && EveryDone(rows', claimed))
  }

  /** What a batch achieves, by the script: nothing when the claim raises; else what follows from the rows at the
      claim. */
  ghost predicate Achieved(a: Moment, b: Moment, limit: nat, world: nat -> Turn,
                           claimed: seq<nat>, items: seq<Item>, handled: nat)
  {
    if world(0).raised.Some? then claimed == [] && handled == 0 && b.log == a.log
    else AchievedFrom(RowsFor(a, world(0)), a.clock + world(0).delay, a.log, b.table.rows, b.log,
                      limit, world, claimed, items, handled)
  }

  ghost predicate BatchRan(a: Moment, b: Moment, limit: nat, world: nat -> Turn) {
    exists claimed, items, handled :: Achieved(a, b, limit, world, claimed, items, handled)
  }

  /** The script of one batch. */
  function Script(world: (nat, nat) -> Turn, b: nat): nat -> Turn {
    (t: nat) => world(b, t)
  }

  class CrmSyncWorker {
    const repo: CrmOutboxRepository
    /** The dispatches made to the CRM provider so far. */
    var log: seq<Dispatch>

    constructor (repo: CrmOutboxRepository)
      ensures this.repo == repo && log == []
    {
      this.repo, log := repo, [];
    }

    /** The steps taken since `start` lead to the current tables and log, with `runs` open. */
    ghost predicate Reached(start: Sys, steps: seq<Step>, runs: map<nat, Run>)
      reads this, repo
    {
      && Valid(start, steps) && OneRunAtATime(start, steps)
      && var z := RunAll(start, steps);
         && z.table == repo.Contents() && z.runs == runs && z.log == log
         && z.enqueued == repo.enqueued && z.now <= repo.clock
    }

    ghost function Now(): Moment
      reads this, repo
    {
      Moment(repo.Contents(), log, repo.enqueued, repo.clock)
    }

    ghost predicate HandledUpTo(claimed: seq<nat>, k: nat)
      reads repo
    {
      HandledPrefix(repo.rows, claimed, k)
    }

    /** The first `i` of these requests have been enqueued over `t`. */
    ghost predicate Enqueued(t: Table, requests: seq<Request>, version: nat, i: nat)
      reads repo
    {
      && i <= |requests| && repo.enqueued == version + i && KeptExcept(t.rows, repo.rows, {})
      && repo.Contents() == EnqueueAll(t, requests[..i], version, repo.clock)
    }

    method Wait(turn: Turn, ghost start: Sys, ghost steps: seq<Step>, ghost runs: map<nat, Run>)
      returns (ghost steps': seq<Step>)
      requires Reached(start, steps, runs)
      modifies repo
      ensures Reached(start, steps', runs) && log == old(log)
      ensures repo.clock == old(repo.clock) + turn.delay && repo.enqueued == old(repo.enqueued) + |turn.enqueues|
      ensures repo.Contents() == EnqueueAll(old(repo.Contents()), turn.enqueues, old(repo.enqueued), repo.clock)
      ensures KeptExcept(old(repo.rows), repo.rows, {})
    {
      ghost var t, version := repo.Contents(), repo.enqueued;
      repo.clock := repo.clock + turn.delay;
      steps' := steps;
      for i := 0 to |turn.enqueues|
        invariant Reached(start, steps', runs) && Enqueued(t, turn.enqueues, version, i)
        invariant repo.clock == old(repo.clock) + turn.delay
      {
        steps' := EnqueueOne(turn.enqueues, i, start, steps', runs, t, version);
      }
      assert turn.enqueues[..|turn.enqueues|] == turn.enqueues;
    }

    method EnqueueOne(requests: seq<Request>, i: nat, ghost start: Sys, ghost steps: seq<Step>,
                      ghost runs: map<nat, Run>, ghost t: Table, ghost version: nat)
      returns (ghost steps': seq<Step>)
      requires i < |requests| && Reached(start, steps, runs) && Enqueued(t, requests, version, i)
      modifies repo`rows, repo`enqueued
      ensures Reached(start, steps', runs) && Enqueued(t, requests, version, i + 1)
    {
      var r := requests[i];
      ghost var rows, step := repo.rows, EnqueueStep(r.key, r.payload, repo.clock);
      RunSnoc(start, steps, step);
      steps' := steps + [step];
      EnqueueAllSnoc(t, requests, i, version, repo.clock);
      EnqueueKeeps(repo.Contents(), r.key, r.payload, repo.enqueued, repo.clock);
      var _ := repo.EnqueueOperation(r.key, r.payload);
      KeptOn(t.rows, rows, repo.rows, {});
    }

    /** Where the loop stands before item `i`. */
    ghost predicate Progress(before: seq<Dispatch>, items: seq<Item>, claimed: seq<nat>, world: nat -> Turn, i: nat)
      reads this, repo
    {
      && Distinct(claimed) && ItemsOf(items, claimed) && i <= |items| && HandledUpTo(claimed, i)
      && DealtPrefix(repo.rows, items, world, i) && DispatchedInOrder(before, log, items, i)
    }

    /** Claims a batch, then dispatches item by item. It raises exactly when the claim fails or part of the batch
        stays unhandled; that part, and nothing before it, is then left in processing. */
    method ProcessBatch(batchSize: nat, world: nat -> Turn, ghost start: Sys, ghost before: seq<Step>)
      returns (raised: bool, ghost claimed: seq<nat>, ghost items: seq<Item>, ghost handled: nat,
               ghost steps: seq<Step>)
      requires Reached(start, before, map[])
      modifies this`log, repo
      ensures Reached(start, steps, map[])
      ensures Achieved(old(Now()), Now(), batchSize, world, claimed, items, handled)
      ensures HandledUpTo(claimed, handled) && handled <= |claimed|
      ensures raised <==> world(0).raised.Some? || handled < |claimed|
    {
      claimed, items, handled := [], [], 0;
      steps := Wait(world(0), start, before, map[]);
      if world(0).raised.Some? {
        return true, claimed, items, handled, steps;
      }
      assert repo.rows == RowsFor(old(Now()), world(0));
      raised, claimed, items, handled, steps := ClaimAndProcess(batchSize, world, start, steps);
    }

    method ClaimAndProcess(batchSize: nat, world: nat -> Turn, ghost start: Sys, ghost before: seq<Step>)
      returns (raised: bool, ghost claimed: seq<nat>, ghost items: seq<Item>, ghost handled: nat,
               ghost steps: seq<Step>)
      requires Reached(start, before, map[])
      modifies this`log, repo
      ensures Reached(start, steps, map[])
      ensures AchievedFrom(old(repo.rows), old(repo.clock), old(log), repo.rows, log,
                           batchSize, world, claimed, items, handled)
      ensures HandledUpTo(claimed, handled) && handled <= |claimed|
      ensures raised <==> handled < |claimed|
    {
      var batch;
      batch, claimed, steps := ClaimBatch(batchSize, start, before);
      items := batch;
      raised, handled, steps := ProcessClaimed(batch, world, start, steps, claimed, log);
      AllDone(repo.rows, batch, claimed, world, handled);
    }

    /** The loop over the batch. */
    method ProcessClaimed(batch: seq<Item>, world: nat -> Turn, ghost start: Sys, ghost before: seq<Step>,
                          ghost claimed: seq<nat>, ghost sent: seq<Dispatch>)
      returns (raised: bool, ghost handled: nat, ghost steps: seq<Step>)
      requires Reached(start, before, map[0 := Run(batch[0..], Ready)]) && Progress(sent, batch, claimed, world, 0)
      modifies this`log, repo
      ensures Reached(start, steps, map[]) && handled <= |batch|
      ensures HandledUpTo(claimed, handled) && DealtPrefix(repo.rows, batch, world, handled)
      ensures DispatchedInOrder(sent, log, batch, if handled < |batch| then handled + 1 else handled)
      ensures raised <==> handled < |batch|
      ensures raised ==> exists t :: world(t).raised.Some?
    {
      steps := before;
      for i := 0 to |batch|
        invariant Reached(start, steps, map[0 := Run(batch[i..], Ready)])
        invariant Progress(sent, batch, claimed, world, i)
      {
        assert batch[i..][1..] == batch[i + 1..];
        raised, steps := ProcessNext(batch, i, world, start, steps, claimed, sent);
        if raised {
          return true, i, steps;
        }
      }
      assert batch[|batch|..] == [];
      steps := Finish(start, steps);
      return false, |batch|, steps;
    }

    method ClaimBatch(batchSize: nat, ghost start: Sys, ghost before: seq<Step>)
      returns (items: seq<Item>, ghost claimed: seq<nat>, ghost steps: seq<Step>)
      requires Reached(start, before, map[])
      modifies repo`rows
      ensures Reached(start, steps, map[0 := Run(items[0..], Ready)])
      ensures Distinct(claimed) && HandledUpTo(claimed, 0) && ItemsOf(items, claimed)
      ensures Claimed(old(repo.rows), repo.clock, batchSize, claimed, items)
    {
      var rows := repo.rows;
      var ids := repo.GetPendingBatch(batchSize);
      claimed := ids;
      assert forall j :: 0 <= j < |ids| ==> ids[j] in DueRows(rows, repo.clock);
      items := Snapshots(rows, ids);
      assert items[0..] == items;
      ghost var claim := ClaimStep(0, ids, batchSize, repo.clock);
      RunSnoc(start, before, claim);
      steps := before + [claim];
    }

    ghost method Finish(start: Sys, before: seq<Step>) returns (steps: seq<Step>)
      requires Reached(start, before, map[0 := Run([], Ready)])
      ensures Reached(start, steps, map[])
    {
      var finish := FinishStep(0, repo.clock);
      RunSnoc(start, before, finish);
      steps := before + [finish];
      assert map[0 := Run([], Ready)] - {0} == map[];
    }

    /** One turn of the loop. */
    method ProcessNext(batch: seq<Item>, i: nat, world: nat -> Turn, ghost start: Sys, ghost steps: seq<Step>,
                       ghost claimed: seq<nat>, ghost before: seq<Dispatch>)
      returns (raised: bool, ghost steps': seq<Step>)
      requires i < |batch| && Reached(start, steps, map[0 := Run(batch[i..], Ready)])
      requires Progress(before, batch, claimed, world, i)
      modifies this`log, repo
      ensures Reached(start, steps', if raised then map[] else map[0 := Run(batch[i..][1..], Ready)])
      ensures !raised ==> Progress(before, batch, claimed, world, i + 1)
      ensures raised ==>
                && HandledUpTo(claimed, i) && DealtPrefix(repo.rows, batch, world, i)
                && DispatchedInOrder(before, log, batch, i + 1)
                && (world(3 * i + 1).raised.Some? || world(3 * i + 2).raised.Some?)
    {
      var t := 3 * i + 1;
      raised, steps' := ProcessItem(batch[i], world(t), world(t + 1), world(t + 2),
                                    start, steps, batch[i..], claimed, i);
      DealtStays(old(repo.rows), repo.rows, batch, world, i, {batch[i].id});
      OneItemMore(before, old(log), log, batch, i);
    }

    /** The body of the loop: dispatch and mark done, or handle the exception. */
    method ProcessItem(item: Item, first: Turn, second: Turn, third: Turn,
                       ghost start: Sys, ghost steps: seq<Step>, ghost queue: seq<Item>, ghost claimed: seq<nat>,
                       ghost i: nat)
      returns (raised: bool, ghost steps': seq<Step>)
      requires queue != [] && queue[0] == item
      requires Reached(start, steps, map[0 := Run(queue, Ready)])
      requires Distinct(claimed) && HandledUpTo(claimed, i) && i < |claimed| && item.id == claimed[i]
      modifies this`log, repo
      ensures Reached(start, steps', if raised then map[] else map[0 := Run(queue[1..], Ready)])
      ensures HandledUpTo(claimed, if raised then i else i + 1)
      ensures KeptExcept(old(repo.rows), repo.rows, {item.id})
      ensures |log| == |old(log)| + 1 && old(log) <= log && DispatchOf(log[|old(log)|], item)
      ensures !raised ==> DealtAt(repo.rows, item, first, second)
      ensures !raised && first.raised.Some? ==> FailureRecorded(repo.rows, item, first.raised.value, repo.clock)
      ensures !raised && first.raised.None? && second.raised.Some? ==>
                FailureRecorded(repo.rows, item, second.raised.value, repo.clock)
      ensures raised ==> first.raised.Some? || second.raised.Some?
    {
      var error;
      error, steps' := TryItem(item, first, second, start, steps, queue, claimed, i);
      if error.None? {
        return false, steps';
      }
      ghost var rows := repo.rows;
      raised, steps' := FailItem(item, error.value, third, start, steps', queue, claimed, i);
      KeptOn(old(repo.rows), rows, repo.rows, {item.id});
    }

    /** The try block: the exception it ends in, if any. */
    method TryItem(item: Item, first: Turn, second: Turn,
                   ghost start: Sys, ghost steps: seq<Step>, ghost queue: seq<Item>, ghost claimed: seq<nat>,
                   ghost i: nat)
      returns (error: Option<string>, ghost steps': seq<Step>)
      requires queue != [] && queue[0] == item
      requires Reached(start, steps, map[0 := Run(queue, Ready)])
      requires Distinct(claimed) && HandledUpTo(claimed, i) && i < |claimed| && item.id == claimed[i]
      modifies this`log, repo
      ensures Reached(start, steps',
                      map[0 := if error.Some? then Run(queue, Failed(error.value)) else Run(queue[1..], Ready)])
      ensures HandledUpTo(claimed, if error.Some? then i else i + 1)
      ensures KeptExcept(old(repo.rows), repo.rows, {item.id})
      ensures |log| == |old(log)| + 1 && old(log) <= log && DispatchOf(log[|old(log)|], item)
      ensures error == if first.raised.Some? then first.raised else second.raised
      ensures error.None? ==> item.id < |repo.rows| && repo.rows[item.id].status == Done
    {
      steps' := WaitForItem(first, item, start, steps, map[0 := Run(queue, Ready)], claimed, i);
      error := first.raised;
      steps' := Attempt(item, error, start, steps', queue, claimed, i);
      if error.None? {
        ghost var rows := repo.rows;
        error := second.raised;
        steps' := CompleteLater(item, second, start, steps', queue, claimed, i);
        KeptOn(old(repo.rows), rows, repo.rows, {item.id});
      }
    }

    /** An await while item `i` is being handled. */
    method WaitForItem(turn: Turn, item: Item, ghost start: Sys, ghost steps: seq<Step>, ghost runs: map<nat, Run>,
                       ghost claimed: seq<nat>, ghost i: nat)
      returns (ghost steps': seq<Step>)
      requires Reached(start, steps, runs) && HandledUpTo(claimed, i)
      modifies repo
      ensures Reached(start, steps', runs) && HandledUpTo(claimed, i) && log == old(log)
      ensures KeptExcept(old(repo.rows), repo.rows, {item.id})
    {
      ghost var rows := repo.rows;
      steps' := Wait(turn, start, steps, runs);
      KeptKeepsHandled(rows, repo.rows, claimed, i);
      KeptWiden(rows, repo.rows, {item.id});
    }

    method CompleteLater(item: Item, turn: Turn,
                         ghost start: Sys, ghost steps: seq<Step>, ghost queue: seq<Item>, ghost claimed: seq<nat>,
                         ghost i: nat)
      returns (ghost steps': seq<Step>)
      requires queue != [] && queue[0] == item
      requires Reached(start, steps, map[0 := Run(queue, Dispatched)])
      requires Distinct(claimed) && HandledUpTo(claimed, i) && i < |claimed| && item.id == claimed[i]
      modifies repo
      ensures var error := turn.raised;
              Reached(start, steps',
                      map[0 := if error.Some? then Run(queue, Failed(error.value)) else Run(queue[1..], Ready)])
      ensures HandledUpTo(claimed, if turn.raised.Some? then i else i + 1) && log == old(log)
      ensures KeptExcept(old(repo.rows), repo.rows, {item.id})
      ensures turn.raised.None? ==> item.id < |repo.rows| && repo.rows[item.id].status == Done
    {
      steps' := WaitForItem(turn, item, start, steps, map[0 := Run(queue, Dispatched)], claimed, i);
      ghost var rows := repo.rows;
      steps' := Complete(item, turn.raised, start, steps', queue, claimed, i);
      KeptOn(old(repo.rows), rows, repo.rows, {item.id});
    }

    method FailItem(item: Item, error: string, turn: Turn,
                    ghost start: Sys, ghost steps: seq<Step>, ghost queue: seq<Item>, ghost claimed: seq<nat>,
                    ghost i: nat)
      returns (raised: bool, ghost steps': seq<Step>)
      requires queue != [] && queue[0] == item
      requires Reached(start, steps, map[0 := Run(queue, Failed(error))])
      requires Distinct(claimed) && HandledUpTo(claimed, i) && i < |claimed| && item.id == claimed[i]
      modifies repo
      ensures Reached(start, steps', if raised then map[] else map[0 := Run(queue[1..], Ready)])
      ensures HandledUpTo(claimed, if raised then i else i + 1) && log == old(log)
      ensures KeptExcept(old(repo.rows), repo.rows, {item.id})
      ensures !raised ==> FailureRecorded(repo.rows, item, error, repo.clock)
    {
      steps' := WaitForItem(turn, item, start, steps, map[0 := Run(queue, Failed(error))], claimed, i);
      ghost var rows := repo.rows;
      raised, steps' := HandleFailure(item, error, turn.raised.Some?, start, steps', queue, claimed, i);
      KeptOn(old(repo.rows), rows, repo.rows, {item.id});
    }

    /** Dispatches the item to the provider, which may raise. */
    method Attempt(item: Item, error: Option<string>,
                   ghost start: Sys, ghost steps: seq<Step>, ghost queue: seq<Item>, ghost claimed: seq<nat>,
                   ghost i: nat)
      returns (ghost steps': seq<Step>)
      requires queue != [] && queue[0] == item
      requires Reached(start, steps, map[0 := Run(queue, Ready)]) && HandledUpTo(claimed, i)
      modifies this`log
      ensures Reached(start, steps', map[0 := Run(queue, if error.Some? then Failed(error.value) else Dispatched)])
      ensures HandledUpTo(claimed, i)
      ensures log == old(log) + [Dispatch(item.id, item.key, item.payload, item.version, item.attempts + 1, repo.clock)]
    {
      ghost var dispatch := DispatchStep(0, error, repo.clock);
      RunSnoc(start, steps, dispatch);
      steps' := steps + [dispatch];
      log := log + [Dispatch(item.id, item.key, item.payload, item.version, item.attempts + 1, repo.clock)];
    }

    /** Marks a dispatched item as done, unless the repository call raises. */
    method Complete(item: Item, error: Option<string>,
                    ghost start: Sys, ghost steps: seq<Step>, ghost queue: seq<Item>, ghost claimed: seq<nat>,
                    ghost i: nat)
      returns (ghost steps': seq<Step>)
      requires queue != [] && queue[0] == item
      requires Reached(start, steps, map[0 := Run(queue, Dispatched)])
      requires Distinct(claimed) && HandledUpTo(claimed, i) && i < |claimed| && item.id == claimed[i]
      modifies repo
      ensures Reached(start, steps',
                      map[0 := if error.Some? then Run(queue, Failed(error.value)) else Run(queue[1..], Ready)])
      ensures HandledUpTo(claimed, if error.Some? then i else i + 1) && log == old(log)
      ensures KeptExcept(old(repo.rows), repo.rows, {item.id})
      ensures error.None? ==> item.id < |repo.rows| && repo.rows[item.id].status == Done
    {
      ghost var done := DoneStep(0, error, repo.clock);
      RunSnoc(start, steps, done);
      steps' := steps + [done];
      if error.None? {
        ghost var rows := repo.rows;
        repo.MarkAsDone(item.id);
        OneMoreHandled(rows, repo.rows, claimed, i);
      }
    }

    /** The except block. It raises exactly when the repository does: for a reason of its own, or because
        a retry meets a newer pending row of its key. */
    method HandleFailure(item: Item, error: string, dbDown: bool,
                         ghost start: Sys, ghost steps: seq<Step>, ghost queue: seq<Item>, ghost claimed: seq<nat>,
                         ghost i: nat)
      returns (raised: bool, ghost steps': seq<Step>)
      requires queue != [] && queue[0] == item
      requires Reached(start, steps, map[0 := Run(queue, Failed(error))])
      requires Distinct(claimed) && HandledUpTo(claimed, i) && i < |claimed| && item.id == claimed[i]
      modifies repo
      ensures Reached(start, steps', if raised then map[] else map[0 := Run(queue[1..], Ready)])
      ensures HandledUpTo(claimed, if raised then i else i + 1) && log == old(log)
      ensures raised <==> Escapes(old(repo.Contents()), item, dbDown)
      ensures KeptExcept(old(repo.rows), repo.rows, {item.id})
      ensures !raised ==> FailureRecorded(repo.rows, item, error, repo.clock)
    {
      ghost var step := FailureStep(0, dbDown, repo.clock);
      FailureOutcome(RunAll(start, steps), queue, error, dbDown, repo.clock);
      RunSnoc(start, steps, step);
      steps' := steps + [step];
      ghost var rows := repo.rows;
      raised := RetryOrBury(item, error, dbDown);
      if !raised {
        OneMoreHandled(rows, repo.rows, claimed, i);
      }
    }

    method RetryOrBury(item: Item, error: string, dbDown: bool) returns (raised: bool)
      modifies repo`rows, repo`dlq
      ensures raised <==> Escapes(old(repo.Contents()), item, dbDown)
      ensures repo.Contents() == if raised then old(repo.Contents())
                                 else RetriedOrBuried(old(repo.Contents()), item, error, repo.clock)
    {
      if dbDown {
        return true;
      }
      var nextAttempt := item.attempts + 1;
      if nextAttempt < MAX_ATTEMPTS {
        var nextRetryAt := repo.clock + nextAttempt * BACKOFF_MINUTES * MINUTE;
        raised := repo.MarkAsFailedWithRetry(item.id, error, nextRetryAt, nextAttempt);
      } else {
        repo.MoveItemToDlq(item.id, error);
        raised := false;
      }
    }
  }

  /** The scheduler's job on a fresh table: batch after batch, an exception of one run being logged
      and forgotten. Whatever the world does, the tables and the dispatch log keep their promises. */
  method RunSchedule(batches: nat, batchSize: nat, world: (nat, nat) -> Turn)
    returns (worker: CrmSyncWorker, ghost moments: seq<Moment>)
    ensures OnePending(worker.repo.rows) && DlqMatches(worker.repo.Contents()) && AttemptsInRange(worker.repo.rows)
    ensures NeverBackwards(worker.log) && Spaced(worker.log) && forall v :: Tries(worker.log, v) <= MAX_ATTEMPTS
    ensures Chain(moments, batches, batchSize, world)
    ensures moments[batches].table == worker.repo.Contents() && moments[batches].log == worker.log
  {
    var repo := new CrmOutboxRepository();
    worker := new CrmSyncWorker(repo);
    ghost var start := Sys(repo.Contents(), map[], worker.log, 0, repo.clock);
    ghost var steps := [];
    moments := [worker.Now()];
    for b := 0 to batches
      invariant worker.repo == repo && worker.Reached(start, steps, map[])
      invariant Chain(moments, b, batchSize, world) && moments[b] == worker.Now()
      modifies repo, worker
    {
      var _, _, _, _, more := worker.ProcessBatch(batchSize, Script(world, b), start, steps);
      steps := more;
      OneBatchMore(moments, b, batchSize, world, worker.Now());
      moments := moments + [worker.Now()];
    }
    ReachableIsDisciplined(start, steps);
    DispatchesNeverGoBackwards(start, steps);
  }

  /** The batches so far, one by one. */
  ghost predicate Chain(moments: seq<Moment>, n: nat, batchSize: nat, world: (nat, nat) -> Turn) {
    && |moments| == n + 1 && moments[0].table == Table([], []) && moments[0].log == []
    && forall k: nat :: k < n ==> BatchRan(moments[k], moments[k + 1], batchSize, Script(world, k))
  }

  lemma OneBatchMore(moments: seq<Moment>, n: nat, batchSize: nat, world: (nat, nat) -> Turn, m: Moment)
    requires Chain(moments, n, batchSize, world) && BatchRan(moments[n], m, batchSize, Script(world, n))
    ensures Chain(moments + [m], n + 1, batchSize, world)
  {
    var more := moments + [m];
    forall k: nat | k < n + 1
      ensures BatchRan(more[k], more[k + 1], batchSize, Script(world, k))
    {
      if k < n {
        assert BatchRan(moments[k], moments[k + 1], batchSize, Script(world, k));
        assert more[k] == moments[k] && more[k + 1] == moments[k + 1];
      }
    }
  }
}
