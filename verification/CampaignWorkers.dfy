/**
 The campaign worker. Between any two of its awaits the world may let time pass and other callers
 enqueue; every repository call and every message sent may raise. A script `world` fixes these
 choices, and a run of the worker is proved to be a run of the queue's protocol under every script.
 */
module CampaignWorkers {
  import opened Common
  import opened Batching
  import opened OutboundQueue
  import opened OutboundRuns
  import opened OutboundSafety
  import opened OutboundTally

  datatype Draft = Draft(lead: Option<nat>, payload: Payload, priority: int, scheduledAt: Time)

  /** What happens before and during one await of the worker; `leads` are the profiles there are then. */
  datatype Turn = Turn(delay: nat, leads: map<nat, string>, enqueues: seq<Draft>, raised: Option<string>)

  // ----- what a run does to its rows, whatever the protocol calls it

  predicate Accepts(d: Draft, leads: map<nat, string>) {
    (d.priority == 0 || d.priority == 1) && (d.lead.Some? ==> d.lead.value in leads)
  }

  /** The rows after these drafts; the ones the table refuses leave no row. */
  function EnqueueAll(rows: seq<Row>, drafts: seq<Draft>, leads: map<nat, string>): (rows': seq<Row>)
    ensures rows <= rows'
  {
    if drafts == [] then rows
    else
      var d := drafts[|drafts| - 1];
      EnqueueAll(rows, drafts[..|drafts| - 1], leads)
      + if Accepts(d, leads) then [Row(d.lead, d.payload, d.priority, d.scheduledAt, Pending, 0, None, None)] else []
  }

  ghost predicate KeptExcept(rows: seq<Row>, rows': seq<Row>, changed: set<nat>) {
    |rows| <= |rows'| && forall i: nat :: i < |rows| && i !in changed ==> rows'[i] == rows[i]
  }

  lemma KeptOn(a: seq<Row>, b: seq<Row>, c: seq<Row>, changed: set<nat>)
    requires KeptExcept(a, b, changed) && KeptExcept(b, c, changed)
    ensures KeptExcept(a, c, changed)
  {
  }

  /** The item has a phone, and its template renders to a text that is not empty. */
  ghost predicate Deliverable(item: Item) {
    && item.payload.message.Rendered? && item.payload.message.text != ""
    && ResolvePhone(item.leadPhone, item.payload).Some?
  }

  /** The message sent for an item, if any; it is delivered unless the call raises. */
  ghost function Sending(item: Item, call: Option<string>): seq<Send> {
    if Deliverable(item) then
      [Send(item.id, ResolvePhone(item.leadPhone, item.payload).value, item.payload.message.text, call.None?)]
    else []
  }

  /** The exception of the rendering or of the first call. */
  ghost function EarlyTrouble(item: Item, call: Option<string>): Option<string> {
    if item.payload.message.Broken? then Some(item.payload.message.error) else call
  }

  /** The exception of the try block: an early one or, after a delivery, that of the mark. */
  ghost function Trouble(item: Item, call: Option<string>, mark: Option<string>): Option<string> {
    if EarlyTrouble(item, call).Some? then EarlyTrouble(item, call) else if Deliverable(item) then mark else None
  }

  ghost predicate MarkedSent(row: Row) {
    row.status == Sent && row.lastError == None && row.sentAt.Some?
  }

  ghost predicate MarkedFailed(row: Row, error: string) {
    row.status == Failed && row.lastError == Some(error)
  }

  /** Why an item without trouble is not sent. */
  ghost function Reason(item: Item): string {
    if ResolvePhone(item.leadPhone, item.payload).None? then "missing_phone" else "missing_message"
  }

  /** The row of a settled item: sent exactly when it is deliverable and nothing raised, else failed, with why. */
  ghost predicate SettledAs(rows: seq<Row>, item: Item, call: Option<string>, mark: Option<string>) {
    && item.id < |rows|
    && var trouble := Trouble(item, call, mark);
       if trouble.Some? then MarkedFailed(rows[item.id], trouble.value)
       else if Deliverable(item) then MarkedSent(rows[item.id])
       else MarkedFailed(rows[item.id], Reason(item))
  }

  ghost predicate SettledBy(rows: seq<Row>, items: seq<Item>, world: nat -> Turn, j: nat)
    requires j < |items|
  {
    SettledAs(rows, items[j], world(3 * j + 1).raised, world(3 * j + 2).raised)
  }

  /** The exception of the try block is followed by one in the except block. */
  ghost predicate EscapesAt(items: seq<Item>, world: nat -> Turn, j: nat) {
    && j < |items| && Trouble(items[j], world(3 * j + 1).raised, world(3 * j + 2).raised).Some?
    && world(3 * j + 3).raised.Some?
  }

  ghost predicate SettledPrefix(rows: seq<Row>, items: seq<Item>, world: nat -> Turn, k: nat)
    requires k <= |items|
  {
    forall j: nat :: j < k ==> SettledBy(rows, items, world, j)
  }

  ghost predicate NoneEscaped(items: seq<Item>, world: nat -> Turn, k: nat) {
    forall j: nat :: j < k ==> !EscapesAt(items, world, j)
  }

  /** The messages sent for the first `k` items, in order. */
  ghost function SendsFor(items: seq<Item>, world: nat -> Turn, k: nat): seq<Send>
    requires k <= |items|
  {
    if k == 0 then [] else SendsFor(items, world, k - 1) + Sending(items[k - 1], world(3 * (k - 1) + 1).raised)
  }

  ghost predicate OnePlaceEach(items: seq<Item>, rows: seq<Row>) {
    && (forall j :: 0 <= j < |items| ==> items[j].id < |rows|)
    && (forall j, k :: 0 <= j < k < |items| ==> items[j].id != items[k].id)
  }

  /** Where a run stands before item `k`, as far as rows and messages go. */
  ghost predicate Progress(before: seq<Send>, rows: seq<Row>, sends: seq<Send>, items: seq<Item>,
                           world: nat -> Turn, k: nat)
  {
    && k <= |items| && OnePlaceEach(items, rows) && SettledPrefix(rows, items, world, k)
    && NoneEscaped(items, world, k) && sends == before + SendsFor(items, world, k)
  }

  lemma StartsUnsettled(sends: seq<Send>, rows: seq<Row>, items: seq<Item>, world: nat -> Turn)
    requires OnePlaceEach(items, rows)
    ensures Progress(sends, rows, sends, items, world, 0)
  {
    assert sends + SendsFor(items, world, 0) == sends;
  }

  /** The run stopped at item `k`. */
  ghost predicate Stopped(before: seq<Send>, rows: seq<Row>, sends: seq<Send>, items: seq<Item>,
                          world: nat -> Turn, k: nat)
  {
    && k < |items| && SettledPrefix(rows, items, world, k)
    && EscapesAt(items, world, k) && sends == before + SendsFor(items, world, k + 1)
  }

  lemma SettledStays(rows: seq<Row>, rows': seq<Row>, items: seq<Item>, world: nat -> Turn, k: nat)
    requires k < |items| && OnePlaceEach(items, rows) && SettledPrefix(rows, items, world, k)
    requires KeptExcept(rows, rows', {items[k].id})
    ensures OnePlaceEach(items, rows') && SettledPrefix(rows', items, world, k)
  {
    forall j: nat | j < k
      ensures SettledBy(rows', items, world, j)
    {
      assert SettledBy(rows, items, world, j);
    }
  }

  lemma SendsSnoc(before: seq<Send>, items: seq<Item>, world: nat -> Turn, k: nat)
    requires k < |items|
    ensures before + SendsFor(items, world, k + 1) ==
            (before + SendsFor(items, world, k)) + Sending(items[k], world(3 * k + 1).raised)
  {
  }

  /** One more item was settled, or stopped the run. */
  lemma OneItemMore(before: seq<Send>, rows: seq<Row>, sends: seq<Send>, rows': seq<Row>, sends': seq<Send>,
                    items: seq<Item>, world: nat -> Turn, k: nat, escaped: bool)
    requires Progress(before, rows, sends, items, world, k) && k < |items|
    requires KeptExcept(rows, rows', {items[k].id})
    requires sends' == sends + Sending(items[k], world(3 * k + 1).raised)
    requires escaped <==> Trouble(items[k], world(3 * k + 1).raised, world(3 * k + 2).raised).Some?
                          && world(3 * k + 3).raised.Some?
    requires !escaped ==> SettledAs(rows', items[k], world(3 * k + 1).raised, world(3 * k + 2).raised)
    ensures if escaped then Stopped(before, rows', sends', items, world, k)
            else Progress(before, rows', sends', items, world, k + 1)
  {
    SettledStays(rows, rows', items, world, k);
    SendsSnoc(before, items, world, k);
    if !escaped {
      SettledOneMore(rows', items, world, k);
    }
  }

  lemma SettledOneMore(rows: seq<Row>, items: seq<Item>, world: nat -> Turn, k: nat)
    requires k < |items| && SettledPrefix(rows, items, world, k) && SettledBy(rows, items, world, k)
    requires NoneEscaped(items, world, k) && !EscapesAt(items, world, k)
    ensures SettledPrefix(rows, items, world, k + 1) && NoneEscaped(items, world, k + 1)
  {
  }

  function Ids(items: seq<Item>): seq<nat> {
    seq(|items|, j requires 0 <= j < |items| => items[j].id)
  }

  /** The batch is the least due rows for the limit, with their leads' phones. */
  ghost predicate Batched(rows: seq<Row>, now: Time, limit: nat, leads: map<nat, string>, batch: seq<Item>) {
    && LeastBatch(SendRanks(rows), DueRows(rows, now), limit, Ids(batch))
    && (forall j :: 0 <= j < |batch| ==> Ids(batch)[j] < |rows|)
    && batch == Items(rows, Ids(batch), leads)
  }

  /** From these rows at the claim: the batch is the least due rows, as many as the limit allows, and either every
      item of it was settled as its payload and the script have it, or the run stopped where the except block
      raised too. */
  ghost predicate AchievedFrom(rows: seq<Row>, now: Time, sends: seq<Send>, rows': seq<Row>, sends': seq<Send>,
                               outcome: Option<Result>, limit: nat, world: nat -> Turn, batch: seq<Item>, tried: nat)
  {
    && Batched(rows, now, limit, world(0).leads, batch)
    && if outcome.None? then Stopped(sends, rows', sends', batch, world, tried)
       else outcome.value.batch == batch && Progress(sends, rows', sends', batch, world, |batch|)
  }

  lemma EscapesIff(rows: seq<Row>, now: Time, sends: seq<Send>, rows': seq<Row>, sends': seq<Send>,
                   outcome: Option<Result>, limit: nat, world: nat -> Turn, batch: seq<Item>, tried: nat)
    requires AchievedFrom(rows, now, sends, rows', sends', outcome, limit, world, batch, tried)
    ensures outcome.None? <==> exists j :: EscapesAt(batch, world, j)
  {
  }

  /** The queue and the sends before or after a run. */
  datatype Moment = Moment(rows: seq<Row>, sends: seq<Send>, clock: Time)

  /** The rows a batch is claimed from: those there were, and what was enqueued during the first await. */
  ghost function RowsFor(m: Moment, turn: Turn): seq<Row> {
    EnqueueAll(m.rows, turn.enqueues, turn.leads)
  }

  /** What a run achieves, by the script: nothing when the claim raises; else what follows from the rows at the
      claim. */
  ghost predicate Achieved(a: Moment, b: Moment, outcome: Option<Result>, limit: nat, world: nat -> Turn,
                           batch: seq<Item>, tried: nat)
  {
    if world(0).raised.Some? then outcome.None? && batch == [] && b.sends == a.sends
    else AchievedFrom(RowsFor(a, world(0)), a.clock + world(0).delay, a.sends, b.rows, b.sends,
                      outcome, limit, world, batch, tried)
  }

  ghost predicate RunRan(a: Moment, b: Moment, outcome: Option<Result>, limit: nat, world: nat -> Turn) {
    exists batch, tried :: Achieved(a, b, outcome, limit, world, batch, tried)
  }

  /** A property of the system that every step of the protocol keeps. */
  ghost predicate KeptBySteps(inv: Sys -> bool) {
    forall z, step :: inv(z) && Enabled(z, step) ==> inv(Apply(z, step))
  }

  ghost predicate ReachableFrom(start: Sys, z: Sys) {
    exists steps :: Valid(start, steps) && RunAll(start, steps) == z
  }

  lemma StepsTo(start: Sys, z: Sys) returns (steps: seq<Step>)
    requires ReachableFrom(start, z)
    ensures Valid(start, steps) && RunAll(start, steps) == z
  {
    steps :| Valid(start, steps) && RunAll(start, steps) == z;
  }

  lemma StepsKeepReachable(start: Sys)
    ensures KeptBySteps((z: Sys) => ReachableFrom(start, z))
  {
    forall z, step | ReachableFrom(start, z) && Enabled(z, step)
      ensures ReachableFrom(start, Apply(z, step))
    {
      var steps :| Valid(start, steps) && RunAll(start, steps) == z;
      RunSnoc(start, steps, step);
    }
  }

  class CampaignWorker {
    const repo: OutboundQueueRepository
    /** The calls made to the messaging provider so far. */
    var sends: seq<Send>

    constructor (repo: OutboundQueueRepository)
      ensures this.repo == repo && sends == []
    {
      this.repo, sends := repo, [];
    }

    /** The system `z`, which has the property `inv`, shows in the current rows and sends, with `runs` open. */
    ghost predicate Shows(inv: Sys -> bool, z: Sys, runs: map<nat, Run>, results: seq<Result>)
      reads this, repo
    {
      && inv(z) && z.rows == repo.rows && z.runs == runs && z.sends == sends && z.results == results
      && z.now <= repo.clock
    }

    /** As `Shows`, with worker `w` in the run `run` and the runs `others` of other workers open. */
    ghost predicate Running(inv: Sys -> bool, z: Sys, w: nat, run: Run, others: map<nat, Run>, results: seq<Result>)
      reads this, repo
    {
      w !in others && Shows(inv, z, others[w := run], results)
    }

    ghost predicate AtItem(run: Run, item: Item, phase: Phase) {
      run.next < |run.batch| && run.batch[run.next] == item && run.phase == phase
    }

    /** The first `i` drafts have been enqueued over `rows`. */
    ghost predicate Enqueued(rows: seq<Row>, turn: Turn, i: nat)
      reads repo
    {
      i <= |turn.enqueues| && repo.rows == EnqueueAll(rows, turn.enqueues[..i], turn.leads)
    }

    method Wait(turn: Turn, ghost inv: Sys -> bool, ghost z: Sys, ghost runs: map<nat, Run>,
                ghost results: seq<Result>)
      returns (ghost z': Sys)
      requires KeptBySteps(inv) && Shows(inv, z, runs, results)
      modifies repo
      ensures Shows(inv, z', runs, results) && sends == old(sends)
      ensures repo.clock == old(repo.clock) + turn.delay
      ensures repo.rows == EnqueueAll(old(repo.rows), turn.enqueues, turn.leads)
    {
      ghost var rows := repo.rows;
      repo.clock := repo.clock + turn.delay;
      z' := z;
      for i := 0 to |turn.enqueues|
        invariant Shows(inv, z', runs, results) && Enqueued(rows, turn, i)
        invariant repo.clock == old(repo.clock) + turn.delay
      {
        z' := EnqueueOne(turn, i, inv, z', runs, results, rows);
      }
      assert turn.enqueues[..|turn.enqueues|] == turn.enqueues;
    }

    method EnqueueOne(turn: Turn, i: nat, ghost inv: Sys -> bool, ghost z: Sys, ghost runs: map<nat, Run>,
                      ghost results: seq<Result>, ghost rows: seq<Row>)
      returns (ghost z': Sys)
      requires i < |turn.enqueues| && KeptBySteps(inv) && Shows(inv, z, runs, results) && Enqueued(rows, turn, i)
      modifies repo`rows
      ensures Shows(inv, z', runs, results) && Enqueued(rows, turn, i + 1)
    {
      var d := turn.enqueues[i];
      assert turn.enqueues[..i + 1][..i] == turn.enqueues[..i];
      z' := z;
      var id := repo.Enqueue(d.lead, d.payload, d.priority, d.scheduledAt, turn.leads);
      if id.Some? {
        ghost var step := EnqueueStep(d.lead, d.payload, d.priority, d.scheduledAt, repo.clock);
        z' := Apply(z, step);
      }
    }

    ghost function Now(): Moment
      reads this, repo
    {
      Moment(repo.rows, sends, repo.clock)
    }

    /** The try block up to the repository's mark as sent: rejects the item or sends it, unless an exception is
        raised. */
    method Attempt(w: nat, item: Item, error: Option<string>, ghost inv: Sys -> bool, ghost z: Sys, ghost run: Run,
                   ghost others: map<nat, Run>, ghost results: seq<Result>)
      returns (rejected: bool, raised: Option<string>, ghost z': Sys, ghost after: Run)
      requires KeptBySteps(inv) && Running(inv, z, w, run, others, results) && AtItem(run, item, Ready)
      requires item.id < |repo.rows|
      modifies repo`rows, this`sends
      ensures Running(inv, z', w, after, others, results)
      ensures after == if raised.Some? then Raise(run, raised.value) else if rejected then CountFailure(run)
                                                                          else run.(phase := Delivered)
      ensures KeptExcept(old(repo.rows), repo.rows, {item.id})
      ensures sends == old(sends) + Sending(item, error) && raised == EarlyTrouble(item, error)
      ensures raised.None? ==> (rejected <==> !Deliverable(item))
      ensures raised.None? && rejected ==> MarkedFailed(repo.rows[item.id], Reason(item))
    {
      ghost var judge := JudgeStep(w, error, repo.clock);
      z' := Apply(z, judge);
      match Judge(item) {
        case Raises(e) => return false, Some(e), z', Raise(run, e);
        case Reject(reason) =>
          if error.None? {
            repo.MarkAsFailed(item.id, reason);
          }
          return true, error, z', if error.Some? then Raise(run, error.value) else CountFailure(run);
        case Deliver(to, text) =>
          sends := sends + [Send(item.id, to, text, error.None?)];
          return false, error, z', if error.Some? then Raise(run, error.value) else run.(phase := Delivered);
      }
    }

    /** Marks a delivered item as sent, unless the repository call raises. */
    method Complete(w: nat, item: Item, error: Option<string>, ghost inv: Sys -> bool, ghost z: Sys,
                    ghost run: Run, ghost others: map<nat, Run>, ghost results: seq<Result>)
      returns (ghost z': Sys, ghost after: Run)
      requires KeptBySteps(inv) && Running(inv, z, w, run, others, results) && AtItem(run, item, Delivered)
      requires item.id < |repo.rows|
      modifies repo`rows
      ensures Running(inv, z', w, after, others, results)
      ensures after == if error.Some? then Raise(run, error.value) else CountSuccess(run)
      ensures KeptExcept(old(repo.rows), repo.rows, {item.id})
      ensures error.None? ==> MarkedSent(repo.rows[item.id])
    {
      ghost var mark := MarkSentStep(w, error, repo.clock);
      z' := Apply(z, mark);
      if error.None? {
        repo.MarkAsSent(item.id);
      }
      after := if error.Some? then Raise(run, error.value) else CountSuccess(run);
    }

    /** The except block; a repository error there ends the run. */
    method HandleFailure(w: nat, item: Item, error: string, dbDown: bool, ghost inv: Sys -> bool, ghost z: Sys,
                         ghost run: Run, ghost others: map<nat, Run>, ghost results: seq<Result>)
      returns (ghost z': Sys)
      requires KeptBySteps(inv) && Running(inv, z, w, run, others, results) && AtItem(run, item, Raised(error))
      requires item.id < |repo.rows|
      modifies repo`rows
      ensures KeptExcept(old(repo.rows), repo.rows, {item.id})
      ensures !dbDown ==> MarkedFailed(repo.rows[item.id], error)
      ensures if dbDown then Shows(inv, z', others, results)
              else Running(inv, z', w, CountFailure(run), others, results)
    {
      ghost var mark := MarkFailedStep(w, dbDown, repo.clock);
      z' := Apply(z, mark);
      if !dbDown {
        repo.MarkAsFailed(item.id, error);
      }
      assert others[w := run] - {w} == others;
    }

    /** The try block. */
    method TryItem(w: nat, item: Item, first: Turn, second: Turn,
                   ghost inv: Sys -> bool, ghost z: Sys, ghost run: Run, ghost others: map<nat, Run>,
                   ghost results: seq<Result>)
      returns (ok: bool, error: Option<string>, ghost z': Sys, ghost after: Run)
      requires KeptBySteps(inv) && Running(inv, z, w, run, others, results) && AtItem(run, item, Ready)
      requires item.id < |repo.rows|
      modifies repo, this`sends
      ensures Running(inv, z', w, after, others, results)
      ensures after == if error.Some? then Raise(run, error.value) else if ok then CountSuccess(run)
                                                                        else CountFailure(run)
      ensures KeptExcept(old(repo.rows), repo.rows, {item.id}) && sends == old(sends) + Sending(item, first.raised)
      ensures error == Trouble(item, first.raised, second.raised) && (error.None? ==> (ok <==> Deliverable(item)))
      ensures error.None? ==> SettledAs(repo.rows, item, first.raised, second.raised)
    {
      var rejected;
      z' := Wait(first, inv, z, others[w := run], results);
      ghost var waited := repo.rows;
      rejected, error, z', after := Attempt(w, item, first.raised, inv, z', run, others, results);
      ghost var tried := repo.rows;
      KeptOn(old(repo.rows), waited, tried, {item.id});
      ok := false;
      if error.None? && !rejected {
        z', after := CompleteLater(w, item, second, inv, z', after, others, results);
        KeptOn(old(repo.rows), tried, repo.rows, {item.id});
        ok, error := true, second.raised;
      }
    }

    method CompleteLater(w: nat, item: Item, turn: Turn, ghost inv: Sys -> bool, ghost z: Sys, ghost run: Run,
                         ghost others: map<nat, Run>, ghost results: seq<Result>)
      returns (ghost z': Sys, ghost after: Run)
      requires KeptBySteps(inv) && Running(inv, z, w, run, others, results) && AtItem(run, item, Delivered)
      requires item.id < |repo.rows|
      modifies repo
      ensures Running(inv, z', w, after, others, results) && sends == old(sends)
      ensures after == if turn.raised.Some? then Raise(run, turn.raised.value) else CountSuccess(run)
      ensures KeptExcept(old(repo.rows), repo.rows, {item.id})
      ensures turn.raised.None? ==> MarkedSent(repo.rows[item.id])
    {
      z' := Wait(turn, inv, z, others[w := run], results);
      ghost var waited := repo.rows;
      z', after := Complete(w, item, turn.raised, inv, z', run, others, results);
      KeptOn(old(repo.rows), waited, repo.rows, {item.id});
    }

    method FailLater(w: nat, item: Item, error: string, turn: Turn, ghost inv: Sys -> bool, ghost z: Sys,
                     ghost run: Run, ghost others: map<nat, Run>, ghost results: seq<Result>)
      returns (ghost z': Sys)
      requires KeptBySteps(inv) && Running(inv, z, w, run, others, results) && AtItem(run, item, Raised(error))
      requires item.id < |repo.rows|
      modifies repo
      ensures if turn.raised.Some? then Shows(inv, z', others, results)
              else Running(inv, z', w, CountFailure(run), others, results)
      ensures sends == old(sends) && KeptExcept(old(repo.rows), repo.rows, {item.id})
      ensures turn.raised.None? ==> MarkedFailed(repo.rows[item.id], error)
    {
      z' := Wait(turn, inv, z, others[w := run], results);
      ghost var waited := repo.rows;
      z' := HandleFailure(w, item, error, turn.raised.Some?, inv, z', run, others, results);
      KeptOn(old(repo.rows), waited, repo.rows, {item.id});
    }

    /** The body of the loop. An exception escapes exactly when the try block raises and the except block does
        too; otherwise the item is settled as its payload and the script have it. */
    method ProcessItem(w: nat, item: Item, first: Turn, second: Turn, third: Turn,
                       ghost inv: Sys -> bool, ghost z: Sys, ghost run: Run, ghost others: map<nat, Run>,
                       ghost results: seq<Result>)
      returns (escaped: bool, ok: bool, ghost z': Sys, ghost after: Run)
      requires KeptBySteps(inv) && Running(inv, z, w, run, others, results) && AtItem(run, item, Ready)
      requires item.id < |repo.rows|
      modifies repo, this`sends
      ensures if escaped then Shows(inv, z', others, results)
              else Running(inv, z', w, after, others, results)
      ensures after == if ok then CountSuccess(run) else CountFailure(run)
      ensures KeptExcept(old(repo.rows), repo.rows, {item.id}) && sends == old(sends) + Sending(item, first.raised)
      ensures escaped <==> Trouble(item, first.raised, second.raised).Some? && third.raised.Some?
      ensures ok <==> Deliverable(item) && Trouble(item, first.raised, second.raised).None?
      ensures !escaped ==> SettledAs(repo.rows, item, first.raised, second.raised)
    {
      var error;
      ok, error, z', after := TryItem(w, item, first, second, inv, z, run, others, results);
      escaped := false;
      if error.Some? {
        ghost var tried := repo.rows;
        z' := FailLater(w, item, error.value, third, inv, z', after, others, results);
        KeptOn(old(repo.rows), tried, repo.rows, {item.id});
        escaped, ok, after := third.raised.Some?, false, CountFailure(after);
      }
    }

    /** One turn of the loop. */
    method ProcessNext(w: nat, items: seq<Item>, index: nat, world: nat -> Turn, succeeded: nat, failed: nat,
                       ghost inv: Sys -> bool, ghost z: Sys, ghost run: Run, ghost others: map<nat, Run>,
                       ghost results: seq<Result>, ghost sent: seq<Send>)
      returns (escaped: bool, succeeded': nat, failed': nat, ghost z': Sys, ghost after: Run)
      requires index < |items| && run == Run(items, index, Ready, succeeded, failed)
      requires KeptBySteps(inv) && Running(inv, z, w, run, others, results)
      requires Progress(sent, repo.rows, sends, items, world, index)
      modifies repo, this`sends
      ensures if escaped then Shows(inv, z', others, results)
              else Running(inv, z', w, after, others, results)
      ensures after == Run(items, index + 1, Ready, succeeded', failed')
      ensures if escaped then Stopped(sent, repo.rows, sends, items, world, index)
              else Progress(sent, repo.rows, sends, items, world, index + 1)
    {
      var ok;
      escaped, ok, z', after :=
        ProcessItem(w, items[index], world(3 * index + 1), world(3 * index + 2), world(3 * index + 3),
                    inv, z, run, others, results);
      OneItemMore(sent, old(repo.rows), old(sends), repo.rows, sends, items, world, index, escaped);
      succeeded', failed' := if ok then succeeded + 1 else succeeded, if ok then failed else failed + 1;
    }

    /** The loop over the batch. */
    method ProcessBatch(w: nat, items: seq<Item>, world: nat -> Turn,
                        ghost inv: Sys -> bool, ghost z: Sys, ghost run: Run, ghost others: map<nat, Run>,
                        ghost results: seq<Result>)
      returns (escaped: bool, succeeded: nat, failed: nat, ghost tried: nat, ghost z': Sys, ghost after: Run)
      requires run == Run(items, 0, Ready, 0, 0) && KeptBySteps(inv) && Running(inv, z, w, run, others, results)
      requires OnePlaceEach(items, repo.rows)
      modifies repo, this`sends
      ensures if escaped then Shows(inv, z', others, results)
              else Running(inv, z', w, after, others, results)
      ensures !escaped ==> after == Run(items, |items|, Ready, succeeded, failed)
      ensures if escaped then Stopped(old(sends), repo.rows, sends, items, world, tried)
              else Progress(old(sends), repo.rows, sends, items, world, |items|)
    {
      succeeded, failed, z', tried, after := 0, 0, z, |items|, run;
      StartsUnsettled(sends, repo.rows, items, world);
      for index := 0 to |items|
        invariant Running(inv, z', w, after, others, results)
        invariant after == Run(items, index, Ready, succeeded, failed)
        invariant Progress(old(sends), repo.rows, sends, items, world, index)
      {
        escaped, succeeded, failed, z', after := ProcessNext(w, items, index, world, succeeded, failed,
                                                                inv, z', after, others, results, old(sends));
        if escaped {
          tried := index;
          return;
        }
      }
      escaped := false;
    }

    /** The steps taken since `start` lead to the current rows and sends, with `runs` open. */
    ghost predicate Reached(start: Sys, steps: seq<Step>, runs: map<nat, Run>, results: seq<Result>)
      reads this, repo
    {
      && Init(start) && Valid(start, steps)
      && var z := RunAll(start, steps);
         z.rows == repo.rows && z.runs == runs && z.sends == sends && z.results == results && z.now <= repo.clock
    }

    /** One run: claims a batch and settles its items one by one. None exactly when an exception escapes: from the
        claim, or from the except block. A completed run's counters add up and are true of the rows. */
    method RunOnce(w: nat, batchSize: nat, world: nat -> Turn,
                   ghost start: Sys, ghost before: seq<Step>, ghost others: map<nat, Run>, ghost results: seq<Result>)
      returns (outcome: Option<Result>, ghost batch: seq<Item>, ghost tried: nat, ghost steps: seq<Step>)
      requires w !in others && Reached(start, before, others, results)
      modifies repo, this`sends
      ensures Reached(start, steps, others, if outcome.Some? then results + [outcome.value] else results)
      ensures Achieved(old(Now()), Now(), outcome, batchSize, world, batch, tried)
      ensures RunRan(old(Now()), Now(), outcome, batchSize, world)
      ensures outcome.None? <==> world(0).raised.Some? || exists j :: EscapesAt(batch, world, j)
      ensures outcome.Some? ==>
                && outcome.value.processed == |outcome.value.batch| == outcome.value.succeeded + outcome.value.failed
                && Counts(repo.rows, outcome.value.batch, outcome.value.succeeded, outcome.value.failed)
    {
      ghost var inv := (y: Sys) => ReachableFrom(start, y);
      StepsKeepReachable(start);
      assert inv(RunAll(start, before));
      ghost var z;
      outcome, batch, tried, z := Perform(w, batchSize, world, inv, RunAll(start, before), others, results);
      steps := StepsTo(start, z);
      if outcome.Some? {
        ResultsAddUp(start, steps, |results|);
      }
    }

    method Perform(w: nat, batchSize: nat, world: nat -> Turn, ghost inv: Sys -> bool, ghost z: Sys,
                   ghost others: map<nat, Run>, ghost results: seq<Result>)
      returns (outcome: Option<Result>, ghost batch: seq<Item>, ghost tried: nat, ghost z': Sys)
      requires KeptBySteps(inv) && w !in others && Shows(inv, z, others, results)
      modifies repo, this`sends
      ensures Shows(inv, z', others, if outcome.Some? then results + [outcome.value] else results)
      ensures Achieved(old(Now()), Now(), outcome, batchSize, world, batch, tried)
      ensures outcome.None? <==> world(0).raised.Some? || exists j :: EscapesAt(batch, world, j)
    {
      batch, tried := [], 0;
      z' := Wait(world(0), inv, z, others, results);
      if world(0).raised.Some? {
        return None, batch, tried, z';
      }
      assert repo.rows == RowsFor(old(Now()), world(0));
      outcome, batch, tried, z' := ClaimAndProcess(w, batchSize, world, inv, z', others, results);
    }

    method ClaimAndProcess(w: nat, batchSize: nat, world: nat -> Turn, ghost inv: Sys -> bool, ghost z: Sys,
                           ghost others: map<nat, Run>, ghost results: seq<Result>)
      returns (outcome: Option<Result>, ghost batch: seq<Item>, ghost tried: nat, ghost z': Sys)
      requires KeptBySteps(inv) && w !in others && Shows(inv, z, others, results)
      modifies repo, this`sends
      ensures Shows(inv, z', others, if outcome.Some? then results + [outcome.value] else results)
      ensures AchievedFrom(old(repo.rows), old(repo.clock), old(sends), repo.rows, sends,
                           outcome, batchSize, world, batch, tried)
      ensures outcome.None? <==> exists j :: EscapesAt(batch, world, j)
    {
      var items, escaped, succeeded, failed;
      ghost var run;
      items, z', run := ClaimBatch(w, batchSize, world(0).leads, inv, z, others, results);
      batch := items;
      escaped, succeeded, failed, tried, z', run :=
        ProcessBatch(w, items, world, inv, z', run, others, results);
      if escaped {
        EscapesIff(old(repo.rows), old(repo.clock), old(sends), repo.rows, sends, None, batchSize, world, batch, tried);
        return None, batch, tried, z';
      }
      var result := Result(items, |items|, succeeded, failed);
      z' := Finish(w, result, inv, z', run, others, results);
      EscapesIff(old(repo.rows), old(repo.clock), old(sends), repo.rows, sends,
                 Some(result), batchSize, world, batch, tried);
      return Some(result), batch, tried, z';
    }

    method ClaimBatch(w: nat, batchSize: nat, leads: map<nat, string>,
                      ghost inv: Sys -> bool, ghost z: Sys, ghost others: map<nat, Run>,
                      ghost results: seq<Result>)
      returns (items: seq<Item>, ghost z': Sys, ghost run: Run)
      requires KeptBySteps(inv) && w !in others && Shows(inv, z, others, results)
      modifies repo`rows
      ensures run == Run(items, 0, Ready, 0, 0) && Running(inv, z', w, run, others, results)
      ensures OnePlaceEach(items, repo.rows) && Batched(old(repo.rows), repo.clock, batchSize, leads, items)
    {
      ghost var ids;
      ids, items := repo.GetNextBatch(batchSize, leads);
      assert Ids(items) == ids;
      ghost var claim := ClaimStep(w, ids, batchSize, leads, repo.clock);
      z', run := Apply(z, claim), Run(items, 0, Ready, 0, 0);
    }

    ghost method Finish(w: nat, result: Result, inv: Sys -> bool, z: Sys, run: Run, others: map<nat, Run>,
                        results: seq<Result>)
      returns (z': Sys)
      requires run == Run(result.batch, |result.batch|, Ready, result.succeeded, result.failed)
      requires KeptBySteps(inv) && Running(inv, z, w, run, others, results) && result.processed == |result.batch|
      ensures Shows(inv, z', others, results + [result])
    {
      ghost var finish := FinishStep(w, repo.clock);
      z' := Apply(z, finish);
      assert others[w := run] - {w} == others;
    }
  }

  // ----- run after run

  /** The script of one run. */
  function Script(world: (nat, nat) -> Turn, k: nat): nat -> Turn {
    (t: nat) => world(k, t)
  }

  ghost function Completed(outcomes: seq<Option<Result>>): seq<Result> {
    if outcomes == [] then []
    else
      var n := |outcomes| - 1;
      Completed(outcomes[..n]) + if outcomes[n].Some? then [outcomes[n].value] else []
  }

  /** The runs so far, one by one. */
  ghost predicate Chain(moments: seq<Moment>, outcomes: seq<Option<Result>>, batchSize: nat,
                        world: (nat, nat) -> Turn)
  {
    && |moments| == |outcomes| + 1 && moments[0].rows == [] && moments[0].sends == []
    && forall k: nat :: k < |outcomes| ==>
         RunRan(moments[k], moments[k + 1], outcomes[k], batchSize, Script(world, k))
  }

  /** The scheduler's job on a fresh queue, run after run. Whatever the world does, no message is sent twice,
      no row is claimed twice, and the rows marked as sent were delivered. */
  method RunSchedule(runs: nat, batchSize: nat, world: (nat, nat) -> Turn)
    returns (worker: CampaignWorker, results: seq<Result>,
             ghost moments: seq<Moment>, ghost outcomes: seq<Option<Result>>)
    ensures forall id: nat :: SendsOf(worker.sends, id) <= 1
    ensures ClaimedOnce(worker.repo.rows) && SentRowsDelivered(worker.repo.rows, worker.sends)
    ensures forall r :: 0 <= r < |results| ==>
              ResultCounts(worker.repo.rows, results[r])
              && results[r].processed == results[r].succeeded + results[r].failed
    ensures |outcomes| == runs && Chain(moments, outcomes, batchSize, world) && results == Completed(outcomes)
    ensures moments[runs].rows == worker.repo.rows && moments[runs].sends == worker.sends
  {
    var repo := new OutboundQueueRepository();
    worker := new CampaignWorker(repo);
    results, outcomes, moments := [], [], [worker.Now()];
    ghost var start := Sys([], map[], [], [], 0);
    ghost var steps := [];
    for k := 0 to runs
      invariant worker.repo == repo && worker.Reached(start, steps, map[], results)
      invariant |outcomes| == k && Chain(moments, outcomes, batchSize, world) && moments[k] == worker.Now()
      invariant results == Completed(outcomes)
      modifies repo, worker
    {
      var outcome, _, _, more := worker.RunOnce(0, batchSize, Script(world, k), start, steps, map[], results);
      steps := more;
      OneRunMore(moments, outcomes, batchSize, world, worker.Now(), outcome);
      moments, outcomes := moments + [worker.Now()], outcomes + [outcome];
      if outcome.Some? {
        results := results + [outcome.value];
      }
    }
    AllKept(start, steps);
  }

  lemma OneRunMore(moments: seq<Moment>, outcomes: seq<Option<Result>>, batchSize: nat, world: (nat, nat) -> Turn,
                   m: Moment, outcome: Option<Result>)
    requires Chain(moments, outcomes, batchSize, world)
    requires RunRan(moments[|outcomes|], m, outcome, batchSize, Script(world, |outcomes|))
    ensures Chain(moments + [m], outcomes + [outcome], batchSize, world)
    ensures Completed(outcomes + [outcome]) == Completed(outcomes) + if outcome.Some? then [outcome.value] else []
  {
    var ms, os := moments + [m], outcomes + [outcome];
    assert os[..|outcomes|] == outcomes;
    forall k: nat | k < |os|
      ensures RunRan(ms[k], ms[k + 1], os[k], batchSize, Script(world, k))
    {
      if k < |outcomes| {
        assert ms[k] == moments[k] && ms[k + 1] == moments[k + 1] && os[k] == outcomes[k];
        assert RunRan(moments[k], moments[k + 1], outcomes[k], batchSize, Script(world, k));
      }
    }
  }

  ghost predicate SentRowsDelivered(rows: seq<Row>, sends: seq<Send>) {
    forall i :: 0 <= i < |rows| && rows[i].status == Sent ==> DeliveredTo(sends, i)
  }

  lemma AllKept(start: Sys, steps: seq<Step>)
    requires Init(start) && Valid(start, steps)
    ensures var z := RunAll(start, steps);
            && (forall id: nat :: SendsOf(z.sends, id) <= 1) && ClaimedOnce(z.rows)
            && SentRowsDelivered(z.rows, z.sends)
            && (forall r :: 0 <= r < |z.results| ==>
                  ResultCounts(z.rows, z.results[r])
                  && z.results[r].processed == z.results[r].succeeded + z.results[r].failed)
  {
    ReachableIsSafe(start, steps);
    ReachableIsHonest(start, steps);
    var z := RunAll(start, steps);
    forall id: nat
      ensures SendsOf(z.sends, id) <= 1
    {
      assert SentSoFar(z.rows, z.sends, id);
    }
    forall r: nat | r < |z.results|
      ensures z.results[r].processed == z.results[r].succeeded + z.results[r].failed
    {
      ResultsAddUp(start, steps, r);
    }
  }
}
