/**
 Outbox and sync workers as one transition system. Each repository call and each dispatch to the
 CRM is one step; steps of any number of workers and enqueues interleave freely. `log` is the
 history of dispatches and `enqueued` numbers the enqueues.
 */
module OutboxProtocol {
  import opened Common
  import opened Batching
  import opened OutboxTable

  const MAX_ATTEMPTS := 3
  const BACKOFF_MINUTES := 5

  /** What a worker keeps of a claimed row while it runs. */
  datatype Item = Item(id: nat, key: Key, payload: Payload, version: nat, attempts: int)

  /** Where a worker stands with the first item of its queue. */
  datatype Phase = Ready | Dispatched | Failed(error: string)

  datatype Run = Run(queue: seq<Item>, phase: Phase)

  datatype Dispatch = Dispatch(id: nat, key: Key, payload: Payload, version: nat, attempt: int, at: Time)

  datatype Sys = Sys(table: Table, runs: map<nat, Run>, log: seq<Dispatch>, enqueued: nat, now: Time)

  datatype Step =
    | EnqueueStep(key: Key, payload: Payload, at: Time)
    | ClaimStep(worker: nat, ids: seq<nat>, limit: nat, at: Time)
    | DispatchStep(worker: nat, raised: Option<string>, at: Time)
    | DoneStep(worker: nat, dbError: Option<string>, at: Time)
    | FailureStep(worker: nat, dbDown: bool, at: Time)
    /** The run ends: its queue is empty, or its process dies. */
    | FinishStep(worker: nat, at: Time)

  function Snapshot(rows: seq<Row>, id: nat): Item
    requires id < |rows|
  {
    Item(id, rows[id].key, rows[id].payload, rows[id].version, rows[id].attempts)
  }

  function Snapshots(rows: seq<Row>, ids: seq<nat>): seq<Item>
    requires forall k :: 0 <= k < |ids| ==> ids[k] < |rows|
  {
    seq(|ids|, k requires 0 <= k < |ids| => Snapshot(rows, ids[k]))
  }

  predicate Busy(s: Sys, w: nat, phase: Phase) {
    w in s.runs && s.runs[w].queue != [] && s.runs[w].phase == phase
  }

  predicate HasFailed(s: Sys, w: nat) {
    w in s.runs && s.runs[w].queue != [] && s.runs[w].phase.Failed?
  }

  ghost predicate Enabled(s: Sys, step: Step) {
    && s.now <= step.at
    && match step
       case EnqueueStep(_, _, _) => true
       case ClaimStep(w, ids, limit, at) =>
         w !in s.runs && LeastBatch(ClaimRanks(s.table.rows), DueRows(s.table.rows, at), limit, ids)
       case DispatchStep(w, _, _) => Busy(s, w, Ready)
       case DoneStep(w, _, _) => Busy(s, w, Dispatched)
       case FailureStep(w, _, _) => HasFailed(s, w)
       case FinishStep(w, _) => w in s.runs
  }

  /** The worker drops the item it has dealt with. */
  function Advance(runs: map<nat, Run>, w: nat): map<nat, Run>
    requires w in runs && runs[w].queue != []
  {
    runs[w := Run(runs[w].queue[1..], Ready)]
  }

  ghost function Apply(s: Sys, step: Step): (s': Sys)
    requires Enabled(s, step)
  {
    var u := s.(now := step.at);
    match step
    case EnqueueStep(key, payload, at) =>
      u.(table := Enqueue(s.table, key, payload, s.enqueued, at), enqueued := s.enqueued + 1)
    case ClaimStep(w, ids, _, at) =>
      u.(table := Claim(s.table, ids, at), runs := s.runs[w := Run(Snapshots(s.table.rows, ids), Ready)])
    case DispatchStep(w, raised, at) =>
      var item := s.runs[w].queue[0];
      u.(log := s.log + [Dispatch(item.id, item.key, item.payload, item.version, item.attempts + 1, at)],
         runs := s.runs[w := s.runs[w].(phase := if raised.Some? then Failed(raised.value) else Dispatched)])
    case DoneStep(w, dbError, at) =>
      if dbError.Some? then u.(runs := s.runs[w := s.runs[w].(phase := Failed(dbError.value))])
      else u.(table := MarkDone(s.table, s.runs[w].queue[0].id, at), runs := Advance(s.runs, w))
    case FailureStep(w, dbDown, _) => Handle(u, w, dbDown)
    case FinishStep(w, _) => u.(runs := s.runs - {w})
  }

  /** The except block: a retry while the budget lasts, else the dead-letter table. An error of the
      repository call, or a retry the index rejects, ends the run and strands the rest of its queue. */
  ghost function Handle(s: Sys, w: nat, dbDown: bool): Sys
    requires HasFailed(s, w)
  {
    var item := s.runs[w].queue[0];
    var error := s.runs[w].phase.error;
    var next := item.attempts + 1;
    if next < MAX_ATTEMPTS then
      if dbDown || RetryCollides(s.table, item.id) then s.(runs := s.runs - {w})
      else s.(table := ScheduleRetry(s.table, item.id, error, s.now + next * BACKOFF_MINUTES * MINUTE, next, s.now),
              runs := Advance(s.runs, w))
    else if dbDown then s.(runs := s.runs - {w})
    else s.(table := MoveToDlq(s.table, item.id, error, s.now), runs := Advance(s.runs, w))
  }

  ghost predicate Init(s: Sys) {
    s.table == Table([], []) && s.runs == map[] && s.log == []
  }

  ghost predicate Valid(s: Sys, steps: seq<Step>)
    decreases |steps|
  {
    steps == [] || (Enabled(s, steps[0]) && Valid(Apply(s, steps[0]), steps[1..]))
  }

  ghost function RunAll(s: Sys, steps: seq<Step>): Sys
    requires Valid(s, steps)
    decreases |steps|
  {
    if steps == [] then s else RunAll(Apply(s, steps[0]), steps[1..])
  }

  /** A claim starts only while no other worker run is open: the scheduler's single job. */
  ghost predicate OneRunAtATime(s: Sys, steps: seq<Step>)
    requires Valid(s, steps)
    decreases |steps|
  {
    steps == [] || ((steps[0].ClaimStep? ==> s.runs == map[]) && OneRunAtATime(Apply(s, steps[0]), steps[1..]))
  }

  lemma {:induction false} RunSnoc(s: Sys, steps: seq<Step>, step: Step)
    requires Valid(s, steps) && Enabled(RunAll(s, steps), step)
    ensures Valid(s, steps + [step]) && RunAll(s, steps + [step]) == Apply(RunAll(s, steps), step)
    ensures OneRunAtATime(s, steps) && (step.ClaimStep? ==> RunAll(s, steps).runs == map[]) ==>
            OneRunAtATime(s, steps + [step])
    decreases |steps|
  {
    if steps == [] {
      assert steps + [step] == [step];
    } else {
      RunSnoc(Apply(s, steps[0]), steps[1..], step);
      assert (steps + [step])[0] == steps[0] && (steps + [step])[1..] == steps[1..] + [step];
    }
  }
}
