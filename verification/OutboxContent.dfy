/** What is dispatched is what was enqueued. */
module OutboxContent {
  import opened OutboxTable
  import opened OutboxProtocol
  import opened OutboxSafety

  datatype Call = Call(key: Key, payload: Payload)

  ghost function CallOf(step: Step): seq<Call> {
    if step.EnqueueStep? then [Call(step.key, step.payload)] else []
  }

  /** The enqueue calls of a run, in order; the version of a payload is its place in this list. */
  ghost function Calls(steps: seq<Step>): seq<Call> {
    if steps == [] then [] else CallOf(steps[0]) + Calls(steps[1..])
  }

  ghost predicate Stems(calls: seq<Call>, version: nat, key: Key, payload: Payload) {
    version < |calls| && calls[version] == Call(key, payload)
  }

  /** Every row and every dispatch goes back to the enqueue call its version names. */
  ghost predicate Traced(s: Sys, calls: seq<Call>) {
    && s.enqueued == |calls|
    && (forall i :: 0 <= i < |s.table.rows| ==>
          Stems(calls, s.table.rows[i].version, s.table.rows[i].key, s.table.rows[i].payload))
    && (forall e :: 0 <= e < |s.log| ==> Stems(calls, s.log[e].version, s.log[e].key, s.log[e].payload))
  }

  lemma RowStaysTraced(s: Sys, step: Step, calls: seq<Call>, i: nat)
    requires Safe(s) && Traced(s, calls) && Enabled(s, step) && i < |Apply(s, step).table.rows|
    ensures var r := Apply(s, step).table.rows[i]; Stems(calls + CallOf(step), r.version, r.key, r.payload)
  {
    if i < |s.table.rows| {
      assert Stems(calls, s.table.rows[i].version, s.table.rows[i].key, s.table.rows[i].payload);
    }
  }

  lemma DispatchStaysTraced(s: Sys, step: Step, calls: seq<Call>, e: nat)
    requires Safe(s) && Traced(s, calls) && Enabled(s, step) && e < |Apply(s, step).log|
    ensures var d := Apply(s, step).log[e]; Stems(calls + CallOf(step), d.version, d.key, d.payload)
  {
    if e < |s.log| {
      assert Stems(calls, s.log[e].version, s.log[e].key, s.log[e].payload);
    } else {
      var item := At(s, step.worker, 0);
      assert Tracks(s.table.rows, item);
      assert Stems(calls, s.table.rows[item.id].version, s.table.rows[item.id].key, s.table.rows[item.id].payload);
    }
  }

  lemma StepKeepsTraced(s: Sys, step: Step, calls: seq<Call>)
    requires Safe(s) && Traced(s, calls) && Enabled(s, step)
    ensures Traced(Apply(s, step), calls + CallOf(step))
  {
    var s' := Apply(s, step);
    forall i: nat | i < |s'.table.rows|
      ensures Stems(calls + CallOf(step), s'.table.rows[i].version, s'.table.rows[i].key, s'.table.rows[i].payload)
    {
      RowStaysTraced(s, step, calls, i);
    }
    forall e: nat | e < |s'.log|
      ensures Stems(calls + CallOf(step), s'.log[e].version, s'.log[e].key, s'.log[e].payload)
    {
      DispatchStaysTraced(s, step, calls, e);
    }
  }

  lemma {:induction false} ReachableIsTraced(s: Sys, steps: seq<Step>, calls: seq<Call>)
    requires Safe(s) && Traced(s, calls) && Valid(s, steps)
    ensures Traced(RunAll(s, steps), calls + Calls(steps))
    decreases |steps|
  {
    CallsUnfold(calls, steps);
    if steps != [] {
      OneStepTraced(s, steps[0], calls);
      ReachableIsTraced(Apply(s, steps[0]), steps[1..], calls + CallOf(steps[0]));
    }
  }

  lemma OneStepTraced(s: Sys, step: Step, calls: seq<Call>)
    requires Safe(s) && Traced(s, calls) && Enabled(s, step)
    ensures Safe(Apply(s, step)) && Traced(Apply(s, step), calls + CallOf(step))
  {
    StepKeepsSafe(s, step);
    StepKeepsTraced(s, step, calls);
  }

  lemma CallsUnfold(calls: seq<Call>, steps: seq<Step>)
    ensures calls + Calls(steps) == if steps == [] then calls else calls + CallOf(steps[0]) + Calls(steps[1..])
  {
  }

  /** Over every run of any number of workers: a dispatch carries exactly the key and the payload of the
      enqueue call its version names. */
  lemma DispatchesAreTraced(s: Sys, steps: seq<Step>, e: nat)
    requires Init(s) && s.enqueued == 0 && Valid(s, steps) && e < |RunAll(s, steps).log|
    ensures var d := RunAll(s, steps).log[e];
            d.version < |Calls(steps)| && Calls(steps)[d.version] == Call(d.key, d.payload)
  {
    InitIsSafe(s);
    ReachableIsTraced(s, steps, []);
    assert [] + Calls(steps) == Calls(steps);
  }
}
