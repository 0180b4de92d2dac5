/** The counters a completed run reports, against the rows of its batch. */
module OutboundTally {
  import opened Common
  import opened OutboundQueue
  import opened OutboundRuns
  import opened OutboundSafety

  ghost function Tally(rows: seq<Row>, batch: seq<Item>, status: Status): nat {
    if batch == [] then 0
    else
      var id := batch[|batch| - 1].id;
      Tally(rows, batch[..|batch| - 1], status) + if id < |rows| && rows[id].status == status then 1 else 0
  }

  ghost predicate AllSettled(rows: seq<Row>, batch: seq<Item>) {
    forall k :: 0 <= k < |batch| ==> Settled(rows, batch[k].id)
  }

  /** These items are settled, and so many of them sent and failed. */
  ghost predicate Counts(rows: seq<Row>, batch: seq<Item>, succeeded: nat, failed: nat) {
    AllSettled(rows, batch) && Tally(rows, batch, Sent) == succeeded && Tally(rows, batch, Failed) == failed
  }

  ghost predicate RunCounts(rows: seq<Row>, run: Run) {
    run.next <= |run.batch| && Counts(rows, run.batch[..run.next], run.succeeded, run.failed)
  }

  ghost predicate ResultCounts(rows: seq<Row>, result: Result) {
    result.processed == |result.batch| && Counts(rows, result.batch, result.succeeded, result.failed)
  }

  ghost predicate Honest(s: Sys) {
    && (forall w :: w in s.runs ==> RunCounts(s.rows, s.runs[w]))
    && (forall r :: 0 <= r < |s.results| ==> ResultCounts(s.rows, s.results[r]))
  }

  lemma {:induction false} TallyAddsUp(rows: seq<Row>, batch: seq<Item>)
    requires AllSettled(rows, batch)
    ensures Tally(rows, batch, Sent) + Tally(rows, batch, Failed) == |batch|
  {
    if batch != [] {
      TallyAddsUp(rows, batch[..|batch| - 1]);
      assert Settled(rows, batch[|batch| - 1].id);
    }
  }

  lemma {:induction false} SettledTallyStays(rows: seq<Row>, rows': seq<Row>, batch: seq<Item>, status: Status)
    requires AllSettled(rows, batch)
    requires forall i: nat :: Settled(rows, i) ==> i < |rows'| && rows'[i] == rows[i]
    ensures AllSettled(rows', batch) && Tally(rows', batch, status) == Tally(rows, batch, status)
  {
    if batch != [] {
      assert Settled(rows, batch[|batch| - 1].id);
      SettledTallyStays(rows, rows', batch[..|batch| - 1], status);
    }
  }

  lemma CountsStay(s: Sys, step: Step, batch: seq<Item>, succeeded: nat, failed: nat)
    requires Owned(s) && Enabled(s, step) && Counts(s.rows, batch, succeeded, failed)
    ensures Counts(Apply(s, step).rows, batch, succeeded, failed)
  {
    var rows' := Apply(s, step).rows;
    forall i: nat | Settled(s.rows, i)
      ensures i < |rows'| && rows'[i] == s.rows[i]
    {
      StatusesMoveForward(s, step, i);
    }
    SettledTallyStays(s.rows, rows', batch, Sent);
    SettledTallyStays(s.rows, rows', batch, Failed);
  }

  /** One more item of the batch is settled. */
  lemma CountOne(rows: seq<Row>, batch: seq<Item>, next: nat, succeeded: nat, failed: nat)
    requires next < |batch| && Counts(rows, batch[..next], succeeded, failed) && Settled(rows, batch[next].id)
    ensures if rows[batch[next].id].status == Sent then Counts(rows, batch[..next + 1], succeeded + 1, failed)
            else Counts(rows, batch[..next + 1], succeeded, failed + 1)
  {
    var more := batch[..next + 1];
    assert more[..next] == batch[..next];
  }

  /** What a step that is not the claim of worker `w` does to its run. */
  lemma RunStep(s: Sys, step: Step, w: nat)
    requires Owned(s) && Enabled(s, step) && w in Apply(s, step).runs && !(step.ClaimStep? && step.worker == w)
    ensures w in s.runs
    ensures var run, run', rows' := s.runs[w], Apply(s, step).runs[w], Apply(s, step).rows;
            && run'.batch == run.batch
            && if run'.next == run.next then run'.succeeded == run.succeeded && run'.failed == run.failed
               else
                 && Busy(s, w) && Settled(rows', Head(s, w).id) && run'.next == run.next + 1
                 && if rows'[Head(s, w).id].status == Sent then
                      run'.succeeded == run.succeeded + 1 && run'.failed == run.failed
                    else run'.succeeded == run.succeeded && run'.failed == run.failed + 1
  {
    if Busy(s, w) {
      assert Holds(s, w, s.runs[w].next) && At(s, w, s.runs[w].next) == Head(s, w).id;
    }
  }

  lemma RunStaysHonest(s: Sys, step: Step, w: nat)
    requires Owned(s) && Enabled(s, step) && w in Apply(s, step).runs && !(step.ClaimStep? && step.worker == w)
    requires w in s.runs ==> RunCounts(s.rows, s.runs[w])
    ensures RunCounts(Apply(s, step).rows, Apply(s, step).runs[w])
  {
    RunStep(s, step, w);
    var run := s.runs[w];
    CountsStay(s, step, run.batch[..run.next], run.succeeded, run.failed);
    if Apply(s, step).runs[w].next != run.next {
      CountOne(Apply(s, step).rows, run.batch, run.next, run.succeeded, run.failed);
    }
  }

  lemma ResultsStayHonest(s: Sys, step: Step, r: nat)
    requires Owned(s) && Honest(s) && Enabled(s, step) && r < |Apply(s, step).results|
    ensures ResultCounts(Apply(s, step).rows, Apply(s, step).results[r])
  {
    var result := Apply(s, step).results[r];
    if r == |s.results| {
      var run := s.runs[step.worker];
      assert RunCounts(s.rows, run) && run.batch[..run.next] == run.batch;
    } else {
      assert ResultCounts(s.rows, result);
    }
    CountsStay(s, step, result.batch, result.succeeded, result.failed);
  }

  lemma StepKeepsHonest(s: Sys, step: Step)
    requires Owned(s) && Honest(s) && Enabled(s, step)
    ensures Honest(Apply(s, step))
  {
    var s' := Apply(s, step);
    forall w | w in s'.runs
      ensures RunCounts(s'.rows, s'.runs[w])
    {
      if !(step.ClaimStep? && step.worker == w) {
        RunStaysHonest(s, step, w);
      }
    }
    forall r: nat | r < |s'.results|
      ensures ResultCounts(s'.rows, s'.results[r])
    {
      ResultsStayHonest(s, step, r);
    }
  }

  lemma {:induction false} ReachableIsHonest(s: Sys, steps: seq<Step>)
    requires Init(s) && Valid(s, steps)
    ensures Honest(RunAll(s, steps))
    decreases |steps|
  {
    if steps != [] {
      var before := steps[..|steps| - 1];
      ReachableIsHonest(s, before);
      ReachableIsSafe(s, before);
      StepKeepsHonest(RunAll(s, before), steps[|steps| - 1]);
    }
  }

  /** The counters of every completed run add up, and stay true of its rows ever after. */
  lemma ResultsAddUp(s: Sys, steps: seq<Step>, r: nat)
    requires Init(s) && Valid(s, steps) && r < |RunAll(s, steps).results|
    ensures var z := RunAll(s, steps);
            var result := z.results[r];
            && result.processed == result.succeeded + result.failed == |result.batch|
            && Counts(z.rows, result.batch, result.succeeded, result.failed)
  {
    ReachableIsHonest(s, steps);
    assert ResultCounts(RunAll(s, steps).rows, RunAll(s, steps).results[r]);
    TallyAddsUp(RunAll(s, steps).rows, RunAll(s, steps).results[r].batch);
  }

  /** When the repository fails to mark a delivered item as sent, the item ends up failed although it was delivered. */
  lemma FailedMarkHidesADelivery(s: Sys, w: nat, error: string, at: Time)
    requires Safe(s) && Enabled(s, MarkSentStep(w, Some(error), at))
    ensures var raised := Apply(s, MarkSentStep(w, Some(error), at));
            && Enabled(raised, MarkFailedStep(w, false, at))
            && var z, id := Apply(raised, MarkFailedStep(w, false, at)), Head(s, w).id;
               id < |z.rows| && z.rows[id].status == Failed && DeliveredTo(z.sends, id)
  {
    assert Holds(s, w, s.runs[w].next) && At(s, w, s.runs[w].next) == Head(s, w).id;
  }
}
