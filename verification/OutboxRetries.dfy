/** The retry budget and the back-off, for any number of workers. */
module OutboxRetries {
  import opened Common
  import opened OutboxTable
  import opened OutboxProtocol
  import opened OutboxSafety

  /** How often a payload version was dispatched. An enqueue writes a fresh version, so this counts
      the dispatches since the last reset. */
  ghost function Tries(log: seq<Dispatch>, version: nat): nat {
    if log == [] then 0
    else Tries(log[..|log| - 1], version) + if log[|log| - 1].version == version then 1 else 0
  }

  /** The wait a failed attempt imposes before the next one. */
  ghost function NotBefore(d: Dispatch): Time {
    d.at + d.attempt * BACKOFF_MINUTES * MINUTE
  }

  ghost predicate Undispatched(s: Sys, w: nat, k: nat) {
    Holds(s, w, k) && (k > 0 || s.runs[w].phase == Ready)
  }

  ghost predicate VersionsDiffer(s: Sys) {
    && (forall i, j :: 0 <= i < j < |s.table.rows| ==> s.table.rows[i].version != s.table.rows[j].version)
    && (forall i :: 0 <= i < |s.table.rows| ==> s.table.rows[i].version < s.enqueued)
    && (forall e :: 0 <= e < |s.log| ==> s.log[e].version < s.enqueued)
  }

  ghost predicate RowBudget(r: Row, tries: nat) {
    match r.status
    case Pending => tries == r.attempts
    case Processing => r.attempts <= tries <= r.attempts + 1
    case Done => tries == r.attempts + 1
    case Dlq => tries == r.attempts + 1 == MAX_ATTEMPTS
  }

  ghost predicate Budgeted(s: Sys) {
    && (forall i :: 0 <= i < |s.table.rows| ==> RowBudget(s.table.rows[i], Tries(s.log, s.table.rows[i].version)))
    && (forall w, k :: Holds(s, w, k) ==>
          Tries(s.log, At(s, w, k).version) == At(s, w, k).attempts + if Undispatched(s, w, k) then 0 else 1)
    && (forall v :: Tries(s.log, v) <= MAX_ATTEMPTS)
  }

  /** An earlier dispatch `d` of row `r`'s payload has had its wait written into the row. */
  ghost predicate WaitRecorded(r: Row, d: Dispatch) {
    && d.attempt <= r.attempts + 1
    && (r.status == Pending ==> d.attempt <= r.attempts && r.nextRetryAt.Some? && NotBefore(d) <= r.nextRetryAt.value)
  }

  ghost predicate WaitOver(item: Item, d: Dispatch, now: Time) {
    d.attempt <= item.attempts && NotBefore(d) <= now
  }

  ghost predicate Spaced(log: seq<Dispatch>) {
    forall e, f :: 0 <= e < f < |log| && log[e].version == log[f].version ==>
      log[e].attempt < log[f].attempt && NotBefore(log[e]) <= log[f].at
  }

  ghost predicate BackedOff(s: Sys) {
    && Spaced(s.log)
    && (forall e :: 0 <= e < |s.log| ==> s.log[e].at <= s.now)
    && (forall e, i :: 0 <= e < |s.log| && 0 <= i < |s.table.rows| && s.log[e].version == s.table.rows[i].version ==>
          WaitRecorded(s.table.rows[i], s.log[e]))
    && (forall e, w, k :: 0 <= e < |s.log| && Undispatched(s, w, k) && s.log[e].version == At(s, w, k).version ==>
          WaitOver(At(s, w, k), s.log[e], s.now))
  }

  ghost predicate Disciplined(s: Sys) {
    Safe(s) && VersionsDiffer(s) && Budgeted(s) && BackedOff(s)
  }

  lemma TriesSnoc(log: seq<Dispatch>, d: Dispatch, version: nat)
    ensures Tries(log + [d], version) == Tries(log, version) + if d.version == version then 1 else 0
  {
    assert (log + [d])[..|log|] == log;
  }

  lemma {:induction false} UnusedVersion(log: seq<Dispatch>, version: nat)
    requires forall e :: 0 <= e < |log| ==> log[e].version != version
    ensures Tries(log, version) == 0
  {
    if log != [] {
      UnusedVersion(log[..|log| - 1], version);
    }
  }

  lemma EnqueueKeepsBudgeted(s: Sys, step: Step)
    requires Disciplined(s) && step.EnqueueStep? && Enabled(s, step)
    ensures VersionsDiffer(Apply(s, step)) && Budgeted(Apply(s, step))
  {
    var s' := Apply(s, step);
    UnusedVersion(s.log, s.enqueued);
    assert forall w, k :: Holds(s', w, k) ==> Holds(s, w, k) && At(s', w, k) == At(s, w, k);
  }

  lemma EnqueueKeepsBackedOff(s: Sys, step: Step)
    requires Disciplined(s) && step.EnqueueStep? && Enabled(s, step)
    ensures BackedOff(Apply(s, step))
  {
    var s' := Apply(s, step);
    forall e: nat, w: nat, k: nat | e < |s.log| && Undispatched(s', w, k) && s.log[e].version == At(s', w, k).version
      ensures WaitOver(At(s', w, k), s.log[e], s'.now)
    {
      assert Undispatched(s, w, k) && WaitOver(At(s, w, k), s.log[e], s.now);
    }
  }

  lemma ClaimedItems(s: Sys, step: Step, w: nat, k: nat)
    requires step.ClaimStep? && Enabled(s, step) && Holds(Apply(s, step), w, k)
    ensures w != step.worker ==> Holds(s, w, k) && At(Apply(s, step), w, k) == At(s, w, k)
                                 && (Undispatched(Apply(s, step), w, k) <==> Undispatched(s, w, k))
    ensures w == step.worker ==> k < |step.ids| && step.ids[k] in DueRows(s.table.rows, step.at)
                                 && At(Apply(s, step), w, k) == Snapshot(s.table.rows, step.ids[k])
                                 && Undispatched(Apply(s, step), w, k)
  {
  }

  lemma ClaimKeepsBudgeted(s: Sys, step: Step)
    requires Disciplined(s) && step.ClaimStep? && Enabled(s, step)
    ensures VersionsDiffer(Apply(s, step)) && Budgeted(Apply(s, step))
  {
    var s' := Apply(s, step);
    forall w: nat, k: nat | Holds(s', w, k)
      ensures Tries(s'.log, At(s', w, k).version) == At(s', w, k).attempts + if Undispatched(s', w, k) then 0 else 1
    {
      ClaimedItems(s, step, w, k);
    }
    assert forall k :: 0 <= k < |step.ids| ==> step.ids[k] in DueRows(s.table.rows, step.at);
  }

  lemma ClaimKeepsBackedOff(s: Sys, step: Step)
    requires Disciplined(s) && step.ClaimStep? && Enabled(s, step)
    ensures BackedOff(Apply(s, step))
  {
    var s' := Apply(s, step);
    forall e: nat, w: nat, k: nat | e < |s.log| && Undispatched(s', w, k) && s.log[e].version == At(s', w, k).version
      ensures WaitOver(At(s', w, k), s.log[e], s'.now)
    {
      ClaimedItems(s, step, w, k);
      if w == step.worker {
        assert WaitRecorded(s.table.rows[step.ids[k]], s.log[e]);
      }
    }
    forall e, i | 0 <= e < |s.log| && 0 <= i < |s'.table.rows| && s.log[e].version == s'.table.rows[i].version
      ensures WaitRecorded(s'.table.rows[i], s.log[e])
    {
      assert WaitRecorded(s.table.rows[i], s.log[e]);
    }
  }

  /** A dispatch leaves every queue as it is, and no other queued item carries its version. */
  lemma DispatchedItems(s: Sys, step: Step, w: nat, k: nat)
    requires Disciplined(s) && step.DispatchStep? && Enabled(s, step) && Holds(Apply(s, step), w, k)
    ensures Holds(s, w, k) && At(Apply(s, step), w, k) == At(s, w, k) && Holds(s, step.worker, 0)
    ensures At(s, w, k).version == At(s, step.worker, 0).version ==> w == step.worker && k == 0
    ensures Undispatched(Apply(s, step), w, k) <==> Undispatched(s, w, k) && !(w == step.worker && k == 0)
  {
    assert Tracks(s.table.rows, At(s, w, k)) && Tracks(s.table.rows, At(s, step.worker, 0));
  }

  lemma DispatchKeepsBudgeted(s: Sys, step: Step)
    requires Disciplined(s) && step.DispatchStep? && Enabled(s, step)
    ensures VersionsDiffer(Apply(s, step)) && Budgeted(Apply(s, step))
  {
    var s' := Apply(s, step);
    var item := At(s, step.worker, 0);
    assert Tracks(s.table.rows, item) && Undispatched(s, step.worker, 0);
    forall v: nat
      ensures Tries(s'.log, v) == Tries(s.log, v) + if item.version == v then 1 else 0
    {
      TriesSnoc(s.log, s'.log[|s.log|], v);
    }
    forall w: nat, k: nat | Holds(s', w, k)
      ensures Tries(s'.log, At(s', w, k).version) == At(s', w, k).attempts + if Undispatched(s', w, k) then 0 else 1
    {
      DispatchedItems(s, step, w, k);
    }
  }

  lemma DispatchKeepsBackedOff(s: Sys, step: Step)
    requires Disciplined(s) && step.DispatchStep? && Enabled(s, step)
    ensures BackedOff(Apply(s, step))
  {
    var s' := Apply(s, step);
    var item := At(s, step.worker, 0);
    assert Tracks(s.table.rows, item) && Undispatched(s, step.worker, 0);
    assert forall e :: 0 <= e < |s.log| && s.log[e].version == item.version ==> WaitOver(item, s.log[e], s.now);
    forall e: nat, w: nat, k: nat | e < |s'.log| && Undispatched(s', w, k) && s'.log[e].version == At(s', w, k).version
      ensures WaitOver(At(s', w, k), s'.log[e], s'.now)
    {
      DispatchedItems(s, step, w, k);
      assert e < |s.log| && WaitOver(At(s, w, k), s.log[e], s.now);
    }
  }

  ghost predicate Handles(step: Step) {
    step.DoneStep? || step.FailureStep? || step.FinishStep?
  }

  /** Dealing with a dispatched item: what is still queued was queued before, and as undispatched. */
  lemma HandledItems(s: Sys, step: Step, w: nat, k: nat)
    requires Handles(step) && Enabled(s, step) && Holds(Apply(s, step), w, k)
    ensures var old_k := k + Dropped(s, step, w);
            Holds(s, w, old_k) && At(Apply(s, step), w, k) == At(s, w, old_k)
            && (Undispatched(Apply(s, step), w, k) <==> Undispatched(s, w, old_k))
  {
    QueuesShrink(s, step, w, k);
  }

  /** Only the row of the dispatched item may change, and it keeps its payload version. */
  lemma HandledRows(s: Sys, step: Step, i: nat)
    requires Disciplined(s) && Handles(step) && Enabled(s, step) && i < |s.table.rows|
    ensures var s' := Apply(s, step);
            && s'.log == s.log && s'.enqueued == s.enqueued && |s'.table.rows| == |s.table.rows|
            && s'.table.rows[i].version == s.table.rows[i].version
            && RowBudget(s'.table.rows[i], Tries(s.log, s.table.rows[i].version))
  {
    assert RowBudget(s.table.rows[i], Tries(s.log, s.table.rows[i].version));
    if !step.FinishStep? {
      assert Holds(s, step.worker, 0) && Tracks(s.table.rows, At(s, step.worker, 0))
             && !Undispatched(s, step.worker, 0);
    }
  }

  lemma HandlingKeepsBudgeted(s: Sys, step: Step)
    requires Disciplined(s) && Handles(step) && Enabled(s, step)
    ensures VersionsDiffer(Apply(s, step)) && Budgeted(Apply(s, step))
  {
    var s' := Apply(s, step);
    forall i: nat | i < |s.table.rows|
      ensures s'.table.rows[i].version == s.table.rows[i].version
              && RowBudget(s'.table.rows[i], Tries(s.log, s.table.rows[i].version))
    {
      HandledRows(s, step, i);
    }
    forall w: nat, k: nat | Holds(s', w, k)
      ensures Tries(s'.log, At(s', w, k).version) == At(s', w, k).attempts + if Undispatched(s', w, k) then 0 else 1
    {
      HandledItems(s, step, w, k);
    }
  }

  /** A row's wait is on record after its dispatch was dealt with. */
  lemma HandledRowWaits(s: Sys, step: Step, e: nat, i: nat)
    requires Disciplined(s) && Handles(step) && Enabled(s, step)
    requires e < |s.log| && i < |s.table.rows| && i < |Apply(s, step).table.rows|
             && s.log[e].version == Apply(s, step).table.rows[i].version
    ensures WaitRecorded(Apply(s, step).table.rows[i], s.log[e])
  {
    var rows' := Apply(s, step).table.rows;
    HandledRows(s, step, i);
    assert WaitRecorded(s.table.rows[i], s.log[e]) && s.log[e].at <= s.now;
    if rows'[i] != s.table.rows[i] {
      assert Tracks(s.table.rows, At(s, step.worker, 0)) && At(s, step.worker, 0).id == i;
    }
  }

  lemma HandlingKeepsBackedOff(s: Sys, step: Step)
    requires Disciplined(s) && Handles(step) && Enabled(s, step)
    ensures BackedOff(Apply(s, step))
  {
    var s' := Apply(s, step);
    forall e: nat, w: nat, k: nat | e < |s.log| && Undispatched(s', w, k) && s.log[e].version == At(s', w, k).version
      ensures WaitOver(At(s', w, k), s.log[e], s'.now)
    {
      HandledItems(s, step, w, k);
    }
    forall e: nat, i: nat | e < |s.log| && i < |s'.table.rows| && s.log[e].version == s'.table.rows[i].version
      ensures WaitRecorded(s'.table.rows[i], s.log[e])
    {
      HandledRows(s, step, i);
      HandledRowWaits(s, step, e, i);
    }
  }

  lemma StepKeepsDisciplined(s: Sys, step: Step)
    requires Disciplined(s) && Enabled(s, step)
    ensures Disciplined(Apply(s, step))
  {
    StepKeepsSafe(s, step);
    match step
    case EnqueueStep(_, _, _) => EnqueueKeepsBudgeted(s, step); EnqueueKeepsBackedOff(s, step);
    case ClaimStep(_, _, _, _) => ClaimKeepsBudgeted(s, step); ClaimKeepsBackedOff(s, step);
    case DispatchStep(_, _, _) => DispatchKeepsBudgeted(s, step); DispatchKeepsBackedOff(s, step);
    case _ => HandlingKeepsBudgeted(s, step); HandlingKeepsBackedOff(s, step);
  }

  lemma {:induction false} ReachableIsDisciplined(s: Sys, steps: seq<Step>)
    requires Disciplined(s) && Valid(s, steps)
    ensures Disciplined(RunAll(s, steps))
    decreases |steps|
  {
    if steps != [] {
      StepKeepsDisciplined(s, steps[0]);
      ReachableIsDisciplined(Apply(s, steps[0]), steps[1..]);
    }
  }

  /** Over every run: no payload version is dispatched more than three times, a pending row's counter is
      the number of its failed dispatches, a row in dlq had exactly three, a done row one to three. */
  lemma RetryBudget(s: Sys, steps: seq<Step>)
    requires Init(s) && Valid(s, steps)
    ensures var z := RunAll(s, steps);
            && (forall v :: Tries(z.log, v) <= 3)
            && (forall i :: 0 <= i < |z.table.rows| ==>
                  var r := z.table.rows[i];
                  && 0 <= r.attempts <= 2
                  && (r.status == Pending ==> Tries(z.log, r.version) == r.attempts)
                  && (r.status == Dlq ==> Tries(z.log, r.version) == 3)
                  && (r.status == Done ==> 1 <= Tries(z.log, r.version) <= 3))
  {
    ReachableIsDisciplined(s, steps);
  }

  /** In every reachable state, a failure whose repository call goes through sends the row to the
      dead letters exactly when it was the third dispatch, whether or not a newer row of its key is
      pending, and back to pending otherwise. */
  lemma ThirdFailureIsDead(s: Sys, w: nat, at: Time)
    requires Disciplined(s) && HasFailed(s, w) && s.now <= at
    requires At(s, w, 0).attempts + 1 < MAX_ATTEMPTS ==> !RetryCollides(s.table, At(s, w, 0).id)
    ensures var item := At(s, w, 0);
            var r := Apply(s, FailureStep(w, false, at)).table.rows;
            && item.id < |r|
            && (r[item.id].status == Dlq <==> Tries(s.log, item.version) == 3)
            && (r[item.id].status == Pending <==> Tries(s.log, item.version) < 3)
  {
    assert Holds(s, w, 0) && Tracks(s.table.rows, At(s, w, 0));
    assert !Undispatched(s, w, 0);
  }

  /** Over every run: two dispatches of one payload version are apart by at least five minutes times
      the number of the earlier attempt. */
  lemma BackOffIsKept(s: Sys, steps: seq<Step>, e: nat, f: nat)
    requires Init(s) && Valid(s, steps) && e < f < |RunAll(s, steps).log|
    requires RunAll(s, steps).log[e].version == RunAll(s, steps).log[f].version
    ensures var log := RunAll(s, steps).log;
            log[e].attempt < log[f].attempt && log[f].at >= log[e].at + 5 * log[e].attempt * MINUTE
  {
    ReachableIsDisciplined(s, steps);
  }
}
