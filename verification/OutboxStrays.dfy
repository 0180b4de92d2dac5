/** Rows stranded in processing: exactly which steps leave some behind. */
module OutboxStrays {
  import opened OutboxTable
  import opened OutboxProtocol
  import opened OutboxSafety

  ghost predicate Held(s: Sys, i: nat) {
    exists w, k :: Holds(s, w, k) && At(s, w, k).id == i
  }

  /** Every row in processing is in some worker's queue. */
  ghost predicate NoStrays(s: Sys) {
    forall i: nat :: i < |s.table.rows| && s.table.rows[i].status == Processing ==> Held(s, i)
  }

  /** The step ends a run before its queue is empty: its process dies, the repository fails inside the
      except block, or a retry there meets a newer pending row of its key. */
  ghost predicate CutsShort(s: Sys, step: Step)
    requires Enabled(s, step)
  {
    match step
    case FinishStep(w, _) => s.runs[w].queue != []
    case FailureStep(w, dbDown, _) =>
      dbDown || (At(s, w, 0).attempts + 1 < MAX_ATTEMPTS && RetryCollides(s.table, At(s, w, 0).id))
    case _ => false
  }

  lemma ClaimHolds(s: Sys, step: Step, i: nat)
    requires step.ClaimStep? && Enabled(s, step) && (i in step.ids || Held(s, i))
    ensures Held(Apply(s, step), i)
  {
    var s' := Apply(s, step);
    if i in step.ids {
      var k :| 0 <= k < |step.ids| && step.ids[k] == i;
      assert Holds(s', step.worker, k) && At(s', step.worker, k).id == i;
    } else {
      var w, k :| Holds(s, w, k) && At(s, w, k).id == i;
      assert Holds(s', w, k) && At(s', w, k).id == i;
    }
  }

  /** The row of the item a step deals with, if it deals with one. */
  ghost predicate Drops(s: Sys, step: Step, i: nat)
    requires Enabled(s, step)
  {
    (step.DoneStep? || step.FailureStep?) && At(s, step.worker, 0).id == i
  }

  lemma OtherItemsStayHeld(s: Sys, step: Step, i: nat)
    requires Enabled(s, step) && !step.ClaimStep? && !CutsShort(s, step) && Held(s, i) && !Drops(s, step, i)
    ensures Held(Apply(s, step), i)
  {
    var s' := Apply(s, step);
    var w: nat, k: nat :| Holds(s, w, k) && At(s, w, k).id == i;
    if w in s'.runs && Dropped(s, step, w) == 1 {
      assert k > 0;
      assert Holds(s', w, k - 1) && At(s', w, k - 1).id == i;
    } else {
      assert Holds(s', w, k) && At(s', w, k).id == i;
    }
  }

  lemma DroppedRowIsHeldOrDone(s: Sys, step: Step)
    requires Safe(s) && Enabled(s, step) && (step.DoneStep? || step.FailureStep?) && !CutsShort(s, step)
    ensures var i := At(s, step.worker, 0).id;
            i < |s.table.rows| && (Apply(s, step).table.rows[i].status == Processing ==> Held(Apply(s, step), i))
  {
    var s', w := Apply(s, step), step.worker;
    assert Tracks(s.table.rows, At(s, w, 0));
    if s'.table.rows[At(s, w, 0).id].status == Processing {
      assert Holds(s', w, 0) && At(s', w, 0) == At(s, w, 0);
    }
  }

  lemma UncutStepKeepsNoStrays(s: Sys, step: Step)
    requires Safe(s) && NoStrays(s) && Enabled(s, step) && !CutsShort(s, step)
    ensures NoStrays(Apply(s, step))
  {
    var s' := Apply(s, step);
    forall i: nat | i < |s'.table.rows| && s'.table.rows[i].status == Processing
      ensures Held(s', i)
    {
      if step.ClaimStep? {
        ClaimHolds(s, step, i);
      } else if Drops(s, step, i) {
        DroppedRowIsHeldOrDone(s, step);
      } else {
        OtherItemsStayHeld(s, step, i);
      }
    }
  }

  ghost predicate Stray(s: Sys, i: nat) {
    Settled(s, i) && s.table.rows[i].status == Processing
  }

  /** A step that cuts a run short strands its first item. */
  lemma CutStrands(s: Sys, step: Step)
    requires Safe(s) && Enabled(s, step) && CutsShort(s, step)
    ensures Stray(Apply(s, step), At(s, step.worker, 0).id)
  {
    var s', w := Apply(s, step), step.worker;
    assert Holds(s, w, 0) && Tracks(s.table.rows, At(s, w, 0));
    forall v: nat, l: nat | Holds(s', v, l)
      ensures At(s', v, l).id != At(s, w, 0).id
    {
      assert v != w && Holds(s, v, l) && At(s', v, l) == At(s, v, l);
    }
  }

  lemma StrayIsNotHeld(s: Sys, i: nat)
    requires Stray(s, i)
    ensures !NoStrays(s)
  {
    assert !Held(s, i);
  }

  /** One step: rows are stranded exactly when it cuts a run short. */
  lemma StepStrandsIff(s: Sys, step: Step)
    requires Safe(s) && NoStrays(s) && Enabled(s, step)
    ensures NoStrays(Apply(s, step)) <==> !CutsShort(s, step)
  {
    if CutsShort(s, step) {
      CutStrands(s, step);
      StrayIsNotHeld(Apply(s, step), At(s, step.worker, 0).id);
    } else {
      UncutStepKeepsNoStrays(s, step);
    }
  }

  ghost predicate NeverCut(s: Sys, steps: seq<Step>)
    requires Valid(s, steps)
    decreases |steps|
  {
    steps == [] || (!CutsShort(s, steps[0]) && NeverCut(Apply(s, steps[0]), steps[1..]))
  }

  /** A whole run of any number of workers leaves no row stranded in processing exactly when none of its
      steps cuts a worker's run short. */
  lemma {:induction false} RunStrandsIff(s: Sys, steps: seq<Step>)
    requires Safe(s) && NoStrays(s) && Valid(s, steps)
    ensures NoStrays(RunAll(s, steps)) <==> NeverCut(s, steps)
    decreases |steps|
  {
    if steps != [] {
      StepKeepsSafe(s, steps[0]);
      var s' := Apply(s, steps[0]);
      if CutsShort(s, steps[0]) {
        var i := At(s, steps[0].worker, 0).id;
        CutStrands(s, steps[0]);
        SettledIsForever(s', steps[1..], i);
        StrayIsNotHeld(RunAll(s', steps[1..]), i);
      } else {
        StepStrandsIff(s, steps[0]);
        RunStrandsIff(s', steps[1..]);
      }
    }
  }

  /** From the empty tables on. */
  lemma FreshRunStrandsIff(s: Sys, steps: seq<Step>)
    requires Init(s) && Valid(s, steps)
    ensures NoStrays(RunAll(s, steps)) <==> NeverCut(s, steps)
  {
    InitIsSafe(s);
    RunStrandsIff(s, steps);
  }
}
