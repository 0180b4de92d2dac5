/** How far the statuses tell the truth about deliveries, and exactly when they stop doing so. */
module OutboundTruth {
  import opened OutboundQueue
  import opened OutboundRuns
  import opened OutboundSafety

  ghost predicate RaisedAt(s: Sys, w: nat) {
    Busy(s, w) && s.runs[w].phase.Raised?
  }

  /** Worker `w` has just delivered the item it is about to mark. */
  ghost predicate DeliveredAt(s: Sys, w: nat) {
    Busy(s, w) && s.runs[w].phase.Delivered?
  }

  lemma {:induction false} DeliveredWasSent(sends: seq<Send>, id: nat)
    requires DeliveredTo(sends, id)
    ensures SendsOf(sends, id) > 0
  {
    var j :| 0 <= j < |sends| && sends[j].id == id && sends[j].delivered;
    if j < |sends| - 1 {
      assert sends[..|sends| - 1][j] == sends[j];
      DeliveredWasSent(sends[..|sends| - 1], id);
    }
  }

  /** Whether the step delivers a message for row `id`. */
  ghost predicate DeliversNow(s: Sys, step: Step, id: nat)
    requires Enabled(s, step)
  {
    SendsNow(s, step, id) && step.error.None?
  }

  lemma DeliveriesGrow(s: Sys, step: Step, id: nat)
    requires Enabled(s, step)
    ensures DeliveredTo(Apply(s, step).sends, id) <==> DeliveredTo(s.sends, id) || DeliversNow(s, step, id)
  {
    var before, after := s.sends, Apply(s, step).sends;
    assert before <= after && |after| <= |before| + 1;
    if DeliveredTo(s.sends, id) {
      DeliveredStays(s, step, id);
    }
    if DeliversNow(s, step, id) {
      assert after[|before|].id == id && after[|before|].delivered;
    }
  }

  /** An item that is sent was untried before. */
  lemma SentItemWasUntried(s: Sys, step: Step, id: nat)
    requires SentAtMostOnce(s) && Enabled(s, step) && SendsNow(s, step, id)
    ensures Holds(s, step.worker, s.runs[step.worker].next) && At(s, step.worker, s.runs[step.worker].next) == id
    ensures !DeliveredTo(s.sends, id)
  {
    assert Untried(s, step.worker, s.runs[step.worker].next);
    if DeliveredTo(s.sends, id) {
      DeliveredWasSent(s.sends, id);
    }
  }

  // ----- failed rows

  ghost predicate FailedMark(step: Step) {
    step.MarkSentStep? && step.dbError.Some?
  }

  /** No failed row was delivered, and no item about to be marked as failed was. */
  ghost predicate FailedMeansUndelivered(s: Sys) {
    && (forall i: nat :: i < |s.rows| && s.rows[i].status == Failed ==> !DeliveredTo(s.sends, i))
    && (forall w :: RaisedAt(s, w) ==> !DeliveredTo(s.sends, Head(s, w).id))
  }

  lemma FailedRowStaysUndelivered(s: Sys, step: Step, i: nat)
    requires Safe(s) && FailedMeansUndelivered(s) && Enabled(s, step) && !FailedMark(step)
    requires i < |Apply(s, step).rows| && Apply(s, step).rows[i].status == Failed
    ensures !DeliveredTo(Apply(s, step).sends, i)
  {
    DeliveriesGrow(s, step, i);
    if SendsNow(s, step, i) {
      SentItemWasUntried(s, step, i);
    } else if i < |s.rows| && s.rows[i].status != Failed {
      assert step.JudgeStep? || step.MarkFailedStep?;
      var w := step.worker;
      assert Holds(s, w, s.runs[w].next) && At(s, w, s.runs[w].next) == Head(s, w).id == i;
      if step.JudgeStep? {
        HeadIsUndelivered(s, w);
      } else {
        assert RaisedAt(s, w);
      }
    }
  }

  lemma HeadIsUndelivered(s: Sys, w: nat)
    requires SentAtMostOnce(s) && Busy(s, w) && s.runs[w].phase.Ready?
    ensures !DeliveredTo(s.sends, Head(s, w).id)
  {
    assert Untried(s, w, s.runs[w].next) && At(s, w, s.runs[w].next) == Head(s, w).id;
    if DeliveredTo(s.sends, Head(s, w).id) {
      DeliveredWasSent(s.sends, Head(s, w).id);
    }
  }

  lemma RaisedHeadStaysUndelivered(s: Sys, step: Step, w: nat)
    requires Safe(s) && FailedMeansUndelivered(s) && Enabled(s, step) && !FailedMark(step)
             && RaisedAt(Apply(s, step), w)
    ensures !DeliveredTo(Apply(s, step).sends, Head(Apply(s, step), w).id)
  {
    var id := Head(Apply(s, step), w).id;
    DeliveriesGrow(s, step, id);
    assert Busy(s, w) && Head(s, w).id == id && Holds(s, w, s.runs[w].next);
    if step.JudgeStep? && step.worker == w {
      HeadIsUndelivered(s, w);
    } else {
      assert RaisedAt(s, w);
      if SendsNow(s, step, id) {
        SentItemWasUntried(s, step, id);
      }
    }
  }

  lemma StepKeepsFailedUndelivered(s: Sys, step: Step)
    requires Safe(s) && FailedMeansUndelivered(s) && Enabled(s, step) && !FailedMark(step)
    ensures FailedMeansUndelivered(Apply(s, step))
  {
    var s' := Apply(s, step);
    forall i: nat | i < |s'.rows| && s'.rows[i].status == Failed
      ensures !DeliveredTo(s'.sends, i)
    {
      FailedRowStaysUndelivered(s, step, i);
    }
    forall w: nat | RaisedAt(s', w)
      ensures !DeliveredTo(s'.sends, Head(s', w).id)
    {
      RaisedHeadStaysUndelivered(s, step, w);
    }
  }

  /** One step of a run breaks this exactly when marking a delivered item as sent raises. */
  lemma FailedStaysTrueIff(s: Sys, step: Step)
    requires Safe(s) && FailedMeansUndelivered(s) && Enabled(s, step)
    ensures FailedMeansUndelivered(Apply(s, step)) <==> !FailedMark(step)
  {
    if FailedMark(step) {
      var s' := Apply(s, step);
      assert DeliveredTo(s.sends, Head(s, step.worker).id);
      assert RaisedAt(s', step.worker) && Head(s', step.worker) == Head(s, step.worker);
    } else {
      StepKeepsFailedUndelivered(s, step);
    }
  }

  /** Over every run of any number of workers, whoever stops: as long as no mark as sent raises, a failed
      row was never delivered. */
  lemma {:induction false} FailedWasNotDelivered(s: Sys, steps: seq<Step>)
    requires Init(s) && Valid(s, steps) && forall k :: 0 <= k < |steps| ==> !FailedMark(steps[k])
    ensures FailedMeansUndelivered(RunAll(s, steps))
    decreases |steps|
  {
    if steps != [] {
      var before := steps[..|steps| - 1];
      assert forall k :: 0 <= k < |before| ==> before[k] == steps[k];
      FailedWasNotDelivered(s, before);
      ReachableIsSafe(s, before);
      StepKeepsFailedUndelivered(RunAll(s, before), steps[|steps| - 1]);
    }
  }

  ghost predicate FailedUndelivered(s: Sys, i: nat) {
    i < |s.rows| && s.rows[i].status == Failed ==> !DeliveredTo(s.sends, i)
  }

  /** No failed row was delivered. */
  ghost predicate FailedRowsUndelivered(s: Sys) {
    forall i: nat :: FailedUndelivered(s, i)
  }

  /** The step marks a delivered item as failed. */
  ghost predicate Hides(s: Sys, step: Step)
    requires Enabled(s, step)
  {
    step.MarkFailedStep? && !step.dbDown && DeliveredTo(s.sends, Head(s, step.worker).id)
  }

  lemma FailedUndeliveredStays(s: Sys, step: Step, i: nat)
    requires Safe(s) && FailedRowsUndelivered(s) && Enabled(s, step) && !Hides(s, step)
    ensures FailedUndelivered(Apply(s, step), i)
  {
    assert FailedUndelivered(s, i);
    DeliveriesGrow(s, step, i);
    if SendsNow(s, step, i) {
      SentItemWasUntried(s, step, i);
    } else if step.JudgeStep? && Head(s, step.worker).id == i {
      HeadIsUndelivered(s, step.worker);
    } else if i < |s.rows| {
      StatusesMoveForward(s, step, i);
    }
  }

  lemma HidingHides(s: Sys, step: Step)
    requires Safe(s) && Enabled(s, step) && Hides(s, step)
    ensures !FailedUndelivered(Apply(s, step), Head(s, step.worker).id)
  {
    var w := step.worker;
    assert Holds(s, w, s.runs[w].next) && At(s, w, s.runs[w].next) == Head(s, w).id;
    DeliveriesGrow(s, step, Head(s, w).id);
  }

  /** A delivered row once marked as failed stays so. */
  lemma HiddenStays(s: Sys, step: Step, i: nat)
    requires Safe(s) && Enabled(s, step) && !FailedUndelivered(s, i)
    ensures !FailedUndelivered(Apply(s, step), i)
  {
    StatusesMoveForward(s, step, i);
    DeliveriesGrow(s, step, i);
  }

  ghost predicate NeverHides(s: Sys, steps: seq<Step>)
    requires Valid(s, steps)
    decreases |steps|
  {
    steps == [] ||
    (NeverHides(s, steps[..|steps| - 1]) && !Hides(RunAll(s, steps[..|steps| - 1]), steps[|steps| - 1]))
  }

  /** Over every run of any number of workers, whoever stops: no failed row was delivered if and only if no
      step marked a delivered item as failed. */
  lemma {:induction false} FailedIsUndeliveredIff(s: Sys, steps: seq<Step>)
    requires Init(s) && Valid(s, steps)
    ensures FailedRowsUndelivered(RunAll(s, steps)) <==> NeverHides(s, steps)
    decreases |steps|
  {
    if steps == [] {
      assert forall i: nat :: FailedUndelivered(s, i);
    } else {
      var before, step := steps[..|steps| - 1], steps[|steps| - 1];
      FailedIsUndeliveredIff(s, before);
      ReachableIsSafe(s, before);
      OneStepHidesIff(RunAll(s, before), step);
    }
  }

  /** One step: failed rows are undelivered after it exactly when they were before it and it hides no delivery. */
  lemma OneStepHidesIff(s: Sys, step: Step)
    requires Safe(s) && Enabled(s, step)
    ensures FailedRowsUndelivered(Apply(s, step)) <==> FailedRowsUndelivered(s) && !Hides(s, step)
  {
    if !FailedRowsUndelivered(s) {
      var i: nat :| !FailedUndelivered(s, i);
      HiddenStays(s, step, i);
    } else if Hides(s, step) {
      HidingHides(s, step);
    } else {
      forall i: nat
        ensures FailedUndelivered(Apply(s, step), i)
      {
        FailedUndeliveredStays(s, step, i);
      }
    }
  }

  // ----- delivered rows

  ghost predicate InFlight(s: Sys, id: nat) {
    exists w :: DeliveredAt(s, w) && Head(s, w).id == id
  }

  ghost predicate Accounted(s: Sys, id: nat) {
    DeliveredTo(s.sends, id) ==> (id < |s.rows| && s.rows[id].status == Sent) || InFlight(s, id)
  }

  /** Every delivered row is marked as sent, or its worker is about to. */
  ghost predicate AllAccounted(s: Sys) {
    forall id: nat :: Accounted(s, id)
  }

  /** The step loses a delivery: marking it raises, or its worker stops before marking it. */
  ghost predicate Loses(s: Sys, step: Step)
    requires Enabled(s, step)
  {
    FailedMark(step) || (step.StopStep? && DeliveredAt(s, step.worker))
  }

  lemma AccountedStays(s: Sys, step: Step, id: nat)
    requires Safe(s) && AllAccounted(s) && Enabled(s, step) && !Loses(s, step)
    ensures Accounted(Apply(s, step), id)
  {
    var s' := Apply(s, step);
    assert Accounted(s, id);
    DeliveriesGrow(s, step, id);
    if DeliversNow(s, step, id) {
      assert DeliveredAt(s', step.worker) && Head(s', step.worker).id == id;
    } else if InFlight(s, id) {
      FlightGoesOn(s, step, id);
    } else if DeliveredTo(s.sends, id) {
      StatusesMoveForward(s, step, id);
    }
  }

  lemma FlightGoesOn(s: Sys, step: Step, id: nat)
    requires Safe(s) && Enabled(s, step) && !Loses(s, step) && InFlight(s, id)
    ensures InFlight(Apply(s, step), id)
            || (id < |s.rows| && id < |Apply(s, step).rows| && Apply(s, step).rows[id].status == Sent)
  {
    var w :| DeliveredAt(s, w) && Head(s, w).id == id;
    assert Holds(s, w, s.runs[w].next) && At(s, w, s.runs[w].next) == id;
    if !(step.MarkSentStep? && step.worker == w) {
      assert DeliveredAt(Apply(s, step), w) && Head(Apply(s, step), w).id == id;
    }
  }

  /** A delivery nobody will ever record: not marked as sent, and no worker about to. */
  ghost predicate Lost(s: Sys, id: nat) {
    id < |s.rows| && !Accounted(s, id)
  }

  lemma LosingStepLoses(s: Sys, step: Step)
    requires Safe(s) && Enabled(s, step) && Loses(s, step)
    ensures Lost(Apply(s, step), Head(s, step.worker).id)
  {
    var s', w := Apply(s, step), step.worker;
    var id := Head(s, w).id;
    assert Holds(s, w, s.runs[w].next) && At(s, w, s.runs[w].next) == id;
    assert DeliveredTo(s.sends, id);
    forall v | DeliveredAt(s', v)
      ensures Head(s', v).id != id
    {
      assert v != w && DeliveredAt(s, v) && Head(s, v) == Head(s', v);
      assert Holds(s, v, s.runs[v].next) && At(s, v, s.runs[v].next) == Head(s, v).id;
    }
  }

  lemma LostStays(s: Sys, step: Step, id: nat)
    requires Safe(s) && Enabled(s, step) && Lost(s, id)
    ensures Lost(Apply(s, step), id)
  {
    var s' := Apply(s, step);
    DeliveriesGrow(s, step, id);
    StatusesMoveForward(s, step, id);
    assert step.MarkSentStep? ==> DeliveredAt(s, step.worker);
    forall v | DeliveredAt(s', v)
      ensures Head(s', v).id != id
    {
      if DeliveredAt(s, v) && s.runs[v] == s'.runs[v] {
        assert Head(s, v).id != id;
      } else if SendsNow(s, step, id) {
        SentItemWasUntried(s, step, id);
      }
    }
  }

  lemma StepLosesIff(s: Sys, step: Step)
    requires Safe(s) && AllAccounted(s) && Enabled(s, step)
    ensures AllAccounted(Apply(s, step)) <==> !Loses(s, step)
  {
    if Loses(s, step) {
      LosingStepLoses(s, step);
      assert !Accounted(Apply(s, step), Head(s, step.worker).id);
    } else {
      forall id: nat
        ensures Accounted(Apply(s, step), id)
      {
        AccountedStays(s, step, id);
      }
    }
  }

  ghost predicate NeverLoses(s: Sys, steps: seq<Step>)
    requires Valid(s, steps)
    decreases |steps|
  {
    steps == [] ||
    (NeverLoses(s, steps[..|steps| - 1]) && !Loses(RunAll(s, steps[..|steps| - 1]), steps[|steps| - 1]))
  }

  /** Over every run of any number of workers: the rows marked as sent, or about to be, are exactly those
      delivered if and only if no mark as sent raised and no worker stopped between delivery and mark. */
  lemma {:induction false} SentIsDeliveredIff(s: Sys, steps: seq<Step>)
    requires Init(s) && Valid(s, steps)
    ensures AllAccounted(RunAll(s, steps)) <==> NeverLoses(s, steps)
    ensures !NeverLoses(s, steps) ==> exists id: nat :: Lost(RunAll(s, steps), id)
    decreases |steps|
  {
    if steps == [] {
      assert forall id: nat :: Accounted(s, id);
    } else {
      var before, step := steps[..|steps| - 1], steps[|steps| - 1];
      var b := RunAll(s, before);
      SentIsDeliveredIff(s, before);
      ReachableIsSafe(s, before);
      if NeverLoses(s, before) {
        StepLosesIff(b, step);
        if Loses(b, step) {
          LosingStepLoses(b, step);
        }
      } else {
        var id: nat :| Lost(b, id);
        LostStays(b, step, id);
        assert !Accounted(Apply(b, step), id);
      }
    }
  }
}
