/** What every reachable state of the outbound queue promises. */
module OutboundSafety {
  import opened Common
  import opened OutboundQueue
  import opened OutboundRuns

  /** Worker `w` still has to settle the item at position `k` of its batch. */
  ghost predicate Holds(s: Sys, w: nat, k: nat) {
    w in s.runs && s.runs[w].next <= k < |s.runs[w].batch|
  }

  ghost function At(s: Sys, w: nat, k: nat): nat
    requires Holds(s, w, k)
  {
    s.runs[w].batch[k].id
  }

  /** Each row is claimed exactly once before it leaves pending and never again. */
  ghost predicate ClaimedOnce(rows: seq<Row>) {
    forall i :: 0 <= i < |rows| ==> rows[i].attempts == if rows[i].status == Pending then 0 else 1
  }

  ghost predicate Processed(rows: seq<Row>, i: nat) {
    i < |rows| && rows[i].status == Processing
  }

  ghost predicate Settled(rows: seq<Row>, i: nat) {
    i < |rows| && (rows[i].status == Sent || rows[i].status == Failed)
  }

  /** Every unsettled item is a row in processing, and no row is held twice. */
  ghost predicate Owned(s: Sys) {
    && (forall w, k :: Holds(s, w, k) ==> Processed(s.rows, At(s, w, k)))
    && (forall w, k, v, l :: Holds(s, w, k) && Holds(s, v, l) && At(s, w, k) == At(s, v, l) ==> w == v && k == l)
  }

  ghost function SendsOf(sends: seq<Send>, id: nat): nat {
    if sends == [] then 0 else SendsOf(sends[..|sends| - 1], id) + if sends[|sends| - 1].id == id then 1 else 0
  }

  ghost predicate SentSoFar(rows: seq<Row>, sends: seq<Send>, id: nat) {
    SendsOf(sends, id) <= 1 && (SendsOf(sends, id) > 0 ==> id < |rows| && rows[id].status != Pending)
  }

  /** Item `k` of worker `w` has had no chance to be sent. */
  ghost predicate Untried(s: Sys, w: nat, k: nat) {
    Holds(s, w, k) && (s.runs[w].next < k || s.runs[w].phase.Ready?)
  }

  ghost predicate SentAtMostOnce(s: Sys) {
    && (forall id: nat :: SentSoFar(s.rows, s.sends, id))
    && (forall w, k :: Untried(s, w, k) ==> SendsOf(s.sends, At(s, w, k)) == 0)
  }

  ghost predicate DeliveredTo(sends: seq<Send>, id: nat) {
    exists j :: 0 <= j < |sends| && sends[j].id == id && sends[j].delivered
  }

  /** A row marked as sent was delivered. */
  ghost predicate SentMeansDelivered(s: Sys) {
    && (forall i :: 0 <= i < |s.rows| && s.rows[i].status == Sent ==> DeliveredTo(s.sends, i))
    && (forall w :: Busy(s, w) && s.runs[w].phase.Delivered? ==> DeliveredTo(s.sends, Head(s, w).id))
  }

  /** A status stays, or moves from pending to processing, or from processing to sent or failed. */
  ghost predicate Forward(before: Row, after: Row) {
    || after == before
    || (before.status == Pending && after == before.(status := Processing, attempts := before.attempts + 1))
    || (before.status == Processing && (after.status == Sent || after.status == Failed)
        && after == before.(status := after.status, sentAt := after.sentAt, lastError := after.lastError))
  }

  lemma ClaimsOnlyPending(s: Sys, step: Step)
    requires step.ClaimStep? && Enabled(s, step)
    ensures forall k :: 0 <= k < |step.ids| ==> step.ids[k] < |s.rows| && s.rows[step.ids[k]].status == Pending
  {
    assert forall k :: 0 <= k < |step.ids| ==> step.ids[k] in DueRows(s.rows, step.at);
  }

  lemma StatusesMoveForward(s: Sys, step: Step, i: nat)
    requires Owned(s) && Enabled(s, step) && i < |s.rows|
    ensures i < |Apply(s, step).rows| && Forward(s.rows[i], Apply(s, step).rows[i])
    ensures Settled(s.rows, i) ==> Apply(s, step).rows[i] == s.rows[i]
  {
    if step.ClaimStep? {
      ClaimsOnlyPending(s, step);
    } else if step.JudgeStep? || step.MarkSentStep? || step.MarkFailedStep? {
      var w := step.worker;
      assert Holds(s, w, s.runs[w].next) && At(s, w, s.runs[w].next) == Head(s, w).id;
    }
  }

  lemma StepKeepsClaimedOnce(s: Sys, step: Step)
    requires Owned(s) && ClaimedOnce(s.rows) && Enabled(s, step)
    ensures ClaimedOnce(Apply(s, step).rows)
  {
    var s' := Apply(s, step);
    forall i | 0 <= i < |s'.rows|
      ensures s'.rows[i].attempts == if s'.rows[i].status == Pending then 0 else 1
    {
      if i < |s.rows| {
        StatusesMoveForward(s, step, i);
      }
    }
  }

  lemma ClaimedItems(s: Sys, step: Step, w: nat, k: nat)
    requires step.ClaimStep? && Enabled(s, step) && Holds(Apply(s, step), w, k)
    ensures if w == step.worker then k < |step.ids| && At(Apply(s, step), w, k) == step.ids[k]
            else Holds(s, w, k) && At(Apply(s, step), w, k) == At(s, w, k)
  {
    ClaimsOnlyPending(s, step);
  }

  lemma ClaimKeepsOwned(s: Sys, step: Step)
    requires Owned(s) && step.ClaimStep? && Enabled(s, step)
    ensures Owned(Apply(s, step))
  {
    var s' := Apply(s, step);
    ClaimsOnlyPending(s, step);
    forall w: nat, k: nat | Holds(s', w, k)
      ensures if w == step.worker then k < |step.ids| && At(s', w, k) == step.ids[k]
              else Holds(s, w, k) && At(s', w, k) == At(s, w, k)
      ensures Processed(s'.rows, At(s', w, k))
    {
      ClaimedItems(s, step, w, k);
    }
  }

  /** What any other step leaves to do was to do before it. */
  lemma NothingNewToDo(s: Sys, step: Step, w: nat, k: nat)
    requires !step.ClaimStep? && Enabled(s, step) && Holds(Apply(s, step), w, k)
    ensures Holds(s, w, k) && Apply(s, step).runs[w].batch == s.runs[w].batch
            && s.runs[w].next <= Apply(s, step).runs[w].next
  {
  }

  lemma HeldRowsStay(s: Sys, step: Step, w: nat, k: nat)
    requires Owned(s) && !step.ClaimStep? && Enabled(s, step) && Holds(Apply(s, step), w, k)
    ensures Processed(Apply(s, step).rows, At(Apply(s, step), w, k))
  {
    NothingNewToDo(s, step, w, k);
    assert Processed(s.rows, At(s, w, k));
    if step.JudgeStep? || step.MarkSentStep? || step.MarkFailedStep? {
      assert Holds(s, step.worker, s.runs[step.worker].next);
    }
  }

  lemma StepKeepsOwned(s: Sys, step: Step)
    requires Owned(s) && Enabled(s, step)
    ensures Owned(Apply(s, step))
  {
    if step.ClaimStep? {
      ClaimKeepsOwned(s, step);
    } else {
      var s' := Apply(s, step);
      forall w: nat, k: nat | Holds(s', w, k)
        ensures Holds(s, w, k) && At(s', w, k) == At(s, w, k) && Processed(s'.rows, At(s', w, k))
      {
        NothingNewToDo(s, step, w, k);
        HeldRowsStay(s, step, w, k);
      }
    }
  }

  /** Whether the step calls the messaging provider for row `id`. */
  ghost predicate SendsNow(s: Sys, step: Step, id: nat)
    requires Enabled(s, step)
  {
    step.JudgeStep? && Judge(Head(s, step.worker)).Deliver? && Head(s, step.worker).id == id
  }

  lemma SendsGrow(s: Sys, step: Step, id: nat)
    requires Enabled(s, step)
    ensures SendsOf(Apply(s, step).sends, id) == SendsOf(s.sends, id) + if SendsNow(s, step, id) then 1 else 0
  {
    if step.JudgeStep? {
      JudgingSends(s, step.worker, step.error);
      if Judge(Head(s, step.worker)).Deliver? {
        SendsSnoc(s.sends, Apply(s, step).sends[|s.sends|], id);
      }
    } else {
      assert Apply(s, step).sends == s.sends;
    }
  }

  lemma SendsSnoc(sends: seq<Send>, send: Send, id: nat)
    ensures SendsOf(sends + [send], id) == SendsOf(sends, id) + if send.id == id then 1 else 0
  {
    assert (sends + [send])[..|sends|] == sends;
  }

  /** Judging an item sends it once if it is deliverable, and not at all otherwise. */
  lemma JudgingSends(s: Sys, w: nat, error: Option<string>)
    requires Busy(s, w)
    ensures var sends := ApplyJudge(s, w, error).sends;
            if Judge(Head(s, w)).Deliver? then
              |sends| == |s.sends| + 1 && sends == s.sends + [sends[|s.sends|]]
              && sends[|s.sends|].id == Head(s, w).id && sends[|s.sends|].delivered == error.None?
            else sends == s.sends
  {
  }

  lemma StepKeepsSentSoFar(s: Sys, step: Step, id: nat)
    requires Owned(s) && SentAtMostOnce(s) && Enabled(s, step)
    ensures SentSoFar(Apply(s, step).rows, Apply(s, step).sends, id)
  {
    SendsGrow(s, step, id);
    assert SentSoFar(s.rows, s.sends, id);
    if SendsNow(s, step, id) {
      var w := step.worker;
      assert Untried(s, w, s.runs[w].next) && At(s, w, s.runs[w].next) == id;
    }
    if id < |s.rows| {
      StatusesMoveForward(s, step, id);
    }
  }

  lemma StepKeepsUntried(s: Sys, step: Step, w: nat, k: nat)
    requires Owned(s) && SentAtMostOnce(s) && Enabled(s, step) && Untried(Apply(s, step), w, k)
    ensures SendsOf(Apply(s, step).sends, At(Apply(s, step), w, k)) == 0
  {
    var id := At(Apply(s, step), w, k);
    SendsGrow(s, step, id);
    if step.ClaimStep? && step.worker == w {
      ClaimsOnlyPending(s, step);
      assert SentSoFar(s.rows, s.sends, id);
    } else if step.ClaimStep? {
      assert Untried(s, w, k) && At(s, w, k) == id;
    } else {
      NothingNewToDo(s, step, w, k);
      assert Untried(s, w, k) && At(s, w, k) == id;
      assert step.JudgeStep? ==> Holds(s, step.worker, s.runs[step.worker].next);
    }
  }

  lemma StepKeepsSentAtMostOnce(s: Sys, step: Step)
    requires Owned(s) && SentAtMostOnce(s) && Enabled(s, step)
    ensures SentAtMostOnce(Apply(s, step))
  {
    var s' := Apply(s, step);
    forall id: nat
      ensures SentSoFar(s'.rows, s'.sends, id)
    {
      StepKeepsSentSoFar(s, step, id);
    }
    forall w: nat, k: nat | Untried(s', w, k)
      ensures SendsOf(s'.sends, At(s', w, k)) == 0
    {
      StepKeepsUntried(s, step, w, k);
    }
  }

  lemma DeliveredStays(s: Sys, step: Step, id: nat)
    requires Enabled(s, step) && DeliveredTo(s.sends, id)
    ensures DeliveredTo(Apply(s, step).sends, id)
  {
    var j :| 0 <= j < |s.sends| && s.sends[j].id == id && s.sends[j].delivered;
    assert Apply(s, step).sends[j] == s.sends[j];
  }

  lemma RowSentMeansDelivered(s: Sys, step: Step, i: nat)
    requires Owned(s) && SentMeansDelivered(s) && Enabled(s, step)
    requires i < |Apply(s, step).rows| && Apply(s, step).rows[i].status == Sent
    ensures DeliveredTo(Apply(s, step).sends, i)
  {
    if step.MarkSentStep? && Head(s, step.worker).id == i {
      DeliveredStays(s, step, i);
    } else {
      assert i < |s.rows| && s.rows[i].status == Sent;
      DeliveredStays(s, step, i);
    }
  }

  lemma HeadIsDelivered(s: Sys, step: Step, w: nat)
    requires SentMeansDelivered(s) && Enabled(s, step) && Busy(Apply(s, step), w)
             && Apply(s, step).runs[w].phase.Delivered?
    ensures DeliveredTo(Apply(s, step).sends, Head(Apply(s, step), w).id)
  {
    var s' := Apply(s, step);
    if step.JudgeStep? && step.worker == w {
      var n := |s.sends|;
      assert s'.sends[n].id == Head(s', w).id && s'.sends[n].delivered;
    } else {
      assert Busy(s, w) && s.runs[w] == s'.runs[w];
      DeliveredStays(s, step, Head(s, w).id);
    }
  }

  lemma StepKeepsSentMeansDelivered(s: Sys, step: Step)
    requires Owned(s) && SentMeansDelivered(s) && Enabled(s, step)
    ensures SentMeansDelivered(Apply(s, step))
  {
    var s' := Apply(s, step);
    forall i: nat | i < |s'.rows| && s'.rows[i].status == Sent
      ensures DeliveredTo(s'.sends, i)
    {
      RowSentMeansDelivered(s, step, i);
    }
    forall w | Busy(s', w) && s'.runs[w].phase.Delivered?
      ensures DeliveredTo(s'.sends, Head(s', w).id)
    {
      HeadIsDelivered(s, step, w);
    }
  }

  ghost predicate Safe(s: Sys) {
    Owned(s) && ClaimedOnce(s.rows) && SentAtMostOnce(s) && SentMeansDelivered(s) && PrioritiesAreBinary(s.rows)
  }

  lemma StepKeepsPriorities(s: Sys, step: Step)
    requires Owned(s) && PrioritiesAreBinary(s.rows) && Enabled(s, step)
    ensures PrioritiesAreBinary(Apply(s, step).rows)
  {
  }

  lemma StepKeepsSafe(s: Sys, step: Step)
    requires Safe(s) && Enabled(s, step)
    ensures Safe(Apply(s, step))
  {
    StepKeepsOwned(s, step);
    StepKeepsClaimedOnce(s, step);
    StepKeepsSentAtMostOnce(s, step);
    StepKeepsSentMeansDelivered(s, step);
    StepKeepsPriorities(s, step);
  }

  /** In every run of any number of workers, whatever raises and whoever stops: rows are claimed at most
      once and sent at most once, and a row marked as sent was delivered. */
  lemma {:induction false} ReachableIsSafe(s: Sys, steps: seq<Step>)
    requires Init(s) && Valid(s, steps)
    ensures Safe(RunAll(s, steps))
    decreases |steps|
  {
    if steps != [] {
      ReachableIsSafe(s, steps[..|steps| - 1]);
      StepKeepsSafe(RunAll(s, steps[..|steps| - 1]), steps[|steps| - 1]);
    }
  }
}
