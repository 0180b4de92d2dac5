/** Safety of the outbox for any number of workers. */
module OutboxSafety {
  import opened Common
  import opened OutboxTable
  import opened OutboxProtocol

  /** Position `k` of worker `w`'s queue. */
  ghost predicate Holds(s: Sys, w: nat, k: nat) {
    w in s.runs && k < |s.runs[w].queue|
  }

  ghost function At(s: Sys, w: nat, k: nat): Item
    requires Holds(s, w, k)
  {
    s.runs[w].queue[k]
  }

  ghost predicate Tracks(rows: seq<Row>, item: Item) {
    item.id < |rows| && rows[item.id].status == Processing && item == Snapshot(rows, item.id)
  }

  /** Every queued item is an unchanged row in processing, and no row is queued twice. */
  ghost predicate Ownership(s: Sys) {
    && (forall w, k :: Holds(s, w, k) ==> Tracks(s.table.rows, At(s, w, k)))
    && (forall w, k, v, l :: Holds(s, w, k) && Holds(s, v, l) && At(s, w, k).id == At(s, v, l).id ==> w == v && k == l)
  }

  ghost predicate EntryMatches(t: Table, e: DlqEntry) {
    e.original < |t.rows| && t.rows[e.original].status == Dlq && t.rows[e.original].payload == e.payload
  }

  /** Dead-letter entries and rows in status dlq match one to one, with the same payload. */
  ghost predicate DlqMatches(t: Table) {
    && (forall e :: 0 <= e < |t.dlq| ==> EntryMatches(t, t.dlq[e]))
    && (forall e, f :: 0 <= e < f < |t.dlq| ==> t.dlq[e].original != t.dlq[f].original)
    && (forall i :: 0 <= i < |t.rows| && t.rows[i].status == Dlq ==>
          exists e :: 0 <= e < |t.dlq| && t.dlq[e].original == i)
  }

  ghost predicate AttemptsInRange(rows: seq<Row>) {
    forall i :: 0 <= i < |rows| ==> 0 <= rows[i].attempts < MAX_ATTEMPTS
  }

  ghost predicate Safe(s: Sys) {
    OnePending(s.table.rows) && Ownership(s) && DlqMatches(s.table) && AttemptsInRange(s.table.rows)
  }

  /** A row nobody will touch again: finished, dead, or in processing without an owner. */
  ghost predicate Settled(s: Sys, i: nat) {
    && i < |s.table.rows| && s.table.rows[i].status != Pending
    && (forall w, k :: Holds(s, w, k) ==> At(s, w, k).id != i)
  }

  /** After a claim, queue items are the old ones plus snapshots of rows that were due. */
  lemma ClaimedItem(s: Sys, step: Step, w: nat, k: nat)
    requires step.ClaimStep? && Enabled(s, step) && Holds(Apply(s, step), w, k)
    ensures if w != step.worker then Holds(s, w, k) && At(Apply(s, step), w, k) == At(s, w, k)
            else
              && k < |step.ids| && step.ids[k] in DueRows(s.table.rows, step.at)
              && At(Apply(s, step), w, k) == Snapshot(s.table.rows, step.ids[k])
  {
  }

  lemma ClaimedItemTracks(s: Sys, step: Step, w: nat, k: nat)
    requires Ownership(s) && step.ClaimStep? && Enabled(s, step) && Holds(Apply(s, step), w, k)
    ensures Tracks(Apply(s, step).table.rows, At(Apply(s, step), w, k))
  {
    ClaimedItem(s, step, w, k);
    if w != step.worker {
      assert Tracks(s.table.rows, At(s, w, k));
      assert forall j :: 0 <= j < |step.ids| ==> step.ids[j] in DueRows(s.table.rows, step.at);
    }
  }

  lemma ClaimedItemsDiffer(s: Sys, step: Step, w: nat, k: nat, v: nat, l: nat)
    requires Ownership(s) && step.ClaimStep? && Enabled(s, step) && Holds(Apply(s, step), w, k)
             && Holds(Apply(s, step), v, l)
    requires At(Apply(s, step), w, k).id == At(Apply(s, step), v, l).id
    ensures w == v && k == l
  {
    ClaimedItem(s, step, w, k);
    ClaimedItem(s, step, v, l);
    if w != step.worker {
      assert Tracks(s.table.rows, At(s, w, k));
    }
    if v != step.worker {
      assert Tracks(s.table.rows, At(s, v, l));
    }
  }

  lemma ClaimKeepsOwnership(s: Sys, step: Step)
    requires Ownership(s) && step.ClaimStep? && Enabled(s, step)
    ensures Ownership(Apply(s, step))
  {
    var s' := Apply(s, step);
    forall w: nat, k: nat | Holds(s', w, k)
      ensures Tracks(s'.table.rows, At(s', w, k))
    {
      ClaimedItemTracks(s, step, w, k);
    }
    forall w: nat, k: nat, v: nat, l: nat | Holds(s', w, k) && Holds(s', v, l) && At(s', w, k).id == At(s', v, l).id
      ensures w == v && k == l
    {
      ClaimedItemsDiffer(s, step, w, k, v, l);
    }
  }

  lemma ClaimKeeps(s: Sys, step: Step)
    requires Safe(s) && step.ClaimStep? && Enabled(s, step)
    ensures Safe(Apply(s, step))
  {
    ClaimKeepsOwnership(s, step);
    var t' := Apply(s, step).table;
    assert forall k :: 0 <= k < |step.ids| ==> step.ids[k] in DueRows(s.table.rows, step.at);
    assert forall i :: 0 <= i < |t'.rows| && t'.rows[i].status == Dlq ==> s.table.rows[i] == t'.rows[i];
    assert forall e :: 0 <= e < |t'.dlq| ==> EntryMatches(s.table, t'.dlq[e]);
  }

  /** How many items worker `w` drops in the step. */
  ghost function Dropped(s: Sys, step: Step, w: nat): nat
    requires !step.ClaimStep? && Enabled(s, step) && w in Apply(s, step).runs
  {
    assert w in s.runs;
    |s.runs[w].queue| - |Apply(s, step).runs[w].queue|
  }

  /** An item queued after any other step was queued before it, one place later if its worker advanced. */
  lemma QueuesShrink(s: Sys, step: Step, w: nat, k: nat)
    requires !step.ClaimStep? && Enabled(s, step) && Holds(Apply(s, step), w, k)
    ensures Holds(s, w, k + Dropped(s, step, w)) && At(Apply(s, step), w, k) == At(s, w, k + Dropped(s, step, w))
    ensures Dropped(s, step, w) == 0 || step.worker == w
  {
  }

  /** A step that is not a claim changes at most one row, and none that another place still queues. */
  lemma OneRowChanges(s: Sys, step: Step, w: nat, k: nat)
    requires Ownership(s) && !step.ClaimStep? && Enabled(s, step) && Holds(Apply(s, step), w, k)
    ensures Tracks(Apply(s, step).table.rows, At(Apply(s, step), w, k))
  {
    QueuesShrink(s, step, w, k);
    var item := At(Apply(s, step), w, k);
    assert Tracks(s.table.rows, item);
    if step.DoneStep? || step.FailureStep? {
      assert Holds(s, step.worker, 0);
      assert At(s, step.worker, 0).id != item.id || Dropped(s, step, w) == 0;
    }
  }

  lemma StepKeepsOwnership(s: Sys, step: Step)
    requires Ownership(s) && !step.ClaimStep? && Enabled(s, step)
    ensures Ownership(Apply(s, step))
  {
    var s' := Apply(s, step);
    forall w, k | Holds(s', w, k)
      ensures Tracks(s'.table.rows, At(s', w, k))
    {
      OneRowChanges(s, step, w, k);
    }
    forall w, k, v, l | Holds(s', w, k) && Holds(s', v, l) && At(s', w, k).id == At(s', v, l).id
      ensures w == v && k == l
    {
      QueuesShrink(s, step, w, k);
      QueuesShrink(s, step, v, l);
    }
  }

  lemma MoveKeepsDlq(t: Table, id: nat, error: string, now: Time)
    requires DlqMatches(t) && id < |t.rows| && t.rows[id].status == Processing
    ensures DlqMatches(MoveToDlq(t, id, error, now))
  {
    var t' := MoveToDlq(t, id, error, now);
    assert forall e :: 0 <= e < |t.dlq| ==> t'.dlq[e] == t.dlq[e] && EntryMatches(t, t.dlq[e]);
    assert t'.dlq[|t.dlq|].original == id;
    forall i | 0 <= i < |t'.rows| && t'.rows[i].status == Dlq
      ensures exists e :: 0 <= e < |t'.dlq| && t'.dlq[e].original == i
    {
      if i != id {
        var e :| 0 <= e < |t.dlq| && t.dlq[e].original == i;
        assert t'.dlq[e].original == i;
      }
    }
  }

  /** Rewriting rows without touching the dead ones or making new ones keeps the match. */
  lemma LiveEditKeepsDlq(t: Table, t': Table)
    requires DlqMatches(t) && t'.dlq == t.dlq && |t.rows| <= |t'.rows|
    requires forall i :: 0 <= i < |t'.rows| && t'.rows[i].status == Dlq ==> i < |t.rows| && t.rows[i].status == Dlq
    requires forall i :: 0 <= i < |t.rows| && t.rows[i].status == Dlq ==> t'.rows[i] == t.rows[i]
    ensures DlqMatches(t')
  {
    assert forall e :: 0 <= e < |t.dlq| ==> EntryMatches(t, t.dlq[e]);
  }

  lemma StepKeepsSafe(s: Sys, step: Step)
    requires Safe(s) && Enabled(s, step)
    ensures Safe(Apply(s, step))
  {
    if step.ClaimStep? {
      ClaimKeeps(s, step);
      return;
    }
    StepKeepsOwnership(s, step);
    StepKeepsDlq(s, step);
    StepKeepsPendingAndAttempts(s, step);
  }

  lemma StepKeepsDlq(s: Sys, step: Step)
    requires Safe(s) && !step.ClaimStep? && Enabled(s, step)
    ensures DlqMatches(Apply(s, step).table)
  {
    var t' := Apply(s, step).table;
    if step.DoneStep? || step.FailureStep? {
      var item := At(s, step.worker, 0);
      assert Tracks(s.table.rows, item);
      if t'.dlq != s.table.dlq {
        MoveKeepsDlq(s.table, item.id, s.runs[step.worker].phase.error, step.at);
      } else {
        LiveEditKeepsDlq(s.table, t');
      }
    } else {
      LiveEditKeepsDlq(s.table, t');
    }
  }

  lemma StepKeepsPendingAndAttempts(s: Sys, step: Step)
    requires Safe(s) && !step.ClaimStep? && Enabled(s, step)
    ensures OnePending(Apply(s, step).table.rows) && AttemptsInRange(Apply(s, step).table.rows)
  {
    if step.DoneStep? || step.FailureStep? {
      assert Tracks(s.table.rows, At(s, step.worker, 0));
    }
  }

  lemma SettledRowStays(s: Sys, step: Step, i: nat)
    requires Safe(s) && Enabled(s, step) && Settled(s, i)
    ensures Settled(Apply(s, step), i) && Apply(s, step).table.rows[i] == s.table.rows[i]
  {
    var s' := Apply(s, step);
    if step.ClaimStep? {
      assert forall k :: 0 <= k < |step.ids| ==> step.ids[k] in DueRows(s.table.rows, step.at);
      forall w: nat, k: nat | Holds(s', w, k)
        ensures At(s', w, k).id != i
      {
        ClaimedItem(s, step, w, k);
      }
    } else {
      if step.DoneStep? || step.FailureStep? {
        assert Holds(s, step.worker, 0);
      }
      forall w, k | Holds(s', w, k)
        ensures At(s', w, k).id != i
      {
        QueuesShrink(s, step, w, k);
      }
    }
  }

  /** In every reachable state, for any number of workers: at most one pending row per key, each
      queued row in processing with one owner, dead letters matching the dlq rows one to one with
      their payload, and attempts within 0..2. */
  lemma {:induction false} ReachableIsSafe(s: Sys, steps: seq<Step>)
    requires Safe(s) && Valid(s, steps)
    ensures Safe(RunAll(s, steps))
    decreases |steps|
  {
    if steps != [] {
      StepKeepsSafe(s, steps[0]);
      ReachableIsSafe(Apply(s, steps[0]), steps[1..]);
    }
  }

  lemma InitIsSafe(s: Sys)
    requires Init(s)
    ensures Safe(s)
  {
  }

  /** A settled row is frozen in every continuation. Rows in done or dlq are settled, and so is a row
      left in processing by a run that was cut short: nothing ever reclaims it. */
  lemma {:induction false} SettledIsForever(s: Sys, steps: seq<Step>, i: nat)
    requires Safe(s) && Valid(s, steps) && Settled(s, i)
    ensures Settled(RunAll(s, steps), i) && RunAll(s, steps).table.rows[i] == s.table.rows[i]
    decreases |steps|
  {
    if steps != [] {
      SettledRowStays(s, steps[0], i);
      StepKeepsSafe(s, steps[0]);
      SettledIsForever(Apply(s, steps[0]), steps[1..], i);
    }
  }

  lemma DoneAndDlqAreSettled(s: Sys, i: nat)
    requires Safe(s) && i < |s.table.rows| && s.table.rows[i].status in {Done, Dlq}
    ensures Settled(s, i)
  {
    forall w, k | Holds(s, w, k)
      ensures At(s, w, k).id != i
    {
      assert Tracks(s.table.rows, At(s, w, k));
    }
  }

  /** A failed dispatch below the budget whose row meets a newer pending row of its key: the retry is
      rejected, the run ends, and every row still in its queue is settled in processing. */
  lemma CollisionStrandsTheQueue(s: Sys, w: nat, at: Time, dbDown: bool, k: nat)
    requires Safe(s) && HasFailed(s, w) && s.now <= at && Holds(s, w, k)
    requires At(s, w, 0).attempts + 1 < MAX_ATTEMPTS && RetryCollides(s.table, At(s, w, 0).id)
    ensures var s' := Apply(s, FailureStep(w, dbDown, at));
            s'.table == s.table && w !in s'.runs && Settled(s', At(s, w, k).id)
                && s'.table.rows[At(s, w, k).id].status == Processing
  {
    var s' := Apply(s, FailureStep(w, dbDown, at));
    assert Tracks(s.table.rows, At(s, w, k));
    forall v, l | Holds(s', v, l)
      ensures At(s', v, l).id != At(s, w, k).id
    {
      assert Holds(s, v, l) && v != w;
    }
  }
}
