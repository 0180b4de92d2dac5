/**
 The proviso of the dispatch order is exact: from a state in order, a claim that is not clear has a
 continuation with only clear claims in which an older payload is dispatched after a newer one, and a
 clear claim has none.
 */
module OutboxOverlap {
  import opened Common
  import opened Batching
  import opened OutboxTable
  import opened OutboxProtocol
  import opened OutboxSafety
  import opened OutboxOrder

  /** `steps` is a run from `s` in which every claim is clear. */
  ghost predicate ClearRun(s: Sys, steps: seq<Step>) {
    Valid(s, steps) && ClearClaims(s, steps)
  }

  /** Some run with clear claims dispatches an older payload after a newer one. */
  ghost predicate CanGoBackwards(s: Sys) {
    exists steps :: ClearRun(s, steps) && !NeverBackwards(RunAll(s, steps).log)
  }

  lemma {:induction false} ClearSnoc(s: Sys, steps: seq<Step>, step: Step)
    requires ClearRun(s, steps) && Enabled(RunAll(s, steps), step) && ClaimIsClear(RunAll(s, steps), step)
    ensures ClearRun(s, steps + [step]) && RunAll(s, steps + [step]) == Apply(RunAll(s, steps), step)
    decreases |steps|
  {
    RunSnoc(s, steps, step);
    if steps == [] {
      assert steps + [step] == [step];
    } else {
      ClearSnoc(Apply(s, steps[0]), steps[1..], step);
      assert (steps + [step])[0] == steps[0] && (steps + [step])[1..] == steps[1..] + [step];
    }
  }

  lemma Extend(s: Sys, steps: seq<Step>, step: Step)
    requires Safe(s) && ClearRun(s, steps) && Enabled(RunAll(s, steps), step) && ClaimIsClear(RunAll(s, steps), step)
    ensures ClearRun(s, steps + [step]) && RunAll(s, steps + [step]) == Apply(RunAll(s, steps), step)
    ensures Safe(Apply(RunAll(s, steps), step))
  {
    ClearSnoc(s, steps, step);
    ReachableIsSafe(s, steps + [step]);
  }

  // ----- single steps

  ghost predicate NothingNewPending(t: Table, t': Table) {
    && |t'.rows| == |t.rows|
    && forall i :: 0 <= i < |t.rows| ==>
         t'.rows[i].key == t.rows[i].key && (t'.rows[i].status == Pending ==> t.rows[i].status == Pending)
  }

  /** From `z` to `z'` only worker `w` acted, and no row became pending. */
  ghost predicate Follows(z: Sys, z': Sys, w: nat) {
    && z.log <= z'.log
    && (forall v :: v != w && v in z.runs ==> v in z'.runs && z'.runs[v] == z.runs[v])
    && NothingNewPending(z.table, z'.table)
  }

  ghost predicate EndsWith(log: seq<Dispatch>, item: Item) {
    log != [] && log[|log| - 1].key == item.key && log[|log| - 1].version == item.version
  }

  ghost predicate NoPendingOf(t: Table, key: Key) {
    forall i :: 0 <= i < |t.rows| ==> !IsPendingFor(t.rows[i], key)
  }

  lemma DispatchEffect(z: Sys, w: nat)
    requires Busy(z, w, Ready)
    ensures var step := DispatchStep(w, None, z.now);
            Enabled(z, step)
            && var z' := Apply(z, step);
               && Follows(z, z', w) && EndsWith(z'.log, z.runs[w].queue[0]) && |z'.log| > |z.log|
               && w in z'.runs && z'.runs[w] == Run(z.runs[w].queue, Dispatched)
  {
  }

  lemma DoneEffect(z: Sys, w: nat)
    requires Safe(z) && Busy(z, w, Dispatched)
    ensures var step := DoneStep(w, None, z.now);
            Enabled(z, step)
            && var z' := Apply(z, step);
               Follows(z, z', w) && w in z'.runs && z'.runs[w] == Run(z.runs[w].queue[1..], Ready)
  {
  }

  lemma MarkFails(z: Sys, w: nat)
    requires Busy(z, w, Dispatched)
    ensures var step := DoneStep(w, Some("down"), z.now);
            Enabled(z, step)
            && var z' := Apply(z, step);
               Follows(z, z', w) && w in z'.runs && z'.runs[w] == Run(z.runs[w].queue, Failed("down"))
  {
  }

  /** Unless it is blocked, a failure is dealt with, and retried while the budget lasts. */
  lemma FailureEffect(z: Sys, w: nat)
    requires Safe(z) && HasFailed(z, w) && !Blocked(z, w)
    ensures var step := FailureStep(w, false, z.now);
            Enabled(z, step)
            && var z', item := Apply(z, step), z.runs[w].queue[0];
               && z'.log == z.log && w in z'.runs && z'.runs[w] == Run(z.runs[w].queue[1..], Ready)
               && (item.attempts + 1 < MAX_ATTEMPTS ==>
                     && item.id < |z'.table.rows| && z'.table.rows[item.id].status == Pending
                     && z'.table.rows[item.id].key == item.key && z'.table.rows[item.id].version == item.version)
  {
    assert Holds(z, w, 0) && Tracks(z.table.rows, At(z, w, 0));
  }

  lemma UnblockedStays(z: Sys, z': Sys, v: nat)
    requires Safe(z) && v in z.runs && v in z'.runs && z'.runs[v] == z.runs[v] && NothingNewPending(z.table, z'.table)
    requires !Blocked(z, v)
    ensures !Blocked(z', v)
  {
    if HasFailed(z, v) {
      assert Holds(z, v, 0) && Tracks(z.table.rows, At(z, v, 0));
    }
  }

  /** With no pending row of its own key a worker's first item is not blocked. */
  lemma FreeKeyIsUnblocked(z: Sys, v: nat)
    requires Safe(z) && Holds(z, v, 0) && NoPendingOf(z.table, At(z, v, 0).key)
    ensures !Blocked(z, v)
  {
    assert Tracks(z.table.rows, At(z, v, 0));
  }

  // ----- driving a worker

  lemma DispatchNext(s: Sys, steps: seq<Step>, w: nat) returns (more: seq<Step>)
    requires Safe(s) && ClearRun(s, steps) && Busy(RunAll(s, steps), w, Ready)
    ensures ClearRun(s, more)
    ensures var z, z' := RunAll(s, steps), RunAll(s, more);
            && Safe(z') && Follows(z, z', w) && EndsWith(z'.log, z.runs[w].queue[0]) && |z'.log| > |z.log|
            && w in z'.runs && z'.runs[w] == Run(z.runs[w].queue, Dispatched)
  {
    var z := RunAll(s, steps);
    DispatchEffect(z, w);
    Extend(s, steps, DispatchStep(w, None, z.now));
    more := steps + [DispatchStep(w, None, z.now)];
  }

  lemma FinishDispatched(s: Sys, steps: seq<Step>, w: nat) returns (more: seq<Step>)
    requires Safe(s) && ClearRun(s, steps) && Safe(RunAll(s, steps)) && Busy(RunAll(s, steps), w, Dispatched)
    ensures ClearRun(s, more)
    ensures var z, z' := RunAll(s, steps), RunAll(s, more);
            && Safe(z') && Follows(z, z', w) && w in z'.runs && z'.runs[w] == Run(z.runs[w].queue[1..], Ready)
  {
    var z := RunAll(s, steps);
    DoneEffect(z, w);
    Extend(s, steps, DoneStep(w, None, z.now));
    more := steps + [DoneStep(w, None, z.now)];
  }

  lemma FinishFailed(s: Sys, steps: seq<Step>, w: nat) returns (more: seq<Step>)
    requires Safe(s) && ClearRun(s, steps) && Safe(RunAll(s, steps))
    requires HasFailed(RunAll(s, steps), w) && !Blocked(RunAll(s, steps), w)
    ensures ClearRun(s, more)
    ensures var z, z' := RunAll(s, steps), RunAll(s, more);
            var item := z.runs[w].queue[0];
            && Safe(z') && z'.log == z.log && w in z'.runs && z'.runs[w] == Run(z.runs[w].queue[1..], Ready)
            && (item.attempts + 1 < MAX_ATTEMPTS ==>
                  && item.id < |z'.table.rows| && z'.table.rows[item.id].status == Pending
                  && z'.table.rows[item.id].key == item.key && z'.table.rows[item.id].version == item.version)
  {
    var z := RunAll(s, steps);
    FailureEffect(z, w);
    Extend(s, steps, FailureStep(w, false, z.now));
    more := steps + [FailureStep(w, false, z.now)];
  }

  lemma FinishHead(s: Sys, steps: seq<Step>, w: nat) returns (more: seq<Step>)
    requires Safe(s) && ClearRun(s, steps) && Safe(RunAll(s, steps)) && !Blocked(RunAll(s, steps), w)
    requires Busy(RunAll(s, steps), w, Dispatched) || HasFailed(RunAll(s, steps), w)
    ensures ClearRun(s, more)
    ensures var z, z' := RunAll(s, steps), RunAll(s, more);
            z.log <= z'.log && w in z'.runs && z'.runs[w] == Run(z.runs[w].queue[1..], Ready)
  {
    if RunAll(s, steps).runs[w].phase == Dispatched {
      more := FinishDispatched(s, steps, w);
    } else {
      more := FinishFailed(s, steps, w);
    }
  }

  lemma ItemMovesUp(z: Sys, z': Sys, w: nat, k: nat)
    requires Holds(z, w, k) && k > 0 && w in z'.runs && z'.runs[w] == Run(z.runs[w].queue[1..], Ready)
    ensures Holds(z', w, k - 1) && At(z', w, k - 1) == At(z, w, k)
  {
  }

  /** Worker `w` got as far as the dispatch of `item`. */
  ghost predicate Drove(z: Sys, z': Sys, w: nat, item: Item) {
    Follows(z, z', w) && EndsWith(z'.log, item) && |z'.log| > |z.log|
  }

  lemma DroveOn(z: Sys, z1: Sys, z2: Sys, w: nat, item: Item)
    requires Follows(z, z1, w) && Drove(z1, z2, w, item)
    ensures Drove(z, z2, w, item)
  {
    FollowsOn(z, z1, z2, w);
  }

  lemma FollowsOn(z: Sys, z1: Sys, z2: Sys, w: nat)
    requires Follows(z, z1, w) && Follows(z1, z2, w)
    ensures Follows(z, z2, w)
  {
  }

  /** A ready worker dispatches its first item and marks it as done. */
  lemma PassHead(s: Sys, steps: seq<Step>, w: nat) returns (more: seq<Step>)
    requires Safe(s) && ClearRun(s, steps) && Busy(RunAll(s, steps), w, Ready)
    ensures ClearRun(s, more)
    ensures var z, z' := RunAll(s, steps), RunAll(s, more);
            Follows(z, z', w) && w in z'.runs && z'.runs[w] == Run(z.runs[w].queue[1..], Ready)
  {
    var sent := DispatchNext(s, steps, w);
    more := FinishDispatched(s, sent, w);
    FollowsOn(RunAll(s, steps), RunAll(s, sent), RunAll(s, more), w);
  }

  /** A ready worker gets through its queue up to the dispatch of item `k`. */
  lemma {:induction false} DriveTo(s: Sys, steps: seq<Step>, w: nat, k: nat) returns (more: seq<Step>)
    requires Safe(s) && ClearRun(s, steps)
    requires var z := RunAll(s, steps); Holds(z, w, k) && z.runs[w].phase == Ready
    ensures ClearRun(s, more) && Drove(RunAll(s, steps), RunAll(s, more), w, At(RunAll(s, steps), w, k))
    decreases k
  {
    if k == 0 {
      more := DispatchNext(s, steps, w);
    } else {
      var passed := PassHead(s, steps, w);
      ItemMovesUp(RunAll(s, steps), RunAll(s, passed), w, k);
      more := DriveTo(s, passed, w, k - 1);
      DroveOn(RunAll(s, steps), RunAll(s, passed), RunAll(s, more), w, At(RunAll(s, steps), w, k));
    }
  }

  /** Every open run ends, and the tables stay as they are. */
  lemma {:induction false} EndAllRuns(s: Sys, steps: seq<Step>) returns (more: seq<Step>)
    requires Safe(s) && ClearRun(s, steps)
    ensures ClearRun(s, more)
    ensures RunAll(s, more).runs == map[] && RunAll(s, more).table == RunAll(s, steps).table
    ensures RunAll(s, more).log == RunAll(s, steps).log
    decreases |RunAll(s, steps).runs|
  {
    var z := RunAll(s, steps);
    more := steps;
    if z.runs != map[] {
      var w :| w in z.runs;
      var step := FinishStep(w, z.now);
      Extend(s, steps, step);
      OneRunFewer(z.runs, w);
      more := EndAllRuns(s, steps + [step]);
    }
  }

  lemma OneRunFewer(runs: map<nat, Run>, w: nat)
    requires w in runs
    ensures |runs - {w}| < |runs|
  {
    assert (runs - {w}).Keys == runs.Keys - {w};
  }

  /** A time at which every pending row is due. */
  lemma {:induction false} AllDue(rows: seq<Row>, now: Time) returns (t: Time)
    ensures now <= t && forall i :: 0 <= i < |rows| && rows[i].status == Pending ==> IsDue(rows[i], t)
  {
    if rows == [] {
      t := now;
    } else {
      t := AllDue(rows[..|rows| - 1], now);
      var last := rows[|rows| - 1];
      if last.nextRetryAt.Some? && t < last.nextRetryAt.value {
        t := last.nextRetryAt.value;
      }
      assert forall i :: 0 <= i < |rows| - 1 ==> rows[..|rows| - 1][i] == rows[i];
    }
  }

  /** With no run open a worker claims every pending row. */
  lemma ClaimEverything(z: Sys) returns (step: Step)
    requires z.runs == map[]
    ensures step.ClaimStep? && Enabled(z, step) && ClaimIsClear(z, step)
    ensures forall i :: 0 <= i < |z.table.rows| && z.table.rows[i].status == Pending ==> i in step.ids
  {
    var t := AllDue(z.table.rows, z.now);
    var due := DueRows(z.table.rows, t);
    var ids := FullBatch(ClaimRanks(z.table.rows), due);
    step := ClaimStep(0, ids, |due|, t);
    assert forall i: nat :: i < |z.table.rows| && z.table.rows[i].status == Pending ==> i in due;
  }

  // ----- an older item after a newer one

  /** The newer payload went out last in `before`, and the older one is still to come. */
  ghost predicate Awaits(z: Sys, before: seq<Dispatch>, newer: Item, older: Item) {
    before <= z.log && EndsWith(before, newer) && newer.key == older.key && older.version < newer.version
  }

  lemma GoesBackwards(s: Sys, steps: seq<Step>, before: seq<Dispatch>, newer: Item, older: Item)
    requires ClearRun(s, steps) && Awaits(RunAll(s, steps), before, newer, older)
    requires EndsWith(RunAll(s, steps).log, older) && |before| < |RunAll(s, steps).log|
    ensures CanGoBackwards(s)
  {
    var log := RunAll(s, steps).log;
    assert log[|before| - 1] == before[|before| - 1];
    assert log[|before| - 1].key == log[|log| - 1].key && log[|before| - 1].version > log[|log| - 1].version;
  }

  /** A ready worker that can get to the older item sends it. */
  lemma ReadyWorkerSendsOlder(s: Sys, steps: seq<Step>, v: nat, l: nat, before: seq<Dispatch>, newer: Item)
    requires Safe(s) && ClearRun(s, steps)
    requires var z := RunAll(s, steps);
             Holds(z, v, l) && z.runs[v].phase == Ready && Awaits(z, before, newer, At(z, v, l))
    ensures CanGoBackwards(s)
  {
    var older := At(RunAll(s, steps), v, l);
    var more := DriveTo(s, steps, v, l);
    GoesBackwards(s, more, before, newer, older);
  }

  /** The same when the worker first has to finish with another item. */
  lemma BusyWorkerSendsOlder(s: Sys, steps: seq<Step>, v: nat, l: nat, before: seq<Dispatch>, newer: Item)
    requires Safe(s) && ClearRun(s, steps)
    requires var z := RunAll(s, steps);
             && Safe(z) && !Blocked(z, v) && Holds(z, v, l) && l > 0 && z.runs[v].phase != Ready
             && Awaits(z, before, newer, At(z, v, l))
    ensures CanGoBackwards(s)
  {
    var more := FinishHead(s, steps, v);
    ItemMovesUp(RunAll(s, steps), RunAll(s, more), v, l);
    ReadyWorkerSendsOlder(s, more, v, l - 1, before, newer);
  }

  /** The older payload is back in a pending row: all runs end, and the next claim takes it. */
  lemma PendingRowGoesOut(s: Sys, steps: seq<Step>, id: nat, before: seq<Dispatch>, newer: Item)
    requires Safe(s) && ClearRun(s, steps)
    requires var z := RunAll(s, steps);
             && id < |z.table.rows| && z.table.rows[id].status == Pending
             && Awaits(z, before, newer, Snapshot(z.table.rows, id))
    ensures CanGoBackwards(s)
  {
    var ended := EndAllRuns(s, steps);
    var z := RunAll(s, ended);
    var claim := ClaimEverything(z);
    Extend(s, ended, claim);
    var k := ClaimedPosition(z, claim, id);
    ReadyWorkerSendsOlder(s, ended + [claim], claim.worker, k, before, newer);
  }

  lemma ClaimedPosition(s: Sys, step: Step, i: nat) returns (k: nat)
    requires step.ClaimStep? && Enabled(s, step) && i in step.ids
    ensures i < |s.table.rows| && s.table.rows[i].status == Pending
    ensures Holds(Apply(s, step), step.worker, k) && At(Apply(s, step), step.worker, k) == Snapshot(s.table.rows, i)
    ensures Apply(s, step).runs[step.worker].phase == Ready
  {
    k :| k < |step.ids| && step.ids[k] == i;
    assert step.ids[k] in DueRows(s.table.rows, step.at);
  }

  /** The older item has been dispatched and failed, and may be tried again. */
  lemma RetrySendsOlder(s: Sys, steps: seq<Step>, v: nat, before: seq<Dispatch>, newer: Item)
    requires Safe(s) && ClearRun(s, steps)
    requires var z := RunAll(s, steps);
             && Safe(z) && HasFailed(z, v) && !Blocked(z, v) && At(z, v, 0).attempts + 1 < MAX_ATTEMPTS
             && Awaits(z, before, newer, At(z, v, 0))
    ensures CanGoBackwards(s)
  {
    var id := At(RunAll(s, steps), v, 0).id;
    var more := FinishFailed(s, steps, v);
    PendingRowGoesOut(s, more, id, before, newer);
  }

  /** The older item has been dispatched: marking it as done fails, and it is tried again. */
  lemma MarkFailsThenRetry(s: Sys, steps: seq<Step>, v: nat, before: seq<Dispatch>, newer: Item)
    requires Safe(s) && ClearRun(s, steps)
    requires var z := RunAll(s, steps);
             && Safe(z) && Busy(z, v, Dispatched) && At(z, v, 0).attempts + 1 < MAX_ATTEMPTS
             && NoPendingOf(z.table, At(z, v, 0).key) && Awaits(z, before, newer, At(z, v, 0))
    ensures CanGoBackwards(s)
  {
    var z := RunAll(s, steps);
    var step := DoneStep(v, Some("down"), z.now);
    MarkFails(z, v);
    Extend(s, steps, step);
    FreeKeyIsUnblocked(RunAll(s, steps + [step]), v);
    RetrySendsOlder(s, steps + [step], v, before, newer);
  }

  /** Whatever its worker is up to, a live older item can follow the newer one once no row of its key is pending. */
  lemma LiveItemCanFollow(s: Sys, steps: seq<Step>, v: nat, l: nat, before: seq<Dispatch>, newer: Item)
    requires Safe(s) && ClearRun(s, steps)
    requires var z := RunAll(s, steps);
             && Safe(z) && Live(z, v, l) && NoPendingOf(z.table, At(z, v, l).key)
             && Awaits(z, before, newer, At(z, v, l))
    ensures CanGoBackwards(s)
  {
    var z := RunAll(s, steps);
    if z.runs[v].phase == Ready {
      ReadyWorkerSendsOlder(s, steps, v, l, before, newer);
    } else if l > 0 {
      BusyWorkerSendsOlder(s, steps, v, l, before, newer);
    } else if z.runs[v].phase == Dispatched {
      MarkFailsThenRetry(s, steps, v, before, newer);
    } else {
      FreeKeyIsUnblocked(z, v);
      RetrySendsOlder(s, steps, v, before, newer);
    }
  }

  lemma LiveItemsStay(z: Sys, z': Sys, v: nat, l: nat)
    requires Safe(z) && Live(z, v, l) && v in z'.runs && z'.runs[v] == z.runs[v] && NothingNewPending(z.table, z'.table)
    ensures Live(z', v, l) && At(z', v, l) == At(z, v, l)
    ensures NoPendingOf(z.table, At(z, v, l).key) ==> NoPendingOf(z'.table, At(z, v, l).key)
  {
    if !Blocked(z, v) {
      UnblockedStays(z, z', v);
    }
  }

  /** Two live items of one key, of which no row is pending: the newer one at a ready worker, the older one at
      another. */
  lemma TwoLiveItemsCanSwap(s: Sys, w: nat, k: nat, v: nat, l: nat)
    requires Safe(s) && w != v && Holds(s, w, k) && s.runs[w].phase == Ready && Live(s, v, l)
    requires At(s, w, k).key == At(s, v, l).key && At(s, v, l).version < At(s, w, k).version
    requires NoPendingOf(s.table, At(s, v, l).key)
    ensures CanGoBackwards(s)
  {
    var newer := At(s, w, k);
    var sent := DriveTo(s, [], w, k);
    ReachableIsSafe(s, sent);
    var z := RunAll(s, sent);
    LiveItemsStay(s, z, v, l);
    LiveItemCanFollow(s, sent, v, l, z.log, newer);
  }

  // ----- claims

  lemma ClaimLeavesNoPending(s: Sys, step: Step, i: nat)
    requires Safe(s) && step.ClaimStep? && Enabled(s, step) && i in step.ids && i < |s.table.rows|
    requires s.table.rows[i].status == Pending
    ensures NoPendingOf(Apply(s, step).table, s.table.rows[i].key)
    ensures NothingNewPending(s.table, Apply(s, step).table)
  {
    assert forall k :: 0 <= k < |step.ids| ==> step.ids[k] in DueRows(s.table.rows, step.at);
  }

  /** From a state in order, a claim that is not clear can be followed, with clear claims only, by an older
      payload after a newer one. */
  lemma UnclearClaimCanGoBackwards(s: Sys, step: Step)
    requires Ordered(s) && step.ClaimStep? && Enabled(s, step) && !ClaimIsClear(s, step)
    ensures CanGoBackwards(Apply(s, step))
  {
    var s' := Apply(s, step);
    var v, l, i :| Live(s, v, l) && i in step.ids && i < |s.table.rows| && At(s, v, l).key == s.table.rows[i].key;
    var k := ClaimedPosition(s, step, i);
    ClaimLeavesNoPending(s, step, i);
    LiveItemsStay(s, s', v, l);
    LiveIsOlder(s, v, l, i);
    StepKeepsSafe(s, step);
    TwoLiveItemsCanSwap(s', step.worker, k, v, l);
  }

  lemma LiveIsOlder(s: Sys, v: nat, l: nat, i: nat)
    requires Ordered(s) && Live(s, v, l) && i < |s.table.rows| && IsPendingFor(s.table.rows[i], At(s, v, l).key)
    ensures At(s, v, l).version < s.table.rows[i].version
  {
  }

  lemma OrderedCannotGoBackwards(s: Sys)
    requires Ordered(s)
    ensures !CanGoBackwards(s)
  {
    forall steps | ClearRun(s, steps)
      ensures NeverBackwards(RunAll(s, steps).log)
    {
      ReachableIsOrdered(s, steps);
    }
  }

  /** From a state in order, a claim is clear exactly when no run with clear claims after it dispatches an older
      payload after a newer one. */
  lemma ClaimIsHarmlessIff(s: Sys, step: Step)
    requires Ordered(s) && step.ClaimStep? && Enabled(s, step)
    ensures ClaimIsClear(s, step) <==> !CanGoBackwards(Apply(s, step))
  {
    if ClaimIsClear(s, step) {
      StepKeepsOrder(s, step);
      OrderedCannotGoBackwards(Apply(s, step));
    } else {
      UnclearClaimCanGoBackwards(s, step);
    }
  }

  /** The same in every run from empty tables whose claims so far were clear. */
  lemma ReachableClaimIsHarmlessIff(s: Sys, steps: seq<Step>, step: Step)
    requires Init(s) && ClearRun(s, steps) && step.ClaimStep? && Enabled(RunAll(s, steps), step)
    ensures ClaimIsClear(RunAll(s, steps), step) <==> !CanGoBackwards(Apply(RunAll(s, steps), step))
  {
    ReachableIsOrdered(s, steps);
    ClaimIsHarmlessIff(RunAll(s, steps), step);
  }
}
