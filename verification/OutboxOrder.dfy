/**
 Dispatch order: payload versions of a key never go backwards, as long as no claim takes a row of a key
 that another open run may still dispatch. One worker run at a time is a special case.
 */
module OutboxOrder {
  import opened Common
  import opened OutboxTable
  import opened OutboxProtocol
  import opened OutboxSafety
  import opened OutboxRetries

  /** For each key the dispatched versions never decrease. */
  ghost predicate NeverBackwards(log: seq<Dispatch>) {
    forall e, f :: 0 <= e < f < |log| && log[e].key == log[f].key ==> log[e].version <= log[f].version
  }

  /** The first item of worker `w` has failed, and its retry meets a newer pending row of its key. */
  ghost predicate Blocked(s: Sys, w: nat) {
    HasFailed(s, w) && At(s, w, 0).attempts + 1 < MAX_ATTEMPTS && RetryCollides(s.table, At(s, w, 0).id)
  }

  /** Position `k` of worker `w`'s queue may still be dispatched, now or after a retry. An item behind a
      blocked one is not: the run ends before it is reached. */
  ghost predicate Live(s: Sys, w: nat, k: nat) {
    && Holds(s, w, k) && (Undispatched(s, w, k) || At(s, w, k).attempts + 1 < MAX_ATTEMPTS)
    && (k > 0 ==> !Blocked(s, w))
  }

  /** No claimed row has the key of an item that is still live in an open run. */
  ghost predicate ClaimIsClear(s: Sys, step: Step) {
    step.ClaimStep? ==>
      forall w, k, i :: Live(s, w, k) && i in step.ids && i < |s.table.rows| ==> At(s, w, k).key != s.table.rows[i].key
  }

  /** Nothing that can still be dispatched for a key is older than what already was. */
  ghost predicate LogIsOldest(s: Sys) {
    && (forall e, i :: 0 <= e < |s.log| && 0 <= i < |s.table.rows| && IsPendingFor(s.table.rows[i], s.log[e].key) ==>
          s.log[e].version <= s.table.rows[i].version)
    && (forall e, w, k :: 0 <= e < |s.log| && Live(s, w, k) && At(s, w, k).key == s.log[e].key ==>
          s.log[e].version <= At(s, w, k).version)
  }

  /** A live item is older than the pending row of its key, and the only live one of its key. */
  ghost predicate QueueIsOlder(s: Sys) {
    && (forall w, k, i :: Live(s, w, k) && 0 <= i < |s.table.rows| && IsPendingFor(s.table.rows[i], At(s, w, k).key) ==>
          At(s, w, k).version < s.table.rows[i].version)
    && (forall w, k, v, l :: Live(s, w, k) && Live(s, v, l) && At(s, w, k).key == At(s, v, l).key ==> w == v && k == l)
  }

  ghost predicate Ordered(s: Sys) {
    Safe(s) && VersionsDiffer(s) && NeverBackwards(s.log) && LogIsOldest(s) && QueueIsOlder(s)
  }

  lemma ItemsAreVersioned(s: Sys, w: nat, k: nat)
    requires Ordered(s) && Holds(s, w, k)
    ensures At(s, w, k).version < s.enqueued
  {
    assert Tracks(s.table.rows, At(s, w, k));
  }

  /** The part of the invariant that is about who may still be dispatched. */
  ghost predicate Lined(s: Sys) {
    NeverBackwards(s.log) && LogIsOldest(s) && QueueIsOlder(s)
  }

  lemma CollisionStays(t: Table, t': Table, id: nat)
    requires RetryCollides(t, id) && |t.rows| <= |t'.rows| && t'.rows[id].key == t.rows[id].key
    requires forall j :: 0 <= j < |t.rows| && IsPendingFor(t.rows[j], t.rows[id].key) ==>
               IsPendingFor(t'.rows[j], t.rows[id].key)
    ensures RetryCollides(t', id)
  {
  }

  /** A blocked worker stays blocked until its run ends, as long as claims are clear. */
  lemma BlockedStays(s: Sys, step: Step, v: nat)
    requires Safe(s) && Enabled(s, step) && ClaimIsClear(s, step) && Blocked(s, v) && v in Apply(s, step).runs
    ensures Apply(s, step).runs[v] == s.runs[v] && Blocked(Apply(s, step), v)
  {
    var id := At(s, v, 0).id;
    assert Tracks(s.table.rows, At(s, v, 0));
    if step.ClaimStep? {
      assert Live(s, v, 0);
    } else if step.DoneStep? || step.FailureStep? {
      assert Tracks(s.table.rows, At(s, step.worker, 0));
    }
    CollisionStays(s.table, Apply(s, step).table, id);
  }

  /** One row rewritten or added as pending with a version newer than everything keeps the rest lined up. */
  lemma FreshPendingKeepsLined(s: Sys, s': Sys, i: nat)
    requires Ordered(s) && s'.log == s.log && s'.runs == s.runs && OnePending(s'.table.rows)
    requires i < |s'.table.rows| && s'.table.rows[i].version == s.enqueued
    requires forall j :: 0 <= j < |s'.table.rows| && j != i ==>
               j < |s.table.rows| && s'.table.rows[j] == s.table.rows[j]
    requires forall w :: Blocked(s, w) ==> Blocked(s', w)
    ensures Lined(s')
  {
    forall w: nat, k: nat | Live(s', w, k)
      ensures Live(s, w, k) && At(s', w, k) == At(s, w, k) && At(s, w, k).version < s.enqueued
    {
      ItemsAreVersioned(s, w, k);
    }
  }

  lemma EnqueueKeepsOrder(s: Sys, step: Step)
    requires Ordered(s) && step.EnqueueStep? && Enabled(s, step)
    ensures VersionsDiffer(Apply(s, step)) && Lined(Apply(s, step))
  {
    StepKeepsSafe(s, step);
    var found := PendingFrom(s.table.rows, step.key, 0);
    forall w | Blocked(s, w)
      ensures Blocked(Apply(s, step), w)
    {
      BlockedStays(s, step, w);
    }
    FreshPendingKeepsLined(s, Apply(s, step), if found.Some? then found.value else |s.table.rows|);
  }

  /** The live item comes from a row that was pending, whose key no other live item has. */
  ghost predicate Fresh(s: Sys, s': Sys, w: nat, k: nat)
    requires Live(s', w, k)
  {
    var item := At(s', w, k);
    && item.id < |s.table.rows| && s.table.rows[item.id].status == Pending && item == Snapshot(s.table.rows, item.id)
    && (forall v, l :: Live(s, v, l) ==> At(s, v, l).key != item.key)
  }

  ghost predicate Kept(s: Sys, s': Sys, w: nat, k: nat)
    requires Live(s', w, k)
  {
    Live(s, w, k) && At(s', w, k) == At(s, w, k)
  }

  /** Live items that are kept, or come from pending rows of keys free of live items, stay lined up. */
  lemma TakingPendingRowsKeepsLined(s: Sys, s': Sys)
    requires Ordered(s) && s'.log == s.log && |s'.table.rows| == |s.table.rows| && Ownership(s')
    requires forall i :: 0 <= i < |s'.table.rows| && s'.table.rows[i].status == Pending ==>
               s'.table.rows[i] == s.table.rows[i]
    requires forall w, k :: Live(s', w, k) ==> Kept(s, s', w, k) || Fresh(s, s', w, k)
    ensures Lined(s')
  {
    FreshItemsAreOldest(s, s');
    FreshItemsAreAlone(s, s');
  }

  lemma FreshItemsAreOldest(s: Sys, s': Sys)
    requires Ordered(s) && s'.log == s.log && |s'.table.rows| == |s.table.rows| && Ownership(s')
    requires forall i :: 0 <= i < |s'.table.rows| && s'.table.rows[i].status == Pending ==>
               s'.table.rows[i] == s.table.rows[i]
    requires forall w, k :: Live(s', w, k) ==> Kept(s, s', w, k) || Fresh(s, s', w, k)
    ensures LogIsOldest(s')
    ensures forall w, k, i ::
              Live(s', w, k) && 0 <= i < |s'.table.rows| && IsPendingFor(s'.table.rows[i], At(s', w, k).key) ==>
              At(s', w, k).version < s'.table.rows[i].version
  {
    assert forall w, k :: Holds(s', w, k) ==> Tracks(s'.table.rows, At(s', w, k));
  }

  lemma FreshItemsAreAlone(s: Sys, s': Sys)
    requires Ordered(s) && |s'.table.rows| == |s.table.rows| && Ownership(s')
    requires forall w, k :: Live(s', w, k) ==> Kept(s, s', w, k) || Fresh(s, s', w, k)
    ensures forall w, k, v, l :: Live(s', w, k) && Live(s', v, l) && At(s', w, k).key == At(s', v, l).key ==>
              w == v && k == l
  {
    forall w: nat, k: nat, v: nat, l: nat | Live(s', w, k) && Live(s', v, l) && At(s', w, k).key == At(s', v, l).key
      ensures w == v && k == l
    {
      if Kept(s, s', w, k) && Kept(s, s', v, l) {
        assert At(s, w, k).key == At(s, v, l).key;
      } else if Kept(s, s', w, k) || Kept(s, s', v, l) {
        assert false;
      } else {
        assert At(s', w, k).id == At(s', v, l).id;
      }
    }
  }

  lemma ClaimedItemIsKeptOrFresh(s: Sys, step: Step, w: nat, k: nat)
    requires Ordered(s) && step.ClaimStep? && Enabled(s, step) && ClaimIsClear(s, step) && Live(Apply(s, step), w, k)
    ensures Kept(s, Apply(s, step), w, k) || Fresh(s, Apply(s, step), w, k)
  {
    ClaimedItem(s, step, w, k);
    if w == step.worker {
      assert step.ids[k] in step.ids;
    } else if Blocked(s, w) {
      BlockedStays(s, step, w);
    }
  }

  lemma ClaimKeepsOrder(s: Sys, step: Step)
    requires Ordered(s) && step.ClaimStep? && Enabled(s, step) && ClaimIsClear(s, step)
    ensures VersionsDiffer(Apply(s, step)) && Lined(Apply(s, step))
  {
    var s' := Apply(s, step);
    ClaimKeepsOwnership(s, step);
    forall w: nat, k: nat | Live(s', w, k)
      ensures Kept(s, s', w, k) || Fresh(s, s', w, k)
    {
      ClaimedItemIsKeptOrFresh(s, step, w, k);
    }
    TakingPendingRowsKeepsLined(s, s');
  }

  lemma DispatchKeepsOrder(s: Sys, step: Step)
    requires Ordered(s) && step.DispatchStep? && Enabled(s, step)
    ensures VersionsDiffer(Apply(s, step)) && Lined(Apply(s, step))
  {
    var s' := Apply(s, step);
    ItemsAreVersioned(s, step.worker, 0);
    forall v: nat, l: nat | Live(s', v, l)
      ensures Live(s, v, l) && At(s', v, l) == At(s, v, l)
    {
      if Blocked(s, v) {
        BlockedStays(s, step, v);
      }
    }
    LoggingTheHeadKeepsLined(s, s', step.worker);
  }

  lemma LoggingTheHeadKeepsLined(s: Sys, s': Sys, w: nat)
    requires Ordered(s) && Live(s, w, 0) && s'.table == s.table
    requires |s'.log| == |s.log| + 1 && s'.log[..|s.log|] == s.log
    requires s'.log[|s.log|].key == At(s, w, 0).key && s'.log[|s.log|].version == At(s, w, 0).version
    requires forall v, l :: Live(s', v, l) ==> Live(s, v, l) && At(s', v, l) == At(s, v, l)
    ensures Lined(s')
  {
    assert forall e :: 0 <= e < |s.log| ==> s'.log[e] == s.log[e];
  }

  /** Dropping queued items, of which at most the live first of worker `w` became pending, keeps the rest lined up. */
  lemma ReturningTheHeadKeepsLined(s: Sys, s': Sys, w: nat)
    requires Ordered(s) && s'.log == s.log && |s'.table.rows| == |s.table.rows|
    requires forall i :: 0 <= i < |s'.table.rows| ==>
               s'.table.rows[i].key == s.table.rows[i].key && s'.table.rows[i].version == s.table.rows[i].version
    requires forall v: nat, l: nat :: Live(s', v, l) ==>
               exists m: nat :: l <= m && Live(s, v, m) && At(s', v, l) == At(s, v, m)
    requires forall v: nat, l: nat, m: nat :: Live(s', v, l) && Live(s', v, m) && At(s', v, l) == At(s', v, m) ==>
               l == m
    requires forall i ::
               0 <= i < |s'.table.rows| && s'.table.rows[i].status == Pending && s.table.rows[i].status != Pending ==>
               Live(s, w, 0) && At(s, w, 0) == Snapshot(s.table.rows, i)
               && (forall v: nat, l: nat :: Live(s', v, l) ==> At(s', v, l).id != i)
    ensures Lined(s')
  {
  }

  /** A row keeps its key and version, and only the one just dealt with may return to pending, with no place in
      a queue left. */
  lemma HandledRow(s: Sys, step: Step, i: nat)
    requires Ordered(s) && Handles(step) && Enabled(s, step) && i < |s.table.rows|
             && |Apply(s, step).table.rows| == |s.table.rows|
    requires Ownership(Apply(s, step))
    ensures var s' := Apply(s, step);
            && s'.table.rows[i].key == s.table.rows[i].key && s'.table.rows[i].version == s.table.rows[i].version
            && (s'.table.rows[i].status == Pending && s.table.rows[i].status != Pending ==>
                  Live(s, step.worker, 0) && At(s, step.worker, 0) == Snapshot(s.table.rows, i)
                  && (forall v: nat, l: nat :: Live(s', v, l) ==> At(s', v, l).id != i))
  {
    var s' := Apply(s, step);
    if s'.table.rows[i] != s.table.rows[i] {
      assert Tracks(s.table.rows, At(s, step.worker, 0));
    }
    if s'.table.rows[i].status == Pending {
      assert forall v: nat, l: nat :: Holds(s', v, l) ==> Tracks(s'.table.rows, At(s', v, l));
    }
  }

  lemma HandledItemIsLive(s: Sys, step: Step, w: nat, k: nat)
    requires Safe(s) && Handles(step) && Enabled(s, step) && Live(Apply(s, step), w, k)
    ensures Live(s, w, k + Dropped(s, step, w)) && At(Apply(s, step), w, k) == At(s, w, k + Dropped(s, step, w))
  {
    HandledItems(s, step, w, k);
    if Blocked(s, w) {
      BlockedStays(s, step, w);
    }
  }

  lemma HandlingKeepsOrder(s: Sys, step: Step)
    requires Ordered(s) && Handles(step) && Enabled(s, step)
    ensures VersionsDiffer(Apply(s, step)) && Lined(Apply(s, step))
  {
    var s' := Apply(s, step);
    forall w: nat, k: nat | Live(s', w, k)
      ensures Live(s, w, k + Dropped(s, step, w)) && At(s', w, k) == At(s, w, k + Dropped(s, step, w))
    {
      HandledItemIsLive(s, step, w, k);
    }
    StepKeepsOwnership(s, step);
    forall i | 0 <= i < |s'.table.rows|
      ensures s'.table.rows[i].key == s.table.rows[i].key && s'.table.rows[i].version == s.table.rows[i].version
      ensures s'.table.rows[i].status == Pending && s.table.rows[i].status != Pending ==>
                Live(s, step.worker, 0) && At(s, step.worker, 0) == Snapshot(s.table.rows, i)
                && (forall v: nat, l: nat :: Live(s', v, l) ==> At(s', v, l).id != i)
    {
      HandledRow(s, step, i);
    }
    ReturningTheHeadKeepsLined(s, s', step.worker);
  }

  lemma StepKeepsOrder(s: Sys, step: Step)
    requires Ordered(s) && Enabled(s, step) && ClaimIsClear(s, step)
    ensures Ordered(Apply(s, step))
  {
    StepKeepsSafe(s, step);
    match step
    case EnqueueStep(_, _, _) => EnqueueKeepsOrder(s, step);
    case ClaimStep(_, _, _, _) => ClaimKeepsOrder(s, step);
    case DispatchStep(_, _, _) => DispatchKeepsOrder(s, step);
    case _ => HandlingKeepsOrder(s, step);
  }

  ghost predicate ClearClaims(s: Sys, steps: seq<Step>)
    requires Valid(s, steps)
    decreases |steps|
  {
    steps == [] || (ClaimIsClear(s, steps[0]) && ClearClaims(Apply(s, steps[0]), steps[1..]))
  }

  lemma {:induction false} ReachableIsOrdered(s: Sys, steps: seq<Step>)
    requires Ordered(s) && Valid(s, steps) && ClearClaims(s, steps)
    ensures Ordered(RunAll(s, steps))
    decreases |steps|
  {
    if steps != [] {
      StepKeepsOrder(s, steps[0]);
      ReachableIsOrdered(Apply(s, steps[0]), steps[1..]);
    }
  }

  lemma {:induction false} OneRunIsClear(s: Sys, steps: seq<Step>)
    requires Valid(s, steps) && OneRunAtATime(s, steps)
    ensures ClearClaims(s, steps)
    decreases |steps|
  {
    if steps != [] {
      OneRunIsClear(Apply(s, steps[0]), steps[1..]);
    }
  }

  /** For any number of workers, with enqueues, failures, rejected retries and cut-short runs anywhere: while
      every claim is clear, no older payload of a key is dispatched after a newer one. */
  lemma ClearClaimsNeverGoBackwards(s: Sys, steps: seq<Step>)
    requires Init(s) && Valid(s, steps) && ClearClaims(s, steps)
    ensures NeverBackwards(RunAll(s, steps).log)
  {
    ReachableIsOrdered(s, steps);
  }

  /** With one worker run at a time: once a newer payload of a key was dispatched, no older one is again. */
  lemma DispatchesNeverGoBackwards(s: Sys, steps: seq<Step>)
    requires Init(s) && Valid(s, steps) && OneRunAtATime(s, steps)
    ensures NeverBackwards(RunAll(s, steps).log)
  {
    OneRunIsClear(s, steps);
    ClearClaimsNeverGoBackwards(s, steps);
  }

  /** What enqueueing a key without a pending row, then claiming it, does to a quiet table. */
  lemma EnqueueThenClaim(z: Sys, key: Key, payload: Payload, w: nat) returns (add: Step, claim: Step)
    requires DueRows(z.table.rows, z.now) == {} && PendingFrom(z.table.rows, key, 0).None? && w !in z.runs
    ensures Enabled(z, add) && Enabled(Apply(z, add), claim)
    ensures var n := |z.table.rows|;
            var z' := Apply(Apply(z, add), claim);
            && z'.runs == z.runs[w := Run([Item(n, key, payload, z.enqueued, 0)], Ready)]
            && z'.table.rows == z.table.rows + [Row(key, payload, z.enqueued, Processing, 0, None, None, z.now, z.now)]
            && z'.log == z.log && z'.enqueued == z.enqueued + 1 && z'.now == z.now
  {
    add := EnqueueStep(key, payload, z.now);
    var z1 := Apply(z, add);
    var n := |z.table.rows|;
    assert forall i :: 0 <= i < n ==> i !in DueRows(z.table.rows, z.now);
    assert DueRows(z1.table.rows, z.now) == {n};
    claim := ClaimStep(w, [n], 1, z.now);
    assert Snapshots(z1.table.rows, [n]) == [Item(n, key, payload, z.enqueued, 0)];
    assert Apply(z1, claim).table.rows == z.table.rows
           + [Row(key, payload, z.enqueued, Processing, 0, None, None, z.now, z.now)];
  }

  lemma OpenRun(s: Sys, steps: seq<Step>, key: Key, payload: Payload, w: nat) returns (more: seq<Step>)
    requires Valid(s, steps)
    requires var z := RunAll(s, steps);
             DueRows(z.table.rows, z.now) == {} && PendingFrom(z.table.rows, key, 0).None? && w !in z.runs
    ensures Valid(s, more)
    ensures var z, z' := RunAll(s, steps), RunAll(s, more);
            && z'.runs == z.runs[w := Run([Item(|z.table.rows|, key, payload, z.enqueued, 0)], Ready)]
            && z'.table.rows == z.table.rows + [Row(key, payload, z.enqueued, Processing, 0, None, None, z.now, z.now)]
            && z'.log == z.log && z'.enqueued == z.enqueued + 1 && z'.now == z.now
  {
    var add, claim := EnqueueThenClaim(RunAll(s, steps), key, payload, w);
    RunSnoc(s, steps, add);
    RunSnoc(s, steps + [add], claim);
    more := steps + [add] + [claim];
  }

  lemma DispatchLast(s: Sys, steps: seq<Step>, w: nat) returns (more: seq<Step>)
    requires Valid(s, steps) && Busy(RunAll(s, steps), w, Ready)
    ensures Valid(s, more)
    ensures var z, z' := RunAll(s, steps), RunAll(s, more);
            var item := At(z, w, 0);
            && z'.log == z.log + [Dispatch(item.id, item.key, item.payload, item.version, item.attempts + 1, z.now)]
            && z'.now == z.now && (forall v :: v != w && v in z.runs ==> v in z'.runs && z'.runs[v] == z.runs[v])
  {
    var step := DispatchStep(w, None, RunAll(s, steps).now);
    RunSnoc(s, steps, step);
    more := steps + [step];
  }

  /** The proviso is needed: with two open runs an older payload can go out after a newer one. */
  lemma OverlappingRunsCanGoBackwards(s: Sys, key: Key)
    requires Init(s)
    ensures exists steps: seq<Step> :: Valid(s, steps) && !NeverBackwards(RunAll(s, steps).log)
  {
    var older := OpenRun(s, [], key, "old", 0);
    var newer := OpenRun(s, older, key, "new", 1);
    var sentNew := DispatchLast(s, newer, 1);
    var sentOld := DispatchLast(s, sentNew, 0);
    var log := RunAll(s, sentOld).log;
    assert |log| == 2 && log[0].key == log[1].key && log[0].version > log[1].version;
  }
}
