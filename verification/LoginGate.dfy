/**
 The per-minute gate in front of the password check. While the requests of an IP come one after the
 other and recording a failure never fails, the gate is redundant: the lockout answers first.
 */
module LoginGate {
  import opened Common
  import opened LoginLockout
  import opened LoginRuns

  /** The step does not drop a failure between the deque and the log. */
  ghost predicate KeepsFailures(s: Sys, step: Step) {
    step.AbortStep? ==> !InPhase(s, step.id, Judged(false))
  }

  ghost predicate AllKeepFailures(s: Sys, steps: seq<Step>)
    requires Valid(s, 1, steps)
    decreases |steps|
  {
    steps == [] || (AllKeepFailures(s, steps[..|steps| - 1])
                    && KeepsFailures(RunAll(s, 1, steps[..|steps| - 1]), steps[|steps| - 1]))
  }

  ghost function CountFrom(times: seq<Time>, since: Time): nat {
    if times == [] then 0 else CountFrom(times[..|times| - 1], since) + if since <= times[|times| - 1] then 1 else 0
  }

  ghost predicate Sorted(times: seq<Time>) {
    forall i, j :: 0 <= i < j < |times| ==> times[i] <= times[j]
  }

  ghost predicate NoneAfter(times: seq<Time>, now: Time) {
    forall i :: 0 <= i < |times| ==> times[i] <= now
  }

  /** Requests of one IP come one after the other. */
  ghost predicate Solo(s: Sys) {
    forall i, j :: i in s.open && j in s.open && s.open[i].ip == s.open[j].ip ==> i == j
  }

  ghost predicate InOrderUpTo(times: seq<Time>, now: Time) {
    Sorted(times) && NoneAfter(times, now)
  }

  ghost predicate InOrderFor(s: Sys, v: Visit) {
    v.now <= s.clock && (v.phase != Judged(false) ==> NoneAfter(Recent(s.recent, v.ip), v.now))
  }

  /** The deque is sorted and nothing in it is later than a request that may still be appended. */
  ghost predicate InOrder(s: Sys) {
    && (forall ip :: InOrderUpTo(Recent(s.recent, ip), s.clock))
    && (forall id :: id in s.open ==> InOrderFor(s, s.open[id]))
  }

  /** A failure in the deque that is not on record yet. */
  ghost predicate Owes(s: Sys, ip: string, since: Time) {
    exists id :: InPhase(s, id, Judged(false)) && s.open[id].ip == ip && since <= s.open[id].now
  }

  /** Failures in the deque are on record, or about to be. */
  ghost predicate OnRecord(s: Sys, ip: string, since: Time) {
    CountFrom(Recent(s.recent, ip), since) <= FailuresSince(s.log, ip, since) + if Owes(s, ip, since) then 1 else 0
  }

  ghost predicate AllOnRecord(s: Sys) {
    forall ip, since :: OnRecord(s, ip, since)
  }

  /** A request that has passed the check came less than five failures after the minute began. */
  ghost predicate PassedInTime(s: Sys) {
    forall id :: InPhase(s, id, Passed) ==> FailuresSince(s.log, s.open[id].ip, s.open[id].now - MINUTE) < MAX_FAILURES
  }

  lemma {:induction false} PruneKeepsCounts(times: seq<Time>, now: Time, since: Time)
    ensures CountFrom(Prune(times, now), since) <= CountFrom(times, since)
    ensures exists k :: 0 <= k <= |times| && Prune(times, now) == times[k..]
    decreases |times|
  {
    if times != [] && now - times[0] > MINUTE {
      PruneKeepsCounts(times[1..], now, since);
      CountCons(times, since);
      var k :| 0 <= k <= |times[1..]| && Prune(times[1..], now) == times[1..][k..];
      assert times[1..][k..] == times[k + 1..];
    } else {
      assert times[0..] == times;
    }
  }

  lemma {:induction false} CountCons(times: seq<Time>, since: Time)
    requires times != []
    ensures CountFrom(times, since) == CountFrom(times[1..], since) + if since <= times[0] then 1 else 0
  {
    if |times| > 1 {
      assert times[1..][..|times| - 2] == times[..|times| - 1][1..];
      CountCons(times[..|times| - 1], since);
    }
  }

  lemma {:induction false} AllCount(times: seq<Time>, since: Time)
    requires forall i :: 0 <= i < |times| ==> since <= times[i]
    ensures CountFrom(times, since) == |times|
  {
    if times != [] {
      AllCount(times[..|times| - 1], since);
    }
  }

  lemma {:induction false} PruneLeavesTheLastMinute(times: seq<Time>, now: Time)
    requires Sorted(times)
    ensures forall i :: 0 <= i < |Prune(times, now)| ==> now - MINUTE <= Prune(times, now)[i]
    decreases |times|
  {
    if times != [] && now - times[0] > MINUTE {
      PruneLeavesTheLastMinute(times[1..], now);
    }
  }

  /** With its failures on record and its check in time, a request finds room at the gate. */
  lemma RoomAtTheGate(s: Sys, id: nat)
    requires Solo(s) && InOrder(s) && AllOnRecord(s) && PassedInTime(s) && InPhase(s, id, Passed)
    ensures |Prune(Recent(s.recent, s.open[id].ip), s.open[id].now)| < MAX_ATTEMPTS_PER_MINUTE
  {
    var v := s.open[id];
    var times := Recent(s.recent, v.ip);
    PruneLeavesTheLastMinute(times, v.now);
    AllCount(Prune(times, v.now), v.now - MINUTE);
    PruneKeepsCounts(times, v.now, v.now - MINUTE);
    assert OnRecord(s, v.ip, v.now - MINUTE);
  }

  /** The same before a request comes, when none is in progress: unless the lockout holds, the minute has room. */
  lemma RoomForTheNext(s: Sys, ip: string, now: Time)
    requires Calm(s) && s.open == map[] && !IsLocked(s.log, ip, now)
    ensures |Prune(Recent(s.recent, ip), now)| < MAX_ATTEMPTS_PER_MINUTE
  {
    var times := Recent(s.recent, ip);
    assert InOrderUpTo(times, s.clock);
    PruneLeavesTheLastMinute(times, now);
    AllCount(Prune(times, now), now - MINUTE);
    PruneKeepsCounts(times, now, now - MINUTE);
    LaterCutCountsFewer(s.log, ip, now - LOCKOUT, now - MINUTE);
    assert OnRecord(s, ip, now - MINUTE) && !Owes(s, ip, now - MINUTE);
  }

  lemma KeepFailuresSnoc(s: Sys, steps: seq<Step>, step: Step)
    requires Valid(s, 1, steps) && Enabled(RunAll(s, 1, steps), 1, step)
    requires AllKeepFailures(s, steps) && !step.AbortStep?
    ensures Valid(s, 1, steps + [step]) && RunAll(s, 1, steps + [step]) == Apply(RunAll(s, 1, steps), 1, step)
    ensures AllKeepFailures(s, steps + [step])
  {
    RunSnoc(s, 1, steps, step);
    assert (steps + [step])[..|steps|] == steps;
  }

  ghost predicate Calm(s: Sys) {
    Solo(s) && InOrder(s) && AllOnRecord(s) && PassedInTime(s)
  }

  lemma ArrivesAlone(s: Sys, id: nat, ip: string, at: Time, other: nat)
    requires Enabled(s, 1, ArriveStep(id, ip, at)) && other in s.open
    ensures s.open[other].ip != ip
  {
    assert Visits(s, ip) == {};
    assert other !in Visits(s, ip);
  }

  lemma StepKeepsSolo(s: Sys, step: Step)
    requires Solo(s) && Enabled(s, 1, step)
    ensures Solo(Apply(s, 1, step))
  {
    if step.ArriveStep? {
      forall other | other in s.open
        ensures s.open[other].ip != step.ip
      {
        ArrivesAlone(s, step.id, step.ip, step.at, other);
      }
    }
  }

  /** A step leaves a deque alone, drops a prefix of it or, when a password is refused, appends the arrival time. */
  lemma DequeStep(s: Sys, step: Step, ip: string)
    requires Enabled(s, 1, step)
    ensures var times, times' := Recent(s.recent, ip), Recent(Apply(s, 1, step).recent, ip);
            if step.JudgeStep? && !step.success && s.open[step.id].ip == ip then times' == times + [s.open[step.id].now]
            else exists k :: 0 <= k <= |times| && times' == times[k..]
  {
    var times, times' := Recent(s.recent, ip), Recent(Apply(s, 1, step).recent, ip);
    if step.GateStep? && s.open[step.id].ip == ip {
      PruneKeepsCounts(times, s.open[step.id].now, 0);
      assert times' == Prune(times, s.open[step.id].now);
    } else if !(step.JudgeStep? && !step.success && s.open[step.id].ip == ip) {
      assert times' == times == times[0..];
    }
  }

  lemma StepKeepsDequesInOrder(s: Sys, step: Step, ip: string)
    requires InOrder(s) && Enabled(s, 1, step)
    ensures InOrderUpTo(Recent(Apply(s, 1, step).recent, ip), step.at)
  {
    DequeStep(s, step, ip);
    var times := Recent(s.recent, ip);
    assert InOrderUpTo(times, s.clock);
    if step.JudgeStep? {
      assert InOrderFor(s, s.open[step.id]);
    }
  }

  /** A request in progress has just arrived, or keeps its IP and arrival time and stays judged once judged. */
  lemma VisitStep(s: Sys, step: Step, id: nat)
    requires Enabled(s, 1, step) && id in Apply(s, 1, step).open
    ensures var v := Apply(s, 1, step).open[id];
            if step.ArriveStep? && id == step.id then v.now == step.at
            else
              && id in s.open && v.ip == s.open[id].ip && v.now == s.open[id].now
              && (s.open[id].phase == Judged(false) ==> v.phase == Judged(false))
  {
  }

  lemma StepKeepsVisitsInOrder(s: Sys, step: Step, id: nat)
    requires Solo(s) && InOrder(s) && Enabled(s, 1, step) && id in Apply(s, 1, step).open
    ensures InOrderFor(Apply(s, 1, step), Apply(s, 1, step).open[id])
  {
    var v := Apply(s, 1, step).open[id];
    VisitStep(s, step, id);
    DequeStep(s, step, v.ip);
    var times := Recent(s.recent, v.ip);
    if step.JudgeStep? && !step.success && s.open[step.id].ip == v.ip {
      assert id == step.id;
    } else {
      NoneAfterInOrder(s, step, id, v, times);
    }
  }

  lemma NoneAfterInOrder(s: Sys, step: Step, id: nat, v: Visit, times: seq<Time>)
    requires InOrder(s) && Enabled(s, 1, step) && times == Recent(s.recent, v.ip)
    requires if step.ArriveStep? && id == step.id then v.now == step.at
             else
               && id in s.open && v.ip == s.open[id].ip && v.now == s.open[id].now
               && (s.open[id].phase == Judged(false) ==> v.phase == Judged(false))
    ensures v.now <= step.at && (v.phase != Judged(false) ==> NoneAfter(times, v.now))
  {
    assert InOrderUpTo(times, s.clock);
    if !(step.ArriveStep? && id == step.id) {
      assert InOrderFor(s, s.open[id]);
    }
  }

  lemma StepKeepsOrder(s: Sys, step: Step)
    requires Solo(s) && InOrder(s) && Enabled(s, 1, step)
    ensures InOrder(Apply(s, 1, step))
  {
    var s' := Apply(s, 1, step);
    forall ip
      ensures InOrderUpTo(Recent(s'.recent, ip), s'.clock)
    {
      StepKeepsDequesInOrder(s, step, ip);
    }
    forall id | id in s'.open
      ensures InOrderFor(s', s'.open[id])
    {
      StepKeepsVisitsInOrder(s, step, id);
    }
  }

  lemma StepKeepsOnRecord(s: Sys, step: Step, ip: string, since: Time)
    requires Solo(s) && InOrder(s) && OnRecord(s, ip, since) && Enabled(s, 1, step) && KeepsFailures(s, step)
    ensures OnRecord(Apply(s, 1, step), ip, since)
  {
    if step.JudgeStep? {
      JudgeKeepsOnRecord(s, step.id, step.success, step.at, ip, since);
    } else if step.RecordStep? {
      RecordKeepsOnRecord(s, step.id, step.at, ip, since);
    } else {
      OthersKeepOnRecord(s, step, ip, since);
    }
  }

  lemma OthersKeepOnRecord(s: Sys, step: Step, ip: string, since: Time)
    requires OnRecord(s, ip, since) && Enabled(s, 1, step) && KeepsFailures(s, step)
    requires !step.JudgeStep? && !step.RecordStep?
    ensures OnRecord(Apply(s, 1, step), ip, since)
  {
    var s' := Apply(s, 1, step);
    OwesKept(s, s', ip, since);
    if step.GateStep? {
      PruneKeepsCounts(Recent(s.recent, s.open[step.id].ip), s.open[step.id].now, since);
    }
  }

  lemma OwesKept(s: Sys, s': Sys, ip: string, since: Time)
    requires forall id :: InPhase(s, id, Judged(false)) ==> InPhase(s', id, Judged(false)) && s'.open[id] == s.open[id]
    ensures Owes(s, ip, since) ==> Owes(s', ip, since)
  {
  }

  lemma JudgeKeepsOnRecord(s: Sys, id: nat, success: bool, at: Time, ip: string, since: Time)
    requires Solo(s) && OnRecord(s, ip, since) && Enabled(s, 1, JudgeStep(id, success, at))
    ensures OnRecord(Apply(s, 1, JudgeStep(id, success, at)), ip, since)
  {
    var s' := Apply(s, 1, JudgeStep(id, success, at));
    OwesKept(s, s', ip, since);
    var v := s.open[id];
    if !success && v.ip == ip {
      var times := Recent(s.recent, ip);
      assert Recent(s'.recent, ip)[..|times|] == times;
      assert !Owes(s, ip, since);
      if since <= v.now {
        assert InPhase(s', id, Judged(false));
      }
    }
  }

  lemma RecordKeepsOnRecord(s: Sys, id: nat, at: Time, ip: string, since: Time)
    requires Solo(s) && InOrder(s) && OnRecord(s, ip, since) && Enabled(s, 1, RecordStep(id, at))
    ensures OnRecord(Apply(s, 1, RecordStep(id, at)), ip, since)
  {
    var s' := Apply(s, 1, RecordStep(id, at));
    FailuresSnoc(s.log, Attempt(s.open[id].ip, at, s.open[id].phase.success), ip, since);
    assert InOrderFor(s, s.open[id]);
    if Owes(s, ip, since) {
      OwedOrRecorded(s, id, at, ip, since);
    }
  }

  lemma OwedOrRecorded(s: Sys, id: nat, at: Time, ip: string, since: Time)
    requires Enabled(s, 1, RecordStep(id, at)) && Owes(s, ip, since)
    ensures Owes(Apply(s, 1, RecordStep(id, at)), ip, since)
            || (s.open[id].phase == Judged(false) && s.open[id].ip == ip && since <= s.open[id].now)
  {
    var s' := Apply(s, 1, RecordStep(id, at));
    var j :| InPhase(s, j, Judged(false)) && s.open[j].ip == ip && since <= s.open[j].now;
    assert j == id || (InPhase(s', j, Judged(false)) && s'.open[j] == s.open[j]);
  }

  lemma FailuresSnoc(log: seq<Attempt>, a: Attempt, ip: string, since: Time)
    ensures FailuresSince(log + [a], ip, since) == FailuresSince(log, ip, since)
            + if IsFailureSince(a, ip, since) then 1 else 0
  {
    assert (log + [a])[..|log|] == log;
  }

  lemma RecordKeepsPassedInTime(s: Sys, id: nat, at: Time)
    requires Solo(s) && PassedInTime(s) && Enabled(s, 1, RecordStep(id, at))
    ensures PassedInTime(Apply(s, 1, RecordStep(id, at)))
  {
    var s' := Apply(s, 1, RecordStep(id, at));
    assert s'.log[..|s.log|] == s.log;
    assert forall i :: InPhase(s', i, Passed) ==> InPhase(s, i, Passed) && s.open[i].ip != s.open[id].ip;
  }

  lemma CheckKeepsPassedInTime(s: Sys, id: nat, at: Time)
    requires PassedInTime(s) && Enabled(s, 1, CheckStep(id, at))
    ensures PassedInTime(Apply(s, 1, CheckStep(id, at)))
  {
    var v, s' := s.open[id], Apply(s, 1, CheckStep(id, at));
    LaterCutCountsFewer(s.log, v.ip, v.now - LOCKOUT, v.now - MINUTE);
    assert forall i :: InPhase(s', i, Passed) && i != id ==> InPhase(s, i, Passed);
  }

  lemma StepKeepsPassedInTime(s: Sys, step: Step)
    requires Solo(s) && PassedInTime(s) && Enabled(s, 1, step) && KeepsFailures(s, step)
    ensures PassedInTime(Apply(s, 1, step))
  {
    if step.RecordStep? {
      RecordKeepsPassedInTime(s, step.id, step.at);
    } else if step.CheckStep? {
      CheckKeepsPassedInTime(s, step.id, step.at);
    } else {
      var s' := Apply(s, 1, step);
      assert forall i :: InPhase(s', i, Passed) ==> InPhase(s, i, Passed) && s'.open[i] == s.open[i];
    }
  }

  lemma StepKeepsCalm(s: Sys, step: Step)
    requires Calm(s) && Enabled(s, 1, step) && KeepsFailures(s, step)
    ensures Calm(Apply(s, 1, step))
  {
    StepKeepsSolo(s, step);
    StepKeepsOrder(s, step);
    StepKeepsPassedInTime(s, step);
    forall ip, since
      ensures OnRecord(Apply(s, 1, step), ip, since)
    {
      StepKeepsOnRecord(s, step, ip, since);
    }
  }

  lemma {:induction false} ReachableIsCalm(s: Sys, steps: seq<Step>)
    requires Init(s) && Valid(s, 1, steps) && AllKeepFailures(s, steps)
    ensures Calm(RunAll(s, 1, steps))
    decreases |steps|
  {
    if steps != [] {
      var before := steps[..|steps| - 1];
      ReachableIsCalm(s, before);
      StepKeepsCalm(RunAll(s, 1, before), steps[|steps| - 1]);
    }
  }

  /** The answer "too many login attempts" is never given. */
  lemma GateNeverRefuses(s: Sys, steps: seq<Step>, id: nat, at: Time)
    requires Init(s) && Valid(s, 1, steps) && AllKeepFailures(s, steps)
    requires Enabled(RunAll(s, 1, steps), 1, GateStep(id, at))
    ensures InPhase(Apply(RunAll(s, 1, steps), 1, GateStep(id, at)), id, Admitted)
  {
    ReachableIsCalm(s, steps);
    RoomAtTheGate(RunAll(s, 1, steps), id);
  }
}
