/**
 Requests for a login token as steps of a transition system: every await is a step boundary, and
 requests of different IPs interleave freely. The failures on record and those still to come are
 proved to share one budget.
 */
module LoginRuns {
  import opened Common
  import opened LoginLockout

  datatype Phase = Arrived | Passed | Admitted | Judged(success: bool)

  /** A request in progress; `now` is the clock as read on arrival, both for the per-minute gate and for the
      cutoff of the lockout query: nothing is awaited between the two readings. */
  datatype Visit = Visit(ip: string, now: Time, phase: Phase)

  /** `recent` is the in-memory deque per IP. */
  datatype Sys = Sys(log: seq<Attempt>, recent: map<string, seq<Time>>, open: map<nat, Visit>, clock: Time)

  datatype Step =
    | ArriveStep(id: nat, ip: string, at: Time)
    | CheckStep(id: nat, at: Time)
    | GateStep(id: nat, at: Time)
    | JudgeStep(id: nat, success: bool, at: Time)
    | RecordStep(id: nat, at: Time)
    | AbortStep(id: nat, at: Time)

  const MAX_ATTEMPTS_PER_MINUTE := 5

  function Recent(recent: map<string, seq<Time>>, ip: string): seq<Time> {
    if ip in recent then recent[ip] else []
  }

  /** Drops stale entries from the front. */
  function Prune(times: seq<Time>, now: Time): seq<Time> {
    if times != [] && now - times[0] > MINUTE then Prune(times[1..], now) else times
  }

  /** `later` is `times` from place `k` on, the first with an entry that is at most a minute old. */
  ghost predicate PrunedAt(times: seq<Time>, later: seq<Time>, now: Time, k: nat) {
    && k <= |times| && later == times[k..]
    && (forall i :: 0 <= i < k ==> times[i] < now - MINUTE) && (k < |times| ==> times[k] >= now - MINUTE)
  }

  ghost predicate IsPruned(times: seq<Time>, later: seq<Time>, now: Time) {
    exists k: nat :: PrunedAt(times, later, now, k)
  }

  lemma {:induction false} PruneIsExact(times: seq<Time>, now: Time)
    ensures IsPruned(times, Prune(times, now), now)
    decreases |times|
  {
    if times != [] && now - times[0] > MINUTE {
      PruneIsExact(times[1..], now);
      var k: nat :| PrunedAt(times[1..], Prune(times[1..], now), now, k);
      assert times[1..][k..] == times[k + 1..];
      assert forall i :: 0 < i < k + 1 ==> times[i] == times[1..][i - 1];
      assert PrunedAt(times, Prune(times, now), now, k + 1);
    } else {
      assert PrunedAt(times, Prune(times, now), now, 0);
    }
  }

  ghost predicate InPhase(s: Sys, id: nat, phase: Phase) {
    id in s.open && s.open[id].phase == phase
  }

  ghost function Visits(s: Sys, ip: string): set<nat> {
    set id | id in s.open && s.open[id].ip == ip
  }

  /** Requests of one IP that the lockout check has let through. */
  ghost function LetThrough(s: Sys, ip: string): set<nat> {
    set id | id in s.open && s.open[id].ip == ip && !s.open[id].phase.Arrived?
  }

  /** At most `overlap` requests of one IP are in progress together. */
  ghost predicate Enabled(s: Sys, overlap: nat, step: Step) {
    && s.clock <= step.at
    && match step
       case ArriveStep(id, ip, _) => id !in s.open && |Visits(s, ip)| < overlap
       case CheckStep(id, _) => InPhase(s, id, Arrived)
       case GateStep(id, _) => InPhase(s, id, Passed)
       case JudgeStep(id, _, _) => InPhase(s, id, Admitted)
       case RecordStep(id, _) => InPhase(s, id, Judged(true)) || InPhase(s, id, Judged(false))
       case AbortStep(id, _) => id in s.open
  }

  function To(s: Sys, id: nat, phase: Phase): map<nat, Visit>
    requires id in s.open
  {
    s.open[id := s.open[id].(phase := phase)]
  }

  ghost function Apply(s: Sys, overlap: nat, step: Step): Sys
    requires Enabled(s, overlap, step)
  {
    var u := s.(clock := step.at);
    match step
    case ArriveStep(id, ip, at) => u.(open := s.open[id := Visit(ip, at, Arrived)])
    case CheckStep(id, _) =>
      u.(open := if IsLocked(s.log, s.open[id].ip, s.open[id].now) then s.open - {id} else To(s, id, Passed))
    case GateStep(id, _) =>
      var v := s.open[id];
      var kept := Prune(Recent(s.recent, v.ip), v.now);
      u.(recent := s.recent[v.ip := kept],
         open := if |kept| >= MAX_ATTEMPTS_PER_MINUTE then s.open - {id} else To(s, id, Admitted))
    case JudgeStep(id, success, _) =>
      var v := s.open[id];
      u.(recent := if success then s.recent else s.recent[v.ip := Recent(s.recent, v.ip) + [v.now]],
         open := To(s, id, Judged(success)))
    case RecordStep(id, at) =>
      u.(log := s.log + [Attempt(s.open[id].ip, at, s.open[id].phase.success)], open := s.open - {id})
    case AbortStep(id, _) => u.(open := s.open - {id})
  }

  ghost predicate Init(s: Sys) {
    s.log == [] && s.recent == map[] && s.open == map[]
  }

  ghost predicate Valid(s: Sys, overlap: nat, steps: seq<Step>)
    decreases |steps|, 0
  {
    steps == [] || (Valid(s, overlap, steps[..|steps| - 1])
                    && Enabled(RunAll(s, overlap, steps[..|steps| - 1]), overlap, steps[|steps| - 1]))
  }

  ghost function RunAll(s: Sys, overlap: nat, steps: seq<Step>): Sys
    requires Valid(s, overlap, steps)
    decreases |steps|, 1
  {
    if steps == [] then s
    else Apply(RunAll(s, overlap, steps[..|steps| - 1]), overlap, steps[|steps| - 1])
  }

  lemma RunSnoc(s: Sys, overlap: nat, steps: seq<Step>, step: Step)
    requires Valid(s, overlap, steps) && Enabled(RunAll(s, overlap, steps), overlap, step)
    ensures Valid(s, overlap, steps + [step])
    ensures RunAll(s, overlap, steps + [step]) == Apply(RunAll(s, overlap, steps), overlap, step)
  {
    assert (steps + [step])[..|steps|] == steps;
  }

  ghost predicate WithinOverlap(s: Sys, overlap: nat) {
    forall ip :: |Visits(s, ip)| <= overlap
  }

  ghost predicate NoneFromTheFuture(s: Sys) {
    forall id :: id in s.open ==> s.open[id].now <= s.clock
  }

  ghost predicate WithinBudget(s: Sys, overlap: nat) {
    forall ip :: FailuresSince(s.log, ip, s.clock - LOCKOUT) + |LetThrough(s, ip)| <= MAX_FAILURES - 1 + overlap
  }

  /** At the moment of each failure the window ending there held few enough. */
  ghost predicate EachWithinBudget(log: seq<Attempt>, overlap: nat) {
    log != [] ==>
      var last := log[|log| - 1];
      && EachWithinBudget(log[..|log| - 1], overlap)
      && (!last.success ==> FailuresSince(log, last.ip, last.at - LOCKOUT) <= MAX_FAILURES - 1 + overlap)
  }

  lemma CardinalityOfSubset(a: set<nat>, b: set<nat>)
    requires a <= b
    ensures |a| <= |b|
  {
    assert b == a + (b - a);
  }

  lemma StepKeepsOverlap(s: Sys, overlap: nat, step: Step)
    requires WithinOverlap(s, overlap) && Enabled(s, overlap, step)
    ensures WithinOverlap(Apply(s, overlap, step), overlap)
  {
    var s' := Apply(s, overlap, step);
    forall ip
      ensures |Visits(s', ip)| <= overlap
    {
      if step.ArriveStep? && step.ip == ip {
        assert Visits(s', ip) == Visits(s, ip) + {step.id};
      } else {
        CardinalityOfSubset(Visits(s', ip), Visits(s, ip));
      }
    }
  }

  lemma RecordSpendsOne(s: Sys, overlap: nat, id: nat, at: Time, ip: string)
    requires WithinBudget(s, overlap) && Enabled(s, overlap, RecordStep(id, at))
    ensures var s' := Apply(s, overlap, RecordStep(id, at));
            FailuresSince(s'.log, ip, at - LOCKOUT) + |LetThrough(s', ip)| <= MAX_FAILURES - 1 + overlap
  {
    var s' := Apply(s, overlap, RecordStep(id, at));
    assert s'.log[..|s.log|] == s.log;
    LaterCutCountsFewer(s.log, ip, s.clock - LOCKOUT, at - LOCKOUT);
    if s.open[id].ip == ip {
      assert id in LetThrough(s, ip) && LetThrough(s', ip) == LetThrough(s, ip) - {id};
    } else {
      assert LetThrough(s', ip) == LetThrough(s, ip);
    }
  }

  lemma CheckIsWithinBudget(s: Sys, overlap: nat, id: nat, at: Time, ip: string)
    requires WithinBudget(s, overlap) && WithinOverlap(s, overlap) && NoneFromTheFuture(s)
    requires Enabled(s, overlap, CheckStep(id, at))
    ensures var s' := Apply(s, overlap, CheckStep(id, at));
            FailuresSince(s'.log, ip, at - LOCKOUT) + |LetThrough(s', ip)| <= MAX_FAILURES - 1 + overlap
  {
    var s' := Apply(s, overlap, CheckStep(id, at));
    LaterCutCountsFewer(s.log, ip, s.clock - LOCKOUT, at - LOCKOUT);
    if s.open[id].ip == ip && !IsLocked(s.log, ip, s.open[id].now) {
      LaterCutCountsFewer(s.log, ip, s.open[id].now - LOCKOUT, at - LOCKOUT);
      CardinalityOfSubset(LetThrough(s', ip), Visits(s', ip));
      assert Visits(s', ip) == Visits(s, ip);
    } else {
      assert LetThrough(s', ip) == LetThrough(s, ip);
    }
  }

  lemma StepKeepsBudget(s: Sys, overlap: nat, step: Step)
    requires WithinBudget(s, overlap) && WithinOverlap(s, overlap) && NoneFromTheFuture(s) && Enabled(s, overlap, step)
    ensures WithinBudget(Apply(s, overlap, step), overlap)
  {
    var s' := Apply(s, overlap, step);
    forall ip
      ensures FailuresSince(s'.log, ip, s'.clock - LOCKOUT) + |LetThrough(s', ip)| <= MAX_FAILURES - 1 + overlap
    {
      if step.RecordStep? {
        RecordSpendsOne(s, overlap, step.id, step.at, ip);
      } else if step.CheckStep? {
        CheckIsWithinBudget(s, overlap, step.id, step.at, ip);
      } else {
        LaterCutCountsFewer(s.log, ip, s.clock - LOCKOUT, step.at - LOCKOUT);
        CardinalityOfSubset(LetThrough(s', ip), LetThrough(s, ip));
      }
    }
  }

  lemma BudgetCapsFailures(s: Sys, overlap: nat, ip: string, t: Time)
    requires WithinBudget(s, overlap) && s.clock <= t
    ensures FailuresSince(s.log, ip, t - LOCKOUT) <= MAX_FAILURES - 1 + overlap
  {
    LaterCutCountsFewer(s.log, ip, s.clock - LOCKOUT, t - LOCKOUT);
    assert FailuresSince(s.log, ip, s.clock - LOCKOUT) + |LetThrough(s, ip)| <= MAX_FAILURES - 1 + overlap;
  }

  lemma StepKeepsEachWithinBudget(s: Sys, overlap: nat, step: Step)
    requires EachWithinBudget(s.log, overlap) && Enabled(s, overlap, step)
    requires WithinBudget(Apply(s, overlap, step), overlap)
    ensures EachWithinBudget(Apply(s, overlap, step).log, overlap)
  {
    var s' := Apply(s, overlap, step);
    if step.RecordStep? {
      assert s'.log[..|s.log|] == s.log;
      BudgetCapsFailures(s', overlap, s.open[step.id].ip, step.at);
    }
  }

  ghost predicate Capped(s: Sys, overlap: nat) {
    && WithinOverlap(s, overlap) && WithinBudget(s, overlap) && EachWithinBudget(s.log, overlap)
    && UpTo(s.log, s.clock) && NoneFromTheFuture(s)
  }

  lemma StepKeepsCapped(s: Sys, overlap: nat, step: Step)
    requires Capped(s, overlap) && Enabled(s, overlap, step)
    ensures Capped(Apply(s, overlap, step), overlap)
  {
    StepKeepsOverlap(s, overlap, step);
    StepKeepsBudget(s, overlap, step);
    StepKeepsEachWithinBudget(s, overlap, step);
  }

  lemma InitIsCapped(s: Sys, overlap: nat)
    requires Init(s)
    ensures Capped(s, overlap)
  {
    forall ip
      ensures Visits(s, ip) == {} && LetThrough(s, ip) == {}
    {
    }
  }

  lemma {:induction false} ReachableIsCapped(s: Sys, overlap: nat, steps: seq<Step>)
    requires Init(s) && Valid(s, overlap, steps)
    ensures Capped(RunAll(s, overlap, steps), overlap)
    decreases |steps|
  {
    if steps == [] {
      InitIsCapped(s, overlap);
    } else {
      var before := steps[..|steps| - 1];
      ReachableIsCapped(s, overlap, before);
      StepKeepsCapped(RunAll(s, overlap, before), overlap, steps[|steps| - 1]);
    }
  }

  ghost function FailuresWithin(log: seq<Attempt>, ip: string, from: Time, to: Time): nat {
    if log == [] then 0
    else
      var a := log[|log| - 1];
      FailuresWithin(log[..|log| - 1], ip, from, to) + if IsFailureSince(a, ip, from) && a.at <= to then 1 else 0
  }

  /** No closed window of fifteen minutes or less holds more than `most` failures of one IP. */
  ghost predicate NoCrowdedWindow(log: seq<Attempt>, most: int) {
    forall ip, from, to :: to <= from + LOCKOUT ==> FailuresWithin(log, ip, from, to) <= most
  }

  lemma {:induction false} FewerWithin(log: seq<Attempt>, ip: string, from: Time, to: Time, since: Time)
    requires since <= from
    ensures FailuresWithin(log, ip, from, to) <= FailuresSince(log, ip, since)
  {
    if log != [] {
      FewerWithin(log[..|log| - 1], ip, from, to, since);
    }
  }

  lemma {:induction false} WindowBound(log: seq<Attempt>, overlap: nat, ip: string, from: Time, to: Time)
    requires EachWithinBudget(log, overlap) && to <= from + LOCKOUT
    ensures FailuresWithin(log, ip, from, to) <= MAX_FAILURES - 1 + overlap
  {
    if log != [] {
      var a := log[|log| - 1];
      if IsFailureSince(a, ip, from) && a.at <= to {
        FewerWithin(log, ip, from, to, a.at - LOCKOUT);
      } else {
        WindowBound(log[..|log| - 1], overlap, ip, from, to);
      }
    }
  }

  /** In every run in which an IP never has more than `overlap` requests in progress together, no closed
      fifteen-minute window ever holds more than `4 + overlap` of its failures: five for sequential requests. */
  lemma NoWindowHoldsMore(s: Sys, overlap: nat, steps: seq<Step>)
    requires Init(s) && Valid(s, overlap, steps)
    ensures NoCrowdedWindow(RunAll(s, overlap, steps).log, MAX_FAILURES - 1 + overlap)
  {
    ReachableIsCapped(s, overlap, steps);
    var log := RunAll(s, overlap, steps).log;
    forall ip, from, to | to <= from + LOCKOUT
      ensures FailuresWithin(log, ip, from, to) <= MAX_FAILURES - 1 + overlap
    {
      WindowBound(log, overlap, ip, from, to);
    }
  }

  /** The wait reported to a caller with up to `overlap` requests in progress together: how many failures it may
      cover, and when it falls short. */
  lemma WaitWithOverlap(s: Sys, overlap: nat, steps: seq<Step>, ip: string, asked: Time, answered: Time)
    requires Init(s) && Valid(s, overlap, steps) && RunAll(s, overlap, steps).clock <= asked <= answered
    ensures var log := RunAll(s, overlap, steps).log;
            var times, wait := FailureTimes(log, ip, asked - LOCKOUT), RemainingMinutes(log, ip, asked, answered);
            && 0 <= wait <= 15 && |times| <= MAX_FAILURES - 1 + overlap
            && ((exists t :: t > answered + wait * MINUTE && IsLocked(log, ip, t)) <==>
                MAX_FAILURES <= |times| && answered + wait * MINUTE < times[|times| - MAX_FAILURES] + LOCKOUT)
  {
    ReachableIsCapped(s, overlap, steps);
    var z := RunAll(s, overlap, steps);
    BudgetCapsFailures(z, overlap, ip, asked);
    WaitIsBounded(z.log, ip, asked, answered);
    LockedExactlyUntil(z.log, ip, asked, asked);
    WaitFallsShortIff(z.log, ip, asked, answered);
  }

  /** The promise made to a caller who is told to wait, when its requests come one after the other. */
  lemma PromiseIsKept(s: Sys, steps: seq<Step>, ip: string, asked: Time, answered: Time, t: Time)
    requires Init(s) && Valid(s, 1, steps) && RunAll(s, 1, steps).clock <= asked <= answered
    ensures var log := RunAll(s, 1, steps).log;
            var wait := RemainingMinutes(log, ip, asked, answered);
            && 0 <= wait <= 15
            && (t > answered + wait * MINUTE ==> !IsLocked(log, ip, t))
            && (IsLocked(log, ip, asked) && wait > 0 && asked <= t <= answered + (wait - 1) * MINUTE ==>
                IsLocked(log, ip, t))
  {
    ReachableIsCapped(s, 1, steps);
    var z := RunAll(s, 1, steps);
    BudgetCapsFailures(z, 1, ip, asked);
    WaitIsBounded(z.log, ip, asked, answered);
    WaitIsEnough(z.log, ip, asked, answered, t);
  }
}
