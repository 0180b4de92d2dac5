/** The log of login attempts, the lockout it implies, and the wait reported to a locked out caller. */
module LoginLockout {
  import opened Common

  const MAX_FAILURES := 5
  const LOCKOUT: Time := 15 * MINUTE

  datatype Attempt = Attempt(ip: string, at: Time, success: bool)

  predicate IsFailureSince(a: Attempt, ip: string, since: Time) {
    a.ip == ip && !a.success && since <= a.at
  }

  function FailuresSince(log: seq<Attempt>, ip: string, since: Time): nat {
    if log == [] then 0
    else FailuresSince(log[..|log| - 1], ip, since) + if IsFailureSince(log[|log| - 1], ip, since) then 1 else 0
  }

  function OldestFailureSince(log: seq<Attempt>, ip: string, since: Time): Option<Time> {
    if log == [] then None
    else
      var oldest, a := OldestFailureSince(log[..|log| - 1], ip, since), log[|log| - 1];
      if IsFailureSince(a, ip, since) && (oldest.None? || a.at < oldest.value) then Some(a.at) else oldest
  }

  predicate IsLocked(log: seq<Attempt>, ip: string, now: Time) {
    FailuresSince(log, ip, now - LOCKOUT) >= MAX_FAILURES
  }

  function CeilMinutes(t: Time): Time {
    (t + MINUTE - 1) / MINUTE
  }

  /** The reported wait in whole minutes; the clock is read once for the query and once after it. */
  function RemainingMinutes(log: seq<Attempt>, ip: string, asked: Time, answered: Time): int {
    match OldestFailureSince(log, ip, asked - LOCKOUT)
    case None => 0
    case Some(oldest) =>
      var remaining := oldest + LOCKOUT - answered;
      if remaining <= 0 then 0
      else if CeilMinutes(remaining) < 1 then 1 else CeilMinutes(remaining)
  }

  /** The places in the log of an IP's failures since a time. */
  ghost function FailuresAt(log: seq<Attempt>, ip: string, since: Time): set<int> {
    set k | 0 <= k < |log| && log[k].ip == ip && !log[k].success && log[k].at >= since
  }

  /** The count query counts failures: successes, other IPs and older attempts do not matter. */
  lemma {:induction false} FailuresAreCounted(log: seq<Attempt>, ip: string, since: Time)
    ensures FailuresSince(log, ip, since) == |FailuresAt(log, ip, since)|
  {
    if log != [] {
      var n := |log| - 1;
      var before := log[..n];
      FailuresAreCounted(before, ip, since);
      var here := if IsFailureSince(log[n], ip, since) then {n} else {};
      assert FailuresAt(log, ip, since) == FailuresAt(before, ip, since) + here;
    }
  }

  /** The minimum query finds the oldest of them. */
  lemma {:induction false} OldestIsLeast(log: seq<Attempt>, ip: string, since: Time)
    ensures match OldestFailureSince(log, ip, since)
            case None => FailuresAt(log, ip, since) == {}
            case Some(oldest) =>
              && (exists k :: k in FailuresAt(log, ip, since) && log[k].at == oldest)
              && (forall k :: k in FailuresAt(log, ip, since) ==> oldest <= log[k].at)
  {
    if log != [] {
      var n := |log| - 1;
      var before := log[..n];
      OldestIsLeast(before, ip, since);
      var here := if IsFailureSince(log[n], ip, since) then {n} else {};
      assert FailuresAt(log, ip, since) == FailuresAt(before, ip, since) + here;
      assert forall k :: k in FailuresAt(before, ip, since) ==> before[k] == log[k];
    }
  }

  lemma {:induction false} LaterCutCountsFewer(log: seq<Attempt>, ip: string, since: Time, later: Time)
    requires since <= later
    ensures FailuresSince(log, ip, later) <= FailuresSince(log, ip, since)
  {
    if log != [] {
      LaterCutCountsFewer(log[..|log| - 1], ip, since, later);
    }
  }

  /** Moving the cut up to the oldest failure loses none; moving it beyond loses at least that one. */
  lemma {:induction false} OldestIsTheFirstToGo(log: seq<Attempt>, ip: string, since: Time, later: Time)
    requires since <= later
    ensures match OldestFailureSince(log, ip, since)
            case None => FailuresSince(log, ip, since) == 0 && FailuresSince(log, ip, later) == 0
            case Some(oldest) =>
              && since <= oldest && FailuresSince(log, ip, since) > 0
              && if later <= oldest then FailuresSince(log, ip, later) == FailuresSince(log, ip, since)
                 else FailuresSince(log, ip, later) < FailuresSince(log, ip, since)
  {
    if log != [] {
      var before, a := log[..|log| - 1], log[|log| - 1];
      OldestIsTheFirstToGo(before, ip, since, later);
      LaterCutCountsFewer(before, ip, since, later);
      var oldest := OldestFailureSince(before, ip, since);
      if oldest.Some? && IsFailureSince(a, ip, since) && a.at < oldest.value && a.at < later {
        assert FailuresSince(log, ip, later) < FailuresSince(log, ip, since);
      }
    }
  }

  lemma CeilFacts(t: Time)
    requires t > 0
    ensures CeilMinutes(t) >= 1 && (CeilMinutes(t) - 1) * MINUTE < t <= CeilMinutes(t) * MINUTE
  {
  }

  predicate UpTo(log: seq<Attempt>, now: Time) {
    forall k :: 0 <= k < |log| ==> log[k].at <= now
  }

  lemma {:induction false} OldestIsInTheLog(log: seq<Attempt>, ip: string, since: Time, now: Time)
    requires UpTo(log, now)
    ensures OldestFailureSince(log, ip, since).Some? ==> OldestFailureSince(log, ip, since).value <= now
  {
    if log != [] {
      OldestIsInTheLog(log[..|log| - 1], ip, since, now);
    }
  }

  lemma WaitIsBounded(log: seq<Attempt>, ip: string, asked: Time, answered: Time)
    requires UpTo(log, asked) && asked <= answered
    ensures 0 <= RemainingMinutes(log, ip, asked, answered) <= 15
  {
    OldestIsInTheLog(log, ip, asked - LOCKOUT, asked);
    var oldest := OldestFailureSince(log, ip, asked - LOCKOUT);
    if oldest.Some? && oldest.value + LOCKOUT > answered {
      CeilFacts(oldest.value + LOCKOUT - answered);
    }
  }

  // ----- the failures in order of time

  function Insert(times: seq<Time>, t: Time): seq<Time> {
    if times == [] || t <= times[0] then [t] + times else [times[0]] + Insert(times[1..], t)
  }

  /** The failures of an IP since a time, oldest first. */
  function FailureTimes(log: seq<Attempt>, ip: string, since: Time): seq<Time> {
    if log == [] then []
    else
      var times, a := FailureTimes(log[..|log| - 1], ip, since), log[|log| - 1];
      if IsFailureSince(a, ip, since) then Insert(times, a.at) else times
  }

  ghost predicate Ascending(times: seq<Time>) {
    forall i, j :: 0 <= i < j < |times| ==> times[i] <= times[j]
  }

  ghost function CountFrom(times: seq<Time>, cut: Time): nat {
    if times == [] then 0 else (if cut <= times[0] then 1 else 0) + CountFrom(times[1..], cut)
  }

  lemma FirstIsLeast(first: Time, rest: seq<Time>)
    requires Ascending(rest) && rest != [] && first <= rest[0]
    ensures Ascending([first] + rest) && ([first] + rest)[1..] == rest
  {
  }

  lemma {:induction false} InsertFacts(times: seq<Time>, t: Time, cut: Time)
    requires Ascending(times)
    ensures Ascending(Insert(times, t)) && |Insert(times, t)| == |times| + 1
    ensures Insert(times, t)[0] == if times == [] || t <= times[0] then t else times[0]
    ensures CountFrom(Insert(times, t), cut) == CountFrom(times, cut) + if cut <= t then 1 else 0
  {
    if times != [] && t > times[0] {
      InsertFacts(times[1..], t, cut);
      FirstIsLeast(times[0], Insert(times[1..], t));
    } else {
      assert ([t] + times)[1..] == times;
    }
  }

  /** The list holds the counted failures, the oldest of them first. */
  lemma {:induction false} FailureTimesFacts(log: seq<Attempt>, ip: string, since: Time, cut: Time)
    requires since <= cut
    ensures var times := FailureTimes(log, ip, since);
            && Ascending(times) && |times| == FailuresSince(log, ip, since)
            && CountFrom(times, cut) == FailuresSince(log, ip, cut)
            && OldestFailureSince(log, ip, since) == if times == [] then None else Some(times[0])
  {
    if log != [] {
      var before, a := log[..|log| - 1], log[|log| - 1];
      FailureTimesFacts(before, ip, since, cut);
      if IsFailureSince(a, ip, since) {
        InsertFacts(FailureTimes(before, ip, since), a.at, cut);
      }
    }
  }

  /** In ascending order, at least `m` times are not before the cut exactly when the `m`-th from the end is not. */
  lemma {:induction false} CountFromEnd(times: seq<Time>, cut: Time, m: nat)
    requires Ascending(times) && m > 0
    ensures CountFrom(times, cut) <= |times|
    ensures CountFrom(times, cut) >= m <==> m <= |times| && cut <= times[|times| - m]
  {
    if times != [] {
      CountFromEnd(times[1..], cut, m);
      if cut <= times[0] {
        AllFrom(times, cut);
      }
    }
  }

  lemma {:induction false} AllFrom(times: seq<Time>, cut: Time)
    requires forall i :: 0 <= i < |times| ==> cut <= times[i]
    ensures CountFrom(times, cut) == |times|
  {
    if times != [] {
      AllFrom(times[1..], cut);
    }
  }

  /** When the lock of an IP with `n` failures in the window ends, if none are added: as the (n - 4)-th oldest
      of them turns fifteen minutes old, and not a moment later. With fewer than five it is not locked. */
  lemma LockedExactlyUntil(log: seq<Attempt>, ip: string, asked: Time, t: Time)
    requires asked <= t
    ensures var times := FailureTimes(log, ip, asked - LOCKOUT);
            && |times| == FailuresSince(log, ip, asked - LOCKOUT)
            && (IsLocked(log, ip, t) <==> MAX_FAILURES <= |times| && t <= times[|times| - MAX_FAILURES] + LOCKOUT)
  {
    FailureTimesFacts(log, ip, asked - LOCKOUT, t - LOCKOUT);
    LockedByTimes(log, ip, t, FailureTimes(log, ip, asked - LOCKOUT));
  }

  lemma LockedByTimes(log: seq<Attempt>, ip: string, t: Time, times: seq<Time>)
    requires Ascending(times) && CountFrom(times, t - LOCKOUT) == FailuresSince(log, ip, t - LOCKOUT)
    ensures IsLocked(log, ip, t) <==> MAX_FAILURES <= |times| && t <= times[|times| - MAX_FAILURES] + LOCKOUT
  {
    CountFromEnd(times, t - LOCKOUT, MAX_FAILURES);
  }

  /** The reported wait counts from the oldest failure. It falls short, with no new failures, exactly when the
      fifth newest one is less than fifteen minutes old when it is over. */
  lemma WaitFallsShortIff(log: seq<Attempt>, ip: string, asked: Time, answered: Time)
    requires asked <= answered
    ensures var times := FailureTimes(log, ip, asked - LOCKOUT);
            var over := answered + RemainingMinutes(log, ip, asked, answered) * MINUTE;
            (exists t :: t > over && IsLocked(log, ip, t)) <==>
            MAX_FAILURES <= |times| && over < times[|times| - MAX_FAILURES] + LOCKOUT
  {
    var times := FailureTimes(log, ip, asked - LOCKOUT);
    var over := answered + RemainingMinutes(log, ip, asked, answered) * MINUTE;
    WaitIsNotNegative(log, ip, asked, answered);
    forall t | t > over
      ensures IsLocked(log, ip, t) <==> MAX_FAILURES <= |times| && t <= times[|times| - MAX_FAILURES] + LOCKOUT
    {
      LockedExactlyUntil(log, ip, asked, t);
    }
    if MAX_FAILURES <= |times| && over < times[|times| - MAX_FAILURES] + LOCKOUT {
      assert IsLocked(log, ip, times[|times| - MAX_FAILURES] + LOCKOUT);
    }
  }

  lemma WaitIsNotNegative(log: seq<Attempt>, ip: string, asked: Time, answered: Time)
    ensures RemainingMinutes(log, ip, asked, answered) >= 0
  {
  }

  /** The reported wait is enough, and a minute less would not be. */
  lemma WaitIsEnough(log: seq<Attempt>, ip: string, asked: Time, answered: Time, t: Time)
    requires FailuresSince(log, ip, asked - LOCKOUT) <= MAX_FAILURES && asked <= answered
    ensures t > answered + RemainingMinutes(log, ip, asked, answered) * MINUTE ==> !IsLocked(log, ip, t)
    ensures IsLocked(log, ip, asked) && RemainingMinutes(log, ip, asked, answered) > 0
            && asked <= t <= answered + (RemainingMinutes(log, ip, asked, answered) - 1) * MINUTE
            ==> IsLocked(log, ip, t)
  {
    var since := asked - LOCKOUT;
    var oldest := OldestFailureSince(log, ip, since);
    if oldest.Some? && oldest.value + LOCKOUT > answered {
      CeilFacts(oldest.value + LOCKOUT - answered);
    }
    if asked <= t {
      OldestIsTheFirstToGo(log, ip, since, t - LOCKOUT);
    }
  }
}
