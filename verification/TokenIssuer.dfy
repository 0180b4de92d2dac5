/** The token endpoint: lockout check, per-minute gate, password check and record, in that order. */
module TokenIssuer {
  import opened Common
  import opened LoginLockout
  import opened LoginRuns
  import opened LoginGate

  datatype Answer = LockedOut(minutes: int) | TooManyAttempts | InvalidCredentials | Granted

  /** How long each await of a request takes. */
  datatype Delays = Delays(check: nat, wait: nat, password: nat, record: nat)

  datatype Request = Request(ip: string, success: bool, idle: nat, delays: Delays)

  /** The answer to a request that arrives at `now`, from the log and the IP's deque. */
  function Answered(log: seq<Attempt>, times: seq<Time>, r: Request, now: Time): Answer {
    var checked := now + r.delays.check;
    if IsLocked(log, r.ip, now) then LockedOut(RemainingMinutes(log, r.ip, checked, checked + r.delays.wait))
    else if |Prune(times, now)| >= MAX_ATTEMPTS_PER_MINUTE then TooManyAttempts
    else if r.success then Granted
    else InvalidCredentials
  }

  /** Which answer that is: the IP is locked out exactly when it has five failures of the last fifteen minutes on
      record; otherwise it is turned away exactly when its deque holds five entries of the last minute. */
  lemma AnsweredRightly(log: seq<Attempt>, times: seq<Time>, r: Request, now: Time)
    ensures var answer, minute := Answered(log, times, r, now), Prune(times, now);
            && IsPruned(times, minute, now)
            && (answer.LockedOut? <==> |FailuresAt(log, r.ip, now - 15 * MINUTE)| >= 5)
            && (!answer.LockedOut? ==> answer == if |minute| >= 5 then TooManyAttempts
                                                 else if r.success then Granted else InvalidCredentials)
  {
    FailuresAreCounted(log, r.ip, now - 15 * MINUTE);
    PruneIsExact(times, now);
  }

  /** What an answer leaves in the log. */
  function Recorded(answer: Answer, ip: string, at: Time): seq<Attempt> {
    match answer
    case Granted => [Attempt(ip, at, true)]
    case InvalidCredentials => [Attempt(ip, at, false)]
    case _ => []
  }

  class LoginAttemptService {
    var log: seq<Attempt>
    var clock: Time

    constructor ()
      ensures log == [] && clock == 0
    {
      log, clock := [], 0;
    }

    /** The cutoff is fixed before the query, which takes `delay`. */
    method CheckLockout(ip: string, delay: nat) returns (locked: bool)
      modifies this`clock
      ensures clock == old(clock) + delay && locked == IsLocked(log, ip, old(clock))
      ensures locked <==> |FailuresAt(log, ip, old(clock) - 15 * MINUTE)| >= 5
    {
      var cutoff := clock - LOCKOUT;
      clock := clock + delay;
      var failures := FailuresSince(log, ip, cutoff);
      FailuresAreCounted(log, ip, cutoff);
      locked := failures >= MAX_FAILURES;
    }

    method GetRemainingLockout(ip: string, delay: nat) returns (minutes: int)
      modifies this`clock
      ensures clock == old(clock) + delay && minutes == RemainingMinutes(log, ip, old(clock), clock)
    {
      var oldest := OldestFailureSince(log, ip, clock - LOCKOUT);
      clock := clock + delay;
      if oldest.None? {
        return 0;
      }
      var remaining := oldest.value + LOCKOUT - clock;
      if remaining <= 0 {
        return 0;
      }
      minutes := if CeilMinutes(remaining) > 1 then CeilMinutes(remaining) else 1;
    }

    method RecordAttempt(ip: string, success: bool, delay: nat)
      modifies this
      ensures clock == old(clock) + delay && log == old(log) + [Attempt(ip, clock, success)]
    {
      clock := clock + delay;
      log := log + [Attempt(ip, clock, success)];
    }
  }

  class TokenEndpoint {
    const service: LoginAttemptService
    var recent: map<string, seq<Time>>

    constructor (service: LoginAttemptService)
      ensures this.service == service && recent == map[]
    {
      this.service, recent := service, map[];
    }

    /** The steps taken since `start` lead to the current log and deques, with `open` in progress. */
    ghost predicate Reached(start: Sys, steps: seq<Step>, open: map<nat, Visit>)
      reads this, service
    {
      && Init(start) && Valid(start, 1, steps) && AllKeepFailures(start, steps)
      && var z := RunAll(start, 1, steps);
         z.log == service.log && z.recent == recent && z.open == open && z.clock <= service.clock
    }

    /** Arrival and lockout check. */
    method CheckIn(ip: string, delay: nat, ghost start: Sys, ghost before: seq<Step>)
      returns (locked: bool, ghost steps: seq<Step>)
      requires Reached(start, before, map[])
      modifies service`clock
      ensures service.clock == old(service.clock) + delay && locked == IsLocked(service.log, ip, old(service.clock))
      ensures Reached(start, steps, if locked then map[] else map[0 := Visit(ip, old(service.clock), Passed)])
    {
      ghost var arrive := ArriveStep(0, ip, service.clock);
      assert Visits(RunAll(start, 1, before), ip) == {};
      KeepFailuresSnoc(start, before, arrive);
      locked := service.CheckLockout(ip, delay);
      ghost var check := CheckStep(0, service.clock);
      KeepFailuresSnoc(start, before + [arrive], check);
      steps := before + [arrive] + [check];
    }

    /** Drops the stale entries of an IP's deque; true when the minute has room for one more. */
    method PassGate(ip: string, now: Time, ghost start: Sys, ghost before: seq<Step>)
      returns (room: bool, ghost steps: seq<Step>)
      requires Reached(start, before, map[0 := Visit(ip, now, Passed)])
      modifies this`recent
      ensures recent == old(recent)[ip := Prune(Recent(old(recent), ip), now)]
      ensures room <==> |Prune(Recent(old(recent), ip), now)| < MAX_ATTEMPTS_PER_MINUTE
      ensures Reached(start, steps, if room then map[0 := Visit(ip, now, Admitted)] else map[])
    {
      ghost var gate := GateStep(0, service.clock);
      KeepFailuresSnoc(start, before, gate);
      steps := before + [gate];
      var attempts := Recent(recent, ip);
      while attempts != [] && now - attempts[0] > MINUTE
        invariant Prune(attempts, now) == Prune(Recent(recent, ip), now)
        decreases |attempts|
      {
        attempts := attempts[1..];
      }
      recent := recent[ip := attempts];
      room := |attempts| < MAX_ATTEMPTS_PER_MINUTE;
    }

    /** The password check took `password`; its outcome goes to the deque, if bad, and to the log. */
    method Conclude(r: Request, now: Time, ghost start: Sys, ghost before: seq<Step>) returns (ghost steps: seq<Step>)
      requires Reached(start, before, map[0 := Visit(r.ip, now, Admitted)])
      modifies this`recent, service
      ensures Reached(start, steps, map[])
      ensures service.clock == old(service.clock) + r.delays.password + r.delays.record
      ensures service.log == old(service.log) + [Attempt(r.ip, service.clock, r.success)]
      ensures recent == if r.success then old(recent) else old(recent)[r.ip := Recent(old(recent), r.ip) + [now]]
    {
      service.clock := service.clock + r.delays.password;
      ghost var judge := JudgeStep(0, r.success, service.clock);
      KeepFailuresSnoc(start, before, judge);
      if !r.success {
        recent := recent[r.ip := Recent(recent, r.ip) + [now]];
      }
      service.RecordAttempt(r.ip, r.success, r.delays.record);
      ghost var record := RecordStep(0, service.clock);
      KeepFailuresSnoc(start, before + [judge], record);
      steps := before + [judge] + [record];
    }

    /** What an answer says about the log and the deque. */
    twostate predicate Leaves(answer: Answer, ip: string, now: Time)
      reads this, service
    {
      var minute := Prune(Recent(old(recent), ip), now);
      && old(service.clock) <= service.clock
      && service.log == old(service.log) + Recorded(answer, ip, service.clock)
      && recent == match answer
                   case LockedOut(_) => old(recent)
                   case InvalidCredentials => old(recent)[ip := minute + [now]]
                   case _ => old(recent)[ip := minute]
    }

    /** The request after the lockout check has let it through. */
    method Admit(r: Request, now: Time, ghost start: Sys, ghost before: seq<Step>)
      returns (answer: Answer, ghost steps: seq<Step>)
      requires Reached(start, before, map[0 := Visit(r.ip, now, Passed)])
      modifies this`recent, service
      ensures Reached(start, steps, map[])
      ensures answer == (if |Prune(Recent(old(recent), r.ip), now)| >= MAX_ATTEMPTS_PER_MINUTE then TooManyAttempts
                         else if r.success then Granted else InvalidCredentials)
      ensures Leaves(answer, r.ip, now)
    {
      var room;
      room, steps := PassGate(r.ip, now, start, before);
      if !room {
        return TooManyAttempts, steps;
      }
      steps := Conclude(r, now, start, steps);
      return if r.success then Granted else InvalidCredentials, steps;
    }

    /** One request from arrival to answer. */
    method IssueToken(r: Request, ghost start: Sys, ghost before: seq<Step>)
      returns (answer: Answer, ghost steps: seq<Step>)
      requires Reached(start, before, map[])
      modifies this`recent, service
      ensures Reached(start, steps, map[])
      ensures answer == Answered(old(service.log), Recent(old(recent), r.ip), r, old(service.clock))
      ensures Leaves(answer, r.ip, old(service.clock))
    {
      var now := service.clock;
      var locked;
      locked, steps := CheckIn(r.ip, r.delays.check, start, before);
      if locked {
        var minutes := service.GetRemainingLockout(r.ip, r.delays.wait);
        return LockedOut(minutes), steps;
      }
      answer, steps := Admit(r, now, start, steps);
    }
  }

  /** One request among others that come one after the other. A locked out IP is told a wait of up to fifteen
      minutes and leaves no trace. Otherwise the password decides the answer, which goes on record: the gate in
      front of it never refuses. */
  ghost predicate Served(log: seq<Attempt>, r: Request, now: Time, answer: Answer, log': seq<Attempt>, now': Time) {
    if |FailuresAt(log, r.ip, now - 15 * MINUTE)| >= 5 then
      answer.LockedOut? && 0 <= answer.minutes <= 15 && log' == log
    else
      && answer == (if r.success then Granted else InvalidCredentials)
      && log' == log + [Attempt(r.ip, now', r.success)]
  }

  /** One request, some time after the one before. */
  method Serve(endpoint: TokenEndpoint, r: Request, ghost start: Sys, ghost before: seq<Step>)
    returns (answer: Answer, ghost steps: seq<Step>)
    requires endpoint.Reached(start, before, map[])
    modifies endpoint`recent, endpoint.service
    ensures endpoint.Reached(start, steps, map[])
    ensures Served(old(endpoint.service.log), r, old(endpoint.service.clock) + r.idle, answer,
                   endpoint.service.log, endpoint.service.clock)
    ensures old(endpoint.service.clock) + r.idle <= endpoint.service.clock
  {
    var service := endpoint.service;
    service.clock := service.clock + r.idle;
    ghost var now := service.clock;
    answer, steps := endpoint.IssueToken(r, start, before);
    OneServed(start, before, r, now, answer, service.clock);
  }

  lemma OneServed(start: Sys, steps: seq<Step>, r: Request, now: Time, answer: Answer, at: Time)
    requires Init(start) && Valid(start, 1, steps) && AllKeepFailures(start, steps)
    requires var z := RunAll(start, 1, steps);
             z.open == map[] && z.clock <= now && answer == Answered(z.log, Recent(z.recent, r.ip), r, now)
    ensures var z := RunAll(start, 1, steps);
            Served(z.log, r, now, answer, z.log + Recorded(answer, r.ip, at), at)
  {
    var z := RunAll(start, 1, steps);
    ReachableIsCapped(start, 1, steps);
    if !IsLocked(z.log, r.ip, now) {
      ReachableIsCalm(start, steps);
      RoomForTheNext(z, r.ip, now);
    }
    ServedIfRoom(z.log, Recent(z.recent, r.ip), r, now, at);
  }

  lemma ServedIfRoom(log: seq<Attempt>, times: seq<Time>, r: Request, now: Time, at: Time)
    requires UpTo(log, now) && (!IsLocked(log, r.ip, now) ==> |Prune(times, now)| < MAX_ATTEMPTS_PER_MINUTE)
    ensures var answer := Answered(log, times, r, now);
            Served(log, r, now, answer, log + Recorded(answer, r.ip, at), at)
  {
    AnsweredRightly(log, times, r, now);
    var asked := now + r.delays.check;
    WaitIsBounded(log, r.ip, asked, asked + r.delays.wait);
  }

  /** The requests so far, one by one. */
  ghost predicate Chain(requests: seq<Request>, answers: seq<Answer>, logs: seq<seq<Attempt>>, times: seq<Time>) {
    && |answers| <= |requests| && |logs| == |times| == |answers| + 1 && logs[0] == []
    && forall k: nat :: k < |answers| ==> ServedAt(requests, answers, logs, times, k)
  }

  ghost predicate ServedAt(requests: seq<Request>, answers: seq<Answer>, logs: seq<seq<Attempt>>, times: seq<Time>,
                           k: nat)
    requires k < |answers| <= |requests| && |logs| == |times| == |answers| + 1
  {
    && times[k] + requests[k].idle <= times[k + 1]
    && Served(logs[k], requests[k], times[k] + requests[k].idle, answers[k], logs[k + 1], times[k + 1])
  }

  lemma OneMore(requests: seq<Request>, answers: seq<Answer>, logs: seq<seq<Attempt>>, times: seq<Time>,
                answer: Answer, log: seq<Attempt>, now: Time)
    requires Chain(requests, answers, logs, times) && |answers| < |requests|
    requires var n := |answers|;
             && times[n] + requests[n].idle <= now
             && Served(logs[n], requests[n], times[n] + requests[n].idle, answer, log, now)
    ensures Chain(requests, answers + [answer], logs + [log], times + [now])
  {
    forall k: nat | k < |answers| + 1
      ensures ServedAt(requests, answers + [answer], logs + [log], times + [now], k)
    {
      if k < |answers| {
        assert ServedAt(requests, answers, logs, times, k);
      }
    }
  }

  /** Requests of any IPs, one after the other, on a fresh log. `logs` and `times` are the log and the clock
      before each request and at the end. */
  method ServeInTurn(requests: seq<Request>)
    returns (log: seq<Attempt>, answers: seq<Answer>, ghost logs: seq<seq<Attempt>>, ghost times: seq<Time>)
    ensures |answers| == |requests| && Chain(requests, answers, logs, times) && logs[|requests|] == log
    ensures NoCrowdedWindow(log, MAX_FAILURES)
  {
    var service := new LoginAttemptService();
    var endpoint := new TokenEndpoint(service);
    ghost var start := Sys([], map[], map[], 0);
    ghost var steps := [];
    answers, logs, times := [], [[]], [0];
    for k := 0 to |requests|
      invariant endpoint.service == service && endpoint.Reached(start, steps, map[])
      invariant |answers| == k && Chain(requests, answers, logs, times)
      invariant logs[k] == service.log && times[k] == service.clock
      modifies endpoint, service
    {
      var answer, more := Serve(endpoint, requests[k], start, steps);
      OneMore(requests, answers, logs, times, answer, service.log, service.clock);
      answers, steps, logs, times := answers + [answer], more, logs + [service.log], times + [service.clock];
    }
    log := service.log;
    NoWindowHoldsMore(start, 1, steps);
  }
}
