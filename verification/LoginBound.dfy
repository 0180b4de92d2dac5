/** The bound on failures is attained: two overlapping requests are enough for a sixth failure. */
module LoginBound {
  import opened LoginLockout
  import opened LoginRuns

  /** The requests `lo` to `hi` of one IP have passed both gates; everything happens at time 0. */
  ghost predicate Crowd(s: Sys, ip: string, lo: nat, hi: nat) {
    && s.clock == 0 && lo <= hi && |s.open| == hi - lo
    && (forall id :: id in s.open <==> lo <= id < hi)
    && (forall id :: id in s.open ==> s.open[id] == Visit(ip, 0, Admitted))
    && (forall k :: 0 <= k < |Recent(s.recent, ip)| ==> Recent(s.recent, ip)[k] == 0)
    && |Recent(s.recent, ip)| == lo
    && FailuresSince(s.log, ip, -LOCKOUT) == lo && FailuresWithin(s.log, ip, 0, LOCKOUT) == lo
  }

  lemma VisitsAreOpen(s: Sys, ip: string)
    ensures |Visits(s, ip)| <= |s.open|
  {
    CardinalityOfSubset(Visits(s, ip), s.open.Keys);
  }

  lemma CheckLetsIn(s: Sys, overlap: nat, ip: string, lo: nat, hi: nat)
    requires Crowd(s, ip, lo, hi) && lo < MAX_FAILURES && hi - lo < overlap
    ensures var arrive, check := ArriveStep(hi, ip, 0), CheckStep(hi, 0);
            && Enabled(s, overlap, arrive) && Enabled(Apply(s, overlap, arrive), overlap, check)
            && Apply(Apply(s, overlap, arrive), overlap, check) == s.(open := s.open[hi := Visit(ip, 0, Passed)])
  {
    VisitsAreOpen(s, ip);
  }

  lemma GateLetsIn(s: Sys, overlap: nat, ip: string, lo: nat, hi: nat)
    requires Crowd(s, ip, lo, hi) && lo < MAX_FAILURES
    ensures var passed, gate := s.(open := s.open[hi := Visit(ip, 0, Passed)]), GateStep(hi, 0);
            Enabled(passed, overlap, gate) && Crowd(Apply(passed, overlap, gate), ip, lo, hi + 1)
  {
    var passed, gate := s.(open := s.open[hi := Visit(ip, 0, Passed)]), GateStep(hi, 0);
    assert Apply(passed, overlap, gate).open == s.open[hi := Visit(ip, 0, Admitted)];
  }

  lemma LetIn(start: Sys, overlap: nat, steps: seq<Step>, ip: string, lo: nat, hi: nat) returns (more: seq<Step>)
    requires Valid(start, overlap, steps) && Crowd(RunAll(start, overlap, steps), ip, lo, hi) && lo < MAX_FAILURES
             && hi - lo < overlap
    ensures Valid(start, overlap, more) && Crowd(RunAll(start, overlap, more), ip, lo, hi + 1)
  {
    var s := RunAll(start, overlap, steps);
    CheckLetsIn(s, overlap, ip, lo, hi);
    GateLetsIn(s, overlap, ip, lo, hi);
    var arrive, check, gate := ArriveStep(hi, ip, 0), CheckStep(hi, 0), GateStep(hi, 0);
    RunSnoc(start, overlap, steps, arrive);
    RunSnoc(start, overlap, steps + [arrive], check);
    RunSnoc(start, overlap, steps + [arrive] + [check], gate);
    more := steps + [arrive] + [check] + [gate];
  }

  /** The password of request `lo` is refused. */
  lemma JudgeRefuses(s: Sys, overlap: nat, ip: string, lo: nat, hi: nat)
    requires Crowd(s, ip, lo, hi) && lo < hi
    ensures var judge := JudgeStep(lo, false, 0);
            && Enabled(s, overlap, judge)
            && Apply(s, overlap, judge) == s.(recent := s.recent[ip := Recent(s.recent, ip) + [0]],
                                              open := s.open[lo := Visit(ip, 0, Judged(false))])
  {
  }

  lemma OneFewerOpen(open: map<nat, Visit>, id: nat)
    requires id in open
    ensures |open - {id}| == |open| - 1
  {
    assert (open - {id}).Keys == open.Keys - {id};
  }

  /** Its failure is recorded. */
  lemma RecordCounts(s: Sys, overlap: nat, ip: string, lo: nat, hi: nat)
    requires Crowd(s, ip, lo, hi) && lo < hi
    ensures var judged := s.(recent := s.recent[ip := Recent(s.recent, ip) + [0]],
                             open := s.open[lo := Visit(ip, 0, Judged(false))]);
            && Enabled(judged, overlap, RecordStep(lo, 0))
            && Crowd(Apply(judged, overlap, RecordStep(lo, 0)), ip, lo + 1, hi)
  {
    var judged := s.(recent := s.recent[ip := Recent(s.recent, ip) + [0]],
                     open := s.open[lo := Visit(ip, 0, Judged(false))]);
    var z := Apply(judged, overlap, RecordStep(lo, 0));
    assert z.open == s.open - {lo};
    OneFewerOpen(s.open, lo);
    assert z.log[..|s.log|] == s.log;
  }

  lemma FailOut(start: Sys, overlap: nat, steps: seq<Step>, ip: string, lo: nat, hi: nat) returns (more: seq<Step>)
    requires Valid(start, overlap, steps) && Crowd(RunAll(start, overlap, steps), ip, lo, hi) && lo < hi
    ensures Valid(start, overlap, more) && Crowd(RunAll(start, overlap, more), ip, lo + 1, hi)
  {
    var s := RunAll(start, overlap, steps);
    JudgeRefuses(s, overlap, ip, lo, hi);
    RecordCounts(s, overlap, ip, lo, hi);
    var judge, record := JudgeStep(lo, false, 0), RecordStep(lo, 0);
    RunSnoc(start, overlap, steps, judge);
    RunSnoc(start, overlap, steps + [judge], record);
    more := steps + [judge] + [record];
  }

  lemma {:induction false} LetInAll(start: Sys, overlap: nat, steps: seq<Step>, ip: string, lo: nat, n: nat)
    returns (more: seq<Step>)
    requires Valid(start, overlap, steps) && Crowd(RunAll(start, overlap, steps), ip, lo, lo) && lo < MAX_FAILURES
             && n <= overlap
    ensures Valid(start, overlap, more) && Crowd(RunAll(start, overlap, more), ip, lo, lo + n)
  {
    if n == 0 {
      more := steps;
    } else {
      more := LetInAll(start, overlap, steps, ip, lo, n - 1);
      more := LetIn(start, overlap, more, ip, lo, lo + n - 1);
    }
  }

  lemma {:induction false} FailOutAll(start: Sys, overlap: nat, steps: seq<Step>, ip: string, lo: nat, hi: nat)
    returns (more: seq<Step>)
    requires Valid(start, overlap, steps) && Crowd(RunAll(start, overlap, steps), ip, lo, hi)
    ensures Valid(start, overlap, more) && Crowd(RunAll(start, overlap, more), ip, hi, hi)
    decreases hi - lo
  {
    more := steps;
    if lo < hi {
      more := FailOut(start, overlap, steps, ip, lo, hi);
      more := FailOutAll(start, overlap, more, ip, lo + 1, hi);
    }
  }

  lemma {:induction false} FailInTurn(start: Sys, overlap: nat, ip: string, n: nat) returns (steps: seq<Step>)
    requires start == Sys([], map[], map[], 0) && n <= MAX_FAILURES - 1 && 0 < overlap
    ensures Valid(start, overlap, steps) && Crowd(RunAll(start, overlap, steps), ip, n, n)
  {
    if n == 0 {
      steps := [];
    } else {
      steps := FailInTurn(start, overlap, ip, n - 1);
      steps := LetInAll(start, overlap, steps, ip, n - 1, 1);
      steps := FailOutAll(start, overlap, steps, ip, n - 1, n);
    }
  }

  /** With up to `overlap` requests of an IP in progress together, `4 + overlap` failures do fit one window. */
  lemma BoundIsAttained(overlap: nat, ip: string) returns (start: Sys, steps: seq<Step>)
    requires 0 < overlap
    ensures Init(start) && Valid(start, overlap, steps)
    ensures FailuresWithin(RunAll(start, overlap, steps).log, ip, 0, LOCKOUT) == MAX_FAILURES - 1 + overlap
  {
    start := Sys([], map[], map[], 0);
    steps := FailInTurn(start, overlap, ip, MAX_FAILURES - 1);
    steps := LetInAll(start, overlap, steps, ip, MAX_FAILURES - 1, overlap);
    steps := FailOutAll(start, overlap, steps, ip, MAX_FAILURES - 1, MAX_FAILURES - 1 + overlap);
  }
}
