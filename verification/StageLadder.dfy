/** The stage ladder of the CRM board: which stage changes are let through, over whole runs. */
module StageLadder {
  import opened Words

  const REOPEN_STAGE_LABEL := "Conversando"
  const DEFAULT_STAGE_HIERARCHY := ["Nuevo", "Conversando", "Calificando", "Listo para Handoff", "Handoff Hecho"]
  const DEFAULT_TERMINAL_STAGES := ["Handoff Hecho"]

  datatype Rules = Rules(hierarchy: seq<string>, terminal: seq<string>, special: seq<string>)

  const DEFAULT_RULES := Rules(DEFAULT_STAGE_HIERARCHY, DEFAULT_TERMINAL_STAGES, [])

  /** `list.index`. */
  function Index(labels: seq<string>, stage: string): (i: nat)
    requires stage in labels
    ensures i < |labels| && labels[i] == stage && stage !in labels[..i]
  {
    if labels[0] == stage then 0
    else
      assert labels == [labels[0]] + labels[1..];
      1 + Index(labels[1..], stage)
  }

  /** `_can_advance_stage`. */
  predicate CanAdvance(r: Rules, currentLabel: string, newLabel: string) {
    var now, next := Strip(currentLabel), Strip(newLabel);
    if next in r.special then true
    else if now in r.terminal && next == REOPEN_STAGE_LABEL then true
    else if next !in r.hierarchy then true
    else if now !in r.hierarchy then true
    else Index(r.hierarchy, next) > Index(r.hierarchy, now)
  }

  /** A change is refused exactly when both labels are on the ladder, the new one first stands no higher than
      the current one, and neither a special label nor a reopening lets it through. */
  lemma RefusedIff(r: Rules, currentLabel: string, newLabel: string)
    ensures var now, next := Strip(currentLabel), Strip(newLabel);
            !CanAdvance(r, currentLabel, newLabel) <==>
            && next !in r.special && !(now in r.terminal && next == "Conversando")
            && now in r.hierarchy && next in r.hierarchy
            && forall i :: 0 <= i < |r.hierarchy| && r.hierarchy[i] == now ==> next in r.hierarchy[..i + 1]
  {
    var h, now, next := r.hierarchy, Strip(currentLabel), Strip(newLabel);
    if now in h && next in h {
      var i, j := Index(h, now), Index(h, next);
      forall k | 0 <= k < |h| && h[k] == now
        ensures i <= k && (next in h[..k + 1] <==> j <= k)
      {
        FirstPlace(h, now, k);
        FirstPlace(h, next, k);
        assert h[..k + 1][k] == now;
      }
    }
  }

  lemma FirstPlace(labels: seq<string>, stage: string, k: nat)
    requires stage in labels && k < |labels|
    ensures stage in labels[..k + 1] <==> Index(labels, stage) <= k
  {
    var i := Index(labels, stage);
    if i <= k {
      assert labels[..k + 1][i] == stage;
    } else {
      var front := labels[..k + 1];
      assert forall m :: 0 <= m < |front| ==> front[m] == labels[..i][m];
    }
  }

  /** The board's stage label after a request to change it. */
  function ChangeStage(r: Rules, current: string, stage: string): string {
    if current != "" && !CanAdvance(r, current, stage) then current else stage
  }

  /** The label column of one board item, as `change_stage` leaves it. */
  class StageColumn {
    var stage: string

    constructor (stage: string)
      ensures this.stage == stage
    {
      this.stage := stage;
    }

    method Change(r: Rules, newLabel: string) returns (accepted: bool)
      modifies this
      ensures stage == ChangeStage(r, old(stage), newLabel)
      ensures accepted <==> old(stage) == "" || CanAdvance(r, old(stage), newLabel)
    {
      if stage != "" && !CanAdvance(r, stage, newLabel) {
        return false;
      }
      stage := newLabel;
      return true;
    }
  }

  // ----- runs

  ghost predicate OnLadder(r: Rules, stage: string) {
    stage != "" && Strip(stage) in r.hierarchy
  }

  ghost function Rung(r: Rules, stage: string): nat
    requires OnLadder(r, stage)
  {
    Index(r.hierarchy, Strip(stage))
  }

  ghost predicate Reopens(r: Rules, current: string, stage: string) {
    Strip(current) in r.terminal && Strip(stage) == REOPEN_STAGE_LABEL
  }

  ghost function Accepted(r: Rules, current: string, labels: seq<string>): nat
    decreases |labels|
  {
    if labels == [] then 0
    else
      (if current == "" || CanAdvance(r, current, labels[0]) then 1 else 0)
      + Accepted(r, ChangeStage(r, current, labels[0]), labels[1..])
  }

  ghost function Reopenings(r: Rules, current: string, labels: seq<string>): nat
    decreases |labels|
  {
    if labels == [] then 0
    else
      (if Reopens(r, current, labels[0]) then 1 else 0)
      + Reopenings(r, ChangeStage(r, current, labels[0]), labels[1..])
  }

  // ----- the same runs by rung number

  /** The rungs of a ladder: how many, which one reopens, and from which ones. */
  datatype Rungs = Rungs(count: nat, reopen: nat, terminal: set<nat>)

  ghost predicate ReopensRung(g: Rungs, current: nat, next: nat) {
    current in g.terminal && next == g.reopen
  }

  ghost function Move(g: Rungs, current: nat, next: nat): nat {
    if current < next || ReopensRung(g, current, next) then next else current
  }

  ghost function AcceptedRungs(g: Rungs, current: nat, requests: seq<nat>): nat
    decreases |requests|
  {
    if requests == [] then 0
    else
      (if current < requests[0] || ReopensRung(g, current, requests[0]) then 1 else 0)
      + AcceptedRungs(g, Move(g, current, requests[0]), requests[1..])
  }

  ghost function ReopenedRungs(g: Rungs, current: nat, requests: seq<nat>): nat
    decreases |requests|
  {
    if requests == [] then 0
    else
      (if ReopensRung(g, current, requests[0]) then 1 else 0)
      + ReopenedRungs(g, Move(g, current, requests[0]), requests[1..])
  }

  /** Accepted changes use up the rungs above; a reopening regains those from the reopening rung up. */
  lemma {:induction false} RungsBound(g: Rungs, current: nat, requests: seq<nat>)
    requires current < g.count && g.reopen < g.count && forall i :: 0 <= i < |requests| ==> requests[i] < g.count
    ensures AcceptedRungs(g, current, requests) <= (g.count - 1 - current)
            + ReopenedRungs(g, current, requests) * (g.count - g.reopen)
    decreases |requests|
  {
    if requests != [] {
      RungsBound(g, Move(g, current, requests[0]), requests[1..]);
      var m, step := ReopenedRungs(g, Move(g, current, requests[0]), requests[1..]), g.count - g.reopen;
      assert (1 + m) * step == step + m * step;
    }
  }

  ghost predicate Ladder(r: Rules) {
    && r.special == [] && REOPEN_STAGE_LABEL in r.hierarchy
    && forall i, j :: 0 <= i < j < |r.hierarchy| ==> r.hierarchy[i] != r.hierarchy[j]
  }

  ghost function RungsOf(r: Rules): Rungs
    requires Ladder(r)
  {
    Rungs(|r.hierarchy|, Index(r.hierarchy, REOPEN_STAGE_LABEL),
          set i: nat | i < |r.hierarchy| && r.hierarchy[i] in r.terminal)
  }

  /** Between labels on the ladder, a change is accepted exactly when it climbs or reopens. */
  lemma AcceptedClimbsOrReopens(r: Rules, current: string, stage: string)
    requires Ladder(r) && OnLadder(r, current) && OnLadder(r, stage)
    ensures Reopens(r, current, stage) <==> ReopensRung(RungsOf(r), Rung(r, current), Rung(r, stage))
    ensures CanAdvance(r, current, stage) <==> Rung(r, current) < Rung(r, stage) || Reopens(r, current, stage)
  {
    var h := r.hierarchy;
    assert h[Rung(r, current)] == Strip(current) && h[Rung(r, stage)] == Strip(stage);
    assert h[Index(h, REOPEN_STAGE_LABEL)] == REOPEN_STAGE_LABEL;
  }

  ghost function RungSeq(r: Rules, labels: seq<string>): (rungs: seq<nat>)
    requires forall i :: 0 <= i < |labels| ==> OnLadder(r, labels[i])
    ensures |rungs| == |labels| && forall i :: 0 <= i < |rungs| ==> rungs[i] == Rung(r, labels[i])
  {
    if labels == [] then [] else [Rung(r, labels[0])] + RungSeq(r, labels[1..])
  }

  lemma StepByRung(r: Rules, current: string, stage: string)
    requires Ladder(r) && OnLadder(r, current) && OnLadder(r, stage)
    ensures OnLadder(r, ChangeStage(r, current, stage))
    ensures Rung(r, ChangeStage(r, current, stage)) == Move(RungsOf(r), Rung(r, current), Rung(r, stage))
    ensures Lets(r, current, stage) <==>
            Rung(r, current) < Rung(r, stage) || ReopensRung(RungsOf(r), Rung(r, current), Rung(r, stage))
    ensures Reopens(r, current, stage) <==> ReopensRung(RungsOf(r), Rung(r, current), Rung(r, stage))
  {
    AcceptedClimbsOrReopens(r, current, stage);
  }

  ghost predicate Lets(r: Rules, current: string, stage: string) {
    current == "" || CanAdvance(r, current, stage)
  }

  lemma RunCons(r: Rules, current: string, labels: seq<string>)
    requires labels != []
    ensures var first, rest := labels[0], labels[1..];
            var after := ChangeStage(r, current, first);
            && Accepted(r, current, labels) == (if Lets(r, current, first) then 1 else 0) + Accepted(r, after, rest)
            && Reopenings(r, current, labels) ==
               (if Reopens(r, current, first) then 1 else 0) + Reopenings(r, after, rest)
  {
  }

  /** Runs over labels and runs over rungs accept and reopen alike. */
  lemma {:induction false} RunByRung(r: Rules, current: string, labels: seq<string>)
    requires Ladder(r) && OnLadder(r, current) && forall i :: 0 <= i < |labels| ==> OnLadder(r, labels[i])
    ensures Accepted(r, current, labels) == AcceptedRungs(RungsOf(r), Rung(r, current), RungSeq(r, labels))
    ensures Reopenings(r, current, labels) == ReopenedRungs(RungsOf(r), Rung(r, current), RungSeq(r, labels))
    decreases |labels|
  {
    if labels != [] {
      var first, rest := labels[0], labels[1..];
      StepByRung(r, current, first);
      RunByRung(r, ChangeStage(r, current, first), rest);
      RungsCons(RungsOf(r), Rung(r, current), Rung(r, first), RungSeq(r, rest));
      RunCons(r, current, labels);
    }
  }

  lemma RungsCons(g: Rungs, current: nat, first: nat, rest: seq<nat>)
    ensures AcceptedRungs(g, current, [first] + rest) ==
            (if current < first || ReopensRung(g, current, first) then 1 else 0)
                + AcceptedRungs(g, Move(g, current, first), rest)
    ensures ReopenedRungs(g, current, [first] + rest) ==
            (if ReopensRung(g, current, first) then 1 else 0) + ReopenedRungs(g, Move(g, current, first), rest)
  {
    assert ([first] + rest)[1..] == rest;
  }

  /** A ladder of n rungs, reopened r times at rung k, lets through at most the rungs above the start
      plus n - k changes for every reopening. */
  lemma AcceptedAreBounded(r: Rules, current: string, labels: seq<string>)
    requires Ladder(r) && OnLadder(r, current) && forall i :: 0 <= i < |labels| ==> OnLadder(r, labels[i])
    ensures var n, k := |r.hierarchy|, Index(r.hierarchy, REOPEN_STAGE_LABEL);
            Accepted(r, current, labels) <= (n - 1 - Rung(r, current)) + Reopenings(r, current, labels) * (n - k)
  {
    RunByRung(r, current, labels);
    RungsBound(RungsOf(r), Rung(r, current), RungSeq(r, labels));
  }

  lemma DefaultIsLadder()
    ensures Ladder(DEFAULT_RULES) && |DEFAULT_STAGE_HIERARCHY| == 5
            && Index(DEFAULT_STAGE_HIERARCHY, REOPEN_STAGE_LABEL) == 1
  {
    var h := DEFAULT_STAGE_HIERARCHY;
    assert h[0][0] == 'N' && h[1][1] == 'o' && h[2][1] == 'a' && h[3][0] == 'L' && h[4][0] == 'H'
           && h[1][0] == h[2][0] == 'C';
    assert h[1] == REOPEN_STAGE_LABEL;
  }

  /** With the default ladder a run with r reopenings accepts at most 4 + 4r changes. */
  lemma DefaultLadderBound(current: string, labels: seq<string>)
    requires OnLadder(DEFAULT_RULES, current) && forall i :: 0 <= i < |labels| ==> OnLadder(DEFAULT_RULES, labels[i])
    ensures Accepted(DEFAULT_RULES, current, labels) <= 4 + 4 * Reopenings(DEFAULT_RULES, current, labels)
  {
    DefaultIsLadder();
    AcceptedAreBounded(DEFAULT_RULES, current, labels);
  }

  /** From the top of a five-rung ladder: reopen on rung 1 and climb back, `times` times. */
  ghost function ClimbAgain(times: nat): seq<nat> {
    if times == 0 then [] else [1, 2, 3, 4] + ClimbAgain(times - 1)
  }

  const FIVE_RUNGS := Rungs(5, 1, {4})

  lemma {:induction false} EveryReopeningGivesFour(times: nat)
    ensures AcceptedRungs(FIVE_RUNGS, 4, ClimbAgain(times)) == 4 * times
            && ReopenedRungs(FIVE_RUNGS, 4, ClimbAgain(times)) == times
  {
    if times > 0 {
      var rest := ClimbAgain(times - 1);
      EveryReopeningGivesFour(times - 1);
      assert [1, 2, 3, 4] + rest == [1] + ([2] + ([3] + ([4] + rest)));
      RungsCons(FIVE_RUNGS, 4, 1, [2] + ([3] + ([4] + rest)));
      RungsCons(FIVE_RUNGS, 1, 2, [3] + ([4] + rest));
      RungsCons(FIVE_RUNGS, 2, 3, [4] + rest);
      RungsCons(FIVE_RUNGS, 3, 4, rest);
    }
  }

  lemma FiveRungsAreMet(times: nat)
    ensures var requests := [1, 2, 3, 4] + ClimbAgain(times);
            && ReopenedRungs(FIVE_RUNGS, 0, requests) == times
            && AcceptedRungs(FIVE_RUNGS, 0, requests) == 4 + 4 * times
  {
    var rest := ClimbAgain(times);
    EveryReopeningGivesFour(times);
    assert [1, 2, 3, 4] + rest == [1] + ([2] + ([3] + ([4] + rest)));
    RungsCons(FIVE_RUNGS, 0, 1, [2] + ([3] + ([4] + rest)));
    RungsCons(FIVE_RUNGS, 1, 2, [3] + ([4] + rest));
    RungsCons(FIVE_RUNGS, 2, 3, [4] + rest);
    RungsCons(FIVE_RUNGS, 3, 4, rest);
  }

  lemma {:induction false} ClimbsStayOnTheLadder(times: nat)
    ensures forall k :: 0 <= k < |ClimbAgain(times)| ==> ClimbAgain(times)[k] < 5
  {
    if times > 0 {
      ClimbsStayOnTheLadder(times - 1);
    }
  }

  lemma DefaultRung(i: nat)
    requires i < 5
    ensures OnLadder(DEFAULT_RULES, DEFAULT_STAGE_HIERARCHY[i]) && Rung(DEFAULT_RULES, DEFAULT_STAGE_HIERARCHY[i]) == i
  {
    DefaultIsLadder();
    var h := DEFAULT_STAGE_HIERARCHY;
    LabelsAreTrimmed(i);
    StripOfTrimmed(h[i]);
    assert h[Index(h, h[i])] == h[i];
  }

  lemma LabelsAreTrimmed(i: nat)
    requires i < 5
    ensures var stage := DEFAULT_STAGE_HIERARCHY[i]; stage != "" && !IsSpace(stage[0]) && !IsSpace(stage[|stage| - 1])
  {
    var h := DEFAULT_STAGE_HIERARCHY;
    assert h[0][0] == 'N' && h[1][0] == 'C' && h[2][0] == 'C' && h[3][0] == 'L' && h[4][0] == 'H';
    assert h[0][4] == 'o' && h[1][10] == 'o' && h[2][10] == 'o' && h[3][17] == 'f' && h[4][12] == 'o';
  }

  lemma DefaultRungs()
    ensures Ladder(DEFAULT_RULES) && RungsOf(DEFAULT_RULES) == FIVE_RUNGS
  {
    DefaultIsLadder();
    var h := DEFAULT_STAGE_HIERARCHY;
    assert DEFAULT_TERMINAL_STAGES == [h[4]];
    assert RungsOf(DEFAULT_RULES).terminal == {4};
  }

  /** The labels a run of rung numbers stands for. */
  ghost function LabelsOf(requests: seq<nat>): seq<string>
    requires forall k :: 0 <= k < |requests| ==> requests[k] < 5
  {
    seq(|requests|, k requires 0 <= k < |requests| => DEFAULT_STAGE_HIERARCHY[requests[k]])
  }

  lemma LabelsAreOnTheirRungs(requests: seq<nat>)
    requires forall k :: 0 <= k < |requests| ==> requests[k] < 5
    ensures forall k :: 0 <= k < |requests| ==> OnLadder(DEFAULT_RULES, LabelsOf(requests)[k])
    ensures RungSeq(DEFAULT_RULES, LabelsOf(requests)) == requests
  {
    forall k | 0 <= k < |requests|
      ensures OnLadder(DEFAULT_RULES, LabelsOf(requests)[k])
              && Rung(DEFAULT_RULES, LabelsOf(requests)[k]) == requests[k]
    {
      DefaultRung(requests[k]);
    }
  }

  /** With the default ladder the bound is met: from its first label some run of its labels with the given
      number of reopenings accepts exactly four changes and four more for every reopening. */
  lemma BoundIsMet(times: nat) returns (labels: seq<string>)
    ensures forall k :: 0 <= k < |labels| ==> OnLadder(DEFAULT_RULES, labels[k])
    ensures Reopenings(DEFAULT_RULES, "Nuevo", labels) == times
    ensures Accepted(DEFAULT_RULES, "Nuevo", labels) == 4 + 4 * times
  {
    var requests := [1, 2, 3, 4] + ClimbAgain(times);
    ClimbsStayOnTheLadder(times);
    labels := LabelsOf(requests);
    LabelsAreOnTheirRungs(requests);
    DefaultRungs();
    DefaultRung(0);
    RunByRung(DEFAULT_RULES, "Nuevo", labels);
    FiveRungsAreMet(times);
  }
}
