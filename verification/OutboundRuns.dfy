/**
 The outbound queue and any number of campaign workers as one transition system. Each repository
 call and each message sent is one step, and a worker may stop dead between any two. `sends` is the
 history of calls to the messaging provider and `results` that of completed runs.
 */
module OutboundRuns {
  import opened Common
  import opened Batching
  import opened Words
  import opened OutboundQueue

  datatype Phase = Ready | Delivered | Raised(error: string)

  datatype Run = Run(batch: seq<Item>, next: nat, phase: Phase, succeeded: nat, failed: nat)

  datatype Send = Send(id: nat, to: string, text: string, delivered: bool)

  datatype Result = Result(batch: seq<Item>, processed: nat, succeeded: nat, failed: nat)

  datatype Sys = Sys(rows: seq<Row>, runs: map<nat, Run>, sends: seq<Send>, results: seq<Result>, now: Time)

  datatype Verdict = Raises(error: string) | Reject(reason: string) | Deliver(to: string, text: string)

  /** A field that is present and not blank, stripped. */
  function Usable(field: Option<string>): Option<string> {
    if field.Some? && Strip(field.value) != "" then Some(Strip(field.value)) else None
  }

  function ResolvePhone(leadPhone: Option<string>, payload: Payload): Option<string> {
    if Usable(leadPhone).Some? then Usable(leadPhone)
    else if Usable(payload.phone).Some? then Usable(payload.phone)
    else Usable(payload.to)
  }

  /** What the worker does with an item before it calls anyone. */
  function Judge(item: Item): Verdict {
    var phone := ResolvePhone(item.leadPhone, item.payload);
    match item.payload.message
    case Broken(error) => Raises(error)
    case Rendered(text) =>
      if phone.None? then Reject("missing_phone")
      else if text == "" then Reject("missing_message")
      else Deliver(phone.value, text)
  }

  /** The lead's own phone comes first, then the payload's "phone", then its "to"; blank fields are passed over. */
  lemma PhoneIsFirstUsable(leadPhone: Option<string>, payload: Payload)
    ensures var fields := [leadPhone, payload.phone, payload.to];
            match ResolvePhone(leadPhone, payload)
            case None => forall i :: 0 <= i < 3 ==> Usable(fields[i]).None?
            case Some(phone) =>
              && phone != ""
              && exists i :: 0 <= i < 3 && Usable(fields[i]) == Some(phone)
                             && forall j :: 0 <= j < i ==> Usable(fields[j]).None?
  {
    var fields := [leadPhone, payload.phone, payload.to];
    assert Usable(fields[0]).Some? || Usable(fields[1]).Some? || Usable(fields[2]) == ResolvePhone(leadPhone, payload);
  }

  /** An item is sent exactly when its template renders to a text, not an empty one, and there is a phone. */
  lemma DeliversIff(item: Item, to: string, text: string)
    ensures Judge(item) == Deliver(to, text) <==>
            item.payload.message == Rendered(text) && text != ""
                && ResolvePhone(item.leadPhone, item.payload) == Some(to)
  {
  }

  datatype Step =
    | EnqueueStep(lead: Option<nat>, payload: Payload, priority: int, scheduledAt: Time, at: Time)
    | ClaimStep(worker: nat, ids: seq<nat>, limit: nat, leads: map<nat, string>, at: Time)
    | JudgeStep(worker: nat, error: Option<string>, at: Time)
    | MarkSentStep(worker: nat, dbError: Option<string>, at: Time)
    | MarkFailedStep(worker: nat, dbDown: bool, at: Time)
    | FinishStep(worker: nat, at: Time)
    | StopStep(worker: nat, at: Time)

  ghost predicate Busy(s: Sys, w: nat) {
    w in s.runs && s.runs[w].next < |s.runs[w].batch|
  }

  ghost predicate Enabled(s: Sys, step: Step) {
    && s.now <= step.at
    && match step
       case EnqueueStep(_, _, priority, _, _) => priority in {0, 1}
       case ClaimStep(w, ids, limit, _, at) =>
         w !in s.runs && LeastBatch(SendRanks(s.rows), DueRows(s.rows, at), limit, ids)
       case JudgeStep(w, _, _) => Busy(s, w) && s.runs[w].phase.Ready?
       case MarkSentStep(w, _, _) => Busy(s, w) && s.runs[w].phase.Delivered?
       case MarkFailedStep(w, _, _) => Busy(s, w) && s.runs[w].phase.Raised?
       case FinishStep(w, _) => w in s.runs && s.runs[w].next == |s.runs[w].batch|
       case StopStep(w, _) => w in s.runs
  }

  ghost function Head(s: Sys, w: nat): Item
    requires Busy(s, w)
  {
    s.runs[w].batch[s.runs[w].next]
  }

  function Raise(run: Run, error: string): Run {
    run.(phase := Raised(error))
  }

  function CountSuccess(run: Run): Run {
    run.(next := run.next + 1, phase := Ready, succeeded := run.succeeded + 1)
  }

  function CountFailure(run: Run): Run {
    run.(next := run.next + 1, phase := Ready, failed := run.failed + 1)
  }

  ghost function ApplyJudge(s: Sys, w: nat, error: Option<string>): Sys
    requires Busy(s, w)
  {
    var run, item := s.runs[w], Head(s, w);
    match Judge(item)
    case Raises(e) => s.(runs := s.runs[w := Raise(run, e)])
    case Reject(reason) =>
      if error.Some? then s.(runs := s.runs[w := Raise(run, error.value)])
      else s.(rows := MarkFailed(s.rows, item.id, reason), runs := s.runs[w := CountFailure(run)])
    case Deliver(to, text) =>
      s.(sends := s.sends + [Send(item.id, to, text, error.None?)],
         runs := s.runs[w := if error.Some? then Raise(run, error.value) else run.(phase := Delivered)])
  }

  ghost function Apply(s: Sys, step: Step): Sys
    requires Enabled(s, step)
  {
    var u := s.(now := step.at);
    match step
    case EnqueueStep(lead, payload, priority, scheduledAt, _) =>
      u.(rows := s.rows + [Row(lead, payload, priority, scheduledAt, Pending, 0, None, None)])
    case ClaimStep(w, ids, limit, leads, at) =>
      assert forall k :: 0 <= k < |ids| ==> ids[k] in DueRows(s.rows, at);
      u.(rows := Claim(s.rows, ids), runs := s.runs[w := Run(Items(s.rows, ids, leads), 0, Ready, 0, 0)])
    case JudgeStep(w, error, _) => ApplyJudge(u, w, error)
    case MarkSentStep(w, dbError, at) =>
      if dbError.Some? then u.(runs := s.runs[w := Raise(s.runs[w], dbError.value)])
      else u.(rows := MarkSent(s.rows, Head(s, w).id, at), runs := s.runs[w := CountSuccess(s.runs[w])])
    case MarkFailedStep(w, dbDown, _) =>
      if dbDown then u.(runs := s.runs - {w})
      else u.(rows := MarkFailed(s.rows, Head(s, w).id, s.runs[w].phase.error),
              runs := s.runs[w := CountFailure(s.runs[w])])
    case FinishStep(w, _) =>
      var run := s.runs[w];
      u.(runs := s.runs - {w}, results := s.results + [Result(run.batch, |run.batch|, run.succeeded, run.failed)])
    case StopStep(w, _) => u.(runs := s.runs - {w})
  }

  ghost predicate Init(s: Sys) {
    s.rows == [] && s.runs == map[] && s.sends == [] && s.results == []
  }

  ghost predicate Valid(s: Sys, steps: seq<Step>)
    decreases |steps|, 0
  {
    steps == [] || (Valid(s, steps[..|steps| - 1]) && Enabled(RunAll(s, steps[..|steps| - 1]), steps[|steps| - 1]))
  }

  ghost function RunAll(s: Sys, steps: seq<Step>): Sys
    requires Valid(s, steps)
    decreases |steps|, 1
  {
    if steps == [] then s else Apply(RunAll(s, steps[..|steps| - 1]), steps[|steps| - 1])
  }

  lemma RunSnoc(s: Sys, steps: seq<Step>, step: Step)
    requires Valid(s, steps) && Enabled(RunAll(s, steps), step)
    ensures Valid(s, steps + [step]) && RunAll(s, steps + [step]) == Apply(RunAll(s, steps), step)
  {
    assert (steps + [step])[..|steps|] == steps;
  }
}
