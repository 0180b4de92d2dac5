/** What is sent: every message carries the text of its own row. */
module OutboundContent {
  import opened OutboundQueue
  import opened OutboundRuns
  import opened OutboundSafety

  ghost predicate SameAsRow(rows: seq<Row>, item: Item) {
    item.id < |rows| && item.payload == rows[item.id].payload
  }

  ghost predicate TrueToRow(rows: seq<Row>, send: Send) {
    send.id < |rows| && rows[send.id].payload.message == Rendered(send.text) && send.text != "" && send.to != ""
  }

  ghost predicate Faithful(s: Sys) {
    && (forall w: nat, k: nat :: Holds(s, w, k) ==> SameAsRow(s.rows, s.runs[w].batch[k]))
    && (forall j :: 0 <= j < |s.sends| ==> TrueToRow(s.rows, s.sends[j]))
  }

  lemma PayloadStays(s: Sys, step: Step, i: nat)
    requires Owned(s) && Enabled(s, step) && i < |s.rows|
    ensures i < |Apply(s, step).rows| && Apply(s, step).rows[i].payload == s.rows[i].payload
  {
    StatusesMoveForward(s, step, i);
  }

  lemma ItemsStaySame(s: Sys, step: Step, w: nat, k: nat)
    requires Owned(s) && Faithful(s) && Enabled(s, step) && Holds(Apply(s, step), w, k)
    ensures SameAsRow(Apply(s, step).rows, Apply(s, step).runs[w].batch[k])
  {
    if step.ClaimStep? {
      ClaimsOnlyPending(s, step);
      ClaimedItems(s, step, w, k);
    } else {
      NothingNewToDo(s, step, w, k);
    }
    if !(step.ClaimStep? && w == step.worker) {
      assert SameAsRow(s.rows, s.runs[w].batch[k]);
      PayloadStays(s, step, At(s, w, k));
    }
  }

  lemma SendsStayTrue(s: Sys, step: Step, j: nat)
    requires Owned(s) && Faithful(s) && Enabled(s, step) && j < |Apply(s, step).sends|
    ensures TrueToRow(Apply(s, step).rows, Apply(s, step).sends[j])
  {
    var send := Apply(s, step).sends[j];
    if j == |s.sends| {
      var w := step.worker;
      var item := Head(s, w);
      assert Holds(s, w, s.runs[w].next) && SameAsRow(s.rows, item);
      DeliversIff(item, send.to, send.text);
      PhoneIsFirstUsable(item.leadPhone, item.payload);
    } else {
      assert TrueToRow(s.rows, s.sends[j]);
    }
    PayloadStays(s, step, send.id);
  }

  lemma StepKeepsFaithful(s: Sys, step: Step)
    requires Owned(s) && Faithful(s) && Enabled(s, step)
    ensures Faithful(Apply(s, step))
  {
    var s' := Apply(s, step);
    forall w: nat, k: nat | Holds(s', w, k)
      ensures SameAsRow(s'.rows, s'.runs[w].batch[k])
    {
      ItemsStaySame(s, step, w, k);
    }
    forall j: nat | j < |s'.sends|
      ensures TrueToRow(s'.rows, s'.sends[j])
    {
      SendsStayTrue(s, step, j);
    }
  }

  /** In every run of any number of workers each message sent has a phone and carries the rendered,
      non-empty text of the row it is for. */
  lemma {:induction false} ReachableIsFaithful(s: Sys, steps: seq<Step>)
    requires Init(s) && Valid(s, steps)
    ensures Faithful(RunAll(s, steps))
    decreases |steps|
  {
    if steps != [] {
      var before := steps[..|steps| - 1];
      ReachableIsFaithful(s, before);
      ReachableIsSafe(s, before);
      StepKeepsFaithful(RunAll(s, before), steps[|steps| - 1]);
    }
  }
}
