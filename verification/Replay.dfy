/** Replaying a conversation log through one engine, and the live path that builds an engine per message. */
module Replay {
  import opened Common
  import opened Fsm
  import opened Keywords

  datatype Record = Record(event: LoggedEvent, fsmEvent: Option<string>, before: string, after: string,
                           actions: seq<string>, taken: bool)

  datatype Vocabulary = Vocabulary(optOut: seq<string>, handoff: seq<string>)

  /** What stays the same over one replay. `context` gives the guard context with the opt-out flag up or down. */
  datatype Setting<!C> = Setting(config: Config, guards: Guards<C>, actions: Actions<C>, keywords: Vocabulary,
                                 context: bool -> C)

  const HANDOFF_ACTIVE := "handoff_active"

  function Infer<C>(x: Setting<C>, e: LoggedEvent): Option<string> {
    InferFsmEvent(e, x.keywords.optOut, x.keywords.handoff)
  }

  function ContextFor<C>(x: Setting<C>, fsmEvent: string): C {
    x.context(fsmEvent == OPT_OUT_DETECTED)
  }

  /** The record of one log event, or the error that ends the replay. */
  function Step<C>(x: Setting<C>, state: string, e: LoggedEvent): (r: Result<Record>)
    requires Closed(x.config) && state in x.config.states
    ensures r.Ok? ==> r.value.event == e && r.value.before == state && r.value.after in x.config.states
                      && r.value.fsmEvent == Infer(x, e)
  {
    match Infer(x, e)
    case None => Ok(Record(e, None, state, state, [], false))
    case Some(f) =>
      TargetsStayKnown(x.config, x.guards, x.actions, state, f, ContextFor(x, f));
      match Process(x.config, x.guards, x.actions, state, f, ContextFor(x, f))
      case Err(error) => Err(error)
      case Ok(o) => Ok(Record(e, Some(f), state, o.newState, o.actions, o.taken))
  }

  /** A log event that drives the machine: the chosen transition is recorded with its actions in order, with the
      opt-out flag up exactly for an opt-out. */
  lemma ChosenIsRecorded<C>(x: Setting<C>, state: string, e: LoggedEvent, k: nat)
    requires Closed(x.config) && state in x.config.states && Infer(x, e).Some?
    requires var f := Infer(x, e).value;
             Chosen(x.guards, f, x.context(f == OPT_OUT_DETECTED), x.config.states[state].transitions, k)
    requires var t := x.config.states[state].transitions[k];
             t.target in x.config.states
             && forall name :: name in x.config.states[state].onExit + t.actions + x.config.states[t.target].onEnter ==>
                  Runs(x.actions, x.context(Infer(x, e).value == OPT_OUT_DETECTED), name)
    ensures var t := x.config.states[state].transitions[k];
            var plan := x.config.states[state].onExit + t.actions + x.config.states[t.target].onEnter;
            Step(x, state, e) == Ok(Record(e, Infer(x, e), state, t.target, plan, true))
  {
    var f := Infer(x, e).value;
    FirstMatchIsTaken(x.config, x.guards, x.actions, state, f, x.context(f == OPT_OUT_DETECTED), k);
  }

  predicate StopsAt(until: Option<string>, e: LoggedEvent) {
    until.Some? && e.id == until.value
  }

  function Prepend(records: seq<Record>, r: Result<seq<Record>>): Result<seq<Record>> {
    if r.Ok? then Ok(records + r.value) else r
  }

  function ReplayFrom<C>(x: Setting<C>, state: string, events: seq<LoggedEvent>,
                         until: Option<string>): Result<seq<Record>>
    requires Closed(x.config) && state in x.config.states
    decreases |events|
  {
    if events == [] then Ok([])
    else
      match Step(x, state, events[0])
      case Err(error) => Err(error)
      case Ok(r) =>
        if StopsAt(until, events[0]) then Ok([r])
        else Prepend([r], ReplayFrom(x, r.after, events[1..], until))
  }

  /** One turn of the replay loop. The opt-out flag is up only while its own event is processed. */
  method ReplayEvent<C>(x: Setting<C>, engine: FSMEngine<C>, e: LoggedEvent) returns (result: Result<Record>)
    requires engine.Valid() && engine.config == x.config && engine.guards == x.guards && engine.actions == x.actions
    modifies engine
    ensures engine.Valid() && result == Step(x, old(engine.currentState), e)
    ensures engine.currentState == if result.Ok? then result.value.after else old(engine.currentState)
  {
    var before := engine.currentState;
    match Infer(x, e) {
      case None => result := Ok(Record(e, None, before, before, [], false));
      case Some(f) =>
        var outcome := engine.ProcessEvent(f, x.context(f == OPT_OUT_DETECTED));
        result := if outcome.Err? then Err(outcome.error)
                  else Ok(Record(e, Some(f), before, outcome.value.newState, outcome.value.actions,
                                 outcome.value.taken));
    }
  }

  function FinalState(start: string, records: seq<Record>): string {
    if records == [] then start else records[|records| - 1].after
  }

  /** The whole replay, seen from turn `i` with the records gathered so far. */
  ghost function Ahead<C>(x: Setting<C>, state: string, events: seq<LoggedEvent>, i: nat, until: Option<string>,
                          records: seq<Record>): Result<seq<Record>>
    requires Closed(x.config) && state in x.config.states && i <= |events|
  {
    Prepend(records, ReplayFrom(x, state, events[i..], until))
  }

  /** The replay loop over one engine. */
  method ReplayConversation<C>(x: Setting<C>, events: seq<LoggedEvent>, until: Option<string>)
    returns (result: Result<seq<Record>>, finalState: string)
    requires Closed(x.config)
    ensures result == ReplayFrom(x, x.config.initialState, events, until)
    ensures result.Ok? ==> finalState == FinalState(x.config.initialState, result.value)
  {
    var start := x.config.initialState;
    var engine := new FSMEngine(x.config, start, x.guards, x.actions);
    var records := [];
    ReplayStarts(x, start, events, until);
    for i := 0 to |events|
      invariant engine.Valid() && engine.config == x.config && engine.guards == x.guards && engine.actions == x.actions
      invariant Ahead(x, engine.currentState, events, i, until, records) == ReplayFrom(x, start, events, until)
      invariant engine.currentState == FinalState(start, records)
    {
      ReplayUnfolds(x, engine.currentState, events, i, until, records);
      var record := ReplayEvent(x, engine, events[i]);
      if record.Err? {
        return Err(record.error), engine.currentState;
      }
      records := records + [record.value];
      if StopsAt(until, events[i]) {
        return Ok(records), engine.currentState;
      }
    }
    ReplayEnds(x, engine.currentState, events, until, records);
    return Ok(records), engine.currentState;
  }

  lemma ReplayStarts<C>(x: Setting<C>, state: string, events: seq<LoggedEvent>, until: Option<string>)
    requires Closed(x.config) && state in x.config.states
    ensures Ahead(x, state, events, 0, until, []) == ReplayFrom(x, state, events, until)
  {
    var r := ReplayFrom(x, state, events, until);
    assert events[0..] == events && (r.Ok? ==> [] + r.value == r.value);
  }

  lemma ReplayEnds<C>(x: Setting<C>, state: string, events: seq<LoggedEvent>, until: Option<string>,
                      records: seq<Record>)
    requires Closed(x.config) && state in x.config.states
    ensures Ahead(x, state, events, |events|, until, records) == Ok(records)
  {
    assert events[|events|..] == [] && records + [] == records;
  }

  /** One turn of the replay. */
  lemma ReplayUnfolds<C>(x: Setting<C>, state: string, events: seq<LoggedEvent>, i: nat, until: Option<string>,
                         records: seq<Record>)
    requires Closed(x.config) && state in x.config.states && i < |events|
    ensures var r := Step(x, state, events[i]);
            Ahead(x, state, events, i, until, records) ==
            if r.Err? then Err(r.error)
            else if StopsAt(until, events[i]) then Ok(records + [r.value])
            else Ahead(x, r.value.after, events, i + 1, until, records + [r.value])
  {
    assert events[i..][0] == events[i] && events[i..][1..] == events[i + 1..];
    var r := Step(x, state, events[i]);
    if r.Ok? {
      var rest := ReplayFrom(x, r.value.after, events[i + 1..], until);
      if rest.Ok? {
        assert records + ([r.value] + rest.value) == (records + [r.value]) + rest.value;
      }
    }
  }

  /** Records chain from the given state: each starts where the one before ended. */
  ghost predicate Chained(state: string, records: seq<Record>) {
    && (records != [] ==> records[0].before == state)
    && forall i :: 0 <= i < |records| - 1 ==> records[i + 1].before == records[i].after
  }

  lemma {:induction false} ReplayChains<C>(x: Setting<C>, state: string, events: seq<LoggedEvent>,
                                           until: Option<string>)
    requires Closed(x.config) && state in x.config.states && ReplayFrom(x, state, events, until).Ok?
    ensures var rs := ReplayFrom(x, state, events, until).value;
            Chained(state, rs) && |rs| <= |events|
            && forall i :: 0 <= i < |rs| ==>
                 rs[i].event == events[i] && {rs[i].before, rs[i].after} <= x.config.states.Keys
                     && Step(x, rs[i].before, events[i]) == Ok(rs[i])
    decreases |events|
  {
    if events != [] {
      var r := Step(x, state, events[0]).value;
      if !StopsAt(until, events[0]) {
        ReplayChains(x, r.after, events[1..], until);
        assert ReplayFrom(x, state, events, until).value == [r] + ReplayFrom(x, r.after, events[1..], until).value;
      }
    }
  }

  /** How many events a replay looks at: up to the first one with the given id, else all. */
  ghost function Reach(events: seq<LoggedEvent>, until: Option<string>): (n: nat)
    ensures n <= |events|
    ensures n < |events| ==> n > 0 && StopsAt(until, events[n - 1])
    ensures forall k :: 0 <= k < n - 1 ==> !StopsAt(until, events[k])
  {
    if events == [] then 0
    else if StopsAt(until, events[0]) then 1
    else 1 + Reach(events[1..], until)
  }

  /** A replay that stops at an event is the part of the full replay up to and including that event,
      and it succeeds whenever the full one does. */
  lemma {:induction false} UntilIsPrefix<C>(x: Setting<C>, state: string, events: seq<LoggedEvent>,
                                            until: Option<string>)
    requires Closed(x.config) && state in x.config.states && ReplayFrom(x, state, events, None).Ok?
    ensures ReplayFrom(x, state, events, until).Ok? && |ReplayFrom(x, state, events, None).value| == |events|
    ensures ReplayFrom(x, state, events, until).value
            == ReplayFrom(x, state, events, None).value[..Reach(events, until)]
    decreases |events|
  {
    if events != [] {
      var r := Step(x, state, events[0]).value;
      UntilIsPrefix(x, r.after, events[1..], until);
      var full := ReplayFrom(x, r.after, events[1..], None).value;
      PrefixCons(r, full, Reach(events[1..], until));
    }
  }

  lemma PrefixCons(r: Record, records: seq<Record>, n: nat)
    requires n <= |records|
    ensures ([r] + records)[..1] == [r] && ([r] + records)[..1 + n] == [r] + records[..n]
  {
  }

  // ----- dry run

  function NamesIn(s: State): set<string> {
    (set n | n in s.onEnter) + (set n | n in s.onExit)
        + (set k, n | 0 <= k < |s.transitions| && n in s.transitions[k].actions :: n)
  }

  /** Every action name the configuration mentions. */
  function ActionNames(c: Config): set<string> {
    set s, n | s in c.states && n in NamesIn(c.states[s]) :: n
  }

  /** A no-op for each of them. */
  function NoopRegistry<C>(c: Config): Actions<C> {
    map name | name in ActionNames(c) :: ((_: C) => true)
  }

  lemma PlansAreNamed(c: Config, state: string, k: nat, name: string)
    requires Closed(c) && state in c.states && k < |c.states[state].transitions|
    ensures c.states[state].transitions[k].target in c.states
    ensures name in Plan(c, state, c.states[state].transitions[k]) ==> name in ActionNames(c)
  {
    var s := c.states[state];
    assert StateClosed(c, s);
    var t := s.transitions[k];
    if name in Plan(c, state, t) {
      assert name in s.onExit || name in t.actions || name in c.states[t.target].onEnter;
      assert name in NamesIn(s) || name in NamesIn(c.states[t.target]);
    }
  }

  /** With the no-op registry an event can fail for one reason only: a guard nobody registered. */
  lemma DryStepNeedsOnlyGuards<C>(c: Config, guards: Guards<C>, state: string, event: string, context: C)
    requires Closed(c) && state in c.states
    ensures var r := Process(c, guards, NoopRegistry(c), state, event, context);
            r.Err? ==> r.error.UnknownGuard? && r.error.name !in guards
  {
    var ts := c.states[state].transitions;
    var d := Decide(guards, event, context, ts, 0);
    if d.Some? {
      forall name
        ensures c.states[state].transitions[d.value].target in c.states
        ensures name in Plan(c, state, ts[d.value]) ==> Runs(NoopRegistry<C>(c), context, name)
      {
        PlansAreNamed(c, state, d.value, name);
      }
    }
  }

  /** A dry run never meets an unknown action, whatever the log holds. */
  lemma {:induction false} DryRunKnowsEveryAction<C>(x: Setting<C>, state: string, events: seq<LoggedEvent>,
                                                     until: Option<string>)
    requires Closed(x.config) && state in x.config.states && x.actions == NoopRegistry(x.config)
    ensures var r := ReplayFrom(x, state, events, until); r.Err? ==> r.error.UnknownGuard? && r.error.name !in x.guards
    decreases |events|
  {
    if events != [] {
      var f := Infer(x, events[0]);
      if f.Some? {
        DryStepNeedsOnlyGuards(x.config, x.guards, state, f.value, ContextFor(x, f.value));
      }
      var r := Step(x, state, events[0]);
      if r.Ok? {
        DryRunKnowsEveryAction(x, r.value.after, events[1..], until);
      }
    }
  }

  // ----- live

  /** A message that reached the session; `mediaFailed` when its audio or image could not be processed. */
  datatype Message<!C> = Message(event: string, context: C, mediaFailed: bool)

  /** What the live path works with. */
  datatype Live<!C> = Live(config: Config, guards: Guards<C>, actions: Actions<C>)

  function Resolve(c: Config, stored: string): (s: string)
    requires Closed(c)
    ensures s in c.states && (stored in c.states ==> s == stored) && (stored !in c.states ==> s == c.initialState)
  {
    if stored in c.states then stored else c.initialState
  }

  /** The stored state after one message: untouched in an active handoff, for media that could not be
      processed and when the engine raises; forced to the active handoff by a handoff request. */
  function LiveStep<C>(l: Live<C>, stored: string, m: Message<C>): string
    requires Closed(l.config)
  {
    if stored == HANDOFF_ACTIVE || m.mediaFailed then stored
    else
      var r := Process(l.config, l.guards, l.actions, Resolve(l.config, stored), m.event, m.context);
      if r.Err? then stored
      else if m.event == HANDOFF_REQUESTED then HANDOFF_ACTIVE
      else r.value.newState
  }

  function LiveStates<C>(l: Live<C>, stored: string, messages: seq<Message<C>>): seq<string>
    requires Closed(l.config)
    decreases |messages|
  {
    if messages == [] then []
    else
      var next := LiveStep(l, stored, messages[0]);
      [next] + LiveStates(l, next, messages[1..])
  }

  /** The session row of one lead, and the handler that rebuilds an engine for every message. */
  class InboundHandler<!C> {
    const live: Live<C>
    var storedState: string

    constructor (live: Live<C>)
      requires Closed(live.config)
      ensures this.live == live && storedState == live.config.initialState
    {
      this.live, storedState := live, live.config.initialState;
    }

    method Handle(m: Message<C>)
      requires Closed(live.config)
      modifies this
      ensures storedState == LiveStep(live, old(storedState), m)
      ensures old(storedState) == HANDOFF_ACTIVE || m.mediaFailed ==> storedState == old(storedState)
    {
      if storedState == HANDOFF_ACTIVE {
        return;
      }
      if m.mediaFailed {
        return;
      }
      var resolved := if storedState in live.config.states then storedState else live.config.initialState;
      var engine := new FSMEngine(live.config, resolved, live.guards, live.actions);
      var outcome := engine.ProcessEvent(m.event, m.context);
      if outcome.Err? {
        return;
      }
      storedState := outcome.value.newState;
      if m.event == HANDOFF_REQUESTED {
        storedState := HANDOFF_ACTIVE;
      }
    }
  }

  /** An active handoff is kept whatever messages follow. */
  lemma {:induction false} HandoffIsKept<C>(l: Live<C>, messages: seq<Message<C>>)
    requires Closed(l.config)
    ensures |LiveStates(l, HANDOFF_ACTIVE, messages)| == |messages|
    ensures forall i :: 0 <= i < |messages| ==> LiveStates(l, HANDOFF_ACTIVE, messages)[i] == HANDOFF_ACTIVE
    decreases |messages|
  {
    if messages != [] {
      HandoffIsKept(l, messages[1..]);
    }
  }

  /** All actions of leaving the state, of the transition and of entering its target complete. */
  ghost predicate PlanRuns<C>(c: Config, actions: Actions<C>, context: C, state: string, t: Transition)
    requires Closed(c) && state in c.states && t in c.states[state].transitions
  {
    assert StateClosed(c, c.states[state]);
    && (forall name :: name in c.states[state].onExit ==> Runs(actions, context, name))
    && (forall name :: name in t.actions ==> Runs(actions, context, name))
    && (forall name :: name in c.states[t.target].onEnter ==> Runs(actions, context, name))
  }

  /** A message with a chosen transition, outside a handoff: when all its actions complete the stored state is
      the target, or the active handoff for a handoff request; when one does not, it is untouched. */
  lemma ChosenIsStored<C>(l: Live<C>, stored: string, m: Message<C>, k: nat)
    requires Closed(l.config) && stored != HANDOFF_ACTIVE && !m.mediaFailed
    requires Chosen(l.guards, m.event, m.context, l.config.states[Resolve(l.config, stored)].transitions, k)
    ensures var from := Resolve(l.config, stored);
            var t := l.config.states[from].transitions[k];
            LiveStep(l, stored, m) ==
            if !PlanRuns(l.config, l.actions, m.context, from, t) then stored
            else if m.event == HANDOFF_REQUESTED then HANDOFF_ACTIVE
            else t.target
  {
    FirstMatchIsTaken(l.config, l.guards, l.actions, Resolve(l.config, stored), m.event, m.context, k);
  }

  /** A message without a matching transition, outside a handoff: a handoff request is stored all the same, any
      other message leaves the state the engine started in. */
  lemma UnmatchedIsStored<C>(l: Live<C>, stored: string, m: Message<C>)
    requires Closed(l.config) && stored != HANDOFF_ACTIVE && !m.mediaFailed
    requires var ts := l.config.states[Resolve(l.config, stored)].transitions;
             forall k :: 0 <= k < |ts| && ts[k].event == m.event ==>
               GuardName(ts[k]) in l.guards && !l.guards[GuardName(ts[k])](m.context)
    ensures LiveStep(l, stored, m) == if m.event == HANDOFF_REQUESTED then HANDOFF_ACTIVE else Resolve(l.config, stored)
  {
    NoMatchStays(l.config, l.guards, l.actions, Resolve(l.config, stored), m.event, m.context);
  }

  ghost predicate GuardsAgree<C(!new)>(guards: Guards<C>, a: C, b: C) {
    forall g :: g in guards ==> guards[g](a) == guards[g](b)
  }

  /** The messages are the log's events that drive the machine, with the same machine event, and every
      guard answers on the live context as on the replay's. */
  ghost predicate SameConversation<C(!new)>(x: Setting<C>, events: seq<LoggedEvent>, messages: seq<Message<C>>) {
    if events == [] then messages == []
    else if Infer(x, events[0]).None? then SameConversation(x, events[1..], messages)
    else
      && messages != [] && messages[0].event == Infer(x, events[0]).value && !messages[0].mediaFailed
      && GuardsAgree(x.guards, messages[0].context, ContextFor(x, messages[0].event))
      && SameConversation(x, events[1..], messages[1..])
  }

  /** The states a replay visits on the events that drive the machine. */
  ghost function Visited(records: seq<Record>): seq<string> {
    if records == [] then []
    else (if records[0].fsmEvent.Some? then [records[0].after] else []) + Visited(records[1..])
  }

  lemma AgreeingGuardsDecideAlike<C(!new)>(guards: Guards<C>, event: string, a: C, b: C, ts: seq<Transition>, from: nat)
    requires GuardsAgree(guards, a, b) && from <= |ts|
    ensures Decide(guards, event, a, ts, from) == Decide(guards, event, b, ts, from)
    decreases |ts| - from
  {
  }

  /** Every action of the configuration is registered and completes. */
  ghost predicate ActionsComplete<C(!new)>(c: Config, actions: Actions<C>) {
    forall name, context :: name in ActionNames(c) ==> Runs(actions, context, name)
  }

  /** Agreeing guards and completing actions: the live engine moves as the replay engine does. */
  lemma EnginesAgree<C(!new)>(x: Setting<C>, l: Live<C>, state: string, event: string, a: C, b: C)
    requires Closed(x.config) && state in x.config.states && l.config == x.config && l.guards == x.guards
    requires GuardsAgree(x.guards, a, b) && ActionsComplete(x.config, l.actions)
    requires Process(x.config, x.guards, x.actions, state, event, b).Ok?
    ensures Process(l.config, l.guards, l.actions, state, event, a).Ok?
    ensures Process(l.config, l.guards, l.actions, state, event, a).value.newState
            == Process(x.config, x.guards, x.actions, state, event, b).value.newState
  {
    var ts := x.config.states[state].transitions;
    AgreeingGuardsDecideAlike(x.guards, event, a, b, ts, 0);
    var d := Decide(x.guards, event, a, ts, 0);
    if d.Some? {
      forall name
        ensures x.config.states[state].transitions[d.value].target in x.config.states
        ensures name in Plan(x.config, state, ts[d.value]) ==> Runs(l.actions, a, name)
      {
        PlansAreNamed(x.config, state, d.value, name);
      }
    }
  }

  /** A full replay splits into its first record and the replay of the rest. */
  lemma ReplayCons<C>(x: Setting<C>, state: string, events: seq<LoggedEvent>)
    requires Closed(x.config) && state in x.config.states && events != [] && ReplayFrom(x, state, events, None).Ok?
    ensures Step(x, state, events[0]).Ok?
    ensures var r := Step(x, state, events[0]).value;
            var rest := ReplayFrom(x, r.after, events[1..], None);
            && rest.Ok? && ReplayFrom(x, state, events, None).value == [r] + rest.value
            && (events[1..] != [] ==> rest.value != [])
  {
  }

  /** Up to the first handoff, the states stored message by message are the states of the replay. */
  lemma {:induction false} LiveAndReplayAgree<C(!new)>(x: Setting<C>, l: Live<C>, state: string,
                                                events: seq<LoggedEvent>, messages: seq<Message<C>>)
    requires Closed(x.config) && state in x.config.states && l.config == x.config && l.guards == x.guards
    requires ActionsComplete(x.config, l.actions)
    requires SameConversation(x, events, messages) && ReplayFrom(x, state, events, None).Ok?
    requires state != HANDOFF_ACTIVE && (forall m :: 0 <= m < |messages| ==> messages[m].event != HANDOFF_REQUESTED)
    requires var rs := ReplayFrom(x, state, events, None).value;
            forall i :: 0 <= i < |rs| - 1 ==> rs[i].after != HANDOFF_ACTIVE
    ensures LiveStates(l, state, messages) == Visited(ReplayFrom(x, state, events, None).value)
    decreases |events|
  {
    if events != [] {
      ReplayCons(x, state, events);
      var r := Step(x, state, events[0]).value;
      var rest := ReplayFrom(x, r.after, events[1..], None).value;
      assert ([r] + rest)[1..] == rest && forall i :: 0 <= i < |rest| ==> ([r] + rest)[i + 1] == rest[i];
      if r.fsmEvent.Some? {
        EnginesAgree(x, l, state, messages[0].event, messages[0].context, ContextFor(x, messages[0].event));
        assert LiveStep(l, state, messages[0]) == r.after;
      }
      if events[1..] != [] {
        assert ([r] + rest)[0].after != HANDOFF_ACTIVE;
        LiveAndReplayAgree(x, l, r.after, events[1..], if r.fsmEvent.Some? then messages[1..] else messages);
      }
    }
  }

  // ----- from texts to states

  /** A logged inbound message as the live path received it. `context` gives the guard context for the
      intent it is classified as; `hasCampaign` tells whether the session carries a campaign. */
  datatype Inbound<!C> = Inbound(text: string, supported: bool, hasCampaign: bool, mediaFailed: bool,
                                 context: Intent -> C)

  const CAMPAIGN_STATES: set<string> := {"outbound_sent", "idle"}

  predicate AnswersCampaign<C>(stored: string, m: Inbound<C>) {
    stored in CAMPAIGN_STATES && m.hasCampaign
  }

  function IntentOf<C>(isWord: char -> bool, v: Vocabulary, stored: string, m: Inbound<C>): Intent {
    Classify(isWord, m.supported, m.text, v.optOut, v.handoff, AnswersCampaign(stored, m))
  }

  function MessageOf<C>(isWord: char -> bool, v: Vocabulary, stored: string, m: Inbound<C>): Message<C> {
    var intent := IntentOf(isWord, v, stored, m);
    Message(LiveEvent(intent), m.context(intent), m.mediaFailed)
  }

  /** The messages as classified one after the other, each in the state the one before left. */
  ghost function ClassifiedInTurn<C>(l: Live<C>, isWord: char -> bool, v: Vocabulary, stored: string,
                                     inbound: seq<Inbound<C>>):
    (messages: seq<Message<C>>)
    requires Closed(l.config)
    ensures |messages| == |inbound|
    decreases |inbound|
  {
    if inbound == [] then []
    else
      var m := MessageOf(isWord, v, stored, inbound[0]);
      [m] + ClassifiedInTurn(l, isWord, v, LiveStep(l, stored, m), inbound[1..])
  }

  /** The states stored while the texts come in. */
  ghost function StatesOnTexts<C>(l: Live<C>, isWord: char -> bool, v: Vocabulary, stored: string,
                                  inbound: seq<Inbound<C>>): seq<string>
    requires Closed(l.config)
    decreases |inbound|
  {
    if inbound == [] then []
    else
      var next := LiveStep(l, stored, MessageOf(isWord, v, stored, inbound[0]));
      [next] + StatesOnTexts(l, isWord, v, next, inbound[1..])
  }

  /** The inbound messages are those of the log, with its texts. Each is read alike by both paths in the
      state it arrives in, its media could be processed, and the guards agree on it. Nothing else in the
      log drives the machine. */
  ghost predicate SameTexts<C(!new)>(x: Setting<C>, l: Live<C>, isWord: char -> bool, stored: string,
                                     events: seq<LoggedEvent>, inbound: seq<Inbound<C>>)
    requires Closed(l.config)
    decreases |events|
  {
    if events == [] then inbound == []
    else if events[0].eventType != "inbound_message" then
      Infer(x, events[0]).None? && SameTexts(x, l, isWord, stored, events[1..], inbound)
    else
      && inbound != [] && inbound[0].text == events[0].text && !inbound[0].mediaFailed
      && !PathsPart(isWord, inbound[0].supported, events[0].text, x.keywords.optOut, x.keywords.handoff,
                    AnswersCampaign(stored, inbound[0]))
      && var m := MessageOf(isWord, x.keywords, stored, inbound[0]);
         && GuardsAgree(x.guards, m.context, ContextFor(x, m.event))
         && SameTexts(x, l, isWord, LiveStep(l, stored, m), events[1..], inbound[1..])
  }

  /** Texts read alike are messages with the machine events of the replay. */
  lemma {:induction false} TextsAreMessages<C(!new)>(x: Setting<C>, l: Live<C>, isWord: char -> bool, stored: string,
                                                     events: seq<LoggedEvent>, inbound: seq<Inbound<C>>)
    requires Closed(l.config) && SameTexts(x, l, isWord, stored, events, inbound)
    ensures SameConversation(x, events, ClassifiedInTurn(l, isWord, x.keywords, stored, inbound))
    ensures LiveStates(l, stored, ClassifiedInTurn(l, isWord, x.keywords, stored, inbound))
            == StatesOnTexts(l, isWord, x.keywords, stored, inbound)
    decreases |events|
  {
    if events != [] {
      if events[0].eventType != "inbound_message" {
        TextsAreMessages(x, l, isWord, stored, events[1..], inbound);
      } else {
        var m := MessageOf(isWord, x.keywords, stored, inbound[0]);
        var next := LiveStep(l, stored, m);
        WhenReplayDiffers(isWord, inbound[0].supported, events[0], x.keywords.optOut, x.keywords.handoff,
                          AnswersCampaign(stored, inbound[0]));
        TextsAreMessages(x, l, isWord, next, events[1..], inbound[1..]);
        var rest := ClassifiedInTurn(l, isWord, x.keywords, next, inbound[1..]);
        assert ([m] + rest)[1..] == rest;
      }
    }
  }

  lemma {:induction false} MessagesComeFromTheLog<C(!new)>(x: Setting<C>, events: seq<LoggedEvent>,
                                                    messages: seq<Message<C>>, k: nat)
    requires SameConversation(x, events, messages) && k < |messages|
    ensures exists i :: 0 <= i < |events| && Infer(x, events[i]) == Some(messages[k].event)
    decreases |events|
  {
    if Infer(x, events[0]).None? {
      MessagesComeFromTheLog(x, events[1..], messages, k);
      var i :| 0 <= i < |events[1..]| && Infer(x, events[1..][i]) == Some(messages[k].event);
      assert events[i + 1] == events[1..][i];
    } else if k > 0 {
      MessagesComeFromTheLog(x, events[1..], messages[1..], k - 1);
      var i :| 0 <= i < |events[1..]| && Infer(x, events[1..][i]) == Some(messages[1..][k - 1].event);
      assert events[i + 1] == events[1..][i];
    }
  }

  /** The same from the texts: up to the first handoff, the states stored while the texts of the log come
      in one by one are the states of the replay. */
  lemma TextsAndReplayAgree<C(!new)>(x: Setting<C>, l: Live<C>, isWord: char -> bool, events: seq<LoggedEvent>,
                              inbound: seq<Inbound<C>>)
    requires Closed(x.config) && l.config == x.config && l.guards == x.guards && ActionsComplete(x.config, l.actions)
    requires SameTexts(x, l, isWord, x.config.initialState, events, inbound)
    requires ReplayFrom(x, x.config.initialState, events, None).Ok?
    requires x.config.initialState != HANDOFF_ACTIVE
    requires forall i :: 0 <= i < |events| ==> Infer(x, events[i]) != Some(HANDOFF_REQUESTED)
    requires var rs := ReplayFrom(x, x.config.initialState, events, None).value;
             forall i :: 0 <= i < |rs| - 1 ==> rs[i].after != HANDOFF_ACTIVE
    ensures StatesOnTexts(l, isWord, x.keywords, x.config.initialState, inbound)
            == Visited(ReplayFrom(x, x.config.initialState, events, None).value)
  {
    var start := x.config.initialState;
    var messages := ClassifiedInTurn(l, isWord, x.keywords, start, inbound);
    TextsAreMessages(x, l, isWord, start, events, inbound);
    forall k | 0 <= k < |messages|
      ensures messages[k].event != HANDOFF_REQUESTED
    {
      MessagesComeFromTheLog(x, events, messages, k);
    }
    LiveAndReplayAgree(x, l, start, events, messages);
  }

  /** A logged message whose media could not be processed: the live path leaves the stored state, the replay runs
      the machine. The two states then differ exactly when the first matching transition whose guard holds
      leads elsewhere. */
  lemma FailedMediaIsReplayed<C>(x: Setting<C>, l: Live<C>, state: string, e: LoggedEvent, m: Message<C>)
    requires Closed(x.config) && l.config == x.config && state in x.config.states && m.mediaFailed
    requires Infer(x, e).Some? && Step(x, state, e).Ok?
    ensures var f := Infer(x, e).value;
            var ts := x.config.states[state].transitions;
            && LiveStep(l, state, m) == state
            && (Step(x, state, e).value.after != state <==>
                exists k: nat :: Chosen(x.guards, f, ContextFor(x, f), ts, k) && ts[k].target != state)
  {
    var f := Infer(x, e).value;
    var ts := x.config.states[state].transitions;
    forall k: nat | Chosen(x.guards, f, ContextFor(x, f), ts, k)
      ensures Step(x, state, e).value.after == ts[k].target
    {
      FirstMatchIsTaken(x.config, x.guards, x.actions, state, f, ContextFor(x, f), k);
    }
    var d := Decide(x.guards, f, ContextFor(x, f), ts, 0);
    if d.Some? {
      assert Chosen(x.guards, f, ContextFor(x, f), ts, d.value);
    }
  }
}
