/** The conversation state machine: configuration, validator and engine. */
module Fsm {
  import opened Common

  datatype Transition = Transition(target: string, event: string, guard: Option<string>, actions: seq<string>)

  datatype State = State(
    transitions: seq<Transition>, onEnter: seq<string>, onExit: seq<string>,
    timeoutMinutes: Option<nat>, timeoutTarget: Option<string>)

  datatype Config = Config(initialState: string, states: map<string, State>)

  datatype ConfigError =
    | UnknownInitialState(state: string)
    | UnknownTarget(state: string, target: string)
    | UnknownTimeoutTarget(state: string, target: string)

  datatype Error = UnknownState(name: string) | UnknownGuard(name: string) | UnknownAction(name: string)
      | ActionRaised(name: string)

  datatype Result<+T> = Ok(value: T) | Err(error: Error)

  datatype Outcome = Outcome(oldState: string, newState: string, actions: seq<string>, taken: bool, unmatched: bool)

  /** A guard decides from the context. An action is an effect outside the model: all that matters
      here is whether it completes. */
  type Guards<!C> = map<string, C -> bool>
  type Actions<!C> = map<string, C -> bool>

  /** Every state a configuration mentions is one it defines. */
  ghost predicate Closed(c: Config) {
    && c.initialState in c.states
    && forall s :: s in c.states ==> StateClosed(c, c.states[s])
  }

  ghost predicate StateClosed(c: Config, s: State) {
    && (forall k :: 0 <= k < |s.transitions| ==> s.transitions[k].target in c.states)
    && (s.timeoutTarget.Some? ==> s.timeoutTarget.value in c.states)
  }

  ghost predicate Offends(c: Config, e: ConfigError) {
    match e
    case UnknownInitialState(s) => s == c.initialState && s !in c.states
    case UnknownTarget(s, t) =>
      && s in c.states && t !in c.states
      && exists k :: 0 <= k < |c.states[s].transitions| && c.states[s].transitions[k].target == t
    case UnknownTimeoutTarget(s, t) => s in c.states && c.states[s].timeoutTarget == Some(t) && t !in c.states
  }

  /** The validator walks the states in the order of the configuration file and reports the first offence. */
  method ValidateStateTargets(c: Config, order: seq<string>) returns (error: Option<ConfigError>)
    requires forall s :: s in c.states <==> s in order
    ensures error.None? <==> Closed(c)
    ensures error.Some? ==> Offends(c, error.value)
  {
    if c.initialState !in c.states {
      return Some(UnknownInitialState(c.initialState));
    }
    for n := 0 to |order|
      invariant forall m :: 0 <= m < n ==> StateClosed(c, c.states[order[m]])
    {
      assert order[n] in c.states;
      var state := c.states[order[n]];
      for k := 0 to |state.transitions|
        invariant forall j :: 0 <= j < k ==> state.transitions[j].target in c.states
      {
        if state.transitions[k].target !in c.states {
          assert !StateClosed(c, state);
          return Some(UnknownTarget(order[n], state.transitions[k].target));
        }
      }
      if state.timeoutTarget.Some? && state.timeoutTarget.value !in c.states {
        return Some(UnknownTimeoutTarget(order[n], state.timeoutTarget.value));
      }
    }
    return None;
  }

  function GuardName(t: Transition): string {
    if t.guard.Some? then t.guard.value else "always"
  }

  /** What the engine learns from one transition of the current state. */
  datatype Verdict = Skip | Take | Missing

  function Judge<C>(guards: Guards<C>, event: string, context: C, t: Transition): Verdict {
    if t.event != event then Skip
    else if GuardName(t) !in guards then Missing
    else if guards[GuardName(t)](context) then Take else Skip
  }

  /** The first transition at `from` or later that is not skipped. */
  function Decide<C>(guards: Guards<C>, event: string, context: C, ts: seq<Transition>, from: nat): (r: Option<nat>)
    requires from <= |ts|
    ensures r.Some? ==> from <= r.value < |ts| && !Judge(guards, event, context, ts[r.value]).Skip?
                        && forall k :: from <= k < r.value ==> Judge(guards, event, context, ts[k]).Skip?
    ensures r.None? ==> forall k :: from <= k < |ts| ==> Judge(guards, event, context, ts[k]).Skip?
    decreases |ts| - from
  {
    if from == |ts| then None
    else if Judge(guards, event, context, ts[from]).Skip? then Decide(guards, event, context, ts, from + 1)
    else Some(from)
  }

  /** The actions of a transition, in the order they run: exit, transition, enter. */
  function Plan(c: Config, state: string, t: Transition): seq<string>
    requires state in c.states && t.target in c.states
  {
    c.states[state].onExit + t.actions + c.states[t.target].onEnter
  }

  predicate Runs<C>(actions: Actions<C>, context: C, name: string) {
    name in actions && actions[name](context)
  }

  function Why<C>(actions: Actions<C>, name: string): Error {
    if name in actions then ActionRaised(name) else UnknownAction(name)
  }

  /** The first action of a plan, at `from` or later, that does not complete. */
  function FirstFailure<C>(actions: Actions<C>, context: C, plan: seq<string>, from: nat): (r: Option<nat>)
    requires from <= |plan|
    ensures r.Some? ==> from <= r.value < |plan| && !Runs(actions, context, plan[r.value])
                        && forall k :: from <= k < r.value ==> Runs(actions, context, plan[k])
    ensures r.None? ==> forall k :: from <= k < |plan| ==> Runs(actions, context, plan[k])
    decreases |plan| - from
  {
    if from == |plan| then None
    else if Runs(actions, context, plan[from]) then FirstFailure(actions, context, plan, from + 1)
    else Some(from)
  }

  /** Processing one event in one state. */
  function Process<C>(c: Config, guards: Guards<C>, actions: Actions<C>, state: string, event: string,
                      context: C): Result<Outcome>
    requires Closed(c) && state in c.states
  {
    var ts := c.states[state].transitions;
    match Decide(guards, event, context, ts, 0)
    case None => Ok(Outcome(state, state, [], false, true))
    case Some(k) =>
      assert StateClosed(c, c.states[state]);
      if Judge(guards, event, context, ts[k]).Missing? then Err(UnknownGuard(GuardName(ts[k])))
      else
        var plan := Plan(c, state, ts[k]);
        match FirstFailure(actions, context, plan, 0)
        case Some(i) => Err(Why(actions, plan[i]))
        case None => Ok(Outcome(state, ts[k].target, plan, true, false))
  }

  /** The actions that complete while an event is processed: a prefix of the plan if one of them fails. */
  ghost function Effects<C>(c: Config, guards: Guards<C>, actions: Actions<C>, state: string, event: string,
                            context: C): seq<string>
    requires Closed(c) && state in c.states
  {
    var ts := c.states[state].transitions;
    match Decide(guards, event, context, ts, 0)
    case None => []
    case Some(k) =>
      assert StateClosed(c, c.states[state]);
      if Judge(guards, event, context, ts[k]).Missing? then []
      else
        var plan := Plan(c, state, ts[k]);
        match FirstFailure(actions, context, plan, 0)
        case Some(i) => plan[..i]
        case None => plan
  }

  class FSMEngine<!C> {
    const config: Config
    const guards: Guards<C>
    const actions: Actions<C>
    var currentState: string
    /** Every action that completed since the engine was built, also those of an event that later failed. */
    var performed: seq<string>

    ghost predicate Valid()
      reads this
    {
      Closed(config) && currentState in config.states
    }

    constructor (config: Config, currentState: string, guards: Guards<C>, actions: Actions<C>)
      requires Closed(config) && currentState in config.states
      ensures Valid() && this.config == config && this.guards == guards && this.actions == actions
      ensures this.currentState == currentState && performed == []
    {
      this.config, this.guards, this.actions := config, guards, actions;
      this.currentState, performed := currentState, [];
    }

    /** Runs the named actions in order until one does not complete. */
    method ExecuteActions(names: seq<string>, context: C) returns (error: Option<Error>)
      modifies this`performed
      ensures var failure := FirstFailure(actions, context, names, 0);
              match failure
              case None => error.None? && performed == old(performed) + names
              case Some(i) => error == Some(Why(actions, names[i])) && performed == old(performed) + names[..i]
    {
      for i := 0 to |names|
        invariant FirstFailure(actions, context, names, i) == FirstFailure(actions, context, names, 0)
        invariant performed == old(performed) + names[..i]
      {
        if !Runs(actions, context, names[i]) {
          return Some(Why(actions, names[i]));
        }
        performed := performed + [names[i]];
      }
      return None;
    }

    /** The actions of leaving, of the transition itself and of entering, in this order. */
    method ExecuteAll(exit: seq<string>, own: seq<string>, enter: seq<string>, context: C)
      returns (error: Option<Error>)
      modifies this`performed
      ensures var plan := exit + own + enter;
              match FirstFailure(actions, context, plan, 0)
              case None => error.None? && performed == old(performed) + plan
              case Some(i) => error == Some(Why(actions, plan[i])) && performed == old(performed) + plan[..i]
    {
      PlanFailure(actions, context, exit, own);
      PlanFailure(actions, context, exit + own, enter);
      error := ExecuteActions(exit, context);
      if error.None? {
        error := ExecuteActions(own, context);
        if error.None? {
          error := ExecuteActions(enter, context);
        }
      }
    }

    /** The state changes only when the whole plan of a transition went through; the actions that ran
        before a failure are not undone. */
    method ProcessEvent(event: string, context: C) returns (result: Result<Outcome>)
      requires Valid()
      modifies this
      ensures Valid()
      ensures result == Process(config, guards, actions, old(currentState), event, context)
      ensures currentState == if result.Ok? then result.value.newState else old(currentState)
      ensures performed == old(performed) + Effects(config, guards, actions, old(currentState), event, context)
    {
      var state := config.states[currentState];
      for k := 0 to |state.transitions|
        invariant Decide(guards, event, context, state.transitions, k)
                  == Decide(guards, event, context, state.transitions, 0)
        invariant performed == old(performed) && currentState == old(currentState)
      {
        var t := state.transitions[k];
        var verdict := Judge(guards, event, context, t);
        if verdict.Missing? {
          return Err(UnknownGuard(GuardName(t)));
        }
        if verdict.Take? {
          assert StateClosed(config, state);
          var e := ExecuteAll(state.onExit, t.actions, config.states[t.target].onEnter, context);
          if e.Some? {
            return Err(e.value);
          }
          result := Ok(Outcome(currentState, t.target, Plan(config, currentState, t), true, false));
          currentState := t.target;
          return;
        }
      }
      return Ok(Outcome(currentState, currentState, [], false, true));
    }
  }

  /** Where a plan made of two lists fails. */
  lemma PlanFailure<C>(actions: Actions<C>, context: C, first: seq<string>, second: seq<string>)
    ensures var f, g := FirstFailure(actions, context, first, 0), FirstFailure(actions, context, second, 0);
            FirstFailure(actions, context, first + second, 0) ==
            if f.Some? then f else if g.Some? then Some(|first| + g.value) else None
  {
    var plan := first + second;
    assert forall k :: 0 <= k < |first| ==> plan[k] == first[k];
    assert forall k :: 0 <= k < |second| ==> plan[|first| + k] == second[k];
    var h := FirstFailure(actions, context, plan, 0);
    if h.Some? && |first| <= h.value {
      assert !Runs(actions, context, second[h.value - |first|]);
    }
  }

  /** The transition at `k` is the first of the event whose guard holds, and every earlier one has a known guard. */
  ghost predicate Chosen<C>(guards: Guards<C>, event: string, context: C, ts: seq<Transition>, k: nat) {
    && k < |ts| && ts[k].event == event && GuardName(ts[k]) in guards && guards[GuardName(ts[k])](context)
    && forall j :: 0 <= j < k && ts[j].event == event ==>
         GuardName(ts[j]) in guards && !guards[GuardName(ts[j])](context)
  }

  /** A transition is taken exactly when one is chosen and all its actions complete; then the actions
      ran in the order exit, transition, enter. With no transition chosen, and all guards of the event
      known, the state stays. */
  lemma FirstMatchIsTaken<C>(c: Config, guards: Guards<C>, actions: Actions<C>, state: string, event: string,
                             context: C, k: nat)
    requires Closed(c) && state in c.states && Chosen(guards, event, context, c.states[state].transitions, k)
    ensures var t := c.states[state].transitions[k];
            var r := Process(c, guards, actions, state, event, context);
            && t.target in c.states
            && (r.Ok? <==> forall name :: name in c.states[state].onExit + t.actions + c.states[t.target].onEnter ==>
                             Runs(actions, context, name))
            && (r.Ok? ==> r.value.taken && r.value.newState == t.target
                          && r.value.actions == c.states[state].onExit + t.actions + c.states[t.target].onEnter)
  {
    assert StateClosed(c, c.states[state]);
    var ts := c.states[state].transitions;
    var d := Decide(guards, event, context, ts, 0);
    assert !Judge(guards, event, context, ts[k]).Skip?;
    assert d == Some(k);
    var plan := Plan(c, state, ts[k]);
    var f := FirstFailure(actions, context, plan, 0);
    if f.Some? {
      assert plan[f.value] in plan;
    }
  }

  lemma NoMatchStays<C>(c: Config, guards: Guards<C>, actions: Actions<C>, state: string, event: string, context: C)
    requires Closed(c) && state in c.states
    requires forall k :: 0 <= k < |c.states[state].transitions| && c.states[state].transitions[k].event == event ==>
               GuardName(c.states[state].transitions[k]) in guards
                   && !guards[GuardName(c.states[state].transitions[k])](context)
    ensures Process(c, guards, actions, state, event, context) == Ok(Outcome(state, state, [], false, true))
  {
  }

  /** When a transition is chosen, exactly the actions before the first one that does not complete have run, and
      that one is named: as unknown if it is not registered, else as having raised. */
  lemma FirstFailureIsReported<C>(c: Config, guards: Guards<C>, actions: Actions<C>, state: string, event: string,
                                  context: C, k: nat, i: nat)
    requires Closed(c) && state in c.states && Chosen(guards, event, context, c.states[state].transitions, k)
    requires c.states[state].transitions[k].target in c.states
    requires var t := c.states[state].transitions[k];
             var plan := c.states[state].onExit + t.actions + c.states[t.target].onEnter;
             && i < |plan| && !Runs(actions, context, plan[i])
             && forall j :: 0 <= j < i ==> Runs(actions, context, plan[j])
    ensures var t := c.states[state].transitions[k];
            var plan := c.states[state].onExit + t.actions + c.states[t.target].onEnter;
            && Effects(c, guards, actions, state, event, context) == plan[..i]
            && Process(c, guards, actions, state, event, context) ==
               Err(if plan[i] in actions then ActionRaised(plan[i]) else UnknownAction(plan[i]))
  {
    var ts := c.states[state].transitions;
    var d := Decide(guards, event, context, ts, 0);
    assert !Judge(guards, event, context, ts[k]).Skip?;
    assert d == Some(k);
    var f := FirstFailure(actions, context, Plan(c, state, ts[k]), 0);
    assert f == Some(i);
  }

  /** A transition of the event with an unregistered guard, and none before it that holds: the event fails. */
  lemma UnknownGuardFails<C>(c: Config, guards: Guards<C>, actions: Actions<C>, state: string, event: string,
                             context: C, k: nat)
    requires Closed(c) && state in c.states && k < |c.states[state].transitions|
    requires var ts := c.states[state].transitions;
             && ts[k].event == event && GuardName(ts[k]) !in guards
             && forall j :: 0 <= j < k && ts[j].event == event ==>
                  GuardName(ts[j]) in guards && !guards[GuardName(ts[j])](context)
    ensures var guard := GuardName(c.states[state].transitions[k]);
            Process(c, guards, actions, state, event, context) == Err(UnknownGuard(guard))
    ensures Effects(c, guards, actions, state, event, context) == []
  {
    var ts := c.states[state].transitions;
    assert !Judge(guards, event, context, ts[k]).Skip?;
    assert Decide(guards, event, context, ts, 0) == Some(k);
  }

  lemma TargetsStayKnown<C>(c: Config, guards: Guards<C>, actions: Actions<C>, state: string, event: string, context: C)
    requires Closed(c) && state in c.states
    ensures var r := Process(c, guards, actions, state, event, context);
            r.Ok? ==> r.value.newState in c.states && r.value.oldState == state
  {
    assert StateClosed(c, c.states[state]);
  }

  /** The state an engine is in after a run of events, failed ones included. */
  ghost function StateAfter<C>(c: Config, guards: Guards<C>, actions: Actions<C>, state: string,
                               events: seq<(string, C)>): string
    requires Closed(c) && state in c.states
    ensures StateAfter(c, guards, actions, state, events) in c.states
    decreases |events|
  {
    if events == [] then state
    else
      TargetsStayKnown(c, guards, actions, state, events[0].0, events[0].1);
      var r := Process(c, guards, actions, state, events[0].0, events[0].1);
      StateAfter(c, guards, actions, if r.Ok? then r.value.newState else state, events[1..])
  }
}
