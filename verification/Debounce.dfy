/**
 Per-phone debounce of inbound messages. A message registers itself and starts a sleeping task;
 when the task wakes it decides whether its message is the one to process. Both parts run under one
 lock without an await inside, so each is one atomic step. A cancelled task normally just ends, but
 nothing here relies on that: it may wake like any other.
 */
module Debounce {
  import opened Common

  type Phone = string
  type MessageId = string
  type TaskId = nat

  datatype Sleeper = Sleeper(phone: Phone, message: MessageId, cancelled: bool)

  /** The two shared dictionaries and the tasks that have not ended. */
  datatype Tables = Tables(latest: map<Phone, MessageId>, tasks: map<Phone, TaskId>, sleeping: map<TaskId, Sleeper>)

  datatype Input =
    | Arrive(task: TaskId, phone: Phone, message: MessageId)
    | Wake(task: TaskId, phone: Phone)
    | Vanish(task: TaskId, phone: Phone)

  /** What an observer sees. */
  datatype Event =
    | Arrived(task: TaskId, phone: Phone, message: MessageId)
    | Answered(task: TaskId, phone: Phone, process: bool)

  datatype Sys = Sys(tables: Tables, trace: seq<Event>)

  const EMPTY := Sys(Tables(map[], map[], map[]), [])

  function Cancel(t: Tables, phone: Phone): map<TaskId, Sleeper> {
    if phone in t.tasks && t.tasks[phone] in t.sleeping
    then t.sleeping[t.tasks[phone] := t.sleeping[t.tasks[phone]].(cancelled := true)]
    else t.sleeping
  }

  function Register(t: Tables, task: TaskId, phone: Phone, message: MessageId): Tables {
    Tables(t.latest[phone := message], t.tasks[phone := task], Cancel(t, phone)[task := Sleeper(phone, message, false)])
  }

  predicate ShouldProcess(t: Tables, task: TaskId)
    requires task in t.sleeping
  {
    var me := t.sleeping[task];
    me.phone in t.latest && t.latest[me.phone] == me.message
  }

  function Resolve(t: Tables, task: TaskId): Tables
    requires task in t.sleeping
  {
    var phone := t.sleeping[task].phone;
    Tables(if ShouldProcess(t, task) then t.latest - {phone} else t.latest,
           if phone in t.tasks && t.tasks[phone] == task then t.tasks - {phone} else t.tasks,
           t.sleeping - {task})
  }

  ghost predicate Unused(trace: seq<Event>, task: TaskId, message: MessageId) {
    forall n :: 0 <= n < |trace| && trace[n].Arrived? ==> trace[n].task != task && trace[n].message != message
  }

  /** Message identifiers are new: the event log drops duplicates before the debounce. */
  ghost predicate Enabled(s: Sys, input: Input) {
    match input
    case Arrive(task, _, message) => Unused(s.trace, task, message)
    case Wake(task, phone) => task in s.tables.sleeping && s.tables.sleeping[task].phone == phone
    case Vanish(task, phone) =>
      task in s.tables.sleeping && s.tables.sleeping[task].phone == phone && s.tables.sleeping[task].cancelled
  }

  ghost function Apply(s: Sys, input: Input): Sys
    requires Enabled(s, input)
  {
    match input
    case Arrive(task, phone, message) =>
      Sys(Register(s.tables, task, phone, message), s.trace + [Arrived(task, phone, message)])
    case Wake(task, phone) =>
      Sys(Resolve(s.tables, task), s.trace + [Answered(task, phone, ShouldProcess(s.tables, task))])
    case Vanish(task, phone) =>
      Sys(s.tables.(sleeping := s.tables.sleeping - {task}), s.trace + [Answered(task, phone, false)])
  }

  ghost predicate Valid(s: Sys, inputs: seq<Input>)
    decreases |inputs|
  {
    inputs == [] || (Enabled(s, inputs[0]) && Valid(Apply(s, inputs[0]), inputs[1..]))
  }

  ghost function RunAll(s: Sys, inputs: seq<Input>): Sys
    requires Valid(s, inputs)
    decreases |inputs|
  {
    if inputs == [] then s else RunAll(Apply(s, inputs[0]), inputs[1..])
  }

  // ----- what the trace says

  /** The task of the phone's newest arrival. */
  ghost function Newest(trace: seq<Event>, phone: Phone): Option<TaskId> {
    if trace == [] then None
    else
      var e := trace[|trace| - 1];
      if e.Arrived? && e.phone == phone then Some(e.task) else Newest(trace[..|trace| - 1], phone)
  }

  /** A burst is open from an arrival until a task of the phone answers True. */
  ghost predicate BurstOpen(trace: seq<Event>, phone: Phone) {
    if trace == [] then false
    else
      var e := trace[|trace| - 1];
      if e.phone != phone then BurstOpen(trace[..|trace| - 1], phone)
      else e.Arrived? || (!e.process && BurstOpen(trace[..|trace| - 1], phone))
  }

  ghost function Bursts(trace: seq<Event>, phone: Phone): nat {
    if trace == [] then 0
    else
      var e, before := trace[|trace| - 1], trace[..|trace| - 1];
      Bursts(before, phone) + if e.Arrived? && e.phone == phone && !BurstOpen(before, phone) then 1 else 0
  }

  ghost function Trues(trace: seq<Event>, phone: Phone): nat {
    if trace == [] then 0
    else
      var e := trace[|trace| - 1];
      Trues(trace[..|trace| - 1], phone) + if e.Answered? && e.phone == phone && e.process then 1 else 0
  }

  ghost predicate AnswersTrue(e: Event, phone: Phone) {
    e.Answered? && e.phone == phone && e.process
  }

  /** A task answers True only for the newest arrival of its phone. */
  ghost predicate OnlyNewestProcessed(trace: seq<Event>) {
    forall n :: 0 <= n < |trace| && trace[n].Answered? && trace[n].process ==>
      Newest(trace[..n], trace[n].phone) == Some(trace[n].task)
  }

  ghost predicate AnsweredOnce(trace: seq<Event>) {
    forall n, m :: 0 <= n < m < |trace| && trace[n].Answered? && trace[m].Answered? ==> trace[n].task != trace[m].task
  }

  // ----- the invariant

  ghost predicate HasArrived(trace: seq<Event>, task: TaskId, phone: Phone, message: MessageId) {
    exists n :: 0 <= n < |trace| && trace[n] == Arrived(task, phone, message)
  }

  /** Each registered phone points to its sleeping, uncancelled task, and there are no others. */
  ghost predicate PointersAgree(t: Tables) {
    && t.latest.Keys == t.tasks.Keys
    && (forall p :: p in t.latest ==>
          t.tasks[p] in t.sleeping && t.sleeping[t.tasks[p]] == Sleeper(p, t.latest[p], false))
    && (forall k :: k in t.sleeping && !t.sleeping[k].cancelled ==>
          t.sleeping[k].phone in t.tasks && t.tasks[t.sleeping[k].phone] == k)
  }

  ghost predicate MessagesDiffer(t: Tables) {
    forall k, l :: k in t.sleeping && l in t.sleeping && t.sleeping[k].message == t.sleeping[l].message ==> k == l
  }

  ghost predicate PhoneAgrees(s: Sys, p: Phone) {
    && (p in s.tables.latest && p in s.tables.tasks ==> Newest(s.trace, p) == Some(s.tables.tasks[p]))
    && (BurstOpen(s.trace, p) <==> p in s.tables.latest)
    && Bursts(s.trace, p) == Trues(s.trace, p) + if p in s.tables.latest then 1 else 0
  }

  ghost predicate TablesAgree(s: Sys) {
    PointersAgree(s.tables) && MessagesDiffer(s.tables) && forall p :: PhoneAgrees(s, p)
  }

  ghost predicate Past(trace: seq<Event>, n: nat, task: TaskId) {
    exists m :: 0 <= m < n && m < |trace| && trace[m].Arrived? && trace[m].task == task
  }

  ghost predicate SleepersArrived(s: Sys) {
    forall k :: k in s.tables.sleeping ==>
        HasArrived(s.trace, k, s.tables.sleeping[k].phone, s.tables.sleeping[k].message)
  }

  ghost predicate AnswersFinal(s: Sys) {
    forall n :: 0 <= n < |s.trace| && s.trace[n].Answered? ==>
      s.trace[n].task !in s.tables.sleeping && Past(s.trace, n, s.trace[n].task)
  }

  ghost predicate TraceAgrees(s: Sys) {
    SleepersArrived(s) && AnswersFinal(s)
  }

  ghost predicate Inv(s: Sys) {
    TablesAgree(s) && TraceAgrees(s) && OnlyNewestProcessed(s.trace) && AnsweredOnce(s.trace)
  }

  /** One more event, seen from a phone. */
  lemma SnocFacts(trace: seq<Event>, e: Event, phone: Phone)
    ensures Newest(trace + [e], phone) == if e.Arrived? && e.phone == phone then Some(e.task) else Newest(trace, phone)
    ensures BurstOpen(trace + [e], phone) <==>
            if e.phone == phone then e.Arrived? || (!e.process && BurstOpen(trace, phone)) else BurstOpen(trace, phone)
    ensures Bursts(trace + [e], phone) ==
            Bursts(trace, phone) + if e.Arrived? && e.phone == phone && !BurstOpen(trace, phone) then 1 else 0
    ensures Trues(trace + [e], phone) == Trues(trace, phone) + if AnswersTrue(e, phone) then 1 else 0
  {
    assert (trace + [e])[..|trace|] == trace;
  }

  lemma SleepersDifferFromNew(s: Sys, task: TaskId, message: MessageId)
    requires SleepersArrived(s) && Unused(s.trace, task, message)
    ensures task !in s.tables.sleeping && forall k :: k in s.tables.sleeping ==> s.tables.sleeping[k].message != message
  {
    assert forall k :: k in s.tables.sleeping ==>
             HasArrived(s.trace, k, s.tables.sleeping[k].phone, s.tables.sleeping[k].message);
  }

  /** Registering adds one sleeper and cancels those of its phone. */
  lemma RegisteredSleeper(t: Tables, task: TaskId, phone: Phone, message: MessageId, k: TaskId)
    requires PointersAgree(t) && k in Register(t, task, phone, message).sleeping
    ensures var me := Register(t, task, phone, message).sleeping[k];
            if k == task then me == Sleeper(phone, message, false)
            else
              && k in t.sleeping
              && me == t.sleeping[k].(cancelled := t.sleeping[k].cancelled || t.sleeping[k].phone == phone)
  {
  }

  lemma RegisteredPhone(t: Tables, task: TaskId, phone: Phone, message: MessageId, p: Phone)
    requires PointersAgree(t) && task !in t.sleeping && p in Register(t, task, phone, message).latest
    ensures var t' := Register(t, task, phone, message);
            p in t'.tasks && t'.tasks[p] in t'.sleeping && t'.sleeping[t'.tasks[p]] == Sleeper(p, t'.latest[p], false)
  {
    if p != phone {
      assert t.sleeping[t.tasks[p]] == Sleeper(p, t.latest[p], false);
      RegisteredSleeper(t, task, phone, message, t.tasks[p]);
    }
  }

  lemma RegisteredTask(t: Tables, task: TaskId, phone: Phone, message: MessageId, k: TaskId)
    requires PointersAgree(t) && k in Register(t, task, phone, message).sleeping
             && !Register(t, task, phone, message).sleeping[k].cancelled
    ensures var t' := Register(t, task, phone, message);
            t'.sleeping[k].phone in t'.tasks && t'.tasks[t'.sleeping[k].phone] == k
  {
    RegisteredSleeper(t, task, phone, message, k);
  }

  lemma RegisterKeepsPointers(t: Tables, task: TaskId, phone: Phone, message: MessageId)
    requires PointersAgree(t) && task !in t.sleeping
    ensures PointersAgree(Register(t, task, phone, message))
  {
    var t' := Register(t, task, phone, message);
    assert t'.latest.Keys == t.latest.Keys + {phone} && t'.tasks.Keys == t.tasks.Keys + {phone};
    forall p | p in t'.latest
      ensures t'.tasks[p] in t'.sleeping && t'.sleeping[t'.tasks[p]] == Sleeper(p, t'.latest[p], false)
    {
      RegisteredPhone(t, task, phone, message, p);
    }
    forall k | k in t'.sleeping && !t'.sleeping[k].cancelled
      ensures t'.sleeping[k].phone in t'.tasks && t'.tasks[t'.sleeping[k].phone] == k
    {
      RegisteredTask(t, task, phone, message, k);
    }
  }

  lemma RegisterKeepsMessages(t: Tables, task: TaskId, phone: Phone, message: MessageId)
    requires PointersAgree(t) && MessagesDiffer(t) && task !in t.sleeping
    requires forall k :: k in t.sleeping ==> t.sleeping[k].message != message
    ensures MessagesDiffer(Register(t, task, phone, message))
  {
    var t' := Register(t, task, phone, message);
    forall k, l | k in t'.sleeping && l in t'.sleeping && t'.sleeping[k].message == t'.sleeping[l].message
      ensures k == l
    {
      RegisteredSleeper(t, task, phone, message, k);
      RegisteredSleeper(t, task, phone, message, l);
    }
  }

  lemma ResolveKeepsPointers(t: Tables, task: TaskId)
    requires PointersAgree(t) && MessagesDiffer(t) && task in t.sleeping
    ensures PointersAgree(Resolve(t, task)) && MessagesDiffer(Resolve(t, task))
    ensures ShouldProcess(t, task) <==> !t.sleeping[task].cancelled
  {
    var me := t.sleeping[task];
    if me.phone in t.latest {
      assert t.sleeping[t.tasks[me.phone]].message == t.latest[me.phone];
    }
  }

  lemma PhoneStaysAgreed(s: Sys, input: Input, p: Phone)
    requires Inv(s) && Enabled(s, input)
    ensures PhoneAgrees(Apply(s, input), p)
  {
    assert PhoneAgrees(s, p);
    SnocFacts(s.trace, Apply(s, input).trace[|s.trace|], p);
    if input.Wake? {
      ResolveKeepsPointers(s.tables, input.task);
    }
  }

  lemma TablesStayAgreed(s: Sys, input: Input)
    requires Inv(s) && Enabled(s, input)
    ensures TablesAgree(Apply(s, input))
  {
    var s' := Apply(s, input);
    if input.Arrive? {
      SleepersDifferFromNew(s, input.task, input.message);
      RegisterKeepsPointers(s.tables, input.task, input.phone, input.message);
      RegisterKeepsMessages(s.tables, input.task, input.phone, input.message);
    } else if input.Wake? {
      ResolveKeepsPointers(s.tables, input.task);
    }
    forall p: Phone
      ensures PhoneAgrees(s', p)
    {
      PhoneStaysAgreed(s, input, p);
    }
  }

  lemma StillArrived(trace: seq<Event>, e: Event, task: TaskId, phone: Phone, message: MessageId)
    requires HasArrived(trace, task, phone, message) || e == Arrived(task, phone, message)
    ensures HasArrived(trace + [e], task, phone, message)
  {
    if HasArrived(trace, task, phone, message) {
      var n :| 0 <= n < |trace| && trace[n] == Arrived(task, phone, message);
      assert (trace + [e])[n] == trace[n];
    } else {
      assert (trace + [e])[|trace|] == e;
    }
  }

  lemma SleepersStayArrived(s: Sys, input: Input)
    requires Inv(s) && Enabled(s, input)
    ensures SleepersArrived(Apply(s, input))
  {
    var s' := Apply(s, input);
    forall k | k in s'.tables.sleeping
      ensures HasArrived(s'.trace, k, s'.tables.sleeping[k].phone, s'.tables.sleeping[k].message)
    {
      StillArrived(s.trace, s'.trace[|s.trace|], k, s'.tables.sleeping[k].phone, s'.tables.sleeping[k].message);
    }
  }

  lemma AnswersStayFinal(s: Sys, input: Input)
    requires Inv(s) && Enabled(s, input)
    ensures AnswersFinal(Apply(s, input))
  {
    var s' := Apply(s, input);
    forall n | 0 <= n < |s'.trace| && s'.trace[n].Answered?
      ensures s'.trace[n].task !in s'.tables.sleeping && Past(s'.trace, n, s'.trace[n].task)
    {
      var task := s'.trace[n].task;
      if n == |s.trace| {
        assert HasArrived(s.trace, task, s.tables.sleeping[task].phone, s.tables.sleeping[task].message);
        var m :| 0 <= m < |s.trace|
            && s.trace[m] == Arrived(task, s.tables.sleeping[task].phone, s.tables.sleeping[task].message);
        assert s'.trace[m] == s.trace[m];
      } else {
        assert s'.trace[n] == s.trace[n] && Past(s.trace, n, task);
        var m :| 0 <= m < n && s.trace[m].Arrived? && s.trace[m].task == task;
        assert s'.trace[m] == s.trace[m];
      }
    }
  }

  lemma TrueIsForNewest(s: Sys, task: TaskId)
    requires Inv(s) && task in s.tables.sleeping && ShouldProcess(s.tables, task)
    ensures Newest(s.trace, s.tables.sleeping[task].phone) == Some(task)
  {
    ResolveKeepsPointers(s.tables, task);
    assert PhoneAgrees(s, s.tables.sleeping[task].phone);
  }

  lemma AnswersStayRight(s: Sys, input: Input)
    requires Inv(s) && Enabled(s, input)
    ensures OnlyNewestProcessed(Apply(s, input).trace)
  {
    var s' := Apply(s, input);
    forall n | 0 <= n < |s'.trace| && s'.trace[n].Answered? && s'.trace[n].process
      ensures Newest(s'.trace[..n], s'.trace[n].phone) == Some(s'.trace[n].task)
    {
      assert s'.trace[..n] == s.trace[..n];
      if n == |s.trace| {
        assert s.trace[..n] == s.trace;
        TrueIsForNewest(s, input.task);
      } else {
        assert s'.trace[n] == s.trace[n];
      }
    }
  }

  lemma AnswersStaySingle(s: Sys, input: Input)
    requires Inv(s) && Enabled(s, input)
    ensures AnsweredOnce(Apply(s, input).trace)
  {
    var trace, last := Apply(s, input).trace, |s.trace|;
    forall n, m | 0 <= n < m < |trace| && trace[n].Answered? && trace[m].Answered?
      ensures trace[n].task != trace[m].task
    {
      assert trace[n] == s.trace[n];
      if m < last {
        assert trace[m] == s.trace[m];
      } else {
        assert trace[m].task in s.tables.sleeping && s.trace[n].task !in s.tables.sleeping;
      }
    }
  }

  lemma StepKeepsInv(s: Sys, input: Input)
    requires Inv(s) && Enabled(s, input)
    ensures Inv(Apply(s, input))
  {
    TablesStayAgreed(s, input);
    SleepersStayArrived(s, input);
    AnswersStayFinal(s, input);
    AnswersStayRight(s, input);
    AnswersStaySingle(s, input);
  }

  lemma {:induction false} ReachableInv(s: Sys, inputs: seq<Input>)
    requires Inv(s) && Valid(s, inputs)
    ensures Inv(RunAll(s, inputs))
    decreases |inputs|
  {
    if inputs != [] {
      StepKeepsInv(s, inputs[0]);
      ReachableInv(Apply(s, inputs[0]), inputs[1..]);
    }
  }

  /** For every interleaving, even if cancelled tasks wake: a True is for the newest arrival of its
      phone, and no task answers twice. */
  lemma OnlyTheNewestOnce(inputs: seq<Input>)
    requires Valid(EMPTY, inputs)
    ensures OnlyNewestProcessed(RunAll(EMPTY, inputs).trace) && AnsweredOnce(RunAll(EMPTY, inputs).trace)
  {
    ReachableInv(EMPTY, inputs);
  }

  lemma {:induction false} NewestChanges(trace: seq<Event>, phone: Phone, n: nat, m: nat)
    requires n <= m <= |trace| && Newest(trace[..n], phone) != Newest(trace[..m], phone)
    ensures exists a :: n <= a < m && trace[a].Arrived? && trace[a].phone == phone
    decreases m
  {
    assert trace[..m][..m - 1] == trace[..m - 1];
    if !(trace[m - 1].Arrived? && trace[m - 1].phone == phone) {
      NewestChanges(trace, phone, n, m - 1);
    }
  }

  /** Between two Trues of a phone there is an arrival of that phone. */
  lemma ArrivalBetweenTrues(inputs: seq<Input>, phone: Phone, n: nat, m: nat)
    requires Valid(EMPTY, inputs) && n < m < |RunAll(EMPTY, inputs).trace|
    requires var trace := RunAll(EMPTY, inputs).trace; AnswersTrue(trace[n], phone) && AnswersTrue(trace[m], phone)
    ensures var trace := RunAll(EMPTY, inputs).trace;
            exists a :: n < a < m && trace[a].Arrived? && trace[a].phone == phone
  {
    OnlyTheNewestOnce(inputs);
    NewestChanges(RunAll(EMPTY, inputs).trace, phone, n, m);
  }

  /** Once every task has ended both tables are empty and each burst of a phone got exactly one True. */
  lemma OneTruePerBurst(inputs: seq<Input>, phone: Phone)
    requires Valid(EMPTY, inputs) && RunAll(EMPTY, inputs).tables.sleeping == map[]
    ensures RunAll(EMPTY, inputs).tables == EMPTY.tables
    ensures Trues(RunAll(EMPTY, inputs).trace, phone) == Bursts(RunAll(EMPTY, inputs).trace, phone)
  {
    ReachableInv(EMPTY, inputs);
    var t := RunAll(EMPTY, inputs).tables;
    assert PhoneAgrees(RunAll(EMPTY, inputs), phone);
    assert forall p :: p !in t.latest && p !in t.tasks;
  }

  // ----- phones do not affect each other

  ghost function Only(inputs: seq<Input>, phone: Phone): seq<Input> {
    if inputs == [] then []
    else (if inputs[0].phone == phone then [inputs[0]] else []) + Only(inputs[1..], phone)
  }

  ghost function EventsOf(trace: seq<Event>, phone: Phone): seq<Event> {
    if trace == [] then []
    else
      var e := trace[|trace| - 1];
      EventsOf(trace[..|trace| - 1], phone) + if e.phone == phone then [e] else []
  }

  ghost function LatestOf(t: Tables, phone: Phone): Option<MessageId> {
    if phone in t.latest then Some(t.latest[phone]) else None
  }

  ghost function TaskOf(t: Tables, phone: Phone): Option<TaskId> {
    if phone in t.tasks then Some(t.tasks[phone]) else None
  }

  /** The sleeping task `k`, if it belongs to the phone. */
  ghost function SleeperOf(t: Tables, phone: Phone, k: TaskId): Option<Sleeper> {
    if k in t.sleeping && t.sleeping[k].phone == phone then Some(t.sleeping[k]) else None
  }

  ghost predicate SameView(t: Tables, u: Tables, phone: Phone) {
    && LatestOf(t, phone) == LatestOf(u, phone) && TaskOf(t, phone) == TaskOf(u, phone)
    && forall k :: SleeperOf(t, phone, k) == SleeperOf(u, phone, k)
  }

  /** Two systems look alike from a phone. */
  ghost predicate Alike(s: Sys, z: Sys, phone: Phone) {
    SameView(s.tables, z.tables, phone) && EventsOf(s.trace, phone) == EventsOf(z.trace, phone)
  }

  ghost predicate Within(z: Sys, s: Sys) {
    forall n :: 0 <= n < |z.trace| && z.trace[n].Arrived? ==> z.trace[n] in s.trace
  }

  lemma EventsSnoc(trace: seq<Event>, e: Event, phone: Phone)
    ensures EventsOf(trace + [e], phone) == EventsOf(trace, phone) + if e.phone == phone then [e] else []
  {
    assert (trace + [e])[..|trace|] == trace;
  }

  lemma SleeperAfterRegister(t: Tables, task: TaskId, owner: Phone, message: MessageId, phone: Phone, k: TaskId)
    requires PointersAgree(t) && task !in t.sleeping
    ensures SleeperOf(Register(t, task, owner, message), phone, k) ==
            if k == task && owner == phone then Some(Sleeper(owner, message, false))
            else if owner == phone && TaskOf(t, phone) == Some(k) && SleeperOf(t, phone, k).Some?
            then Some(SleeperOf(t, phone, k).value.(cancelled := true))
            else SleeperOf(t, phone, k)
  {
    if owner in t.tasks {
      assert owner in t.latest;
    }
  }

  lemma OtherPhoneView(s: Sys, phone: Phone, input: Input)
    requires Inv(s) && Enabled(s, input) && input.phone != phone
    ensures SameView(Apply(s, input).tables, s.tables, phone)
  {
    forall k
      ensures SleeperOf(Apply(s, input).tables, phone, k) == SleeperOf(s.tables, phone, k)
    {
      OtherPhoneSleeper(s, phone, input, k);
    }
  }

  lemma OtherPhoneSleeper(s: Sys, phone: Phone, input: Input, k: TaskId)
    requires Inv(s) && Enabled(s, input) && input.phone != phone
    ensures SleeperOf(Apply(s, input).tables, phone, k) == SleeperOf(s.tables, phone, k)
  {
    if input.Arrive? {
      SleepersDifferFromNew(s, input.task, input.message);
      SleeperAfterRegister(s.tables, input.task, input.phone, input.message, phone, k);
    }
  }

  lemma ArriveAlike(s: Sys, z: Sys, input: Input)
    requires Inv(s) && Inv(z) && Alike(s, z, input.phone) && input.Arrive? && Enabled(s, input) && Enabled(z, input)
    ensures SameView(Apply(s, input).tables, Apply(z, input).tables, input.phone)
  {
    SleepersDifferFromNew(s, input.task, input.message);
    SleepersDifferFromNew(z, input.task, input.message);
    forall k
      ensures SleeperOf(Apply(s, input).tables, input.phone, k) == SleeperOf(Apply(z, input).tables, input.phone, k)
    {
      SleeperAfterRegister(s.tables, input.task, input.phone, input.message, input.phone, k);
      SleeperAfterRegister(z.tables, input.task, input.phone, input.message, input.phone, k);
      assert SleeperOf(s.tables, input.phone, k) == SleeperOf(z.tables, input.phone, k);
    }
  }

  lemma AnswerAlike(s: Sys, z: Sys, input: Input)
    requires Alike(s, z, input.phone) && !input.Arrive? && Enabled(s, input)
    ensures Enabled(z, input) && SameView(Apply(s, input).tables, Apply(z, input).tables, input.phone)
    ensures input.Wake? ==> ShouldProcess(s.tables, input.task) == ShouldProcess(z.tables, input.task)
  {
    var phone := input.phone;
    assert SleeperOf(s.tables, phone, input.task) == SleeperOf(z.tables, phone, input.task);
    assert LatestOf(s.tables, phone) == LatestOf(z.tables, phone) && TaskOf(s.tables, phone) == TaskOf(z.tables, phone);
    forall k
      ensures SleeperOf(Apply(s, input).tables, phone, k) == SleeperOf(Apply(z, input).tables, phone, k)
    {
      assert SleeperOf(s.tables, phone, k) == SleeperOf(z.tables, phone, k);
    }
  }

  lemma SamePhoneStep(s: Sys, z: Sys, phone: Phone, input: Input)
    requires Inv(s) && Inv(z) && Alike(s, z, phone) && Within(z, s) && Enabled(s, input) && input.phone == phone
    ensures Enabled(z, input) && Alike(Apply(s, input), Apply(z, input), phone)
  {
    if input.Arrive? {
      assert Enabled(z, input);
      ArriveAlike(s, z, input);
    } else {
      AnswerAlike(s, z, input);
    }
    EventsSnoc(s.trace, Apply(s, input).trace[|s.trace|], phone);
    EventsSnoc(z.trace, Apply(z, input).trace[|z.trace|], phone);
  }

  lemma StaysWithin(s: Sys, z: Sys, input: Input)
    requires Within(z, s) && Enabled(s, input)
    ensures Within(z, Apply(s, input))
    ensures Enabled(z, input) ==> Within(Apply(z, input), Apply(s, input))
  {
    var s' := Apply(s, input);
    assert forall n :: 0 <= n < |s.trace| ==> s'.trace[n] == s.trace[n];
    assert s'.trace[|s.trace|] in s'.trace;
    assert forall x :: x in s.trace ==> x in s'.trace;
  }

  lemma {:induction false} RunsStayAlike(s: Sys, z: Sys, phone: Phone, inputs: seq<Input>)
    requires Inv(s) && Inv(z) && Alike(s, z, phone) && Within(z, s) && Valid(s, inputs)
    ensures Valid(z, Only(inputs, phone))
    ensures Alike(RunAll(s, inputs), RunAll(z, Only(inputs, phone)), phone)
    decreases |inputs|
  {
    if inputs != [] {
      var input := inputs[0];
      StepKeepsInv(s, input);
      StaysWithin(s, z, input);
      if input.phone == phone {
        SamePhoneStep(s, z, phone, input);
        StepKeepsInv(z, input);
        RunsStayAlike(Apply(s, input), Apply(z, input), phone, inputs[1..]);
        assert Only(inputs, phone)[0] == input && Only(inputs, phone)[1..] == Only(inputs[1..], phone);
      } else {
        OtherPhoneView(s, phone, input);
        EventsSnoc(s.trace, Apply(s, input).trace[|s.trace|], phone);
        RunsStayAlike(Apply(s, input), z, phone, inputs[1..]);
        assert Only(inputs, phone) == Only(inputs[1..], phone);
      }
    }
  }

  /** Taking every other phone out of a run leaves this phone's tables and answers exactly as they were. */
  lemma PhonesAreIndependent(inputs: seq<Input>, phone: Phone)
    requires Valid(EMPTY, inputs)
    ensures Valid(EMPTY, Only(inputs, phone))
    ensures Alike(RunAll(EMPTY, inputs), RunAll(EMPTY, Only(inputs, phone)), phone)
  {
    RunsStayAlike(EMPTY, EMPTY, phone, inputs);
  }

  // ----- the two dictionaries as the handler keeps them

  class Debouncer {
    var latest: map<Phone, MessageId>
    var tasks: map<Phone, TaskId>
    var sleeping: map<TaskId, Sleeper>

    function Contents(): Tables
      reads this
    {
      Tables(latest, tasks, sleeping)
    }

    constructor ()
      ensures Contents() == EMPTY.tables
    {
      latest, tasks, sleeping := map[], map[], map[];
    }

    /** The part of `_handle_with_debounce` under the lock. */
    method HandleWithDebounce(task: TaskId, phone: Phone, message: MessageId)
      modifies this
      ensures Contents() == Register(old(Contents()), task, phone, message)
    {
      latest := latest[phone := message];
      if phone in tasks && tasks[phone] in sleeping {
        sleeping := sleeping[tasks[phone] := sleeping[tasks[phone]].(cancelled := true)];
      }
      sleeping := sleeping[task := Sleeper(phone, message, false)];
      tasks := tasks[phone := task];
    }

    /** The part of `_debounce_execute` after the sleep. */
    method DebounceExecute(task: TaskId) returns (shouldProcess: bool)
      requires task in sleeping
      modifies this
      ensures shouldProcess == ShouldProcess(old(Contents()), task)
      ensures Contents() == Resolve(old(Contents()), task)
    {
      var phone, message := sleeping[task].phone, sleeping[task].message;
      shouldProcess := phone in latest && latest[phone] == message;
      if shouldProcess {
        latest := latest - {phone};
      }
      if phone in tasks && tasks[phone] == task {
        tasks := tasks - {phone};
      }
      sleeping := sleeping - {task};
    }
  }
}
