/** Triggers and pollers in memory, over any number of main instances: only the leader
    is to have any, while leadership changes hands and adding a workflow takes time.

    Adding decides at its start, by who leads then, whether triggers are added, and adds
    them some awaits later; everything else a handler does is one step here. */
module TriggerLeadership {
  import opened Wrappers

  type InstanceId = nat
  type WorkflowId = string
  type AddId = nat

  /** A call of `add` under way. */
  datatype Pending = Pending(instance: InstanceId, workflow: WorkflowId, addsTriggers: bool, onActivation: bool)

  datatype Command = AddCommand(workflow: WorkflowId) | RemoveCommand(workflow: WorkflowId)

  /** One instance: the workflows with triggers in memory, those queued to be activated
      again, and, while it activates all stored ones, which it has yet to begin. */
  datatype Instance = Instance(memory: set<WorkflowId>, queued: set<WorkflowId>,
      activating: bool, toBegin: set<WorkflowId>)

  datatype State = State(
    multiMain: bool,
    leader: Option<InstanceId>,
    instances: map<InstanceId, Instance>,
    adds: map<AddId, Pending>,
    published: set<Command>)

  function Initial(multiMain: bool): State {
    State(multiMain, None, map[], map[], {})
  }

  function Of(s: State, i: InstanceId): Instance {
    if i in s.instances then s.instances[i] else Instance({}, {}, false, {})
  }

  function With(s: State, i: InstanceId, instance: Instance): State {
    s.(instances := s.instances[i := instance])
  }

  /** How a call of `add` ends: it may still fail late, once triggers were added. */
  datatype Outcome = Activated(hasTriggers: bool) | Failed(hasTriggers: bool, late: bool, queue: bool)

  datatype Action =
    | Elect(i: InstanceId, active: set<WorkflowId>)  // and activate what the database lists
    | InitFollower(i: InstanceId, active: set<WorkflowId>)
    | StepDown(i: InstanceId)
    | ActivateNext(i: InstanceId, a: AddId, w: WorkflowId)
    | FinishActivation(i: InstanceId)
    | RequestAdd(i: InstanceId, a: AddId, w: WorkflowId)
    | HandleAdd(i: InstanceId, a: AddId, w: WorkflowId)
    | EndAdd(a: AddId, outcome: Outcome)
    | TriggerError(i: InstanceId, w: WorkflowId)
    | Retry(i: InstanceId, a: AddId, w: WorkflowId)
    | RequestRemove(i: InstanceId, w: WorkflowId)
    | HandleRemove(i: InstanceId, w: WorkflowId)

  predicate Leads(s: State, i: InstanceId) {
    s.leader == Some(i)
  }

  predicate Can(s: State, x: Action) {
    match x
    case Elect(_, _) => s.leader.None?
    case InitFollower(_, _) => true
    case StepDown(i) => Leads(s, i)
    case ActivateNext(i, a, w) => a !in s.adds && Of(s, i).activating && w in Of(s, i).toBegin
    case FinishActivation(i) =>
      Of(s, i).activating && Of(s, i).toBegin == {}
      && forall a :: a in s.adds && s.adds[a].instance == i ==> !s.adds[a].onActivation
    case RequestAdd(_, a, _) => a !in s.adds
    case HandleAdd(i, a, w) => a !in s.adds && Leads(s, i) && AddCommand(w) in s.published
    case EndAdd(a, _) => a in s.adds
    case TriggerError(i, w) => w in Of(s, i).memory
    case Retry(i, a, w) => a !in s.adds && w in Of(s, i).queued
    case RequestRemove(_, _) => true
    case HandleRemove(i, w) => Leads(s, i) && RemoveCommand(w) in s.published
  }

  function BeginAdd(s: State, i: InstanceId, a: AddId, w: WorkflowId, onActivation: bool): State {
    s.(adds := s.adds[a := Pending(i, w, Leads(s, i), onActivation)])
  }

  /** With several mains, an add or remove asked of one is published, for the leader. */
  function AddOrPublish(s: State, i: InstanceId, a: AddId, w: WorkflowId): State {
    if s.multiMain then s.(published := s.published + {AddCommand(w)}) else BeginAdd(s, i, a, w, false)
  }

  /** Skipped while an earlier activation is in progress. */
  function ActivateAll(s: State, i: InstanceId, active: set<WorkflowId>): State {
    var instance := Of(s, i);
    if instance.activating then s else With(s, i, instance.(activating := true, toBegin := active))
  }

  function Next(s: State, x: Action): State
    requires Can(s, x)
  {
    match x
    case Elect(i, active) => ActivateAll(s.(leader := Some(i)), i, active)
    case InitFollower(i, active) => ActivateAll(s, i, active)
    case StepDown(i) => With(s.(leader := None), i, Of(s, i).(memory := {}))
    case ActivateNext(i, a, w) =>
      With(BeginAdd(s, i, a, w, true), i, Of(s, i).(toBegin := Of(s, i).toBegin - {w}))
    case FinishActivation(i) => With(s, i, Of(s, i).(activating := false))
    case RequestAdd(i, a, w) => AddOrPublish(s, i, a, w)
    case HandleAdd(i, a, w) => BeginAdd(s, i, a, w, false)
    case EndAdd(a, outcome) => EndAddStep(s, a, outcome)
    case TriggerError(i, w) => With(s, i, Of(s, i).(memory := Of(s, i).memory - {w}, queued := Of(s, i).queued + {w}))
    case Retry(i, a, w) => AddOrPublish(s, i, a, w)
    case RequestRemove(i, w) =>
      if s.multiMain then s.(published := s.published + {RemoveCommand(w)})
      else With(s, i, Of(s, i).(memory := Of(s, i).memory - {w}, queued := Of(s, i).queued - {w}))
    case HandleRemove(i, w) => With(s, i, Of(s, i).(memory := Of(s, i).memory - {w}))
  }

  function EndAddStep(s: State, a: AddId, outcome: Outcome): State
    requires a in s.adds
  {
    var add := s.adds[a];
    var instance := Of(s, add.instance);
    var through := outcome.Activated? || outcome.late;
    var memory :=
      if through && add.addsTriggers && outcome.hasTriggers then instance.memory + {add.workflow}
      else instance.memory;
    var queued := if through then instance.queued - {add.workflow} else instance.queued;
    With(s.(adds := s.adds - {a}), add.instance, instance.(
      memory := memory,
      queued := if outcome.Failed? && outcome.queue then queued + {add.workflow} else queued))
  }

  ghost predicate Feasible(s: State, actions: seq<Action>)
    decreases |actions|
  {
    actions == [] || (Can(s, actions[0]) && Feasible(Next(s, actions[0]), actions[1..]))
  }

  ghost function After(s: State, actions: seq<Action>): State
    requires Feasible(s, actions)
    decreases |actions|
  {
    if actions == [] then s else After(Next(s, actions[0]), actions[1..])
  }

  // ---------- What a step does to an instance's triggers and queue ----------

  predicate GotThrough(outcome: Outcome) {
    outcome.Activated? || (outcome.Failed? && outcome.late)
  }

  /** Triggers get into an instance's memory only as an add that was begun while leading ends,
      if it got as far as adding some; and out of it when the instance steps down, an error
      comes from them, or the workflow is removed: with a single main as asked, with several
      by the leader, who is told. */
  lemma MemoryExactlyAfter(s: State, x: Action, i: InstanceId, w: WorkflowId)
    requires Can(s, x)
    ensures w in Of(Next(s, x), i).memory <==>
              || (x.EndAdd? && s.adds[x.a].instance == i && s.adds[x.a].workflow == w && s.adds[x.a].addsTriggers
                  && GotThrough(x.outcome) && x.outcome.hasTriggers)
              || (w in Of(s, i).memory && x != StepDown(i) && x != TriggerError(i, w) && x != HandleRemove(i, w)
                  && (x == RequestRemove(i, w) ==> s.multiMain))
  {
  }

  /** A workflow is queued to be activated again when an error comes from its triggers or an
      add of it fails in a way that asks for it, and taken off when an add of it gets through
      or, with a single main, it is removed. */
  lemma QueueExactlyAfter(s: State, x: Action, i: InstanceId, w: WorkflowId)
    requires Can(s, x)
    ensures w in Of(Next(s, x), i).queued <==>
              || x == TriggerError(i, w)
              || (x.EndAdd? && s.adds[x.a].instance == i && s.adds[x.a].workflow == w
                  && x.outcome.Failed? && x.outcome.queue)
              || (w in Of(s, i).queued && (x == RequestRemove(i, w) ==> s.multiMain)
                  && !(x.EndAdd? && s.adds[x.a].instance == i && s.adds[x.a].workflow == w && GotThrough(x.outcome)))
  {
  }

  /** With several mains, asking an instance to add or remove a workflow, or its turn to be
      activated again, does nothing but publish the command; whoever begins an add, adds
      triggers exactly if it leads by then. */
  lemma AsksTheLeader(s: State, x: Action)
    requires Can(s, x)
    ensures s.multiMain && (x.RequestAdd? || x.Retry?) ==>
              Next(s, x) == s.(published := s.published + {AddCommand(x.w)})
    ensures s.multiMain && x.RequestRemove? ==> Next(s, x) == s.(published := s.published + {RemoveCommand(x.w)})
    ensures x.HandleAdd? || x.ActivateNext? || (!s.multiMain && (x.RequestAdd? || x.Retry?)) ==>
              Next(s, x).adds == s.adds[x.a := Pending(x.i, x.w, s.leader == Some(x.i), x.ActivateNext?)]
  {
  }

  lemma {:induction false} CommandsStay(s: State, actions: seq<Action>)
    requires Feasible(s, actions)
    ensures s.published <= After(s, actions).published
    decreases |actions|
  {
    if actions != [] {
      CommandsStay(Next(s, actions[0]), actions[1..]);
    }
  }

  /** With several mains, whatever is asked of an instance can be done by whoever leads at any
      later time, and by nobody else. */
  lemma CommandsReachTheLeader(s: State, x: Action, actions: seq<Action>, j: InstanceId, a: AddId)
    requires s.multiMain && Can(s, x) && (x.RequestAdd? || x.Retry? || x.RequestRemove?)
    requires Feasible(Next(s, x), actions) && a !in After(Next(s, x), actions).adds
    ensures var end := After(Next(s, x), actions);
            var handling := if x.RequestRemove? then HandleRemove(j, x.w) else HandleAdd(j, a, x.w);
            Can(end, handling) <==> end.leader == Some(j)
  {
    CommandsStay(Next(s, x), actions);
  }

  /** The step asks for the command. */
  predicate AsksFor(x: Action, c: Command) {
    match c
    case AddCommand(w) => (x.RequestAdd? || x.Retry?) && x.w == w
    case RemoveCommand(w) => x.RequestRemove? && x.w == w
  }

  lemma {:induction false} PublishedOnlyIfAsked(s: State, actions: seq<Action>, c: Command)
    requires Feasible(s, actions) && c in After(s, actions).published && c !in s.published
    ensures s.multiMain && exists x :: x in actions && AsksFor(x, c)
    decreases |actions|
  {
    if c in Next(s, actions[0]).published {
      assert actions[0] in actions && AsksFor(actions[0], c);
    } else {
      PublishedOnlyIfAsked(Next(s, actions[0]), actions[1..], c);
      var x :| x in actions[1..] && AsksFor(x, c);
      assert x in actions;
    }
  }

  /** The instance finds the workflow among the active ones, elected or starting up. */
  predicate Lists(x: Action, i: InstanceId, w: WorkflowId) {
    (x.Elect? || x.InitFollower?) && x.i == i && w in x.active
  }

  lemma {:induction false} ToBeginOnlyIfListed(s: State, actions: seq<Action>, i: InstanceId, w: WorkflowId)
    requires Feasible(s, actions) && w in Of(After(s, actions), i).toBegin && w !in Of(s, i).toBegin
    ensures exists x :: x in actions && Lists(x, i, w)
    decreases |actions|
  {
    if w in Of(Next(s, actions[0]), i).toBegin {
      assert actions[0] in actions && Lists(actions[0], i, w);
    } else {
      ToBeginOnlyIfListed(Next(s, actions[0]), actions[1..], i, w);
      var x :| x in actions[1..] && Lists(x, i, w);
      assert x in actions;
    }
  }

  /** A leader adds or removes a workflow on a command only if some instance was asked to, and
      an instance activates a workflow only while it goes through the active ones it found. */
  lemma NothingUnasked(multiMain: bool, actions: seq<Action>, x: Action)
    requires Feasible(Initial(multiMain), actions) && Can(After(Initial(multiMain), actions), x)
    ensures x.HandleAdd? ==> multiMain && exists y :: y in actions && AsksFor(y, AddCommand(x.w))
    ensures x.HandleRemove? ==> multiMain && exists y :: y in actions && AsksFor(y, RemoveCommand(x.w))
    ensures x.ActivateNext? ==>
              && Of(After(Initial(multiMain), actions), x.i).activating
              && exists y :: y in actions && Lists(y, x.i, x.w)
  {
    match x
    case HandleAdd(_, _, w) => PublishedOnlyIfAsked(Initial(multiMain), actions, AddCommand(w));
    case HandleRemove(_, w) => PublishedOnlyIfAsked(Initial(multiMain), actions, RemoveCommand(w));
    case ActivateNext(i, _, w) => ToBeginOnlyIfListed(Initial(multiMain), actions, i, w);
    case _ =>
  }

  /** Only triggers in memory report errors; the workflow can then be tried again, until it is
      taken off the queue. */
  lemma ErrorsLeadToRetries(s: State, i: InstanceId, w: WorkflowId, a: AddId)
    requires a !in s.adds
    ensures Can(s, TriggerError(i, w)) <==> i in s.instances && w in s.instances[i].memory
    ensures Can(s, TriggerError(i, w)) ==> Can(Next(s, TriggerError(i, w)), Retry(i, a, w))
    ensures Can(s, Retry(i, a, w)) <==> i in s.instances && w in s.instances[i].queued
  {
  }

  /** No add of the workflow that was begun while leading ends with triggers added. */
  ghost predicate AddsNone(s: State, actions: seq<Action>, w: WorkflowId)
    requires Feasible(s, actions)
    decreases |actions|
  {
    actions == [] ||
    (!(actions[0].EndAdd? && s.adds[actions[0].a].workflow == w && s.adds[actions[0].a].addsTriggers
       && GotThrough(actions[0].outcome) && actions[0].outcome.hasTriggers)
     && AddsNone(Next(s, actions[0]), actions[1..], w))
  }

  lemma {:induction false} GoneUntilAdded(s: State, actions: seq<Action>, w: WorkflowId)
    requires Feasible(s, actions) && AddsNone(s, actions, w) && forall j :: w !in Of(s, j).memory
    ensures forall j :: w !in Of(After(s, actions), j).memory
    decreases |actions|
  {
    if actions != [] {
      forall j
        ensures w !in Of(Next(s, actions[0]), j).memory
      {
        MemoryExactlyAfter(s, actions[0], j, w);
      }
      GoneUntilAdded(Next(s, actions[0]), actions[1..], w);
    }
  }

  // ---------- Safety ----------

  ghost predicate OnlyLeaderHasTriggers(s: State) {
    forall i :: i in s.instances && s.instances[i].memory != {} ==> Leads(s, i)
  }

  /** And only the leader is about to add some. */
  ghost predicate OnlyLeaderAddsTriggers(s: State) {
    forall a :: a in s.adds && s.adds[a].addsTriggers ==> Leads(s, s.adds[a].instance)
  }

  ghost predicate Safe(s: State) {
    OnlyLeaderHasTriggers(s) && OnlyLeaderAddsTriggers(s)
  }

  /** The instance is in the middle of adding triggers. */
  ghost predicate Adding(s: State, i: InstanceId) {
    exists a :: a in s.adds && s.adds[a].instance == i && s.adds[a].addsTriggers
  }

  lemma StepKeepsSafe(s: State, x: Action)
    requires Safe(s) && Can(s, x) && !(x.StepDown? && Adding(s, x.i))
    ensures Safe(Next(s, x))
  {
    match x
    case EndAdd(a, outcome) => EndAddKeepsSafe(s, a, outcome);
    case _ =>
  }

  lemma EndAddKeepsSafe(s: State, a: AddId, outcome: Outcome)
    requires Safe(s) && a in s.adds
    ensures Safe(EndAddStep(s, a, outcome))
  {
  }

  /** No instance steps down while it is adding triggers. */
  ghost predicate StepsDownIdle(s: State, actions: seq<Action>)
    requires Feasible(s, actions)
    decreases |actions|
  {
    actions == [] ||
    (!(actions[0].StepDown? && Adding(s, actions[0].i)) && StepsDownIdle(Next(s, actions[0]), actions[1..]))
  }

  lemma {:induction false} AlwaysSafe(s: State, actions: seq<Action>)
    requires Safe(s) && Feasible(s, actions) && StepsDownIdle(s, actions)
    ensures Safe(After(s, actions))
    decreases |actions|
  {
    if actions != [] {
      StepKeepsSafe(s, actions[0]);
      AlwaysSafe(Next(s, actions[0]), actions[1..]);
    }
  }

  /** In such runs no workflow's triggers live on two instances. */
  lemma TriggersLiveOnce(multiMain: bool, actions: seq<Action>, i: InstanceId, j: InstanceId, w: WorkflowId)
    requires Feasible(Initial(multiMain), actions) && StepsDownIdle(Initial(multiMain), actions)
    requires var s := After(Initial(multiMain), actions); w in Of(s, i).memory && w in Of(s, j).memory
    ensures i == j && Leads(After(Initial(multiMain), actions), i)
  {
    AlwaysSafe(Initial(multiMain), actions);
  }

  /** Once the leader has removed a workflow, no instance has its triggers, until an add of it
      ends with some. */
  lemma RemovedIsGone(s: State, x: Action, w: WorkflowId, actions: seq<Action>)
    requires Safe(s) && Can(s, x) && (exists i :: Leads(s, i) && x in {HandleRemove(i, w), RequestRemove(i, w)})
    requires x.RequestRemove? ==> !s.multiMain
    requires Feasible(Next(s, x), actions) && AddsNone(Next(s, x), actions, w)
    ensures forall j :: w !in Of(After(Next(s, x), actions), j).memory
  {
    forall j
      ensures w !in Of(Next(s, x), j).memory
    {
      MemoryExactlyAfter(s, x, j, w);
    }
    GoneUntilAdded(Next(s, x), actions, w);
  }

  /** What may follow a state without another instance stepping down amid an add. */
  ghost predicate SafeFromHere(s: State) {
    forall actions :: Feasible(s, actions) && StepsDownIdle(s, actions) ==> OnlyLeaderHasTriggers(After(s, actions))
  }

  /** An instance may step down exactly when it is not adding triggers: otherwise the add
      goes on, and leaves a follower with triggers. */
  lemma StepDownSafeExactlyWhenIdle(s: State, i: InstanceId)
    requires Safe(s) && Can(s, StepDown(i))
    ensures SafeFromHere(Next(s, StepDown(i))) <==> !Adding(s, i)
  {
    var s' := Next(s, StepDown(i));
    if Adding(s, i) {
      var a :| a in s.adds && s.adds[a].instance == i && s.adds[a].addsTriggers;
      var end := EndAdd(a, Activated(true));
      assert [end][1..] == [];
      assert Feasible(Next(s', end), []) && StepsDownIdle(Next(s', end), []);
      assert Feasible(s', [end]) && After(s', [end]) == Next(s', end);
      assert StepsDownIdle(s', [end]);
      assert i in Next(s', end).instances && s.adds[a].workflow in Next(s', end).instances[i].memory;
    } else {
      StepKeepsSafe(s, StepDown(i));
      forall actions | Feasible(s', actions) && StepsDownIdle(s', actions)
        ensures OnlyLeaderHasTriggers(After(s', actions))
      {
        AlwaysSafe(s', actions);
      }
    }
  }

  // ---------- Completeness ----------

  /** The workflow's triggers are in the instance's memory, or on their way there. */
  ghost predicate Underway(s: State, i: InstanceId, w: WorkflowId) {
    || w in Of(s, i).memory
    || (Of(s, i).activating && w in Of(s, i).toBegin)
    || exists a :: a in s.adds && Brings(s.adds[a], i, w)
  }

  predicate Brings(add: Pending, i: InstanceId, w: WorkflowId) {
    add.instance == i && add.workflow == w && add.addsTriggers
  }

  /** Nothing that takes the workflow's triggers away: its adds succeed, its triggers
      report no error, it is not removed, and the instance goes on leading. */
  predicate Spares(s: State, x: Action, i: InstanceId, w: WorkflowId) {
    match x
    case StepDown(j) => j != i
    case EndAdd(a, outcome) => a in s.adds && s.adds[a].instance == i && s.adds[a].workflow == w ==>
        outcome == Activated(true)
    case TriggerError(j, v) => !(j == i && v == w)
    case RequestRemove(j, v) => !(j == i && v == w)
    case HandleRemove(j, v) => !(j == i && v == w)
    case _ => true
  }

  lemma StepKeepsUnderway(s: State, x: Action, i: InstanceId, w: WorkflowId)
    requires Leads(s, i) && Underway(s, i, w) && Can(s, x) && Spares(s, x, i, w)
    ensures Leads(Next(s, x), i) && Underway(Next(s, x), i, w)
  {
    var s' := Next(s, x);
    if a :| a in s.adds && Brings(s.adds[a], i, w) {
      if a in s'.adds {
        assert Brings(s'.adds[a], i, w);
      } else {
        assert x == EndAdd(a, Activated(true)) && w in Of(s', i).memory;
      }
    } else if x.ActivateNext? && x.i == i && x.w == w && w !in Of(s, i).memory {
      assert Brings(s'.adds[x.a], i, w);
    }
  }

  /** Every step spares the workflow. */
  ghost predicate SparesAll(s: State, actions: seq<Action>, i: InstanceId, w: WorkflowId)
    requires Feasible(s, actions)
    decreases |actions|
  {
    actions == [] || (Spares(s, actions[0], i, w) && SparesAll(Next(s, actions[0]), actions[1..], i, w))
  }

  lemma {:induction false} StaysUnderway(s: State, actions: seq<Action>, i: InstanceId, w: WorkflowId)
    requires Leads(s, i) && Underway(s, i, w) && Feasible(s, actions) && SparesAll(s, actions, i, w)
    ensures Leads(After(s, actions), i) && Underway(After(s, actions), i, w)
    decreases |actions|
  {
    if actions != [] {
      StepKeepsUnderway(s, actions[0], i, w);
      StaysUnderway(Next(s, actions[0]), actions[1..], i, w);
    }
  }

  /** The instance's activation is over, and no add is about to bring the workflow. */
  ghost predicate Quiet(s: State, i: InstanceId, w: WorkflowId) {
    !Of(s, i).activating && forall a :: a in s.adds ==> !Brings(s.adds[a], i, w)
  }

  /** However things go on from here, the workflow's triggers being spared, the instance has
      them once its activation is over. */
  ghost predicate EndsUpWith(s: State, i: InstanceId, w: WorkflowId) {
    forall actions :: Feasible(s, actions) && SparesAll(s, actions, i, w) && Quiet(After(s, actions), i, w) ==>
                        w in Of(After(s, actions), i).memory
  }

  lemma FreshAdd(adds: map<AddId, Pending>) returns (a: AddId)
    ensures a !in adds
  {
    a := Above(adds.Keys);
  }

  ghost function Above(ids: set<AddId>): (a: AddId)
    ensures forall id :: id in ids ==> id < a
  {
    if ids == {} then 0
    else
      var id :| id in ids;
      var rest := Above(ids - {id});
      assert forall other :: other in ids ==> other == id || other in ids - {id};
      if id < rest then rest else id + 1
  }

  lemma FirstStep(s: State, x: Action, rest: seq<Action>, i: InstanceId, w: WorkflowId)
    requires Can(s, x) && Spares(s, x, i, w) && Feasible(Next(s, x), rest) && SparesAll(Next(s, x), rest, i, w)
    ensures Feasible(s, [x] + rest) && SparesAll(s, [x] + rest, i, w)
    ensures After(s, [x] + rest) == After(Next(s, x), rest)
  {
    assert ([x] + rest)[1..] == rest;
  }

  lemma NoStep(s: State, i: InstanceId, w: WorkflowId)
    ensures Feasible(s, []) && SparesAll(s, [], i, w) && After(s, []) == s
  {
  }

  /** One more step towards the end of the activation: begin an add, end one, or finish. */
  lemma ActivationGoesOn(s: State, i: InstanceId, w: WorkflowId) returns (x: Action)
    requires Of(s, i).activating && !Underway(s, i, w)
    ensures Can(s, x) && Spares(s, x, i, w) && !Underway(Next(s, x), i, w)
    ensures var s', before, after := Next(s, x), Of(s, i), Of(Next(s, x), i);
            || after.toBegin < before.toBegin
            || (after.toBegin == before.toBegin && s'.adds.Keys < s.adds.Keys)
            || !after.activating
  {
    if v :| v in Of(s, i).toBegin {
      var a := FreshAdd(s.adds);
      x := ActivateNext(i, a, v);
    } else if a :| a in s.adds && s.adds[a].instance == i && s.adds[a].onActivation {
      x := EndAdd(a, Activated(true));
    } else {
      x := FinishActivation(i);
    }
  }

  lemma {:induction false} ActivationCanEnd(s: State, i: InstanceId, w: WorkflowId) returns (actions: seq<Action>)
    requires Of(s, i).activating && !Underway(s, i, w)
    ensures Feasible(s, actions) && SparesAll(s, actions, i, w)
    ensures Quiet(After(s, actions), i, w) && w !in Of(After(s, actions), i).memory
    decreases Of(s, i).toBegin, s.adds.Keys
  {
    var x := ActivationGoesOn(s, i, w);
    if Of(Next(s, x), i).activating {
      var rest := ActivationCanEnd(Next(s, x), i, w);
      FirstStep(s, x, rest, i, w);
      actions := [x] + rest;
    } else {
      NoStep(Next(s, x), i, w);
      FirstStep(s, x, [], i, w);
      actions := [x] + [];
    }
  }

  /** A new leader ends up with a workflow's triggers exactly in these cases: it has them
      already, or is in the middle of adding them as a leader; or, activating nothing yet, it
      finds the workflow among the active ones; or its activation still under way has yet to
      come to the workflow. A takeover amid an activation begins none of its own. */
  lemma TakeoverActivatesExactlyWhen(s: State, i: InstanceId, active: set<WorkflowId>, w: WorkflowId)
    requires Can(s, Elect(i, active))
    ensures EndsUpWith(Next(s, Elect(i, active)), i, w) <==>
            || w in Of(s, i).memory
            || (exists a :: a in s.adds && Brings(s.adds[a], i, w))
            || w in if Of(s, i).activating then Of(s, i).toBegin else active
  {
    var elected := Next(s, Elect(i, active));
    assert elected.adds == s.adds;
    if Underway(elected, i, w) {
      forall actions | Feasible(elected, actions) && SparesAll(elected, actions, i, w)
          && Quiet(After(elected, actions), i, w)
        ensures w in Of(After(elected, actions), i).memory
      {
        StaysUnderway(elected, actions, i, w);
      }
    } else {
      var actions := ActivationCanEnd(elected, i, w);
    }
  }

  /** In a system in which instances stepped down idle, nobody has triggers or adds any when
      a leader is elected, and only the last case is left. */
  lemma TakeoverFromSafety(s: State, i: InstanceId, active: set<WorkflowId>, w: WorkflowId)
    requires Safe(s) && Can(s, Elect(i, active))
    ensures EndsUpWith(Next(s, Elect(i, active)), i, w) <==>
            w in if Of(s, i).activating then Of(s, i).toBegin else active
  {
    TakeoverActivatesExactlyWhen(s, i, active, w);
  }

  /** An instance elected while its initial activation, as a follower, is under way, with
      nothing at all going wrong for the workflow: it ends up leading, with nothing under
      way, and without the triggers of a workflow it was told is active. */
  lemma BusyTakeoverLosesTriggers(w: WorkflowId)
    ensures exists actions :: Feasible(Initial(true), actions) && SparesAll(Initial(true), actions, 0, w) &&
              |actions| > 2 && actions[0] == InitFollower(0, {w}) && Elect(0, {w}) in actions[1..] &&
              var end := After(Initial(true), actions);
              Leads(end, 0) && !Of(end, 0).activating && end.adds == map[] && Of(end, 0).memory == {}
  {
    var s0 := Initial(true);
    var s1 := Next(s0, InitFollower(0, {w}));
    var s2 := Next(s1, ActivateNext(0, 0, w));
    var s3 := Next(s2, Elect(0, {w}));
    var s4 := Next(s3, EndAdd(0, Activated(true)));
    var s5 := Next(s4, FinishActivation(0));
    assert s4.adds == map[];
    NoStep(s5, 0, w);
    FirstStep(s4, FinishActivation(0), [], 0, w);
    FirstStep(s3, EndAdd(0, Activated(true)), [FinishActivation(0)] + [], 0, w);
    FirstStep(s2, Elect(0, {w}), [EndAdd(0, Activated(true))] + ([FinishActivation(0)] + []), 0, w);
    var rest := [Elect(0, {w})] + ([EndAdd(0, Activated(true))] + ([FinishActivation(0)] + []));
    FirstStep(s1, ActivateNext(0, 0, w), rest, 0, w);
    FirstStep(s0, InitFollower(0, {w}), [ActivateNext(0, 0, w)] + rest, 0, w);
    var actions := [InitFollower(0, {w})] + ([ActivateNext(0, 0, w)] + rest);
    assert actions[1..][1] == Elect(0, {w});
    assert Feasible(s0, actions) && After(s0, actions) == s5;
  }
}
