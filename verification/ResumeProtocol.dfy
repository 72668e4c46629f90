/** Resuming waiting executions, over any number of processes.

    Timers, polls and finishing child executions all start a waiting execution again
    in the same way: read its row, reserve capacity, then switch the row from waiting to
    running, with the data as read, which succeeds for one of them. Webhooks and chat
    messages do so too, but put data of their own on top of the stack they have read. The
    steps of all of them interleave freely here; a step is what happens between two
    awaits. */
module ResumeProtocol {
  import opened Wrappers
  import opened ExecutionRegistry

  type ProcessId = nat

  type Output = seq<string>

  // ---------- Results of a run ----------

  datatype TaskData = TaskData(data: Option<Output>)

  datatype RunResult = RunResult(
    lastNodeExecuted: Option<string>,
    runData: map<string, seq<TaskData>>,
    pinData: map<string, Output>,
    manual: bool,
    success: bool)

  /** The output of the node executed last; what is pinned to it wins in manual mode. */
  function LastOutput(result: RunResult): Option<Output> {
    if result.lastNodeExecuted.None? || result.lastNodeExecuted.value !in result.runData then None
    else
      var node := result.lastNodeExecuted.value;
      if result.runData[node] == [] then None
      else if node in result.pinData && result.manual then Some(result.pinData[node])
      else result.runData[node][|result.runData[node]| - 1].data
  }

  datatype Related = Related(executionId: ExecutionId, shouldResume: Option<bool>)

  /** Executions started before the flag existed restart their parent. */
  predicate ShouldRestartParent(parent: Option<Related>) {
    parent.Some? && (parent.value.shouldResume.None? || parent.value.shouldResume.value)
  }

  // ---------- State ----------

  datatype StackItem = StackItem(node: string, input: Output)

  type Stack = seq<StackItem>

  /** A row of the execution table. `period` counts how often it has begun to wait; `base`
      is the stack it began to wait with. Since then, `written` is the output a child last
      wrote that had read the row in the same period, and `crossed` tells whether one
      wrote a stack that it had read in an earlier period. */
  datatype Row = Row(
    status: Status, finished: bool, stack: Stack, parent: Option<Related>,
    period: nat, base: Stack, written: Option<Output>, crossed: bool)

  /** Who resumes: a timer, or a webhook or chat message with data of its own; or a child,
      which had found the row in a status, if at all, and written to it in the period it
      read it in, or written nothing. */
  datatype Origin =
    | Elsewhere(own: Option<Output>)
    | FromChild(child: RunId, met: Option<Status>, wrote: Option<nat>)

  /** What was read of a row. */
  datatype Read = Read(stack: Stack, period: nat, written: Option<Output>)

  /** How far a run is; what it has read stays with it. */
  datatype Pc =
    | Created                                                    // row inserted
    | CreatedReserved                                            // and capacity reserved
    | Starting(origin: Origin)                                   // startExecution called
    | Fetched(origin: Origin, read: Read)                        // row read
    | ToResume(origin: Origin, read: Read)                       // capacity reserved
    | Claimed                                                    // the row is running for this run
    | Active                                                     // registered
    | Suspending                                                 // status waiting in the process
    | OverRow                                                    // outcome saved in the row
    | Settling                                                   // finalizeExecution called
    | Delivering(parent: ExecutionId, stack: Stack, period: nat) // parent's row read, output put in
    | Delivered(parent: ExecutionId, met: Option<Status>, wrote: Option<nat>) // output written, if it was
    | Ended

  datatype Fate = Open | Waited | Finished(result: RunResult)

  datatype Task = Task(process: ProcessId, execution: ExecutionId, pc: Pc, fate: Fate)

  /** A successful resume: what was read when, the stack loaded, and the row it met. */
  datatype Win = Win(execution: ExecutionId, run: RunId, origin: Origin, read: Read, loaded: Stack, row: Row)

  datatype State = State(
    rows: map<ExecutionId, Row>,
    tasks: map<RunId, Task>,
    registries: map<ProcessId, Registry>,
    limit: Option<nat>,
    outputs: map<ExecutionId, set<Output>>,  // final outputs of completed children, by parent
    wins: seq<Win>)

  function Initial(limit: Option<nat>): State {
    State(map[], map[], map[], limit, map[], [])
  }

  function RegistryOf(s: State, p: ProcessId): Registry {
    if p in s.registries then s.registries[p] else Empty(s.limit)
  }

  function OutputsOf(s: State, id: ExecutionId): set<Output> {
    if id in s.outputs then s.outputs[id] else {}
  }

  function At(s: State, run: RunId, pc: Pc): State
    requires run in s.tasks
  {
    s.(tasks := s.tasks[run := s.tasks[run].(pc := pc)])
  }

  function WithRegistry(s: State, p: ProcessId, reg: Registry): State {
    s.(registries := s.registries[p := reg])
  }

  function WithRow(s: State, id: ExecutionId, row: Row): State {
    s.(rows := s.rows[id := row])
  }

  // ---------- Steps: starting an execution, new or waiting ----------

  datatype AddAction =
    | Create(run: RunId, process: ProcessId, id: ExecutionId, stack: Stack, parent: Option<Related>)
    | Begin(run: RunId, process: ProcessId, id: ExecutionId, own: Option<Output>)
    | Fetch(run: RunId)
    | TakeCapacity(run: RunId)
    | AddFails(run: RunId)
    | StartNew(run: RunId, regularMode: bool)
    | CompareAndSet(run: RunId)
    | RegisterRun(run: RunId, now: int)

  predicate IsAt(s: State, run: RunId, pc: Pc) {
    run in s.tasks && s.tasks[run].pc == pc
  }

  predicate CanAdd(s: State, a: AddAction) {
    match a
    case Create(run, _, id, _, _) => run !in s.tasks && id !in s.rows
    case Begin(run, _, _, _) => run !in s.tasks
    case Fetch(run) => run in s.tasks && s.tasks[run].pc.Starting?
    case TakeCapacity(run) =>
      run in s.tasks && (s.tasks[run].pc == Created || s.tasks[run].pc.Fetched?)
      && HasCapacity(RegistryOf(s, s.tasks[run].process))
    case AddFails(run) =>
      run in s.tasks && (s.tasks[run].pc == Created || s.tasks[run].pc == CreatedReserved
          || s.tasks[run].pc.Fetched? || s.tasks[run].pc.ToResume?)
    case StartNew(run, _) => IsAt(s, run, CreatedReserved) && s.tasks[run].execution in s.rows
    case CompareAndSet(run) => run in s.tasks && s.tasks[run].pc.ToResume?
    case RegisterRun(run, _) => IsAt(s, run, Claimed)
  }

  function NextAdd(s: State, a: AddAction): State
    requires CanAdd(s, a)
  {
    match a
    case Create(run, p, id, stack, parent) =>
      s.(rows := s.rows[id := Row(New, false, stack, parent, 0, stack, None, false)],
         tasks := s.tasks[run := Task(p, id, Created, Open)])
    case Begin(run, p, id, own) => s.(tasks := s.tasks[run := Task(p, id, Starting(Elsewhere(own)), Open)])
    case Fetch(run) => FetchStep(s, run)
    case TakeCapacity(run) => TakeCapacityStep(s, run)
    case AddFails(run) => AddFailsStep(s, run)
    case StartNew(run, regularMode) =>
      // in queue mode the worker that takes the job marks the row
      var id := s.tasks[run].execution;
      var marked := if regularMode then WithRow(s, id, s.rows[id].(status := Running)) else s;
      At(marked, run, Claimed)
    case CompareAndSet(run) => CompareAndSetStep(s, run)
    case RegisterRun(run, now) =>
      var p := s.tasks[run].process;
      At(WithRegistry(s, p, Register(RegistryOf(s, p), run, s.tasks[run].execution, now)), run, Active)
  }

  function ReadOf(row: Row): Read {
    Read(row.stack, row.period, row.written)
  }

  /** The stack, with an output as the input of its top node. */
  function OnTop(stack: Stack, output: Option<Output>): Stack {
    if output.None? || stack == [] then stack else stack[0 := stack[0].(input := output.value)]
  }

  /** The data a resume brings along. */
  function OwnData(origin: Origin): Option<Output> {
    if origin.Elsewhere? then origin.own else None
  }

  /** Unknown and finished executions are not started again; nor is one without a node to
      put data on. */
  function FetchStep(s: State, run: RunId): State
    requires CanAdd(s, Fetch(run))
  {
    var id := s.tasks[run].execution;
    if id !in s.rows || s.rows[id].finished then At(s, run, Ended)
    else if OwnData(s.tasks[run].pc.origin).Some? && s.rows[id].stack == [] then At(s, run, Ended)
    else At(s, run, Fetched(s.tasks[run].pc.origin, ReadOf(s.rows[id])))
  }

  function TakeCapacityStep(s: State, run: RunId): State
    requires CanAdd(s, TakeCapacity(run))
  {
    var t := s.tasks[run];
    var reserved := WithRegistry(s, t.process, Reserve(RegistryOf(s, t.process), run));
    if t.pc == Created then At(reserved, run, CreatedReserved)
    else At(reserved, run, ToResume(t.pc.origin, t.pc.read))
  }

  function AddFailsStep(s: State, run: RunId): State
    requires run in s.tasks
  {
    var p := s.tasks[run].process;
    At(WithRegistry(s, p, Release(RegistryOf(s, p), run)), run, Ended)
  }

  /** One statement of the database: running, with the data read before and what the resume
      brings along, if still waiting. */
  function CompareAndSetStep(s: State, run: RunId): State
    requires CanAdd(s, CompareAndSet(run))
  {
    var t := s.tasks[run];
    if t.execution in s.rows && s.rows[t.execution].status == Waiting then
      var row := s.rows[t.execution];
      var loaded := OnTop(t.pc.read.stack, OwnData(t.pc.origin));
      var won := s.(wins := s.wins + [Win(t.execution, run, t.pc.origin, t.pc.read, loaded, row)]);
      At(WithRow(won, t.execution, row.(status := Running, stack := loaded)), run, Claimed)
    else AddFailsStep(s, run)
  }

  // ---------- Steps: a registered run ----------

  datatype RunAction =
    | MarkRunning(run: RunId)
    | Suspend(run: RunId)
    | SaveWaiting(run: RunId, stack: Stack)
    | SaveFinished(run: RunId, result: RunResult)
    | FinalizeRun(run: RunId)
    | RunHandler(run: RunId)

  predicate CanRun(s: State, a: RunAction) {
    match a
    case MarkRunning(run) => IsAt(s, run, Active) && s.tasks[run].execution in s.rows
    case Suspend(run) => IsAt(s, run, Active) && s.tasks[run].execution in RegistryOf(s, s.tasks[run].process).active
    case SaveWaiting(run, _) => IsAt(s, run, Suspending) && s.tasks[run].execution in s.rows
    case SaveFinished(run, _) => (IsAt(s, run, Active) || IsAt(s, run, Suspending)) && s.tasks[run].execution in s.rows
    case FinalizeRun(run) => IsAt(s, run, OverRow)
    case RunHandler(run) =>
      && run in s.tasks
      && var reg := RegistryOf(s, s.tasks[run].process);
         run in reg.entries && reg.entries[run].settled.Some? && !reg.entries[run].handled
  }

  function NextRun(s: State, a: RunAction): State
    requires CanRun(s, a)
  {
    match a
    case MarkRunning(run) =>
      var id := s.tasks[run].execution;
      WithRow(s, id, s.rows[id].(status := Running))
    case Suspend(run) =>
      var p := s.tasks[run].process;
      At(WithRegistry(s, p, SetStatus(RegistryOf(s, p), s.tasks[run].execution, Waiting)), run, Suspending)
    case SaveWaiting(run, stack) => SaveWaitingStep(s, run, stack)
    case SaveFinished(run, result) => SaveFinishedStep(s, run, result)
    case FinalizeRun(run) =>
      var p := s.tasks[run].process;
      At(WithRegistry(s, p, Finalize(RegistryOf(s, p), s.tasks[run].execution, run)), run, Settling)
    case RunHandler(run) =>
      var p := s.tasks[run].process;
      WithRegistry(s, p, Handle(RegistryOf(s, p), run))
  }

  /** Waiting, with `stack`, in a period of its own. */
  function Suspended(row: Row, stack: Stack): Row {
    row.(status := Waiting, stack := stack, period := row.period + 1, base := stack, written := None, crossed := false)
  }

  function SaveWaitingStep(s: State, run: RunId, stack: Stack): State
    requires CanRun(s, SaveWaiting(run, stack))
  {
    var t := s.tasks[run];
    var row := s.rows[t.execution];
    var saved := WithRow(s, t.execution, Suspended(row, stack));
    saved.(tasks := saved.tasks[run := t.(pc := OverRow, fate := Waited)])
  }

  function SaveFinishedStep(s: State, run: RunId, result: RunResult): State
    requires CanRun(s, SaveFinished(run, result))
  {
    var t := s.tasks[run];
    var row := s.rows[t.execution];
    var status := if result.success then Success else Error;
    var saved := WithRow(s, t.execution, row.(status := status, finished := result.success));
    var counted :=
      if row.parent.Some? && LastOutput(result).Some? then
        var parent := row.parent.value.executionId;
        saved.(outputs := s.outputs[parent := OutputsOf(s, parent) + {LastOutput(result).value}])
      else saved;
    counted.(tasks := counted.tasks[run := t.(pc := OverRow, fate := Finished(result))])
  }

  // ---------- Steps: a finished child and its parent ----------

  datatype HandoffAction =
    | ReadParent(run: RunId)
    | WriteParent(run: RunId)
    | ResumeParent(run: RunId, newRun: RunId)

  /** How the promise of the run's entry was settled, if it was. */
  function SettlementOf(s: State, run: RunId): Option<Settlement>
    requires run in s.tasks
  {
    var reg := RegistryOf(s, s.tasks[run].process);
    if run in reg.entries then reg.entries[run].settled else None
  }

  /** The promise came to a result, and not to that of a run that went to wait. */
  predicate HasResult(s: State, run: RunId)
    requires run in s.tasks
  {
    && SettlementOf(s, run).Some? && SettlementOf(s, run).value.ResultOf?
    && var settler := SettlementOf(s, run).value.run;
       settler in s.tasks && s.tasks[settler].fate.Finished?
  }

  function PromisedResult(s: State, run: RunId): RunResult
    requires run in s.tasks && HasResult(s, run)
  {
    s.tasks[SettlementOf(s, run).value.run].fate.result
  }

  /** The handoff hangs on the promise of the run's entry, whoever settled it. */
  predicate CanHandOff(s: State, a: HandoffAction) {
    match a
    case ReadParent(run) =>
      IsAt(s, run, Settling) && HasResult(s, run) && s.tasks[run].execution in s.rows
      && ShouldRestartParent(s.rows[s.tasks[run].execution].parent)
    case WriteParent(run) => run in s.tasks && s.tasks[run].pc.Delivering?
    case ResumeParent(run, newRun) => run in s.tasks && s.tasks[run].pc.Delivered? && newRun !in s.tasks
  }

  function NextHandOff(s: State, a: HandoffAction): State
    requires CanHandOff(s, a)
  {
    match a
    case ReadParent(run) => ReadParentStep(s, run)
    case WriteParent(run) => WriteParentStep(s, run)
    case ResumeParent(run, newRun) =>
      var pc := s.tasks[run].pc;
      var ended := At(s, run, Ended);
      ended.(tasks := ended.tasks[newRun :=
        Task(s.tasks[run].process, pc.parent, Starting(FromChild(run, pc.met, pc.wrote)), Open)])
  }

  /** The child's output, put on top of the parent's stack as read from its row. */
  function ReadParentStep(s: State, run: RunId): State
    requires CanHandOff(s, ReadParent(run))
  {
    var t := s.tasks[run];
    var parent := s.rows[t.execution].parent.value.executionId;
    var output := LastOutput(PromisedResult(s, run));
    var met := if parent in s.rows then Some(s.rows[parent].status) else None;
    if output.None? then At(s, run, Delivered(parent, None, None))
    else if met != Some(Waiting) || s.rows[parent].stack == [] then At(s, run, Delivered(parent, met, None))
    else
      At(s, run, Delivering(parent, OnTop(s.rows[parent].stack, output), s.rows[parent].period))
  }

  /** Writes the stack back, whatever has become of the row since. */
  function WriteParentStep(s: State, run: RunId): State
    requires CanHandOff(s, WriteParent(run))
  {
    var pc := s.tasks[run].pc;
    if pc.parent !in s.rows then At(s, run, Delivered(pc.parent, Some(Waiting), None))
    else
      At(WithRow(s, pc.parent, Written(s.rows[pc.parent], pc.stack, pc.period)),
          run, Delivered(pc.parent, Some(Waiting), Some(pc.period)))
  }

  /** The row with a stack put together in the given period. */
  function Written(row: Row, stack: Stack, period: nat): Row {
    if row.period == period then row.(stack := stack, written := if stack == [] then None else Some(stack[0].input))
    else row.(stack := stack, crossed := row.crossed || row.status == Waiting)
  }

  // ---------- Steps: from outside ----------

  datatype OutsideAction =
    | StopHere(process: ProcessId, id: ExecutionId)
    | CloseRow(id: ExecutionId, status: Status)
    | AttachPromise(process: ProcessId, id: ExecutionId, promise: PromiseId)
    | ShutDownProcess(process: ProcessId, regularMode: bool, cancelAll: bool, ids: seq<ExecutionId>)

  predicate CanOutside(s: State, a: OutsideAction) {
    match a
    case CloseRow(id, status) => id in s.rows && (status == Canceled || status == Crashed)
    case ShutDownProcess(p, _, _, ids) => (set id | id in ids) == RegistryOf(s, p).active.Keys
    case _ => true
  }

  function NextOutside(s: State, a: OutsideAction): State
    requires CanOutside(s, a)
  {
    match a
    case StopHere(p, id) => WithRegistry(s, p, Stop(RegistryOf(s, p), id))
    case CloseRow(id, status) => WithRow(s, id, s.rows[id].(status := status))
    case AttachPromise(p, id, promise) => WithRegistry(s, p, AttachResponse(RegistryOf(s, p), id, promise))
    case ShutDownProcess(p, regularMode, cancelAll, ids) =>
      var reg := RegistryOf(s, p);
      WithRegistry(s, p, Sweep(if regularMode then Disable(reg) else reg, ids, regularMode && cancelAll))
  }

  // ---------- Runs of the system ----------

  datatype Action =
    | Adding(add: AddAction)
    | InRun(step: RunAction)
    | HandingOff(handoff: HandoffAction)
    | Outside(outside: OutsideAction)

  predicate Can(s: State, a: Action) {
    match a
    case Adding(add) => CanAdd(s, add)
    case InRun(step) => CanRun(s, step)
    case HandingOff(handoff) => CanHandOff(s, handoff)
    case Outside(outside) => CanOutside(s, outside)
  }

  function Next(s: State, a: Action): State
    requires Can(s, a)
  {
    match a
    case Adding(add) => NextAdd(s, add)
    case InRun(step) => NextRun(s, step)
    case HandingOff(handoff) => NextHandOff(s, handoff)
    case Outside(outside) => NextOutside(s, outside)
  }

  ghost predicate Feasible(s: State, actions: seq<Action>)
    decreases |actions|
  {
    actions == [] || (Can(s, actions[0]) && Feasible(Next(s, actions[0]), actions[1..]))
  }

  ghost function After(s: State, actions: seq<Action>): State
    requires Feasible(s, actions)
    decreases |actions|
  {
    if actions == [] then s else After(Next(s, actions[0]), actions[1..])
  }
}
