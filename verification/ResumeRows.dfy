/** What the steps of the resume protocol do to the rows of executions: for each field of a
    row, exactly the steps that change it, and what to; and what a run has read when it
    comes to resume one. */
module ResumeRows {
  import opened Wrappers
  import opened ExecutionRegistry
  import opened ResumeProtocol

  /** The execution a step of a run is about. */
  predicate IsOf(s: State, run: RunId, id: ExecutionId) {
    run in s.tasks && s.tasks[run].execution == id
  }

  /** The step is a compare-and-set for the execution that finds it waiting. */
  predicate WinsRow(s: State, a: Action, id: ExecutionId) {
    && a.Adding? && a.add.CompareAndSet? && IsOf(s, a.add.run, id)
    && id in s.rows && s.rows[id].status == Waiting
  }

  /** The step makes it running: a new run started in the process itself, a resume that wins,
      or a run that notes it. */
  predicate MakesRunning(s: State, a: Action, id: ExecutionId) {
    || (a.Adding? && a.add.StartNew? && a.add.regularMode && IsOf(s, a.add.run, id))
    || WinsRow(s, a, id)
    || (a.InRun? && a.step.MarkRunning? && IsOf(s, a.step.run, id))
  }

  predicate SavesWaiting(s: State, a: Action, id: ExecutionId) {
    a.InRun? && a.step.SaveWaiting? && IsOf(s, a.step.run, id)
  }

  predicate SavesFinished(s: State, a: Action, id: ExecutionId) {
    a.InRun? && a.step.SaveFinished? && IsOf(s, a.step.run, id)
  }

  predicate WritesInto(s: State, a: Action, id: ExecutionId) {
    a.HandingOff? && a.handoff.WriteParent? && a.handoff.run in s.tasks
    && s.tasks[a.handoff.run].pc.Delivering? && s.tasks[a.handoff.run].pc.parent == id
  }

  ghost predicate StatusRight(s: State, a: Action, id: ExecutionId, status: Status)
    requires id in s.rows
  {
    status ==
      if MakesRunning(s, a, id) then Running
      else if SavesWaiting(s, a, id) then Waiting
      else if SavesFinished(s, a, id) then if a.step.result.success then Success else Error
      else if a.Outside? && a.outside.CloseRow? && a.outside.id == id then a.outside.status
      else s.rows[id].status
  }

  /** A resume that wins loads what it read, with its own data, if it has some, in place of
      what the top node was to get. */
  ghost predicate Loads(t: Task, stack: Stack)
    requires t.pc.ToResume?
  {
    if t.pc.origin.Elsewhere? && t.pc.origin.own.Some? && t.pc.read.stack != []
    then stack == [StackItem(t.pc.read.stack[0].node, t.pc.origin.own.value)] + t.pc.read.stack[1..]
    else stack == t.pc.read.stack
  }

  ghost predicate StackRight(s: State, a: Action, id: ExecutionId, stack: Stack)
    requires Can(s, a) && id in s.rows
  {
    if WinsRow(s, a, id) then Loads(s.tasks[a.add.run], stack)
    else if SavesWaiting(s, a, id) then stack == a.step.stack
    else if WritesInto(s, a, id) then stack == s.tasks[a.handoff.run].pc.stack
    else stack == s.rows[id].stack
  }

  ghost predicate ChangesRight(s: State, a: Action, id: ExecutionId, row: Row)
    requires Can(s, a) && id in s.rows
  {
    && StatusRight(s, a, id, row.status) && StackRight(s, a, id, row.stack)
    && row.finished == (if SavesFinished(s, a, id) then a.step.result.success else s.rows[id].finished)
    && row.parent == s.rows[id].parent
    && row.period == s.rows[id].period + (if SavesWaiting(s, a, id) then 1 else 0)
  }

  /** No row is lost, and each of its fields changes as follows: its status, its stack,
      whether it is finished, and how often it began to wait. Its parent never does. */
  lemma RowExactlyAfter(s: State, a: Action, id: ExecutionId)
    requires Can(s, a) && id in s.rows
    ensures id in Next(s, a).rows && ChangesRight(s, a, id, Next(s, a).rows[id])
  {
    match a
    case Adding(add) => AddChangesRow(s, add, id);
    case InRun(step) => RunChangesRow(s, step, id);
    case HandingOff(handoff) => HandOffChangesRow(s, handoff, id);
    case Outside(_) =>
  }

  lemma AddChangesRow(s: State, add: AddAction, id: ExecutionId)
    requires CanAdd(s, add) && id in s.rows
    ensures id in NextAdd(s, add).rows && ChangesRight(s, Adding(add), id, NextAdd(s, add).rows[id])
  {
    match add
    case CompareAndSet(run) => assert NextAdd(s, add) == CompareAndSetStep(s, run);
    case Fetch(run) => assert NextAdd(s, add) == FetchStep(s, run);
    case TakeCapacity(run) => assert NextAdd(s, add) == TakeCapacityStep(s, run);
    case AddFails(run) => assert NextAdd(s, add) == AddFailsStep(s, run);
    case _ =>
  }

  lemma RunChangesRow(s: State, step: RunAction, id: ExecutionId)
    requires CanRun(s, step) && id in s.rows
    ensures id in NextRun(s, step).rows && ChangesRight(s, InRun(step), id, NextRun(s, step).rows[id])
  {
    match step
    case SaveWaiting(run, stack) => assert NextRun(s, step) == SaveWaitingStep(s, run, stack);
    case SaveFinished(run, result) => assert NextRun(s, step) == SaveFinishedStep(s, run, result);
    case _ =>
  }

  lemma HandOffChangesRow(s: State, handoff: HandoffAction, id: ExecutionId)
    requires CanHandOff(s, handoff) && id in s.rows
    ensures id in NextHandOff(s, handoff).rows
    ensures ChangesRight(s, HandingOff(handoff), id, NextHandOff(s, handoff).rows[id])
  {
    match handoff
    case ReadParent(run) => assert NextHandOff(s, handoff) == ReadParentStep(s, run);
    case WriteParent(run) => assert NextHandOff(s, handoff) == WriteParentStep(s, run);
    case ResumeParent(_, _) =>
  }

  /** Going to wait begins a period of its own, with the stack saved; whatever was written in
      earlier ones is over. */
  lemma PeriodBeginsAfresh(s: State, run: RunId, stack: Stack)
    requires CanRun(s, SaveWaiting(run, stack))
    ensures var row := NextRun(s, SaveWaiting(run, stack)).rows[s.tasks[run].execution];
            row.base == stack && row.written == None && !row.crossed
  {
    assert NextRun(s, SaveWaiting(run, stack)) == SaveWaitingStep(s, run, stack);
  }

  /** From outside, any row there is can be closed as cancelled or crashed, and stops and
      response promises can reach any process at any time. */
  lemma OutsideExactlyWhen(s: State, p: ProcessId, id: ExecutionId, status: Status, promise: PromiseId)
    ensures CanOutside(s, CloseRow(id, status)) <==> id in s.rows && status in {Canceled, Crashed}
    ensures CanOutside(s, StopHere(p, id)) && CanOutside(s, AttachPromise(p, id, promise))
  {
  }

  /** A new execution's row is new, unfinished, and has the stack and the parent it was given;
      no other step makes one. */
  lemma RowsComeFromCreate(s: State, a: Action, id: ExecutionId)
    requires Can(s, a) && id in Next(s, a).rows
    ensures id in s.rows ||
            (a.Adding? && a.add.Create? && a.add.id == id
             && var row := Next(s, a).rows[id];
                row.status == New && !row.finished && row.stack == a.add.stack && row.parent == a.add.parent)
  {
    match a
    case Adding(add) => AddMakesRows(s, add);
    case InRun(step) => RunMakesNoRows(s, step);
    case HandingOff(handoff) => HandOffMakesNoRows(s, handoff);
    case Outside(_) =>
  }

  lemma AddMakesRows(s: State, add: AddAction)
    requires CanAdd(s, add)
    ensures NextAdd(s, add).rows.Keys == s.rows.Keys + (if add.Create? then {add.id} else {})
  {
  }

  lemma RunMakesNoRows(s: State, step: RunAction)
    requires CanRun(s, step)
    ensures NextRun(s, step).rows.Keys == s.rows.Keys
  {
  }

  lemma HandOffMakesNoRows(s: State, handoff: HandoffAction)
    requires CanHandOff(s, handoff)
    ensures NextHandOff(s, handoff).rows.Keys == s.rows.Keys
  {
  }

  /** Reading a row ends the attempt if there is none, if it is finished, or if there is data
      to put on top and nothing to put it on; otherwise the stack read is the row's. */
  lemma FetchesExactly(s: State, run: RunId)
    requires CanAdd(s, Fetch(run))
    ensures var t, s' := s.tasks[run], NextAdd(s, Fetch(run));
            && (IsAt(s', run, Ended) <==>
                  || t.execution !in s.rows || s.rows[t.execution].finished
                  || (t.pc.origin.Elsewhere? && t.pc.origin.own.Some? && s.rows[t.execution].stack == []))
            && (!IsAt(s', run, Ended) ==>
                  && run in s'.tasks && s'.tasks[run].pc.Fetched? && s'.tasks[run].pc.origin == t.pc.origin
                  && s'.tasks[run].pc.read.stack == s.rows[t.execution].stack
                  && s'.tasks[run].pc.read.period == s.rows[t.execution].period)
  {
    assert NextAdd(s, Fetch(run)) == FetchStep(s, run);
  }

  /** A resume goes on to register its run if it finds the row waiting, and otherwise gives
      its unit of capacity back and ends. */
  lemma ClaimsExactlyWhenWaiting(s: State, run: RunId)
    requires CanAdd(s, CompareAndSet(run))
    ensures var t, s' := s.tasks[run], NextAdd(s, CompareAndSet(run));
            && (IsAt(s', run, Claimed) <==> t.execution in s.rows && s.rows[t.execution].status == Waiting)
            && (!IsAt(s', run, Claimed) ==>
                  IsAt(s', run, Ended) && s'.rows == s.rows && run !in RegistryOf(s', t.process).held)
  {
    assert NextAdd(s, CompareAndSet(run)) == CompareAndSetStep(s, run);
  }
}
