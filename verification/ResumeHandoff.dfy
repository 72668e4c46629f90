/** What a parent execution resumes with when one of its children wakes it.

    A finished child reads its parent's row, puts its own output on top of the stack,
    writes the stack back without looking again, and resumes the parent. Children race
    each other, timers and webhooks. */
module ResumeHandoff {
  import opened Wrappers
  import opened ExecutionRegistry
  import opened ResumeProtocol
  import opened ResumeSafety
  import opened ResumeSettling
  import opened ResumeOutputs

  type Rows = map<ExecutionId, Row>
  type Outputs = map<ExecutionId, set<Output>>

  /** Some node waits for input, and gets the final output of a completed child of `id`. */
  predicate FromAChild(outputs: Outputs, id: ExecutionId, base: Stack, output: Output) {
    base != [] && id in outputs && output in outputs[id]
  }

  /** What reading the row gives, in a period that began with `base`. */
  predicate Expected(outputs: Outputs, id: ExecutionId, base: Stack, read: Read) {
    && read.stack == OnTop(base, read.written)
    && (read.written.Some? ==> FromAChild(outputs, id, base, read.written.value))
  }

  /** The row still waits, in the given period, and no stack of an earlier period was
      written over it. */
  predicate StillWaiting(rows: Rows, id: ExecutionId, period: nat) {
    id in rows && rows[id].status == Waiting && rows[id].period == period && !rows[id].crossed
  }

  // ---------- The invariant ----------

  ghost predicate RowsGood(rows: Rows, outputs: Outputs) {
    forall id :: id in rows && rows[id].status == Waiting && !rows[id].crossed ==>
                   Expected(outputs, id, rows[id].base, ReadOf(rows[id]))
  }

  /** A child has written its output there in the given period. */
  ghost predicate WrittenGood(rows: Rows, id: ExecutionId, period: nat) {
    && id in rows && period <= rows[id].period
    && (StillWaiting(rows, id, period) ==> rows[id].written.Some?)
  }

  /** A child that had written in the given period. */
  predicate WroteIn(origin: Origin, period: nat) {
    origin.FromChild? && origin.wrote == Some(period)
  }

  /** What a run has read of the row of `id` is what that waiting period asks for. */
  ghost predicate ReadGood(rows: Rows, outputs: Outputs, id: ExecutionId, origin: Origin, read: Read) {
    && id in rows && read.period <= rows[id].period
    && (OwnData(origin).Some? ==> read.stack != [])
    && (StillWaiting(rows, id, read.period) ==>
          && Expected(outputs, id, rows[id].base, read)
          && (WroteIn(origin, read.period) ==> read.written.Some?))
  }

  /** A child's stack, as it is about to be written. */
  ghost predicate DeliveryGood(rows: Rows, outputs: Outputs, id: ExecutionId, stack: Stack, period: nat) {
    && id in rows && period <= rows[id].period
    && (StillWaiting(rows, id, period) ==>
          stack != [] && Expected(outputs, id, rows[id].base, Read(stack, period, Some(stack[0].input))))
  }

  ghost predicate PcGood(rows: Rows, outputs: Outputs, id: ExecutionId, pc: Pc) {
    match pc
    case Starting(origin) => origin.FromChild? && origin.wrote.Some? ==> WrittenGood(rows, id, origin.wrote.value)
    case Fetched(origin, read) => ReadGood(rows, outputs, id, origin, read)
    case ToResume(origin, read) => ReadGood(rows, outputs, id, origin, read)
    case Delivering(parent, stack, period) => DeliveryGood(rows, outputs, parent, stack, period)
    case Delivered(parent, _, wrote) => wrote.Some? ==> WrittenGood(rows, parent, wrote.value)
    case _ => true
  }

  /** The output of a completed child counts among its parent's. */
  ghost predicate FateGood(rows: Rows, outputs: Outputs, t: Task) {
    t.fate.Finished? && t.execution in rows && rows[t.execution].parent.Some? && LastOutput(t.fate.result).Some? ==>
      var parent := rows[t.execution].parent.value.executionId;
      parent in outputs && LastOutput(t.fate.result).value in outputs[parent]
  }

  ghost predicate TaskGood(rows: Rows, outputs: Outputs, t: Task) {
    && PcGood(rows, outputs, t.execution, t.pc)
    && FateGood(rows, outputs, t)
    && (t.fate.Finished? ==> t.execution in rows)
  }

  /** A resume loads what it read, with its own data on top. If it read and won within one
      waiting period, what it read is that period's stack, with the output on top that a
      child wrote in the period before it read, if one did. */
  ghost predicate WinGood(outputs: Outputs, w: Win) {
    && w.loaded == OnTop(w.read.stack, OwnData(w.origin))
    && (OwnData(w.origin).Some? ==> w.read.stack != [])
    && (w.read.period == w.row.period && !w.row.crossed ==>
          && Expected(outputs, w.execution, w.row.base, w.read)
          && (WroteIn(w.origin, w.read.period) ==> w.read.written.Some?))
  }

  ghost predicate HandsOver(s: State) {
    && RowsGood(s.rows, s.outputs)
    && (forall run :: run in s.tasks ==> TaskGood(s.rows, s.outputs, s.tasks[run]))
    && (forall i :: 0 <= i < |s.wins| ==> WinGood(s.outputs, s.wins[i]))
  }

  // ---------- How rows and outputs may change ----------

  /** Within a waiting period the base stays, and the row stays or gets a child's output
      on top. */
  ghost predicate RowEvolves(outputs: Outputs, id: ExecutionId, row: Row, row': Row) {
    && row'.parent == row.parent && row.period <= row'.period
    && (row'.status == Waiting && !row'.crossed && row'.period == row.period ==>
          && row.status == Waiting && !row.crossed && row'.base == row.base
          && (ReadOf(row') == ReadOf(row) || (row'.written.Some? && Expected(outputs, id, row.base, ReadOf(row')))))
  }

  ghost predicate Grow(outputs: Outputs, outputs': Outputs) {
    forall id :: id in outputs ==> id in outputs' && outputs[id] <= outputs'[id]
  }

  /** Rows are neither lost nor, but for those of new executions and of new waiting
      periods, given a waiting stack of their own. */
  ghost predicate Evolve(rows: Rows, rows': Rows, outputs: Outputs, outputs': Outputs) {
    && Grow(outputs, outputs')
    && (forall id :: id in rows ==> id in rows' && RowEvolves(outputs', id, rows[id], rows'[id]))
    && (forall id :: id in rows' && rows'[id].status == Waiting ==>
                       (id in rows && rows'[id].period == rows[id].period) ||
                       (rows'[id].stack == rows'[id].base && rows'[id].written.None?))
  }

  lemma EvolvingKeepsRows(rows: Rows, rows': Rows, outputs: Outputs, outputs': Outputs)
    requires RowsGood(rows, outputs) && Evolve(rows, rows', outputs, outputs')
    ensures RowsGood(rows', outputs')
  {
    forall id | id in rows' && rows'[id].status == Waiting && !rows'[id].crossed
      ensures Expected(outputs', id, rows'[id].base, ReadOf(rows'[id]))
    {
      if id in rows && rows'[id].period == rows[id].period {
        assert RowEvolves(outputs', id, rows[id], rows'[id]);
      }
    }
  }

  lemma EvolvingKeepsRead(rows: Rows, rows': Rows, outputs: Outputs, outputs': Outputs,
                          id: ExecutionId, origin: Origin, read: Read)
    requires Evolve(rows, rows', outputs, outputs') && ReadGood(rows, outputs, id, origin, read)
    ensures ReadGood(rows', outputs', id, origin, read)
  {
    assert RowEvolves(outputs', id, rows[id], rows'[id]);
  }

  lemma EvolvingKeepsDelivery(rows: Rows, rows': Rows, outputs: Outputs, outputs': Outputs,
                              id: ExecutionId, stack: Stack, period: nat)
    requires Evolve(rows, rows', outputs, outputs') && DeliveryGood(rows, outputs, id, stack, period)
    ensures DeliveryGood(rows', outputs', id, stack, period)
  {
    assert RowEvolves(outputs', id, rows[id], rows'[id]);
  }

  lemma EvolvingKeepsWritten(rows: Rows, rows': Rows, outputs: Outputs, outputs': Outputs, id: ExecutionId, period: nat)
    requires Evolve(rows, rows', outputs, outputs') && WrittenGood(rows, id, period)
    ensures WrittenGood(rows', id, period)
  {
    assert RowEvolves(outputs', id, rows[id], rows'[id]);
  }

  lemma EvolvingKeepsTask(rows: Rows, rows': Rows, outputs: Outputs, outputs': Outputs, t: Task)
    requires Evolve(rows, rows', outputs, outputs') && TaskGood(rows, outputs, t)
    ensures TaskGood(rows', outputs', t)
  {
    match t.pc {
      case Starting(origin) =>
        if origin.FromChild? && origin.wrote.Some? {
          EvolvingKeepsWritten(rows, rows', outputs, outputs', t.execution, origin.wrote.value);
        }
      case Fetched(origin, read) => EvolvingKeepsRead(rows, rows', outputs, outputs', t.execution, origin, read);
      case ToResume(origin, read) => EvolvingKeepsRead(rows, rows', outputs, outputs', t.execution, origin, read);
      case Delivering(parent, stack, period) =>
        EvolvingKeepsDelivery(rows, rows', outputs, outputs', parent, stack, period);
      case Delivered(parent, _, wrote) =>
        if wrote.Some? {
          EvolvingKeepsWritten(rows, rows', outputs, outputs', parent, wrote.value);
        }
      case _ =>
    }
    if t.execution in rows {
      assert RowEvolves(outputs', t.execution, rows[t.execution], rows'[t.execution]);
    }
  }

  /** A step is good if rows evolve and what it changes, one or two runs, is good again. */
  lemma EvolvingHandsOver(s: State, s': State, touched: set<RunId>)
    requires HandsOver(s) && Evolve(s.rows, s'.rows, s.outputs, s'.outputs)
    requires forall run :: run in s'.tasks && run !in touched ==> run in s.tasks && s'.tasks[run] == s.tasks[run]
    requires forall run :: run in touched && run in s'.tasks ==> TaskGood(s'.rows, s'.outputs, s'.tasks[run])
    requires s'.wins == s.wins
    ensures HandsOver(s')
  {
    EvolvingKeepsRows(s.rows, s'.rows, s.outputs, s'.outputs);
    forall run | run in s'.tasks
      ensures TaskGood(s'.rows, s'.outputs, s'.tasks[run])
    {
      if run !in touched {
        EvolvingKeepsTask(s.rows, s'.rows, s.outputs, s'.outputs, s.tasks[run]);
      }
    }
    forall i | 0 <= i < |s.wins|
      ensures WinGood(s'.outputs, s.wins[i])
    {
      assert WinGood(s.outputs, s.wins[i]);
    }
  }

  lemma SameRowsEvolve(rows: Rows, outputs: Outputs)
    ensures Evolve(rows, rows, outputs, outputs)
  {
  }

  /** One row changes, so that it does not wait, or waits in a period of its own. */
  lemma OneRowEvolves(rows: Rows, outputs: Outputs, id: ExecutionId, row: Row)
    requires id in rows && row.parent == rows[id].parent && row.period >= rows[id].period
    requires row.status == Waiting ==> row.period > rows[id].period && row.stack == row.base && row.written.None?
    ensures Evolve(rows, rows[id := row], outputs, outputs)
  {
  }

  // ---------- Adding ----------

  lemma FetchHandsOver(s: State, run: RunId)
    requires HandsOver(s) && CanAdd(s, Fetch(run))
    ensures HandsOver(FetchStep(s, run))
  {
    SameRowsEvolve(s.rows, s.outputs);
    var t := s.tasks[run];
    assert TaskGood(s.rows, s.outputs, t);
    EvolvingHandsOver(s, FetchStep(s, run), {run});
  }

  lemma TakeCapacityHandsOver(s: State, run: RunId)
    requires HandsOver(s) && CanAdd(s, TakeCapacity(run))
    ensures HandsOver(TakeCapacityStep(s, run))
  {
    SameRowsEvolve(s.rows, s.outputs);
    assert TaskGood(s.rows, s.outputs, s.tasks[run]);
    EvolvingHandsOver(s, TakeCapacityStep(s, run), {run});
  }

  lemma AddFailsHandsOver(s: State, run: RunId)
    requires HandsOver(s) && run in s.tasks
    ensures HandsOver(AddFailsStep(s, run))
  {
    SameRowsEvolve(s.rows, s.outputs);
    assert TaskGood(s.rows, s.outputs, s.tasks[run]);
    EvolvingHandsOver(s, AddFailsStep(s, run), {run});
  }

  lemma StartNewHandsOver(s: State, run: RunId, regularMode: bool)
    requires HandsOver(s) && CanAdd(s, StartNew(run, regularMode))
    ensures HandsOver(NextAdd(s, StartNew(run, regularMode)))
  {
    var id := s.tasks[run].execution;
    OneRowEvolves(s.rows, s.outputs, id, s.rows[id].(status := Running));
    SameRowsEvolve(s.rows, s.outputs);
    assert TaskGood(s.rows, s.outputs, s.tasks[run]);
    EvolvingKeepsTask(s.rows, NextAdd(s, StartNew(run, regularMode)).rows, s.outputs, s.outputs, s.tasks[run]);
    EvolvingHandsOver(s, NextAdd(s, StartNew(run, regularMode)), {run});
  }

  /** The resume that wins: what it read must still fit the row it met. */
  lemma WinHandsOver(s: State, run: RunId)
    requires HandsOver(s) && CanAdd(s, CompareAndSet(run))
    requires s.tasks[run].execution in s.rows && s.rows[s.tasks[run].execution].status == Waiting
    ensures HandsOver(CompareAndSetStep(s, run))
  {
    var t := s.tasks[run];
    var s' := CompareAndSetStep(s, run);
    assert TaskGood(s.rows, s.outputs, t);
    assert WinGood(s.outputs, s'.wins[|s.wins|]);
    OneRowEvolves(s.rows, s.outputs, t.execution, s'.rows[t.execution]);
    EvolvingKeepsTask(s.rows, s'.rows, s.outputs, s.outputs, t);
    EvolvingHandsOver(s, s'.(wins := s.wins), {run});
  }

  lemma CreateHandsOver(s: State, a: AddAction)
    requires HandsOver(s) && CanAdd(s, a) && a.Create?
    ensures HandsOver(NextAdd(s, a))
  {
    EvolvingHandsOver(s, NextAdd(s, a), {a.run});
  }

  lemma RegisterHandsOver(s: State, run: RunId, now: int)
    requires HandsOver(s) && CanAdd(s, RegisterRun(run, now))
    ensures HandsOver(NextAdd(s, RegisterRun(run, now)))
  {
    SameRowsEvolve(s.rows, s.outputs);
    assert TaskGood(s.rows, s.outputs, s.tasks[run]);
    EvolvingHandsOver(s, NextAdd(s, RegisterRun(run, now)), {run});
  }

  lemma BeginHandsOver(s: State, a: AddAction)
    requires HandsOver(s) && CanAdd(s, a) && a.Begin?
    ensures HandsOver(NextAdd(s, a))
  {
    SameRowsEvolve(s.rows, s.outputs);
    EvolvingHandsOver(s, NextAdd(s, a), {a.run});
  }

  lemma AddHandsOver(s: State, a: AddAction)
    requires HandsOver(s) && CanAdd(s, a)
    ensures HandsOver(NextAdd(s, a))
  {
    match a
    case Create(_, _, _, _, _) => CreateHandsOver(s, a);
    case Begin(_, _, _, _) => BeginHandsOver(s, a);
    case Fetch(run) => FetchHandsOver(s, run);
    case TakeCapacity(run) => TakeCapacityHandsOver(s, run);
    case AddFails(run) => AddFailsHandsOver(s, run);
    case StartNew(run, regularMode) => StartNewHandsOver(s, run, regularMode);
    case CompareAndSet(run) =>
      if s.tasks[run].execution in s.rows && s.rows[s.tasks[run].execution].status == Waiting {
        WinHandsOver(s, run);
      } else {
        AddFailsHandsOver(s, run);
      }
    case RegisterRun(run, now) => RegisterHandsOver(s, run, now);
  }

  // ---------- Registered runs ----------

  lemma SaveWaitingHandsOver(s: State, run: RunId, stack: Stack)
    requires HandsOver(s) && CanRun(s, SaveWaiting(run, stack))
    ensures HandsOver(SaveWaitingStep(s, run, stack))
  {
    var id := s.tasks[run].execution;
    OneRowEvolves(s.rows, s.outputs, id, SaveWaitingStep(s, run, stack).rows[id]);
    EvolvingHandsOver(s, SaveWaitingStep(s, run, stack), {run});
  }

  lemma SaveFinishedHandsOver(s: State, run: RunId, result: RunResult)
    requires HandsOver(s) && CanRun(s, SaveFinished(run, result))
    ensures HandsOver(SaveFinishedStep(s, run, result))
  {
    var s' := SaveFinishedStep(s, run, result);
    FinishingEvolves(s, run, result);
    assert TaskGood(s'.rows, s'.outputs, s'.tasks[run]);
    EvolvingHandsOver(s, s', {run});
  }

  lemma FinishingEvolves(s: State, run: RunId, result: RunResult)
    requires CanRun(s, SaveFinished(run, result))
    ensures var s' := SaveFinishedStep(s, run, result);
            Evolve(s.rows, s'.rows, s.outputs, s'.outputs) && s'.wins == s.wins
  {
    var id := s.tasks[run].execution;
    var s' := SaveFinishedStep(s, run, result);
    OneRowEvolves(s.rows, s.outputs, id, s'.rows[id]);
    assert Grow(s.outputs, s'.outputs);
  }

  lemma MovingHandsOver(s: State, a: RunAction)
    requires HandsOver(s) && CanRun(s, a) && (a.Suspend? || a.FinalizeRun? || a.RunHandler?)
    ensures HandsOver(NextRun(s, a))
  {
    SameRowsEvolve(s.rows, s.outputs);
    assert TaskGood(s.rows, s.outputs, s.tasks[a.run]);
    EvolvingHandsOver(s, NextRun(s, a), {a.run});
  }

  lemma RunHandsOver(s: State, a: RunAction)
    requires HandsOver(s) && CanRun(s, a)
    ensures HandsOver(NextRun(s, a))
  {
    match a
    case SaveWaiting(run, stack) => SaveWaitingHandsOver(s, run, stack);
    case SaveFinished(run, result) => SaveFinishedHandsOver(s, run, result);
    case MarkRunning(run) =>
      var id := s.tasks[run].execution;
      OneRowEvolves(s.rows, s.outputs, id, s.rows[id].(status := Running));
      EvolvingHandsOver(s, NextRun(s, a), {});
    case _ => MovingHandsOver(s, a);
  }

  // ---------- The child and its parent ----------

  lemma ReadParentHandsOver(s: State, run: RunId)
    requires HandsOver(s) && SettledRight(s) && CanHandOff(s, ReadParent(run))
    ensures HandsOver(ReadParentStep(s, run))
  {
    SameRowsEvolve(s.rows, s.outputs);
    ReadParentGood(s, run);
    EvolvingHandsOver(s, ReadParentStep(s, run), {run});
  }

  /** What the child put together is its own output on top of the stack it read. */
  lemma ReadParentGood(s: State, run: RunId)
    requires HandsOver(s) && SettledRight(s) && CanHandOff(s, ReadParent(run))
    ensures var s' := ReadParentStep(s, run);
            && run in s'.tasks && TaskGood(s.rows, s.outputs, s'.tasks[run])
            && s'.rows == s.rows && s'.outputs == s.outputs && s'.wins == s.wins
  {
    var t := s.tasks[run];
    var parent := s.rows[t.execution].parent.value.executionId;
    FinishedResultIsOwn(s, run);
    assert TaskGood(s.rows, s.outputs, t);
    ReadingKeepsFinish(s, run);
    OutputFits(s, t, parent);
    assert ReadParentStep(s, run).tasks[run] == t.(pc := ReadParentStep(s, run).tasks[run].pc);
  }

  /** The stack read, with a completed child's output on top, is one the period asks for. */
  lemma OutputFits(s: State, t: Task, parent: ExecutionId)
    requires TaskGood(s.rows, s.outputs, t) && RowsGood(s.rows, s.outputs)
    requires t.fate.Finished? && t.execution in s.rows && s.rows[t.execution].parent.Some?
    requires s.rows[t.execution].parent.value.executionId == parent
    ensures parent in s.rows && s.rows[parent].status == Waiting && s.rows[parent].stack != []
            && LastOutput(t.fate.result).Some? ==>
              DeliveryGood(s.rows, s.outputs, parent, OnTop(s.rows[parent].stack, LastOutput(t.fate.result)),
                           s.rows[parent].period)
  {
  }

  /** The write is not atomic with the read: it lands in the row as it is by then. */
  lemma WriteParentHandsOver(s: State, run: RunId)
    requires HandsOver(s) && CanHandOff(s, WriteParent(run))
    ensures HandsOver(WriteParentStep(s, run))
  {
    var t := s.tasks[run];
    var s' := WriteParentStep(s, run);
    assert TaskGood(s.rows, s.outputs, t);
    if t.pc.parent in s.rows {
      assert RowEvolves(s.outputs, t.pc.parent, s.rows[t.pc.parent], s'.rows[t.pc.parent]);
      EvolvingKeepsTask(s.rows, s'.rows, s.outputs, s.outputs, t);
    } else {
      SameRowsEvolve(s.rows, s.outputs);
    }
    EvolvingHandsOver(s, s', {run});
  }

  lemma ResumeParentHandsOver(s: State, run: RunId, newRun: RunId)
    requires HandsOver(s) && CanHandOff(s, ResumeParent(run, newRun))
    ensures HandsOver(NextHandOff(s, ResumeParent(run, newRun)))
  {
    SameRowsEvolve(s.rows, s.outputs);
    assert TaskGood(s.rows, s.outputs, s.tasks[run]);
    EvolvingHandsOver(s, NextHandOff(s, ResumeParent(run, newRun)), {run, newRun});
  }

  lemma OutsideHandsOver(s: State, a: OutsideAction)
    requires HandsOver(s) && CanOutside(s, a)
    ensures HandsOver(NextOutside(s, a))
  {
    SameRowsEvolve(s.rows, s.outputs);
    if a.CloseRow? {
      OneRowEvolves(s.rows, s.outputs, a.id, s.rows[a.id].(status := a.status));
    }
    EvolvingHandsOver(s, NextOutside(s, a), {});
  }

  // ---------- Over every run of the system ----------

  lemma StepHandsOver(s: State, a: Action)
    requires HandsOver(s) && SettledRight(s) && Can(s, a)
    ensures HandsOver(Next(s, a))
  {
    match a
    case Adding(add) => AddHandsOver(s, add);
    case InRun(step) => RunHandsOver(s, step);
    case HandingOff(handoff) =>
      match handoff {
        case ReadParent(run) => ReadParentHandsOver(s, run);
        case WriteParent(run) => WriteParentHandsOver(s, run);
        case ResumeParent(run, newRun) => ResumeParentHandsOver(s, run, newRun);
      }
    case Outside(outside) => OutsideHandsOver(s, outside);
  }

  lemma {:induction false} AlwaysHandsOver(s: State, actions: seq<Action>)
    requires HandsOver(s) && Safe(s) && SettledRight(s) && Feasible(s, actions)
    ensures HandsOver(After(s, actions))
    decreases |actions|
  {
    if actions != [] {
      StepHandsOver(s, actions[0]);
      StepKeepsSafe(s, actions[0]);
      StepKeepsSettledRight(s, actions[0]);
      AlwaysHandsOver(Next(s, actions[0]), actions[1..]);
    }
  }

  /** Whoever wins within one waiting period without data of its own, the parent starts
      again with the stack it began to wait with, and on top, exactly if a child had written
      in the period before the winner read, the output of a finished child of its own, of the
      last pass of the node that child ended with: the last one written. That is so if the
      winner is a child that wrote in the period, whichever it is. A winner with its
      own data, a webhook say, puts that on top, whatever children wrote. */
  lemma ParentResumesWithAChildsOutput(limit: Option<nat>, actions: seq<Action>, i: nat)
    requires Feasible(Initial(limit), actions)
    requires i < |After(Initial(limit), actions).wins|
    requires var w := After(Initial(limit), actions).wins[i]; w.read.period == w.row.period && !w.row.crossed
    ensures var s := After(Initial(limit), actions);
            var w := s.wins[i];
            match OwnData(w.origin)
            case Some(own) => w.row.base != [] && w.loaded == w.row.base[0 := w.row.base[0].(input := own)]
            case None =>
              && (w.read.written.None? ==> w.loaded == w.row.base)
              && (w.read.written.Some? ==>
                    && w.row.base != []
                    && w.loaded == w.row.base[0 := w.row.base[0].(input := w.read.written.value)]
                    && exists child :: GivenBy(s, child, w.execution, w.read.written.value))
              && (WroteIn(w.origin, w.read.period) ==> w.read.written.Some?)
  {
    InitiallySafe(limit);
    AlwaysHandsOver(Initial(limit), actions);
    TracedFromStart(limit, actions);
    var s := After(Initial(limit), actions);
    var w := s.wins[i];
    assert WinGood(s.outputs, w);
    if OwnData(w.origin).None? && w.read.written.Some? {
      assert w.read.written.value in OutputsOf(s, w.execution);
    }
  }

  /** So nobody resumes within the period with any other stack than the period's own, at
      most with its own data or a completed child's output on top. */
  lemma AnyoneResumesWithThePeriodsStack(limit: Option<nat>, actions: seq<Action>, i: nat)
    requires Feasible(Initial(limit), actions)
    requires i < |After(Initial(limit), actions).wins|
    requires var w := After(Initial(limit), actions).wins[i]; w.read.period == w.row.period && !w.row.crossed
    ensures var s := After(Initial(limit), actions);
            var w := s.wins[i];
            w.loaded == w.row.base || exists output ::
              && w.row.base != [] && w.loaded == OnTop(w.row.base, Some(output))
              && if OwnData(w.origin).Some? then output == OwnData(w.origin).value
                 else exists child :: GivenBy(s, child, w.execution, output)
  {
    ParentResumesWithAChildsOutput(limit, actions, i);
    var w := After(Initial(limit), actions).wins[i];
    if OwnData(w.origin).Some? {
      assert w.loaded == OnTop(w.row.base, OwnData(w.origin));
    } else if w.read.written.Some? {
      assert w.loaded == OnTop(w.row.base, w.read.written);
    }
  }
}
