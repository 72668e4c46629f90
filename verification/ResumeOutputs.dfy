/** What finished runs leave behind, over every run of the system: the output that goes to
    the parent, from which run it comes, and how it gets onto the parent's stack. */
module ResumeOutputs {
  import opened Wrappers
  import opened ExecutionRegistry
  import opened ResumeProtocol
  import opened ResumeSafety
  import opened ResumeSettling

  // ---------- The output of a result ----------

  /** The node executed last made `passes`, and then `last`. */
  predicate EndsWith(result: RunResult, node: string, passes: seq<TaskData>, last: TaskData) {
    result.lastNodeExecuted == Some(node) && node in result.runData && result.runData[node] == passes + [last]
  }

  /** Of a node that ran several times, the last pass counts; in manual mode what is pinned
      to the node, if anything is. */
  ghost predicate IsFinalOutput(result: RunResult, output: Output) {
    exists node, passes, last :: EndsWith(result, node, passes, last)
      && if result.manual && node in result.pinData then output == result.pinData[node]
         else last.data == Some(output)
  }

  lemma LastPassCounts(result: RunResult, node: string, passes: seq<TaskData>, last: TaskData)
    requires result.lastNodeExecuted == Some(node) && node in result.runData && result.runData[node] == passes + [last]
    ensures !result.manual || node !in result.pinData ==> LastOutput(result) == last.data
    ensures result.manual && node in result.pinData ==> LastOutput(result) == Some(result.pinData[node])
  {
  }

  lemma FinalOutputIs(result: RunResult, output: Output)
    ensures LastOutput(result) == Some(output) <==> IsFinalOutput(result, output)
  {
    if result.lastNodeExecuted.Some? && result.lastNodeExecuted.value in result.runData {
      var node := result.lastNodeExecuted.value;
      var runs := result.runData[node];
      if runs != [] {
        assert runs == runs[..|runs| - 1] + [runs[|runs| - 1]];
        assert EndsWith(result, node, runs[..|runs| - 1], runs[|runs| - 1]);
      }
    }
  }

  /** There is none exactly if no node was last, or it has no run data, or neither its last
      pass nor, in manual mode, a pin gives it any. */
  lemma NoOutputExactlyWhen(result: RunResult)
    ensures LastOutput(result).None? <==>
      match result.lastNodeExecuted
      case None => true
      case Some(node) =>
        || node !in result.runData || result.runData[node] == []
        || ((!result.manual || node !in result.pinData)
            && exists passes :: result.runData[node] == passes + [TaskData(None)])
  {
    if result.lastNodeExecuted.Some? && result.lastNodeExecuted.value in result.runData {
      var runs := result.runData[result.lastNodeExecuted.value];
      if runs != [] {
        assert runs == runs[..|runs| - 1] + [runs[|runs| - 1]];
      }
    }
  }

  // ---------- Whose output it is ----------

  /** `child` is a finished run of an execution whose parent is `parent`, and came to that
      output. */
  ghost predicate GivenBy(s: State, child: RunId, parent: ExecutionId, output: Output) {
    && child in s.tasks && s.tasks[child].fate.Finished? && s.tasks[child].execution in s.rows
    && var related := s.rows[s.tasks[child].execution].parent;
       related.Some? && related.value.executionId == parent && IsFinalOutput(s.tasks[child].fate.result, output)
  }

  /** The outputs kept by parent are those of finished runs of its children, and rows are
      finished exactly if a run of theirs succeeded. */
  ghost predicate Traced(s: State) {
    && (forall id, output :: output in OutputsOf(s, id) <==> exists child :: GivenBy(s, child, id, output))
    && (forall id :: id in s.rows ==> (s.rows[id].finished <==> exists run :: SucceededAs(s, run, id)))
  }

  predicate SucceededAs(s: State, run: RunId, id: ExecutionId) {
    run in s.tasks && s.tasks[run].execution == id && s.tasks[run].fate.Finished? && s.tasks[run].fate.result.success
  }

  /** Finished runs are the same before and after, and rows keep parent and finish. */
  ghost predicate SameFinished(s: State, s': State) {
    && (forall run :: run in s.tasks && s.tasks[run].fate.Finished? ==>
          && run in s'.tasks && s'.tasks[run].execution == s.tasks[run].execution
          && s'.tasks[run].fate == s.tasks[run].fate)
    && (forall run :: run in s'.tasks && s'.tasks[run].fate.Finished? ==> run in s.tasks && s.tasks[run].fate.Finished?)
    && (forall id :: id in s.rows ==>
          id in s'.rows && s'.rows[id].parent == s.rows[id].parent && s'.rows[id].finished == s.rows[id].finished)
    && (forall id :: id in s'.rows && id !in s.rows ==> !s'.rows[id].finished)
    && s'.outputs == s.outputs
  }

  lemma SameFinishedGive(s: State, s': State, child: RunId, parent: ExecutionId, output: Output)
    requires Ownership(s) && SameFinished(s, s')
    ensures GivenBy(s', child, parent, output) <==> GivenBy(s, child, parent, output)
  {
  }

  lemma SameFinishedSucceed(s: State, s': State, run: RunId, id: ExecutionId)
    requires SameFinished(s, s')
    ensures SucceededAs(s', run, id) <==> SucceededAs(s, run, id)
  {
  }

  lemma SameFinishedKeepsTraced(s: State, s': State)
    requires Ownership(s) && Traced(s) && SameFinished(s, s')
    ensures Traced(s')
  {
    forall id, output
      ensures output in OutputsOf(s', id) <==> exists child :: GivenBy(s', child, id, output)
    {
      assert output in OutputsOf(s', id) <==> output in OutputsOf(s, id);
      forall child
        ensures GivenBy(s', child, id, output) <==> GivenBy(s, child, id, output)
      {
        SameFinishedGive(s, s', child, id, output);
      }
    }
    forall id | id in s'.rows
      ensures s'.rows[id].finished <==> exists run :: SucceededAs(s', run, id)
    {
      forall run
        ensures SucceededAs(s', run, id) <==> SucceededAs(s, run, id)
      {
        SameFinishedSucceed(s, s', run, id);
      }
      assert id !in s.rows ==> forall run :: !SucceededAs(s, run, id);
    }
  }

  /** One run moves on that has not finished, and does not finish. */
  lemma MovingKeepsFinished(s: State, s': State, run: RunId)
    requires forall other :: other in s.tasks && other != run ==> other in s'.tasks && s'.tasks[other] == s.tasks[other]
    requires s'.tasks.Keys <= s.tasks.Keys + {run} && s'.outputs == s.outputs
    requires run in s.tasks ==>
               && run in s'.tasks && s'.tasks[run].fate == s.tasks[run].fate
               && s'.tasks[run].execution == s.tasks[run].execution
    requires run !in s.tasks && run in s'.tasks ==> s'.tasks[run].fate == Open
    requires KeepsFinish(s.rows, s'.rows)
    ensures SameFinished(s, s')
  {
  }

  predicate KeepsFinish(rows: map<ExecutionId, Row>, rows': map<ExecutionId, Row>) {
    && (forall id :: id in rows ==>
          id in rows' && rows'[id].parent == rows[id].parent && rows'[id].finished == rows[id].finished)
    && (forall id :: id in rows' && id !in rows ==> !rows'[id].finished)
  }

  lemma CreatingKeepsFinish(s: State, a: AddAction)
    requires CanAdd(s, a) && (a.Create? || a.Begin? || a.StartNew? || a.RegisterRun?)
    ensures KeepsFinish(s.rows, NextAdd(s, a).rows) && NextAdd(s, a).outputs == s.outputs
  {
  }

  lemma ClaimingKeepsFinish(s: State, run: RunId)
    requires CanAdd(s, CompareAndSet(run))
    ensures KeepsFinish(s.rows, CompareAndSetStep(s, run).rows) && CompareAndSetStep(s, run).outputs == s.outputs
  {
  }

  lemma AddKeepsFinish(s: State, a: AddAction)
    requires CanAdd(s, a)
    ensures KeepsFinish(s.rows, NextAdd(s, a).rows) && NextAdd(s, a).outputs == s.outputs
  {
    match a
    case CompareAndSet(run) => ClaimingKeepsFinish(s, run);
    case Fetch(run) => assert FetchStep(s, run).rows == s.rows;
    case TakeCapacity(run) => assert TakeCapacityStep(s, run).rows == s.rows;
    case AddFails(run) => assert AddFailsStep(s, run).rows == s.rows;
    case _ => CreatingKeepsFinish(s, a);
  }

  lemma AddKeepsFate(s: State, a: AddAction)
    requires CanAdd(s, a)
    ensures var s' := NextAdd(s, a);
            && s'.tasks.Keys == s.tasks.Keys + {a.run}
            && if a.run in s.tasks
               then s'.tasks[a.run].fate == s.tasks[a.run].fate && s'.tasks[a.run].execution == s.tasks[a.run].execution
               else s'.tasks[a.run].fate == Open
  {
  }

  lemma AddKeepsFinished(s: State, a: AddAction)
    requires CanAdd(s, a)
    ensures SameFinished(s, NextAdd(s, a))
  {
    AddMovesOne(s, a);
    AddKeepsFinish(s, a);
    AddKeepsFate(s, a);
    MovingKeepsFinished(s, NextAdd(s, a), a.run);
  }

  lemma RunKeepsFinish(s: State, a: RunAction)
    requires CanRun(s, a) && !a.SaveFinished?
    ensures KeepsFinish(s.rows, NextRun(s, a).rows) && NextRun(s, a).outputs == s.outputs
  {
  }

  lemma RunFinishesNothing(s: State, a: RunAction)
    requires Ownership(s) && CanRun(s, a) && !a.SaveFinished?
    ensures var tasks' := NextRun(s, a).tasks;
            && tasks'.Keys == s.tasks.Keys
            && tasks'[a.run].execution == s.tasks[a.run].execution
            && (tasks'[a.run].fate == s.tasks[a.run].fate
                || (s.tasks[a.run].fate == Open && tasks'[a.run].fate == Waited))
  {
  }

  lemma RunKeepsFinished(s: State, a: RunAction)
    requires Ownership(s) && CanRun(s, a) && !a.SaveFinished?
    ensures SameFinished(s, NextRun(s, a))
  {
    RunMovesOne(s, a);
    RunKeepsFinish(s, a);
    RunFinishesNothing(s, a);
  }

  lemma ReadingKeepsFinish(s: State, run: RunId)
    requires CanHandOff(s, ReadParent(run))
    ensures var s' := ReadParentStep(s, run);
            s'.rows == s.rows && s'.outputs == s.outputs && s'.wins == s.wins && s'.tasks.Keys == s.tasks.Keys
  {
  }

  lemma WritingKeepsFinish(s: State, run: RunId)
    requires CanHandOff(s, WriteParent(run))
    ensures var s' := WriteParentStep(s, run);
            KeepsFinish(s.rows, s'.rows) && s'.outputs == s.outputs && s'.tasks.Keys == s.tasks.Keys
  {
  }

  lemma HandOffKeepsFinish(s: State, a: HandoffAction)
    requires CanHandOff(s, a)
    ensures KeepsFinish(s.rows, NextHandOff(s, a).rows) && NextHandOff(s, a).outputs == s.outputs
    ensures var tasks' := NextHandOff(s, a).tasks;
            && tasks'.Keys == s.tasks.Keys + (if a.ResumeParent? then {a.newRun} else {})
            && (a.ResumeParent? ==> tasks'[a.newRun].fate == Open)
  {
    match a
    case ReadParent(run) => ReadingKeepsFinish(s, run);
    case WriteParent(run) => WritingKeepsFinish(s, run);
    case ResumeParent(_, _) =>
  }

  lemma HandOffKeepsFinished(s: State, a: HandoffAction)
    requires CanHandOff(s, a)
    ensures SameFinished(s, NextHandOff(s, a))
  {
    HandOffMovesOne(s, a);
    HandOffKeepsFinish(s, a);
  }

  /** A child that finishes adds its own output to its parent's, and no other. */
  lemma FinishingAdds(s: State, run: RunId, result: RunResult, id: ExecutionId, output: Output)
    requires CanRun(s, SaveFinished(run, result))
    ensures var s' := SaveFinishedStep(s, run, result);
            output in OutputsOf(s', id) <==> output in OutputsOf(s, id) || GivenBy(s', run, id, output)
  {
    FinalOutputIs(result, output);
    FinishingChanges(s, run, result);
  }

  lemma FinishingSparesOthers(s: State, run: RunId, result: RunResult, child: RunId, id: ExecutionId, output: Output)
    requires Ownership(s) && CanRun(s, SaveFinished(run, result)) && child != run
    ensures var s' := SaveFinishedStep(s, run, result);
            && (GivenBy(s', child, id, output) <==> GivenBy(s, child, id, output))
            && (SucceededAs(s', child, id) <==> SucceededAs(s, child, id))
  {
    FinishingChanges(s, run, result);
  }

  /** A run that finishes is the first of its execution to do so. */
  lemma FinishingIsFirst(s: State, run: RunId, result: RunResult, other: RunId)
    requires Ownership(s) && CanRun(s, SaveFinished(run, result))
    requires other in s.tasks && s.tasks[other].fate.Finished?
    ensures s.tasks[other].execution != s.tasks[run].execution
  {
    assert Owns(s.tasks[run].pc) && s.tasks[run].fate == Open;
  }

  lemma SavingKeepsOutputsTraced(s: State, run: RunId, result: RunResult, id: ExecutionId, output: Output)
    requires Ownership(s) && Traced(s) && CanRun(s, SaveFinished(run, result))
    ensures var s' := SaveFinishedStep(s, run, result);
            output in OutputsOf(s', id) <==> exists child :: GivenBy(s', child, id, output)
  {
    var s' := SaveFinishedStep(s, run, result);
    FinishingAdds(s, run, result, id, output);
    assert s.tasks[run].fate == Open;
    forall child | child != run
      ensures GivenBy(s', child, id, output) <==> GivenBy(s, child, id, output)
    {
      FinishingSparesOthers(s, run, result, child, id, output);
    }
    assert !GivenBy(s, run, id, output);
  }

  lemma SavingKeepsFinishTraced(s: State, run: RunId, result: RunResult, id: ExecutionId)
    requires Ownership(s) && Traced(s) && CanRun(s, SaveFinished(run, result)) && id in s.rows
    ensures var s' := SaveFinishedStep(s, run, result);
            id in s'.rows && (s'.rows[id].finished <==> exists other :: SucceededAs(s', other, id))
  {
    var s' := SaveFinishedStep(s, run, result);
    FinishingChanges(s, run, result);
    forall other | other != run
      ensures SucceededAs(s', other, id) <==> SucceededAs(s, other, id)
    {
      FinishingSparesOthers(s, run, result, other, id, []);
    }
    if id == s.tasks[run].execution {
      forall other
        ensures !SucceededAs(s, other, id)
      {
        if SucceededAs(s, other, id) {
          FinishingIsFirst(s, run, result, other);
        }
      }
      assert SucceededAs(s', run, id) <==> result.success;
    } else {
      assert !SucceededAs(s', run, id) && !SucceededAs(s, run, id);
    }
  }

  lemma SavingKeepsTraced(s: State, run: RunId, result: RunResult)
    requires Ownership(s) && Traced(s) && CanRun(s, SaveFinished(run, result))
    ensures Traced(SaveFinishedStep(s, run, result))
  {
    var s' := SaveFinishedStep(s, run, result);
    forall id, output
      ensures output in OutputsOf(s', id) <==> exists child :: GivenBy(s', child, id, output)
    {
      SavingKeepsOutputsTraced(s, run, result, id, output);
    }
    forall id | id in s'.rows
      ensures s'.rows[id].finished <==> exists other :: SucceededAs(s', other, id)
    {
      SavingKeepsFinishTraced(s, run, result, id);
    }
  }

  lemma RunKeepsTraced(s: State, step: RunAction)
    requires Ownership(s) && Traced(s) && CanRun(s, step)
    ensures Traced(NextRun(s, step))
  {
    if step.SaveFinished? {
      SavingKeepsTraced(s, step.run, step.result);
    } else {
      RunKeepsFinished(s, step);
      SameFinishedKeepsTraced(s, NextRun(s, step));
    }
  }

  lemma OutsideKeepsFinished(s: State, outside: OutsideAction)
    requires CanOutside(s, outside)
    ensures SameFinished(s, NextOutside(s, outside))
  {
  }

  lemma StepKeepsFinished(s: State, a: Action)
    requires Ownership(s) && Can(s, a) && !a.InRun?
    ensures SameFinished(s, Next(s, a))
  {
    match a
    case Adding(add) => AddKeepsFinished(s, add);
    case HandingOff(handoff) => HandOffKeepsFinished(s, handoff);
    case Outside(outside) => OutsideKeepsFinished(s, outside);
  }

  lemma StepKeepsTraced(s: State, a: Action)
    requires Ownership(s) && Traced(s) && Can(s, a)
    ensures Traced(Next(s, a))
  {
    if a.InRun? {
      RunKeepsTraced(s, a.step);
    } else {
      StepKeepsFinished(s, a);
      SameFinishedKeepsTraced(s, Next(s, a));
    }
  }

  lemma {:induction false} AlwaysTraced(s: State, actions: seq<Action>)
    requires Safe(s) && Traced(s) && Feasible(s, actions)
    ensures Traced(After(s, actions))
    decreases |actions|
  {
    if actions != [] {
      StepKeepsSafe(s, actions[0]);
      StepKeepsTraced(s, actions[0]);
      AlwaysTraced(Next(s, actions[0]), actions[1..]);
    }
  }

  lemma TracedFromStart(limit: Option<nat>, actions: seq<Action>)
    requires Feasible(Initial(limit), actions)
    ensures Traced(After(Initial(limit), actions))
  {
    InitiallySafe(limit);
    AlwaysTraced(Initial(limit), actions);
  }

  /** A row is marked finished exactly if a run of the execution came to a successful end;
      nobody starts such an execution again. */
  lemma FinishedExactlyWhenSucceeded(limit: Option<nat>, actions: seq<Action>, id: ExecutionId)
    requires Feasible(Initial(limit), actions) && id in After(Initial(limit), actions).rows
    ensures var s := After(Initial(limit), actions);
            s.rows[id].finished <==>
              exists run :: run in s.tasks && s.tasks[run].execution == id
                && s.tasks[run].fate.Finished? && s.tasks[run].fate.result.success
    ensures var s := After(Initial(limit), actions);
            forall run :: s.rows[id].finished && CanAdd(s, Fetch(run)) && s.tasks[run].execution == id ==>
              IsAt(NextAdd(s, Fetch(run)), run, Ended)
  {
    TracedFromStart(limit, actions);
    var s := After(Initial(limit), actions);
    if s.rows[id].finished {
      var run :| SucceededAs(s, run, id);
    }
    forall run | run in s.tasks && s.tasks[run].execution == id
        && s.tasks[run].fate.Finished? && s.tasks[run].fate.result.success
      ensures s.rows[id].finished
    {
      assert SucceededAs(s, run, id);
    }
  }

  // ---------- Who wakes whom ----------

  predicate ChildOf(s: State, child: RunId, parent: ExecutionId) {
    && child in s.tasks && s.tasks[child].fate.Finished? && s.tasks[child].execution in s.rows
    && var related := s.rows[s.tasks[child].execution].parent;
       related.Some? && related.value.executionId == parent
  }

  predicate FromOwnChild(s: State, origin: Origin, id: ExecutionId) {
    origin.FromChild? ==> ChildOf(s, origin.child, id)
  }

  predicate PcAims(s: State, run: RunId, t: Task) {
    match t.pc
    case Starting(origin) => FromOwnChild(s, origin, t.execution)
    case Fetched(origin, _) => FromOwnChild(s, origin, t.execution)
    case ToResume(origin, _) => FromOwnChild(s, origin, t.execution)
    case Delivering(parent, _, _) => ChildOf(s, run, parent)
    case Delivered(parent, _, _) => ChildOf(s, run, parent)
    case _ => true
  }

  ghost predicate RunsAim(s: State) {
    forall run :: run in s.tasks ==> PcAims(s, run, s.tasks[run])
  }

  ghost predicate WinsAim(s: State) {
    forall i :: 0 <= i < |s.wins| ==> FromOwnChild(s, s.wins[i].origin, s.wins[i].execution)
  }

  ghost predicate KeepsChildren(s: State, s': State) {
    forall child, parent :: ChildOf(s, child, parent) ==> ChildOf(s', child, parent)
  }

  lemma SameFinishedKeepsChildren(s: State, s': State)
    requires SameFinished(s, s')
    ensures KeepsChildren(s, s')
  {
  }

  lemma SavingKeepsChildren(s: State, run: RunId, result: RunResult)
    requires Ownership(s) && CanRun(s, SaveFinished(run, result))
    ensures KeepsChildren(s, SaveFinishedStep(s, run, result))
  {
    FinishingChanges(s, run, result);
    assert s.tasks[run].fate == Open;
  }

  lemma StepKeepsChildren(s: State, a: Action)
    requires Ownership(s) && Can(s, a)
    ensures KeepsChildren(s, Next(s, a))
  {
    if a.InRun? && a.step.SaveFinished? {
      SavingKeepsChildren(s, a.step.run, a.step.result);
    } else {
      if a.InRun? {
        RunKeepsFinished(s, a.step);
      } else {
        StepKeepsFinished(s, a);
      }
      SameFinishedKeepsChildren(s, Next(s, a));
    }
  }

  /** All runs but one or two are as before, and those aim right. */
  lemma OthersAim(s: State, s': State, touched: set<RunId>)
    requires RunsAim(s) && KeepsChildren(s, s')
    requires forall run :: run in s'.tasks && run !in touched ==> run in s.tasks && s'.tasks[run] == s.tasks[run]
    requires forall run :: run in touched && run in s'.tasks ==> PcAims(s', run, s'.tasks[run])
    ensures RunsAim(s')
  {
    forall run | run in s'.tasks
      ensures PcAims(s', run, s'.tasks[run])
    {
      if run !in touched {
        assert PcAims(s, run, s.tasks[run]);
      }
    }
  }

  lemma AddAims(s: State, a: AddAction)
    requires Ownership(s) && RunsAim(s) && CanAdd(s, a)
    ensures RunsAim(NextAdd(s, a))
  {
    StepKeepsChildren(s, Adding(a));
    AddKeepsFate(s, a);
    AddMovesOne(s, a);
    if a.run in s.tasks {
      assert PcAims(s, a.run, s.tasks[a.run]);
    }
    MovedAims(s, a);
    OthersAim(s, NextAdd(s, a), {a.run});
  }

  lemma MovedAims(s: State, a: AddAction)
    requires CanAdd(s, a) && KeepsChildren(s, NextAdd(s, a))
    requires a.run in s.tasks ==> PcAims(s, a.run, s.tasks[a.run])
    ensures a.run in NextAdd(s, a).tasks && PcAims(NextAdd(s, a), a.run, NextAdd(s, a).tasks[a.run])
  {
  }

  lemma RunAims(s: State, a: RunAction)
    requires Ownership(s) && RunsAim(s) && CanRun(s, a)
    ensures RunsAim(NextRun(s, a))
  {
    StepKeepsChildren(s, InRun(a));
    RunMovesOne(s, a);
    RunMovesOn(s, a);
    assert PcAims(s, a.run, s.tasks[a.run]);
    OthersAim(s, NextRun(s, a), {a.run});
  }

  lemma RunMovesOn(s: State, a: RunAction)
    requires CanRun(s, a)
    ensures var s' := NextRun(s, a);
            && s'.tasks.Keys == s.tasks.Keys && s'.wins == s.wins
            && (s'.tasks[a.run] == s.tasks[a.run] || s'.tasks[a.run].pc in {Suspending, OverRow, Settling})
  {
    if a.SaveFinished? {
      FinishingChanges(s, a.run, a.result);
    }
  }

  /** A child reads, writes and wakes its own parent. */
  lemma HandingOffAims(s: State, a: HandoffAction)
    requires SettledRight(s) && CanHandOff(s, a) && PcAims(s, a.run, s.tasks[a.run])
    requires KeepsChildren(s, NextHandOff(s, a))
    ensures var s' := NextHandOff(s, a);
            && s'.wins == s.wins && a.run in s'.tasks && PcAims(s', a.run, s'.tasks[a.run])
            && (a.ResumeParent? ==> a.newRun in s'.tasks && PcAims(s', a.newRun, s'.tasks[a.newRun]))
  {
    var s' := NextHandOff(s, a);
    match a
    case ReadParent(run) =>
      FinishedResultIsOwn(s, run);
      assert s' == ReadParentStep(s, run);
      assert ChildOf(s, run, s.rows[s.tasks[run].execution].parent.value.executionId);
    case WriteParent(run) =>
      assert s' == WriteParentStep(s, run);
      assert ChildOf(s, run, s.tasks[run].pc.parent);
    case ResumeParent(run, newRun) =>
      assert ChildOf(s, run, s.tasks[run].pc.parent);
  }

  lemma HandOffAims(s: State, a: HandoffAction)
    requires Ownership(s) && SettledRight(s) && RunsAim(s) && CanHandOff(s, a)
    ensures RunsAim(NextHandOff(s, a)) && NextHandOff(s, a).wins == s.wins
  {
    StepKeepsChildren(s, HandingOff(a));
    HandOffKeepsFinish(s, a);
    HandOffMovesOne(s, a);
    HandingOffAims(s, a);
    OthersAim(s, NextHandOff(s, a), {a.run} + (if a.ResumeParent? then {a.newRun} else {}));
  }

  /** The winner of a compare-and-set is the run that went for it. */
  lemma WinsOfAdd(s: State, a: AddAction)
    requires CanAdd(s, a)
    ensures var wins' := NextAdd(s, a).wins;
            || wins' == s.wins
            || (a.CompareAndSet? && |wins'| == |s.wins| + 1 && wins'[..|s.wins|] == s.wins
                && wins'[|s.wins|].execution == s.tasks[a.run].execution
                && wins'[|s.wins|].origin == s.tasks[a.run].pc.origin)
  {
  }

  lemma StepKeepsWinsAim(s: State, a: Action)
    requires Safe(s) && SettledRight(s) && RunsAim(s) && WinsAim(s) && Can(s, a)
    ensures WinsAim(Next(s, a))
  {
    var s' := Next(s, a);
    StepKeepsChildren(s, a);
    match a {
      case Adding(add) =>
        WinsOfAdd(s, add);
        if add.CompareAndSet? {
          assert PcAims(s, add.run, s.tasks[add.run]);
        }
      case InRun(step) => RunMovesOn(s, step);
      case HandingOff(handoff) => HandOffAims(s, handoff);
      case Outside(_) =>
    }
    forall i | 0 <= i < |s'.wins|
      ensures FromOwnChild(s', s'.wins[i].origin, s'.wins[i].execution)
    {
      if i < |s.wins| {
        assert s'.wins[i] == s.wins[i];
        assert FromOwnChild(s, s.wins[i].origin, s.wins[i].execution);
      }
    }
  }

  lemma StepKeepsRunsAim(s: State, a: Action)
    requires Safe(s) && SettledRight(s) && RunsAim(s) && Can(s, a)
    ensures RunsAim(Next(s, a))
  {
    match a
    case Adding(add) => AddAims(s, add);
    case InRun(step) => RunAims(s, step);
    case HandingOff(handoff) => HandOffAims(s, handoff);
    case Outside(_) =>
      StepKeepsChildren(s, a);
      OthersAim(s, Next(s, a), {});
  }

  lemma {:induction false} AlwaysAims(s: State, actions: seq<Action>)
    requires Safe(s) && SettledRight(s) && RunsAim(s) && WinsAim(s) && Feasible(s, actions)
    ensures RunsAim(After(s, actions)) && WinsAim(After(s, actions))
    decreases |actions|
  {
    if actions != [] {
      StepKeepsSafe(s, actions[0]);
      StepKeepsSettledRight(s, actions[0]);
      StepKeepsRunsAim(s, actions[0]);
      StepKeepsWinsAim(s, actions[0]);
      AlwaysAims(Next(s, actions[0]), actions[1..]);
    }
  }

  /** Whoever is resumed by a child is that child's parent, and the child has finished. */
  lemma WokenByOwnChildren(limit: Option<nat>, actions: seq<Action>, i: nat)
    requires Feasible(Initial(limit), actions)
    requires i < |After(Initial(limit), actions).wins| && After(Initial(limit), actions).wins[i].origin.FromChild?
    ensures var s := After(Initial(limit), actions);
            var child := s.wins[i].origin.child;
            && child in s.tasks && s.tasks[child].fate.Finished? && s.tasks[child].execution in s.rows
            && s.rows[s.tasks[child].execution].parent.Some?
            && s.rows[s.tasks[child].execution].parent.value.executionId == s.wins[i].execution
  {
    InitiallySafe(limit);
    InitiallySettledRight(limit);
    AlwaysAims(Initial(limit), actions);
    var s := After(Initial(limit), actions);
    assert FromOwnChild(s, s.wins[i].origin, s.wins[i].execution);
  }

  // ---------- The handoff, step by step ----------

  /** What reading the parent makes of the child's own progress. */
  ghost predicate ReadsParent(s: State, run: RunId, result: RunResult, parent: ExecutionId, pc: Pc) {
    var waits := parent in s.rows && s.rows[parent].status == Waiting && s.rows[parent].stack != [];
    && (forall output, top, rest :: IsFinalOutput(result, output) && waits && s.rows[parent].stack == [top] + rest ==>
          pc == Delivering(parent, [StackItem(top.node, output)] + rest, s.rows[parent].period))
    && ((forall output :: !IsFinalOutput(result, output)) || !waits ==>
          pc.Delivered? && pc.parent == parent && pc.wrote.None?)
  }

  lemma ReadingGives(s: State, run: RunId, parent: ExecutionId)
    requires SettledRight(s) && CanHandOff(s, ReadParent(run))
    requires s.rows[s.tasks[run].execution].parent.value.executionId == parent
    ensures s.tasks[run].fate.Finished? && run in ReadParentStep(s, run).tasks
    ensures ReadsParent(s, run, s.tasks[run].fate.result, parent, ReadParentStep(s, run).tasks[run].pc)
  {
    FinishedResultIsOwn(s, run);
    var result := s.tasks[run].fate.result;
    forall output, top, rest | IsFinalOutput(result, output) && parent in s.rows && s.rows[parent].stack == [top] + rest
      ensures LastOutput(result) == Some(output)
      ensures OnTop(s.rows[parent].stack, Some(output)) == [StackItem(top.node, output)] + rest
    {
      FinalOutputIs(result, output);
    }
    if LastOutput(result).Some? {
      FinalOutputIs(result, LastOutput(result).value);
    }
  }

  /** A child that reads its waiting parent puts its own final output in place of what the
      top node was to get, and leaves the rest of the stack. Without an output, or if the
      parent does not wait or has no node to resume, it goes on to wake the parent without
      writing. */
  lemma ChildPutsItsOutputOnTop(limit: Option<nat>, actions: seq<Action>, run: RunId, parent: ExecutionId)
    requires Feasible(Initial(limit), actions)
    requires CanHandOff(After(Initial(limit), actions), ReadParent(run))
    requires var s := After(Initial(limit), actions);
             s.rows[s.tasks[run].execution].parent.value.executionId == parent
    ensures var s := After(Initial(limit), actions);
            var s' := Next(s, HandingOff(ReadParent(run)));
            && s.tasks[run].fate.Finished? && s'.rows == s.rows && run in s'.tasks
            && ReadsParent(s, run, s.tasks[run].fate.result, parent, s'.tasks[run].pc)
  {
    InitiallySafe(limit);
    InitiallySettledRight(limit);
    AlwaysSettledRight(Initial(limit), actions);
    var s := After(Initial(limit), actions);
    ReadingGives(s, run, parent);
    ReadingKeepsFinish(s, run);
  }

  /** The write puts that stack into the parent's row and changes nothing else anybody reads
      of any row; then the parent is to be woken. */
  lemma WritePutsTheStackBack(s: State, run: RunId, parent: ExecutionId, stack: Stack, period: nat)
    requires IsAt(s, run, Delivering(parent, stack, period)) && parent in s.rows
    ensures CanHandOff(s, WriteParent(run))
    ensures var s' := Next(s, HandingOff(WriteParent(run)));
            && IsAt(s', run, Delivered(parent, Some(Waiting), Some(period)))
            && s'.rows.Keys == s.rows.Keys && (forall id :: id in s.rows && id != parent ==> s'.rows[id] == s.rows[id])
            && s'.rows[parent].stack == stack && s'.rows[parent].status == s.rows[parent].status
            && s'.rows[parent].finished == s.rows[parent].finished && s'.rows[parent].parent == s.rows[parent].parent
            && (forall other :: other in s.tasks && other != run ==>
                  other in s'.tasks && s'.tasks[other] == s.tasks[other])
  {
    assert Next(s, HandingOff(WriteParent(run))) == WriteParentStep(s, run);
  }
}
