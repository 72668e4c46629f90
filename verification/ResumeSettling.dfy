/** How the promises of runs are settled, over every run of the system, and which finished
    children get to hand their output over: the handoff hangs on the promise of the child's
    entry, and that may have been settled by somebody else. */
module ResumeSettling {
  import opened Wrappers
  import opened ExecutionRegistry
  import opened ResumeProtocol
  import opened ResumeSafety

  /** A run that has come past `finalizeExecution`. */
  predicate PastFinalize(t: Task) {
    t.fate != Open && !BeforeOutcome(t.pc) && t.pc != OverRow
  }

  /** A result in an entry is that of a run of the same execution, past its finalize: the
      entry's own, or one that went to wait. */
  ghost predicate SettledByRight(tasks: map<RunId, Task>, run: RunId, entry: Entry) {
    entry.settled.Some? && entry.settled.value.ResultOf? ==>
      var settler := entry.settled.value.run;
      && settler in tasks && tasks[settler].execution == entry.executionId && PastFinalize(tasks[settler])
      && (settler == run || tasks[settler].fate == Waited)
  }

  ghost predicate SettledRight(s: State) {
    forall p, run :: run in RegistryOf(s, p).entries ==>
                       SettledByRight(s.tasks, run, RegistryOf(s, p).entries[run])
  }

  // ---------- Steps ----------

  /** Runs past their finalize stay what they are. */
  ghost predicate PastStays(tasks: map<RunId, Task>, tasks': map<RunId, Task>) {
    forall run :: run in tasks && PastFinalize(tasks[run]) ==>
                    && run in tasks' && tasks'[run].execution == tasks[run].execution
                    && tasks'[run].fate == tasks[run].fate && PastFinalize(tasks'[run])
  }

  /** No entry's promise is settled anew, and no entry comes with a settled one. */
  ghost predicate NoResultSettles(reg: Registry, reg': Registry) {
    forall run :: run in reg'.entries ==>
      && (reg'.entries[run].settled.Some? && reg'.entries[run].settled.value.ResultOf? ==>
            && run in reg.entries && reg'.entries[run].settled == reg.entries[run].settled
            && reg'.entries[run].executionId == reg.entries[run].executionId)
  }

  lemma SettledRightAfter(s: State, s': State)
    requires SettledRight(s) && PastStays(s.tasks, s'.tasks)
    requires forall p :: NoResultSettles(RegistryOf(s, p), RegistryOf(s', p))
    ensures SettledRight(s')
  {
    forall p, run | run in RegistryOf(s', p).entries
      ensures SettledByRight(s'.tasks, run, RegistryOf(s', p).entries[run])
    {
      assert NoResultSettles(RegistryOf(s, p), RegistryOf(s', p));
      if run in RegistryOf(s, p).entries {
        assert SettledByRight(s.tasks, run, RegistryOf(s, p).entries[run]);
      }
    }
  }

  lemma HandlerSettlesNothing(reg: Registry, run: RunId)
    requires run in reg.entries
    ensures NoResultSettles(reg, Handle(reg, run))
  {
  }

  lemma StopSettlesNothing(reg: Registry, id: ExecutionId)
    ensures NoResultSettles(reg, Stop(reg, id))
  {
  }

  lemma {:induction false} SweepSettlesNothing(reg: Registry, ids: seq<ExecutionId>, cancel: bool)
    ensures NoResultSettles(reg, Sweep(reg, ids, cancel))
  {
    if ids != [] {
      var before := Sweep(reg, ids[..|ids| - 1], cancel);
      SweepSettlesNothing(reg, ids[..|ids| - 1], cancel);
      if cancel {
        StopSettlesNothing(before, ids[|ids| - 1]);
      }
      NothingSettlesTwice(reg, before, Sweep(reg, ids, cancel));
    }
  }

  lemma NothingSettlesTwice(a: Registry, b: Registry, c: Registry)
    requires NoResultSettles(a, b) && NoResultSettles(b, c)
    ensures NoResultSettles(a, c)
  {
  }

  lemma EventSettlesNothing(reg: Registry, e: Event)
    requires Enabled(reg, e) && !e.Finalized?
    ensures NoResultSettles(reg, Apply(reg, e))
  {
    match e
    case Handled(run) => HandlerSettlesNothing(reg, run);
    case Stopped(id) => StopSettlesNothing(reg, id);
    case ShutDown(regular, cancelAll, ids) =>
      SweepSettlesNothing(if regular then Disable(reg) else reg, ids, regular && cancelAll);
    case _ =>
  }

  /** Only a finalize settles a promise with a result, in whatever process. */
  lemma StepSettlesNothing(s: State, a: Action, p: ProcessId)
    requires Safe(s) && Can(s, a) && !(a.InRun? && a.step.FinalizeRun?)
    ensures NoResultSettles(RegistryOf(s, p), RegistryOf(Next(s, a), p))
  {
    StepFollowsRegistry(s, a, p);
    if EventAt(s, a, p).Some? {
      EventSettlesNothing(RegistryOf(s, p), EventAt(s, a, p).value);
    }
  }

  /** One run moves on: either it was not past its finalize, or it goes on from there. */
  lemma OneRunKeepsPast(tasks: map<RunId, Task>, tasks': map<RunId, Task>, run: RunId)
    requires forall other :: other in tasks && other != run ==> other in tasks' && tasks'[other] == tasks[other]
    requires run in tasks && PastFinalize(tasks[run]) ==>
               run in tasks' && tasks'[run] == tasks[run].(pc := tasks'[run].pc) && PastFinalize(tasks'[run])
    ensures PastStays(tasks, tasks')
  {
  }

  lemma AddKeepsPast(s: State, a: AddAction)
    requires Ownership(s) && CanAdd(s, a)
    ensures PastStays(s.tasks, NextAdd(s, a).tasks)
  {
    AddMovesOne(s, a);
    OneRunKeepsPast(s.tasks, NextAdd(s, a).tasks, a.run);
  }

  lemma AddMovesOne(s: State, a: AddAction)
    requires CanAdd(s, a)
    ensures a.run in s.tasks ==> BeforeOutcome(s.tasks[a.run].pc)
    ensures forall other :: other in s.tasks && other != a.run ==>
              other in NextAdd(s, a).tasks && NextAdd(s, a).tasks[other] == s.tasks[other]
  {
  }

  lemma RunKeepsPast(s: State, a: RunAction)
    requires Ownership(s) && CanRun(s, a)
    ensures PastStays(s.tasks, NextRun(s, a).tasks)
  {
    RunMovesOne(s, a);
    OneRunKeepsPast(s.tasks, NextRun(s, a).tasks, a.run);
  }

  lemma RunMovesOne(s: State, a: RunAction)
    requires CanRun(s, a)
    ensures a.MarkRunning? || a.RunHandler? ==> NextRun(s, a).tasks == s.tasks
    ensures !a.MarkRunning? && !a.RunHandler? ==> Owns(s.tasks[a.run].pc) || s.tasks[a.run].pc == OverRow
    ensures forall other :: other in s.tasks && other != a.run ==>
              other in NextRun(s, a).tasks && NextRun(s, a).tasks[other] == s.tasks[other]
  {
    match a
    case SaveFinished(run, result) => FinishingChanges(s, run, result);
    case _ =>
  }

  lemma HandOffKeepsPast(s: State, a: HandoffAction)
    requires CanHandOff(s, a)
    ensures PastStays(s.tasks, NextHandOff(s, a).tasks)
  {
    HandOffMovesOne(s, a);
    OneRunKeepsPast(s.tasks, NextHandOff(s, a).tasks, a.run);
  }

  lemma HandOffMovesOne(s: State, a: HandoffAction)
    requires CanHandOff(s, a)
    ensures var tasks' := NextHandOff(s, a).tasks;
            && a.run in tasks' && tasks'[a.run] == s.tasks[a.run].(pc := tasks'[a.run].pc)
            && (tasks'[a.run].pc.Delivering? || tasks'[a.run].pc.Delivered? || tasks'[a.run].pc == Ended)
            && forall other :: other in s.tasks && other != a.run ==> other in tasks' && tasks'[other] == s.tasks[other]
  {
    match a
    case ReadParent(run) => assert NextHandOff(s, a) == ReadParentStep(s, run);
    case WriteParent(run) => assert NextHandOff(s, a) == WriteParentStep(s, run);
    case ResumeParent(_, _) =>
  }

  lemma StepKeepsPast(s: State, a: Action)
    requires Ownership(s) && Can(s, a)
    ensures PastStays(s.tasks, Next(s, a).tasks)
  {
    match a
    case Adding(add) => AddKeepsPast(s, add);
    case InRun(step) => RunKeepsPast(s, step);
    case HandingOff(handoff) => HandOffKeepsPast(s, handoff);
    case Outside(_) =>
  }

  /** A finalize settles the registered run's promise, if it is open: its own, or, of a run
      that went to wait, a successor's. */
  lemma FinalizeSettlesEntryRight(t: Task, reg: Registry, run: RunId, tasks: map<RunId, Task>, other: RunId)
    requires Valid(reg) && t.pc == OverRow && RunPlaced(t, reg, run) && other in reg.entries
    requires run in tasks && tasks[run] == t.(pc := Settling) && PastFinalize(tasks[run])
    requires SettledByRight(tasks, other, reg.entries[other])
    ensures other in Finalize(reg, t.execution, run).entries
    ensures SettledByRight(tasks, other, Finalize(reg, t.execution, run).entries[other])
  {
    SettlesExactly(reg, t.execution, ResultOf(run), other);
    if t.fate.Finished? && t.execution in reg.active {
      FinishedRunLeads(t, reg, run);
    }
  }

  lemma PastKeepsEntryRight(tasks: map<RunId, Task>, tasks': map<RunId, Task>, run: RunId, entry: Entry)
    requires SettledByRight(tasks, run, entry) && PastStays(tasks, tasks')
    ensures SettledByRight(tasks', run, entry)
  {
  }

  lemma FinalizeSettlesRight(s: State, run: RunId)
    requires Safe(s) && SettledRight(s) && CanRun(s, FinalizeRun(run))
    ensures SettledRight(NextRun(s, FinalizeRun(run)))
  {
    var a := FinalizeRun(run);
    var s' := NextRun(s, a);
    var t := s.tasks[run];
    var reg := RegistryOf(s, t.process);
    assert RegistryPlaced(s.tasks, t.process, reg) && RunPlaced(t, reg, run);
    RunKeepsPast(s, a);
    FinalizeMoves(s, run);
    forall p, other | other in RegistryOf(s', p).entries
      ensures SettledByRight(s'.tasks, other, RegistryOf(s', p).entries[other])
    {
      if p != t.process {
        RunSparesOtherProcesses(s, a, p);
        PastKeepsEntryRight(s.tasks, s'.tasks, other, RegistryOf(s, p).entries[other]);
      } else {
        PastKeepsEntryRight(s.tasks, s'.tasks, other, reg.entries[other]);
        FinalizeSettlesEntryRight(t, reg, run, s'.tasks, other);
      }
    }
  }

  lemma FinalizeMoves(s: State, run: RunId)
    requires Placed(s) && CanRun(s, FinalizeRun(run))
    ensures var s', t := NextRun(s, FinalizeRun(run)), s.tasks[run];
            && run in s'.tasks && s'.tasks[run] == t.(pc := Settling) && PastFinalize(s'.tasks[run])
            && RegistryOf(s', t.process) == Finalize(RegistryOf(s, t.process), t.execution, run)
            && RegistryOf(s', t.process).entries.Keys == RegistryOf(s, t.process).entries.Keys
  {
    var t := s.tasks[run];
    OverRowIsOver(t, RegistryOf(s, t.process), run);
    FinalizeChanges(s, run);
    SettleKeepsRuns(RegistryOf(s, t.process), t.execution, ResultOf(run));
  }

  lemma OverRowIsOver(t: Task, reg: Registry, run: RunId)
    requires t.pc == OverRow && RunPlaced(t, reg, run)
    ensures t.fate != Open
  {
  }

  lemma StepKeepsSettledRight(s: State, a: Action)
    requires Safe(s) && SettledRight(s) && Can(s, a)
    ensures SettledRight(Next(s, a))
  {
    if a.InRun? && a.step.FinalizeRun? {
      FinalizeSettlesRight(s, a.step.run);
    } else {
      forall p
        ensures NoResultSettles(RegistryOf(s, p), RegistryOf(Next(s, a), p))
      {
        StepSettlesNothing(s, a, p);
      }
      StepKeepsPast(s, a);
      SettledRightAfter(s, Next(s, a));
    }
  }

  lemma InitiallySettledRight(limit: Option<nat>)
    ensures SettledRight(Initial(limit))
  {
  }

  lemma {:induction false} AlwaysSettledRight(s: State, actions: seq<Action>)
    requires Safe(s) && SettledRight(s) && Feasible(s, actions)
    ensures Safe(After(s, actions)) && SettledRight(After(s, actions))
    decreases |actions|
  {
    if actions != [] {
      StepKeepsSafe(s, actions[0]);
      StepKeepsSettledRight(s, actions[0]);
      AlwaysSettledRight(Next(s, actions[0]), actions[1..]);
    }
  }

  // ---------- Who hands over ----------

  /** A promise with a finished result was settled by the entry's own run. */
  lemma FinishedResultIsOwn(s: State, run: RunId)
    requires SettledRight(s) && run in s.tasks && HasResult(s, run)
    ensures SettlementOf(s, run) == Some(ResultOf(run)) && s.tasks[run].fate == Finished(PromisedResult(s, run))
  {
    var p := s.tasks[run].process;
    assert SettledByRight(s.tasks, run, RegistryOf(s, p).entries[run]);
  }

  /** The run's own finalize is what settles its promise exactly if nothing settled it before
      and the execution is still in the table. */
  lemma OwnFinalizeSettlesExactlyWhen(s: State, run: RunId)
    requires Safe(s) && SettledRight(s) && CanRun(s, FinalizeRun(run)) && s.tasks[run].fate.Finished?
    ensures SettlementOf(NextRun(s, FinalizeRun(run)), run) == Some(ResultOf(run)) <==>
            SettlementOf(s, run).None? && s.tasks[run].execution in RegistryOf(s, s.tasks[run].process).active
  {
    var t := s.tasks[run];
    var reg := RegistryOf(s, t.process);
    assert RegistryPlaced(s.tasks, t.process, reg) && RunPlaced(t, reg, run);
    assert SettledByRight(s.tasks, run, reg.entries[run]);
    RunChangesRegistry(s, FinalizeRun(run));
    SettlesExactly(reg, t.execution, ResultOf(run), run);
    if t.execution in reg.active {
      FinishedRunLeads(t, reg, run);
    }
  }

  /** A finished child, past its finalize, gets to hand its output to its parent if and only
      if it has one that does not ask to be left alone, and its own finalize was what settled
      its promise. It does not if the promise had been
      settled by an earlier run of it that had gone to wait and finalized late, nor if it had
      been cancelled. */
  lemma HandsOffExactlyWhenItSettled(limit: Option<nat>, actions: seq<Action>, run: RunId)
    requires Feasible(Initial(limit), actions)
    requires var s := After(Initial(limit), actions);
             IsAt(s, run, Settling) && s.tasks[run].fate.Finished? && s.tasks[run].execution in s.rows
    ensures var s := After(Initial(limit), actions);
            var parent := s.rows[s.tasks[run].execution].parent;
            CanHandOff(s, ReadParent(run)) <==>
            && parent.Some? && parent.value.shouldResume != Some(false)
            && SettlementOf(s, run) == Some(ResultOf(run))
    ensures var s := After(Initial(limit), actions);
            var parent := s.rows[s.tasks[run].execution].parent;
            parent.Some? && parent.value.shouldResume != Some(false) && !CanHandOff(s, ReadParent(run)) ==>
              match SettlementOf(s, run)
              case None => true
              case Some(Rejected) => true
              case Some(ResultOf(earlier)) =>
                earlier != run && earlier in s.tasks && s.tasks[earlier].fate == Waited
                && s.tasks[earlier].execution == s.tasks[run].execution
  {
    InitiallySafe(limit);
    InitiallySettledRight(limit);
    AlwaysSettledRight(Initial(limit), actions);
    var s := After(Initial(limit), actions);
    var p := s.tasks[run].process;
    if HasResult(s, run) {
      FinishedResultIsOwn(s, run);
    }
    if run in RegistryOf(s, p).entries {
      assert SettledByRight(s.tasks, run, RegistryOf(s, p).entries[run]);
      assert RunPlaced(s.tasks[run], RegistryOf(s, p), run);
    }
  }

  /** Once settled, a promise stays as it is, through every step of the system. */
  lemma SettlementsStay(s: State, a: Action, run: RunId)
    requires Safe(s) && Can(s, a) && run in s.tasks && SettlementOf(s, run).Some?
    ensures run in Next(s, a).tasks && SettlementOf(Next(s, a), run) == SettlementOf(s, run)
  {
    var p := s.tasks[run].process;
    var reg := RegistryOf(s, p);
    assert RegistryPlaced(s.tasks, p, reg);
    StepFollowsRegistry(s, a, p);
    SameProcess(s, a, run);
    if EventAt(s, a, p).Some? {
      EventKeepsSettlement(reg, EventAt(s, a, p).value, run);
    }
  }

  lemma SameProcess(s: State, a: Action, run: RunId)
    requires Can(s, a) && run in s.tasks
    ensures run in Next(s, a).tasks && Next(s, a).tasks[run].process == s.tasks[run].process
  {
    match a
    case Adding(add) => AddKeepsProcess(s, add, run);
    case InRun(step) => RunKeepsProcess(s, step, run);
    case HandingOff(handoff) => HandOffMovesOne(s, handoff);
    case Outside(_) =>
  }

  lemma AddKeepsProcess(s: State, a: AddAction, run: RunId)
    requires CanAdd(s, a) && run in s.tasks
    ensures run in NextAdd(s, a).tasks && NextAdd(s, a).tasks[run].process == s.tasks[run].process
  {
  }

  lemma RunKeepsProcess(s: State, a: RunAction, run: RunId)
    requires CanRun(s, a) && run in s.tasks
    ensures run in NextRun(s, a).tasks && NextRun(s, a).tasks[run].process == s.tasks[run].process
  {
    match a
    case SaveFinished(finished, result) => FinishingChanges(s, finished, result);
    case _ =>
  }

  lemma EventKeepsSettlement(reg: Registry, e: Event, run: RunId)
    requires Valid(reg) && Enabled(reg, e) && run in reg.entries && reg.entries[run].settled.Some?
    ensures run in Apply(reg, e).entries && Apply(reg, e).entries[run].settled == reg.entries[run].settled
  {
    match e
    case Handled(other) => HandlerKeepsSettlement(reg, other, run);
    case ShutDown(regular, cancelAll, ids) =>
      var start := if regular then Disable(reg) else reg;
      assert Valid(start);
      SweepKeepsSettlement(start, ids, regular && cancelAll, run);
    case _ =>
  }

  lemma HandlerKeepsSettlement(reg: Registry, other: RunId, run: RunId)
    requires other in reg.entries && run in reg.entries
    ensures run in Handle(reg, other).entries && Handle(reg, other).entries[run].settled == reg.entries[run].settled
  {
  }

  lemma {:induction false} SweepKeepsSettlement(reg: Registry, ids: seq<ExecutionId>, cancel: bool, run: RunId)
    requires Valid(reg) && run in reg.entries && reg.entries[run].settled.Some?
    ensures var after := Sweep(reg, ids, cancel);
            run in after.entries && after.entries[run].settled == reg.entries[run].settled
  {
    if ids != [] {
      SweepValid(reg, ids[..|ids| - 1], cancel);
      SweepKeepsSettlement(reg, ids[..|ids| - 1], cancel, run);
    }
  }

  /** Past its finalize, whether a run settled its own promise no longer changes. */
  lemma OwnSettlementFixed(s: State, a: Action, run: RunId)
    requires Safe(s) && Can(s, a) && run in s.tasks && PastFinalize(s.tasks[run])
    ensures run in Next(s, a).tasks && PastFinalize(Next(s, a).tasks[run])
    ensures Next(s, a).tasks[run].fate == s.tasks[run].fate
    ensures SettlementOf(Next(s, a), run) == Some(ResultOf(run)) <==> SettlementOf(s, run) == Some(ResultOf(run))
  {
    var p := s.tasks[run].process;
    StepKeepsPast(s, a);
    SameProcess(s, a, run);
    if SettlementOf(s, run).Some? {
      SettlementsStay(s, a, run);
    } else if a.InRun? && a.step.FinalizeRun? {
      FinalizeSparesOwn(s, a.step.run, run);
    } else {
      StepSettlesNothing(s, a, p);
    }
  }

  lemma FinalizeSparesOwn(s: State, other: RunId, run: RunId)
    requires Safe(s) && CanRun(s, FinalizeRun(other)) && run in s.tasks && other != run
    requires SettlementOf(s, run).None?
    ensures SettlementOf(NextRun(s, FinalizeRun(other)), run) != Some(ResultOf(run))
  {
    var p := s.tasks[run].process;
    var reg := RegistryOf(s, p);
    assert RegistryPlaced(s.tasks, p, reg);
    SameProcess(s, InRun(FinalizeRun(other)), run);
    if s.tasks[other].process == p {
      RunChangesRegistry(s, FinalizeRun(other));
      if run in reg.entries {
        SettlesExactly(reg, s.tasks[other].execution, ResultOf(other), run);
      }
    } else {
      RunSparesOtherProcesses(s, FinalizeRun(other), p);
    }
  }

  lemma {:induction false} OwnSettlementStaysFixed(s: State, actions: seq<Action>, run: RunId)
    requires Safe(s) && Feasible(s, actions) && run in s.tasks && PastFinalize(s.tasks[run])
    ensures var end := After(s, actions);
            && run in end.tasks && end.tasks[run].fate == s.tasks[run].fate
            && (SettlementOf(end, run) == Some(ResultOf(run)) <==> SettlementOf(s, run) == Some(ResultOf(run)))
    decreases |actions|
  {
    if actions != [] {
      OwnSettlementFixed(s, actions[0], run);
      StepKeepsSafe(s, actions[0]);
      OwnSettlementStaysFixed(Next(s, actions[0]), actions[1..], run);
    }
  }

  /** Whether a finished child with a parent to wake gets to hand its output over is decided
      when it finalizes: it does if and only if its promise was open then, and the execution still in the table,
      whatever happens between that and the handoff. */
  lemma HandsOffExactlyWhenFirst(limit: Option<nat>, before: seq<Action>, run: RunId, after: seq<Action>)
    requires Feasible(Initial(limit), before)
    requires var s := After(Initial(limit), before);
             && CanRun(s, FinalizeRun(run)) && s.tasks[run].fate.Finished?
             && Feasible(Next(s, InRun(FinalizeRun(run))), after)
    requires var end := After(Next(After(Initial(limit), before), InRun(FinalizeRun(run))), after);
             IsAt(end, run, Settling) && end.tasks[run].execution in end.rows
    ensures var s := After(Initial(limit), before);
            var end := After(Next(s, InRun(FinalizeRun(run))), after);
            var parent := end.rows[end.tasks[run].execution].parent;
            CanHandOff(end, ReadParent(run)) <==>
            && parent.Some? && parent.value.shouldResume != Some(false)
            && SettlementOf(s, run).None? && s.tasks[run].execution in RegistryOf(s, s.tasks[run].process).active
  {
    InitiallySafe(limit);
    InitiallySettledRight(limit);
    AlwaysSettledRight(Initial(limit), before);
    var s := After(Initial(limit), before);
    var finalized := Next(s, InRun(FinalizeRun(run)));
    OwnFinalizeSettlesExactlyWhen(s, run);
    FinalizeMoves(s, run);
    StepKeepsSafe(s, InRun(FinalizeRun(run)));
    StepKeepsSettledRight(s, InRun(FinalizeRun(run)));
    OwnSettlementStaysFixed(finalized, after, run);
    AlwaysSettledRight(finalized, after);
    var end := After(finalized, after);
    if HasResult(end, run) {
      FinishedResultIsOwn(end, run);
    }
  }
}
