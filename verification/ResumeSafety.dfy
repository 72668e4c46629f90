/** Safety of resuming: one owner at a time, one resume per waiting period, and a
    registry in every process that the protocol keeps as its own proofs ask for. */
module ResumeSafety {
  import opened Wrappers
  import opened ExecutionRegistry
  import opened ResumeProtocol
  import RegistryRuns

  // ---------- Ownership of the running phase ----------

  /** From the moment the row is made or switched to running for it, until its outcome is
      in the row, a run owns its execution. */
  predicate Owns(pc: Pc) {
    pc == Created || pc == CreatedReserved || pc == Claimed || pc == Active || pc == Suspending
  }

  predicate BeforeOutcome(pc: Pc) {
    Owns(pc) || pc.Starting? || pc.Fetched? || pc.ToResume?
  }

  ghost predicate Ownership(s: State) {
    && (forall run :: run in s.tasks && BeforeOutcome(s.tasks[run].pc) ==> s.tasks[run].fate == Open)
    && (forall run :: run in s.tasks && (Owns(s.tasks[run].pc) || s.tasks[run].fate.Finished?) ==>
                        s.tasks[run].execution in s.rows && s.rows[s.tasks[run].execution].status != Waiting)
    && (forall r1, r2 :: r1 in s.tasks && r2 in s.tasks && r1 != r2
                         && (Owns(s.tasks[r1].pc) || s.tasks[r1].fate.Finished?) && Owns(s.tasks[r2].pc) ==>
                           s.tasks[r1].execution != s.tasks[r2].execution)
  }

  /** Nobody gains an execution and no row begins to wait. */
  ghost predicate GainsNothing(s: State, s': State) {
    && (forall run :: run in s'.tasks && run in s.tasks ==>
                        && s'.tasks[run].execution == s.tasks[run].execution
                        && s'.tasks[run].fate == s.tasks[run].fate
                        && (Owns(s'.tasks[run].pc) ==> Owns(s.tasks[run].pc))
                        && (BeforeOutcome(s'.tasks[run].pc) ==> BeforeOutcome(s.tasks[run].pc)))
    && (forall run :: run in s'.tasks && run !in s.tasks ==> !Owns(s'.tasks[run].pc) && s'.tasks[run].fate == Open)
    && (forall id :: id in s.rows ==> id in s'.rows && (s'.rows[id].status == Waiting ==> s.rows[id].status == Waiting))
  }

  lemma GainingNothingKeepsOwnership(s: State, s': State)
    requires Ownership(s) && GainsNothing(s, s')
    ensures Ownership(s')
  {
  }

  /** One run moves on without taking anything over. */
  lemma MovingGainsNothing(s: State, s': State, run: RunId)
    requires run in s.tasks && run in s'.tasks && s'.tasks == s.tasks[run := s.tasks[run].(pc := s'.tasks[run].pc)]
    requires Owns(s'.tasks[run].pc) ==> Owns(s.tasks[run].pc)
    requires BeforeOutcome(s'.tasks[run].pc) ==> BeforeOutcome(s.tasks[run].pc)
    requires forall id :: id in s.rows ==>
        id in s'.rows && (s'.rows[id].status == Waiting ==> s.rows[id].status == Waiting)
    ensures GainsNothing(s, s')
  {
  }

  lemma AddGainsNothing(s: State, a: AddAction)
    requires CanAdd(s, a) && !a.Create? && !a.CompareAndSet?
    ensures GainsNothing(s, NextAdd(s, a))
  {
    match a
    case Begin(run, _, _, _) =>
    case Fetch(run) => MovingGainsNothing(s, FetchStep(s, run), run);
    case TakeCapacity(run) => MovingGainsNothing(s, TakeCapacityStep(s, run), run);
    case AddFails(run) => MovingGainsNothing(s, AddFailsStep(s, run), run);
    case StartNew(run, _) => MovingGainsNothing(s, NextAdd(s, a), run);
    case RegisterRun(run, _) => MovingGainsNothing(s, NextAdd(s, a), run);
  }

  lemma AddKeepsOwnership(s: State, a: AddAction)
    requires Ownership(s) && CanAdd(s, a)
    ensures Ownership(NextAdd(s, a))
  {
    if a.Create? {
      CreateKeepsOwnership(s, a);
    } else if a.CompareAndSet? {
      CompareAndSetKeepsOwnership(s, a.run);
    } else {
      AddGainsNothing(s, a);
      GainingNothingKeepsOwnership(s, NextAdd(s, a));
    }
  }

  lemma CreateKeepsOwnership(s: State, a: AddAction)
    requires Ownership(s) && CanAdd(s, a) && a.Create?
    ensures Ownership(NextAdd(s, a))
  {
  }

  lemma CompareAndSetKeepsOwnership(s: State, run: RunId)
    requires Ownership(s) && CanAdd(s, CompareAndSet(run))
    ensures Ownership(CompareAndSetStep(s, run))
  {
    var id := s.tasks[run].execution;
    if !(id in s.rows && s.rows[id].status == Waiting) {
      GainingNothingKeepsOwnership(s, CompareAndSetStep(s, run));
    }
  }

  lemma RunGainsNothing(s: State, a: RunAction)
    requires CanRun(s, a) && !a.SaveWaiting? && !a.SaveFinished?
    ensures GainsNothing(s, NextRun(s, a))
  {
  }

  lemma SaveWaitingKeepsOwnership(s: State, run: RunId, stack: Stack)
    requires Ownership(s) && CanRun(s, SaveWaiting(run, stack))
    ensures Ownership(SaveWaitingStep(s, run, stack))
  {
  }

  lemma SaveFinishedKeepsOwnership(s: State, run: RunId, result: RunResult)
    requires Ownership(s) && CanRun(s, SaveFinished(run, result))
    ensures Ownership(SaveFinishedStep(s, run, result))
  {
  }

  lemma RunKeepsOwnership(s: State, a: RunAction)
    requires Ownership(s) && CanRun(s, a)
    ensures Ownership(NextRun(s, a))
  {
    match a
    case SaveWaiting(run, stack) => SaveWaitingKeepsOwnership(s, run, stack);
    case SaveFinished(run, result) => SaveFinishedKeepsOwnership(s, run, result);
    case _ =>
      RunGainsNothing(s, a);
      GainingNothingKeepsOwnership(s, NextRun(s, a));
  }

  lemma HandOffGainsNothing(s: State, a: HandoffAction)
    requires CanHandOff(s, a)
    ensures GainsNothing(s, NextHandOff(s, a))
  {
    match a
    case ReadParent(run) => MovingGainsNothing(s, ReadParentStep(s, run), run);
    case WriteParent(run) => MovingGainsNothing(s, WriteParentStep(s, run), run);
    case ResumeParent(run, newRun) => ResumingParentGainsNothing(s, run, newRun);
  }

  lemma ResumingParentGainsNothing(s: State, run: RunId, newRun: RunId)
    requires CanHandOff(s, ResumeParent(run, newRun))
    ensures GainsNothing(s, NextHandOff(s, ResumeParent(run, newRun)))
  {
    MovingGainsNothing(s, At(s, run, Ended), run);
    StartingGainsNothing(s, At(s, run, Ended), NextHandOff(s, ResumeParent(run, newRun)), newRun);
  }

  /** And another run starts. */
  lemma StartingGainsNothing(s: State, s': State, s'': State, run: RunId)
    requires GainsNothing(s, s') && run !in s.tasks && run !in s'.tasks && s''.rows == s'.rows
    requires run in s''.tasks && s''.tasks == s'.tasks[run := s''.tasks[run]]
    requires s''.tasks[run].pc.Starting? && s''.tasks[run].fate == Open
    ensures GainsNothing(s, s'')
  {
  }

  lemma HandOffKeepsOwnership(s: State, a: HandoffAction)
    requires Ownership(s) && CanHandOff(s, a)
    ensures Ownership(NextHandOff(s, a))
  {
    HandOffGainsNothing(s, a);
    GainingNothingKeepsOwnership(s, NextHandOff(s, a));
  }

  lemma OutsideKeepsOwnership(s: State, a: OutsideAction)
    requires Ownership(s) && CanOutside(s, a)
    ensures Ownership(NextOutside(s, a))
  {
    assert GainsNothing(s, NextOutside(s, a));
    GainingNothingKeepsOwnership(s, NextOutside(s, a));
  }

  lemma StepKeepsOwnership(s: State, a: Action)
    requires Ownership(s) && Can(s, a)
    ensures Ownership(Next(s, a))
  {
    match a
    case Adding(add) => AddKeepsOwnership(s, add);
    case InRun(step) => RunKeepsOwnership(s, step);
    case HandingOff(handoff) => HandOffKeepsOwnership(s, handoff);
    case Outside(outside) => OutsideKeepsOwnership(s, outside);
  }

  // ---------- Runs and the registries of their processes ----------

  /** Where a run stands in its process's registry at each point of its course. */
  ghost predicate RunPlaced(t: Task, reg: Registry, run: RunId) {
    match t.pc
    case Created => run !in reg.held && run !in reg.entries
    case Starting(_) => run !in reg.held && run !in reg.entries
    case Fetched(_, _) => run !in reg.held && run !in reg.entries
    case CreatedReserved => run in reg.held && run !in reg.entries
    case ToResume(_, _) => run in reg.held && run !in reg.entries
    case Claimed => run in reg.held && run !in reg.entries
    case Active => InProgress(t, reg, run) && reg.entries[run].status == Running
    case Suspending => InProgress(t, reg, run) && reg.entries[run].status == Waiting
    case OverRow => run in reg.entries && reg.entries[run].executionId == t.execution && t.fate != Open
                    && if t.fate == Waited then reg.entries[run].status == Waiting else InProgress(t, reg, run)
    case _ =>
      if run in reg.entries then
        reg.entries[run].executionId == t.execution && t.fate != Open
            && (t.fate == Waited ==> reg.entries[run].status == Waiting)
      else run !in reg.held
  }

  /** In the table under its execution id, unless it was removed from there. */
  ghost predicate InProgress(t: Task, reg: Registry, run: RunId) {
    && run in reg.entries && reg.entries[run].executionId == t.execution
    && (t.execution in reg.active ==> reg.active[t.execution] == run)
  }

  ghost predicate RegistryPlaced(tasks: map<RunId, Task>, p: ProcessId, reg: Registry) {
    && Valid(reg)
    && (forall run :: run in reg.held || run in reg.entries ==> run in tasks && tasks[run].process == p)
  }

  ghost predicate Placed(s: State) {
    && (forall p :: RegistryPlaced(s.tasks, p, RegistryOf(s, p)))
    && (forall run :: run in s.tasks ==> RunPlaced(s.tasks[run], RegistryOf(s, s.tasks[run].process), run))
  }

  /** From `reg` to `reg'` nothing changes that a run's place depends on, but that the
      table may have lost its execution. */
  ghost predicate SamePlace(reg: Registry, reg': Registry, run: RunId) {
    && (run in reg'.entries <==> run in reg.entries)
    && (run in reg.entries ==>
          && reg'.entries[run].executionId == reg.entries[run].executionId
          && reg'.entries[run].status == reg.entries[run].status
          && (reg.entries[run].executionId in reg'.active ==>
                reg.entries[run].executionId in reg.active
                && reg'.active[reg.entries[run].executionId] == reg.active[reg.entries[run].executionId]))
    && (run !in reg.entries ==> (run in reg'.held <==> run in reg.held))
  }

  lemma SamePlaceKeepsPlace(t: Task, reg: Registry, reg': Registry, run: RunId)
    requires RunPlaced(t, reg, run) && SamePlace(reg, reg', run)
    ensures RunPlaced(t, reg', run)
  {
  }

  /** One process's registry and one of its runs change. */
  lemma PlacedAfter(s: State, s': State, run: RunId, reg': Registry)
    requires Placed(s) && run in s.tasks && run in s'.tasks
    requires s'.tasks == s.tasks[run := s'.tasks[run]] && s'.tasks[run].process == s.tasks[run].process
    requires s'.limit == s.limit && s'.registries == s.registries[s.tasks[run].process := reg']
    requires Valid(reg') && reg'.held <= RegistryOf(s, s.tasks[run].process).held + {run}
    requires reg'.entries.Keys <= RegistryOf(s, s.tasks[run].process).entries.Keys + {run}
    requires RunPlaced(s'.tasks[run], reg', run)
    requires forall other :: other in s.tasks && other != run && s.tasks[other].process == s.tasks[run].process ==>
                               RunPlaced(s.tasks[other], reg', other)
    ensures Placed(s')
  {
    var p := s.tasks[run].process;
    forall q
      ensures RegistryPlaced(s'.tasks, q, RegistryOf(s', q))
    {
      assert RegistryPlaced(s.tasks, q, RegistryOf(s, q));
      assert q != p ==> RegistryOf(s', q) == RegistryOf(s, q);
    }
    forall other | other in s'.tasks
      ensures RunPlaced(s'.tasks[other], RegistryOf(s', s'.tasks[other].process), other)
    {
      assert s'.tasks[other].process != p ==>
          RegistryOf(s', s'.tasks[other].process) == RegistryOf(s, s.tasks[other].process);
    }
  }

  /** Only one process's registry changes, for all its runs in a way that keeps their place. */
  lemma PlacedAfterRegistry(s: State, p: ProcessId, reg': Registry)
    requires Placed(s) && Valid(reg')
    requires reg'.held <= RegistryOf(s, p).held && reg'.entries.Keys <= RegistryOf(s, p).entries.Keys
    requires forall run :: run in s.tasks && s.tasks[run].process == p ==> SamePlace(RegistryOf(s, p), reg', run)
    ensures Placed(WithRegistry(s, p, reg'))
  {
    var s' := WithRegistry(s, p, reg');
    forall q
      ensures RegistryPlaced(s'.tasks, q, RegistryOf(s', q))
    {
      assert RegistryPlaced(s.tasks, q, RegistryOf(s, q));
      assert q != p ==> RegistryOf(s', q) == RegistryOf(s, q);
    }
    forall run | run in s'.tasks
      ensures RunPlaced(s'.tasks[run], RegistryOf(s', s'.tasks[run].process), run)
    {
      if s.tasks[run].process == p {
        SamePlaceKeepsPlace(s.tasks[run], RegistryOf(s, p), reg', run);
      } else {
        assert RegistryOf(s', s.tasks[run].process) == RegistryOf(s, s.tasks[run].process);
      }
    }
  }

  /** Only one run changes, and not what its place depends on. */
  lemma PlacedAfterRun(s: State, s': State, run: RunId)
    requires Placed(s) && run in s.tasks && run in s'.tasks
    requires s'.tasks == s.tasks[run := s'.tasks[run]] && s'.tasks[run].process == s.tasks[run].process
    requires s'.limit == s.limit && s'.registries == s.registries
    requires RunPlaced(s'.tasks[run], RegistryOf(s, s.tasks[run].process), run)
    ensures Placed(s')
  {
    forall q
      ensures RegistryPlaced(s'.tasks, q, RegistryOf(s', q))
    {
      assert RegistryPlaced(s.tasks, q, RegistryOf(s, q));
    }
  }

  /** A run starts that no registry knows yet. */
  lemma PlacedAfterStart(s: State, s': State, run: RunId)
    requires Placed(s) && run !in s.tasks && run in s'.tasks
    requires s'.tasks == s.tasks[run := s'.tasks[run]] && (s'.tasks[run].pc == Created || s'.tasks[run].pc.Starting?)
    requires s'.limit == s.limit && s'.registries == s.registries
    ensures Placed(s')
  {
    forall q
      ensures RegistryPlaced(s'.tasks, q, RegistryOf(s', q))
      ensures run !in RegistryOf(s, q).held && run !in RegistryOf(s, q).entries
    {
      assert RegistryPlaced(s.tasks, q, RegistryOf(s, q));
    }
  }

  // ---------- Registering ----------

  /** Whoever registers a run has the execution to itself: all its earlier runs in the
      process have gone to wait, or are over. */
  lemma RegistersAmongWaiting(s: State, run: RunId)
    requires Ownership(s) && Placed(s) && IsAt(s, run, Claimed)
    ensures EarlierRunsWait(RegistryOf(s, s.tasks[run].process), s.tasks[run].execution)
  {
    var p := s.tasks[run].process;
    var reg := RegistryOf(s, p);
    assert RegistryPlaced(s.tasks, p, reg);
    forall other | other in reg.entries && reg.entries[other].executionId == s.tasks[run].execution
        && !reg.entries[other].handled
      ensures reg.entries[other].status == Waiting
    {
      assert RunPlaced(s.tasks[other], reg, other);
      assert s.tasks[other].execution == s.tasks[run].execution;
      assert other != run;
    }
  }

  /** The runs the new one supersedes have let go of their place already. */
  lemma RegisterSparesPlace(s: State, run: RunId, now: int, other: RunId)
    requires Ownership(s) && Placed(s) && IsAt(s, run, Claimed)
    requires other in s.tasks && other != run && s.tasks[other].process == s.tasks[run].process
    ensures RunPlaced(s.tasks[other],
        Register(RegistryOf(s, s.tasks[run].process), run, s.tasks[run].execution, now), other)
  {
    assert RunPlaced(s.tasks[other], RegistryOf(s, s.tasks[run].process), other);
  }

  lemma RegisterKeepsPlaced(s: State, run: RunId, now: int)
    requires Ownership(s) && Placed(s) && CanAdd(s, RegisterRun(run, now))
    ensures Placed(NextAdd(s, RegisterRun(run, now)))
  {
    var t := s.tasks[run];
    var reg := RegistryOf(s, t.process);
    var reg' := Register(reg, run, t.execution, now);
    assert RegistryPlaced(s.tasks, t.process, reg) && RunPlaced(t, reg, run);
    RegistersAmongWaiting(s, run);
    ApplyValid(reg, Registered(run, t.execution, now));
    forall other | other in s.tasks && other != run && s.tasks[other].process == t.process
      ensures RunPlaced(s.tasks[other], reg', other)
    {
      RegisterSparesPlace(s, run, now, other);
    }
    PlacedAfter(s, NextAdd(s, RegisterRun(run, now)), run, reg');
  }

  lemma TakeCapacityKeepsPlaced(s: State, run: RunId)
    requires Placed(s) && CanAdd(s, TakeCapacity(run))
    ensures Placed(TakeCapacityStep(s, run))
  {
    var t := s.tasks[run];
    var reg := RegistryOf(s, t.process);
    var reg' := Reserve(reg, run);
    assert RegistryPlaced(s.tasks, t.process, reg) && RunPlaced(t, reg, run);
    ReserveValid(reg, run);
    forall other | other in s.tasks && other != run && s.tasks[other].process == t.process
      ensures RunPlaced(s.tasks[other], reg', other)
    {
      SamePlaceKeepsPlace(s.tasks[other], reg, reg', other);
    }
    PlacedAfter(s, TakeCapacityStep(s, run), run, reg');
  }

  lemma AddFailsKeepsPlaced(s: State, run: RunId)
    requires Placed(s) && run in s.tasks && run !in RegistryOf(s, s.tasks[run].process).entries
    ensures Placed(AddFailsStep(s, run))
  {
    var t := s.tasks[run];
    var reg := RegistryOf(s, t.process);
    var reg' := Release(reg, run);
    assert RegistryPlaced(s.tasks, t.process, reg);
    ReleaseValid(reg, run);
    forall other | other in s.tasks && other != run && s.tasks[other].process == t.process
      ensures RunPlaced(s.tasks[other], reg', other)
    {
      SamePlaceKeepsPlace(s.tasks[other], reg, reg', other);
    }
    PlacedAfter(s, AddFailsStep(s, run), run, reg');
  }

  lemma FetchKeepsPlaced(s: State, run: RunId)
    requires Placed(s) && CanAdd(s, Fetch(run))
    ensures Placed(FetchStep(s, run))
  {
    assert RunPlaced(s.tasks[run], RegistryOf(s, s.tasks[run].process), run);
    PlacedAfterRun(s, FetchStep(s, run), run);
  }

  lemma StartNewKeepsPlaced(s: State, run: RunId, regularMode: bool)
    requires Placed(s) && CanAdd(s, StartNew(run, regularMode))
    ensures Placed(NextAdd(s, StartNew(run, regularMode)))
  {
    assert RunPlaced(s.tasks[run], RegistryOf(s, s.tasks[run].process), run);
    PlacedAfterRun(s, NextAdd(s, StartNew(run, regularMode)), run);
  }

  lemma CompareAndSetKeepsPlaced(s: State, run: RunId)
    requires Placed(s) && CanAdd(s, CompareAndSet(run))
    ensures Placed(CompareAndSetStep(s, run))
  {
    assert RunPlaced(s.tasks[run], RegistryOf(s, s.tasks[run].process), run);
    if s.tasks[run].execution in s.rows && s.rows[s.tasks[run].execution].status == Waiting {
      PlacedAfterRun(s, CompareAndSetStep(s, run), run);
    } else {
      AddFailsKeepsPlaced(s, run);
    }
  }

  lemma AddKeepsPlaced(s: State, a: AddAction)
    requires Ownership(s) && Placed(s) && CanAdd(s, a)
    ensures Placed(NextAdd(s, a))
  {
    match a
    case Create(run, _, _, _, _) => PlacedAfterStart(s, NextAdd(s, a), run);
    case Begin(run, _, _, _) => PlacedAfterStart(s, NextAdd(s, a), run);
    case Fetch(run) => FetchKeepsPlaced(s, run);
    case TakeCapacity(run) => TakeCapacityKeepsPlaced(s, run);
    case AddFails(run) =>
      assert RunPlaced(s.tasks[run], RegistryOf(s, s.tasks[run].process), run);
      AddFailsKeepsPlaced(s, run);
    case StartNew(run, regularMode) => StartNewKeepsPlaced(s, run, regularMode);
    case CompareAndSet(run) => CompareAndSetKeepsPlaced(s, run);
    case RegisterRun(run, now) => RegisterKeepsPlaced(s, run, now);
  }

  // ---------- Registered runs ----------

  lemma SetStatusSamePlace(reg: Registry, id: ExecutionId, status: Status, other: RunId)
    requires Valid(reg) && id in reg.active && other != reg.active[id]
    ensures SamePlace(reg, SetStatus(reg, id, status), other)
  {
  }

  lemma SuspendPlaces(t: Task, reg: Registry, run: RunId)
    requires Valid(reg) && t.pc == Active && RunPlaced(t, reg, run) && t.execution in reg.active
    ensures reg.active[t.execution] == run && Valid(SetStatus(reg, t.execution, Waiting))
    ensures SetStatus(reg, t.execution, Waiting)
        == reg.(entries := reg.entries[run := reg.entries[run].(status := Waiting)])
    ensures RunPlaced(t.(pc := Suspending), SetStatus(reg, t.execution, Waiting), run)
  {
    ApplyValid(reg, StatusSet(t.execution, Waiting));
  }

  lemma SuspendKeepsPlaced(s: State, run: RunId)
    requires Placed(s) && CanRun(s, Suspend(run))
    ensures Placed(NextRun(s, Suspend(run)))
  {
    var t := s.tasks[run];
    var reg := RegistryOf(s, t.process);
    assert RegistryPlaced(s.tasks, t.process, reg);
    SuspendPlaces(t, reg, run);
    var reg' := SetStatus(reg, t.execution, Waiting);
    forall other | other in s.tasks && other != run && s.tasks[other].process == t.process
      ensures RunPlaced(s.tasks[other], reg', other)
    {
      SetStatusSamePlace(reg, t.execution, Waiting, other);
      SamePlaceKeepsPlace(s.tasks[other], reg, reg', other);
    }
    PlacedAfter(s, NextRun(s, Suspend(run)), run, reg');
  }

  lemma SettleSamePlace(reg: Registry, id: ExecutionId, f: Entry -> Entry)
    requires Valid(reg)
    requires forall e: Entry :: f(e).executionId == e.executionId && f(e).status == e.status
    ensures forall run :: SamePlace(reg, Update(reg, id, f), run)
  {
  }

  lemma FinalizeSparesPlace(s: State, p: ProcessId, id: ExecutionId, how: Settlement, other: RunId)
    requires Placed(s) && other in s.tasks && s.tasks[other].process == p
    ensures RunPlaced(s.tasks[other], Settle(RegistryOf(s, p), id, how), other)
  {
    var reg := RegistryOf(s, p);
    assert RegistryPlaced(s.tasks, p, reg);
    SettleSamePlace(reg, id, Settled(how));
    SamePlaceKeepsPlace(s.tasks[other], reg, Settle(reg, id, how), other);
  }

  lemma SettleKeepsRuns(reg: Registry, id: ExecutionId, how: Settlement)
    ensures Settle(reg, id, how).held == reg.held && Settle(reg, id, how).entries.Keys == reg.entries.Keys
  {
  }

  lemma FinalizeChanges(s: State, run: RunId)
    requires CanRun(s, FinalizeRun(run))
    ensures var s', t := NextRun(s, FinalizeRun(run)), s.tasks[run];
            var reg' := Finalize(RegistryOf(s, t.process), t.execution, run);
            && s'.tasks == s.tasks[run := t.(pc := Settling)] && s'.limit == s.limit
            && s'.registries == s.registries[t.process := reg']
  {
  }

  lemma SettlingStaysPlaced(t: Task, reg: Registry, run: RunId)
    requires t.pc == OverRow && RunPlaced(t, reg, run)
    ensures RunPlaced(t.(pc := Settling), reg, run)
  {
  }

  lemma FinalizeKeepsPlaced(s: State, run: RunId)
    requires Placed(s) && CanRun(s, FinalizeRun(run))
    ensures Placed(NextRun(s, FinalizeRun(run)))
  {
    var t := s.tasks[run];
    var reg := RegistryOf(s, t.process);
    var reg' := Finalize(reg, t.execution, run);
    assert RegistryPlaced(s.tasks, t.process, reg);
    ApplyValid(reg, Finalized(t.execution, run));
    forall other | other in s.tasks && s.tasks[other].process == t.process
      ensures RunPlaced(s.tasks[other], reg', other)
    {
      FinalizeSparesPlace(s, t.process, t.execution, ResultOf(run), other);
    }
    SettlingStaysPlaced(t, reg', run);
    SettleKeepsRuns(reg, t.execution, ResultOf(run));
    FinalizeChanges(s, run);
    PlacedAfter(s, NextRun(s, FinalizeRun(run)), run, reg');
  }

  lemma HandleSamePlace(reg: Registry, run: RunId)
    requires Valid(reg) && run in reg.entries
    ensures forall other :: SamePlace(reg, Handle(reg, run), other)
    ensures Handle(reg, run).held <= reg.held && Handle(reg, run).entries.Keys == reg.entries.Keys
  {
  }

  lemma HandlerKeepsPlaced(s: State, run: RunId)
    requires Placed(s) && CanRun(s, RunHandler(run))
    ensures Placed(NextRun(s, RunHandler(run)))
  {
    var p := s.tasks[run].process;
    var reg := RegistryOf(s, p);
    assert RegistryPlaced(s.tasks, p, reg);
    ApplyValid(reg, Handled(run));
    HandleSamePlace(reg, run);
    PlacedAfterRegistry(s, p, Handle(reg, run));
  }

  lemma SaveWaitingKeepsPlaced(s: State, run: RunId, stack: Stack)
    requires Placed(s) && CanRun(s, SaveWaiting(run, stack))
    ensures Placed(SaveWaitingStep(s, run, stack))
  {
    assert RunPlaced(s.tasks[run], RegistryOf(s, s.tasks[run].process), run);
    PlacedAfterRun(s, SaveWaitingStep(s, run, stack), run);
  }

  lemma FinishingStaysPlaced(t: Task, reg: Registry, run: RunId, result: RunResult)
    requires (t.pc == Active || t.pc == Suspending) && RunPlaced(t, reg, run)
    ensures RunPlaced(t.(pc := OverRow, fate := Finished(result)), reg, run)
  {
  }

  lemma FinishingChanges(s: State, run: RunId, result: RunResult)
    requires CanRun(s, SaveFinished(run, result))
    ensures var s' := SaveFinishedStep(s, run, result);
            && s'.tasks == s.tasks[run := s.tasks[run].(pc := OverRow, fate := Finished(result))]
            && s'.limit == s.limit && s'.registries == s.registries
  {
  }

  lemma SaveFinishedKeepsPlaced(s: State, run: RunId, result: RunResult)
    requires Placed(s) && CanRun(s, SaveFinished(run, result))
    ensures Placed(SaveFinishedStep(s, run, result))
  {
    var t := s.tasks[run];
    FinishingStaysPlaced(t, RegistryOf(s, t.process), run, result);
    FinishingChanges(s, run, result);
    PlacedAfterRun(s, SaveFinishedStep(s, run, result), run);
  }

  lemma RunKeepsPlaced(s: State, a: RunAction)
    requires Placed(s) && CanRun(s, a)
    ensures Placed(NextRun(s, a))
  {
    match a
    case MarkRunning(run) => PlacedAfterRun(s, NextRun(s, a), run);
    case Suspend(run) => SuspendKeepsPlaced(s, run);
    case SaveWaiting(_, stack) => SaveWaitingKeepsPlaced(s, a.run, stack);
    case SaveFinished(_, result) => SaveFinishedKeepsPlaced(s, a.run, result);
    case FinalizeRun(run) => FinalizeKeepsPlaced(s, run);
    case RunHandler(run) => HandlerKeepsPlaced(s, run);
  }

  lemma HandingOffStaysPlaced(t: Task, reg: Registry, run: RunId, pc: Pc)
    requires (t.pc.Settling? || t.pc.Delivering?) && (pc.Delivering? || pc.Delivered?) && RunPlaced(t, reg, run)
    ensures RunPlaced(t.(pc := pc), reg, run)
  {
  }

  /** Only the run's progress, and maybe rows, change. */
  lemma PlacedAfterHandingOff(s: State, s': State, run: RunId)
    requires Placed(s) && run in s.tasks && run in s'.tasks
    requires s'.tasks == s.tasks[run := s.tasks[run].(pc := s'.tasks[run].pc)]
    requires s.tasks[run].pc.Settling? || s.tasks[run].pc.Delivering?
    requires s'.tasks[run].pc.Delivering? || s'.tasks[run].pc.Delivered?
    requires s'.limit == s.limit && s'.registries == s.registries
    ensures Placed(s')
  {
    HandingOffStaysPlaced(s.tasks[run], RegistryOf(s, s.tasks[run].process), run, s'.tasks[run].pc);
    PlacedAfterRun(s, s', run);
  }

  lemma ReadParentKeepsPlaced(s: State, run: RunId)
    requires Placed(s) && CanHandOff(s, ReadParent(run))
    ensures Placed(ReadParentStep(s, run))
  {
    PlacedAfterHandingOff(s, ReadParentStep(s, run), run);
  }

  lemma WriteParentKeepsPlaced(s: State, run: RunId)
    requires Placed(s) && CanHandOff(s, WriteParent(run))
    ensures Placed(WriteParentStep(s, run))
  {
    PlacedAfterHandingOff(s, WriteParentStep(s, run), run);
  }

  lemma ResumeParentKeepsPlaced(s: State, run: RunId, newRun: RunId)
    requires Placed(s) && CanHandOff(s, ResumeParent(run, newRun))
    ensures Placed(NextHandOff(s, ResumeParent(run, newRun)))
  {
    assert RunPlaced(s.tasks[run], RegistryOf(s, s.tasks[run].process), run);
    PlacedAfterRun(s, At(s, run, Ended), run);
    PlacedAfterStart(At(s, run, Ended), NextHandOff(s, ResumeParent(run, newRun)), newRun);
  }

  lemma HandOffKeepsPlaced(s: State, a: HandoffAction)
    requires Placed(s) && CanHandOff(s, a)
    ensures Placed(NextHandOff(s, a))
  {
    match a
    case ReadParent(run) => ReadParentKeepsPlaced(s, run);
    case WriteParent(run) => WriteParentKeepsPlaced(s, run);
    case ResumeParent(run, newRun) => ResumeParentKeepsPlaced(s, run, newRun);
  }

  // ---------- From outside ----------

  lemma StopSamePlace(reg: Registry, id: ExecutionId)
    requires Valid(reg)
    ensures forall run :: SamePlace(reg, Stop(reg, id), run)
    ensures Stop(reg, id).held == reg.held && Stop(reg, id).entries.Keys == reg.entries.Keys
  {
    if !IsWaiting(reg, id) {
      SettleSamePlace(reg, id, Settled(Rejected));
    }
  }

  lemma {:induction false} SweepSamePlace(reg: Registry, ids: seq<ExecutionId>, cancel: bool)
    requires Valid(reg)
    ensures forall run :: SamePlace(reg, Sweep(reg, ids, cancel), run)
  {
    if ids != [] {
      var before := Sweep(reg, ids[..|ids| - 1], cancel);
      SweepSamePlace(reg, ids[..|ids| - 1], cancel);
      SweepValid(reg, ids[..|ids| - 1], cancel);
      if cancel {
        StopSamePlace(before, ids[|ids| - 1]);
      }
      forall run
        ensures SamePlace(reg, Sweep(reg, ids, cancel), run)
      {
        assert SamePlace(reg, before, run);
        assert SamePlace(before, SweepOne(before, ids[|ids| - 1], cancel), run);
      }
    }
  }

  lemma StopKeepsPlaced(s: State, p: ProcessId, id: ExecutionId)
    requires Placed(s)
    ensures Placed(WithRegistry(s, p, Stop(RegistryOf(s, p), id)))
  {
    var reg := RegistryOf(s, p);
    assert RegistryPlaced(s.tasks, p, reg);
    StopValid(reg, id);
    StopSamePlace(reg, id);
    PlacedAfterRegistry(s, p, Stop(reg, id));
  }

  lemma AttachKeepsPlaced(s: State, p: ProcessId, id: ExecutionId, promise: PromiseId)
    requires Placed(s)
    ensures Placed(WithRegistry(s, p, AttachResponse(RegistryOf(s, p), id, promise)))
  {
    var reg := RegistryOf(s, p);
    assert RegistryPlaced(s.tasks, p, reg);
    ApplyValid(reg, ResponseAttached(id, promise));
    SettleSamePlace(reg, id, WithResponse(promise));
    PlacedAfterRegistry(s, p, AttachResponse(reg, id, promise));
  }

  lemma ShutDownKeepsPlaced(s: State, p: ProcessId, start: Registry, ids: seq<ExecutionId>, cancel: bool)
    requires Placed(s) && (start == RegistryOf(s, p) || start == Disable(RegistryOf(s, p)))
    ensures Placed(WithRegistry(s, p, Sweep(start, ids, cancel)))
  {
    var reg := RegistryOf(s, p);
    assert RegistryPlaced(s.tasks, p, reg) && Valid(start);
    var reg' := Sweep(start, ids, cancel);
    SweepValid(start, ids, cancel);
    SweepSamePlace(start, ids, cancel);
    forall run | run in s.tasks
      ensures SamePlace(reg, reg', run)
    {
      assert SamePlace(start, reg', run);
    }
    PlacedAfterRegistry(s, p, reg');
  }

  lemma CloseRowKeepsPlaced(s: State, id: ExecutionId, row: Row)
    requires Placed(s)
    ensures Placed(WithRow(s, id, row))
  {
    forall q
      ensures RegistryPlaced(s.tasks, q, RegistryOf(WithRow(s, id, row), q))
    {
      assert RegistryPlaced(s.tasks, q, RegistryOf(s, q));
    }
  }

  lemma OutsideKeepsPlaced(s: State, a: OutsideAction)
    requires Placed(s) && CanOutside(s, a)
    ensures Placed(NextOutside(s, a))
  {
    match a
    case StopHere(p, id) => StopKeepsPlaced(s, p, id);
    case CloseRow(id, status) => CloseRowKeepsPlaced(s, id, s.rows[id].(status := status));
    case AttachPromise(p, id, promise) => AttachKeepsPlaced(s, p, id, promise);
    case ShutDownProcess(p, regularMode, cancelAll, ids) =>
      var start := if regularMode then Disable(RegistryOf(s, p)) else RegistryOf(s, p);
      ShutDownKeepsPlaced(s, p, start, ids, regularMode && cancelAll);
  }

  lemma StepKeepsPlaced(s: State, a: Action)
    requires Ownership(s) && Placed(s) && Can(s, a)
    ensures Placed(Next(s, a))
  {
    match a
    case Adding(add) => AddKeepsPlaced(s, add);
    case InRun(step) => RunKeepsPlaced(s, step);
    case HandingOff(handoff) => HandOffKeepsPlaced(s, handoff);
    case Outside(outside) => OutsideKeepsPlaced(s, outside);
  }

  // ---------- Over every run of the system ----------

  ghost predicate Safe(s: State) {
    Ownership(s) && Placed(s)
  }

  lemma InitiallySafe(limit: Option<nat>)
    ensures Safe(Initial(limit))
  {
    assert Valid(Empty(limit));
  }

  lemma StepKeepsSafe(s: State, a: Action)
    requires Safe(s) && Can(s, a)
    ensures Safe(Next(s, a))
  {
    StepKeepsOwnership(s, a);
    StepKeepsPlaced(s, a);
  }

  lemma {:induction false} AlwaysSafe(s: State, actions: seq<Action>)
    requires Safe(s) && Feasible(s, actions)
    ensures Safe(After(s, actions))
    decreases |actions|
  {
    if actions != [] {
      StepKeepsSafe(s, actions[0]);
      AlwaysSafe(Next(s, actions[0]), actions[1..]);
    }
  }

  /** `run` is the one working on the execution: it has a row that is running, or new,
      for it, and has not saved an outcome yet. */
  ghost predicate WorksOn(s: State, run: RunId, id: ExecutionId) {
    run in s.tasks && s.tasks[run].execution == id && Owns(s.tasks[run].pc)
  }

  /** At most one run, of whatever process, works on an execution, and none while its row
      waits. */
  lemma OneRunAtATime(limit: Option<nat>, actions: seq<Action>, id: ExecutionId, r1: RunId, r2: RunId)
    requires Feasible(Initial(limit), actions)
    requires var s := After(Initial(limit), actions); WorksOn(s, r1, id) && WorksOn(s, r2, id)
    ensures r1 == r2
    ensures var s := After(Initial(limit), actions); id in s.rows && s.rows[id].status != Waiting
  {
    InitiallySafe(limit);
    AlwaysSafe(Initial(limit), actions);
  }

  // ---------- Resumes and rows ----------

  /** The row goes from waiting to running. */
  ghost predicate BeginsToRun(s: State, s': State, id: ExecutionId) {
    id in s.rows && id in s'.rows && s.rows[id].status == Waiting && s'.rows[id].status == Running
  }

  /** A call of `add` for a waiting execution goes through. */
  ghost predicate Resumes(s: State, a: Action, id: ExecutionId)
    requires Can(s, a)
  {
    a.Adding? && a.add.CompareAndSet? && s.tasks[a.add.run].execution == id
    && Next(s, a).tasks[a.add.run].pc == Claimed
  }

  lemma AddResumes(s: State, add: AddAction, id: ExecutionId)
    requires Ownership(s) && CanAdd(s, add)
    ensures BeginsToRun(s, NextAdd(s, add), id) <==> Resumes(s, Adding(add), id)
  {
  }

  lemma RunResumesNothing(s: State, step: RunAction, id: ExecutionId)
    requires Ownership(s) && CanRun(s, step)
    ensures !BeginsToRun(s, NextRun(s, step), id)
  {
  }

  /** Rows begin to run when, and only when, a resume goes through: no other write of
      `running` ever meets a waiting row. */
  lemma ResumesExactlyAtTransitions(s: State, a: Action, id: ExecutionId)
    requires Ownership(s) && Can(s, a)
    ensures BeginsToRun(s, Next(s, a), id) <==> Resumes(s, a, id)
  {
    match a
    case Adding(add) => AddResumes(s, add, id);
    case InRun(step) => RunResumesNothing(s, step, id);
    case HandingOff(_) =>
    case Outside(_) =>
  }

  ghost function Transitions(s: State, actions: seq<Action>, id: ExecutionId): nat
    requires Feasible(s, actions)
    decreases |actions|
  {
    if actions == [] then 0
    else (if BeginsToRun(s, Next(s, actions[0]), id) then 1 else 0) + Transitions(Next(s, actions[0]), actions[1..], id)
  }

  ghost function ResumeCount(s: State, actions: seq<Action>, id: ExecutionId): nat
    requires Feasible(s, actions)
    decreases |actions|
  {
    if actions == [] then 0
    else (if Resumes(s, actions[0], id) then 1 else 0) + ResumeCount(Next(s, actions[0]), actions[1..], id)
  }

  /** How often runs of the execution saved it as waiting. */
  ghost function WaitCount(s: State, actions: seq<Action>, id: ExecutionId): nat
    requires Feasible(s, actions)
    decreases |actions|
  {
    if actions == [] then 0
    else
      var a := actions[0];
      (if a.InRun? && a.step.SaveWaiting? && s.tasks[a.step.run].execution == id then 1 else 0)
      + WaitCount(Next(s, a), actions[1..], id)
  }

  ghost function WaitsNow(s: State, id: ExecutionId): nat {
    if id in s.rows && s.rows[id].status == Waiting then 1 else 0
  }

  lemma AddSpendsWait(s: State, add: AddAction, id: ExecutionId)
    requires Ownership(s) && CanAdd(s, add)
    ensures WaitsNow(NextAdd(s, add), id) + (if Resumes(s, Adding(add), id) then 1 else 0) <= WaitsNow(s, id)
  {
  }

  lemma RunSpendsWait(s: State, step: RunAction, id: ExecutionId)
    requires Ownership(s) && CanRun(s, step)
    ensures WaitsNow(NextRun(s, step), id)
         <= WaitsNow(s, id) + (if step.SaveWaiting? && s.tasks[step.run].execution == id then 1 else 0)
  {
  }

  lemma HandOffSpendsWait(s: State, handoff: HandoffAction, id: ExecutionId)
    requires CanHandOff(s, handoff)
    ensures WaitsNow(NextHandOff(s, handoff), id) <= WaitsNow(s, id)
  {
  }

  /** Successful resumes of an execution are in step with its row's transitions from
      waiting to running, and each waiting period ends in at most one of them. */
  lemma {:induction false} OneResumePerWait(s: State, actions: seq<Action>, id: ExecutionId)
    requires Safe(s) && Feasible(s, actions)
    ensures ResumeCount(s, actions, id) == Transitions(s, actions, id)
    ensures ResumeCount(s, actions, id) + WaitsNow(After(s, actions), id) <= WaitCount(s, actions, id) + WaitsNow(s, id)
    decreases |actions|
  {
    if actions != [] {
      var a := actions[0];
      StepKeepsSafe(s, a);
      ResumesExactlyAtTransitions(s, a, id);
      match a {
        case Adding(add) => AddSpendsWait(s, add, id);
        case InRun(step) => RunSpendsWait(s, step, id);
        case HandingOff(handoff) => HandOffSpendsWait(s, handoff, id);
        case Outside(_) =>
      }
      OneResumePerWait(Next(s, a), actions[1..], id);
    }
  }

  // ---------- What each process's registry goes through ----------

  /** The registry event that a step of one of the process's runs is, if it is one. */
  ghost function EventOfAdd(s: State, a: AddAction): Option<Event>
    requires CanAdd(s, a)
  {
    match a
    case TakeCapacity(run) => Some(Reserved(run))
    case AddFails(run) => Some(GaveUp(run))
    case CompareAndSet(run) => if CompareAndSetStep(s, run).tasks[run].pc == Ended then Some(GaveUp(run)) else None
    case RegisterRun(run, now) => Some(Registered(run, s.tasks[run].execution, now))
    case _ => None
  }

  ghost function EventOfRun(s: State, a: RunAction): Option<Event>
    requires CanRun(s, a)
  {
    match a
    case Suspend(run) => Some(StatusSet(s.tasks[run].execution, Waiting))
    case FinalizeRun(run) => Some(Finalized(s.tasks[run].execution, run))
    case RunHandler(run) => Some(Handled(run))
    case _ => None
  }

  ghost function EventOfOutside(s: State, a: OutsideAction): Option<Event>
    requires CanOutside(s, a)
  {
    match a
    case StopHere(_, id) => Some(Stopped(id))
    case AttachPromise(_, id, promise) => Some(ResponseAttached(id, promise))
    case ShutDownProcess(_, regularMode, cancelAll, ids) => Some(ShutDown(regularMode, cancelAll, ids))
    case CloseRow(_, _) => None
  }

  /** The event a step is to the registry of process `p`. */
  ghost function EventAt(s: State, a: Action, p: ProcessId): Option<Event>
    requires Can(s, a)
  {
    match a
    case Adding(add) => if add.run in s.tasks && s.tasks[add.run].process == p then EventOfAdd(s, add) else None
    case InRun(step) => if s.tasks[step.run].process == p then EventOfRun(s, step) else None
    case HandingOff(_) => None
    case Outside(outside) => if !outside.CloseRow? && outside.process == p then EventOfOutside(s, outside) else None
  }

  /** The steps of the protocol are steps each registry allows: in particular, what is
      asked there of whoever registers or sets a status is met. */
  ghost predicate Follows(reg: Registry, e: Option<Event>, reg': Registry) {
    if e.None? then reg' == reg else Enabled(reg, e.value) && reg' == Apply(reg, e.value)
  }

  lemma AddSparesOtherProcesses(s: State, a: AddAction, p: ProcessId)
    requires CanAdd(s, a) && (a.run in s.tasks ==> s.tasks[a.run].process != p)
    ensures RegistryOf(NextAdd(s, a), p) == RegistryOf(s, p)
  {
  }

  lemma RunSparesOtherProcesses(s: State, a: RunAction, p: ProcessId)
    requires CanRun(s, a) && s.tasks[a.run].process != p
    ensures RegistryOf(NextRun(s, a), p) == RegistryOf(s, p)
  {
  }

  lemma HandOffSparesRegistries(s: State, a: HandoffAction, p: ProcessId)
    requires CanHandOff(s, a)
    ensures RegistryOf(NextHandOff(s, a), p) == RegistryOf(s, p)
  {
  }

  ghost predicate AddFollows(s: State, a: AddAction)
    requires CanAdd(s, a) && a.run in s.tasks
  {
    var p := s.tasks[a.run].process;
    Follows(RegistryOf(s, p), EventOfAdd(s, a), RegistryOf(NextAdd(s, a), p))
  }

  lemma RegisterFollows(s: State, run: RunId, now: int)
    requires Safe(s) && CanAdd(s, RegisterRun(run, now))
    ensures AddFollows(s, RegisterRun(run, now))
  {
    assert RunPlaced(s.tasks[run], RegistryOf(s, s.tasks[run].process), run);
    RegistersAmongWaiting(s, run);
  }

  lemma TakeCapacityFollows(s: State, run: RunId)
    requires Placed(s) && CanAdd(s, TakeCapacity(run))
    ensures AddFollows(s, TakeCapacity(run))
  {
    assert RunPlaced(s.tasks[run], RegistryOf(s, s.tasks[run].process), run);
    assert NextAdd(s, TakeCapacity(run)) == TakeCapacityStep(s, run);
  }

  lemma AddFailsFollows(s: State, a: AddAction)
    requires Placed(s) && CanAdd(s, a) && (a.AddFails? || a.CompareAndSet?)
    ensures AddFollows(s, a)
  {
    assert RunPlaced(s.tasks[a.run], RegistryOf(s, s.tasks[a.run].process), a.run);
    if a.CompareAndSet? {
      assert NextAdd(s, a) == CompareAndSetStep(s, a.run);
    }
  }

  lemma AddFollowsRegistry(s: State, a: AddAction)
    requires Safe(s) && CanAdd(s, a) && a.run in s.tasks
    ensures AddFollows(s, a)
  {
    match a
    case TakeCapacity(run) => TakeCapacityFollows(s, run);
    case AddFails(_) => AddFailsFollows(s, a);
    case CompareAndSet(_) => AddFailsFollows(s, a);
    case RegisterRun(run, now) => RegisterFollows(s, run, now);
    case Fetch(run) => assert NextAdd(s, a) == FetchStep(s, run);
    case StartNew(_, _) =>
  }

  lemma SuspendFollowsRegistry(s: State, run: RunId)
    requires Placed(s) && CanRun(s, Suspend(run))
    ensures Enabled(RegistryOf(s, s.tasks[run].process), StatusSet(s.tasks[run].execution, Waiting))
  {
    var t := s.tasks[run];
    var reg := RegistryOf(s, t.process);
    assert RegistryPlaced(s.tasks, t.process, reg) && RunPlaced(t, reg, run);
  }

  lemma RunChangesRegistry(s: State, a: RunAction)
    requires CanRun(s, a)
    ensures var p := s.tasks[a.run].process;
            var id := s.tasks[a.run].execution;
            RegistryOf(NextRun(s, a), p) ==
            match a
            case Suspend(_) => SetStatus(RegistryOf(s, p), id, Waiting)
            case FinalizeRun(run) => Finalize(RegistryOf(s, p), id, run)
            case RunHandler(_) => Handle(RegistryOf(s, p), a.run)
            case _ => RegistryOf(s, p)
  {
  }

  ghost predicate RunFollows(s: State, a: RunAction)
    requires CanRun(s, a)
  {
    var p := s.tasks[a.run].process;
    Follows(RegistryOf(s, p), EventOfRun(s, a), RegistryOf(NextRun(s, a), p))
  }

  lemma OtherRunStepsFollow(s: State, a: RunAction)
    requires CanRun(s, a) && !a.Suspend?
    ensures RunFollows(s, a)
  {
    RunChangesRegistry(s, a);
  }

  lemma SuspendFollows(s: State, run: RunId)
    requires CanRun(s, Suspend(run))
    requires Enabled(RegistryOf(s, s.tasks[run].process), StatusSet(s.tasks[run].execution, Waiting))
    ensures RunFollows(s, Suspend(run))
  {
  }

  lemma RunFollowsRegistry(s: State, a: RunAction)
    requires Placed(s) && CanRun(s, a)
    ensures RunFollows(s, a)
  {
    if a.Suspend? {
      SuspendFollowsRegistry(s, a.run);
      SuspendFollows(s, a.run);
    } else {
      OtherRunStepsFollow(s, a);
    }
  }

  lemma OutsideFollowsRegistry(s: State, a: OutsideAction, p: ProcessId)
    requires CanOutside(s, a)
    ensures Follows(RegistryOf(s, p), EventAt(s, Outside(a), p), RegistryOf(NextOutside(s, a), p))
  {
  }

  lemma StepFollowsRegistry(s: State, a: Action, p: ProcessId)
    requires Safe(s) && Can(s, a)
    ensures Follows(RegistryOf(s, p), EventAt(s, a, p), RegistryOf(Next(s, a), p))
  {
    match a
    case Adding(add) =>
      if add.run in s.tasks && s.tasks[add.run].process == p {
        AddFollowsRegistry(s, add);
      } else {
        AddSparesOtherProcesses(s, add, p);
      }
    case InRun(step) =>
      if s.tasks[step.run].process == p {
        RunFollowsRegistry(s, step);
      } else {
        RunSparesOtherProcesses(s, step, p);
      }
    case HandingOff(handoff) => HandOffSparesRegistries(s, handoff, p);
    case Outside(outside) => OutsideFollowsRegistry(s, outside, p);
  }

  /** So a run of the system is a run of every process's registry, and what holds over
      all of those holds here. */
  lemma {:induction false} SystemRunsAreRegistryRuns(s: State, actions: seq<Action>, p: ProcessId)
      returns (events: seq<Event>)
    requires Safe(s) && Feasible(s, actions)
    ensures RegistryRuns.Feasible(RegistryOf(s, p), events)
    ensures RegistryRuns.After(RegistryOf(s, p), events) == RegistryOf(After(s, actions), p)
    decreases |actions|
  {
    if actions == [] {
      events := [];
    } else {
      var a := actions[0];
      StepKeepsSafe(s, a);
      StepFollowsRegistry(s, a, p);
      events := SystemRunsAreRegistryRuns(Next(s, a), actions[1..], p);
      if EventAt(s, a, p).Some? {
        var rest := events;
        events := [EventAt(s, a, p).value] + rest;
        assert events[1..] == rest;
      }
    }
  }

  /** No settlement handler ever removes the entry of a run that replaced its own, however
      the processes interleave. */
  lemma HandlersSpareSuccessors(limit: Option<nat>, actions: seq<Action>, run: RunId)
    requires Feasible(Initial(limit), actions)
    requires CanRun(After(Initial(limit), actions), RunHandler(run))
    ensures var s := After(Initial(limit), actions);
            var p := s.tasks[run].process;
            var id := s.tasks[run].execution;
            id in RegistryOf(s, p).active && RegistryOf(s, p).active[id] != run ==>
              && id in RegistryOf(NextRun(s, RunHandler(run)), p).active
              && RegistryOf(NextRun(s, RunHandler(run)), p).active[id] == RegistryOf(s, p).active[id]
  {
    InitiallySafe(limit);
    AlwaysSafe(Initial(limit), actions);
    var s := After(Initial(limit), actions);
    var p, id := s.tasks[run].process, s.tasks[run].execution;
    if id in RegistryOf(s, p).active && RegistryOf(s, p).active[id] != run {
      var events := SystemRunsAreRegistryRuns(Initial(limit), actions, p);
      RegistryRuns.HandlersSpareSuccessors(limit, events, run, id);
    }
  }

  /** In every process, as long as concurrency control is on there, the capacity in use is
      that of unfinished calls of `add` and of registered runs still to be handled. */
  lemma CapacityConservedEverywhere(limit: Option<nat>, actions: seq<Action>, p: ProcessId)
    requires Feasible(Initial(limit), actions)
    requires RegistryOf(After(Initial(limit), actions), p).enabled
    ensures var reg := RegistryOf(After(Initial(limit), actions), p);
            && reg.inUse == |RegistryRuns.PendingAdds(reg)| + |RegistryRuns.Unhandled(reg)|
            && (limit.Some? ==> reg.inUse <= limit.value)
  {
    InitiallySafe(limit);
    var events := SystemRunsAreRegistryRuns(Initial(limit), actions, p);
    RegistryRuns.CapacityConserved(limit, events);
  }

  // ---------- Whose promise a run settles ----------

  /** `finalizeExecution` goes by the execution id. A finished run settles its own promise
      or none. A run that went to wait settles another's exactly when the execution was
      resumed in its process before it got there. */
  lemma FinalizeSettlesWhom(s: State, run: RunId, other: RunId)
    requires Safe(s) && CanRun(s, FinalizeRun(run)) && other != run
    ensures var p := s.tasks[run].process;
            var reg := RegistryOf(s, p);
            var before, after := EntryAt(reg, other), EntryAt(RegistryOf(NextRun(s, FinalizeRun(run)), p), other);
            && (before.Some? && before.value.settled.None? ==>
                  after.Some? && (after.value.settled.Some? <==>
                    s.tasks[run].execution in reg.active && reg.active[s.tasks[run].execution] == other))
            && (before.Some? && s.tasks[run].fate.Finished? ==> after == before)
  {
    var t := s.tasks[run];
    var reg := RegistryOf(s, t.process);
    assert RegistryPlaced(s.tasks, t.process, reg);
    RunChangesRegistry(s, FinalizeRun(run));
    if other in reg.entries {
      SettlesExactly(reg, t.execution, ResultOf(run), other);
    }
    if t.fate.Finished? && t.execution in reg.active {
      FinishedRunLeads(t, reg, run);
    }
  }

  ghost function EntryAt(reg: Registry, run: RunId): Option<Entry> {
    if run in reg.entries then Some(reg.entries[run]) else None
  }

  lemma SettlesExactly(reg: Registry, id: ExecutionId, how: Settlement, other: RunId)
    requires Valid(reg) && other in reg.entries
    ensures other in Settle(reg, id, how).entries
    ensures Settle(reg, id, how).entries[other] ==
            if id in reg.active && reg.active[id] == other && reg.entries[other].settled.None?
            then reg.entries[other].(settled := Some(how))
            else reg.entries[other]
  {
  }

  lemma FinishedRunLeads(t: Task, reg: Registry, run: RunId)
    requires t.pc == OverRow && t.fate.Finished? && RunPlaced(t, reg, run) && t.execution in reg.active
    ensures reg.active[t.execution] == run
  {
  }
}
