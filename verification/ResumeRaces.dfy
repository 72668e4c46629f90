/** Runs of the system that show where the promises of resuming end: each of the
    conditions under which ResumeHandoff and RegistryRuns speak is needed. */
module ResumeRaces {
  import opened Wrappers
  import opened ExecutionRegistry
  import opened ResumeProtocol

  ghost predicate Reachable(s: State) {
    exists actions :: Feasible(Initial(None), actions) && After(Initial(None), actions) == s
  }

  lemma {:induction false} OneMore(s: State, actions: seq<Action>, a: Action)
    requires Feasible(s, actions) && Can(After(s, actions), a)
    ensures Feasible(s, actions + [a]) && After(s, actions + [a]) == Next(After(s, actions), a)
    decreases |actions|
  {
    if actions == [] {
      assert (actions + [a])[1..] == [];
    } else {
      assert (actions + [a])[1..] == actions[1..] + [a];
      OneMore(Next(s, actions[0]), actions[1..], a);
    }
  }

  lemma Step(s: State, a: Action)
    requires Reachable(s) && Can(s, a)
    ensures Reachable(Next(s, a))
  {
    var actions :| Feasible(Initial(None), actions) && After(Initial(None), actions) == s;
    OneMore(Initial(None), actions, a);
  }

  lemma StartsReachable()
    ensures Reachable(Initial(None))
  {
    assert Feasible(Initial(None), []) && After(Initial(None), []) == Initial(None);
  }

  // ---------- Passages used below, all in process 0 ----------

  predicate Unlimited(s: State) {
    s.limit.None? && (0 in s.registries ==> s.registries[0].limit.None?)
  }

  predicate Besides(s: State, s': State) {
    s'.rows == s.rows && s'.wins == s.wins && s'.outputs == s.outputs
  }

  /** Nothing leaves the table. */
  predicate KeepsTable(s: State, s': State) {
    RegistryOf(s, 0).active.Keys <= RegistryOf(s', 0).active.Keys
  }

  predicate Local(s: State, run: RunId) {
    Unlimited(s) && run in s.tasks && s.tasks[run].process == 0
  }

  lemma TakesCapacity(s: State, run: RunId) returns (s': State)
    requires Reachable(s) && Local(s, run) && (s.tasks[run].pc == Created || s.tasks[run].pc.Fetched?)
    ensures Reachable(s') && Unlimited(s') && Besides(s, s') && KeepsTable(s, s')
    ensures var pc := s.tasks[run].pc;
            s'.tasks == s.tasks[run := s.tasks[run].(pc :=
                if pc == Created then CreatedReserved else ToResume(pc.origin, pc.read))]
  {
    Step(s, Adding(TakeCapacity(run)));
    s' := TakeCapacityStep(s, run);
  }

  /** A run whose row is running takes its place in the table. */
  lemma Registers(s: State, run: RunId) returns (s': State)
    requires Reachable(s) && Local(s, run) && s.tasks[run].pc == Claimed
    ensures Reachable(s') && Unlimited(s') && Besides(s, s')
    ensures s'.tasks == s.tasks[run := s.tasks[run].(pc := Active)]
    ensures RegistryOf(s', 0) == Register(RegistryOf(s, 0), run, s.tasks[run].execution, 0)
  {
    Step(s, Adding(RegisterRun(run, 0)));
    s' := Next(s, Adding(RegisterRun(run, 0)));
  }

  /** A new execution runs. */
  lemma Starts(s: State, run: RunId, id: ExecutionId, stack: Stack, parent: Option<Related>) returns (s': State)
    requires Reachable(s) && Unlimited(s) && run !in s.tasks && id !in s.rows
    ensures Reachable(s') && Unlimited(s') && s'.wins == s.wins && s'.outputs == s.outputs
    ensures s'.tasks == s.tasks[run := Task(0, id, Active, Open)]
    ensures s'.rows == s.rows[id := Row(Running, false, stack, parent, 0, stack, None, false)]
    ensures JustRegistered(RegistryOf(s', 0), id, run) && KeepsTable(s, s')
  {
    var s1 := IsClaimed(s, run, id, stack, parent);
    s' := Registers(s1, run);
  }

  lemma IsClaimed(s: State, run: RunId, id: ExecutionId, stack: Stack, parent: Option<Related>) returns (s': State)
    requires Reachable(s) && Unlimited(s) && run !in s.tasks && id !in s.rows
    ensures Reachable(s') && Unlimited(s') && s'.wins == s.wins && s'.outputs == s.outputs && KeepsTable(s, s')
    ensures s'.tasks == s.tasks[run := Task(0, id, Claimed, Open)]
    ensures s'.rows == s.rows[id := Row(Running, false, stack, parent, 0, stack, None, false)]
  {
    var s1 := Creates(s, run, id, stack, parent);
    var s2 := TakesCapacity(s1, run);
    s' := Marks(s2, run);
  }

  lemma Creates(s: State, run: RunId, id: ExecutionId, stack: Stack, parent: Option<Related>) returns (s': State)
    requires Reachable(s) && Unlimited(s) && run !in s.tasks && id !in s.rows
    ensures Reachable(s')
    ensures s' == s.(tasks := s.tasks[run := Task(0, id, Created, Open)],
                     rows := s.rows[id := Row(New, false, stack, parent, 0, stack, None, false)])
  {
    Step(s, Adding(Create(run, 0, id, stack, parent)));
    s' := Next(s, Adding(Create(run, 0, id, stack, parent)));
  }

  lemma Marks(s: State, run: RunId) returns (s': State)
    requires Reachable(s) && Local(s, run) && s.tasks[run].pc == CreatedReserved && s.tasks[run].execution in s.rows
    ensures Reachable(s')
    ensures var id := s.tasks[run].execution;
            s' == s.(tasks := s.tasks[run := s.tasks[run].(pc := Claimed)],
                     rows := s.rows[id := s.rows[id].(status := Running)])
  {
    Step(s, Adding(StartNew(run, true)));
    s' := Next(s, Adding(StartNew(run, true)));
  }

  /** A running execution goes to wait. */
  lemma Waits(s: State, run: RunId, stack: Stack) returns (s': State)
    requires Reachable(s) && Local(s, run) && s.tasks[run].pc == Active
    requires var id := s.tasks[run].execution; id in s.rows && id in RegistryOf(s, 0).active
    ensures Reachable(s') && Unlimited(s')
    ensures s'.tasks == s.tasks[run := Task(0, s.tasks[run].execution, OverRow, Waited)]
    ensures var id := s.tasks[run].execution;
            s'.rows == s.rows[id := Suspended(s.rows[id], stack)]
    ensures s'.wins == s.wins && s'.outputs == s.outputs
  {
    var s1 := Suspends(s, run);
    s' := Saves(s1, run, stack);
  }

  lemma Saves(s: State, run: RunId, stack: Stack) returns (s': State)
    requires Reachable(s) && Local(s, run) && s.tasks[run].pc == Suspending && s.tasks[run].execution in s.rows
    ensures Reachable(s') && Unlimited(s') && s'.wins == s.wins && s'.outputs == s.outputs
    ensures s'.tasks == s.tasks[run := Task(0, s.tasks[run].execution, OverRow, Waited)]
    ensures var id := s.tasks[run].execution;
            s'.rows == s.rows[id := Suspended(s.rows[id], stack)]
  {
    Step(s, InRun(SaveWaiting(run, stack)));
    s' := SaveWaitingStep(s, run, stack);
  }

  lemma Suspends(s: State, run: RunId) returns (s': State)
    requires Reachable(s) && Local(s, run) && s.tasks[run].pc == Active
    requires s.tasks[run].execution in RegistryOf(s, 0).active
    ensures Reachable(s') && Unlimited(s') && Besides(s, s')
    ensures s'.tasks == s.tasks[run := s.tasks[run].(pc := Suspending)]
  {
    Step(s, InRun(Suspend(run)));
    s' := Next(s, InRun(Suspend(run)));
  }

  /** A run that has read its row reserves capacity, wins and registers. */
  lemma Wins(s: State, run: RunId) returns (s': State)
    requires Reachable(s) && Local(s, run) && s.tasks[run].pc.Fetched?
    requires var id := s.tasks[run].execution; id in s.rows && s.rows[id].status == Waiting
    ensures Reachable(s') && Unlimited(s') && s'.outputs == s.outputs
    ensures var t := s.tasks[run];
            var row := s.rows[t.execution];
            var loaded := OnTop(t.pc.read.stack, OwnData(t.pc.origin));
            && s'.tasks == s.tasks[run := t.(pc := Active)]
            && s'.rows == s.rows[t.execution := row.(status := Running, stack := loaded)]
            && s'.wins == s.wins + [Win(t.execution, run, t.pc.origin, t.pc.read, loaded, row)]
    ensures JustRegistered(RegistryOf(s', 0), s.tasks[run].execution, run)
  {
    var s1 := TakesCapacity(s, run);
    Step(s1, Adding(CompareAndSet(run)));
    s' := Registers(CompareAndSetStep(s1, run), run);
  }

  predicate JustRegistered(reg: Registry, id: ExecutionId, run: RunId) {
    && id in reg.active && reg.active[id] == run && run in reg.entries
    && reg.entries[run].executionId == id && reg.entries[run].status == Running
    && reg.entries[run].settled.None? && !reg.entries[run].handled
  }

  /** Somebody reads a waiting row, to resume it, maybe with data of its own. */
  lemma Reads(s: State, run: RunId, id: ExecutionId, own: Option<Output>) returns (s': State)
    requires Reachable(s) && Unlimited(s) && run !in s.tasks && id in s.rows && !s.rows[id].finished
    requires s.rows[id].stack != []
    ensures Reachable(s') && Unlimited(s')
    ensures s' == s.(tasks := s.tasks[run := Task(0, id, Fetched(Elsewhere(own), ReadOf(s.rows[id])), Open)])
  {
    Step(s, Adding(Begin(run, 0, id, own)));
    var s1 := Next(s, Adding(Begin(run, 0, id, own)));
    Step(s1, Adding(Fetch(run)));
    s' := FetchStep(s1, run);
  }

  /** A run of a child comes to its end. */
  lemma Ends(s: State, run: RunId, output: Output) returns (s': State)
    requires Reachable(s) && Local(s, run) && s.tasks[run].pc == Active && s.tasks[run].execution in s.rows
    ensures Reachable(s') && Unlimited(s') && s'.wins == s.wins && s'.registries == s.registries && s'.limit == s.limit
    ensures s'.tasks == s.tasks[run := Task(0, s.tasks[run].execution, OverRow, Finished(Returning(output)))]
    ensures var id := s.tasks[run].execution;
            s'.rows == s.rows[id := s.rows[id].(status := Success, finished := true)]
  {
    Step(s, InRun(SaveFinished(run, Returning(output))));
    s' := SaveFinishedStep(s, run, Returning(output));
  }

  /** A child starts and runs to its end. */
  lemma ChildEnds(s: State, run: RunId, id: ExecutionId, parent: ExecutionId, output: Output) returns (s': State)
    requires Reachable(s) && Unlimited(s) && run !in s.tasks && id !in s.rows && id != parent
    requires parent in s.rows
    ensures Reachable(s') && Unlimited(s') && s'.wins == s.wins && KeepsTable(s, s')
    ensures id in s'.rows && s'.rows[id].parent == Some(Related(parent, None))
    ensures parent in s'.rows && s'.rows[parent] == s.rows[parent]
    ensures s'.tasks == s.tasks[run := Task(0, id, OverRow, Finished(Returning(output)))]
    ensures JustRegistered(RegistryOf(s', 0), id, run)
  {
    var s1 := Starts(s, run, id, [], Some(Related(parent, None)));
    s' := Ends(s1, run, output);
  }

  /** And settles its promise. */
  lemma ChildSettles(s: State, run: RunId, id: ExecutionId, parent: ExecutionId, output: Output) returns (s': State)
    requires Reachable(s) && Unlimited(s) && run !in s.tasks && id !in s.rows && id != parent
    requires parent in s.rows
    ensures Reachable(s') && Unlimited(s') && s'.wins == s.wins && KeepsTable(s, s')
    ensures id in s'.rows && s'.rows[id].parent == Some(Related(parent, None))
    ensures parent in s'.rows && s'.rows[parent] == s.rows[parent]
    ensures s'.tasks == s.tasks[run := Task(0, id, Settling, Finished(Returning(output)))]
    ensures SettlementOf(s', run) == Some(ResultOf(run))
  {
    var s1 := ChildEnds(s, run, id, parent, output);
    s' := Finalizes(s1, run);
  }

  /** And reads its parent's row. */
  lemma ChildReads(s: State, run: RunId, id: ExecutionId, parent: ExecutionId, output: Output) returns (s': State)
    requires Reachable(s) && Unlimited(s) && run !in s.tasks && id !in s.rows && id != parent
    requires parent in s.rows && s.rows[parent].status == Waiting && s.rows[parent].stack != []
    ensures Reachable(s') && Unlimited(s') && s'.wins == s.wins
    ensures parent in s'.rows && s'.rows[parent] == s.rows[parent]
    ensures s'.tasks == s.tasks[run := Task(0, id,
              Delivering(parent, OnTop(s.rows[parent].stack, Some(output)), s.rows[parent].period),
              Finished(Returning(output)))]
  {
    var s1 := ChildSettles(s, run, id, parent, output);
    Step(s1, HandingOff(ReadParent(run)));
    s' := ReadParentStep(s1, run);
  }

  /** What it read then, the child now writes. */
  lemma ChildWrites(s: State, run: RunId) returns (s': State)
    requires Reachable(s) && Local(s, run) && s.tasks[run].pc.Delivering?
    requires s.tasks[run].pc.parent in s.rows && s.rows[s.tasks[run].pc.parent].status == Waiting
    ensures Reachable(s') && Unlimited(s') && s'.wins == s.wins
    ensures var pc := s.tasks[run].pc;
            var row := s.rows[pc.parent];
            && s'.tasks == s.tasks[run := s.tasks[run].(pc := Delivered(pc.parent, Some(Waiting), Some(pc.period)))]
            && s'.rows == s.rows[pc.parent := Written(row, pc.stack, pc.period)]
  {
    Step(s, HandingOff(WriteParent(run)));
    s' := WriteParentStep(s, run);
  }

  /** And then wakes its parent. */
  lemma ChildWakes(s: State, run: RunId, newRun: RunId) returns (s': State)
    requires Reachable(s) && Local(s, run) && s.tasks[run].pc.Delivered?
    requires newRun !in s.tasks
    requires var id := s.tasks[run].pc.parent; id in s.rows && !s.rows[id].finished
    ensures Reachable(s') && Unlimited(s') && Besides(s, s')
    ensures var pc := s.tasks[run].pc;
            var row := s.rows[pc.parent];
            s'.tasks == s.tasks[run := s.tasks[run].(pc := Ended)][newRun :=
              Task(0, pc.parent, Fetched(FromChild(run, pc.met, pc.wrote), ReadOf(row)), Open)]
  {
    Step(s, HandingOff(ResumeParent(run, newRun)));
    var s1 := Next(s, HandingOff(ResumeParent(run, newRun)));
    Step(s1, Adding(Fetch(newRun)));
    s' := FetchStep(s1, newRun);
  }

  lemma Finalizes(s: State, run: RunId) returns (s': State)
    requires Reachable(s) && Local(s, run) && s.tasks[run].pc == OverRow
    ensures Reachable(s') && Unlimited(s') && Besides(s, s') && KeepsTable(s, s')
    ensures s'.tasks == s.tasks[run := s.tasks[run].(pc := Settling)]
    ensures RegistryOf(s', 0) == Finalize(RegistryOf(s, 0), s.tasks[run].execution, run)
  {
    Step(s, InRun(FinalizeRun(run)));
    s' := Next(s, InRun(FinalizeRun(run)));
  }

  function Returning(output: Output): (result: RunResult)
    ensures LastOutput(result) == Some(output)
  {
    RunResult(Some("last"), map["last" := [TaskData(Some(output))]], map[], false, true)
  }

  const FIRST: Stack := [StackItem("first", [])]
  const SECOND: Stack := [StackItem("second", [])]

  /** Waiting for the first time, at the node `first`. */
  lemma WaitsOnce() returns (s: State)
    ensures Reachable(s) && Unlimited(s)
    ensures s.tasks == map[0 := Task(0, "parent", OverRow, Waited)] && s.wins == []
    ensures s.rows == map["parent" := Row(Waiting, false, FIRST, None, 1, FIRST, None, false)]
  {
    StartsReachable();
    var s1 := Starts(Initial(None), 0, "parent", FIRST, None);
    s := Waits(s1, 0, FIRST);
  }

  // ---------- Reads of an earlier period ----------

  /** The execution goes on at other nodes than those it waited at. */
  ghost predicate OtherNodes(w: Win) {
    |w.loaded| != |w.row.base|
    || exists i :: 0 <= i < |w.loaded| && w.loaded[i].node != w.row.base[i].node
  }

  ghost predicate StaleReadWins(s: State) {
    exists w :: w in s.wins && w.read.period < w.row.period && !w.row.crossed && OtherNodes(w)
  }

  /** Whoever read the row in an earlier waiting period may win in a later one, as the
      status is all that is compared: the execution goes back to where it was. */
  lemma EarlierReadsCanWin()
    ensures exists s :: Reachable(s) && StaleReadWins(s)
  {
    var s1 := WaitsOnce();
    var s2 := Reads(s1, 1, "parent", None);
    var s3 := Again(s2);
    var s4 := Wins(s3, 1);
    assert s4.wins[1] in s4.wins;
    assert s4.wins[1].loaded[0].node != s4.wins[1].row.base[0].node;
    assert StaleReadWins(s4);
  }

  // ---------- Writes that cross into a later period ----------

  ghost predicate CrossedWriteWins(s: State) {
    exists w :: w in s.wins && w.read.period == w.row.period && w.row.crossed && OtherNodes(w)
  }

  /** A child's write may land in the parent's next waiting period, and then replaces the
      whole stack of that period by the one of the earlier. */
  lemma CrossingWritesReplaceTheStack()
    ensures exists s :: Reachable(s) && CrossedWriteWins(s)
  {
    var s1 := WritesAcross();
    var s2 := Reads(s1, 3, "parent", None);
    var s3 := Wins(s2, 3);
    assert s3.wins[1] in s3.wins;
    assert s3.wins[1].loaded[0].node != s3.wins[1].row.base[0].node;
    assert CrossedWriteWins(s3);
  }

  /** A child reads, its parent is resumed and waits again, and the child writes. */
  lemma WritesAcross() returns (s: State)
    ensures Reachable(s) && Unlimited(s) && |s.wins| == 1 && 3 !in s.tasks
    ensures "parent" in s.rows
    ensures s.rows["parent"] == Row(Waiting, false, [StackItem("first", ["out"])], None, 2, SECOND, None, true)
  {
    var s1 := WaitsOnce();
    var s2 := ChildReads(s1, 1, "child", "parent", ["out"]);
    var s3 := Again(s2);
    s := ChildWrites(s3, 1);
  }

  // ---------- Children that wake a later period ----------

  ghost predicate LateWakeWins(s: State) {
    exists w :: w in s.wins && w.origin.FromChild? && w.origin.wrote.Some? && w.origin.wrote.value < w.read.period
                && w.read.period == w.row.period && !w.row.crossed && w.loaded == w.row.base
  }

  /** A child that wrote in one waiting period may wake its parent in the next, where
      nothing was delivered: the parent goes on with the input it waited with. */
  lemma LateChildrenWakeWithoutOutput()
    ensures exists s :: Reachable(s) && LateWakeWins(s)
  {
    var s1 := WaitsAgainAfterWrite();
    var s2 := ChildWakes(s1, 1, 3);
    var s3 := Wins(s2, 3);
    assert s3.wins[1] in s3.wins;
    assert LateWakeWins(s3);
  }

  /** A child reads and writes, and its parent is resumed and waits again. */
  lemma WaitsAgainAfterWrite() returns (s: State)
    ensures Reachable(s) && Local(s, 1) && |s.wins| == 1 && 3 !in s.tasks
    ensures s.tasks[1].pc == Delivered("parent", Some(Waiting), Some(1))
    ensures "parent" in s.rows && s.rows["parent"] == Row(Waiting, false, SECOND, None, 2, SECOND, None, false)
  {
    var s1 := WaitsOnce();
    var s2 := ChildReads(s1, 1, "child", "parent", ["out"]);
    var s3 := ChildWrites(s2, 1);
    s := Again(s3);
  }

  /** The execution is resumed, by run 2, and waits a second time. */
  lemma Again(s: State) returns (s': State)
    requires Reachable(s) && Unlimited(s) && 2 !in s.tasks
    requires "parent" in s.rows && s.rows["parent"].status == Waiting && !s.rows["parent"].finished
    requires s.rows["parent"].stack != []
    ensures Reachable(s') && Unlimited(s') && |s'.wins| == |s.wins| + 1
    ensures s'.tasks == s.tasks[2 := Task(0, "parent", OverRow, Waited)] && "parent" in s'.rows
    ensures s'.rows["parent"] == Suspended(s.rows["parent"], SECOND)
  {
    var s1 := Resumed(s);
    s' := Waits(s1, 2, SECOND);
  }

  lemma Resumed(s: State) returns (s': State)
    requires Reachable(s) && Unlimited(s) && 2 !in s.tasks
    requires "parent" in s.rows && s.rows["parent"].status == Waiting && !s.rows["parent"].finished
    requires s.rows["parent"].stack != []
    ensures Reachable(s') && Unlimited(s') && |s'.wins| == |s.wins| + 1
    ensures s'.tasks == s.tasks[2 := Task(0, "parent", Active, Open)]
    ensures "parent" in s'.rows && s'.rows["parent"] == s.rows["parent"].(status := Running)
    ensures "parent" in RegistryOf(s', 0).active
  {
    var s1 := Reads(s, 2, "parent", None);
    s' := Wins(s1, 2);
  }

  // ---------- Children that wake without having written ----------

  /** The child had an output, but found its parent not waiting when it looked; it won
      within the period the parent then began, and the parent goes on without it. */
  ghost predicate EmptyHandedWakeWins(s: State) {
    exists w :: w in s.wins && w.origin.FromChild? && w.origin.child in s.tasks
                && s.tasks[w.origin.child].fate.Finished? && LastOutput(s.tasks[w.origin.child].fate.result).Some?
                && w.origin.met == Some(Running) && w.origin.wrote.None?
                && w.read.period == w.row.period && !w.row.crossed && w.loaded == w.row.base
  }

  /** A child that reads its parent's row before the parent waits writes nothing, and may
      wake it all the same once it waits: in that very period, with nothing delivered. */
  lemma EarlyChildrenWakeWithoutOutput()
    ensures exists s :: Reachable(s) && EmptyHandedWakeWins(s)
  {
    var s1 := ReadsBeforeParentWaits();
    var s2 := Waits(s1, 0, FIRST);
    var s3 := ChildWakes(s2, 1, 2);
    var s4 := Wins(s3, 2);
    assert s4.wins[0] in s4.wins;
    assert s4.tasks[1].fate == Finished(Returning(["out"]));
    assert EmptyHandedWakeWins(s4);
  }

  /** The child is over, and has looked at a parent that is still running. */
  lemma ReadsBeforeParentWaits() returns (s: State)
    ensures Reachable(s) && Local(s, 0) && Local(s, 1) && s.tasks.Keys == {0, 1} && s.wins == []
    ensures s.tasks[0] == Task(0, "parent", Active, Open)
    ensures s.tasks[1] == Task(0, "child", Delivered("parent", Some(Running), None), Finished(Returning(["out"])))
    ensures "parent" in s.rows && s.rows["parent"] == Row(Running, false, FIRST, None, 0, FIRST, None, false)
    ensures "parent" in RegistryOf(s, 0).active
  {
    StartsReachable();
    var s1 := Starts(Initial(None), 0, "parent", FIRST, None);
    var s2 := ChildSettles(s1, 1, "child", "parent", ["out"]);
    s := ReadsInVain(s2, 1);
  }

  lemma ReadsInVain(s: State, run: RunId) returns (s': State)
    requires Reachable(s) && Local(s, run) && CanHandOff(s, ReadParent(run))
    requires LastOutput(PromisedResult(s, run)).Some?
    requires var parent := s.rows[s.tasks[run].execution].parent.value.executionId;
             parent in s.rows && s.rows[parent].status != Waiting
    ensures Reachable(s')
    ensures var parent := s.rows[s.tasks[run].execution].parent.value.executionId;
            s' == s.(tasks := s.tasks[run := s.tasks[run].(pc := Delivered(parent, Some(s.rows[parent].status), None))])
  {
    Step(s, HandingOff(ReadParent(run)));
    s' := ReadParentStep(s, run);
  }

  // ---------- Resumes with data of their own ----------

  ghost predicate OwnDataReplacesOutput(s: State) {
    exists w :: w in s.wins && w.read.period == w.row.period && !w.row.crossed && w.read.written.Some?
                && OwnData(w.origin).Some? && OwnData(w.origin) != w.read.written
                && w.loaded == OnTop(w.row.base, OwnData(w.origin))
  }

  /** A webhook that resumes the parent puts its own data where a child had written. */
  lemma WebhooksReplaceAChildsOutput()
    ensures exists s :: Reachable(s) && OwnDataReplacesOutput(s)
  {
    var s1 := WaitsOnce();
    var s2 := ChildReads(s1, 1, "child", "parent", ["out"]);
    var s3 := ChildWrites(s2, 1);
    var s4 := Reads(s3, 2, "parent", Some(["body"]));
    var s5 := Wins(s4, 2);
    assert s5.wins[0] in s5.wins;
    assert OwnDataReplacesOutput(s5);
  }

  // ---------- Finalizing after being superseded ----------

  /** A run that had gone to wait, finalizing late, settled the promise of its successor. */
  ghost predicate SettledByEarlier(s: State, run: RunId) {
    && run in s.tasks && SettlementOf(s, run).Some? && SettlementOf(s, run).value.ResultOf?
    && var earlier := SettlementOf(s, run).value.run;
       earlier != run && earlier in s.tasks && s.tasks[earlier].fate == Waited && s.tasks[earlier].pc == Settling
  }

  /** The successor's handler has run upon that: it goes on, and its row is running, but the
      process no longer knows it. */
  ghost predicate ForgottenWhileActive(s: State) {
    exists run :: SettledByEarlier(s, run) && s.tasks[run].pc == Active
                  && s.tasks[run].execution in s.rows && s.rows[s.tasks[run].execution].status == Running
                  && s.tasks[run].execution !in RegistryOf(s, s.tasks[run].process).active
  }

  /** A run that saved its row as waiting but has not yet been finalized when another run
      resumes it then settles the other run's promise, whose handler removes the other
      run from the table. */
  lemma LateFinalizeForgetsSuccessor()
    ensures exists s :: Reachable(s) && ForgottenWhileActive(s)
  {
    var s1 := SettledBySuperseded();
    Step(s1, InRun(RunHandler(1)));
    var s2 := Next(s1, InRun(RunHandler(1)));
    assert s2.tasks == s1.tasks && SettlementOf(s2, 1) == Some(ResultOf(0));
    assert ForgottenWhileActive(s2);
  }

  /** Run 1 resumed the child, whose parent waits, and run 0 then settled its promise. */
  lemma SettledBySuperseded() returns (s: State)
    ensures Reachable(s) && Local(s, 0) && Local(s, 1)
    ensures s.tasks[1] == Task(0, "child", Active, Open)
    ensures s.tasks[0].fate == Waited && s.tasks[0].pc == Settling
    ensures "child" in s.rows && s.rows["child"].status == Running
    ensures s.rows["child"].parent == Some(Related("parent", None))
    ensures "parent" in s.rows && s.rows["parent"].status == Waiting
    ensures 1 in RegistryOf(s, 0).entries
    ensures var entry := RegistryOf(s, 0).entries[1];
            && entry.executionId == "child" && entry.status == Running
            && entry.settled == Some(ResultOf(0)) && !entry.handled
  {
    var s1 := ChildWaits();
    var s2 := Reads(s1, 1, "child", None);
    var s3 := Wins(s2, 1);
    s := Finalizes(s3, 0);
  }

  /** A child waits, and so does its parent. */
  lemma ChildWaits() returns (s: State)
    ensures Reachable(s) && Local(s, 0) && 1 !in s.tasks
    ensures s.tasks[0] == Task(0, "child", OverRow, Waited)
    ensures "parent" in s.rows && s.rows["parent"].status == Waiting
    ensures "child" in s.rows
    ensures s.rows["child"] == Row(Waiting, false, FIRST, Some(Related("parent", None)), 1, FIRST, None, false)
  {
    StartsReachable();
    var s1 := Starts(Initial(None), 2, "parent", FIRST, None);
    var s2 := Waits(s1, 2, FIRST);
    var s3 := Starts(s2, 0, "child", FIRST, Some(Related("parent", None)));
    s := Waits(s3, 0, FIRST);
  }

  /** A finished child with an output, whose parent waits for it, past its finalize. */
  ghost predicate Silenced(s: State) {
    exists run :: SettledByEarlier(s, run) && s.tasks[run].pc == Settling
                  && s.tasks[run].fate.Finished? && LastOutput(s.tasks[run].fate.result).Some?
                  && s.tasks[run].execution in s.rows
                  && var parent := s.rows[s.tasks[run].execution].parent;
                     ShouldRestartParent(parent)
                     && parent.value.executionId in s.rows && s.rows[parent.value.executionId].status == Waiting
                     && !CanHandOff(s, ReadParent(run))
  }

  /** The same late finalize, if the child goes on to its end: its promise is spent on the
      earlier run's waiting, and nobody wakes the parent. */
  lemma LateFinalizeSilencesChild()
    ensures exists s :: Reachable(s) && Silenced(s)
  {
    var s1 := SettledBySuperseded();
    var s2 := Ends(s1, 1, ["out"]);
    var s3 := Finalizes(s2, 1);
    assert s3.tasks[0] == s1.tasks[0] && s3.rows == s2.rows;
    assert SettlementOf(s3, 1) == Some(ResultOf(0));
    assert Silenced(s3);
  }
}
