/** What the steps of the registry come to for whoever looks at it: the capacity in use, the
    table, the response modes, and each field of an entry. For each of these, exactly the
    steps that change it, and what to. */
module RegistryEffects {
  import opened Wrappers
  import opened ExecutionRegistry
  import opened RegistryRuns

  /** The table leads from the execution id to the run. */
  predicate Leads(reg: Registry, id: ExecutionId, run: RunId) {
    id in reg.active && reg.active[id] == run
  }

  // ---------- Sweeping ----------

  predicate Waits(reg: Registry, id: ExecutionId) {
    id in reg.active && reg.active[id] in reg.entries && reg.entries[reg.active[id]].status == Waiting
  }

  /** A cancelling sweep takes the waiting ones among `ids` out of the table, with their
      response modes. */
  lemma {:induction false} CancellingSweepTakes(reg: Registry, ids: seq<ExecutionId>, id: ExecutionId)
    requires Valid(reg)
    ensures var after := Sweep(reg, ids, true);
            && (id in after.active <==> id in reg.active && !(id in ids && Waits(reg, id)))
            && (id in after.active ==> after.active[id] == reg.active[id])
            && (id in after.responseModes <==> id in reg.responseModes && !(id in ids && Waits(reg, id)))
            && (id in after.responseModes ==> after.responseModes[id] == reg.responseModes[id])
            && (Waits(after, id) <==> Waits(reg, id) && id !in ids)
  {
    if ids != [] {
      var init, last := ids[..|ids| - 1], ids[|ids| - 1];
      assert ids == init + [last];
      CancellingSweepTakes(reg, init, id);
      CancellingSweepTakes(reg, init, last);
      SweepValid(reg, init, true);
      StopTakes(Sweep(reg, init, true), last, id);
    }
  }

  lemma StopTakes(reg: Registry, stopped: ExecutionId, id: ExecutionId)
    requires Valid(reg)
    ensures var after := Stop(reg, stopped);
            && (id in after.active <==> id in reg.active && !(id == stopped && Waits(reg, id)))
            && (id in after.active ==> after.active[id] == reg.active[id])
            && (id in after.responseModes <==> id in reg.responseModes && !(id == stopped && Waits(reg, id)))
            && (id in after.responseModes ==> after.responseModes[id] == reg.responseModes[id])
            && (Waits(after, id) <==> Waits(reg, id) && id != stopped)
  {
  }

  /** And it rejects the open promises of the others. */
  lemma {:induction false} CancellingSweepRejects(reg: Registry, ids: seq<ExecutionId>, run: RunId)
    requires Valid(reg) && run in reg.entries
    ensures var after := Sweep(reg, ids, true);
            var entry := reg.entries[run];
            && run in after.entries
            && after.entries[run] == entry.(settled :=
                 if entry.executionId in ids && Leads(reg, entry.executionId, run) && entry.settled == None
                    && entry.status != Waiting
                 then Some(Rejected) else entry.settled)
  {
    if ids != [] {
      var init, last := ids[..|ids| - 1], ids[|ids| - 1];
      assert ids == init + [last];
      CancellingSweepRejects(reg, init, run);
      CancellingSweepTakes(reg, init, reg.entries[run].executionId);
      SweepValid(reg, init, true);
      StopRejects(Sweep(reg, init, true), last, run);
    }
  }

  lemma StopRejects(reg: Registry, id: ExecutionId, run: RunId)
    requires Valid(reg) && run in reg.entries
    ensures var entry := reg.entries[run];
            && run in Stop(reg, id).entries
            && Stop(reg, id).entries[run] == entry.(settled :=
                 if Leads(reg, id, run) && entry.settled == None && entry.status != Waiting
                 then Some(Rejected) else entry.settled)
  {
  }

  // ---------- Capacity ----------

  /** While concurrency control is on, reserving takes a unit, and giving up what is held
      and the handler give one back. Only a regular shutdown switches it off. */
  lemma CapacityExactlyAfter(reg: Registry, e: Event)
    requires Valid(reg) && Enabled(reg, e)
    ensures var after := Apply(reg, e);
            && (after.enabled <==> reg.enabled && !(e.ShutDown? && e.regular))
            && after.limit == reg.limit
            && after.inUse == reg.inUse +
                 if !reg.enabled then 0
                 else if e.Reserved? then 1
                 else if (e.GaveUp? && e.run in reg.held) || e.Handled? then -1
                 else 0
  {
    if e.ShutDown? {
      SweepKeepsConfiguration(if e.regular then Disable(reg) else reg, e.ids, e.regular && e.cancelAll);
    }
  }

  /** A process starts with concurrency control on, nothing in use and nothing registered. */
  lemma StartsEmpty(limit: Option<nat>)
    ensures var reg := Empty(limit);
            && reg.enabled && reg.limit == limit && reg.inUse == 0 && reg.held == {}
            && reg.active == map[] && reg.entries == map[] && reg.responseModes == map[]
  {
  }

  /** A call of `add` gets past the limit exactly if there is none, or less than that is in
      use, or concurrency control is off. */
  lemma AdmittedExactlyWhen(reg: Registry, run: RunId)
    requires run !in reg.held && run !in reg.entries
    ensures Enabled(reg, Reserved(run)) <==>
              !reg.enabled || match reg.limit case None => true case Some(limit) => reg.inUse < limit
  {
  }

  /** Once a regular shutdown has begun, no handler and nobody else gives back or takes any
      unit, and no call of `add` is held up any more. */
  lemma {:induction false} ShutdownFreezesCapacity(reg: Registry, cancelAll: bool, ids: seq<ExecutionId>,
                                                   events: seq<Event>, run: RunId)
    requires Valid(reg) && Enabled(reg, ShutDown(true, cancelAll, ids))
    requires Feasible(Apply(reg, ShutDown(true, cancelAll, ids)), events)
    ensures var end := After(Apply(reg, ShutDown(true, cancelAll, ids)), events);
            && !end.enabled && end.inUse == reg.inUse
            && (run !in end.held && run !in end.entries ==> Enabled(end, Reserved(run)))
  {
    CapacityExactlyAfter(reg, ShutDown(true, cancelAll, ids));
    ApplyValid(reg, ShutDown(true, cancelAll, ids));
    CapacityStaysFrozen(Apply(reg, ShutDown(true, cancelAll, ids)), events);
  }

  lemma {:induction false} CapacityStaysFrozen(reg: Registry, events: seq<Event>)
    requires Valid(reg) && !reg.enabled && Feasible(reg, events)
    ensures !After(reg, events).enabled && After(reg, events).inUse == reg.inUse
    decreases |events|
  {
    if events != [] {
      CapacityExactlyAfter(reg, events[0]);
      ApplyValid(reg, events[0]);
      CapacityStaysFrozen(Apply(reg, events[0]), events[1..]);
    }
  }

  // ---------- The table and the response modes ----------

  /** The step takes an execution registered under `id` out of the table: a stop while it
      waits, the handler of its run unless it waits, or a shutdown, which takes those that
      wait, and, unless it cancels, those that are new. */
  predicate TakesOut(reg: Registry, e: Event, id: ExecutionId)
    requires id in reg.active && reg.active[id] in reg.entries
  {
    var run := reg.active[id];
    var status := reg.entries[run].status;
    || (e == Stopped(id) && status == Waiting)
    || (e == Handled(run) && status != Waiting)
    || (e.ShutDown? && (status == Waiting || (status == New && !(e.regular && e.cancelAll))))
  }

  lemma TableExactlyAfter(reg: Registry, e: Event, id: ExecutionId, run: RunId)
    requires Valid(reg) && Enabled(reg, e)
    ensures Leads(Apply(reg, e), id, run) <==>
              || (e.Registered? && e.id == id && e.run == run)
              || (Leads(reg, id, run) && !(e.Registered? && e.id == id) && !TakesOut(reg, e, id))
  {
    match e
    case Handled(other) => HandlerTakes(reg, other, id);
    case Stopped(other) => StopTakes(reg, other, id);
    case ShutDown(_, _, _) => ShutdownTakes(reg, e, id);
    case _ =>
  }

  lemma HandlerTakes(reg: Registry, run: RunId, id: ExecutionId)
    requires Valid(reg) && Enabled(reg, Handled(run))
    ensures var after := Handle(reg, run);
            && (id in after.active <==> id in reg.active && !TakesOut(reg, Handled(run), id))
            && (id in after.active ==> after.active[id] == reg.active[id])
            && (id in after.responseModes <==>
                  id in reg.responseModes && !(id in reg.active && TakesOut(reg, Handled(run), id)))
            && (id in after.responseModes ==> after.responseModes[id] == reg.responseModes[id])
  {
    if reg.entries[run].status != Waiting {
      assert IsRegistered(reg, run);
    }
  }

  lemma ShutdownTakes(reg: Registry, e: Event, id: ExecutionId)
    requires Valid(reg) && Enabled(reg, e) && e.ShutDown?
    ensures var after := Apply(reg, e);
            && (id in after.active <==> id in reg.active && !TakesOut(reg, e, id))
            && (id in after.active ==> after.active[id] == reg.active[id])
            && (id in after.responseModes <==>
                  id in reg.responseModes && !(e.regular && e.cancelAll && id in reg.active && TakesOut(reg, e, id)))
            && (id in after.responseModes ==> after.responseModes[id] == reg.responseModes[id])
  {
    var start := if e.regular then Disable(reg) else reg;
    assert Valid(start);
    assert id in reg.active ==> id in (set i | i in e.ids);
    if e.regular && e.cancelAll {
      CancellingSweepTakes(start, e.ids, id);
    } else {
      SweepLeavesBusyOnes(start, e.ids);
    }
  }

  /** The response mode of an execution goes with its place in the table, except in a
      shutdown that does not cancel. */
  lemma ModesExactlyAfter(reg: Registry, e: Event, id: ExecutionId)
    requires Valid(reg) && Enabled(reg, e)
    ensures var after := Apply(reg, e);
            && (id in after.responseModes <==>
                  id in reg.responseModes
                  && !(id in reg.active && TakesOut(reg, e, id) && (e.ShutDown? ==> e.regular && e.cancelAll)))
            && (id in after.responseModes ==> after.responseModes[id] == reg.responseModes[id])
  {
    match e
    case Handled(other) => HandlerTakes(reg, other, id);
    case Stopped(other) => StopTakes(reg, other, id);
    case ShutDown(_, _, _) => ShutdownTakes(reg, e, id);
    case _ =>
  }

  // ---------- Entries ----------

  /** A stop, or a cancelling shutdown, of the execution the run is registered for, which is
      not waiting. */
  predicate Cancels(reg: Registry, e: Event, run: RunId)
    requires run in reg.entries
  {
    var id := reg.entries[run].executionId;
    && (e == Stopped(id) || (e.ShutDown? && e.regular && e.cancelAll))
    && Leads(reg, id, run) && reg.entries[run].status != Waiting
  }

  ghost predicate ChangesRight(reg: Registry, e: Event, run: RunId, before: Entry, after: Entry)
    requires run in reg.entries
  {
    && after.executionId == before.executionId && after.startedAt == before.startedAt
    && after.responsePromise ==
         (if e.ResponseAttached? && Leads(reg, e.id, run) then Some(e.promise) else before.responsePromise)
    && after.status == (if e.StatusSet? && Leads(reg, e.id, run) then e.status else before.status)
    && (after.attached <==>
          || (e.ExecutionAttached? && Leads(reg, e.id, run))
          || (before.attached && !(e == Handled(run) && before.status == Waiting)))
    && after.settled ==
         (if before.settled.Some? then before.settled
          else if e.Finalized? && Leads(reg, e.id, run) then Some(ResultOf(e.settler))
          else if Cancels(reg, e, run) then Some(Rejected)
          else None)
    && (after.handled <==> before.handled || e == Handled(run))
  }

  /** Each field of an entry changes as follows, and the execution id and the start time
      never do. What is asked of an execution id reaches the run registered under it. */
  lemma EntryExactlyAfter(reg: Registry, e: Event, run: RunId)
    requires Valid(reg) && Enabled(reg, e) && run in reg.entries
    ensures var before := reg.entries[run];
            run in Apply(reg, e).entries && ChangesRight(reg, e, run, before, Apply(reg, e).entries[run])
  {
    match e
    case Handled(other) => HandlerChanges(reg, other, run);
    case Stopped(id) => StopRejects(reg, id, run);
    case ShutDown(_, _, _) => ShutdownRejects(reg, e, run);
    case StatusSet(id, status) => UpdateReaches(reg, id, WithStatus(status), run);
    case ExecutionAttached(id) => UpdateReaches(reg, id, Attached(), run);
    case ResponseAttached(id, promise) => UpdateReaches(reg, id, WithResponse(promise), run);
    case Finalized(id, settler) => UpdateReaches(reg, id, Settled(ResultOf(settler)), run);
    case Reserved(other) => assert Apply(reg, e).entries == reg.entries;
    case GaveUp(other) => assert Apply(reg, e).entries == reg.entries;
    case Registered(other, id, now) => assert Apply(reg, e).entries[run] == reg.entries[run];
  }

  lemma UpdateReaches(reg: Registry, id: ExecutionId, f: Entry -> Entry, run: RunId)
    requires Valid(reg) && run in reg.entries
    ensures run in Update(reg, id, f).entries
    ensures Update(reg, id, f).entries[run] == if Leads(reg, id, run) then f(reg.entries[run]) else reg.entries[run]
  {
  }

  lemma HandlerChanges(reg: Registry, other: RunId, run: RunId)
    requires other in reg.entries && run in reg.entries
    ensures var before := reg.entries[run];
            run in Handle(reg, other).entries && Handle(reg, other).entries[run] ==
              if run != other then before
              else if before.status == Waiting then before.(attached := false, handled := true)
              else before.(handled := true)
  {
  }

  lemma ShutdownRejects(reg: Registry, e: Event, run: RunId)
    requires Valid(reg) && Enabled(reg, e) && e.ShutDown? && run in reg.entries
    ensures var before := reg.entries[run];
            && run in Apply(reg, e).entries
            && Apply(reg, e).entries[run] == before.(settled :=
                 if before.settled == None && Cancels(reg, e, run) then Some(Rejected) else before.settled)
  {
    var start := if e.regular then Disable(reg) else reg;
    assert Valid(start);
    assert reg.entries[run].executionId in reg.active ==> reg.entries[run].executionId in (set i | i in e.ids);
    if e.regular && e.cancelAll {
      CancellingSweepRejects(start, e.ids, run);
    } else {
      SweepLeavesBusyOnes(start, e.ids);
    }
  }

  /** A run that registers is running, with nothing attached and an open promise; it began
      when the execution it resumes did, if that is registered, and has its response promise;
      otherwise it begins now, without. */
  lemma RegistersExactly(reg: Registry, run: RunId, id: ExecutionId, now: int)
    requires Valid(reg) && Enabled(reg, Registered(run, id, now))
    ensures var after := Apply(reg, Registered(run, id, now));
            && after.entries.Keys == reg.entries.Keys + {run}
            && after.entries[run].executionId == id && after.entries[run].status == Running
            && !after.entries[run].attached && !after.entries[run].handled && after.entries[run].settled == None
            && (id !in reg.active ==> after.entries[run].startedAt == now && after.entries[run].responsePromise == None)
            && (forall resumed :: Leads(reg, id, resumed) ==>
                  && after.entries[run].startedAt == reg.entries[resumed].startedAt
                  && after.entries[run].responsePromise == reg.entries[resumed].responsePromise)
  {
  }
}
