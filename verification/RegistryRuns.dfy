/** What holds over every run of the registry of active executions: capacity is
    conserved, resumed executions keep what they started with, shutdown drains the
    table, and exactly which runs never give their capacity back. */
module RegistryRuns {
  import opened Wrappers
  import opened ExecutionRegistry

  ghost predicate Feasible(reg: Registry, events: seq<Event>)
    decreases |events|
  {
    events == [] || (Enabled(reg, events[0]) && Feasible(Apply(reg, events[0]), events[1..]))
  }

  ghost function After(reg: Registry, events: seq<Event>): Registry
    requires Feasible(reg, events)
    decreases |events|
  {
    if events == [] then reg else After(Apply(reg, events[0]), events[1..])
  }

  lemma {:induction false} AlwaysValid(reg: Registry, events: seq<Event>)
    requires Valid(reg) && Feasible(reg, events)
    ensures Valid(After(reg, events))
    decreases |events|
  {
    if events != [] {
      ApplyValid(reg, events[0]);
      AlwaysValid(Apply(reg, events[0]), events[1..]);
    }
  }

  // ---------- Capacity ----------

  /** Runs past `reserve` that are not registered yet. */
  ghost function PendingAdds(reg: Registry): set<RunId> {
    reg.held - reg.entries.Keys
  }

  /** Registered runs whose settlement handler has not run. */
  ghost function Unhandled(reg: Registry): set<RunId> {
    set run | run in reg.entries && !reg.entries[run].handled
  }

  /** As long as concurrency control is on, the units in use are those of pending and
      of unhandled runs, and never more than the limit. */
  lemma CapacityConserved(limit: Option<nat>, events: seq<Event>)
    requires Feasible(Empty(limit), events) && After(Empty(limit), events).enabled
    ensures var reg := After(Empty(limit), events);
            reg.inUse == |PendingAdds(reg)| + |Unhandled(reg)|
    ensures limit.Some? ==> After(Empty(limit), events).inUse <= limit.value
  {
    assert Valid(Empty(limit));
    AlwaysValid(Empty(limit), events);
    LimitStays(Empty(limit), events);
    HeldSplits(After(Empty(limit), events));
  }

  lemma HeldSplits(reg: Registry)
    requires Valid(reg)
    ensures |reg.held| == |PendingAdds(reg)| + |Unhandled(reg)|
  {
    assert reg.held == PendingAdds(reg) + Unhandled(reg);
  }

  lemma {:induction false} SweepKeepsConfiguration(reg: Registry, ids: seq<ExecutionId>, cancel: bool)
    ensures var r := Sweep(reg, ids, cancel);
            r.limit == reg.limit && r.enabled == reg.enabled && r.inUse == reg.inUse && r.held == reg.held
  {
    if ids != [] {
      SweepKeepsConfiguration(reg, ids[..|ids| - 1], cancel);
    }
  }

  lemma {:induction false} LimitStays(reg: Registry, events: seq<Event>)
    requires Feasible(reg, events)
    ensures After(reg, events).limit == reg.limit
    decreases |events|
  {
    if events != [] {
      if events[0].ShutDown? {
        SweepKeepsConfiguration(if events[0].regular then Disable(reg) else reg, events[0].ids,
                                events[0].regular && events[0].cancelAll);
      }
      LimitStays(Apply(reg, events[0]), events[1..]);
    }
  }

  ghost function Reservations(events: seq<Event>, run: RunId): nat {
    if events == [] then 0
    else (if events[0] == Reserved(run) then 1 else 0) + Reservations(events[1..], run)
  }

  /** `run` gives up while it holds a unit, or its settlement handler runs. */
  predicate HandsBack(reg: Registry, e: Event, run: RunId) {
    (e == GaveUp(run) && run in reg.held) || e == Handled(run)
  }

  ghost function Releases(reg: Registry, events: seq<Event>, run: RunId): nat
    requires Feasible(reg, events)
    decreases |events|
  {
    if events == [] then 0
    else (if HandsBack(reg, events[0], run) then 1 else 0) + Releases(Apply(reg, events[0]), events[1..], run)
  }

  /** Only reserving takes a unit for `run`, and exactly the steps that hand it back give
      it up. */
  lemma HeldAfter(reg: Registry, e: Event, run: RunId)
    requires Valid(reg) && Enabled(reg, e)
    ensures e == Reserved(run) ==> run !in reg.held && run in Apply(reg, e).held
    ensures HandsBack(reg, e, run) ==> run in reg.held && run !in Apply(reg, e).held
    ensures e != Reserved(run) && !HandsBack(reg, e, run) ==> (run in Apply(reg, e).held <==> run in reg.held)
  {
    if e.ShutDown? {
      SweepKeepsConfiguration(if e.regular then Disable(reg) else reg, e.ids, e.regular && e.cancelAll);
    }
  }

  lemma {:induction false} ReleasesBalance(reg: Registry, events: seq<Event>, run: RunId)
    requires Valid(reg) && Feasible(reg, events)
    ensures Reservations(events, run) + (if run in reg.held then 1 else 0)
         == Releases(reg, events, run) + (if run in After(reg, events).held then 1 else 0)
    decreases |events|
  {
    if events != [] {
      HeldAfter(reg, events[0], run);
      ApplyValid(reg, events[0]);
      ReleasesBalance(Apply(reg, events[0]), events[1..], run);
    }
  }

  /** Of the reserving and giving up of `run`, the last was reserving. */
  ghost function Reserving(before: bool, events: seq<Event>, run: RunId): bool
    decreases |events|
  {
    if events == [] then before
    else Reserving(events[0] == Reserved(run) || (before && events[0] != GaveUp(run)), events[1..], run)
  }

  lemma {:induction false} UnregisteredHolds(reg: Registry, events: seq<Event>, run: RunId)
    requires Valid(reg) && Feasible(reg, events) && run !in After(reg, events).entries
    ensures run !in reg.entries
    ensures run in After(reg, events).held <==> Reserving(run in reg.held, events, run)
    decreases |events|
  {
    if events != [] {
      HeldAfter(reg, events[0], run);
      ApplyValid(reg, events[0]);
      EntriesStay(reg, events[0]);
      UnregisteredHolds(Apply(reg, events[0]), events[1..], run);
    }
  }

  lemma UpdateKeepsRuns(reg: Registry, id: ExecutionId, f: Entry -> Entry)
    ensures Update(reg, id, f).entries.Keys == reg.entries.Keys
  {
  }

  lemma HandlerKeepsRuns(reg: Registry, run: RunId)
    requires run in reg.entries
    ensures Handle(reg, run).entries.Keys == reg.entries.Keys
  {
  }

  lemma RegisterAddsRun(reg: Registry, run: RunId, id: ExecutionId, now: int)
    ensures Register(reg, run, id, now).entries.Keys == reg.entries.Keys + {run}
  {
  }

  lemma ShutdownKeepsRuns(reg: Registry, e: Event)
    requires Valid(reg) && e.ShutDown? && Enabled(reg, e)
    ensures Apply(reg, e).entries.Keys == reg.entries.Keys
  {
    var start := if e.regular then Disable(reg) else reg;
    assert Valid(start);
    SweepValid(start, e.ids, e.regular && e.cancelAll);
  }

  lemma EntriesStay(reg: Registry, e: Event)
    requires Valid(reg) && Enabled(reg, e)
    ensures Apply(reg, e).entries.Keys == reg.entries.Keys + if e.Registered? then {e.run} else {}
  {
    match e
    case Registered(run, id, now) => RegisterAddsRun(reg, run, id, now);
    case StatusSet(id, status) => UpdateKeepsRuns(reg, id, WithStatus(status));
    case ExecutionAttached(id) => UpdateKeepsRuns(reg, id, Attached());
    case ResponseAttached(id, promise) => UpdateKeepsRuns(reg, id, WithResponse(promise));
    case Finalized(id, settler) => UpdateKeepsRuns(reg, id, Settled(ResultOf(settler)));
    case Stopped(id) => UpdateKeepsRuns(reg, id, Settled(Rejected));
    case Handled(run) => HandlerKeepsRuns(reg, run);
    case ShutDown(_, _, _) => ShutdownKeepsRuns(reg, e);
    case _ =>
  }

  /** One release per reservation. A registered run has handed its unit back exactly if its
      handler has run, whether it finished, was cancelled or went to wait; one that never
      got registered, exactly if it gave up since it last reserved. */
  lemma OneReleasePerReservation(limit: Option<nat>, events: seq<Event>, run: RunId)
    requires Feasible(Empty(limit), events)
    ensures var reg := After(Empty(limit), events);
            var releases := Releases(Empty(limit), events, run);
            && releases <= Reservations(events, run) <= releases + 1
            && (releases == Reservations(events, run) <==>
                if run in reg.entries then reg.entries[run].handled else !Reserving(false, events, run))
  {
    assert Valid(Empty(limit));
    AlwaysValid(Empty(limit), events);
    ReleasesBalance(Empty(limit), events, run);
    if run !in After(Empty(limit), events).entries {
      UnregisteredHolds(Empty(limit), events, run);
    }
  }

  ghost function Handlings(events: seq<Event>, run: RunId): nat {
    if events == [] then 0
    else (if events[0] == Handled(run) then 1 else 0) + Handlings(events[1..], run)
  }

  /** And its handler runs at most once. */
  lemma {:induction false} HandledOnce(reg: Registry, events: seq<Event>, run: RunId)
    requires Valid(reg) && Feasible(reg, events)
    ensures Handlings(events, run) + (if run in reg.entries && reg.entries[run].handled then 1 else 0)
         == if run in After(reg, events).entries && After(reg, events).entries[run].handled then 1 else 0
    decreases |events|
  {
    if events != [] {
      ApplyValid(reg, events[0]);
      HandledAfter(reg, events[0], run);
      HandledOnce(Apply(reg, events[0]), events[1..], run);
    }
  }

  lemma HandledAfter(reg: Registry, e: Event, run: RunId)
    requires Valid(reg) && Enabled(reg, e) && Valid(Apply(reg, e))
    ensures var after := Apply(reg, e);
            run in after.entries && after.entries[run].handled <==>
            e == Handled(run) || (run in reg.entries && reg.entries[run].handled)
  {
    HeldAfter(reg, e, run);
    EntriesStay(reg, e);
    assert run in Apply(reg, e).entries <==> run in reg.entries || (e.Registered? && e.run == run);
  }

  // ---------- Resuming in the same process ----------

  ghost predicate KeptThroughout(reg: Registry, events: seq<Event>, id: ExecutionId)
    requires Feasible(reg, events)
    decreases |events|
  {
    id in reg.active && (events == [] || KeptThroughout(Apply(reg, events[0]), events[1..], id))
  }

  ghost function EntryOf(reg: Registry, id: ExecutionId): Entry
    requires Valid(reg) && id in reg.active
  {
    reg.entries[reg.active[id]]
  }

  /** `id` is still there, with the start time and the response promise it had. */
  ghost predicate KeepsEntry(before: Registry, after: Registry, id: ExecutionId)
    requires Valid(before) && Valid(after)
  {
    id in after.active ==>
      && id in before.active
      && EntryOf(after, id).startedAt == EntryOf(before, id).startedAt
      && EntryOf(after, id).responsePromise == EntryOf(before, id).responsePromise
  }

  lemma UpdateKeepsEntry(reg: Registry, other: ExecutionId, f: Entry -> Entry, id: ExecutionId)
    requires Valid(reg) && Valid(Update(reg, other, f))
    requires forall e: Entry :: f(e).startedAt == e.startedAt
    requires forall e: Entry :: other == id ==> f(e).responsePromise == e.responsePromise
    ensures KeepsEntry(reg, Update(reg, other, f), id)
  {
    if other in reg.active && id in reg.active && other != id {
      assert EntryOf(reg, other).executionId != EntryOf(reg, id).executionId;
      assert reg.active[other] != reg.active[id];
    }
  }

  lemma StopKeepsEntry(reg: Registry, other: ExecutionId, id: ExecutionId)
    requires Valid(reg)
    ensures Valid(Stop(reg, other)) && KeepsEntry(reg, Stop(reg, other), id)
  {
    StopValid(reg, other);
    if !IsWaiting(reg, other) {
      UpdateKeepsEntry(reg, other, Settled(Rejected), id);
    }
  }

  lemma {:induction false} SweepKeepsEntry(reg: Registry, ids: seq<ExecutionId>, cancel: bool, id: ExecutionId)
    requires Valid(reg)
    ensures Valid(Sweep(reg, ids, cancel)) && KeepsEntry(reg, Sweep(reg, ids, cancel), id)
  {
    SweepValid(reg, ids, cancel);
    if ids != [] {
      var before := Sweep(reg, ids[..|ids| - 1], cancel);
      SweepKeepsEntry(reg, ids[..|ids| - 1], cancel, id);
      if cancel {
        StopKeepsEntry(before, ids[|ids| - 1], id);
      } else {
        SweepOneValid(before, ids[|ids| - 1], cancel);
        assert KeepsEntry(before, SweepOne(before, ids[|ids| - 1], cancel), id);
      }
    }
  }

  lemma StepCarriesOver(reg: Registry, e: Event, id: ExecutionId)
    requires Valid(reg) && Enabled(reg, e) && id in reg.active
    ensures Valid(Apply(reg, e))
    ensures id in Apply(reg, e).active ==> EntryOf(Apply(reg, e), id).startedAt == EntryOf(reg, id).startedAt
    ensures !(e.ResponseAttached? && e.id == id) ==> KeepsEntry(reg, Apply(reg, e), id)
  {
    ApplyValid(reg, e);
    if e.ResponseAttached? && e.id == id {
      assert EntryOf(Apply(reg, e), id) == EntryOf(reg, id).(responsePromise := Some(e.promise));
    } else {
      StepKeepsEntry(reg, e, id);
    }
  }

  lemma StepKeepsEntry(reg: Registry, e: Event, id: ExecutionId)
    requires Valid(reg) && Enabled(reg, e) && id in reg.active && Valid(Apply(reg, e))
    requires !(e.ResponseAttached? && e.id == id)
    ensures KeepsEntry(reg, Apply(reg, e), id)
  {
    match e
    case Reserved(run) => assert KeepsEntry(reg, Reserve(reg, run), id);
    case GaveUp(run) => assert KeepsEntry(reg, Release(reg, run), id);
    case Registered(run, other, now) => RegisterKeepsEntry(reg, run, other, now, id);
    case StatusSet(_, _) => EntryChangeKeepsEntry(reg, e, id);
    case ExecutionAttached(_) => EntryChangeKeepsEntry(reg, e, id);
    case ResponseAttached(_, _) => EntryChangeKeepsEntry(reg, e, id);
    case Finalized(_, _) => EntryChangeKeepsEntry(reg, e, id);
    case Stopped(other) => StopKeepsEntry(reg, other, id);
    case Handled(run) => HandleKeepsEntry(reg, run, id);
    case ShutDown(regular, cancelAll, ids) =>
      ShutdownKeepsEntry(reg, regular, cancelAll, ids, id);
  }

  lemma ShutdownKeepsEntry(reg: Registry, regular: bool, cancelAll: bool, ids: seq<ExecutionId>, id: ExecutionId)
    requires Valid(reg) && id in reg.active
    ensures var after := Sweep(if regular then Disable(reg) else reg, ids, regular && cancelAll);
            Valid(after) && KeepsEntry(reg, after, id)
  {
    var start := if regular then Disable(reg) else reg;
    assert Valid(start);
    SweepKeepsEntry(start, ids, regular && cancelAll, id);
  }

  lemma EntryChangeKeepsEntry(reg: Registry, e: Event, id: ExecutionId)
    requires Valid(reg) && Enabled(reg, e) && Valid(Apply(reg, e)) && !(e.ResponseAttached? && e.id == id)
    requires e.StatusSet? || e.ExecutionAttached? || e.ResponseAttached? || e.Finalized?
    ensures KeepsEntry(reg, Apply(reg, e), id)
  {
    match e
    case StatusSet(other, status) => UpdateKeepsEntry(reg, other, WithStatus(status), id);
    case ExecutionAttached(other) => UpdateKeepsEntry(reg, other, Attached(), id);
    case ResponseAttached(other, promise) => UpdateKeepsEntry(reg, other, WithResponse(promise), id);
    case Finalized(other, settler) => UpdateKeepsEntry(reg, other, Settled(ResultOf(settler)), id);
  }

  lemma RegisterKeepsEntry(reg: Registry, run: RunId, other: ExecutionId, now: int, id: ExecutionId)
    requires Valid(reg) && Enabled(reg, Registered(run, other, now)) && id in reg.active
    requires Valid(Register(reg, run, other, now))
    ensures KeepsEntry(reg, Register(reg, run, other, now), id)
  {
  }

  lemma HandleKeepsEntry(reg: Registry, run: RunId, id: ExecutionId)
    requires Valid(reg) && Enabled(reg, Handled(run)) && Valid(Handle(reg, run))
    ensures KeepsEntry(reg, Handle(reg, run), id)
  {
  }

  /** Through any number of resumes, an execution that stays in the table keeps its
      start time, and its response promise unless a new one is attached. */
  lemma {:induction false} ResumesCarryOver(reg: Registry, events: seq<Event>, id: ExecutionId)
    requires Valid(reg) && Feasible(reg, events) && KeptThroughout(reg, events, id)
    ensures Valid(After(reg, events)) && id in After(reg, events).active
    ensures EntryOf(After(reg, events), id).startedAt == EntryOf(reg, id).startedAt
    ensures (forall e :: e in events && e.ResponseAttached? ==> e.id != id) ==>
              EntryOf(After(reg, events), id).responsePromise == EntryOf(reg, id).responsePromise
    decreases |events|
  {
    if events != [] {
      StepCarriesOver(reg, events[0], id);
      ResumesCarryOver(Apply(reg, events[0]), events[1..], id);
      if forall e :: e in events && e.ResponseAttached? ==> e.id != id {
        assert events[0] in events;
        assert forall e :: e in events[1..] ==> e in events;
      }
    }
  }

  /** The handler of a superseded run leaves the run that replaced it in the table. */
  lemma HandlersSpareSuccessors(limit: Option<nat>, events: seq<Event>, run: RunId, id: ExecutionId)
    requires Feasible(Empty(limit), events) && Enabled(After(Empty(limit), events), Handled(run))
    requires var reg := After(Empty(limit), events); id in reg.active && reg.active[id] != run
    ensures var reg := After(Empty(limit), events);
            && id in Apply(reg, Handled(run)).active
            && Apply(reg, Handled(run)).active[id] == reg.active[id]
            && FindEntry(Apply(reg, Handled(run)), id) == FindEntry(reg, id)
  {
    assert Valid(Empty(limit));
    AlwaysValid(Empty(limit), events);
  }

  ghost function FindEntry(reg: Registry, id: ExecutionId): Option<Entry> {
    if id in reg.active && reg.active[id] in reg.entries then Some(reg.entries[reg.active[id]]) else None
  }

  // ---------- Runs that never give their capacity back ----------

  /** Registered, not settled, and no longer the run its execution id leads to. */
  ghost predicate Stranded(reg: Registry, run: RunId) {
    && run in reg.entries && !reg.entries[run].settled.Some?
    && !(reg.entries[run].executionId in reg.active && reg.active[reg.entries[run].executionId] == run)
  }

  lemma StopKeepsStranded(reg: Registry, id: ExecutionId, run: RunId)
    requires Valid(reg) && Stranded(reg, run)
    ensures Stranded(Stop(reg, id), run)
  {
  }

  lemma {:induction false} SweepKeepsStranded(reg: Registry, ids: seq<ExecutionId>, cancel: bool, run: RunId)
    requires Valid(reg) && Stranded(reg, run)
    ensures Stranded(Sweep(reg, ids, cancel), run)
  {
    if ids != [] {
      SweepValid(reg, ids[..|ids| - 1], cancel);
      SweepKeepsStranded(reg, ids[..|ids| - 1], cancel, run);
      if cancel {
        StopKeepsStranded(Sweep(reg, ids[..|ids| - 1], cancel), ids[|ids| - 1], run);
      }
    }
  }

  lemma StepKeepsStranded(reg: Registry, e: Event, run: RunId)
    requires Valid(reg) && Enabled(reg, e) && Stranded(reg, run)
    ensures Stranded(Apply(reg, e), run)
  {
    match e
    case Stopped(id) => StopKeepsStranded(reg, id, run);
    case ShutDown(regular, cancelAll, ids) =>
      assert Valid(if regular then Disable(reg) else reg);
      SweepKeepsStranded(if regular then Disable(reg) else reg, ids, regular && cancelAll, run);
    case _ =>
  }

  lemma {:induction false} StrandedForever(reg: Registry, events: seq<Event>, run: RunId)
    requires Valid(reg) && Stranded(reg, run) && Feasible(reg, events)
    ensures Stranded(After(reg, events), run) && run in After(reg, events).held
    decreases |events|
  {
    if events != [] {
      ApplyValid(reg, events[0]);
      StepKeepsStranded(reg, events[0], run);
      StrandedForever(Apply(reg, events[0]), events[1..], run);
    }
  }

  /** A registered run's unit is lost for good exactly when the run is stranded. */
  lemma LostExactlyWhenStranded(reg: Registry, run: RunId)
    requires Valid(reg) && run in reg.entries && run in reg.held
    ensures Stranded(reg, run) <==> forall events :: Feasible(reg, events) ==> run in After(reg, events).held
  {
    if Stranded(reg, run) {
      forall events | Feasible(reg, events)
        ensures run in After(reg, events).held
      {
        StrandedForever(reg, events, run);
      }
    } else {
      ReleasableRun(reg, run);
    }
  }

  /** A run that is settled or still registered can give its unit back. */
  lemma ReleasableRun(reg: Registry, run: RunId)
    requires Valid(reg) && run in reg.entries && run in reg.held && !Stranded(reg, run)
    ensures exists events :: Feasible(reg, events) && run !in After(reg, events).held
  {
    if reg.entries[run].settled.Some? {
      HandlerReleases(reg, run);
    } else {
      var finalized := Finalized(reg.entries[run].executionId, run);
      UpdateValid(reg, finalized.id, Settled(ResultOf(run)));
      HandlerReleases(Apply(reg, finalized), run);
      FirstStep(reg, finalized, [Handled(run)]);
    }
  }

  lemma FirstStep(reg: Registry, e: Event, rest: seq<Event>)
    requires Enabled(reg, e) && Feasible(Apply(reg, e), rest)
    ensures Feasible(reg, [e] + rest) && After(reg, [e] + rest) == After(Apply(reg, e), rest)
  {
    assert ([e] + rest)[1..] == rest;
  }

  lemma HandlerReleases(reg: Registry, run: RunId)
    requires Enabled(reg, Handled(run))
    ensures Feasible(reg, [Handled(run)]) && run !in After(reg, [Handled(run)]).held
  {
    assert [Handled(run)][1..] == [];
    assert After(reg, [Handled(run)]) == Handle(reg, run);
  }

  /** A run not yet settled is stranded by exactly these steps: another run taking its
      place, and, if it is waiting, a stop or a shutdown. */
  lemma StrandedByWhat(reg: Registry, e: Event, run: RunId)
    requires Valid(reg) && Enabled(reg, e) && run in reg.entries && !Stranded(reg, run)
    ensures var id := reg.entries[run].executionId;
            Stranded(Apply(reg, e), run) <==>
            && !reg.entries[run].settled.Some?
            && ((e.Registered? && e.id == id)
                || ((e == Stopped(id) || e.ShutDown?) && reg.entries[run].status == Waiting))
  {
    match e
    case Handled(other) => HandlerStrandsNobody(reg, other, run);
    case Stopped(id) => StopStrandsWaiting(reg, id, run);
    case ShutDown(_, _, _) => ShutdownStrandsWaiting(reg, e, run);
    case _ =>
  }

  lemma ShutdownStrandsWaiting(reg: Registry, e: Event, run: RunId)
    requires Valid(reg) && e.ShutDown? && Enabled(reg, e) && run in reg.entries && !Stranded(reg, run)
    ensures Stranded(Apply(reg, e), run) <==> !reg.entries[run].settled.Some? && reg.entries[run].status == Waiting
  {
    var start := if e.regular then Disable(reg) else reg;
    assert Valid(start);
    assert !reg.entries[run].settled.Some? ==> reg.entries[run].executionId in (set id | id in e.ids);
    SweepStrandsWaiting(start, e.ids, e.regular && e.cancelAll, run);
  }

  /** What a sweep never does to a run's entry. */
  ghost predicate SweptEntry(reg: Registry, after: Registry, run: RunId) {
    && Valid(after) && run in reg.entries && run in after.entries
    && after.entries[run].executionId == reg.entries[run].executionId
    && after.entries[run].status == reg.entries[run].status
    && (reg.entries[run].settled.Some? ==> after.entries[run].settled.Some?)
    && (reg.entries[run].status == Waiting ==> after.entries[run] == reg.entries[run])
  }

  lemma {:induction false} SweepStrandsWaiting(reg: Registry, ids: seq<ExecutionId>, cancel: bool, run: RunId)
    requires Valid(reg) && run in reg.entries && !Stranded(reg, run)
    ensures var after := Sweep(reg, ids, cancel);
            && SweptEntry(reg, after, run)
            && (Stranded(after, run) <==>
                  !reg.entries[run].settled.Some? && reg.entries[run].status == Waiting
                      && reg.entries[run].executionId in ids)
  {
    if ids != [] {
      var init, last := ids[..|ids| - 1], ids[|ids| - 1];
      assert ids == init + [last];
      SweepStrandsWaiting(reg, init, cancel, run);
      SweepOneStrandsWaiting(Sweep(reg, init, cancel), last, cancel, run);
    }
  }

  lemma StopSweepsEntry(reg: Registry, id: ExecutionId, run: RunId)
    requires Valid(reg) && run in reg.entries
    ensures SweptEntry(reg, Stop(reg, id), run)
  {
    StopValid(reg, id);
  }

  lemma SweepOneStrandsWaiting(reg: Registry, id: ExecutionId, cancel: bool, run: RunId)
    requires Valid(reg) && run in reg.entries
    ensures var after := SweepOne(reg, id, cancel);
            && SweptEntry(reg, after, run)
            && (Stranded(after, run) <==>
                  Stranded(reg, run) ||
                  (!reg.entries[run].settled.Some? && reg.entries[run].status == Waiting
                      && reg.entries[run].executionId == id))
  {
    if cancel {
      StopSweepsEntry(reg, id, run);
      if Stranded(reg, run) {
        StopKeepsStranded(reg, id, run);
      } else {
        StopStrandsWaiting(reg, id, run);
      }
    } else {
      SweepOneValid(reg, id, cancel);
    }
  }

  lemma HandlerStrandsNobody(reg: Registry, other: RunId, run: RunId)
    requires Valid(reg) && Enabled(reg, Handled(other)) && run in reg.entries && !Stranded(reg, run)
    ensures !Stranded(Handle(reg, other), run)
  {
  }

  lemma StopStrandsWaiting(reg: Registry, id: ExecutionId, run: RunId)
    requires Valid(reg) && run in reg.entries && !Stranded(reg, run)
    ensures Stranded(Stop(reg, id), run) <==>
            !reg.entries[run].settled.Some? && reg.entries[run].executionId == id && reg.entries[run].status == Waiting
  {
  }

  // ---------- Shutdown ----------

  /** Without cancelling, the sweep leaves exactly the executions neither waiting nor new. */
  lemma {:induction false} SweepLeavesBusyOnes(reg: Registry, ids: seq<ExecutionId>)
    requires Valid(reg)
    ensures Sweep(reg, ids, false) == reg.(active := BusyOnes(reg, ids))
  {
    if ids != [] {
      var init, last := ids[..|ids| - 1], ids[|ids| - 1];
      assert ids == init + [last];
      SweepLeavesBusyOnes(reg, init);
      SweepOneMoreBusy(reg, init, last);
    }
  }

  /** The table without those of `ids` that are waiting or new. */
  ghost function BusyOnes(reg: Registry, ids: seq<ExecutionId>): map<ExecutionId, RunId>
    requires Valid(reg)
  {
    map id | id in reg.active && !(id in ids && EntryOf(reg, id).status in {Waiting, New}) :: reg.active[id]
  }

  lemma SweepOneMoreBusy(reg: Registry, ids: seq<ExecutionId>, id: ExecutionId)
    requires Valid(reg)
    ensures SweepOne(reg.(active := BusyOnes(reg, ids)), id, false) == reg.(active := BusyOnes(reg, ids + [id]))
  {
    if id in BusyOnes(reg, ids) && EntryOf(reg, id).status in {Waiting, New} {
      assert BusyOnes(reg, ids + [id]) == BusyOnes(reg, ids) - {id};
    } else {
      assert BusyOnes(reg, ids + [id]) == BusyOnes(reg, ids);
    }
  }

  /** Every execution left is settled, not waiting, and has its handler still to run. */
  ghost predicate Draining(reg: Registry) {
    forall id :: id in reg.active ==>
                   && reg.active[id] in reg.entries
                   && var entry := reg.entries[reg.active[id]];
                      entry.executionId == id && entry.settled.Some? && !entry.handled && entry.status != Waiting
  }

  /** What a cancelled execution looks like while it is still in the table. */
  ghost predicate Cancelled(reg: Registry, id: ExecutionId) {
    id in reg.active ==>
      reg.active[id] in reg.entries && reg.entries[reg.active[id]].settled.Some?
          && reg.entries[reg.active[id]].status != Waiting
  }

  lemma StopCancels(reg: Registry, id: ExecutionId, other: ExecutionId)
    requires Valid(reg) && (other == id || Cancelled(reg, other))
    ensures Cancelled(Stop(reg, id), other)
  {
  }

  lemma {:induction false} CancellingSweep(reg: Registry, ids: seq<ExecutionId>, id: ExecutionId)
    requires Valid(reg) && id in ids
    ensures Cancelled(Sweep(reg, ids, true), id)
  {
    var init, last := ids[..|ids| - 1], ids[|ids| - 1];
    assert ids == init + [last];
    SweepValid(reg, init, true);
    if id in init {
      CancellingSweep(reg, init, id);
    }
    StopCancels(Sweep(reg, init, true), last, id);
  }

  lemma CancellingShutdownDrains(reg: Registry, ids: seq<ExecutionId>)
    requires Valid(reg) && Enabled(reg, ShutDown(true, true, ids))
    ensures Draining(Apply(reg, ShutDown(true, true, ids)))
  {
    var start := Disable(reg);
    var after := Sweep(start, ids, true);
    SweepValid(start, ids, true);
    forall id | id in after.active
      ensures Cancelled(after, id)
    {
      SweepKeepsEntry(start, ids, true, id);
      assert id in set i | i in ids;
      CancellingSweep(start, ids, id);
    }
  }

  /** No new runs and no status changes. */
  ghost predicate Quiet(events: seq<Event>) {
    forall e :: e in events ==> !e.Registered? && !e.StatusSet? && !e.ShutDown?
  }

  lemma StepStaysDraining(reg: Registry, e: Event)
    requires Draining(reg) && Enabled(reg, e) && !e.Registered? && !e.StatusSet? && !e.ShutDown?
    ensures Draining(Apply(reg, e))
  {
    match e
    case Handled(run) => HandlerStaysDraining(reg, run);
    case Stopped(id) => assert !IsWaiting(reg, id);
    case _ =>
  }

  lemma HandlerStaysDraining(reg: Registry, run: RunId)
    requires Draining(reg) && Enabled(reg, Handled(run))
    ensures Draining(Handle(reg, run))
  {
  }

  lemma {:induction false} StaysDraining(reg: Registry, events: seq<Event>)
    requires Draining(reg) && Feasible(reg, events) && Quiet(events)
    ensures Draining(After(reg, events))
    decreases |events|
  {
    if events != [] {
      assert events[0] in events;
      assert forall e :: e in events[1..] ==> e in events;
      StepStaysDraining(reg, events[0]);
      StaysDraining(Apply(reg, events[0]), events[1..]);
    }
  }

  /** A cancelling shutdown is over once every pending handler has run, in whatever
      order and whatever else happens short of new runs and status changes. */
  lemma CancellingShutdownEnds(reg: Registry, ids: seq<ExecutionId>, events: seq<Event>)
    requires Valid(reg) && Enabled(reg, ShutDown(true, true, ids))
    requires Feasible(Apply(reg, ShutDown(true, true, ids)), events) && Quiet(events)
    ensures var end := After(Apply(reg, ShutDown(true, true, ids)), events);
            (forall run :: run in end.entries && end.entries[run].settled.Some? ==> end.entries[run].handled) ==>
                end.active == map[]
  {
    CancellingShutdownDrains(reg, ids);
    var start := Apply(reg, ShutDown(true, true, ids));
    StaysDraining(start, events);
    var end := After(start, events);
    if forall run :: run in end.entries && end.entries[run].settled.Some? ==> end.entries[run].handled {
      assert forall id :: id !in end.active;
    }
  }

  /** Gone to wait, and its handler has run. */
  ghost predicate Parked(reg: Registry, id: ExecutionId, run: RunId) {
    && id in reg.active && reg.active[id] == run
    && run in reg.entries && reg.entries[run].handled && reg.entries[run].status == Waiting
  }

  lemma StepStaysParked(reg: Registry, e: Event, id: ExecutionId, run: RunId)
    requires Valid(reg) && Enabled(reg, e) && Parked(reg, id, run)
    requires !(e.Registered? && e.id == id) && !e.ShutDown? && e != Stopped(id)
    ensures Parked(Apply(reg, e), id, run)
  {
    match e
    case Handled(other) => HandlerStaysParked(reg, other, id, run);
    case _ =>
  }

  lemma HandlerStaysParked(reg: Registry, other: RunId, id: ExecutionId, run: RunId)
    requires Valid(reg) && Enabled(reg, Handled(other)) && Parked(reg, id, run)
    ensures Parked(Handle(reg, other), id, run)
  {
    assert reg.entries[run].executionId == id;
  }

  /** The other kind of shutdown waits for each execution left to settle. One that goes
      to wait instead stays in the table, once its handler has run, until it is stopped
      or resumed, and meanwhile the shutdown does not end. */
  lemma {:induction false} WaitingExecutionBlocksShutdown(reg: Registry,
      events: seq<Event>, id: ExecutionId, run: RunId)
    requires Valid(reg) && Parked(reg, id, run) && Feasible(reg, events)
    requires forall e :: e in events ==> !(e.Registered? && e.id == id) && !e.ShutDown? && e != Stopped(id)
    ensures Parked(After(reg, events), id, run)
    decreases |events|
  {
    if events != [] {
      assert events[0] in events;
      assert forall e :: e in events[1..] ==> e in events;
      ApplyValid(reg, events[0]);
      StepStaysParked(reg, events[0], id, run);
      WaitingExecutionBlocksShutdown(Apply(reg, events[0]), events[1..], id, run);
    }
  }

  /** `run` leads the execution for as long as the execution is in the table, and is out
      of it exactly once it has been handled without waiting. */
  ghost predicate LeavesWhenHandled(reg: Registry, id: ExecutionId, run: RunId) {
    && run in reg.entries && reg.entries[run].executionId == id
    && (id in reg.active ==> reg.active[id] == run)
    && (id !in reg.active <==> reg.entries[run].handled && reg.entries[run].status != Waiting)
  }

  /** Neither adds, nor drops executions on request. */
  predicate OnlySettles(e: Event) {
    !e.Registered? && !e.ShutDown? && !e.Stopped?
  }

  lemma HandlerStepLeaves(reg: Registry, other: RunId, id: ExecutionId, run: RunId)
    requires Valid(reg) && Enabled(reg, Handled(other)) && LeavesWhenHandled(reg, id, run)
    ensures LeavesWhenHandled(Handle(reg, other), id, run)
  {
  }

  lemma StepLeaves(reg: Registry, e: Event, id: ExecutionId, run: RunId)
    requires Valid(reg) && Enabled(reg, e) && OnlySettles(e) && LeavesWhenHandled(reg, id, run)
    ensures LeavesWhenHandled(Apply(reg, e), id, run)
  {
    if e.Handled? {
      HandlerStepLeaves(reg, e.run, id, run);
    }
  }

  lemma {:induction false} ExecutionLeavesExactlyWhenHandled(reg: Registry,
      events: seq<Event>, id: ExecutionId, run: RunId)
    requires Valid(reg) && Feasible(reg, events) && forall e :: e in events ==> OnlySettles(e)
    requires LeavesWhenHandled(reg, id, run)
    ensures LeavesWhenHandled(After(reg, events), id, run)
    decreases |events|
  {
    if events != [] {
      assert events[0] in events;
      assert forall e :: e in events[1..] ==> e in events;
      ApplyValid(reg, events[0]);
      StepLeaves(reg, events[0], id, run);
      ExecutionLeavesExactlyWhenHandled(Apply(reg, events[0]), events[1..], id, run);
    }
  }

  lemma {:induction false} TableShrinks(reg: Registry, events: seq<Event>)
    requires Feasible(reg, events) && forall e :: e in events ==> OnlySettles(e)
    ensures After(reg, events).active.Keys <= reg.active.Keys
    decreases |events|
  {
    if events != [] {
      assert events[0] in events;
      assert forall e :: e in events[1..] ==> e in events;
      TableShrinks(Apply(reg, events[0]), events[1..]);
    }
  }

  /** A shutdown that does not cancel is over exactly when each of the executions it left
      in the table has been handled, and had not gone to wait by then. */
  lemma ShutdownEndsExactlyWhen(reg: Registry, shutdown: Event, events: seq<Event>)
    requires Valid(reg) && shutdown.ShutDown? && !(shutdown.regular && shutdown.cancelAll) && Enabled(reg, shutdown)
    requires Feasible(Apply(reg, shutdown), events) && forall e :: e in events ==> OnlySettles(e)
    ensures var start := Apply(reg, shutdown);
            var end := After(start, events);
            && (forall id :: id in start.active ==> start.active[id] in end.entries)
            && (end.active == map[] <==>
                forall id :: id in start.active ==>
                  end.entries[start.active[id]].handled && end.entries[start.active[id]].status != Waiting)
  {
    ApplyValid(reg, shutdown);
    var start := Apply(reg, shutdown);
    var end := After(start, events);
    TableShrinks(start, events);
    forall id | id in start.active
      ensures LeavesWhenHandled(end, id, start.active[id])
    {
      ExecutionLeavesExactlyWhenHandled(start, events, id, start.active[id]);
    }
    if end.active == map[] {
      assert forall id :: id !in end.active;
    } else {
      var id :| id in end.active;
      assert id in start.active;
    }
  }

  /** And the executions that do settle without waiting leave with their handler. */
  lemma SettledExecutionLeaves(reg: Registry, run: RunId)
    requires Valid(reg) && Enabled(reg, Handled(run)) && reg.entries[run].status != Waiting
    ensures reg.entries[run].executionId !in Apply(reg, Handled(run)).active
  {
  }
}
