/** The executions of one process, as a value: which run is registered under which
    execution id, what each run's entry holds, and the capacity units in use.

    A run is one call of `add`. Its entry outlives its place in the table: the handler
    that waits for the run to settle holds on to the entry and to the run's capacity
    reservation, whoever is registered under the id by then. */
module ExecutionRegistry {
  import opened Wrappers

  type ExecutionId = string
  type RunId = nat
  type PromiseId = nat

  datatype Status = New | Running | Waiting | Success | Error | Canceled | Crashed

  datatype Entry = Entry(
    executionId: ExecutionId,
    startedAt: int,
    responsePromise: Option<PromiseId>,
    status: Status,
    attached: bool,               // a workflow execution is attached
    settled: Option<Settlement>,  // the post-execution promise is settled
    handled: bool)                // and the handler waiting for that has run

  /** With the result a run came to, or rejected, when cancelled. */
  datatype Settlement = ResultOf(run: RunId) | Rejected

  datatype Registry = Registry(
    active: map<ExecutionId, RunId>,
    entries: map<RunId, Entry>,
    responseModes: map<ExecutionId, string>,
    held: set<RunId>,
    inUse: int,
    enabled: bool,
    limit: Option<nat>)

  function Empty(limit: Option<nat>): Registry {
    Registry(map[], map[], map[], {}, 0, true, limit)
  }

  // ---------- The steps ----------

  /** Concurrency control lets a run through, unless it was switched off, only below the limit. */
  predicate HasCapacity(reg: Registry) {
    !reg.enabled || reg.limit.None? || reg.inUse < reg.limit.value
  }

  function Reserve(reg: Registry, run: RunId): Registry {
    reg.(held := reg.held + {run}, inUse := if reg.enabled then reg.inUse + 1 else reg.inUse)
  }

  /** Does nothing when nothing is held. */
  function Release(reg: Registry, run: RunId): Registry {
    if run !in reg.held then reg
    else reg.(held := reg.held - {run}, inUse := if reg.enabled then reg.inUse - 1 else reg.inUse)
  }

  /** Releasing undoes reserving. */
  lemma ReleaseUndoesReserve(reg: Registry, run: RunId)
    requires run !in reg.held
    ensures Release(Reserve(reg, run), run) == reg
  {
    assert reg.held + {run} - {run} == reg.held;
  }

  /** A new entry, running, takes over from the one it replaces, if any. */
  function NewEntry(reg: Registry, id: ExecutionId, now: int): Entry {
    if id in reg.active && reg.active[id] in reg.entries then
      var resumed := reg.entries[reg.active[id]];
      Entry(id, resumed.startedAt, resumed.responsePromise, Running, false, None, false)
    else Entry(id, now, None, Running, false, None, false)
  }

  function Register(reg: Registry, run: RunId, id: ExecutionId, now: int): Registry {
    reg.(active := reg.active[id := run], entries := reg.entries[run := NewEntry(reg, id, now)])
  }

  function Unregister(reg: Registry, id: ExecutionId): Registry {
    reg.(active := reg.active - {id}, responseModes := reg.responseModes - {id})
  }

  /** Changes the entry registered under `id`, whichever run it belongs to. */
  function Update(reg: Registry, id: ExecutionId, f: Entry -> Entry): Registry {
    if id in reg.active && reg.active[id] in reg.entries then
      var run := reg.active[id];
      reg.(entries := reg.entries[run := f(reg.entries[run])])
    else reg
  }

  function WithStatus(status: Status): Entry -> Entry {
    (e: Entry) => e.(status := status)
  }

  function Attached(): Entry -> Entry {
    (e: Entry) => e.(attached := true)
  }

  function WithResponse(promise: PromiseId): Entry -> Entry {
    (e: Entry) => e.(responsePromise := Some(promise))
  }

  /** A promise settles once. */
  function Settled(how: Settlement): Entry -> Entry {
    (e: Entry) => if e.settled.Some? then e else e.(settled := Some(how))
  }

  function SetStatus(reg: Registry, id: ExecutionId, status: Status): Registry {
    Update(reg, id, WithStatus(status))
  }

  function AttachExecution(reg: Registry, id: ExecutionId): Registry {
    Update(reg, id, Attached())
  }

  function AttachResponse(reg: Registry, id: ExecutionId, promise: PromiseId): Registry {
    Update(reg, id, WithResponse(promise))
  }

  function Settle(reg: Registry, id: ExecutionId, how: Settlement): Registry {
    Update(reg, id, Settled(how))
  }

  /** With the result of `run`, whichever run is registered. */
  function Finalize(reg: Registry, id: ExecutionId, run: RunId): Registry {
    Settle(reg, id, ResultOf(run))
  }

  predicate IsWaiting(reg: Registry, id: ExecutionId) {
    id in reg.active && reg.active[id] in reg.entries && reg.entries[reg.active[id]].status == Waiting
  }

  /** A waiting execution is dropped at once, any other is cancelled and left to its handler. */
  function Stop(reg: Registry, id: ExecutionId): Registry {
    if IsWaiting(reg, id) then Unregister(reg, id) else Settle(reg, id, Rejected)
  }

  /** The settlement handler of `run`. */
  function Handle(reg: Registry, run: RunId): Registry
    requires run in reg.entries
  {
    var entry := reg.entries[run];
    var released := Release(reg, run);
    if entry.status == Waiting then
      released.(entries := reg.entries[run := entry.(attached := false, handled := true)])
    else
      Unregister(released.(entries := reg.entries[run := entry.(handled := true)]), entry.executionId)
  }

  function Disable(reg: Registry): Registry {
    reg.(enabled := false)
  }

  /** What shutdown does to one execution. */
  function SweepOne(reg: Registry, id: ExecutionId, cancel: bool): Registry {
    if cancel then Stop(reg, id)
    else if id in reg.active && reg.active[id] in reg.entries
            && reg.entries[reg.active[id]].status in {Waiting, New}
    then reg.(active := reg.active - {id})
    else reg
  }

  function Sweep(reg: Registry, ids: seq<ExecutionId>, cancel: bool): Registry {
    if ids == [] then reg
    else SweepOne(Sweep(reg, ids[..|ids| - 1], cancel), ids[|ids| - 1], cancel)
  }

  lemma SweepOneMore(reg: Registry, ids: seq<ExecutionId>, i: nat, cancel: bool)
    requires i < |ids|
    ensures Sweep(reg, ids[..i + 1], cancel) == SweepOne(Sweep(reg, ids[..i], cancel), ids[i], cancel)
  {
    assert ids[..i + 1][..i] == ids[..i];
  }

  // ---------- Well-formed registries ----------

  /** `run` is the run its execution id leads to. */
  predicate IsRegistered(reg: Registry, run: RunId)
    requires run in reg.entries
  {
    reg.entries[run].executionId in reg.active && reg.active[reg.entries[run].executionId] == run
  }

  /** Entries that belong where they are, settle before they are handled, hold a unit
      until they are handled, and, unless they wait, are the ones registered. */
  ghost predicate Valid(reg: Registry) {
    && (forall id :: id in reg.active ==>
        reg.active[id] in reg.entries && reg.entries[reg.active[id]].executionId == id)
    && (forall run :: run in reg.entries ==> (run in reg.held <==> !reg.entries[run].handled))
    && (forall run :: run in reg.entries && reg.entries[run].handled ==> reg.entries[run].settled.Some?)
    && (forall id :: id in reg.active && reg.entries[reg.active[id]].handled ==>
        reg.entries[reg.active[id]].status == Waiting)
    && (forall run :: run in reg.entries && !reg.entries[run].handled && !IsRegistered(reg, run) ==>
        reg.entries[run].status == Waiting)
    && (forall run :: run in reg.entries ==> reg.entries[run].status != New)
    && (reg.enabled ==> reg.inUse == |reg.held|)
    && (reg.enabled && reg.limit.Some? ==> reg.inUse <= reg.limit.value)
  }

  datatype Event =
    | Reserved(run: RunId)
    | GaveUp(run: RunId)
    | Registered(run: RunId, id: ExecutionId, now: int)
    | StatusSet(id: ExecutionId, status: Status)
    | ExecutionAttached(id: ExecutionId)
    | ResponseAttached(id: ExecutionId, promise: PromiseId)
    | Finalized(id: ExecutionId, settler: RunId)
    | Stopped(id: ExecutionId)
    | Handled(run: RunId)
    | ShutDown(regular: bool, cancelAll: bool, ids: seq<ExecutionId>)

  /** Whoever resumes an execution finds its earlier runs waiting. (The database row
      sees to it: ResumeSafety.RegistersAmongWaiting.) */
  predicate EarlierRunsWait(reg: Registry, id: ExecutionId) {
    forall run :: run in reg.entries && reg.entries[run].executionId == id && !reg.entries[run].handled ==>
                    reg.entries[run].status == Waiting
  }

  /** A run reserves and registers once; a handler runs once, after its run settled;
      only runs that are not over set a status, and never back to new. */
  predicate Enabled(reg: Registry, e: Event) {
    match e
    case Reserved(run) => run !in reg.held && run !in reg.entries && HasCapacity(reg)
    case GaveUp(run) => run !in reg.entries
    case Registered(run, id, _) => run in reg.held && run !in reg.entries && EarlierRunsWait(reg, id)
    case StatusSet(id, status) => status != New
        && (id in reg.active && reg.active[id] in reg.entries ==> !reg.entries[reg.active[id]].handled)
    case Handled(run) => run in reg.entries && reg.entries[run].settled.Some? && !reg.entries[run].handled
    case ShutDown(_, _, ids) => (set id | id in ids) == reg.active.Keys
    case _ => true
  }

  function Apply(reg: Registry, e: Event): Registry
    requires Enabled(reg, e)
  {
    match e
    case Reserved(run) => Reserve(reg, run)
    case GaveUp(run) => Release(reg, run)
    case Registered(run, id, now) => Register(reg, run, id, now)
    case StatusSet(id, status) => SetStatus(reg, id, status)
    case ExecutionAttached(id) => AttachExecution(reg, id)
    case ResponseAttached(id, promise) => AttachResponse(reg, id, promise)
    case Finalized(id, settler) => Finalize(reg, id, settler)
    case Stopped(id) => Stop(reg, id)
    case Handled(run) => Handle(reg, run)
    case ShutDown(regular, cancelAll, ids) => Sweep(if regular then Disable(reg) else reg, ids, regular && cancelAll)
  }

  lemma ReserveValid(reg: Registry, run: RunId)
    requires Valid(reg) && Enabled(reg, Reserved(run))
    ensures Valid(Reserve(reg, run))
  {
  }

  lemma ReleaseValid(reg: Registry, run: RunId)
    requires Valid(reg) && run !in reg.entries
    ensures Valid(Release(reg, run))
  {
  }

  lemma UpdateValid(reg: Registry, id: ExecutionId, f: Entry -> Entry)
    requires Valid(reg)
    requires forall e: Entry :: f(e).executionId == e.executionId && f(e).handled == e.handled
    requires forall e: Entry :: e.settled.Some? ==> f(e).settled.Some?
    requires forall e: Entry :: e.status != New ==> f(e).status != New
    requires id in reg.active && reg.entries[reg.active[id]].handled ==>
               f(reg.entries[reg.active[id]]).status == reg.entries[reg.active[id]].status
    ensures Valid(Update(reg, id, f))
  {
    if id in reg.active {
      var run := reg.active[id];
      var after := Update(reg, id, f);
      forall other | other in reg.active && other != id
        ensures after.active[other] in after.entries
            && after.entries[after.active[other]] == reg.entries[reg.active[other]]
      {
        assert reg.active[other] != run;
      }
    }
  }

  lemma StopValid(reg: Registry, id: ExecutionId)
    requires Valid(reg)
    ensures Valid(Stop(reg, id))
  {
    UpdateValid(reg, id, Settled(Rejected));
  }

  lemma HandleWaitingValid(reg: Registry, run: RunId)
    requires Valid(reg) && Enabled(reg, Handled(run)) && reg.entries[run].status == Waiting
    ensures Valid(Handle(reg, run))
  {
  }

  lemma HandleOverValid(reg: Registry, run: RunId)
    requires Valid(reg) && Enabled(reg, Handled(run)) && reg.entries[run].status != Waiting
    ensures Valid(Handle(reg, run))
  {
    assert IsRegistered(reg, run);
  }

  lemma HandleValid(reg: Registry, run: RunId)
    requires Valid(reg) && Enabled(reg, Handled(run))
    ensures Valid(Handle(reg, run))
  {
    if reg.entries[run].status == Waiting {
      HandleWaitingValid(reg, run);
    } else {
      HandleOverValid(reg, run);
    }
  }

  lemma RegisterValid(reg: Registry, run: RunId, id: ExecutionId, now: int)
    requires Valid(reg) && Enabled(reg, Registered(run, id, now))
    ensures Valid(Register(reg, run, id, now))
  {
  }

  lemma SweepOneValid(reg: Registry, id: ExecutionId, cancel: bool)
    requires Valid(reg)
    ensures Valid(SweepOne(reg, id, cancel))
    ensures SweepOne(reg, id, cancel).held == reg.held && SweepOne(reg, id, cancel).entries.Keys == reg.entries.Keys
  {
    if cancel {
      StopValid(reg, id);
    }
  }

  lemma {:induction false} SweepValid(reg: Registry, ids: seq<ExecutionId>, cancel: bool)
    requires Valid(reg)
    ensures Valid(Sweep(reg, ids, cancel))
    ensures Sweep(reg, ids, cancel).held == reg.held && Sweep(reg, ids, cancel).entries.Keys == reg.entries.Keys
  {
    if ids != [] {
      SweepValid(reg, ids[..|ids| - 1], cancel);
      SweepOneValid(Sweep(reg, ids[..|ids| - 1], cancel), ids[|ids| - 1], cancel);
    }
  }

  /** Every step of the registry keeps it well formed. */
  lemma ApplyValid(reg: Registry, e: Event)
    requires Valid(reg) && Enabled(reg, e)
    ensures Valid(Apply(reg, e))
  {
    match e
    case Reserved(run) => ReserveValid(reg, run);
    case GaveUp(run) => ReleaseValid(reg, run);
    case Registered(run, id, now) => RegisterValid(reg, run, id, now);
    case StatusSet(id, status) => UpdateValid(reg, id, WithStatus(status));
    case ExecutionAttached(id) => UpdateValid(reg, id, Attached());
    case ResponseAttached(id, promise) => UpdateValid(reg, id, WithResponse(promise));
    case Finalized(id, settler) => UpdateValid(reg, id, Settled(ResultOf(settler)));
    case Stopped(id) => StopValid(reg, id);
    case Handled(run) => HandleValid(reg, run);
    case ShutDown(regular, cancelAll, ids) =>
      SweepValid(if regular then Disable(reg) else reg, ids, regular && cancelAll);
  }
}
