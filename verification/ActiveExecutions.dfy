/** The registry as the service keeps it: a table of mutable entries, shared with the
    settlement handlers that captured them, and reservations that are given back in
    place. Every method is tied to a step of `ExecutionRegistry`. */
module ActiveExecutions {
  import opened Wrappers
  import opened ExecutionRegistry

  class ExecutingWorkflow {
    const run: RunId
    const executionId: ExecutionId
    const startedAt: int
    var responsePromise: Option<PromiseId>
    var status: Status
    var attached: bool
    var settled: Option<Settlement>

    constructor (run: RunId, executionId: ExecutionId, startedAt: int, responsePromise: Option<PromiseId>)
      ensures this.run == run && this.executionId == executionId && this.startedAt == startedAt
      ensures this.responsePromise == responsePromise && status == Running && !attached && settled == None
    {
      this.run, this.executionId, this.startedAt := run, executionId, startedAt;
      this.responsePromise, status, attached, settled := responsePromise, Running, false, None;
    }

    ghost function Snapshot(handled: bool): Entry
      reads this
    {
      Entry(executionId, startedAt, responsePromise, status, attached, settled, handled)
    }
  }

  class ConcurrencyControl {
    const limit: Option<nat>
    var isEnabled: bool
    var inUse: int

    constructor (limit: Option<nat>)
      ensures this.limit == limit && isEnabled && inUse == 0
    {
      this.limit, isEnabled, inUse := limit, true, 0;
    }

    /** Lets a run through, or keeps it waiting for its turn. */
    method Throttle() returns (admitted: bool)
      modifies this
      ensures admitted == (!old(isEnabled) || limit.None? || old(inUse) < limit.value)
      ensures isEnabled == old(isEnabled)
      ensures inUse == if isEnabled && admitted then old(inUse) + 1 else old(inUse)
    {
      admitted := !isEnabled || limit.None? || inUse < limit.value;
      if isEnabled && admitted {
        inUse := inUse + 1;
      }
    }

    method Release()
      modifies this
      ensures isEnabled == old(isEnabled) && inUse == if isEnabled then old(inUse) - 1 else old(inUse)
    {
      if isEnabled {
        inUse := inUse - 1;
      }
    }
  }

  class Reservation {
    const run: RunId
    const control: ConcurrencyControl
    var acquired: bool

    constructor (run: RunId, control: ConcurrencyControl)
      ensures this.run == run && this.control == control && !acquired
    {
      this.run, this.control, acquired := run, control, false;
    }

    method Release()
      modifies this, control
      ensures !acquired && control.isEnabled == old(control.isEnabled)
      ensures control.inUse == if old(acquired) && control.isEnabled then old(control.inUse) - 1 else old(control.inUse)
    {
      if !acquired {
        return;
      }
      control.Release();
      acquired := false;
    }
  }

  /** The row of one execution. */
  class ExecutionRow {
    var status: Status

    constructor ()
      ensures status == New
    {
      status := New;
    }

    method SetRunning()
      modifies this
      ensures status == Running
    {
      status := Running;
    }

    /** One statement of the database. */
    method UpdateIfWaiting() returns (updated: bool)
      modifies this
      ensures updated == (old(status) == Waiting)
      ensures status == if updated then Running else old(status)
    {
      updated := status == Waiting;
      if updated {
        status := Running;
      }
    }
  }

  datatype AddOutcome = Throttled | AlreadyResuming | Added

  /** What the handler of a run captured when the run was added. */
  datatype Handler = Handler(entry: ExecutingWorkflow, reservation: Reservation)

  class ActiveExecutions {
    const concurrencyControl: ConcurrencyControl
    var activeExecutions: map<ExecutionId, ExecutingWorkflow>
    var responseModes: map<ExecutionId, string>
    /** Reservations made by calls of `add`, finished or not. */
    var reservations: map<RunId, Reservation>
    /** The handlers attached to post-execution promises, and those that have run. */
    var handlers: map<RunId, Handler>
    var handled: set<RunId>

    ghost function Entries(): set<ExecutingWorkflow>
      reads this`handlers
    {
      set run | run in handlers :: handlers[run].entry
    }

    ghost function Reservations(): set<Reservation>
      reads this`reservations
    {
      set run | run in reservations :: reservations[run]
    }

    ghost predicate Wired()
      reads this, Entries(), Reservations()
    {
      && (forall run :: run in reservations ==>
          reservations[run].run == run && reservations[run].control == concurrencyControl)
      && (forall run :: run in handlers ==>
                          && handlers[run].entry.run == run
                          && run in reservations && handlers[run].reservation == reservations[run])
      && (forall id :: id in activeExecutions ==>
                         && activeExecutions[id].run in handlers
                         && handlers[activeExecutions[id].run].entry == activeExecutions[id]
                         && activeExecutions[id].executionId == id)
    }

    ghost function ActiveView(): map<ExecutionId, RunId>
      reads this`activeExecutions
    {
      map id | id in activeExecutions :: activeExecutions[id].run
    }

    ghost function EntriesView(): map<RunId, Entry>
      reads this`handlers, this`handled, Entries()
    {
      map run | run in handlers :: handlers[run].entry.Snapshot(run in handled)
    }

    ghost function HeldView(): set<RunId>
      reads this`reservations, Reservations()
    {
      set run | run in reservations && reservations[run].acquired
    }

    /** The registry the objects make up. */
    ghost function View(): Registry
      reads this, concurrencyControl, Entries(), Reservations()
    {
      Registry(ActiveView(), EntriesView(), responseModes, HeldView(),
               concurrencyControl.inUse, concurrencyControl.isEnabled, concurrencyControl.limit)
    }

    constructor (concurrencyControl: ConcurrencyControl)
      requires concurrencyControl.isEnabled && concurrencyControl.inUse == 0
      ensures Wired() && this.concurrencyControl == concurrencyControl
      ensures View() == Empty(concurrencyControl.limit)
    {
      this.concurrencyControl := concurrencyControl;
      activeExecutions, responseModes, reservations, handlers, handled := map[], map[], map[], map[], {};
    }

    // ----- add, between its awaits -----

    /** The start of `add`: a new reservation, acquired once there is capacity. Until then
        the call is kept waiting, and nothing has changed. */
    method ReserveCapacity(run: RunId) returns (reserved: bool)
      requires Wired() && run !in reservations
      modifies this`reservations, concurrencyControl
      ensures Wired() && fresh(Reservations() - old(Reservations())) && Entries() == old(Entries())
      ensures reserved == HasCapacity(old(View()))
      ensures View() == if reserved then Reserve(old(View()), run) else old(View())
      ensures reserved ==> run in reservations && fresh(reservations[run])
      ensures !reserved ==> reservations == old(reservations)
    {
      reserved := concurrencyControl.Throttle();
      assert HeldView() == old(HeldView()) && EntriesView() == old(EntriesView());
      if !reserved {
        return;
      }
      var reservation := new Reservation(run, concurrencyControl);
      reservation.acquired := true;
      reservations := reservations[run := reservation];
      NewReservationViews(run, reservation);
    }

    /** One reservation has been made and acquired. */
    twostate lemma NewReservationViews(run: RunId, new reservation: Reservation)
      requires old(Wired()) && run !in old(reservations) && reservation.run == run && reservation.acquired
      requires reservation.control == concurrencyControl
      requires unchanged(this`handled, this`handlers, this`activeExecutions)
          && unchanged(Entries()) && unchanged(old(Reservations()))
      requires reservations == old(reservations)[run := reservation]
      ensures Wired() && Reservations() == old(Reservations()) + {reservation}
      ensures ActiveView() == old(ActiveView()) && HeldView() == old(HeldView()) + {run}
          && EntriesView() == old(EntriesView())
    {
      assert reservations[run] == reservation;
      forall other | other in old(reservations)
        ensures reservations[other] == old(reservations[other]) && reservations[other] in old(Reservations())
      {
      }
    }

    /** Gives back what the run holds: when `add` fails, and when the run is over. */
    method ReleaseCapacity(run: RunId)
      requires Wired() && run in reservations
      modifies reservations[run], concurrencyControl
      ensures Wired()
      ensures View() == Release(old(View()), run)
    {
      reservations[run].Release();
      assert HeldView() == old(HeldView()) - {run};
      assert EntriesView() == old(EntriesView());
    }

    /** The end of `add`: the entry, and the handler that captures it. */
    method RegisterRun(run: RunId, executionId: ExecutionId, now: int)
      requires Wired() && run in reservations && run !in handlers && run !in handled
      modifies this`activeExecutions, this`handlers
      ensures Wired() && fresh(Entries() - old(Entries())) && Reservations() == old(Reservations())
      ensures View() == Register(old(View()), run, executionId, now)
    {
      ghost var before := View();
      var startedAt, responsePromise := CarriedOver(executionId, now);
      var entry := new ExecutingWorkflow(run, executionId, startedAt, responsePromise);
      assert View() == before;
      Install(run, entry);
    }

    /** What a new entry takes over from the one it replaces. */
    method CarriedOver(executionId: ExecutionId, now: int) returns (startedAt: int, responsePromise: Option<PromiseId>)
      requires Wired()
      ensures NewEntry(View(), executionId, now)
          == Entry(executionId, startedAt, responsePromise, Running, false, None, false)
    {
      startedAt, responsePromise := now, None;
      if executionId in activeExecutions {
        var resuming := activeExecutions[executionId];
        startedAt, responsePromise := resuming.startedAt, resuming.responsePromise;
        assert View().entries[resuming.run] == resuming.Snapshot(resuming.run in handled);
      }
    }

    method Install(run: RunId, entry: ExecutingWorkflow)
      requires Wired() && run in reservations && run !in handlers && run !in handled
      requires entry.run == run && entry !in Entries()
      modifies this`activeExecutions, this`handlers
      ensures Wired() && Entries() == old(Entries()) + {entry} && Reservations() == old(Reservations())
      ensures View() == old(View()).(active := old(ActiveView())[entry.executionId := run],
                                     entries := old(EntriesView())[run := entry.Snapshot(false)])
    {
      activeExecutions := activeExecutions[entry.executionId := entry];
      handlers := handlers[run := Handler(entry, reservations[run])];
      NewEntryWired(run, entry);
      NewEntryViews(run, entry);
    }

    twostate lemma NewEntryWired(run: RunId, new entry: ExecutingWorkflow)
      requires old(Wired()) && run in reservations && run !in old(handlers) && entry.run == run
      requires unchanged(this`reservations) && unchanged(Reservations())
      requires handlers == old(handlers)[run := Handler(entry, reservations[run])]
      requires activeExecutions == old(activeExecutions)[entry.executionId := entry]
      ensures Wired()
    {
      forall other | other in old(handlers)
        ensures handlers[other] == old(handlers[other])
      {
      }
    }

    /** One entry has been added for its handler. */
    twostate lemma NewEntryViews(run: RunId, new entry: ExecutingWorkflow)
      requires old(Wired()) && run !in old(handlers) && run !in handled
      requires unchanged(this`handled, this`reservations) && unchanged(old(Entries())) && unchanged(Reservations())
      requires run in reservations && handlers == old(handlers)[run := Handler(entry, reservations[run])]
      requires activeExecutions == old(activeExecutions)[entry.executionId := entry] && entry.run == run
      ensures EntriesView() == old(EntriesView())[run := entry.Snapshot(false)]
      ensures ActiveView() == old(ActiveView())[entry.executionId := run] && HeldView() == old(HeldView())
      ensures Entries() == old(Entries()) + {entry}
    {
      OneMoreEntry(run, entry);
      forall other | other in old(handlers)
        ensures handlers[other] == old(handlers[other]) && handlers[other].entry in old(Entries())
      {
      }
    }

    twostate lemma OneMoreEntry(run: RunId, new entry: ExecutingWorkflow)
      requires run !in old(handlers) && run in reservations
      requires handlers == old(handlers)[run := Handler(entry, reservations[run])]
      ensures Entries() == old(Entries()) + {entry}
    {
      assert handlers[run].entry == entry;
      forall other | other in old(handlers)
        ensures handlers[other] == old(handlers[other])
      {
      }
    }

    /** `add`, undisturbed: for a new execution, or to resume the one of `row`. It waits for
        capacity; then the run is registered, unless it was to resume a row that does not
        wait, which leaves everything as it was. */
    method Add(run: RunId, executionId: ExecutionId, row: ExecutionRow, resuming: bool, isRegularMode: bool, now: int)
      returns (outcome: AddOutcome)
      requires Wired() && run !in reservations && run !in handled
      modifies this, concurrencyControl, row
      ensures Wired()
      ensures outcome == if !HasCapacity(old(View())) then Throttled
                         else if resuming && old(row.status) != Waiting then AlreadyResuming
                         else Added
      ensures View() == if outcome == Added then Register(Reserve(old(View()), run), run, executionId, now)
                        else old(View())
      ensures row.status == if outcome == Added && (resuming || isRegularMode) then Running
                            else if resuming then old(row.status)
                            else New
    {
      ghost var before := View();
      assert run !in before.held && run !in handlers;
      if !resuming {
        row.status := New;
      }
      assert View() == before && Wired();
      var reserved := ReserveCapacity(run);
      if !reserved {
        return Throttled;
      }
      outcome := ClaimAndRegister(run, executionId, row, resuming, isRegularMode, now);
      ReleaseUndoesReserve(before, run);
    }

    /** With capacity reserved: a row that may not be resumed gives it back. */
    method ClaimAndRegister(run: RunId, executionId: ExecutionId, row: ExecutionRow,
        resuming: bool, isRegularMode: bool, now: int)
      returns (outcome: AddOutcome)
      requires Wired() && run in reservations && run !in handlers && run !in handled
      modifies this`activeExecutions, this`handlers, concurrencyControl, reservations[run], row
      ensures Wired()
      ensures outcome == if resuming && old(row.status) != Waiting then AlreadyResuming else Added
      ensures View() == if outcome == Added then Register(old(View()), run, executionId, now)
                        else Release(old(View()), run)
      ensures row.status == if outcome == Added && (resuming || isRegularMode) then Running else old(row.status)
    {
      ghost var before := View();
      var claimed := Claim(row, resuming, isRegularMode);
      assert View() == before;
      if !claimed {
        ReleaseCapacity(run);
        return AlreadyResuming;
      }
      RegisterRun(run, executionId, now);
      outcome := Added;
    }

    /** The row is marked as running, if it is to be and may be. */
    static method Claim(row: ExecutionRow, resuming: bool, isRegularMode: bool) returns (claimed: bool)
      modifies row
      ensures claimed == (resuming ==> old(row.status) == Waiting)
      ensures row.status == if claimed && (resuming || isRegularMode) then Running else old(row.status)
    {
      claimed := true;
      if resuming {
        claimed := row.UpdateIfWaiting();
      } else if isRegularMode {
        row.SetRunning();
      }
    }

    // ----- steps on the entry registered under an id -----

    /** Only what is seen of `run` has changed. */
    twostate lemma OneEntryViews(run: RunId)
      requires old(Wired()) && run in handlers && (handled == old(handled) || handled == old(handled) + {run})
      requires handlers == old(handlers) && unchanged(this`activeExecutions, this`reservations)
      requires unchanged(Entries() - {handlers[run].entry}) && unchanged(Reservations())
      ensures EntriesView() == old(EntriesView())[run := handlers[run].entry.Snapshot(run in handled)]
      ensures HeldView() == old(HeldView()) && ActiveView() == old(ActiveView()) && Wired()
    {
      forall other | other in handlers && other != run
        ensures handlers[other].entry in Entries() - {handlers[run].entry}
      {
      }
    }

    /** Sets the status; fails when nothing is registered. */
    method SetStatus(executionId: ExecutionId, status: Status) returns (found: bool)
      requires Wired()
      modifies Entries()
      ensures Wired() && found == (executionId in activeExecutions)
      ensures View() == ExecutionRegistry.SetStatus(old(View()), executionId, status)
    {
      found := executionId in activeExecutions;
      if found {
        activeExecutions[executionId].status := status;
        OneEntryViews(activeExecutions[executionId].run);
      }
    }

    method AttachWorkflowExecution(executionId: ExecutionId) returns (found: bool)
      requires Wired()
      modifies Entries()
      ensures Wired() && found == (executionId in activeExecutions)
      ensures View() == AttachExecution(old(View()), executionId)
    {
      found := executionId in activeExecutions;
      if found {
        activeExecutions[executionId].attached := true;
        OneEntryViews(activeExecutions[executionId].run);
      }
    }

    method AttachResponsePromise(executionId: ExecutionId, promise: PromiseId) returns (found: bool)
      requires Wired()
      modifies Entries()
      ensures Wired() && found == (executionId in activeExecutions)
      ensures View() == AttachResponse(old(View()), executionId, promise)
    {
      found := executionId in activeExecutions;
      if found {
        activeExecutions[executionId].responsePromise := Some(promise);
        OneEntryViews(activeExecutions[executionId].run);
      }
    }

    /** Settles the promise of whichever run is registered under the id. */
    method Settle(executionId: ExecutionId, how: Settlement)
      requires Wired()
      modifies Entries()
      ensures Wired() && activeExecutions == old(activeExecutions)
      ensures View() == ExecutionRegistry.Settle(old(View()), executionId, how)
    {
      if executionId in activeExecutions {
        SettleEntry(activeExecutions[executionId], how);
        OneEntryViews(activeExecutions[executionId].run);
      }
    }

    static method SettleEntry(entry: ExecutingWorkflow, how: Settlement)
      modifies entry
      ensures forall handled :: entry.Snapshot(handled) == Settled(how)(old(entry.Snapshot(handled)))
    {
      if entry.settled.None? {
        entry.settled := Some(how);
      }
    }

    /** With the result of `run`. */
    method FinalizeExecution(executionId: ExecutionId, run: RunId)
      requires Wired()
      modifies Entries()
      ensures Wired() && activeExecutions == old(activeExecutions)
      ensures View() == Finalize(old(View()), executionId, run)
    {
      Settle(executionId, ResultOf(run));
    }

    method Remove(executionId: ExecutionId)
      requires Wired()
      modifies this`activeExecutions, this`responseModes
      ensures Wired() && Entries() == old(Entries()) && Reservations() == old(Reservations())
      ensures activeExecutions == old(activeExecutions) - {executionId}
      ensures View() == Unregister(old(View()), executionId)
    {
      activeExecutions := activeExecutions - {executionId};
      responseModes := responseModes - {executionId};
      assert ActiveView() == old(View()).active - {executionId};
      assert EntriesView() == old(EntriesView());
    }

    /** Drops a waiting execution; cancels any other, which leaves it to its handler. */
    method StopExecution(executionId: ExecutionId)
      requires Wired()
      modifies this`activeExecutions, this`responseModes, Entries()
      ensures Wired() && Entries() == old(Entries()) && Reservations() == old(Reservations())
      ensures activeExecutions.Keys >= old(activeExecutions.Keys) - {executionId}
      ensures View() == Stop(old(View()), executionId)
    {
      if executionId !in activeExecutions {
        return;
      }
      if activeExecutions[executionId].status == Waiting {
        Remove(executionId);
      } else {
        Settle(executionId, Rejected);
      }
    }

    /** The handler of `run`, once its promise is settled. */
    method OnSettled(run: RunId)
      requires Wired() && run in handlers && run !in handled
      modifies this`activeExecutions, this`responseModes, this`handled, concurrencyControl,
          handlers[run].entry, handlers[run].reservation
      ensures Wired() && Entries() == old(Entries()) && Reservations() == old(Reservations())
      ensures View() == Handle(old(View()), run)
    {
      var entry := handlers[run].entry;
      ReleaseCapacity(run);
      ghost var released := View();
      MarkHandled(run);
      if entry.status != Waiting {
        Remove(entry.executionId);
      }
    }

    /** The handler's work on the entry it captured. */
    method MarkHandled(run: RunId)
      requires Wired() && run in handlers && run !in handled
      modifies this`handled, handlers[run].entry
      ensures Wired() && handlers[run].entry.status == old(handlers[run].entry.status)
      ensures var entry := old(EntriesView())[run];
              View() == old(View()).(entries := old(EntriesView())[run :=
                if entry.status == Waiting then entry.(attached := false, handled := true)
                else entry.(handled := true)])
    {
      var entry := handlers[run].entry;
      if entry.status == Waiting {
        entry.attached := false;
      }
      handled := handled + {run};
      OneEntryViews(run);
    }

    // ----- shutdown -----

    /** What shutdown does to one of the executions registered when it began. */
    method SweepExecution(executionId: ExecutionId, cancel: bool)
      requires Wired() && executionId in activeExecutions
      modifies this`activeExecutions, this`responseModes, Entries()
      ensures Wired() && Entries() == old(Entries()) && Reservations() == old(Reservations())
      ensures activeExecutions.Keys >= old(activeExecutions.Keys) - {executionId}
      ensures View() == SweepOne(old(View()), executionId, cancel)
    {
      if cancel {
        StopExecution(executionId);
        return;
      }
      var status := activeExecutions[executionId].status;
      assert EntriesView()[activeExecutions[executionId].run].status == status;
      if status == Waiting || status == New {
        Forget(executionId);
      }
    }

    /** Drops an execution from the table, but not its response mode. */
    method Forget(executionId: ExecutionId)
      requires Wired()
      modifies this`activeExecutions
      ensures Wired() && Entries() == old(Entries()) && Reservations() == old(Reservations())
      ensures activeExecutions == old(activeExecutions) - {executionId}
      ensures View() == old(View()).(active := old(ActiveView()) - {executionId})
    {
      activeExecutions := activeExecutions - {executionId};
      assert ActiveView() == old(ActiveView()) - {executionId};
      assert EntriesView() == old(EntriesView()) && HeldView() == old(HeldView());
    }

    /** Disables concurrency control and goes over the executions registered, in the
        order of `ids`, up to the point where it starts waiting for the rest. */
    method BeginShutdown(ids: seq<ExecutionId>, isRegularMode: bool, cancelAll: bool)
      requires Wired() && (set id | id in ids) == activeExecutions.Keys
      requires forall i, j :: 0 <= i < j < |ids| ==> ids[i] != ids[j]
      modifies this`activeExecutions, this`responseModes, Entries(), concurrencyControl
      ensures Wired()
      ensures View() == Apply(old(View()), ShutDown(isRegularMode, cancelAll, ids))
    {
      ghost var before := View();
      if isRegularMode {
        concurrencyControl.isEnabled := false;
        assert EntriesView() == before.entries && HeldView() == before.held && ActiveView() == before.active;
      }
      ghost var start := View();
      assert start == if isRegularMode then Disable(before) else before;
      SweepAll(ids, isRegularMode && cancelAll);
    }

    method SweepAll(ids: seq<ExecutionId>, cancel: bool)
      requires Wired() && forall id :: id in ids ==> id in activeExecutions
      requires forall i, j :: 0 <= i < j < |ids| ==> ids[i] != ids[j]
      modifies this`activeExecutions, this`responseModes, Entries()
      ensures Wired()
      ensures View() == Sweep(old(View()), ids, cancel)
    {
      ghost var start := View();
      assert ids[..0] == [];
      for i := 0 to |ids|
        invariant Wired() && Entries() == old(Entries()) && Reservations() == old(Reservations())
        invariant View() == Sweep(start, ids[..i], cancel)
        invariant forall k :: i <= k < |ids| ==> ids[k] in activeExecutions
      {
        SweepNext(start, ids, i, cancel);
      }
      assert ids[..|ids|] == ids;
    }

    method SweepNext(ghost start: Registry, ids: seq<ExecutionId>, i: nat, cancel: bool)
      requires Wired() && i < |ids| && forall k :: i <= k < |ids| ==> ids[k] in activeExecutions
      requires forall k :: i < k < |ids| ==> ids[k] != ids[i]
      requires View() == Sweep(start, ids[..i], cancel)
      modifies this`activeExecutions, this`responseModes, Entries()
      ensures Wired() && Entries() == old(Entries()) && Reservations() == old(Reservations())
      ensures forall k :: i < k < |ids| ==> ids[k] in activeExecutions
      ensures View() == Sweep(start, ids[..i + 1], cancel)
    {
      SweepOneMore(start, ids, i, cancel);
      SweepExecution(ids[i], cancel);
    }
  }
}
