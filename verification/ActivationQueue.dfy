/** The queue of workflows whose activation failed, and the timers that try again. */
module ActivationQueue {
  type WorkflowId = string
  type TimerId = nat

  const WORKFLOW_REACTIVATE_INITIAL_TIMEOUT: nat := 1000
  const WORKFLOW_REACTIVATE_MAX_TIMEOUT: nat := 24 * 60 * 60 * 1000

  datatype Mode = Init | LeadershipChange | Activate | Update

  datatype QueuedActivation = QueuedActivation(activationMode: Mode, lastTimeout: nat, timeout: TimerId)

  datatype Timer = Timer(workflowId: WorkflowId, delay: nat)

  /** The queue as a value, with the timers set in the process and the workflows of the
      attempts under way. */
  datatype Queue = Queue(
    queued: map<WorkflowId, QueuedActivation>,
    live: map<TimerId, Timer>,
    attempts: multiset<WorkflowId>,
    next: TimerId)

  const Nothing := Queue(map[], map[], multiset{}, 0)

  // ---------- The steps ----------

  function Remove(q: Queue, id: WorkflowId): Queue {
    if id in q.queued then q.(queued := q.queued - {id}, live := q.live - {q.queued[id].timeout}) else q
  }

  function Add(q: Queue, mode: Mode, id: WorkflowId): Queue {
    var removed := Remove(q, id);
    removed.(queued := removed.queued[id := QueuedActivation(mode, WORKFLOW_REACTIVATE_INITIAL_TIMEOUT, q.next)],
             live := removed.live[q.next := Timer(id, WORKFLOW_REACTIVATE_INITIAL_TIMEOUT)],
             next := q.next + 1)
  }

  function RemoveAll(q: Queue): Queue {
    q.(queued := map[], live := q.live - set id | id in q.queued :: q.queued[id].timeout)
  }

  ghost function RemoveSome(q: Queue, ids: set<WorkflowId>): Queue
    requires ids <= q.queued.Keys
  {
    q.(queued := q.queued - ids, live := q.live - set id | id in ids :: q.queued[id].timeout)
  }

  lemma RemoveOneMore(q: Queue, ids: set<WorkflowId>, id: WorkflowId)
    requires ids <= q.queued.Keys && id in q.queued && id !in ids
    ensures RemoveSome(q, ids + {id}) == Remove(RemoveSome(q, ids), id)
  {
  }

  lemma RemoveEverything(q: Queue, ids: set<WorkflowId>)
    requires ids <= q.queued.Keys && RemoveSome(q, ids).queued == map[]
    ensures RemoveSome(q, ids) == RemoveAll(q)
  {
    forall id | id in q.queued
      ensures id in ids
    {
      assert id !in q.queued - ids;
    }
    assert (set id | id in ids :: q.queued[id].timeout) == set id | id in q.queued :: q.queued[id].timeout;
  }

  function NextTimeout(lastTimeout: nat): nat {
    if lastTimeout < WORKFLOW_REACTIVATE_MAX_TIMEOUT then
      if lastTimeout * 2 < WORKFLOW_REACTIVATE_MAX_TIMEOUT then lastTimeout * 2 else WORKFLOW_REACTIVATE_MAX_TIMEOUT
    else lastTimeout
  }

  /** A timer fires, and an attempt to add its workflow begins. */
  function Begin(q: Queue, timer: TimerId): Queue
    requires timer in q.live
  {
    q.(live := q.live - {timer}, attempts := q.attempts + multiset{q.live[timer].workflowId})
  }

  /** An attempt ends. If it failed, the workflow is tried again after twice the time, as
      its entry is by then; without an entry the attempt ends in an error of its own. */
  function End(q: Queue, id: WorkflowId, fails: bool): Queue {
    var over := q.(attempts := q.attempts - multiset{id});
    if !fails || id !in q.queued then over
    else
      var lastTimeout := NextTimeout(q.queued[id].lastTimeout);
      over.(queued := q.queued[id := q.queued[id].(lastTimeout := lastTimeout, timeout := q.next)],
            live := q.live[q.next := Timer(id, lastTimeout)],
            next := q.next + 1)
  }

  /** Attempts take time. Adding the workflow takes it off the queue near its end, which
      is a `Removed` like any other, and may fail before that and after. What else happens
      to the queue meanwhile comes in between. */
  datatype Event =
    | Added(mode: Mode, id: WorkflowId)
    | Removed(id: WorkflowId)
    | RemovedAll
    | Began(timer: TimerId)
    | Ended(id: WorkflowId, fails: bool)

  predicate Enabled(q: Queue, e: Event) {
    && (e.Began? ==> e.timer in q.live)
    && (e.Ended? ==> e.id in q.attempts)
  }

  function Apply(q: Queue, e: Event): Queue
    requires Enabled(q, e)
  {
    match e
    case Added(mode, id) => Add(q, mode, id)
    case Removed(id) => Remove(q, id)
    case RemovedAll => RemoveAll(q)
    case Began(timer) => Begin(q, timer)
    case Ended(id, fails) => End(q, id, fails)
  }

  ghost predicate Feasible(q: Queue, events: seq<Event>)
    decreases |events|
  {
    events == [] || (Enabled(q, events[0]) && Feasible(Apply(q, events[0]), events[1..]))
  }

  ghost function After(q: Queue, events: seq<Event>): Queue
    requires Feasible(q, events)
    decreases |events|
  {
    if events == [] then q else After(Apply(q, events[0]), events[1..])
  }

  // ---------- Timers and entries ----------

  predicate Armed(q: Queue, id: WorkflowId) {
    id in q.queued && q.queued[id].timeout in q.live
  }

  /** Every timer set is the handle in its workflow's entry, and runs for as long as that
      entry says. */
  ghost predicate TimersKnown(q: Queue) {
    forall timer :: timer in q.live ==>
      && q.live[timer].workflowId in q.queued
      && q.queued[q.live[timer].workflowId].timeout == timer
      && q.queued[q.live[timer].workflowId].lastTimeout == q.live[timer].delay
  }

  ghost predicate Fresh(q: Queue) {
    && (forall timer :: timer in q.live ==> timer < q.next)
    && (forall id :: id in q.queued ==> q.queued[id].timeout < q.next)
    && (forall i, j :: i in q.queued && j in q.queued && q.queued[i].timeout == q.queued[j].timeout ==> i == j)
  }

  ghost predicate Valid(q: Queue) {
    Fresh(q) && TimersKnown(q)
  }

  /** An attempt fails and finds that its workflow was queued anew meanwhile. */
  predicate Overtaken(q: Queue, e: Event) {
    e.Ended? && e.fails && Armed(q, e.id)
  }

  lemma ApplyFresh(q: Queue, e: Event)
    requires Fresh(q) && Enabled(q, e)
    ensures Fresh(Apply(q, e))
  {
  }

  lemma RemovingKeepsTimersKnown(q: Queue, id: WorkflowId)
    requires Valid(q)
    ensures TimersKnown(Remove(q, id))
  {
  }

  lemma AddingKeepsTimersKnown(q: Queue, mode: Mode, id: WorkflowId)
    requires Valid(q)
    ensures TimersKnown(Add(q, mode, id))
  {
    RemovingKeepsTimersKnown(q, id);
  }

  lemma FailureKeepsTimersKnown(q: Queue, id: WorkflowId)
    requires Valid(q)
    ensures TimersKnown(End(q, id, true)) <==> !Armed(q, id)
  {
    if Armed(q, id) {
      var kept := q.queued[id].timeout;
      assert kept in End(q, id, true).live && q.live[kept].workflowId == id;
    }
  }

  /** Timers stay known to their entries exactly through steps in which no attempt is
      overtaken: that attempt's failure overwrites the handle of a timer still set. */
  lemma TimersKnownUnlessOvertaken(q: Queue, e: Event)
    requires Valid(q) && Enabled(q, e)
    ensures Valid(Apply(q, e)) <==> !Overtaken(q, e)
  {
    ApplyFresh(q, e);
    match e
    case Added(mode, id) => AddingKeepsTimersKnown(q, mode, id);
    case Removed(id) => RemovingKeepsTimersKnown(q, id);
    case RemovedAll => assert TimersKnown(RemoveAll(q));
    case Began(timer) => assert TimersKnown(Begin(q, timer));
    case Ended(id, fails) =>
      if fails {
        FailureKeepsTimersKnown(q, id);
      }
  }

  /** An attempt nothing else comes in between of: whether it takes the workflow off the
      queue, and whether it fails. */
  function Attempt(q: Queue, timer: TimerId, dequeues: bool, fails: bool): Queue
    requires timer in q.live
  {
    var id := q.live[timer].workflowId;
    var begun := Begin(q, timer);
    End(if dequeues then Remove(begun, id) else begun, id, fails)
  }

  /** In one step, an attempt keeps the timers known, whatever its outcome. */
  lemma AttemptAtOnceIsValid(q: Queue, timer: TimerId, dequeues: bool, fails: bool)
    requires Valid(q) && timer in q.live
    ensures Valid(Attempt(q, timer, dequeues, fails))
  {
    var id := q.live[timer].workflowId;
    var begun := Begin(q, timer);
    TimersKnownUnlessOvertaken(q, Began(timer));
    TimersKnownUnlessOvertaken(begun, Removed(id));
    TimersKnownUnlessOvertaken(if dequeues then Remove(begun, id) else begun, Ended(id, fails));
  }

  ghost predicate NeverOvertaken(q: Queue, events: seq<Event>)
    requires Feasible(q, events)
    decreases |events|
  {
    events == [] || (!Overtaken(q, events[0]) && NeverOvertaken(Apply(q, events[0]), events[1..]))
  }

  lemma {:induction false} AlwaysValid(q: Queue, events: seq<Event>)
    requires Valid(q) && Feasible(q, events) && NeverOvertaken(q, events)
    ensures Valid(After(q, events))
    decreases |events|
  {
    if events != [] {
      TimersKnownUnlessOvertaken(q, events[0]);
      AlwaysValid(Apply(q, events[0]), events[1..]);
    }
  }

  /** So no workflow has two timers set. */
  lemma OneTimerEach(events: seq<Event>, t1: TimerId, t2: TimerId)
    requires Feasible(Nothing, events) && NeverOvertaken(Nothing, events)
    requires var q := After(Nothing, events);
             t1 in q.live && t2 in q.live && q.live[t1].workflowId == q.live[t2].workflowId
    ensures t1 == t2
  {
    AlwaysValid(Nothing, events);
  }

  /** A trigger error during an attempt is enough for two: the workflow is queued anew,
      and then the attempt fails, be it before or after it took the workflow off. */
  lemma OvertakenAttemptLeavesTwoTimers(q: Queue, timer: TimerId, mode: Mode, dequeues: bool)
    requires Valid(q) && timer in q.live
    ensures var id := q.live[timer].workflowId;
            var begun := Begin(q, timer);
            var requeued := Add(if dequeues then Remove(begun, id) else begun, mode, id);
            var end := End(requeued, id, true);
            && q.next in end.live && q.next + 1 in end.live
            && end.live[q.next].workflowId == end.live[q.next + 1].workflowId == id
  {
  }

  // ---------- Delays ----------

  function Pow2(k: nat): nat {
    if k == 0 then 1 else 2 * Pow2(k - 1)
  }

  /** The delay after `k` failures. */
  function Delay(k: nat): nat {
    if 1000 * Pow2(k) < 86400000 then 1000 * Pow2(k) else 86400000
  }

  lemma DelayDoubles(k: nat)
    ensures NextTimeout(Delay(k)) == Delay(k + 1)
  {
    assert Pow2(k + 1) == 2 * Pow2(k);
  }

  /** Of the events, the failures of the workflow's attempts. */
  ghost function Failures(events: seq<Event>, id: WorkflowId): nat {
    if events == [] then 0
    else (if events[0] == Ended(id, true) then 1 else 0) + Failures(events[1..], id)
  }

  /** Queues the workflow anew, or takes it off the queue. */
  predicate Requeues(e: Event, id: WorkflowId) {
    (e.Added? && e.id == id) || (e.Removed? && e.id == id) || e.RemovedAll?
  }

  lemma StepCounts(q: Queue, e: Event, id: WorkflowId, k: nat)
    requires id in q.queued && q.queued[id].lastTimeout == Delay(k) && Enabled(q, e) && !Requeues(e, id)
    ensures id in Apply(q, e).queued
    ensures Apply(q, e).queued[id].lastTimeout == Delay(if e == Ended(id, true) then k + 1 else k)
  {
    DelayDoubles(k);
  }

  lemma {:induction false} DelaysCount(q: Queue, events: seq<Event>, id: WorkflowId, k: nat)
    requires id in q.queued && q.queued[id].lastTimeout == Delay(k)
    requires Feasible(q, events) && forall e :: e in events ==> !Requeues(e, id)
    ensures id in After(q, events).queued
    ensures After(q, events).queued[id].lastTimeout == Delay(k + Failures(events, id))
    decreases |events|
  {
    if events != [] {
      assert events[0] in events;
      assert forall e :: e in events[1..] ==> e in events;
      StepCounts(q, events[0], id, k);
      DelaysCount(Apply(q, events[0]), events[1..], id, if events[0] == Ended(id, true) then k + 1 else k);
    }
  }

  /** A timer that its entry knows is the entry's workflow's, and runs for its time. */
  ghost predicate EntriesKept(q: Queue) {
    Fresh(q) && forall id :: Armed(q, id) ==> q.live[q.queued[id].timeout] == Timer(id, q.queued[id].lastTimeout)
  }

  lemma StepKeepsEntries(q: Queue, e: Event)
    requires EntriesKept(q) && Enabled(q, e)
    ensures EntriesKept(Apply(q, e))
  {
    ApplyFresh(q, e);
  }

  lemma {:induction false} EntriesAlwaysKept(q: Queue, events: seq<Event>)
    requires EntriesKept(q) && Feasible(q, events)
    ensures EntriesKept(After(q, events))
    decreases |events|
  {
    if events != [] {
      StepKeepsEntries(q, events[0]);
      EntriesAlwaysKept(Apply(q, events[0]), events[1..]);
    }
  }

  lemma {:induction false} ModeKept(q: Queue, events: seq<Event>, id: WorkflowId)
    requires id in q.queued && Feasible(q, events) && forall e :: e in events ==> !Requeues(e, id)
    ensures id in After(q, events).queued && After(q, events).queued[id].activationMode == q.queued[id].activationMode
    decreases |events|
  {
    if events != [] {
      assert events[0] in events;
      assert forall e :: e in events[1..] ==> e in events;
      ModeKept(Apply(q, events[0]), events[1..], id);
    }
  }

  /** Counting from when the workflow was last queued, with anything happening to others
      in between, and attempts overtaking each other: the next attempt comes after
      1000 * 2^k milliseconds, at most a day, where k attempts have failed. The entry keeps
      the mode it was queued with. */
  lemma DelayAfterFailures(start: seq<Event>, mode: Mode, events: seq<Event>, id: WorkflowId)
    requires Feasible(Nothing, start) && Feasible(Add(After(Nothing, start), mode, id), events)
    requires forall e :: e in events ==> !Requeues(e, id)
    ensures var end := After(Add(After(Nothing, start), mode, id), events);
            var delay := 1000 * Pow2(Failures(events, id));
            && id in end.queued && end.queued[id].activationMode == mode
            && (Armed(end, id) ==>
                  end.live[end.queued[id].timeout] == Timer(id, if delay < 86400000 then delay else 86400000))
  {
    var before := After(Nothing, start);
    EntriesAlwaysKept(Nothing, start);
    StepKeepsEntries(before, Added(mode, id));
    DelayFromQueueing(Add(before, mode, id), events, id);
    ModeKept(Add(before, mode, id), events, id);
  }

  // ---------- What a step leaves alone ----------

  /** The workflow a step is about. */
  function Subject(q: Queue, e: Event): WorkflowId
    requires Enabled(q, e) && !e.RemovedAll?
  {
    if e.Began? then q.live[e.timer].workflowId else e.id
  }

  /** The workflow has the same entry and the same timers. */
  ghost predicate Same(q: Queue, q': Queue, id: WorkflowId) {
    && (id in q'.queued <==> id in q.queued) && (id in q.queued ==> q'.queued[id] == q.queued[id])
    && (forall timer :: timer in q.live && q.live[timer].workflowId == id ==>
          timer in q'.live && q'.live[timer] == q.live[timer])
    && (forall timer :: timer in q'.live && q'.live[timer].workflowId == id ==> timer in q.live)
  }

  lemma RemovingSparesOthers(q: Queue, other: WorkflowId, id: WorkflowId)
    requires EntriesKept(q) && id != other
    ensures Same(q, Remove(q, other), id)
  {
  }

  /** A step leaves the entries and timers of the other workflows as they were; unless it
      takes everything off the queue, which leaves no entry and no timer that had one. */
  lemma StepSparesOthers(q: Queue, e: Event, id: WorkflowId)
    requires EntriesKept(q) && Enabled(q, e)
    ensures !e.RemovedAll? && id != Subject(q, e) ==> Same(q, Apply(q, e), id)
    ensures e.RemovedAll? ==>
              Apply(q, e).queued == map[] && forall t :: t in Apply(q, e).live <==> t in q.live && !IsKnown(q, t)
  {
    match e
    case Added(mode, other) =>
      if id != other {
        RemovingSparesOthers(q, other, id);
      }
    case Removed(other) =>
      if id != other {
        RemovingSparesOthers(q, other, id);
      }
    case _ =>
  }

  /** Attempts begin with a timer, which is used up, and end once each. */
  lemma AttemptsComeAndGo(q: Queue, e: Event, id: WorkflowId)
    requires Enabled(q, e)
    ensures Apply(q, e).attempts[id] == q.attempts[id] +
              (if e.Began? && q.live[e.timer].workflowId == id then 1 else if e.Ended? && e.id == id then -1 else 0)
    ensures e.Began? ==> e.timer !in Apply(q, e).live
  {
  }

  ghost predicate IsKnown(q: Queue, timer: TimerId) {
    exists id :: id in q.queued && q.queued[id].timeout == timer
  }

  lemma DelayFromQueueing(q: Queue, events: seq<Event>, id: WorkflowId)
    requires EntriesKept(q) && id in q.queued && q.queued[id].lastTimeout == WORKFLOW_REACTIVATE_INITIAL_TIMEOUT
    requires Feasible(q, events) && forall e :: e in events ==> !Requeues(e, id)
    ensures var end := After(q, events);
            && id in end.queued
            && (Armed(end, id) ==> end.live[end.queued[id].timeout] == Timer(id, Delay(Failures(events, id))))
  {
    EntriesAlwaysKept(q, events);
    assert Delay(0) == WORKFLOW_REACTIVATE_INITIAL_TIMEOUT;
    DelaysCount(q, events, id, 0);
  }

  // ---------- When trying ends ----------

  /** The last to queue the workflow or take it off queued it. */
  ghost function LeftQueued(queued: bool, events: seq<Event>, id: WorkflowId): bool
    decreases |events|
  {
    if events == [] then queued
    else LeftQueued(if Requeues(events[0], id) then events[0].Added? else queued, events[1..], id)
  }

  lemma {:induction false} InQueueAfter(q: Queue, events: seq<Event>, id: WorkflowId)
    requires Feasible(q, events)
    ensures id in After(q, events).queued <==> LeftQueued(id in q.queued, events, id)
    decreases |events|
  {
    if events != [] {
      InQueueAfter(Apply(q, events[0]), events[1..], id);
    }
  }

  /** An attempt is followed by another exactly when it fails and finds the workflow in the
      queue: not taken off since it was last queued, be that before the attempt or during.
      So a failure after the attempt itself took the workflow off ends the trying, unless
      the workflow was queued anew. */
  lemma RetriedExactlyWhenQueued(q: Queue, timer: TimerId, events: seq<Event>, fails: bool)
    requires Valid(q) && timer in q.live && Feasible(Begin(q, timer), events)
    ensures var id := q.live[timer].workflowId;
            var before := After(Begin(q, timer), events);
            End(before, id, fails).live != before.live <==> fails && LeftQueued(true, events, id)
    ensures var id := q.live[timer].workflowId;
            var before := After(Begin(q, timer), events);
            fails && LeftQueued(true, events, id) ==>
              before.next !in before.live && Armed(End(before, id, fails), id)
  {
    var id := q.live[timer].workflowId;
    var before := After(Begin(q, timer), events);
    InQueueAfter(Begin(q, timer), events, id);
    TimersKnownUnlessOvertaken(q, Began(timer));
    AlwaysFresh(Begin(q, timer), events);
    if fails && id in before.queued {
      assert before.next in End(before, id, fails).live;
    }
  }

  lemma {:induction false} AlwaysFresh(q: Queue, events: seq<Event>)
    requires Fresh(q) && Feasible(q, events)
    ensures Fresh(After(q, events))
    decreases |events|
  {
    if events != [] {
      ApplyFresh(q, events[0]);
      AlwaysFresh(Apply(q, events[0]), events[1..]);
    }
  }

  /** With several mains adding is only published: such attempts leave their entry behind,
      with nothing to wake it. */
  lemma PublishedAttemptStaysQueued(q: Queue, timer: TimerId)
    requires Valid(q) && timer in q.live
    ensures var id := q.live[timer].workflowId;
            var end := Attempt(q, timer, false, false);
            id in end.queued && forall t :: t in end.live ==> end.live[t].workflowId != id
  {
  }

  // ---------- The class ----------

  /** The timers of the process. */
  class Timers {
    var live: map<TimerId, Timer>
    var next: TimerId

    constructor ()
      ensures live == map[] && next == 0
    {
      live, next := map[], 0;
    }

    method SetTimeout(workflowId: WorkflowId, delay: nat) returns (handle: TimerId)
      modifies this
      ensures handle == old(next) && next == old(next) + 1
      ensures live == old(live)[handle := Timer(workflowId, delay)]
    {
      handle := next;
      live, next := live[handle := Timer(workflowId, delay)], next + 1;
    }

    method ClearTimeout(handle: TimerId)
      modifies this`live
      ensures live == old(live) - {handle}
    {
      live := live - {handle};
    }
  }

  class ActiveWorkflowManager {
    var queuedActivations: map<WorkflowId, QueuedActivation>
    /** The retry functions that have not come to their end. */
    ghost var attempts: multiset<WorkflowId>
    const timers: Timers

    ghost function View(): Queue
      reads this, timers
    {
      Queue(queuedActivations, timers.live, attempts, timers.next)
    }

    constructor (timers: Timers)
      requires timers.live == map[] && timers.next == 0
      ensures this.timers == timers && View() == Nothing
    {
      this.timers := timers;
      queuedActivations, attempts := map[], multiset{};
    }

    method AddQueuedWorkflowActivation(activationMode: Mode, workflowId: WorkflowId)
      modifies this, timers
      ensures View() == Add(old(View()), activationMode, workflowId)
    {
      RemoveQueuedWorkflowActivation(workflowId);
      var timeout := timers.SetTimeout(workflowId, WORKFLOW_REACTIVATE_INITIAL_TIMEOUT);
      queuedActivations := queuedActivations[workflowId :=
        QueuedActivation(activationMode, WORKFLOW_REACTIVATE_INITIAL_TIMEOUT, timeout)];
    }

    method RemoveQueuedWorkflowActivation(workflowId: WorkflowId)
      modifies this, timers`live
      ensures View() == Remove(old(View()), workflowId)
    {
      if workflowId in queuedActivations {
        timers.ClearTimeout(queuedActivations[workflowId].timeout);
        queuedActivations := queuedActivations - {workflowId};
      }
    }

    method RemoveAllQueuedWorkflowActivations()
      modifies this, timers`live
      ensures View() == RemoveAll(old(View()))
    {
      ghost var start := View();
      ghost var removed: set<WorkflowId> := {};
      while queuedActivations != map[]
        invariant removed <= start.queued.Keys && View() == RemoveSome(start, removed)
        decreases start.queued.Keys - removed
      {
        var id :| id in queuedActivations;
        RemoveOneMore(start, removed, id);
        RemoveQueuedWorkflowActivation(id);
        removed := removed + {id};
      }
      RemoveEverything(start, removed);
    }

    /** The timer calls its retry function back. */
    method OnTimeout(timer: TimerId) returns (workflowId: WorkflowId)
      requires timer in timers.live
      modifies timers`live, this`attempts
      ensures workflowId == old(timers.live)[timer].workflowId
      ensures View() == Begin(old(View()), timer)
    {
      workflowId := timers.live[timer].workflowId;
      timers.ClearTimeout(timer);
      attempts := attempts + multiset{workflowId};
    }

    /** The rest of the retry function, once adding the workflow has come to its end. */
    method OnAttemptOver(workflowId: WorkflowId, fails: bool)
      requires workflowId in attempts
      modifies this, timers
      ensures View() == End(old(View()), workflowId, fails)
    {
      attempts := attempts - multiset{workflowId};
      if !fails || workflowId !in queuedActivations {
        return;
      }
      var lastTimeout := queuedActivations[workflowId].lastTimeout;
      if lastTimeout < WORKFLOW_REACTIVATE_MAX_TIMEOUT {
        lastTimeout := if lastTimeout * 2 < WORKFLOW_REACTIVATE_MAX_TIMEOUT then lastTimeout * 2
                       else WORKFLOW_REACTIVATE_MAX_TIMEOUT;
      }
      queuedActivations := queuedActivations[workflowId := queuedActivations[workflowId].(lastTimeout := lastTimeout)];
      var timeout := timers.SetTimeout(workflowId, lastTimeout);
      queuedActivations := queuedActivations[workflowId := queuedActivations[workflowId].(timeout := timeout)];
    }
  }
}
