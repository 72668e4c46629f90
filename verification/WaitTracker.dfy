/** The timers that wake waiting executions: one instance's table of them, as it is
    polled, started, stopped and handed from leader to leader. */
module WaitTracker {
  import opened Wrappers

  type ExecutionId = string
  type TimerId = nat

  datatype Timer = Timer(executionId: ExecutionId, delay: int)

  /** A waiting execution the database knows of, and how long it still waits. */
  datatype Due = Due(executionId: ExecutionId, delay: int)

  /** The tracker as a value: its table, the timers and intervals that are set in the
      process, whether the table still knows them or not, and the interval it polls in. */
  datatype Tracker = Tracker(
    entries: map<ExecutionId, TimerId>,
    live: map<TimerId, Timer>,
    intervals: set<TimerId>,
    next: TimerId,
    mainTimer: Option<TimerId>)

  const Untracked := Tracker(map[], map[], {}, 0, None)

  // ---------- The steps ----------

  /** The interval; the first poll's query is under way then as well. */
  function StartTracking(t: Tracker): Tracker {
    t.(intervals := t.intervals + {t.next}, mainTimer := Some(t.next), next := t.next + 1)
  }

  function Arm(t: Tracker, due: Due): Tracker {
    if due.executionId in t.entries then t
    else t.(entries := t.entries[due.executionId := t.next],
            live := t.live[t.next := Timer(due.executionId, due.delay)],
            next := t.next + 1)
  }

  /** A poll's query returns. */
  function Poll(t: Tracker, found: seq<Due>): Tracker {
    if found == [] then t else Arm(Poll(t, found[..|found| - 1]), found[|found| - 1])
  }

  function StopExecution(t: Tracker, id: ExecutionId): Tracker {
    if id !in t.entries then t
    else t.(entries := t.entries - {id}, live := t.live - {t.entries[id]})
  }

  /** Up to its first await: the entry goes, the timer is not cleared. */
  function StartExecution(t: Tracker, id: ExecutionId): Tracker {
    t.(entries := t.entries - {id})
  }

  function Fire(t: Tracker, timer: TimerId): Tracker
    requires timer in t.live
  {
    StartExecution(t.(live := t.live - {timer}), t.live[timer].executionId)
  }

  /** Clears the timers of the table, and keeps the table. */
  function StopTracking(t: Tracker): Tracker {
    if t.mainTimer.None? then t
    else t.(intervals := t.intervals - {t.mainTimer.value}, live := t.live - t.entries.Values)
  }

  ghost function ClearSome(t: Tracker, ids: set<ExecutionId>): Tracker
    requires ids <= t.entries.Keys
  {
    t.(live := t.live - set id | id in ids :: t.entries[id])
  }

  lemma ClearNone(t: Tracker)
    ensures ClearSome(t, {}) == t
  {
    var none: set<TimerId> := {};
    assert t.live - none == t.live;
  }

  lemma ClearOneMore(t: Tracker, ids: set<ExecutionId>, id: ExecutionId)
    requires ids <= t.entries.Keys && id in t.entries
    ensures ClearSome(t, ids + {id}).live == ClearSome(t, ids).live - {t.entries[id]}
  {
  }

  lemma ClearEverything(t: Tracker, ids: set<ExecutionId>)
    requires ids == t.entries.Keys
    ensures ClearSome(t, ids).live == t.live - t.entries.Values
  {
    assert (set id | id in ids :: t.entries[id]) == t.entries.Values;
  }

  datatype Event =
    | TookOver
    | SteppedDown
    | Polled(found: seq<Due>)
    | Stopped(id: ExecutionId)
    | Started(id: ExecutionId)  // not by a timer: a finished child, say
    | Fired(timer: TimerId)

  predicate Enabled(t: Tracker, e: Event) {
    e.Fired? ==> e.timer in t.live
  }

  function Apply(t: Tracker, e: Event): Tracker
    requires Enabled(t, e)
  {
    match e
    case TookOver => StartTracking(t)
    case SteppedDown => StopTracking(t)
    case Polled(found) => Poll(t, found)
    case Stopped(id) => StopExecution(t, id)
    case Started(id) => StartExecution(t, id)
    case Fired(timer) => Fire(t, timer)
  }

  ghost predicate Feasible(t: Tracker, events: seq<Event>)
    decreases |events|
  {
    events == [] || (Enabled(t, events[0]) && Feasible(Apply(t, events[0]), events[1..]))
  }

  ghost function After(t: Tracker, events: seq<Event>): Tracker
    requires Feasible(t, events)
    decreases |events|
  {
    if events == [] then t else After(Apply(t, events[0]), events[1..])
  }

  lemma FirstStep(t: Tracker, e: Event, rest: seq<Event>)
    requires Enabled(t, e) && Feasible(Apply(t, e), rest)
    ensures Feasible(t, [e] + rest) && After(t, [e] + rest) == After(Apply(t, e), rest)
  {
    assert ([e] + rest)[1..] == rest;
  }

  // ---------- The invariant ----------

  /** Timers are never shared, and never reused. */
  ghost predicate Valid(t: Tracker) {
    && (forall id :: id in t.entries ==> t.entries[id] < t.next)
    && (forall timer :: timer in t.live || timer in t.intervals ==> timer < t.next)
    && (forall id :: id in t.entries && t.entries[id] in t.live ==> t.live[t.entries[id]].executionId == id)
    && (forall i, j :: i in t.entries && j in t.entries && t.entries[i] == t.entries[j] ==> i == j)
  }

  lemma {:induction false} PollValid(t: Tracker, found: seq<Due>)
    requires Valid(t)
    ensures Valid(Poll(t, found))
  {
    if found != [] {
      PollValid(t, found[..|found| - 1]);
    }
  }

  lemma ApplyValid(t: Tracker, e: Event)
    requires Valid(t) && Enabled(t, e)
    ensures Valid(Apply(t, e))
  {
    if e.Polled? {
      PollValid(t, e.found);
    }
  }

  // ---------- Polling ----------

  /** The execution has an entry whose timer is set. */
  ghost predicate Armed(t: Tracker, id: ExecutionId) {
    id in t.entries && t.entries[id] in t.live
  }

  /** It has an entry, and nothing behind it. */
  ghost predicate Dead(t: Tracker, id: ExecutionId) {
    id in t.entries && t.entries[id] !in t.live
  }

  ghost predicate Found(found: seq<Due>, id: ExecutionId) {
    exists i :: 0 <= i < |found| && found[i].executionId == id
  }

  /** A poll leaves every timer and every entry as it was. */
  lemma {:induction false} PollKeeps(t: Tracker, found: seq<Due>)
    requires Valid(t)
    ensures t.next <= Poll(t, found).next
    ensures forall id :: id in t.entries ==> id in Poll(t, found).entries && Poll(t, found).entries[id] == t.entries[id]
    ensures forall timer :: timer < t.next ==>
              (timer in Poll(t, found).live <==> timer in t.live)
                  && (timer in t.live ==> Poll(t, found).live[timer] == t.live[timer])
  {
    if found != [] {
      PollKeeps(t, found[..|found| - 1]);
    }
  }

  /** And arms what it found unless there was an entry for it, with or without a timer. */
  lemma {:induction false} PollArms(t: Tracker, found: seq<Due>, id: ExecutionId)
    requires Valid(t)
    ensures id !in t.entries ==>
              && (id in Poll(t, found).entries <==> Found(found, id))
              && (Found(found, id) ==> Armed(Poll(t, found), id) && Poll(t, found).entries[id] >= t.next)
  {
    if found != [] {
      var init, last := found[..|found| - 1], found[|found| - 1];
      PollArms(t, init, id);
      PollValid(t, init);
      PollKeeps(t, init);
      assert forall i :: 0 <= i < |init| ==> found[i] == init[i];
      assert found[|init|] == last;
      assert Found(found, id) <==> Found(init, id) || last.executionId == id;
    }
  }

  /** No new timer is set for an execution that has an entry. */
  lemma {:induction false} PollSetsNoSecond(t: Tracker, found: seq<Due>, id: ExecutionId)
    requires Valid(t) && id in t.entries
    ensures forall timer :: timer in Poll(t, found).live && timer >= t.next ==>
        Poll(t, found).live[timer].executionId != id
  {
    if found != [] {
      PollSetsNoSecond(t, found[..|found| - 1], id);
      PollKeeps(t, found[..|found| - 1]);
    }
  }

  /** For as long as the first of its finds says. */
  lemma {:induction false} ArmedAsFirstFound(t: Tracker, found: seq<Due>, i: nat)
    requires Valid(t) && i < |found| && found[i].executionId !in t.entries
    requires forall j :: 0 <= j < i ==> found[j].executionId != found[i].executionId
    ensures var id := found[i].executionId;
            Armed(Poll(t, found), id) && Poll(t, found).live[Poll(t, found).entries[id]] == Timer(id, found[i].delay)
  {
    var init := found[..|found| - 1];
    PollValid(t, init);
    PollArms(t, init, found[i].executionId);
    if i < |init| {
      ArmedAsFirstFound(t, init, i);
    } else {
      assert !Found(init, found[i].executionId);
    }
  }

  /** So after a poll that found it an execution is armed exactly if it was, or had no
      entry at all. */
  lemma ArmedAfterPoll(t: Tracker, found: seq<Due>, i: nat)
    requires Valid(t) && i < |found|
    ensures var id := found[i].executionId;
            Armed(Poll(t, found), id) <==> id !in t.entries || Armed(t, id)
  {
    PollArms(t, found, found[i].executionId);
    PollKeeps(t, found);
  }

  lemma PollOfOne(t: Tracker, due: Due)
    ensures Poll(t, [due]) == Arm(t, due)
  {
    assert [due][..0] == [];
  }

  // ---------- Executions no poll arms again ----------

  /** Dead, with no orphan timer of its own left either. */
  ghost predicate Silent(t: Tracker, id: ExecutionId) {
    Dead(t, id) && forall timer :: timer in t.live ==> t.live[timer].executionId != id
  }

  /** Entries lose their timers in one way only: when their instance steps down. */
  lemma DeadByStepdownOnly(t: Tracker, e: Event, id: ExecutionId)
    requires Valid(t) && Enabled(t, e) && !Dead(t, id)
    ensures Dead(Apply(t, e), id) <==> e.SteppedDown? && t.mainTimer.Some? && id in t.entries
  {
    match e
    case Polled(found) =>
      PollArms(t, found, id);
      PollKeeps(t, found);
    case SteppedDown =>
      if id in t.entries {
        assert t.entries[id] in t.entries.Values;
      }
    case Stopped(other) =>
      if other in t.entries && id in t.entries && other != id {
        assert t.entries[other] != t.entries[id];
      }
    case _ =>
  }

  lemma SteppingDownSilences(t: Tracker, id: ExecutionId)
    requires Valid(t) && t.mainTimer.Some? && id in t.entries
    requires forall timer :: timer in t.live && t.live[timer].executionId == id ==> !Orphan(t, timer)
    ensures Silent(StopTracking(t), id)
  {
    assert t.entries[id] in t.entries.Values;
  }

  lemma StepStaysSilent(t: Tracker, e: Event, id: ExecutionId)
    requires Valid(t) && Enabled(t, e) && Silent(t, id) && e != Stopped(id) && e != Started(id)
    ensures Silent(Apply(t, e), id)
  {
    match e
    case Polled(found) =>
      PollSetsNoSecond(t, found, id);
      PollKeeps(t, found);
    case _ =>
  }

  /** An instance that takes over again never wakes what it was tracking when it stepped
      down: whatever the polls find, until somebody else starts or stops the execution. */
  lemma {:induction false} SilentFromThenOn(t: Tracker, events: seq<Event>, id: ExecutionId)
    requires Valid(t) && Silent(t, id) && Feasible(t, events)
    requires forall e :: e in events ==> e != Stopped(id) && e != Started(id)
    ensures Silent(After(t, events), id)
    decreases |events|
  {
    if events != [] {
      assert events[0] in events;
      assert forall e :: e in events[1..] ==> e in events;
      ApplyValid(t, events[0]);
      StepStaysSilent(t, events[0], id);
      SilentFromThenOn(Apply(t, events[0]), events[1..], id);
    }
  }

  /** One poll, one stepdown, one takeover: the execution is due and will not be woken. */
  lemma TakeoverDoesNotRearm(id: ExecutionId, delay: int)
    ensures var t := Poll(StartTracking(StopTracking(Poll(StartTracking(Untracked), [Due(id, delay)]))),
        [Due(id, delay)]);
            id in t.entries && t.live == map[]
  {
    var armed := Arm(StartTracking(Untracked), Due(id, delay));
    PollOfOne(StartTracking(Untracked), Due(id, delay));
    assert armed.entries[id] in armed.entries.Values;
    PollOfOne(StartTracking(StopTracking(armed)), Due(id, delay));
  }

  // ---------- Orphan timers ----------

  /** Set, but not the one its execution's entry knows. */
  ghost predicate Orphan(t: Tracker, timer: TimerId) {
    && timer in t.live
    && !(t.live[timer].executionId in t.entries && t.entries[t.live[timer].executionId] == timer)
  }

  /** A timer becomes an orphan exactly when its execution is started by anything else. */
  lemma OrphanedByWhat(t: Tracker, e: Event, timer: TimerId)
    requires Valid(t) && Enabled(t, e) && timer in t.live && !Orphan(t, timer)
    ensures var id := t.live[timer].executionId;
            Orphan(Apply(t, e), timer) <==>
            e == Started(id) || (e.Fired? && e.timer != timer && t.live[e.timer].executionId == id)
  {
    var id := t.live[timer].executionId;
    match e
    case Polled(found) =>
      PollArms(t, found, id);
      PollKeeps(t, found);
    case SteppedDown => assert t.entries[id] in t.entries.Values;
    case Stopped(other) =>
      if other in t.entries && other != id {
        assert t.entries[other] != t.entries[id];
      }
    case _ =>
  }

  /** Stepping down clears the timers of the table: what is still set are the orphans. */
  lemma StepdownLeavesOrphans(t: Tracker, timer: TimerId)
    requires Valid(t) && t.mainTimer.Some? && timer in t.live
    ensures timer in StopTracking(t).live <==> Orphan(t, timer)
  {
    if timer in t.entries.Values {
      var id :| id in t.entries && t.entries[id] == timer;
    }
  }

  ghost predicate NoOrphans(t: Tracker) {
    forall timer :: timer in t.live ==> !Orphan(t, timer)
  }

  /** Nobody but its timer starts an execution that has an entry. */
  ghost predicate OnlyTimersStart(t: Tracker, events: seq<Event>)
    requires Feasible(t, events)
    decreases |events|
  {
    events == [] ||
    ((events[0].Started? ==> events[0].id !in t.entries) && OnlyTimersStart(Apply(t, events[0]), events[1..]))
  }

  lemma {:induction false} PollMakesNoOrphans(t: Tracker, found: seq<Due>)
    requires Valid(t) && NoOrphans(t)
    ensures Valid(Poll(t, found)) && NoOrphans(Poll(t, found))
  {
    PollValid(t, found);
    if found != [] {
      PollMakesNoOrphans(t, found[..|found| - 1]);
      ArmMakesNoOrphan(Poll(t, found[..|found| - 1]), found[|found| - 1]);
    }
  }

  lemma ArmMakesNoOrphan(t: Tracker, due: Due)
    requires Valid(t) && NoOrphans(t)
    ensures NoOrphans(Arm(t, due))
  {
    forall timer | timer in Arm(t, due).live
      ensures !Orphan(Arm(t, due), timer)
    {
      if timer in t.live {
        assert !Orphan(t, timer);
      }
    }
  }

  lemma StepMakesNoOrphans(t: Tracker, e: Event)
    requires Valid(t) && NoOrphans(t) && Enabled(t, e) && (e.Started? ==> e.id !in t.entries)
    ensures NoOrphans(Apply(t, e))
  {
    if e.Polled? {
      PollMakesNoOrphans(t, e.found);
    } else {
      forall timer | timer in Apply(t, e).live
        ensures !Orphan(Apply(t, e), timer)
      {
        assert timer in t.live && !Orphan(t, timer);
        OrphanedByWhat(t, e, timer);
        if e.Fired? {
          assert !Orphan(t, e.timer);
        }
      }
    }
  }

  /** In such runs no execution ever has two timers set. */
  lemma {:induction false} OneTimerEach(t: Tracker, events: seq<Event>, t1: TimerId, t2: TimerId)
    requires Valid(t) && NoOrphans(t) && Feasible(t, events) && OnlyTimersStart(t, events)
    ensures var end := After(t, events);
            t1 in end.live && t2 in end.live && end.live[t1].executionId == end.live[t2].executionId ==> t1 == t2
    decreases |events|
  {
    if events == [] {
      if t1 in t.live && t2 in t.live {
        assert !Orphan(t, t1) && !Orphan(t, t2);
      }
    } else {
      ApplyValid(t, events[0]);
      StepMakesNoOrphans(t, events[0]);
      OneTimerEach(Apply(t, events[0]), events[1..], t1, t2);
    }
  }

  /** Otherwise two are possible: an execution started by a child while its own timer is
      set, going to wait again, is polled and gets a second one. */
  lemma TwoTimers(id: ExecutionId, delay: int)
    ensures exists events :: Feasible(Untracked, events) && var end := After(Untracked, events);
              exists t1, t2 :: t1 != t2 && t1 in end.live && t2 in end.live
                              && end.live[t1].executionId == id && end.live[t2].executionId == id
  {
    var poll := Polled([Due(id, delay)]);
    var t1 := Arm(Untracked, Due(id, delay));
    PollOfOne(Untracked, Due(id, delay));
    var t2 := StartExecution(t1, id);
    var t3 := Arm(t2, Due(id, delay));
    PollOfOne(t2, Due(id, delay));
    assert Feasible(t3, []) && After(t3, []) == t3;
    FirstStep(t2, poll, []);
    FirstStep(t1, Started(id), [poll]);
    FirstStep(Untracked, poll, [Started(id)] + [poll]);
    var events := [poll] + ([Started(id)] + [poll]);
    assert [poll] + [] == [poll];
    assert Feasible(Untracked, events) && After(Untracked, events) == t3;
    assert 0 in t3.live && 1 in t3.live;
  }

  // ---------- What the other steps do ----------

  /** But for `id`, the table is the same. */
  ghost predicate SameEntriesBut(t: Tracker, t': Tracker, id: ExecutionId) {
    forall other :: other != id ==>
      && (other in t'.entries <==> other in t.entries)
      && (other in t.entries ==> t'.entries[other] == t.entries[other])
  }

  /** But for `gone`, the same timers are set, as they were. */
  ghost predicate SameTimersBut(t: Tracker, t': Tracker, gone: set<TimerId>) {
    forall timer ::
      && (timer in t'.live <==> timer in t.live && timer !in gone)
      && (timer in t'.live ==> t'.live[timer] == t.live[timer])
  }

  /** Stopping an execution that has an entry takes that and its timer away, and leaves
      every other; for an unknown one nothing changes. */
  lemma StoppingDisarms(t: Tracker, id: ExecutionId)
    requires Valid(t)
    ensures var t' := Apply(t, Stopped(id));
            && id !in t'.entries && SameEntriesBut(t, t', id)
            && SameTimersBut(t, t', if id in t.entries then {t.entries[id]} else {})
            && t'.intervals == t.intervals && t'.mainTimer == t.mainTimer
            && (id !in t.entries ==> t' == t)
            && (Armed(t, id) ==> t.entries[id] !in t'.live && t.live[t.entries[id]].executionId == id)
  {
  }

  /** Starting an execution drops its entry, and clears nothing. A timer that fires is used
      up, and starts the execution it was set for. */
  lemma StartingDropsEntry(t: Tracker, e: Event)
    requires Valid(t) && Enabled(t, e) && (e.Started? || e.Fired?)
    ensures var id := if e.Started? then e.id else t.live[e.timer].executionId;
            var t' := Apply(t, e);
            && id !in t'.entries && SameEntriesBut(t, t', id)
            && SameTimersBut(t, t', if e.Fired? then {e.timer} else {})
            && t'.intervals == t.intervals && t'.mainTimer == t.mainTimer
  {
  }

  /** No entry, and no timer. */
  ghost predicate Unset(t: Tracker, id: ExecutionId) {
    id !in t.entries && forall timer :: timer in t.live ==> t.live[timer].executionId != id
  }

  lemma StoppingUnsets(t: Tracker, id: ExecutionId)
    requires Valid(t) && forall timer :: timer in t.live && t.live[timer].executionId == id ==> !Orphan(t, timer)
    ensures Unset(Apply(t, Stopped(id)), id)
  {
  }

  lemma UnsetUntilStepFinds(t: Tracker, e: Event, id: ExecutionId)
    requires Valid(t) && Enabled(t, e) && Unset(t, id)
    ensures Unset(Apply(t, e), id) <==> !(e.Polled? && Found(e.found, id))
  {
    if e.Polled? {
      UnsetUntilPolled(t, e.found, id);
    }
  }

  lemma {:induction false} UnsetUntilPolled(t: Tracker, found: seq<Due>, id: ExecutionId)
    requires Valid(t) && Unset(t, id)
    ensures Unset(Poll(t, found), id) <==> !Found(found, id)
  {
    PollArms(t, found, id);
    if found != [] && !Found(found, id) {
      var init, last := found[..|found| - 1], found[|found| - 1];
      assert forall i :: 0 <= i < |init| ==> found[i] == init[i];
      assert found[|init|] == last;
      UnsetUntilPolled(t, init, id);
    }
  }

  /** An execution that was stopped, and had no other timer, is not woken by the tracker
      until a poll finds it waiting again. The first one that does so arms it. */
  lemma {:induction false} StoppedStaysUnset(t: Tracker, id: ExecutionId, events: seq<Event>, found: seq<Due>)
    requires Valid(t) && forall timer :: timer in t.live && t.live[timer].executionId == id ==> !Orphan(t, timer)
    requires Feasible(Apply(t, Stopped(id)), events)
    requires forall e :: e in events && e.Polled? ==> !Found(e.found, id)
    ensures var end := After(Apply(t, Stopped(id)), events);
            && Unset(end, id)
            && (Found(found, id) ==> Armed(Apply(end, Polled(found)), id))
  {
    StoppingUnsets(t, id);
    ApplyValid(t, Stopped(id));
    UnsetUntilFound(Apply(t, Stopped(id)), events, id);
    PollArms(After(Apply(t, Stopped(id)), events), found, id);
  }

  lemma {:induction false} UnsetUntilFound(t: Tracker, events: seq<Event>, id: ExecutionId)
    requires Valid(t) && Unset(t, id) && Feasible(t, events)
    requires forall e :: e in events && e.Polled? ==> !Found(e.found, id)
    ensures Valid(After(t, events)) && Unset(After(t, events), id)
    decreases |events|
  {
    if events != [] {
      assert events[0] in events;
      assert forall e :: e in events[1..] ==> e in events;
      ApplyValid(t, events[0]);
      UnsetUntilStepFinds(t, events[0], id);
      UnsetUntilFound(Apply(t, events[0]), events[1..], id);
    }
  }

  /** Nobody takes over twice without stepping down in between. */
  ghost predicate Alternates(leads: bool, events: seq<Event>)
    decreases |events|
  {
    events == []
    || ((events[0].TookOver? ==> !leads) && Alternates(LeadsAfter(leads, events[..1]), events[1..]))
  }

  ghost function LeadsAfter(leads: bool, events: seq<Event>): bool
    decreases |events|
  {
    if events == [] then leads
    else
      var last := events[|events| - 1];
      if last.TookOver? then true
      else if last.SteppedDown? then false
      else LeadsAfter(leads, events[..|events| - 1])
  }

  ghost predicate PollsIfLeading(t: Tracker, leads: bool) {
    if leads then t.mainTimer.Some? && t.intervals == {t.mainTimer.value} else t.intervals == {}
  }

  lemma {:induction false} PollKeepsIntervals(t: Tracker, found: seq<Due>)
    ensures Poll(t, found).intervals == t.intervals && Poll(t, found).mainTimer == t.mainTimer
  {
    if found != [] {
      PollKeepsIntervals(t, found[..|found| - 1]);
    }
  }

  lemma {:induction false} LeadsInOrder(leads: bool, e: Event, rest: seq<Event>)
    ensures LeadsAfter(leads, [e] + rest) == LeadsAfter(LeadsAfter(leads, [e]), rest)
    decreases |rest|
  {
    if rest == [] {
      assert [e] + rest == [e];
    } else {
      assert ([e] + rest)[..|rest|] == [e] + rest[..|rest| - 1];
      LeadsInOrder(leads, e, rest[..|rest| - 1]);
    }
  }

  /** Over every run, exactly one interval polls while the instance leads, the one it knows
      of, and none while it does not. */
  lemma {:induction false} PollsExactlyWhileLeading(t: Tracker, leads: bool, events: seq<Event>)
    requires PollsIfLeading(t, leads) && Feasible(t, events) && Alternates(leads, events)
    ensures PollsIfLeading(After(t, events), LeadsAfter(leads, events))
    decreases |events|
  {
    if events != [] {
      var e := events[0];
      assert events == [e] + events[1..] && events[..1] == [e] && [e][..0] == [];
      LeadsInOrder(leads, e, events[1..]);
      if e.Polled? {
        PollKeepsIntervals(t, e.found);
      }
      PollsExactlyWhileLeading(Apply(t, e), LeadsAfter(leads, [e]), events[1..]);
    }
  }

  // ---------- The class ----------

  /** The timers of the process. */
  class Timers {
    var live: map<TimerId, Timer>
    var intervals: set<TimerId>
    var next: TimerId

    constructor ()
      ensures live == map[] && intervals == {} && next == 0
    {
      live, intervals, next := map[], {}, 0;
    }

    method SetTimeout(executionId: ExecutionId, delay: int) returns (handle: TimerId)
      modifies this
      ensures handle == old(next) && next == old(next) + 1 && intervals == old(intervals)
      ensures live == old(live)[handle := Timer(executionId, delay)]
    {
      handle := next;
      live, next := live[handle := Timer(executionId, delay)], next + 1;
    }

    method SetInterval() returns (handle: TimerId)
      modifies this
      ensures handle == old(next) && next == old(next) + 1 && live == old(live)
      ensures intervals == old(intervals) + {handle}
    {
      handle := next;
      intervals, next := intervals + {handle}, next + 1;
    }

    method ClearTimeout(handle: TimerId)
      modifies this`live
      ensures live == old(live) - {handle}
    {
      live := live - {handle};
    }

    method ClearInterval(handle: TimerId)
      modifies this`intervals
      ensures intervals == old(intervals) - {handle}
    {
      intervals := intervals - {handle};
    }
  }

  class WaitTracker {
    var waitingExecutions: map<ExecutionId, TimerId>
    var mainTimer: Option<TimerId>
    const timers: Timers

    ghost function View(): Tracker
      reads this, timers
    {
      Tracker(waitingExecutions, timers.live, timers.intervals, timers.next, mainTimer)
    }

    constructor (timers: Timers)
      requires timers.live == map[] && timers.intervals == {} && timers.next == 0
      ensures this.timers == timers && View() == Untracked
    {
      this.timers := timers;
      waitingExecutions, mainTimer := map[], None;
    }

    method Init(isLeader: bool)
      modifies this`mainTimer, timers
      ensures View() == if isLeader then StartTracking(old(View())) else old(View())
    {
      if isLeader {
        BeginTracking();
      }
    }

    method BeginTracking()
      modifies this`mainTimer, timers
      ensures View() == StartTracking(old(View()))
    {
      var handle := timers.SetInterval();
      mainTimer := Some(handle);
    }

    /** From the query's result on. */
    method GetWaitingExecutions(executions: seq<Due>)
      modifies this`waitingExecutions, timers
      ensures View() == Poll(old(View()), executions)
    {
      for i := 0 to |executions|
        invariant View() == Poll(old(View()), executions[..i])
      {
        assert executions[..i + 1][..i] == executions[..i];
        var execution := executions[i];
        if execution.executionId !in waitingExecutions {
          var timer := timers.SetTimeout(execution.executionId, execution.delay);
          waitingExecutions := waitingExecutions[execution.executionId := timer];
        }
      }
      assert executions[..|executions|] == executions;
    }

    method Stop(executionId: ExecutionId)
      modifies this`waitingExecutions, timers
      ensures View() == StopExecution(old(View()), executionId)
      ensures waitingExecutions == old(waitingExecutions) - {executionId}
      ensures timers.live ==
              if executionId in old(waitingExecutions) then old(timers.live) - {old(waitingExecutions)[executionId]}
              else old(timers.live)
    {
      if executionId !in waitingExecutions { return; }
      timers.ClearTimeout(waitingExecutions[executionId]);
      waitingExecutions := waitingExecutions - {executionId};
    }

    method Start(executionId: ExecutionId)
      modifies this`waitingExecutions
      ensures View() == StartExecution(old(View()), executionId)
      ensures waitingExecutions == old(waitingExecutions) - {executionId}
    {
      waitingExecutions := waitingExecutions - {executionId};
    }

    /** The runtime calls a timer back. */
    method OnTimeout(timer: TimerId)
      requires timer in timers.live
      modifies this`waitingExecutions, timers
      ensures View() == Fire(old(View()), timer)
    {
      var executionId := timers.live[timer].executionId;
      timers.ClearTimeout(timer);
      Start(executionId);
    }

    method EndTracking()
      modifies timers
      ensures View() == StopTracking(old(View()))
    {
      if mainTimer.None? { return; }
      timers.ClearInterval(mainTimer.value);
      ghost var start := View();
      var left := waitingExecutions.Keys;
      ghost var cleared: set<ExecutionId> := {};
      ClearNone(start);
      while left != {}
        invariant cleared <= start.entries.Keys && left == start.entries.Keys - cleared
        invariant View() == ClearSome(start, cleared)
        decreases |left|
      {
        var executionId :| executionId in left;
        ClearOneMore(start, cleared, executionId);
        timers.ClearTimeout(waitingExecutions[executionId]);
        left, cleared := left - {executionId}, cleared + {executionId};
      }
      ClearEverything(start, cleared);
    }
  }
}
