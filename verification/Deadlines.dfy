/** By when an execution has to be over: the timeout of the workflow started first, the
    deadlines handed down to sub-workflows, and the timer that stops an execution, resumed
    or not.
    Instants and delays are in milliseconds, timeouts in seconds. */
module Deadlines {
  import opened Wrappers

  const MAX_SAFE_INTEGER: int := 9007199254740991

  /** A timeout of zero or less limits nothing. */
  predicate Limits(timeout: Option<int>) {
    timeout.Some? && timeout.value > 0
  }

  /** The workflow's own timeout, or the default one; at most the maximum. */
  function RootTimeout(settings: Option<int>, defaultTimeout: int, maxTimeout: int): int {
    var timeout := if settings.Some? then settings.value else defaultTimeout;
    if timeout > 0 && maxTimeout < timeout then maxTimeout else timeout
  }

  /** The workflow's own timeout counts if it has one, else the default one, and where that
      limits, it never goes beyond the maximum. */
  lemma RootTimeoutIs(settings: Option<int>, defaultTimeout: int, maxTimeout: int)
    ensures var t := RootTimeout(settings, defaultTimeout, maxTimeout);
            && (t == maxTimeout || settings == Some(t) || (settings == None && t == defaultTimeout))
            && (t > 0 ==> t <= maxTimeout)
            && (forall own :: settings == Some(own) && (own <= 0 || own <= maxTimeout) ==> t == own)
            && (settings == None && (defaultTimeout <= 0 || defaultTimeout <= maxTimeout) ==> t == defaultTimeout)
            && (forall own :: settings == Some(own) && own <= 0 ==> t <= 0)
  {
  }

  datatype Stop = Never | AtOnce | After(delay: int)

  /** What the database holds of an execution's start. Every run sets it anew. */
  class ExecutionRow {
    var startedAt: Option<int>

    constructor ()
      ensures startedAt == None
    {
      startedAt := None;
    }

    method SetRunning(now: int)
      modifies this
      ensures startedAt == Some(now)
    {
      startedAt := Some(now);
    }
  }

  /** The longest delay a timer takes; a longer one fires after a millisecond. */
  const MAX_DELAY: int := 2147483647

  /** The deadline handed to the nodes and sub-workflows, set at `now`, and when the
      execution is stopped from outside, computed at `later`. */
  method RunMainProcess(row: ExecutionRow, settings: Option<int>, defaultTimeout: int, maxTimeout: int,
                        startedAt: Option<int>, now: int, later: int)
    returns (deadline: Option<int>, stop: Stop)
    modifies row
    ensures row.startedAt == Some(now)
    ensures var own := if settings.Some? then settings.value else defaultTimeout;
            var t := if own > 0 && own > maxTimeout then maxTimeout else own;
            && t == RootTimeout(settings, defaultTimeout, maxTimeout)
            && deadline == (if t > 0 then Some(now + t * 1000) else None)
            && (stop == Never <==> t <= 0)
            && (t > 0 ==>
                  var intended := HardStop(startedAt, t, later);
                  StopsAt(stop, later) == intended <==> intended - later <= MAX_DELAY)
            && (stop == AtOnce <==> t > 0 && startedAt.Some? && startedAt.value + t * 1000 <= later)
            && (stop.After? ==>
                  later + stop.delay == (if startedAt.Some? then startedAt.value else later) + t * 1000)
  {
    var workflowTimeout := if settings.Some? then settings.value else defaultTimeout;
    if workflowTimeout > 0 {
      workflowTimeout := if workflowTimeout < maxTimeout then workflowTimeout else maxTimeout;
    }
    deadline := if workflowTimeout <= 0 then None else Some(now + workflowTimeout * 1000);
    row.SetRunning(now);
    stop := Never;
    if workflowTimeout > 0 {
      var timeout := (if workflowTimeout < maxTimeout then workflowTimeout else maxTimeout) * 1000;
      if startedAt.Some? {
        timeout := if timeout - (later - startedAt.value) > 0 then timeout - (later - startedAt.value) else 0;
      }
      stop := if timeout == 0 then AtOnce else After(timeout);
    }
  }

  /** When a stop arranged at `later` comes, if it comes. */
  function StopsAt(stop: Stop, later: int): int {
    if !stop.After? then later else later + if stop.delay <= MAX_DELAY then stop.delay else 1
  }

  /** The stop is meant for its timeout after the start it is told of, or for at once when
      that is over; not told of one, for its timeout from now. */
  function HardStop(startedAt: Option<int>, timeout: int, now: int): int {
    if startedAt.None? then now + timeout * 1000
    else if startedAt.value + timeout * 1000 > now then startedAt.value + timeout * 1000
    else now
  }

  /** A timer takes 2147483647 milliseconds, some 25 days; a stop further off comes within
      one. */
  lemma DistantStopsComeAtOnce(delay: int, later: int)
    ensures StopsAt(After(delay), later) == later + if delay < 2147483648 then delay else 1
  {
  }

  // ---------- Sub-workflows ----------

  /** What a sub-workflow, started at `start`, hands down in turn. */
  method StartExecution(parent: Option<int>, timeout: Option<int>, start: int) returns (deadline: Option<int>)
    ensures deadline == SubDeadline(parent, timeout, start)
  {
    var subworkflowTimeout := parent;
    if timeout.Some? && timeout.value > 0 {
      var limit := if parent.None? || parent.value == 0 then MAX_SAFE_INTEGER else parent.value;
      var own := start + timeout.value * 1000;
      subworkflowTimeout := Some(if limit < own then limit else own);
    }
    return subworkflowTimeout;
  }

  function SubDeadline(parent: Option<int>, timeout: Option<int>, start: int): Option<int> {
    if !Limits(timeout) then parent
    else
      var limit := if parent.None? || parent.value == 0 then MAX_SAFE_INTEGER else parent.value;
      Some(Min(limit, start + timeout.value * 1000))
  }

  function Min(a: int, b: int): int {
    if a < b then a else b
  }

  /** No deadline is later than any. */
  function Earlier(a: Option<int>, b: Option<int>): Option<int> {
    if a.None? then b else if b.None? then a else Some(Min(a.value, b.value))
  }

  datatype Level = Level(start: int, timeout: Option<int>)

  function OwnDeadline(level: Level): Option<int> {
    if Limits(level.timeout) then Some(level.start + level.timeout.value * 1000) else None
  }

  /** One level hands down the earlier of its own deadline and its parent's, except that
      a parent's deadline of instant 0 counts as none, and that without one the largest
      safe integer stands in. */
  lemma EarlierExactlyWhen(parent: Option<int>, level: Level)
    ensures SubDeadline(parent, level.timeout, level.start) == Earlier(parent, OwnDeadline(level))
       <==> var own := OwnDeadline(level);
            !(own.Some? && ((parent.None? && own.value > MAX_SAFE_INTEGER) || (parent == Some(0) && own.value > 0)))
  {
  }

  /** The deadline after any depth of sub-workflows, as handed down. */
  function HandedDown(root: Option<int>, levels: seq<Level>): Option<int> {
    if levels == [] then root
    else
      var last := levels[|levels| - 1];
      SubDeadline(HandedDown(root, levels[..|levels| - 1]), last.timeout, last.start)
  }

  predicate IsLimited(level: Level) {
    level.timeout.Some? && level.timeout.value > 0
  }

  /** As real clocks have it. */
  ghost predicate Realistic(root: Option<int>, levels: seq<Level>) {
    && (root.Some? ==> 0 < root.value < MAX_SAFE_INTEGER)
    && forall i :: 0 <= i < |levels| && IsLimited(levels[i]) ==>
         0 < levels[i].start + levels[i].timeout.value * 1000 < MAX_SAFE_INTEGER
  }

  /** Some limit sets the deadline, be it the first one started or a sub-workflow's. */
  ghost predicate SetBy(deadline: int, root: Option<int>, levels: seq<Level>) {
    root == Some(deadline)
    || exists i :: 0 <= i < |levels| && IsLimited(levels[i])
                   && deadline == levels[i].start + levels[i].timeout.value * 1000
  }

  /** And every limit allows it. */
  ghost predicate AllowedBy(deadline: int, root: Option<int>, levels: seq<Level>) {
    && (root.Some? ==> deadline <= root.value)
    && forall i :: 0 <= i < |levels| && IsLimited(levels[i]) ==>
         deadline <= levels[i].start + levels[i].timeout.value * 1000
  }

  ghost predicate Unlimited(root: Option<int>, levels: seq<Level>) {
    root.None? && forall i :: 0 <= i < |levels| ==> !IsLimited(levels[i])
  }

  /** The deadline is the earliest of all limits on the way down, and there is none
      exactly if nobody on the way is limited. */
  lemma {:induction false} DeadlineIsEarliest(root: Option<int>, levels: seq<Level>)
    requires Realistic(root, levels)
    ensures HandedDown(root, levels).None? <==> Unlimited(root, levels)
    ensures HandedDown(root, levels).Some? ==>
              var d := HandedDown(root, levels).value;
              SetBy(d, root, levels) && AllowedBy(d, root, levels) && 0 < d < MAX_SAFE_INTEGER
  {
    if levels != [] {
      var init, last := levels[..|levels| - 1], levels[|levels| - 1];
      assert levels == init + [last];
      assert forall i :: 0 <= i < |init| ==> levels[i] == init[i];
      DeadlineIsEarliest(root, init);
      EarlierExactlyWhen(HandedDown(root, init), last);
      var d := HandedDown(root, levels);
      if d.Some? && d != OwnDeadline(last) {
        assert d == HandedDown(root, init) && SetBy(d.value, root, init);
      }
    }
  }

  /** A descendant's deadline is never later than an ancestor's. */
  lemma {:induction false} DescendantsNoLater(root: Option<int>, levels: seq<Level>, k: nat)
    requires Realistic(root, levels) && k <= |levels| && HandedDown(root, levels[..k]).Some?
    ensures HandedDown(root, levels).Some? && HandedDown(root, levels).value <= HandedDown(root, levels[..k]).value
  {
    if k == |levels| {
      assert levels[..k] == levels;
    } else {
      var init := levels[..|levels| - 1];
      assert init[..k] == levels[..k];
      assert forall i :: 0 <= i < |init| ==> levels[i] == init[i];
      DescendantsNoLater(root, init, k);
      DeadlineIsEarliest(root, init);
    }
  }

  /** A chain that is first limited beyond the largest safe integer gets that one. */
  lemma UnsafeDeadlinesAreCut(level: Level)
    requires OwnDeadline(level).Some? && OwnDeadline(level).value > MAX_SAFE_INTEGER
    ensures HandedDown(None, [level]) == Some(9007199254740991)
  {
    assert [level][..0] == [];
  }

  // ---------- Being resumed ----------

  /** One run of an execution: when it set the row running, when it computed its stop, and
      whether it was started with what the row said of the start, as timers do, or without,
      as webhooks do. */
  datatype Run = Run(now: int, later: int, fromRow: bool)

  /** What the row says after the runs so far. */
  function StartedAt(runs: seq<Run>): Option<int> {
    if runs == [] then None else Some(runs[|runs| - 1].now)
  }

  /** When the last of the runs is meant to be stopped. */
  function LastStop(runs: seq<Run>, timeout: int): int
    requires runs != []
  {
    var last := runs[|runs| - 1];
    HardStop(if last.fromRow then StartedAt(runs[..|runs| - 1]) else None, timeout, last.later)
  }

  /** One run after the other. */
  ghost predicate InTime(runs: seq<Run>) {
    && (forall i :: 0 <= i < |runs| ==> runs[i].now <= runs[i].later)
    && (forall i, j :: 0 <= i < j < |runs| ==> runs[i].later <= runs[j].now)
  }

  /** A resumed execution is stopped its timeout after it was first started exactly in these
      cases. With the start from the row: if the run before set the row at the same instant
      as the first, which a first resume's does, or that run's timeout is over as well.
      Without: never, as the timeout then counts anew. */
  lemma StoppedAfterFirstStartExactlyWhen(runs: seq<Run>, timeout: int)
    requires |runs| > 1 && InTime(runs) && timeout > 0
    ensures var last, previous := runs[|runs| - 1], runs[|runs| - 2];
            LastStop(runs, timeout) == HardStop(Some(runs[0].now), timeout, last.later) <==>
            if last.fromRow then previous.now == runs[0].now || previous.now + timeout * 1000 <= last.later
            else last.later == runs[0].now
  {
    var init := runs[..|runs| - 1];
    assert init[|init| - 1] == runs[|runs| - 2];
    assert |runs| > 2 ==> runs[0].later <= runs[|runs| - 2].now;
    assert runs[0].later <= runs[|runs| - 1].now;
  }

  /** So the first resume, started from the row, keeps the stop. */
  lemma FirstResumeKeepsStop(first: Run, resumed: Run, timeout: int)
    requires InTime([first, resumed]) && resumed.fromRow && timeout > 0
    ensures LastStop([first, resumed], timeout) == HardStop(Some(first.now), timeout, resumed.later)
  {
    StoppedAfterFirstStartExactlyWhen([first, resumed], timeout);
  }

  /** And the second counts from the first: an execution started at 0 with a minute, resumed
      after 30 seconds and after 50, goes on until a minute and a half. */
  lemma SecondResumeMovesStop()
    ensures var runs := [Run(0, 0, false), Run(30000, 30000, true), Run(50000, 50000, true)];
            LastStop(runs, 60) == 90000 && HardStop(Some(runs[0].now), 60, runs[2].later) == 60000
  {
    var runs := [Run(0, 0, false), Run(30000, 30000, true), Run(50000, 50000, true)];
    assert runs[..2] == [Run(0, 0, false), Run(30000, 30000, true)];
  }
}
