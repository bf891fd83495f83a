/** The timers of waiting executions (packages/cli/src/wait-tracker.ts).

    The leader polls the rows that are due soon and arms one timer per execution.  `Tracker` is the
    state as a value; the class updates the fields as the source does. */
module WaitTracker {
  import opened Wrappers

  type ExecutionId = string
  type Time = int
  type TimerId = nat

  /** A row the poll found: an execution and when it is to resume. */
  datatype Due = Due(id: ExecutionId, waitTill: Time)

  datatype Timer = Timer(id: ExecutionId, delay: int)

  /** `waiting` maps an execution to the timer set for it, `timers` holds the armed timers and
      `intervals` the running polls, of which `mainTimer` knows the latest. */
  datatype Tracker = Tracker(
    waiting: map<ExecutionId, TimerId>,
    timers: map<TimerId, Timer>,
    mainTimer: Option<TimerId>,
    intervals: set<TimerId>,
    next: nat)

  const EMPTY := Tracker(map[], map[], None, {}, 0)

  // ----- The operations -----

  function Tracked(t: Tracker, due: Due, now: Time): Tracker {
    if due.id in t.waiting then t
    else t.(waiting := t.waiting[due.id := t.next],
            timers := t.timers[t.next := Timer(due.id, due.waitTill - now)],
            next := t.next + 1)
  }

  function Polled(t: Tracker, executions: seq<Due>, now: Time): Tracker {
    if executions == [] then t
    else Tracked(Polled(t, executions[..|executions| - 1], now), executions[|executions| - 1], now)
  }

  /** A new poll interval. */
  function Begun(t: Tracker): Tracker {
    t.(mainTimer := Some(t.next), intervals := t.intervals + {t.next}, next := t.next + 1)
  }

  function Started(t: Tracker, executions: seq<Due>, now: Time): Tracker {
    Polled(Begun(t), executions, now)
  }

  /** `startExecution` up to its first await: it forgets the execution but clears no timer. */
  function Resumed(t: Tracker, id: ExecutionId): Tracker {
    t.(waiting := t.waiting - {id})
  }

  function Fired(t: Tracker, timer: TimerId): Tracker {
    if timer !in t.timers then t else Resumed(t.(timers := t.timers - {timer}), t.timers[timer].id)
  }

  function StoppedExecution(t: Tracker, id: ExecutionId): Tracker {
    if id !in t.waiting then t else t.(waiting := t.waiting - {id}, timers := t.timers - {t.waiting[id]})
  }

  function SetTimers(waiting: map<ExecutionId, TimerId>): set<TimerId> {
    set id | id in waiting :: waiting[id]
  }

  /** Stepping down clears the poll and the timers, and keeps the entries. */
  function Stopped(t: Tracker): Tracker {
    if t.mainTimer.None? then t
    else t.(timers := t.timers - SetTimers(t.waiting), intervals := t.intervals - {t.mainTimer.value})
  }

  class WaitTracker {
    var waitingExecutions: map<ExecutionId, TimerId>
    var timers: map<TimerId, Timer>
    var mainTimer: Option<TimerId>
    var intervals: set<TimerId>
    var next: nat

    function State(): Tracker
      reads this
    {
      Tracker(waitingExecutions, timers, mainTimer, intervals, next)
    }

    constructor ()
      ensures State() == EMPTY
    {
      waitingExecutions, timers, mainTimer, intervals, next := map[], map[], None, {}, 0;
    }

    method StartTracking(executions: seq<Due>, now: Time)
      modifies this
      ensures State() == Started(old(State()), executions, now)
    {
      mainTimer, intervals, next := Some(next), intervals + {next}, next + 1;
      GetWaitingExecutions(executions, now);
    }

    method GetWaitingExecutions(executions: seq<Due>, now: Time)
      modifies this`waitingExecutions, this`timers, this`next
      ensures State() == Polled(old(State()), executions, now)
    {
      ghost var before := State();
      for i := 0 to |executions|
        invariant State() == Polled(before, executions[..i], now)
      {
        var execution := executions[i];
        assert executions[..i + 1][..i] == executions[..i];
        if execution.id !in waitingExecutions {
          timers := timers[next := Timer(execution.id, execution.waitTill - now)];
          waitingExecutions := waitingExecutions[execution.id := next];
          next := next + 1;
        }
      }
      assert executions[..|executions|] == executions;
    }

    method StopExecution(id: ExecutionId)
      modifies this`waitingExecutions, this`timers
      ensures State() == StoppedExecution(old(State()), id)
    {
      if id !in waitingExecutions { return; }
      timers := timers - {waitingExecutions[id]};
      waitingExecutions := waitingExecutions - {id};
    }

    method StartExecution(id: ExecutionId)
      modifies this`waitingExecutions
      ensures State() == Resumed(old(State()), id)
      ensures id !in waitingExecutions
    {
      waitingExecutions := waitingExecutions - {id};
    }

    method Tick(timer: TimerId)
      requires timer in timers
      modifies this`waitingExecutions, this`timers
      ensures State() == Fired(old(State()), timer)
      ensures timer !in timers && old(timers[timer].id) !in waitingExecutions
    {
      var id := timers[timer].id;
      timers := timers - {timer};
      StartExecution(id);
    }

    method StopTracking()
      modifies this`timers, this`intervals
      ensures State() == Stopped(old(State()))
    {
      if mainTimer.None? { return; }
      intervals := intervals - {mainTimer.value};
      var todo := waitingExecutions.Keys;
      ghost var cleared: set<TimerId> := {};
      while todo != {}
        invariant todo <= waitingExecutions.Keys
        invariant cleared == set id | id in waitingExecutions && id !in todo :: waitingExecutions[id]
        invariant timers == old(timers) - cleared && intervals == old(intervals) - {mainTimer.value}
        decreases |todo|
      {
        var id :| id in todo;
        timers := timers - {waitingExecutions[id]};
        todo := todo - {id};
        cleared := cleared + {waitingExecutions[id]};
      }
      assert cleared == SetTimers(waitingExecutions);
    }
  }

  // ----- Runs -----

  datatype Action =
    | StartTracking(executions: seq<Due>, now: Time)
    | Poll(executions: seq<Due>, now: Time)
    | Fire(timer: TimerId)
    | Resume(id: ExecutionId)
    | StopExecution(id: ExecutionId)
    | StopTracking

  function Apply(t: Tracker, action: Action): Tracker {
    match action
    case StartTracking(executions, now) => Started(t, executions, now)
    case Poll(executions, now) => Polled(t, executions, now)
    case Fire(timer) => Fired(t, timer)
    case Resume(id) => Resumed(t, id)
    case StopExecution(id) => StoppedExecution(t, id)
    case StopTracking => Stopped(t)
  }

  function Run(actions: seq<Action>): Tracker {
    if actions == [] then EMPTY else Apply(Run(Front(actions)), Last(actions))
  }

  function Front(actions: seq<Action>): seq<Action>
    requires actions != []
  {
    actions[..|actions| - 1]
  }

  function Last(actions: seq<Action>): Action
    requires actions != []
  {
    actions[|actions| - 1]
  }

  /** Timers are numbered once, and the timer set for an execution, if still armed, is for it. */
  ghost predicate Fresh(t: Tracker) {
    && (forall r | r in t.timers :: r < t.next)
    && (forall id | id in t.waiting :: t.waiting[id] < t.next)
    && (forall id | id in t.waiting && t.waiting[id] in t.timers :: t.timers[t.waiting[id]].id == id)
  }

  lemma {:induction false} PollKeepsFresh(t: Tracker, executions: seq<Due>, now: Time)
    requires Fresh(t)
    ensures Fresh(Polled(t, executions, now))
    decreases |executions|
  {
    if executions == [] {
    } else {
      PollKeepsFresh(t, executions[..|executions| - 1], now);
    }
  }

  lemma StepKeepsFresh(t: Tracker, action: Action)
    requires Fresh(t)
    ensures Fresh(Apply(t, action))
  {
    match action
    case StartTracking(executions, now) => PollKeepsFresh(Begun(t), executions, now);
    case Poll(executions, now) => PollKeepsFresh(t, executions, now);
    case _ =>
  }

  lemma {:induction false} RunIsFresh(actions: seq<Action>)
    ensures Fresh(Run(actions))
    decreases |actions|
  {
    if actions == [] {
    } else {
      RunIsFresh(Front(actions));
      StepKeepsFresh(Run(Front(actions)), Last(actions));
    }
  }

  // ----- What the single steps forget -----

  /** A timer that goes off is gone, and its execution is forgotten before it is resumed; every other entry
      and timer stays. */
  lemma FiringForgets(t: Tracker, r: TimerId)
    requires r in t.timers
    ensures var t', id := Apply(t, Fire(r)), t.timers[r].id;
      && id !in t'.waiting && r !in t'.timers
      && (forall i | i != id ::
            (i in t'.waiting <==> i in t.waiting) && (i in t.waiting ==> t'.waiting[i] == t.waiting[i]))
      && (forall q | q != r :: (q in t'.timers <==> q in t.timers) && (q in t.timers ==> t'.timers[q] == t.timers[q]))
      && t'.mainTimer == t.mainTimer && t'.intervals == t.intervals
  {
  }

  /** Stopping an execution clears its timer, resuming it directly does not; both forget the execution and
      leave every other one alone. */
  lemma StoppingAndResumingForget(t: Tracker, id: ExecutionId)
    requires Fresh(t)
    ensures var t' := Apply(t, StopExecution(id));
      && t'.waiting == t.waiting - {id}
      && (forall r :: r in t'.timers <==> r in t.timers && !(id in t.waiting && t.waiting[id] == r))
      && (forall r | r in t'.timers :: t'.timers[r] == t.timers[r])
      && t'.mainTimer == t.mainTimer && t'.intervals == t.intervals
    ensures Apply(t, Resume(id)) == t.(waiting := t.waiting - {id})
  {
  }

  // ----- Every entry is armed until the process steps down -----

  ghost predicate NeverStopped(actions: seq<Action>) {
    StopTracking !in actions
  }

  ghost predicate EntriesArmed(t: Tracker) {
    forall id | id in t.waiting :: EntryArmed(t, id)
  }

  lemma {:induction false} PollKeepsEntriesArmed(t: Tracker, executions: seq<Due>, now: Time)
    requires EntriesArmed(t)
    ensures EntriesArmed(Polled(t, executions, now))
    decreases |executions|
  {
    if executions == [] {
    } else {
      PollKeepsEntriesArmed(t, executions[..|executions| - 1], now);
    }
  }

  lemma StepKeepsEntriesArmed(t: Tracker, action: Action)
    requires Fresh(t) && EntriesArmed(t) && !action.StopTracking?
    ensures EntriesArmed(Apply(t, action))
  {
    match action
    case StartTracking(executions, now) => PollKeepsEntriesArmed(Begun(t), executions, now);
    case Poll(executions, now) => PollKeepsEntriesArmed(t, executions, now);
    case StopExecution(id) =>
      forall i | i in t.waiting && i != id && id in t.waiting ensures t.waiting[i] != t.waiting[id] {
        assert EntryArmed(t, i) && EntryArmed(t, id);
      }
    case Fire(r) =>
      forall i | i in t.waiting && r in t.timers && i != t.timers[r].id ensures t.waiting[i] != r {
        assert EntryArmed(t, i);
      }
    case _ =>
  }

  /** In every run in which the process never steps down, each tracked execution has its timer armed. */
  lemma {:induction false} EntriesStayArmed(actions: seq<Action>)
    requires NeverStopped(actions)
    ensures EntriesArmed(Run(actions))
    decreases |actions|
  {
    if actions == [] {
    } else {
      EntriesStayArmed(Front(actions));
      RunIsFresh(Front(actions));
      StepKeepsEntriesArmed(Run(Front(actions)), Last(actions));
    }
  }

  /** In such a run every poll leaves each execution that it finds armed, also one whose timer has just gone
      off; that one is armed for the time left. */
  lemma FoundIsArmed(actions: seq<Action>, r: TimerId, executions: seq<Due>, now: Time, id: ExecutionId)
    requires NeverStopped(actions) && FirstDue(executions, id).Some?
    ensures EntryArmed(Polled(Run(actions), executions, now), id)
    ensures r in Run(actions).timers && Run(actions).timers[r].id == id ==>
      var t := Polled(Fired(Run(actions), r), executions, now);
      EntryArmed(t, id) && t.timers[t.waiting[id]] == Timer(id, FirstDue(executions, id).value.waitTill - now)
  {
    EntriesStayArmed(actions);
    RunIsFresh(actions);
    PollArms(Run(actions), executions, now, id);
    if r in Run(actions).timers && Run(actions).timers[r].id == id {
      StepKeepsFresh(Run(actions), Fire(r));
      PollArms(Fired(Run(actions), r), executions, now, id);
    }
  }

  // ----- One poll interval -----

  /** The process starts tracking only when it does not poll. */
  ghost predicate Alternates(actions: seq<Action>) {
    actions == [] ||
    (Alternates(Front(actions)) && (Last(actions).StartTracking? ==> Run(Front(actions)).intervals == {}))
  }

  lemma {:induction false} PollKeepsIntervals(t: Tracker, executions: seq<Due>, now: Time)
    ensures Polled(t, executions, now).intervals == t.intervals && Polled(t, executions, now).mainTimer == t.mainTimer
    decreases |executions|
  {
    if executions == [] {
    } else {
      PollKeepsIntervals(t, executions[..|executions| - 1], now);
    }
  }

  /** Then one interval polls after each start and none after each stop. */
  lemma {:induction false} OneIntervalPolls(actions: seq<Action>)
    requires Alternates(actions)
    ensures var t := Run(actions); t.intervals == {} || (t.mainTimer.Some? && t.intervals == {t.mainTimer.value})
    ensures actions != [] && Last(actions).StartTracking? ==> |Run(actions).intervals| == 1
    ensures actions != [] && Last(actions).StopTracking? ==> Run(actions).intervals == {}
    decreases |actions|
  {
    if actions == [] {
    } else {
      var t := Run(Front(actions));
      OneIntervalPolls(Front(actions));
      match Last(actions)
      case StartTracking(executions, now) => PollKeepsIntervals(Begun(t), executions, now);
      case Poll(executions, now) => PollKeepsIntervals(t, executions, now);
      case _ =>
    }
  }

  // ----- Every armed timer is known -----

  /** An armed timer that no entry knows. */
  ghost predicate IsUnknown(t: Tracker, r: TimerId) {
    r in t.timers && !(t.timers[r].id in t.waiting && t.waiting[t.timers[r].id] == r)
  }

  /** Every armed timer is the one set for its execution, so no execution has two. */
  ghost predicate Known(t: Tracker) {
    forall r | r in t.timers :: !IsUnknown(t, r)
  }

  /** The timer set for the execution is still armed. */
  ghost predicate EntryArmed(t: Tracker, id: ExecutionId) {
    id in t.waiting && t.waiting[id] in t.timers
  }

  lemma {:induction false} PollKeepsKnown(t: Tracker, executions: seq<Due>, now: Time)
    requires Fresh(t) && Known(t)
    ensures Known(Polled(t, executions, now))
    decreases |executions|
  {
    if executions == [] {
    } else {
      PollKeepsKnown(t, executions[..|executions| - 1], now);
      PollKeepsFresh(t, executions[..|executions| - 1], now);
    }
  }

  /** Resuming an execution directly, as a finished child does for its parent, leaves its timer unknown
      if it is armed; no other step does so. */
  lemma StepKeepsKnownIff(t: Tracker, action: Action)
    requires Fresh(t) && Known(t)
    ensures Known(Apply(t, action)) <==> !(action.Resume? && EntryArmed(t, action.id))
    ensures action.Resume? && EntryArmed(t, action.id) ==> IsUnknown(Apply(t, action), t.waiting[action.id])
  {
    match action
    case StartTracking(executions, now) => PollKeepsKnown(Begun(t), executions, now);
    case Poll(executions, now) => PollKeepsKnown(t, executions, now);
    case Resume(id) =>
      if EntryArmed(t, id) { assert IsUnknown(Resumed(t, id), t.waiting[id]); }
    case _ =>
  }

  /** No execution is resumed directly while its timer is armed. */
  ghost predicate Calm(actions: seq<Action>) {
    actions == [] ||
    (Calm(Front(actions)) && !(Last(actions).Resume? && EntryArmed(Run(Front(actions)), Last(actions).id)))
  }

  /** In every calm run each execution has at most one armed timer, the one that its entry knows. */
  lemma {:induction false} CalmRunsKnowTheirTimers(actions: seq<Action>)
    requires Calm(actions)
    ensures Known(Run(actions))
    ensures forall q, r | q in Run(actions).timers && r in Run(actions).timers
              && Run(actions).timers[q].id == Run(actions).timers[r].id :: q == r
    decreases |actions|
  {
    if actions == [] {
    } else {
      CalmRunsKnowTheirTimers(Front(actions));
      RunIsFresh(Front(actions));
      StepKeepsKnownIff(Run(Front(actions)), Last(actions));
    }
    assert Known(Run(actions));
  }

  /** Stepping down disarms exactly the known timers, so it disarms all if and only if all are known. */
  lemma StoppingDisarmsIff(actions: seq<Action>)
    requires Run(actions).mainTimer.Some?
    ensures var t := Run(actions);
      && (forall r :: r in Stopped(t).timers <==> IsUnknown(t, r))
      && (Stopped(t).timers == map[] <==> Known(t))
  {
    RunIsFresh(actions);
    var t := Run(actions);
    forall r ensures r in Stopped(t).timers <==> IsUnknown(t, r) {
      if r in t.timers && !IsUnknown(t, r) { assert t.timers[r].id in t.waiting; }
    }
    if Stopped(t).timers == map[] {
      forall r | r in t.timers ensures !IsUnknown(t, r) {}
    } else {
      var r :| r in Stopped(t).timers;
      assert IsUnknown(t, r);
    }
  }

  // ----- What a poll arms -----

  /** The first row found for an execution. */
  function FirstDue(executions: seq<Due>, id: ExecutionId): Option<Due> {
    if executions == [] then None
    else
      var before := FirstDue(executions[..|executions| - 1], id);
      var last := executions[|executions| - 1];
      if before.Some? then before else if last.id == id then Some(last) else None
  }

  lemma {:induction false} FirstDueIs(executions: seq<Due>, id: ExecutionId)
    ensures FirstDue(executions, id).None? <==> forall i | 0 <= i < |executions| :: executions[i].id != id
    ensures FirstDue(executions, id).Some? ==>
      exists i :: 0 <= i < |executions| && executions[i] == FirstDue(executions, id).value && executions[i].id == id
        && forall k | 0 <= k < i :: executions[k].id != id
    decreases |executions|
  {
    if executions == [] {
    } else {
      var n := |executions| - 1;
      FirstDueIs(executions[..n], id);
      if FirstDue(executions[..n], id).Some? {
        var i :| 0 <= i < n && executions[..n][i] == FirstDue(executions[..n], id).value && executions[..n][i].id == id
          && forall k | 0 <= k < i :: executions[..n][k].id != id;
        assert executions[i].id == id;
        forall k | 0 <= k < i ensures executions[k].id != id { assert executions[k] == executions[..n][k]; }
      } else {
        forall k | 0 <= k < n ensures executions[k].id != id { assert executions[k] == executions[..n][k]; }
        assert executions[n] == executions[|executions| - 1];
      }
    }
  }

  ghost predicate IsArmed(t: Tracker, id: ExecutionId) {
    exists r :: r in t.timers && t.timers[r].id == id
  }

  lemma TrackingArms(t: Tracker, due: Due, now: Time, id: ExecutionId)
    requires Fresh(t)
    ensures IsArmed(Tracked(t, due, now), id) <==> IsArmed(t, id) || (id == due.id && id !in t.waiting)
  {
    var t' := Tracked(t, due, now);
    if r :| r in t.timers && t.timers[r].id == id {
      assert r in t'.timers && t'.timers[r] == t.timers[r];
    }
    if due.id == id && id !in t.waiting {
      assert t'.timers[t.next].id == id;
    }
  }

  /** A poll leaves a tracked execution alone, armed or not, and arms any other one that it finds with
      the time left until the execution is due. */
  lemma {:induction false} PollArms(t: Tracker, executions: seq<Due>, now: Time, id: ExecutionId)
    requires Fresh(t)
    ensures var t', due := Polled(t, executions, now), FirstDue(executions, id);
      && (IsArmed(t', id) <==> IsArmed(t, id) || (id !in t.waiting && due.Some?))
      && (id in t.waiting ==>
            && id in t'.waiting && t'.waiting[id] == t.waiting[id]
            && (EntryArmed(t', id) <==> EntryArmed(t, id)))
      && (id !in t.waiting && due.Some? ==>
            EntryArmed(t', id) && t'.timers[t'.waiting[id]] == Timer(id, due.value.waitTill - now))
      && (id !in t.waiting && due.None? ==> id !in t'.waiting)
    decreases |executions|
  {
    if executions == [] {
    } else {
      var rest, last := executions[..|executions| - 1], executions[|executions| - 1];
      PollArms(t, rest, now, id);
      PollKeepsFresh(t, rest, now);
      TrackingArms(Polled(t, rest, now), last, now, id);
    }
  }

  // ----- Stepping down and taking over again -----

  function PolledAll(t: Tracker, polls: seq<(seq<Due>, Time)>): Tracker {
    if polls == [] then t
    else Polled(PolledAll(t, polls[..|polls| - 1]), polls[|polls| - 1].0, polls[|polls| - 1].1)
  }

  ghost predicate Finds(polls: seq<(seq<Due>, Time)>, id: ExecutionId) {
    exists i :: 0 <= i < |polls| && FirstDue(polls[i].0, id).Some?
  }

  lemma FindsExtends(before: seq<(seq<Due>, Time)>, last: (seq<Due>, Time), id: ExecutionId)
    ensures Finds(before + [last], id) <==> Finds(before, id) || FirstDue(last.0, id).Some?
  {
    var polls := before + [last];
    if i :| 0 <= i < |before| && FirstDue(before[i].0, id).Some? { assert polls[i] == before[i]; }
    if i :| 0 <= i < |polls| && FirstDue(polls[i].0, id).Some? { assert i < |before| ==> before[i] == polls[i]; }
    assert polls[|before|] == last;
  }

  lemma {:induction false} PollsArmIff(t: Tracker, polls: seq<(seq<Due>, Time)>, id: ExecutionId)
    requires Fresh(t)
    ensures Fresh(PolledAll(t, polls))
    ensures id in PolledAll(t, polls).waiting <==> id in t.waiting || Finds(polls, id)
    ensures IsArmed(PolledAll(t, polls), id) <==> IsArmed(t, id) || (id !in t.waiting && Finds(polls, id))
    decreases |polls|
  {
    if polls == [] {
    } else {
      var before, last := polls[..|polls| - 1], polls[|polls| - 1];
      PollsArmIff(t, before, id);
      PollKeepsFresh(PolledAll(t, before), last.0, last.1);
      PollArms(PolledAll(t, before), last.0, last.1, id);
      assert polls == before + [last];
      FindsExtends(before, last, id);
    }
  }

  /** After any run, when the process steps down and takes over again, then, however often it polls, an
      execution has an armed timer exactly if one that no entry knew has survived, or a poll finds the
      execution and it was not tracked at the step-down: the entries kept then suppress every later
      timer. */
  lemma TakeoverArmsIff(actions: seq<Action>, executions: seq<Due>, now: Time, later: seq<(seq<Due>, Time)>,
                        id: ExecutionId)
    requires Run(actions).mainTimer.Some?
    ensures var t := Run(actions);
      IsArmed(PolledAll(Started(Stopped(t), executions, now), later), id) <==>
        || (exists r :: IsUnknown(t, r) && t.timers[r].id == id)
        || (id !in t.waiting && (FirstDue(executions, id).Some? || Finds(later, id)))
  {
    var t := Run(actions);
    RunIsFresh(actions);
    StepKeepsFresh(t, StopTracking);
    StoppingDisarmsIff(actions);
    var begun := Begun(Stopped(t));
    PollArms(begun, executions, now, id);
    PollKeepsFresh(begun, executions, now);
    PollsArmIff(Started(Stopped(t), executions, now), later, id);
    if r :| IsUnknown(t, r) && t.timers[r].id == id { assert begun.timers[r].id == id; }
  }

  /** Stopping or resuming the execution by other means is what makes it eligible again. */
  lemma ForgettingRearms(t: Tracker, id: ExecutionId, executions: seq<Due>, now: Time)
    requires Fresh(t) && id in t.waiting && FirstDue(executions, id).Some?
    ensures EntryArmed(Polled(t, executions, now), id) <==> EntryArmed(t, id)
    ensures EntryArmed(Polled(StoppedExecution(t, id), executions, now), id)
    ensures EntryArmed(Polled(Resumed(t, id), executions, now), id)
  {
    PollArms(t, executions, now, id);
    PollArms(StoppedExecution(t, id), executions, now, id);
    PollArms(Resumed(t, id), executions, now, id);
  }
}
