/** The queue of workflows whose activation failed (packages/cli/src/active-workflow-manager.ts:811-882).

    A queued workflow is retried by a timer whose delay doubles with every failure.  A retry awaits
    `add`, so between its start and its end any other operation may run.  `Queue` is the state as a
    value, with one function per operation; the class updates the fields as the source does. */
module ActivationQueue {
  import opened Collections

  type WorkflowId = string
  type TimerId = nat
  type AttemptId = nat

  const INITIAL_TIMEOUT := 1000
  const MAX_TIMEOUT := 24 * 60 * 60 * 1000

  datatype Entry = Entry(mode: string, lastTimeout: int, timer: TimerId)
  datatype Timer = Timer(workflow: WorkflowId, mode: string, delay: int)
  datatype Attempt = Attempt(workflow: WorkflowId, mode: string)

  /** `timers` are the armed ones, `attempts` the retries that wait for `add`. */
  datatype Queue = Queue(
    queued: map<WorkflowId, Entry>,
    timers: map<TimerId, Timer>,
    attempts: map<AttemptId, Attempt>,
    next: nat)

  const EMPTY := Queue(map[], map[], map[], 0)

  // ----- The operations -----

  function Removed(q: Queue, w: WorkflowId): Queue {
    if w in q.queued then q.(queued := q.queued - {w}, timers := q.timers - {q.queued[w].timer}) else q
  }

  function Armed(q: Queue, entry: Entry, timer: Timer): Queue {
    q.(queued := q.queued[timer.workflow := entry.(timer := q.next)],
       timers := q.timers[q.next := timer],
       next := q.next + 1)
  }

  function Enqueued(q: Queue, w: WorkflowId, mode: string): Queue {
    Armed(Removed(q, w), Entry(mode, INITIAL_TIMEOUT, 0), Timer(w, mode, INITIAL_TIMEOUT))
  }

  function EntryTimers(queued: map<WorkflowId, Entry>): set<TimerId> {
    set w | w in queued :: queued[w].timer
  }

  function AllRemoved(q: Queue): Queue {
    q.(queued := map[], timers := q.timers - EntryTimers(q.queued))
  }

  function Fired(q: Queue, t: TimerId): Queue {
    if t !in q.timers then q
    else q.(timers := q.timers - {t},
            attempts := q.attempts[q.next := Attempt(q.timers[t].workflow, q.timers[t].mode)],
            next := q.next + 1)
  }

  /** The attempt's `add` returned.  An `add` that registered the workflow has removed it from the
      queue before; one that only published a command, or skipped an inactive workflow, has not. */
  function Returned(q: Queue, a: AttemptId): Queue {
    q.(attempts := q.attempts - {a})
  }

  function Doubled(timeout: int): int {
    if timeout < MAX_TIMEOUT then (if timeout * 2 < MAX_TIMEOUT then timeout * 2 else MAX_TIMEOUT) else timeout
  }

  /** The attempt's `add` threw.  Without an entry the handler itself throws and arms nothing; with one
      it replaces the entry's timer, whether or not that is still armed. */
  function Failed(q: Queue, a: AttemptId): Queue {
    if a !in q.attempts then q
    else
      var Attempt(w, mode) := q.attempts[a];
      var q1 := Returned(q, a);
      if w !in q.queued then q1
      else
        var timeout := Doubled(q.queued[w].lastTimeout);
        Armed(q1, q.queued[w].(lastTimeout := timeout), Timer(w, mode, timeout))
  }

  datatype Action =
    | Enqueue(workflow: WorkflowId, mode: string)
    | Remove(workflow: WorkflowId)
    | RemoveAll
    | Fire(timer: TimerId)
    | Return(attempt: AttemptId)
    | Fail(attempt: AttemptId)

  function Apply(q: Queue, action: Action): Queue {
    match action
    case Enqueue(w, mode) => Enqueued(q, w, mode)
    case Remove(w) => Removed(q, w)
    case RemoveAll => AllRemoved(q)
    case Fire(t) => Fired(q, t)
    case Return(a) => Returned(q, a)
    case Fail(a) => Failed(q, a)
  }

  function Run(actions: seq<Action>): Queue {
    if actions == [] then EMPTY else Apply(Run(Front(actions)), Last(actions))
  }

  function Front(actions: seq<Action>): seq<Action>
    requires actions != []
  {
    actions[..|actions| - 1]
  }

  function Last(actions: seq<Action>): Action
    requires actions != []
  {
    actions[|actions| - 1]
  }

  lemma RunExtends(actions: seq<Action>, action: Action)
    ensures Front(actions + [action]) == actions && Last(actions + [action]) == action
    ensures Run(actions + [action]) == Apply(Run(actions), action)
  {
    assert Front(actions + [action]) == actions;
  }

  lemma RemoveOneOfAll(q: Queue, w: WorkflowId)
    requires w in q.queued
    ensures AllRemoved(Removed(q, w)) == AllRemoved(q)
  {
    var rest := q.queued - {w};
    forall t | t in EntryTimers(q.queued) ensures t in EntryTimers(rest) + {q.queued[w].timer} {
      var v :| v in q.queued && q.queued[v].timer == t;
      assert v != w ==> v in rest;
    }
    assert EntryTimers(q.queued) == EntryTimers(rest) + {q.queued[w].timer};
  }

  lemma NoneLeftToRemove(q: Queue)
    requires q.queued.Keys == {}
    ensures AllRemoved(q) == q
  {
    assert q.queued == map[] && EntryTimers(q.queued) == {};
  }

  class ActiveWorkflowManager {
    var queued: map<WorkflowId, Entry>
    var timers: map<TimerId, Timer>
    var attempts: map<AttemptId, Attempt>
    var next: nat

    function State(): Queue
      reads this
    {
      Queue(queued, timers, attempts, next)
    }

    constructor ()
      ensures State() == EMPTY
    {
      queued, timers, attempts, next := map[], map[], map[], 0;
    }

    method SetTimeout(timer: Timer) returns (t: TimerId)
      modifies this`timers, this`next
      ensures t == old(next) && next == old(next) + 1 && timers == old(timers)[t := timer]
    {
      t, timers, next := next, timers[next := timer], next + 1;
    }

    method AddQueuedWorkflowActivation(mode: string, w: WorkflowId)
      modifies this
      ensures State() == Enqueued(old(State()), w, mode)
    {
      RemoveQueuedWorkflowActivation(w);
      var t := SetTimeout(Timer(w, mode, INITIAL_TIMEOUT));
      queued := queued[w := Entry(mode, INITIAL_TIMEOUT, t)];
    }

    method RemoveQueuedWorkflowActivation(w: WorkflowId)
      modifies this`queued, this`timers
      ensures State() == Removed(old(State()), w)
    {
      if w in queued {
        timers := timers - {queued[w].timer};
        queued := queued - {w};
      }
    }

    method RemoveAllQueuedWorkflowActivations()
      modifies this`queued, this`timers
      ensures State() == AllRemoved(old(State()))
    {
      ghost var all := AllRemoved(State());
      var todo := queued.Keys;
      while todo != {}
        invariant todo == queued.Keys
        invariant AllRemoved(State()) == all
        decreases |todo|
      {
        var w :| w in todo;
        RemoveOneOfAll(State(), w);
        RemoveQueuedWorkflowActivation(w);
        todo := todo - {w};
      }
      NoneLeftToRemove(State());
    }

    /** A timer goes off and its retry starts. */
    method Tick(t: TimerId) returns (a: AttemptId)
      requires t in timers
      modifies this`timers, this`attempts, this`next
      ensures State() == Fired(old(State()), t) && a in attempts && attempts[a].workflow == old(timers[t].workflow)
    {
      a := next;
      timers, attempts, next := timers - {t}, attempts[next := Attempt(timers[t].workflow, timers[t].mode)], next + 1;
    }

    /** The end of a retry. */
    method Settle(a: AttemptId, error: bool) returns (threw: bool)
      requires a in attempts
      modifies this
      ensures State() == if error then Failed(old(State()), a) else Returned(old(State()), a)
      ensures threw <==> error && old(attempts[a].workflow) !in old(queued)
    {
      var Attempt(w, mode) := attempts[a];
      attempts := attempts - {a};
      if !error { return false; }
      if w !in queued { return true; }
      var lastTimeout := queued[w].lastTimeout;
      if lastTimeout < MAX_TIMEOUT {
        lastTimeout := if lastTimeout * 2 < MAX_TIMEOUT then lastTimeout * 2 else MAX_TIMEOUT;
      }
      queued := queued[w := queued[w].(lastTimeout := lastTimeout)];
      var t := SetTimeout(Timer(w, mode, lastTimeout));
      queued := queued[w := queued[w].(timer := t)];
      return false;
    }
  }

  // ----- The delays, in every interleaving -----

  function Power(k: nat): (p: int)
    ensures p >= 1
  {
    if k == 0 then 1 else 2 * Power(k - 1)
  }

  /** min(1000 · 2^k, one day). */
  function Backoff(k: nat): (delay: int)
    ensures 1000 <= delay <= 86_400_000
  {
    if 1000 * Power(k) < 86_400_000 then 1000 * Power(k) else 86_400_000
  }

  function FailuresAfter(q: Queue, action: Action, w: WorkflowId, before: nat): nat {
    match action
    case Enqueue(v, _) => if v == w then 0 else before
    case Fail(a) => if a in q.attempts && q.attempts[a].workflow == w && w in q.queued then before + 1 else before
    case _ => before
  }

  /** The failed retries of `w` that found it queued, since it last entered the queue. */
  function Failures(actions: seq<Action>, w: WorkflowId): nat {
    if actions == [] then 0 else FailuresAfter(Run(Front(actions)), Last(actions), w, Failures(Front(actions), w))
  }

  ghost predicate Bounded(delay: int) {
    1000 <= delay <= 86_400_000
  }

  ghost predicate DelaysBounded(q: Queue) {
    && (forall w | w in q.queued :: Bounded(q.queued[w].lastTimeout))
    && (forall t | t in q.timers :: Bounded(q.timers[t].delay))
  }

  lemma StepStaysBounded(q: Queue, action: Action)
    requires DelaysBounded(q)
    ensures DelaysBounded(Apply(q, action))
  {
  }

  /** In every run, whatever lands during a retry, every delay stays within the bounds. */
  lemma {:induction false} DelaysStayBounded(actions: seq<Action>)
    ensures DelaysBounded(Run(actions))
    decreases |actions|
  {
    if actions == [] {
    } else {
      DelaysStayBounded(Front(actions));
      StepStaysBounded(Run(Front(actions)), Last(actions));
    }
  }

  ghost predicate DelayIs(q: Queue, w: WorkflowId, delay: int) {
    w in q.queued ==>
      && q.queued[w].lastTimeout == delay
      && (q.queued[w].timer in q.timers ==>
            var timer := q.timers[q.queued[w].timer];
            timer.workflow == w && timer.delay == delay)
  }

  /** In every run, whatever lands during a retry, the delay of a queued workflow is the backoff of its
      failures, and its armed timer runs with that delay. */
  lemma {:induction false} DelayFollowsTheBackoff(actions: seq<Action>, w: WorkflowId)
    ensures DelayIs(Run(actions), w, Backoff(Failures(actions, w)))
    decreases |actions|
  {
    if actions == [] {
    } else {
      DelayFollowsTheBackoff(Front(actions), w);
      RunIsFresh(Front(actions));
      StepFollowsTheBackoff(Run(Front(actions)), Last(actions), w, Failures(Front(actions), w));
    }
  }

  lemma StepFollowsTheBackoff(q: Queue, action: Action, w: WorkflowId, k: nat)
    requires Fresh(q) && DelayIs(q, w, Backoff(k))
    ensures DelayIs(Apply(q, action), w, Backoff(FailuresAfter(q, action, w, k)))
  {
    assert Doubled(Backoff(k)) == Backoff(k + 1);
  }

  // ----- What the removals and the steps of a retry do -----

  /** Removing a workflow clears its entry and the timer of the entry; clearing the queue does so for every
      workflow.  No other entry, timer or retry is touched. */
  lemma RemovalsTakeEffect(q: Queue, w: WorkflowId)
    ensures var q' := Apply(q, Remove(w));
      && q'.queued == q.queued - {w} && q'.attempts == q.attempts
      && (forall t :: t in q'.timers <==> t in q.timers && !(w in q.queued && q.queued[w].timer == t))
      && (forall t | t in q'.timers :: q'.timers[t] == q.timers[t])
    ensures var q' := Apply(q, RemoveAll);
      && q'.queued == map[] && q'.attempts == q.attempts
      && (forall t :: t in q'.timers <==> t in q.timers && forall v | v in q.queued :: q.queued[v].timer != t)
      && (forall t | t in q'.timers :: q'.timers[t] == q.timers[t])
  {
  }

  /** A timer that goes off becomes a retry of the same workflow in the same mode, a retry that ends is gone,
      and one that fails arms a timer for its own workflow and mode. */
  lemma RetriesTakeEffect(q: Queue, t: TimerId, a: AttemptId)
    requires Fresh(q)
    ensures t in q.timers ==>
      var q' := Apply(q, Fire(t));
      && t !in q'.timers && q'.queued == q.queued
      && q'.attempts == q.attempts[q.next := Attempt(q.timers[t].workflow, q.timers[t].mode)]
    ensures a in q.attempts ==> a !in Apply(q, Return(a)).attempts && a !in Apply(q, Fail(a)).attempts
    ensures a in q.attempts && q.attempts[a].workflow in q.queued ==>
      var q', w := Apply(q, Fail(a)), q.attempts[a].workflow;
      && w in q'.queued && q'.queued[w].timer == q.next && q'.queued[w].mode == q.queued[w].mode
      && q'.timers == q.timers[q.next := Timer(w, q.attempts[a].mode, q'.queued[w].lastTimeout)]
    ensures a in q.attempts && q.attempts[a].workflow !in q.queued ==>
      Apply(q, Fail(a)) == Apply(q, Return(a))
  {
  }

  /** The mode of the last enqueue of `w`. */
  function LastMode(actions: seq<Action>, w: WorkflowId): string {
    if actions == [] then ""
    else if Last(actions).Enqueue? && Last(actions).workflow == w then Last(actions).mode
    else LastMode(Front(actions), w)
  }

  /** The entry, the timers and the retries of `w` carry the mode. */
  ghost predicate CarriesMode(q: Queue, w: WorkflowId, mode: string) {
    && (w in q.queued ==> q.queued[w].mode == mode)
    && (forall t | t in q.timers && q.timers[t].workflow == w :: q.timers[t].mode == mode)
    && (forall a | a in q.attempts && q.attempts[a].workflow == w :: q.attempts[a].mode == mode)
  }

  lemma StepCarriesMode(q: Queue, action: Action, w: WorkflowId, mode: string)
    requires Fresh(q) && CarriesMode(q, w, mode) && !(action.Enqueue? && action.workflow == w)
    ensures CarriesMode(Apply(q, action), w, mode)
  {
  }

  /** In a run in which no enqueue of `w` lands during its retry, everything that is left of `w` runs with the
      mode with which it was last queued. */
  lemma {:induction false} RetriesKeepTheMode(actions: seq<Action>, w: WorkflowId)
    requires Quiet(actions, w)
    ensures CarriesMode(Run(actions), w, LastMode(actions, w))
    decreases |actions|
  {
    if actions == [] {
    } else {
      var q, action := Run(Front(actions)), Last(actions);
      RetriesKeepTheMode(Front(actions), w);
      QuietRunKeepsLane(Front(actions), w);
      RunIsFresh(Front(actions));
      if action.Enqueue? && action.workflow == w {
        EnqueueSetsMode(q, w, action.mode);
      } else {
        StepCarriesMode(q, action, w, LastMode(Front(actions), w));
      }
    }
  }

  lemma EnqueueSetsMode(q: Queue, w: WorkflowId, mode: string)
    requires Fresh(q) && SingleLane(q, w) && !InFlight(q, w)
    ensures CarriesMode(Enqueued(q, w, mode), w, mode)
  {
    var q' := Enqueued(q, w, mode);
    forall t | t in q'.timers && q'.timers[t].workflow == w && t != q.next ensures t in TimersOf(q, w) {}
  }

  // ----- At most one timer per workflow -----

  ghost predicate InFlight(q: Queue, w: WorkflowId) {
    exists a :: a in q.attempts && q.attempts[a].workflow == w
  }

  function TimersOf(q: Queue, w: WorkflowId): set<TimerId> {
    set t | t in q.timers && q.timers[t].workflow == w
  }

  /** `w` has one armed timer, the one its entry knows, or one retry in flight, or neither. */
  ghost predicate SingleLane(q: Queue, w: WorkflowId) {
    && (forall t | t in TimersOf(q, w) :: w in q.queued && q.queued[w].timer == t && !InFlight(q, w))
    && (forall a, b | a in q.attempts && b in q.attempts
          && q.attempts[a].workflow == q.attempts[b].workflow == w :: a == b)
  }

  ghost predicate Fresh(q: Queue) {
    && (forall t | t in q.timers :: t < q.next)
    && (forall a | a in q.attempts :: a < q.next)
    && (forall w | w in q.queued :: q.queued[w].timer < q.next)
    && (forall w | w in q.queued && q.queued[w].timer in q.timers :: q.timers[q.queued[w].timer].workflow == w)
  }

  lemma StepIsFresh(q: Queue, action: Action)
    requires Fresh(q)
    ensures Fresh(Apply(q, action))
  {
  }

  lemma {:induction false} RunIsFresh(actions: seq<Action>)
    ensures Fresh(Run(actions))
    decreases |actions|
  {
    if actions == [] {
    } else {
      RunIsFresh(Front(actions));
      StepIsFresh(Run(Front(actions)), Last(actions));
    }
  }

  /** No step but an enqueue during a retry gives a workflow a second lane. */
  lemma StepKeepsLane(q: Queue, action: Action, w: WorkflowId)
    requires Fresh(q) && SingleLane(q, w)
    requires action.Enqueue? && action.workflow == w ==> !InFlight(q, w)
    ensures SingleLane(Apply(q, action), w)
  {
    match action
    case Fire(t) => FireKeepsLane(q, t, w);
    case Fail(a) => FailKeepsLane(q, a, w);
    case Enqueue(v, mode) => EnqueueKeepsLane(q, v, mode, w);
    case _ => FewerKeepLane(q, Apply(q, action), w);
  }

  lemma FewerKeepLane(q: Queue, q': Queue, w: WorkflowId)
    requires SingleLane(q, w)
    requires forall t | t in q'.timers :: t in q.timers && q'.timers[t] == q.timers[t]
    requires forall a | a in q'.attempts :: a in q.attempts && q'.attempts[a] == q.attempts[a]
    requires w in q.queued && q.queued[w].timer in q'.timers ==> w in q'.queued && q'.queued[w] == q.queued[w]
    ensures SingleLane(q', w)
  {
    assert InFlight(q', w) ==> InFlight(q, w);
    forall t | t in TimersOf(q', w) ensures t in TimersOf(q, w) {}
  }

  lemma EnqueueKeepsLane(q: Queue, v: WorkflowId, mode: string, w: WorkflowId)
    requires Fresh(q) && SingleLane(q, w) && (v == w ==> !InFlight(q, w))
    ensures SingleLane(Enqueued(q, v, mode), w)
  {
    var q' := Enqueued(q, v, mode);
    assert InFlight(q', w) ==> InFlight(q, w);
    forall t | t in TimersOf(q', w) && t != q.next ensures t in TimersOf(q, w) {}
  }

  lemma FireKeepsLane(q: Queue, t: TimerId, w: WorkflowId)
    requires Fresh(q) && SingleLane(q, w)
    ensures SingleLane(Fired(q, t), w)
  {
    if t in q.timers {
      if q.timers[t].workflow == w {
        assert t in TimersOf(q, w);
        assert forall u | u in TimersOf(Fired(q, t), w) :: u in TimersOf(q, w);
      } else {
        assert InFlight(Fired(q, t), w) ==> InFlight(q, w);
        assert TimersOf(Fired(q, t), w) == TimersOf(q, w);
      }
    }
  }

  lemma FailKeepsLane(q: Queue, a: AttemptId, w: WorkflowId)
    requires Fresh(q) && SingleLane(q, w)
    ensures SingleLane(Failed(q, a), w)
  {
    if a in q.attempts && q.attempts[a].workflow == w {
      assert InFlight(q, w);
      assert TimersOf(q, w) == {};
      assert !InFlight(Failed(q, a), w);
      forall t | t in TimersOf(Failed(q, a), w) && t != q.next ensures t in TimersOf(q, w) {}
    } else {
      assert InFlight(Failed(q, a), w) ==> InFlight(q, w);
      forall t | t in TimersOf(Failed(q, a), w) ensures t in TimersOf(q, w) {}
    }
  }

  /** No enqueue of `w` lands during a retry of `w`. */
  ghost predicate Quiet(actions: seq<Action>, w: WorkflowId) {
    actions == [] ||
    (&& Quiet(Front(actions), w)
     && (Last(actions).Enqueue? && Last(actions).workflow == w ==> !InFlight(Run(Front(actions)), w)))
  }

  lemma {:induction false} QuietRunKeepsLane(actions: seq<Action>, w: WorkflowId)
    requires Quiet(actions, w)
    ensures SingleLane(Run(actions), w)
    decreases |actions|
  {
    if actions == [] {
    } else {
      QuietRunKeepsLane(Front(actions), w);
      RunIsFresh(Front(actions));
      StepKeepsLane(Run(Front(actions)), Last(actions), w);
    }
  }

  /** In a quiet run a workflow has at most one armed timer, and none once it is removed. */
  lemma AtMostOneTimer(actions: seq<Action>, w: WorkflowId)
    requires Quiet(actions, w)
    ensures |TimersOf(Run(actions), w)| <= 1
    ensures w !in Run(actions).queued ==> TimersOf(Run(actions), w) == {}
    ensures TimersOf(Run(actions + [Remove(w)]), w) == {}
  {
    QuietRunKeepsLane(actions, w);
    var q := Run(actions);
    assert w in q.queued ==> TimersOf(q, w) <= {q.queued[w].timer};
    if w in q.queued { SubsetIsNotLarger(TimersOf(q, w), {q.queued[w].timer}); }
    RunExtends(actions, Remove(w));
    assert TimersOf(Removed(q, w), w) == {};
  }

  ghost predicate NoEnqueue(actions: seq<Action>, w: WorkflowId) {
    forall i | 0 <= i < |actions| :: !(actions[i].Enqueue? && actions[i].workflow == w)
  }

  lemma {:induction false} QuietExtends(actions: seq<Action>, more: seq<Action>, w: WorkflowId)
    requires Quiet(actions, w) && NoEnqueue(more, w)
    ensures Quiet(actions + more, w)
    decreases |more|
  {
    if more == [] {
      assert actions + more == actions;
    } else {
      QuietExtends(actions, Front(more), w);
      assert Front(actions + more) == actions + Front(more);
    }
  }

  /** The exact condition: an enqueue is harmless for every continuation precisely when no retry of the
      workflow is in flight.  Otherwise that retry may fail and arm a second timer. */
  lemma EnqueueIsSafeIff(actions: seq<Action>, w: WorkflowId, mode: string)
    requires Quiet(actions, w)
    ensures (forall more | NoEnqueue(more, w) :: |TimersOf(Run(actions + [Enqueue(w, mode)] + more), w)| <= 1)
            <==> !InFlight(Run(actions), w)
  {
    var enqueued := actions + [Enqueue(w, mode)];
    RunExtends(actions, Enqueue(w, mode));
    if a :| a in Run(actions).attempts && Run(actions).attempts[a].workflow == w {
      RunIsFresh(actions);
      FailureArmsASecondTimer(Run(actions), a, mode);
      RunExtends(enqueued, Fail(a));
      assert NoEnqueue([Fail(a)], w);
    } else {
      forall more | NoEnqueue(more, w) ensures |TimersOf(Run(enqueued + more), w)| <= 1 {
        QuietExtends(enqueued, more, w);
        AtMostOneTimer(enqueued + more, w);
      }
    }
  }

  /** Enqueued during its retry `a`, the workflow has two armed timers once `a` has failed; its entry
      knows one of them, so removing the workflow leaves the other armed. */
  lemma FailureArmsASecondTimer(q: Queue, a: AttemptId, mode: string)
    requires Fresh(q) && a in q.attempts
    ensures var w := q.attempts[a].workflow;
      var q' := Failed(Enqueued(q, w, mode), a);
      && {q.next, q.next + 1} <= TimersOf(q', w) && |TimersOf(q', w)| >= 2
      && q.next in TimersOf(Removed(q', w), w) && w !in Removed(q', w).queued
  {
    var w := q.attempts[a].workflow;
    var q' := Failed(Enqueued(q, w, mode), a);
    SubsetIsNotLarger({q.next, q.next + 1}, TimersOf(q', w));
  }

  // ----- Whether a queued workflow is retried -----

  ghost predicate Trying(q: Queue, w: WorkflowId) {
    w in q.queued ==> q.queued[w].timer in q.timers || InFlight(q, w)
  }

  /** Only a retry whose `add` returns without registering the workflow can end the retries of a queued
      workflow, and it does so exactly if the entry's timer is gone and no other retry is in flight. */
  lemma StepKeepsTryingIff(q: Queue, action: Action, w: WorkflowId)
    requires Fresh(q) && Trying(q, w)
    ensures Trying(Apply(q, action), w) <==>
      !(action.Return? && w in q.queued && q.queued[w].timer !in q.timers
        && forall b | b in q.attempts && q.attempts[b].workflow == w :: b == action.attempt)
  {
    var q' := Apply(q, action);
    match action
    case Fire(t) =>
      if t in q.timers && q.timers[t].workflow == w {
        assert q'.attempts[q.next].workflow == w;
      } else if a :| a in q.attempts && q.attempts[a].workflow == w {
        assert a in q'.attempts && q'.attempts[a] == q.attempts[a];
      }
    case Return(a) =>
      if b :| b in q.attempts && q.attempts[b].workflow == w && b != a {
        assert b in q'.attempts && q'.attempts[b] == q.attempts[b];
      }
    case Fail(a) =>
      if b :| b in q.attempts && q.attempts[b].workflow == w && b != a {
        assert b in q'.attempts && q'.attempts[b] == q.attempts[b];
      }
    case _ =>
      assert q'.attempts == q.attempts;
      assert InFlight(q', w) <==> InFlight(q, w);
  }

  /** A run in which this happens: the first retry of a workflow only publishes a command. */
  lemma PublishingEndsTheRetries(w: WorkflowId, mode: string)
    ensures var actions := [Enqueue(w, mode), Fire(0), Return(1)];
      Quiet(actions, w) && w in Run(actions).queued && !Trying(Run(actions), w)
  {
    var first, second := [Enqueue(w, mode)], [Enqueue(w, mode), Fire(0)];
    assert [] + first == first && first + [Fire(0)] == second;
    assert second + [Return(1)] == [Enqueue(w, mode), Fire(0), Return(1)];
    RunExtends([], Enqueue(w, mode));
    RunExtends(first, Fire(0));
    RunExtends(second, Return(1));
    assert Run(first).queued == map[w := Entry(mode, INITIAL_TIMEOUT, 0)];
    assert Run(first).timers == map[0 := Timer(w, mode, INITIAL_TIMEOUT)];
    assert Run(first).attempts == map[] && Run(first).next == 1;
    assert Run(second).attempts == map[1 := Attempt(w, mode)] && Run(second).timers == map[];
    assert Quiet([], w) && Quiet(first, w) && Quiet(second, w);
  }

  ghost predicate Resets(action: Action, w: WorkflowId) {
    action.RemoveAll? || ((action.Enqueue? || action.Remove?) && action.workflow == w)
  }

  /** Such an entry stays in the queue without ever being retried, until it is removed or enqueued. */
  lemma {:induction false} AbandonedStaysAbandoned(actions: seq<Action>, more: seq<Action>, w: WorkflowId)
    requires Quiet(actions, w) && w in Run(actions).queued && !Trying(Run(actions), w)
    requires forall i | 0 <= i < |more| :: !Resets(more[i], w)
    ensures var q := Run(actions + more); w in q.queued && TimersOf(q, w) == {} && !InFlight(q, w)
    decreases |more|
  {
    if more == [] {
      assert actions + more == actions;
      QuietRunKeepsLane(actions, w);
    } else {
      AbandonedStaysAbandoned(actions, Front(more), w);
      RunIsFresh(actions + Front(more));
      AbandonedStep(Run(actions + Front(more)), Last(more), w);
      RunExtends(actions + Front(more), Last(more));
      assert actions + more == actions + Front(more) + [Last(more)];
    }
  }

  lemma AbandonedStep(q: Queue, action: Action, w: WorkflowId)
    requires Fresh(q) && w in q.queued && TimersOf(q, w) == {} && !InFlight(q, w)
    requires !Resets(action, w)
    ensures var q' := Apply(q, action); w in q'.queued && TimersOf(q', w) == {} && !InFlight(q', w)
  {
    var q' := Apply(q, action);
    if action.Fire? && action.timer in q.timers { assert action.timer !in TimersOf(q, w); }
    assert forall t | t in q'.timers && t !in q.timers :: q'.timers[t].workflow != w;
    assert TimersOf(q', w) <= TimersOf(q, w);
  }
}
