/** Triggers and pollers in a multi-main cluster (packages/cli/src/active-workflow-manager.ts and
    packages/cli/src/scaling/multi-main-setup.ee.ts).

    Every main process keeps a leader flag that follows an expiring key in Redis.  Only a leader may
    hold triggers and pollers in memory.  `add` reads the flag, then awaits, then registers; so it has
    a beginning and an end, and everything else may happen in between.  A message may be delivered to
    any process, at any later time, any number of times. */
module LeaderGating {
  import opened Wrappers

  type Host = string
  type WorkflowId = string
  type AddId = nat

  datatype Command = AddTriggers(workflow: WorkflowId) | RemoveTriggers(workflow: WorkflowId)

  /** A call of `add` that awaits: whether it may register triggers, and whether its failure queues a
      retry. */
  datatype Add = Add(host: Host, workflow: WorkflowId, allowed: bool, retried: bool)

  datatype Held = Held(host: Host, workflow: WorkflowId)

  datatype State = State(
    key: Option<Host>,
    leaders: set<Host>,
    memory: set<Held>,
    adding: map<AddId, Add>,
    retries: set<Held>,
    published: set<Command>,
    next: nat)

  const INITIAL := State(None, {}, {}, map[], {}, {}, 0)

  datatype Action =
    | Expire
    | Check(host: Host, seen: Option<Host>)
    | TryBecomeLeader(host: Host)
    | Activate(workflow: WorkflowId)
    | Deactivate(workflow: WorkflowId)
    | AddOwn(host: Host, workflow: WorkflowId)
    | Deliver(host: Host, command: Command)
    | EndAdd(add: AddId, registers: bool, fails: bool)
    | Retry(host: Host, workflow: WorkflowId)
    | TriggerError(host: Host, workflow: WorkflowId)
    | Shutdown(host: Host)

  function HeldBy(s: State, h: Host): set<Held> {
    set held | held in s.memory && held.host == h
  }

  /** The leader flag goes down, and the handlers of `leader-stepdown` empty the memory. */
  function StepDown(s: State, h: Host): State {
    s.(leaders := s.leaders - {h}, memory := s.memory - HeldBy(s, h))
  }

  /** `checkLeader` with the key it saw.  On its own id a process marks itself leader, without a
      take-over; a leader that sees another id steps down; on a vacant key every process does. */
  function Checked(s: State, h: Host, seen: Option<Host>): State {
    if seen == Some(h) then s.(leaders := s.leaders + {h})
    else if seen.None? || h in s.leaders then StepDown(s, h)
    else s
  }

  /** `tryBecomeLeader`, called by a starting process and after a check that saw a vacant key.  The key is
      only set if it is vacant; otherwise the flag goes down, without a step-down.  That concerns a
      leader if two of its checks overlap, both saw a vacant key, and the first has set it. */
  function Tried(s: State, h: Host): State {
    if s.key.None? then s.(key := Some(h), leaders := s.leaders + {h}) else s.(leaders := s.leaders - {h})
  }

  /** `add` that does not publish, up to its first await: it reads the flag. */
  function Begun(s: State, h: Host, w: WorkflowId, retried: bool): State {
    s.(adding := s.adding[s.next := Add(h, w, h in s.leaders, retried)], next := s.next + 1)
  }

  /** `add` comes back.  It may have registered triggers even if a poller then fails. */
  function Ended(s: State, a: AddId, registers: bool, fails: bool): State {
    if a !in s.adding then s
    else
      var held := Held(s.adding[a].host, s.adding[a].workflow);
      s.(adding := s.adding - {a},
         memory := if s.adding[a].allowed && registers then s.memory + {held} else s.memory,
         retries := if !fails then s.retries - {held}
                    else if s.adding[a].retried then s.retries + {held} else s.retries)
  }

  function Removed(s: State, h: Host, w: WorkflowId): State {
    s.(memory := s.memory - {Held(h, w)})
  }

  /** The handlers of both commands are registered for the leader role, checked at delivery. */
  function Delivered(s: State, h: Host, command: Command): State {
    if command !in s.published || h !in s.leaders then s
    else if command.AddTriggers? then Begun(s, h, command.workflow, false)
    else Removed(s, h, command.workflow)
  }

  /** A leader that shuts down clears the key; its memory and its pending work go with the process. */
  function Stopped(s: State, h: Host): State {
    StepDown(s, h).(key := if h in s.leaders then None else s.key,
                    adding := map a | a in s.adding && s.adding[a].host != h :: s.adding[a],
                    retries := set held | held in s.retries && held.host != h)
  }

  function Apply(s: State, action: Action): State {
    match action
    case Expire => s.(key := None)
    case Check(h, seen) => Checked(s, h, seen)
    case TryBecomeLeader(h) => Tried(s, h)
    case Activate(w) => s.(published := s.published + {AddTriggers(w)})
    case Deactivate(w) => s.(published := s.published + {RemoveTriggers(w)})
    case AddOwn(h, w) => Begun(s, h, w, true)
    case Deliver(h, command) => Delivered(s, h, command)
    case EndAdd(a, registers, fails) => Ended(s, a, registers, fails)
    case Retry(h, w) =>
      if Held(h, w) !in s.retries then s
      else s.(retries := s.retries - {Held(h, w)}, published := s.published + {AddTriggers(w)})
    case TriggerError(h, w) =>
      if Held(h, w) !in s.memory then s
      else Removed(s, h, w).(retries := s.retries + {Held(h, w)})
    case Shutdown(h) => Stopped(s, h)
  }

  function Run(s: State, actions: seq<Action>): State
    decreases |actions|
  {
    if actions == [] then s else Run(Apply(s, actions[0]), actions[1..])
  }

  // ----- Triggers only on leaders -----

  ghost predicate OnlyOnLeaders(s: State) {
    forall held | held in s.memory :: held.host in s.leaders
  }

  ghost predicate MayRegister(s: State, h: Host) {
    exists a :: a in s.adding && s.adding[a].host == h && s.adding[a].allowed
  }

  ghost predicate Gated(s: State) {
    OnlyOnLeaders(s) && forall a | a in s.adding && s.adding[a].allowed :: s.adding[a].host in s.leaders
  }

  /** A leader loses its flag and keeps triggers, or may yet register some: it steps down during an `add`,
      or it tries for a key that is taken, which empties no memory. */
  ghost predicate LeavesTriggers(s: State, action: Action) {
    || (action.Check? && action.host in s.leaders && action.seen != Some(action.host) && MayRegister(s, action.host))
    || (action.TryBecomeLeader? && action.host in s.leaders && s.key.Some?
        && (HeldBy(s, action.host) != {} || MayRegister(s, action.host)))
  }

  /** No leader loses its flag in this way. */
  ghost predicate Undisturbed(s: State, actions: seq<Action>)
    decreases |actions|
  {
    actions == [] || (!LeavesTriggers(s, actions[0]) && Undisturbed(Apply(s, actions[0]), actions[1..]))
  }

  /** Atomic handlers: each `add` ends before anything else happens, and so does each check, so that no
      leader tries for the key. */
  ghost predicate Atomic(s: State, actions: seq<Action>)
    decreases |actions|
  {
    actions == [] ||
    (&& (s.adding == map[] || actions[0].EndAdd?)
     && !(actions[0].TryBecomeLeader? && actions[0].host in s.leaders)
     && Atomic(Apply(s, actions[0]), actions[1..]))
  }

  lemma StepKeepsGate(s: State, action: Action)
    requires Gated(s) && !LeavesTriggers(s, action)
    ensures Gated(Apply(s, action))
  {
    var s' := Apply(s, action);
    forall a | a in s'.adding && s'.adding[a].allowed ensures s'.adding[a].host in s'.leaders {
      assert a in s.adding && s.adding[a].allowed ==> MayRegister(s, s.adding[a].host);
    }
    forall held | held in s'.memory ensures held.host in s'.leaders {
      assert held in s.memory ==> held in HeldBy(s, held.host);
    }
  }

  /** In every undisturbed run, triggers and pollers are in memory only on leaders. */
  lemma {:induction false} TriggersOnlyOnLeaders(s: State, actions: seq<Action>)
    requires Gated(s) && Undisturbed(s, actions)
    ensures Gated(Run(s, actions))
    decreases |actions|
  {
    if actions == [] {
    } else {
      StepKeepsGate(s, actions[0]);
      TriggersOnlyOnLeaders(Apply(s, actions[0]), actions[1..]);
    }
  }

  lemma {:induction false} AtomicIsUndisturbed(s: State, actions: seq<Action>)
    requires Atomic(s, actions)
    ensures Undisturbed(s, actions)
    decreases |actions|
  {
    if actions == [] {
    } else {
      AtomicIsUndisturbed(Apply(s, actions[0]), actions[1..]);
    }
  }

  /** The exact condition: a step leads only to states with triggers on leaders, in every undisturbed
      continuation, precisely when it does not leave triggers behind in this way. */
  lemma StepIsSafeIff(s: State, action: Action)
    requires Gated(s)
    ensures (forall more | Undisturbed(Apply(s, action), more) :: OnlyOnLeaders(Run(Apply(s, action), more)))
            <==> !LeavesTriggers(s, action)
  {
    var s' := Apply(s, action);
    if LeavesTriggers(s, action) && !MayRegister(s, action.host) {
      var held :| held in HeldBy(s, action.host);
      NoStep(s');
      assert held in s'.memory && held.host !in s'.leaders;
    } else if LeavesTriggers(s, action) {
      var a :| a in s.adding && s.adding[a].host == action.host && s.adding[a].allowed;
      var late := EndAdd(a, true, false);
      OneStep(s', late);
      assert Held(action.host, s.adding[a].workflow) in Apply(s', late).memory;
    } else {
      StepKeepsGate(s, action);
      forall more | Undisturbed(s', more) ensures OnlyOnLeaders(Run(s', more)) {
        TriggersOnlyOnLeaders(s', more);
      }
    }
  }

  // ----- No duplicates -----

  ghost predicate OneLeader(s: State) {
    forall h | h in s.leaders :: s.key == Some(h)
  }

  /** The key expires under a leader that has not renewed it, or a process acts on an outdated key. */
  ghost predicate Untimely(s: State, action: Action) {
    || (action.Expire? && s.key.Some? && s.key.value in s.leaders)
    || (action.Check? && action.seen == Some(action.host) && s.key != action.seen)
  }

  ghost predicate Timely(s: State, actions: seq<Action>)
    decreases |actions|
  {
    actions == [] || (!Untimely(s, actions[0]) && Timely(Apply(s, actions[0]), actions[1..]))
  }

  lemma {:induction false} TimelyRunsHaveOneLeader(s: State, actions: seq<Action>)
    requires OneLeader(s) && Timely(s, actions)
    ensures OneLeader(Run(s, actions))
    decreases |actions|
  {
    if actions == [] {
    } else {
      assert OneLeader(Apply(s, actions[0]));
      TimelyRunsHaveOneLeader(Apply(s, actions[0]), actions[1..]);
    }
  }

  /** In every run from the start that is undisturbed and timely, no workflow has its triggers and
      pollers in memory on two processes, and where they are is the holder of the key. */
  lemma NoDuplicateTriggers(actions: seq<Action>, first: Held, second: Held)
    requires Undisturbed(INITIAL, actions) && Timely(INITIAL, actions)
    requires first in Run(INITIAL, actions).memory && second in Run(INITIAL, actions).memory
    ensures first.host == second.host && Run(INITIAL, actions).key == Some(first.host)
  {
    TriggersOnlyOnLeaders(INITIAL, actions);
    TimelyRunsHaveOneLeader(INITIAL, actions);
  }

  /** The exact condition: a step leaves one leader at most in every timely continuation precisely when
      it is not untimely.  `other` is any second process of the cluster. */
  lemma TimelyStepIff(s: State, action: Action, other: Host)
    requires OneLeader(s) && s.key != Some(other) && (action.Check? ==> action.host != other)
    ensures (forall more | Timely(Apply(s, action), more) :: AtMostOne(Run(Apply(s, action), more).leaders))
            <==> !Untimely(s, action)
  {
    var s' := Apply(s, action);
    if Untimely(s, action) {
      var rival := if s'.key.Some? then Check(s'.key.value, s'.key) else TryBecomeLeader(other);
      OneStep(s', rival);
      var first := if action.Expire? then s.key.value else action.host;
      var second := if s'.key.Some? then s'.key.value else other;
      assert first in Apply(s', rival).leaders && second in Apply(s', rival).leaders && first != second;
    } else {
      assert OneLeader(s');
      forall more | Timely(s', more) ensures AtMostOne(Run(s', more).leaders) {
        TimelyRunsHaveOneLeader(s', more);
      }
    }
  }

  lemma NoStep(s: State)
    ensures Run(s, []) == s && Timely(s, []) && Undisturbed(s, [])
  {
  }

  lemma OneStep(s: State, action: Action)
    ensures Run(s, [action]) == Apply(s, action)
    ensures Timely(s, [action]) <==> !Untimely(s, action)
    ensures Undisturbed(s, [action]) <==> !LeavesTriggers(s, action)
  {
    var rest := [action][1..];
    assert rest == [] && Run(Apply(s, action), rest) == Apply(s, action);
  }

  ghost predicate AtMostOne(hosts: set<Host>) {
    forall g, h | g in hosts && h in hosts :: g == h
  }

  /** If the key expires under a leader that holds triggers, a second process may take over and hold the
      same ones, although no leader has lost its flag. */
  lemma ExpiryDuplicates(s: State, held: Held, other: Host)
    requires Gated(s) && held in s.memory && s.key == Some(held.host) && other != held.host
    ensures var actions := [Expire, TryBecomeLeader(other), AddOwn(other, held.workflow), EndAdd(s.next, true, false)];
      Undisturbed(s, actions) && {held, Held(other, held.workflow)} <= Run(s, actions).memory
  {
    TakeoverHolds(Apply(s, Expire), held.workflow, other);
    Prepend(s, Expire, Takeover(Apply(s, Expire), held.workflow, other));
  }

  /** If a leader with triggers tries for its own key, and the key then expires, a second process may take
      over and hold the same ones, although every step is timely. */
  lemma FailedTryDuplicates(s: State, held: Held, other: Host)
    requires OneLeader(s) && held in s.memory && s.key == Some(held.host) && other != held.host
    ensures LeavesTriggers(s, TryBecomeLeader(held.host)) <==> held.host in s.leaders
    ensures var actions := [TryBecomeLeader(held.host), Expire, TryBecomeLeader(other),
                            AddOwn(other, held.workflow), EndAdd(s.next, true, false)];
      Timely(s, actions) && {held, Held(other, held.workflow)} <= Run(s, actions).memory
  {
    assert held in HeldBy(s, held.host);
    var s1 := Apply(s, TryBecomeLeader(held.host));
    var s2 := Apply(s1, Expire);
    var rest := Takeover(s2, held.workflow, other);
    TakeoverHolds(s2, held.workflow, other);
    Prepend(s1, Expire, rest);
    Prepend(s, TryBecomeLeader(held.host), [Expire] + rest);
  }

  /** A process takes over a vacant key and registers the triggers of a workflow. */
  function Takeover(s: State, w: WorkflowId, other: Host): seq<Action> {
    [TryBecomeLeader(other), AddOwn(other, w), EndAdd(s.next, true, false)]
  }

  lemma TakeoverHolds(s: State, w: WorkflowId, other: Host)
    requires s.key.None?
    ensures var actions := Takeover(s, w, other);
      && Undisturbed(s, actions) && Timely(s, actions)
      && Run(s, actions).memory == s.memory + {Held(other, w)}
  {
    var s1 := Apply(s, TryBecomeLeader(other));
    var s2 := Apply(s1, AddOwn(other, w));
    var end := EndAdd(s.next, true, false);
    assert s2.adding[s.next] == Add(other, w, true, true);
    OneStep(s2, end);
    Prepend(s1, AddOwn(other, w), [end]);
    Prepend(s, TryBecomeLeader(other), [AddOwn(other, w), end]);
  }

  lemma Prepend(s: State, action: Action, actions: seq<Action>)
    ensures Run(s, [action] + actions) == Run(Apply(s, action), actions)
    ensures Timely(s, [action] + actions) <==> !Untimely(s, action) && Timely(Apply(s, action), actions)
    ensures Undisturbed(s, [action] + actions) <==> !LeavesTriggers(s, action) && Undisturbed(Apply(s, action), actions)
  {
    assert ([action] + actions)[1..] == actions;
  }

  // ----- What the commands and the retries do -----

  /** A delivered command takes effect on a leader only: one to add begins an `add` that may register, one to
      remove takes the triggers of its workflow, and no others, out of that leader's memory. */
  lemma CommandsTakeEffect(s: State, h: Host, w: WorkflowId)
    ensures h !in s.leaders ==> forall command :: Apply(s, Deliver(h, command)) == s
    ensures h in s.leaders && RemoveTriggers(w) in s.published ==>
      Apply(s, Deliver(h, RemoveTriggers(w))) == s.(memory := s.memory - {Held(h, w)})
    ensures h in s.leaders && AddTriggers(w) in s.published ==>
      Apply(s, Deliver(h, AddTriggers(w)))
      == s.(adding := s.adding[s.next := Add(h, w, true, false)], next := s.next + 1)
  {
  }

  /** Activating a workflow anywhere puts its triggers into the memory of the leader that is told and whose
      `add` succeeds; deactivating it takes them out again. */
  lemma ActivationReachesTheLeader(s: State, h: Host, w: WorkflowId)
    requires h in s.leaders && Held(h, w) !in s.memory && s.next !in s.adding
    ensures var s' := Run(s, [Activate(w), Deliver(h, AddTriggers(w)), EndAdd(s.next, true, false)]);
      && s'.memory == s.memory + {Held(h, w)} && s'.leaders == s.leaders && s'.adding == s.adding
      && Run(s', [Deactivate(w), Deliver(h, RemoveTriggers(w))]).memory == s.memory
  {
    var s1 := Apply(s, Activate(w));
    var s2 := Apply(s1, Deliver(h, AddTriggers(w)));
    var end := EndAdd(s.next, true, false);
    var s3 := Apply(s2, end);
    OneStep(s2, end);
    Prepend(s1, Deliver(h, AddTriggers(w)), [end]);
    Prepend(s, Activate(w), [Deliver(h, AddTriggers(w)), end]);
    assert s3.adding == s.adding && s3.memory == s.memory + {Held(h, w)};
    var s4 := Apply(s3, Deactivate(w));
    OneStep(s4, Deliver(h, RemoveTriggers(w)));
    Prepend(s3, Deactivate(w), [Deliver(h, RemoveTriggers(w))]);
    assert s.memory + {Held(h, w)} - {Held(h, w)} == s.memory;
  }

  /** A follower's own `add` registers nothing.  A failed one is queued, and its retry only publishes a command;
      a trigger that fails at run time leaves the memory and is queued as well. */
  lemma FailuresAreRetriedByCommand(s: State, h: Host, w: WorkflowId)
    requires s.next !in s.adding
    ensures h !in s.leaders ==> Run(s, [AddOwn(h, w), EndAdd(s.next, true, false)]).memory == s.memory
    ensures var s' := Run(s, [AddOwn(h, w), EndAdd(s.next, false, true)]);
      && s'.memory == s.memory && Held(h, w) in s'.retries && s'.published == s.published
      && Apply(s', Retry(h, w)).published == s.published + {AddTriggers(w)}
      && Apply(s', Retry(h, w)).memory == s.memory
    ensures Held(h, w) !in Run(s, [AddOwn(h, w), EndAdd(s.next, true, false)]).retries
    ensures Held(h, w) in s.memory ==>
      var s' := Apply(s, TriggerError(h, w));
      s'.memory == s.memory - {Held(h, w)} && s'.retries == s.retries + {Held(h, w)}
  {
    var s1 := Apply(s, AddOwn(h, w));
    assert s1.adding[s.next] == Add(h, w, h in s.leaders, true);
    OneStep(s1, EndAdd(s.next, true, false));
    OneStep(s1, EndAdd(s.next, false, true));
    Prepend(s, AddOwn(h, w), [EndAdd(s.next, true, false)]);
    Prepend(s, AddOwn(h, w), [EndAdd(s.next, false, true)]);
  }

  /** A process that shuts down keeps nothing, and gives up the key if it was leader; stepping down empties its
      memory, and neither touches another process. */
  lemma LeavingEmptiesTheMemory(s: State, h: Host)
    ensures var s' := Apply(s, Shutdown(h));
      && h !in s'.leaders && s'.key == (if h in s.leaders then None else s.key)
      && (forall held :: held in s'.memory <==> held in s.memory && held.host != h)
      && (forall held :: held in s'.retries <==> held in s.retries && held.host != h)
      && (forall a :: a in s'.adding <==> a in s.adding && s.adding[a].host != h)
    ensures var s' := Apply(s, Check(h, None));
      && s'.leaders == s.leaders - {h} && s'.key == s.key
      && (forall held :: held in s'.memory <==> held in s.memory && held.host != h)
    ensures forall other | other != h && h in s.leaders :: Apply(s, Check(h, Some(other))) == Apply(s, Check(h, None))
  {
  }

  // ----- These states are reached from the start -----

  ghost predicate Reachable(s: State) {
    exists actions :: Undisturbed(INITIAL, actions) && Timely(INITIAL, actions) && Run(INITIAL, actions) == s
  }

  lemma {:induction false} Append(s: State, actions: seq<Action>, action: Action)
    ensures Run(s, actions + [action]) == Apply(Run(s, actions), action)
    ensures Timely(s, actions + [action]) <==> Timely(s, actions) && !Untimely(Run(s, actions), action)
    ensures Undisturbed(s, actions + [action]) <==> Undisturbed(s, actions) && !LeavesTriggers(Run(s, actions), action)
    decreases |actions|
  {
    if actions == [] {
      assert actions + [action] == [action];
      OneStep(s, action);
    } else {
      Append(Apply(s, actions[0]), actions[1..], action);
      assert actions + [action] == [actions[0]] + (actions[1..] + [action]);
      assert actions == [actions[0]] + actions[1..];
      Prepend(s, actions[0], actions[1..] + [action]);
    }
  }

  lemma Step(s: State, action: Action) returns (s': State)
    requires Reachable(s) && !LeavesTriggers(s, action) && !Untimely(s, action)
    ensures Reachable(s') && s' == Apply(s, action)
  {
    var actions :| Undisturbed(INITIAL, actions) && Timely(INITIAL, actions) && Run(INITIAL, actions) == s;
    Append(INITIAL, actions, action);
    assert Run(INITIAL, actions + [action]) == Apply(s, action);
    s' := Apply(s, action);
  }

  /** Two checks of a process overlap; the first makes it leader and registers triggers. */
  lemma LeaderWithTriggers(h: Host, w: WorkflowId) returns (s: State)
    ensures Reachable(s) && s == State(Some(h), {h}, {Held(h, w)}, map[], {}, {}, 1)
  {
    assert Run(INITIAL, []) == INITIAL;
    s := Step(INITIAL, Check(h, None));
    s := Step(s, Check(h, None));
    assert s == INITIAL;
    s := Step(s, TryBecomeLeader(h));
    s := Step(s, AddOwn(h, w));
    assert s.adding == map[0 := Add(h, w, true, true)];
    s := Step(s, EndAdd(0, true, false));
  }

  /** The second of these checks takes the flag and leaves the triggers: a run from the start in which
      every step is timely ends with triggers on a follower, and then on two processes. */
  lemma OverlappingChecksLeaveTriggers(h: Host, w: WorkflowId, other: Host) returns (s: State)
    requires other != h
    ensures Reachable(s) && !Untimely(s, TryBecomeLeader(h)) && !OnlyOnLeaders(Apply(s, TryBecomeLeader(h)))
    ensures var actions := [TryBecomeLeader(h), Expire, TryBecomeLeader(other),
                            AddOwn(other, w), EndAdd(s.next, true, false)];
      Timely(s, actions) && {Held(h, w), Held(other, w)} <= Run(s, actions).memory
  {
    s := LeaderWithTriggers(h, w);
    FailedTryDuplicates(s, Held(h, w), other);
    assert Held(h, w) in Apply(s, TryBecomeLeader(h)).memory;
  }

  /** A run from the start in which a leader steps down during its `add` and ends with triggers as a
      follower. */
  lemma StepDownDuringAddLeavesTriggers(h: Host, w: WorkflowId) returns (s: State)
    ensures Reachable(s) && !Untimely(s, Check(h, None))
    ensures !OnlyOnLeaders(Run(s, [Check(h, None), EndAdd(0, true, false)]))
  {
    assert Run(INITIAL, []) == INITIAL;
    s := Step(INITIAL, TryBecomeLeader(h));
    s := Step(s, AddOwn(h, w));
    assert s.adding == map[0 := Add(h, w, true, true)];
    var t := Apply(s, Check(h, None));
    OneStep(t, EndAdd(0, true, false));
    Prepend(s, Check(h, None), [EndAdd(0, true, false)]);
    assert Held(h, w) in Apply(t, EndAdd(0, true, false)).memory;
  }

  /** A run from the start in which the key expires under a leader, and two processes hold the triggers. */
  lemma ExpiryIsReached(h: Host, w: WorkflowId, other: Host) returns (s: State)
    requires other != h
    ensures Reachable(s)
    ensures var actions := [Expire, TryBecomeLeader(other), AddOwn(other, w), EndAdd(s.next, true, false)];
      Undisturbed(s, actions) && {Held(h, w), Held(other, w)} <= Run(s, actions).memory
  {
    s := LeaderWithTriggers(h, w);
    ExpiryDuplicates(s, Held(h, w), other);
  }
}
