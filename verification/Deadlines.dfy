/** Execution deadlines (packages/cli/src/workflow-runner.ts and workflow-execute-additional-data.ts).

    Times and timestamps are milliseconds, timeouts seconds.  A running execution has a soft deadline,
    a timestamp handed down to its sub-workflows and checked between nodes, and a hard one, a timer
    that stops it. */
module Deadlines {
  import opened Wrappers

  type Time = int

  const MAX_SAFE_INTEGER := 9007199254740991

  function Min(a: int, b: int): int {
    if a <= b then a else b
  }

  function Max(a: int, b: int): int {
    if a >= b then a else b
  }

  // ----- Nested sub-workflows -----

  /** A sub-workflow call: when it starts and the timeout its settings declare. */
  datatype Call = Call(startTime: Time, declared: Option<int>)

  ghost predicate Declares(call: Call) {
    call.declared.Some? && call.declared.value > 0
  }

  function OwnDeadline(call: Call): Time
    requires call.declared.Some?
  {
    call.startTime + call.declared.value * 1000
  }

  function Nested(parent: Option<Time>, call: Call): Option<Time> {
    if call.declared.None? || call.declared.value <= 0 then parent
    else if parent.None? || parent.value == 0 then Some(Min(MAX_SAFE_INTEGER, OwnDeadline(call)))
    else Some(Min(parent.value, OwnDeadline(call)))
  }

  method StartExecution(parent: Option<Time>, call: Call) returns (subworkflowTimeout: Option<Time>)
    ensures subworkflowTimeout == Nested(parent, call)
  {
    subworkflowTimeout := parent;
    if call.declared.Some? && call.declared.value > 0 {
      // A parent timestamp of zero counts as none.
      var enclosing := if parent.Some? && parent.value != 0 then parent.value else MAX_SAFE_INTEGER;
      var own := call.startTime + call.declared.value * 1000;
      subworkflowTimeout := Some(if enclosing <= own then enclosing else own);
    }
  }

  /** The deadline at the end of a chain of nested calls. */
  function Deadline(root: Option<Time>, chain: seq<Call>): Option<Time> {
    if chain == [] then root else Nested(Deadline(root, chain[..|chain| - 1]), chain[|chain| - 1])
  }

  /** The bounds a chain sets: the root deadline and all positive declared ones. */
  ghost predicate IsBound(root: Option<Time>, chain: seq<Call>, bound: Time) {
    || root == Some(bound)
    || exists call :: call in chain && Declares(call) && call.startTime + call.declared.value * 1000 == bound
  }

  ghost predicate IsLeastBound(root: Option<Time>, chain: seq<Call>, deadline: Time) {
    && (forall bound | IsBound(root, chain, bound) :: deadline <= bound)
    && (IsBound(root, chain, deadline) || (root.None? && deadline == 9007199254740991))
  }

  ghost predicate AnyDeclares(chain: seq<Call>) {
    exists call :: call in chain && Declares(call)
  }

  lemma BoundsExtend(root: Option<Time>, chain: seq<Call>, call: Call, bound: Time)
    ensures IsBound(root, chain + [call], bound) <==>
      IsBound(root, chain, bound) || (Declares(call) && call.startTime + call.declared.value * 1000 == bound)
  {
    var longer := chain + [call];
    assert forall c :: c in longer <==> c in chain || c == call;
  }

  /** Whatever the nesting, the deadline is the least of the root deadline and the declared ones, and
      there is none exactly if none of them exists. */
  lemma {:induction false} DeadlineIsTheLeastBound(root: Option<Time>, chain: seq<Call>)
    requires forall call | call in chain :: call.startTime >= 0
    requires root != Some(0)
    ensures Deadline(root, chain).None? <==> root.None? && !AnyDeclares(chain)
    ensures Deadline(root, chain) != Some(0)
    ensures Deadline(root, chain).Some? ==> IsLeastBound(root, chain, Deadline(root, chain).value)
    decreases |chain|
  {
    if chain == [] {
    } else {
      var n := |chain| - 1;
      DeadlineIsTheLeastBound(root, chain[..n]);
      assert chain == chain[..n] + [chain[n]];
      forall bound { BoundsExtend(root, chain[..n], chain[n], bound); }
      assert AnyDeclares(chain) <==> AnyDeclares(chain[..n]) || Declares(chain[n]) by {
        assert forall c :: c in chain <==> c in chain[..n] || c == chain[n];
      }
    }
  }

  /** A root deadline of zero is lost at the first call that declares a timeout; otherwise the deadline
      never exceeds an enclosing one. */
  lemma DeadlineIsBoundedIff(root: Option<Time>, chain: seq<Call>)
    requires forall call | call in chain :: call.startTime >= 0
    ensures (forall bound | IsBound(root, chain, bound) ::
               Deadline(root, chain).Some? && Deadline(root, chain).value <= bound)
            <==> !(root == Some(0) && AnyDeclares(chain))
  {
    if root != Some(0) {
      DeadlineIsTheLeastBound(root, chain);
      forall bound | IsBound(root, chain, bound) ensures Deadline(root, chain).Some? {}
    } else {
      ZeroIsLostIff(chain);
      assert IsBound(root, chain, 0);
    }
  }

  lemma {:induction false} ZeroIsLostIff(chain: seq<Call>)
    requires forall call | call in chain :: call.startTime >= 0
    ensures Deadline(Some(0), chain).Some?
    ensures if AnyDeclares(chain) then Deadline(Some(0), chain).value > 0 else Deadline(Some(0), chain).value == 0
    decreases |chain|
  {
    if chain == [] {
    } else {
      var n := |chain| - 1;
      ZeroIsLostIff(chain[..n]);
      assert AnyDeclares(chain) <==> AnyDeclares(chain[..n]) || Declares(chain[n]) by {
        assert forall c :: c in chain <==> c in chain[..n] || c == chain[n];
      }
    }
  }

  // ----- The hard timer of one segment -----

  datatype Config = Config(timeout: int, maxTimeout: int)

  datatype HardTimer = NoTimer | StopNow | FireIn(delay: int)

  /** The effective timeout; not positive if there is none. */
  function Timeout(setting: Option<int>, config: Config): int {
    var declared := if setting.Some? then setting.value else config.timeout;
    if declared > 0 then Min(declared, config.maxTimeout) else declared
  }

  /** When the timer stops an execution armed at `now`. */
  function StopsAt(timer: HardTimer, now: Time): Time
    requires !timer.NoTimer?
  {
    if timer.StopNow? then now else now + timer.delay
  }

  /** The row of an execution; `startedAt` is unset until its first segment runs. */
  class Execution {
    var startedAt: Option<Time>

    constructor ()
      ensures startedAt == None
    {
      startedAt := None;
    }

    /** The part of `runMainProcess` that concerns time.  `carried` is the start that the caller passes:
        the wait tracker passes the one stored in the row, other callers none.  The segment is set
        running at `running`, and its timer is armed at `now`. */
    method RunMainProcess(setting: Option<int>, config: Config, carried: Option<Time>,
                          setup: Time, running: Time, now: Time)
      returns (soft: Option<Time>, hard: HardTimer)
      modifies this
      ensures startedAt == Some(running)
      ensures soft == if Timeout(setting, config) > 0 then Some(setup + Timeout(setting, config) * 1000) else None
      ensures hard.NoTimer? <==> Timeout(setting, config) <= 0
      ensures !hard.NoTimer? ==>
        var basis := if carried.Some? then carried.value else now;
        && StopsAt(hard, now) == Max(basis + Timeout(setting, config) * 1000, now)
        && (hard.StopNow? <==> basis + Timeout(setting, config) * 1000 <= now)
    {
      var workflowTimeout := if setting.Some? then setting.value else config.timeout;
      if workflowTimeout > 0 {
        workflowTimeout := Min(workflowTimeout, config.maxTimeout);
      }
      soft := if workflowTimeout <= 0 then None else Some(setup + workflowTimeout * 1000);
      startedAt := Some(running);
      hard := NoTimer;
      if workflowTimeout > 0 {
        var timeout := Min(workflowTimeout, config.maxTimeout) * 1000;
        if carried.Some? {
          timeout := Max(timeout - (now - carried.value), 0);
        }
        hard := if timeout == 0 then StopNow else FireIn(timeout);
      }
    }
  }

  /** A timeout applies exactly if a positive one is wanted and the configured maximum is positive; it
      then exceeds neither. */
  lemma TimeoutApplies(setting: Option<int>, config: Config)
    ensures var wanted, t := if setting.Some? then setting.value else config.timeout, Timeout(setting, config);
      && (t > 0 <==> wanted > 0 && config.maxTimeout > 0)
      && (t > 0 ==> t <= wanted && t <= config.maxTimeout && (t == wanted || t == config.maxTimeout))
  {
  }

  // ----- The hard timers of all segments of an execution -----

  /** One segment: whether the wait tracker resumed it, when it was set running and its timer armed. */
  datatype Segment = Segment(tracked: bool, running: Time, armed: Time)

  ghost predicate InOrder(segments: seq<Segment>) {
    && (forall i | 0 <= i < |segments| :: segments[i].running <= segments[i].armed)
    && (forall i, j | 0 <= i < j < |segments| :: segments[i].armed <= segments[j].running)
  }

  /** The start that segment `k` measures from: every segment overwrites the row's `startedAt`, so the
      tracker passes on the previous segment's. */
  function Basis(segments: seq<Segment>, k: nat): Time
    requires k < |segments|
  {
    if k > 0 && segments[k].tracked then segments[k - 1].running else segments[k].armed
  }

  function HardDeadline(segments: seq<Segment>, k: nat, timeout: int): Time
    requires k < |segments|
  {
    Max(Basis(segments, k) + timeout * 1000, segments[k].armed)
  }

  /** A resumed execution stopped relative to when it first started running. */
  function Promised(segments: seq<Segment>, k: nat, timeout: int): Time
    requires k < |segments|
  {
    Max(segments[0].running + timeout * 1000, segments[k].armed)
  }

  /** Runs the segments one after the other on one row. */
  method RunSegments(segments: seq<Segment>, setting: Option<int>, config: Config) returns (stops: seq<Option<Time>>)
    ensures |stops| == |segments|
    ensures forall k | 0 <= k < |segments| ::
      var t := Timeout(setting, config);
      stops[k] == if t > 0 then Some(HardDeadline(segments, k, t)) else None
  {
    var execution := new Execution();
    stops := [];
    for k := 0 to |segments|
      invariant execution.startedAt == if k == 0 then None else Some(segments[k - 1].running)
      invariant |stops| == k
      invariant forall i | 0 <= i < k ::
        var t := Timeout(setting, config);
        stops[i] == if t > 0 then Some(HardDeadline(segments, i, t)) else None
    {
      var segment := segments[k];
      var carried := if segment.tracked then execution.startedAt else None;
      var _, hard :=
        execution.RunMainProcess(setting, config, carried, segment.running, segment.running, segment.armed);
      stops := stops + [if hard.NoTimer? then None else Some(StopsAt(hard, segment.armed))];
    }
  }

  /** The segment is over when its timer is armed, even by its own measure. */
  ghost predicate IsOverdue(segments: seq<Segment>, k: nat, timeout: int)
    requires k < |segments|
  {
    Basis(segments, k) + timeout * 1000 <= segments[k].armed
  }

  /** A segment never stops earlier than promised.  On the schedule: one that the tracker resumed stops when
      it is promised to exactly if it is the second, or its predecessor was set running together with the
      first, or it is overdue; any other one exactly if it was armed when the first was set running. */
  lemma StopsAsPromisedIff(segments: seq<Segment>, k: nat, timeout: int)
    requires k < |segments| && InOrder(segments) && timeout > 0
    ensures HardDeadline(segments, k, timeout) >= Promised(segments, k, timeout)
    ensures HardDeadline(segments, k, timeout) == Promised(segments, k, timeout) <==>
      if k > 0 && segments[k].tracked then
        k == 1 || segments[k - 1].running == segments[0].running || IsOverdue(segments, k, timeout)
      else
        segments[k].armed == segments[0].running
  {
    if k > 1 {
      assert segments[0].running <= segments[0].armed <= segments[k - 1].running;
    } else if k == 1 {
      assert segments[0].running <= segments[0].armed <= segments[1].running;
    }
  }

  /** All segments of a tracked execution stop as promised exactly if each one after the second is overdue,
      or follows one that was set running together with the first. */
  lemma AllStopAsPromisedIff(segments: seq<Segment>, timeout: int)
    requires InOrder(segments) && timeout > 0
    requires forall k | 0 < k < |segments| :: segments[k].tracked
    ensures (forall k | 0 < k < |segments| :: HardDeadline(segments, k, timeout) == Promised(segments, k, timeout))
            <==> forall k | 1 < k < |segments| ::
                   segments[k - 1].running == segments[0].running || IsOverdue(segments, k, timeout)
  {
    forall k | 0 < k < |segments|
      ensures HardDeadline(segments, k, timeout) == Promised(segments, k, timeout) <==>
        k == 1 || segments[k - 1].running == segments[0].running || IsOverdue(segments, k, timeout)
    {
      StopsAsPromisedIff(segments, k, timeout);
    }
  }

  /** The second segment keeps the promise if the tracker resumed it. */
  lemma SecondSegmentKeepsThePromise(segments: seq<Segment>, timeout: int)
    requires |segments| > 1 && InOrder(segments) && timeout > 0 && segments[1].tracked
    ensures HardDeadline(segments, 1, timeout) == Promised(segments, 1, timeout)
  {
    StopsAsPromisedIff(segments, 1, timeout);
  }

  /** An execution that the tracker resumes every `step` milliseconds. */
  function Every(step: nat, count: nat): (segments: seq<Segment>)
    ensures |segments| == count && forall k | 0 <= k < count :: segments[k] == Segment(true, k * step, k * step)
  {
    seq(count, i requires 0 <= i => Segment(true, i * step, i * step))
  }

  lemma MultiplesGrow(i: nat, j: nat, step: nat)
    requires i <= j
    ensures i * step <= j * step
    ensures i < j && step > 0 ==> i * step < j * step
  {
    assert j * step == i * step + (j - i) * step;
  }

  lemma HalvesAddUp(n: nat, timeout: nat)
    requires timeout > 0
    ensures (2 * n + 2) * (timeout * 500) > n * (timeout * 1000)
  {
    assert (2 * n) * (timeout * 500) == n * (timeout * 1000);
    MultiplesGrow(2 * n, 2 * n + 2, timeout * 500);
  }

  lemma EveryIsInOrder(step: nat, count: nat)
    ensures InOrder(Every(step, count))
  {
    forall i, j | 0 <= i < j < count ensures Every(step, count)[i].armed <= Every(step, count)[j].running {
      MultiplesGrow(i, j, step);
    }
  }

  /** Resumed every half of its timeout, it is stopped a half later than the next resumption. */
  lemma StopsAHalfLater(timeout: nat, count: nat, k: nat)
    requires 0 < k < count
    ensures HardDeadline(Every(timeout * 500, count), k, timeout) == (k + 1) * (timeout * 500)
  {
    var half := timeout * 500;
    var segments := Every(half, count);
    assert (k + 1) * half == k * half + half && k * half == (k - 1) * half + half;
    assert Basis(segments, k) == (k - 1) * half;
  }

  /** From the third on none need do so: an execution that is resumed every half of its timeout is never
      overdue, and after 2n + 2 segments its deadline is later than n times the timeout. */
  lemma ResumingPostponesTheDeadline(timeout: int, n: nat) returns (segments: seq<Segment>)
    requires timeout > 0
    ensures |segments| == 2 * n + 2 && InOrder(segments)
    ensures forall k | 0 < k < |segments| ::
      segments[k].tracked && segments[k].armed < HardDeadline(segments, k, timeout)
    ensures HardDeadline(segments, 2 * n + 1, timeout) > segments[0].running + n * (timeout * 1000)
  {
    var half := timeout * 500;
    segments := Every(half, 2 * n + 2);
    EveryIsInOrder(half, 2 * n + 2);
    forall k | 0 < k < |segments| ensures segments[k].armed < HardDeadline(segments, k, timeout) {
      StopsAHalfLater(timeout, 2 * n + 2, k);
      MultiplesGrow(k, k + 1, half);
    }
    StopsAHalfLater(timeout, 2 * n + 2, 2 * n + 1);
    HalvesAddUp(n, timeout);
    assert segments[0].running == 0;
  }
}
