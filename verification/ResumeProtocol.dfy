/** Resuming waiting executions (packages/cli/src/wait-tracker.ts, workflow-helpers.ts and the
    database part of active-executions.ts).

    Timers and finishing child executions, in any number and on any process, try to resume the same
    database row.  They read and write the row in separate steps; the only arbiter is the update that
    requires the status `waiting`.  A run is any sequence of actions; an action that is not enabled
    changes nothing. */
module ResumeProtocol {
  import opened Wrappers

  type ExecutionId = string
  type Output = string
  type ResumerId = nat
  type SegmentId = nat

  datatype Status = New | Running | Waiting | Success | Failed

  /** What a row stores: the inputs on the node execution stack, and everything else. */
  datatype RunData = RunData(stack: seq<Output>, rest: string)

  /** `waits` counts how often the row entered `Waiting`, and so numbers its waiting periods.  Two
      history fields: `saved` is what the execution itself stored when the period began, `tampered`
      whether a write that was read in another period has hit the row since. */
  datatype Row = Row(status: Status, data: RunData, waits: nat, saved: RunData, tampered: bool)

  /** A timer, or a finished child execution with the data of its last node, if it has any. */
  datatype Kind = Timer | Child(output: Option<Output>)

  /** Where a resumer is.  `wrote` is the waiting period in which a child updated the row and `seen`
      the one in which the row was fetched, if the row was waiting then. */
  datatype Pc =
    | ReadParent
    | WriteParent(snapshot: RunData, period: nat)
    | Fetch(wrote: Option<nat>)
    | Reserve(resume: Resume)
    | Update(resume: Resume)
    | Won(resume: Resume, period: nat)
    | Lost
    | Threw

  datatype Resume = Resume(data: RunData, wrote: Option<nat>, seen: Option<nat>, saved: RunData, clean: bool)

  datatype Resumer = Resumer(target: ExecutionId, kind: Kind, pc: Pc)

  /** `running` holds the segments that currently own an execution; `outputs` the results that the
      finished children of an execution have reported; `reserved` the capacity held for resuming. */
  datatype State = State(
    rows: map<ExecutionId, Row>,
    running: map<SegmentId, ExecutionId>,
    resumers: map<ResumerId, Resumer>,
    outputs: map<ExecutionId, set<Output>>,
    reserved: set<ResumerId>,
    next: nat)

  datatype Action =
    | Create(id: ExecutionId, data: RunData)
    | MarkRunning(segment: SegmentId)
    | EndSegment(segment: SegmentId, status: Status, data: RunData)
    | CancelWaiting(id: ExecutionId)
    | SpawnTimer(id: ExecutionId)
    | SpawnChild(id: ExecutionId, output: Option<Output>)
    | Advance(resumer: ResumerId)

  const INITIAL := State(map[], map[], map[], map[], {}, 0)

  function OutputsOf(s: State, id: ExecutionId): set<Output> {
    if id in s.outputs then s.outputs[id] else {}
  }

  /** The parent's data with the child's output as input of its first waiting node; the other waiting
      nodes and the rest of the data stay. */
  function WithHead(data: RunData, output: Output): (r: RunData)
    requires data.stack != []
    ensures |r.stack| == |data.stack| && r.stack[0] == output && r.stack[1..] == data.stack[1..]
    ensures r.rest == data.rest
  {
    data.(stack := [output] + data.stack[1..])
  }

  function WaitingPeriod(row: Row): Option<nat> {
    if row.status == Waiting then Some(row.waits) else None
  }

  // ----- The steps of one resumer -----

  function Move(s: State, r: ResumerId, pc: Pc): State
    requires r in s.resumers
  {
    s.(resumers := s.resumers[r := s.resumers[r].(pc := pc)])
  }

  /** `updateParentExecutionWithChildResults` up to its write. */
  function DoRead(s: State, r: ResumerId): State
    requires r in s.resumers
  {
    var Resumer(id, kind, _) := s.resumers[r];
    if kind.Timer? || kind.output.None? then Move(s, r, Fetch(None))
    else if id !in s.rows || s.rows[id].status != Waiting || s.rows[id].data.stack == [] then Move(s, r, Fetch(None))
    else Move(s, r, WriteParent(s.rows[id].data, s.rows[id].waits))
  }

  /** The write itself: the whole data of the row, whatever its status is by now. */
  function DoWrite(s: State, r: ResumerId): State
    requires r in s.resumers && s.resumers[r].pc.WriteParent?
  {
    var Resumer(id, kind, pc) := s.resumers[r];
    if id !in s.rows || !kind.Child? || kind.output.None? || pc.snapshot.stack == [] then s
    else
      var row := s.rows[id];
      var row' := row.(data := WithHead(pc.snapshot, kind.output.value),
                       tampered := row.tampered || WaitingPeriod(row) != Some(pc.period));
      Move(s.(rows := s.rows[id := row']), r, Fetch(WaitingPeriod(row)))
  }

  /** `startExecution` reads the row; it throws if there is none or it has succeeded. */
  function DoFetch(s: State, r: ResumerId): State
    requires r in s.resumers && s.resumers[r].pc.Fetch?
  {
    var Resumer(id, _, pc) := s.resumers[r];
    if id !in s.rows || s.rows[id].status == Success then Move(s, r, Threw)
    else
      var row := s.rows[id];
      Move(s, r, Reserve(Resume(row.data, pc.wrote, WaitingPeriod(row), row.saved, !row.tampered)))
  }

  function DoReserve(s: State, r: ResumerId): State
    requires r in s.resumers && s.resumers[r].pc.Reserve?
  {
    Move(s.(reserved := s.reserved + {r}), r, Update(s.resumers[r].pc.resume))
  }

  /** The conditional update: it takes the row if the row is waiting, and otherwise gives the
      capacity back and changes nothing. */
  function DoUpdate(s: State, r: ResumerId): State
    requires r in s.resumers && s.resumers[r].pc.Update?
  {
    var Resumer(id, _, pc) := s.resumers[r];
    if id in s.rows && s.rows[id].status == Waiting then
      var row := s.rows[id].(status := Running, data := pc.resume.data);
      var s' := s.(rows := s.rows[id := row], running := s.running[s.next := id], next := s.next + 1);
      Move(s', r, Won(pc.resume, row.waits))
    else
      Move(s.(reserved := s.reserved - {r}), r, Lost)
  }

  function DoAdvance(s: State, r: ResumerId): State {
    if r !in s.resumers then s
    else
      match s.resumers[r].pc
      case ReadParent => DoRead(s, r)
      case WriteParent(_, _) => DoWrite(s, r)
      case Fetch(_) => DoFetch(s, r)
      case Reserve(_) => DoReserve(s, r)
      case Update(_) => DoUpdate(s, r)
      case _ => s
  }

  // ----- The other actions -----

  function DoCreate(s: State, id: ExecutionId, data: RunData): State {
    if id in s.rows then s
    else s.(rows := s.rows[id := Row(New, data, 0, data, false)],
            running := s.running[s.next := id],
            next := s.next + 1)
  }

  function DoMarkRunning(s: State, segment: SegmentId): State {
    if segment !in s.running || s.running[segment] !in s.rows then s
    else
      var id := s.running[segment];
      s.(rows := s.rows[id := s.rows[id].(status := Running)])
  }

  /** A segment ends by storing its data and a status that is neither new nor running. */
  function DoEndSegment(s: State, segment: SegmentId, status: Status, data: RunData): State {
    if segment !in s.running || s.running[segment] !in s.rows || status == New || status == Running then s
    else
      var id := s.running[segment];
      var row := s.rows[id];
      var row' := if status == Waiting then Row(Waiting, data, row.waits + 1, data, false)
                  else row.(status := status, data := data);
      s.(rows := s.rows[id := row'], running := s.running - {segment})
  }

  function DoCancelWaiting(s: State, id: ExecutionId): State {
    if id !in s.rows || s.rows[id].status != Waiting then s
    else s.(rows := s.rows[id := s.rows[id].(status := Failed)])
  }

  function DoSpawn(s: State, id: ExecutionId, kind: Kind): State {
    var pc := if kind.Timer? then Fetch(None) else ReadParent;
    var before := OutputsOf(s, id);
    var reported := if kind.Child? && kind.output.Some? then before + {kind.output.value} else before;
    s.(resumers := s.resumers[s.next := Resumer(id, kind, pc)],
       outputs := s.outputs[id := reported],
       next := s.next + 1)
  }

  function Apply(s: State, a: Action): State {
    match a
    case Create(id, data) => DoCreate(s, id, data)
    case MarkRunning(segment) => DoMarkRunning(s, segment)
    case EndSegment(segment, status, data) => DoEndSegment(s, segment, status, data)
    case CancelWaiting(id) => DoCancelWaiting(s, id)
    case SpawnTimer(id) => DoSpawn(s, id, Timer)
    case SpawnChild(id, output) => DoSpawn(s, id, Child(output))
    case Advance(r) => DoAdvance(s, r)
  }

  function Continue(s: State, more: seq<Action>): State
    decreases |more|
  {
    if more == [] then s else Apply(Continue(s, more[..|more| - 1]), more[|more| - 1])
  }

  function Run(actions: seq<Action>): State {
    Continue(INITIAL, actions)
  }

  // ----- The invariant -----

  /** Numbers for segments and resumers are handed out once. */
  ghost predicate FreshOk(s: State) {
    && (forall g | g in s.running :: g < s.next)
    && (forall r | r in s.resumers :: r < s.next)
  }

  /** An execution has at most one owner, and none while its row is waiting or over. */
  ghost predicate OwnersOk(s: State) {
    && (forall g, h | g in s.running && h in s.running && s.running[g] == s.running[h] :: g == h)
    && (forall g | g in s.running ::
          s.running[g] in s.rows && (s.rows[s.running[g]].status == New || s.rows[s.running[g]].status == Running))
  }

  /** A waiting period has at most one winner, and the current one has none while it lasts. */
  ghost predicate WinnersOk(s: State) {
    && (forall r | r in s.resumers && s.resumers[r].pc.Won? ::
          var id := s.resumers[r].target;
          && id in s.rows && 1 <= s.resumers[r].pc.period <= s.rows[id].waits
          && (s.rows[id].status == Waiting ==> s.resumers[r].pc.period < s.rows[id].waits))
    && (forall r, q | r in s.resumers && q in s.resumers && s.resumers[r].pc.Won? && s.resumers[q].pc.Won?
          && s.resumers[r].target == s.resumers[q].target
          && s.resumers[r].pc.period == s.resumers[q].pc.period :: r == q)
    && (forall id | id in s.rows && s.rows[id].status == Waiting :: s.rows[id].waits >= 1)
  }

  /** Capacity is held by the resumers at their update and by the winners. */
  ghost predicate ReservedOk(s: State) {
    forall r :: r in s.reserved <==> r in s.resumers && (s.resumers[r].pc.Update? || s.resumers[r].pc.Won?)
  }

  ghost predicate HasHeadOf(data: RunData, outputs: set<Output>) {
    data.stack != [] && data.stack[0] in outputs
  }

  /** `data` is `saved` with the output of a child as input of the first waiting node. */
  ghost predicate Delivers(saved: RunData, data: RunData, outputs: set<Output>) {
    && HasHeadOf(data, outputs) && |data.stack| == |saved.stack|
    && data.stack[1..] == saved.stack[1..] && data.rest == saved.rest
  }

  /** `data` is `saved`, up to the head delivered by a child. */
  ghost predicate Fits(saved: RunData, data: RunData, outputs: set<Output>) {
    data == saved || Delivers(saved, data, outputs)
  }

  /** During a waiting period that nobody tampered with, the row holds what the execution saved,
      up to a delivered head.  Nobody can tamper before the first period has ended. */
  ghost predicate RowOk(row: Row, outputs: set<Output>) {
    if row.tampered then SecondToCome(row)
    else row.status == Waiting ==> Fits(row.saved, row.data, outputs)
  }

  /** There has been a period, and if there is one now, it is not the first. */
  ghost predicate SecondToCome(row: Row) {
    row.waits >= 1 && (row.status == Waiting ==> row.waits >= 2)
  }

  ghost predicate ResumeOk(resume: Resume, outputs: set<Output>) {
    && (resume.wrote.Some? ==> resume.wrote.value >= 1)
    && (resume.seen.Some? ==>
          && resume.seen.value >= 1
          && (resume.wrote.Some? ==> resume.wrote.value <= resume.seen.value)
          && (resume.seen == resume.wrote ==> HasHeadOf(resume.data, outputs))
          && (if resume.clean then Fits(resume.saved, resume.data, outputs) else resume.seen.value >= 2))
  }

  /** As long as the fetched period lasts, the resumer knows what was saved in it. */
  ghost predicate KnowsSaved(row: Row, resume: Resume) {
    if resume.seen.Some? then
      resume.seen.value <= row.waits && (WaitingPeriod(row) == resume.seen ==> resume.saved == row.saved)
    else
      resume.clean || SecondToCome(row)
  }

  /** What a resumer's place implies, given the row it aims at: a snapshot about to be written fits an
      untampered period as long as it lasts; a child that wrote in a period leaves a child's output
      at the head as long as it lasts. */
  ghost predicate ResumerOk(row: Row, outputs: set<Output>, r: Resumer) {
    && (r.kind.Child? && r.kind.output.Some? ==> r.kind.output.value in outputs)
    && match r.pc
       case WriteParent(snapshot, period) =>
         && r.kind.Child? && r.kind.output.Some? && snapshot.stack != [] && 1 <= period <= row.waits
         && (WaitingPeriod(row) == Some(period) && !row.tampered ==> Fits(row.saved, snapshot, outputs))
       case Fetch(wrote) =>
         wrote.Some? ==> 1 <= wrote.value <= row.waits && (WaitingPeriod(row) == wrote ==> HasHeadOf(row.data, outputs))
       case Reserve(resume) => ResumeOk(resume, outputs) && KnowsSaved(row, resume)
       case Update(resume) => ResumeOk(resume, outputs) && KnowsSaved(row, resume)
       case Won(resume, _) => ResumeOk(resume, outputs)
       case _ => true
  }

  /** Stands for a row that does not exist. */
  const NO_ROW := Row(New, RunData([], ""), 0, RunData([], ""), false)

  function RowOf(s: State, id: ExecutionId): Row {
    if id in s.rows then s.rows[id] else NO_ROW
  }

  ghost predicate DataOk(s: State) {
    && (forall id | id in s.rows :: RowOk(s.rows[id], OutputsOf(s, id)))
    && (forall r | r in s.resumers ::
          ResumerOk(RowOf(s, s.resumers[r].target), OutputsOf(s, s.resumers[r].target), s.resumers[r]))
  }

  ghost predicate ControlOk(s: State) {
    FreshOk(s) && OwnersOk(s) && WinnersOk(s) && ReservedOk(s)
  }

  ghost predicate Inv(s: State) {
    ControlOk(s) && DataOk(s)
  }

  // ----- Every action keeps it -----

  /** How a row may change under the eyes of a resumer: it is not waiting afterwards, or a new period
      has begun, or the same period goes on with the same data or with a child's output as head. */
  ghost predicate Evolves(row: Row, row': Row, outputs: set<Output>) {
    && row.waits <= row'.waits
    && (row'.status == Waiting && row.waits == row'.waits ==>
          && row.status == Waiting && row'.saved == row.saved && (row.tampered ==> row'.tampered)
          && (row'.data == row.data || HasHeadOf(row'.data, outputs)))
  }

  lemma ResumerCarries(row: Row, row': Row, outputs: set<Output>, outputs': set<Output>, r: Resumer)
    requires ResumerOk(row, outputs, r) && Evolves(row, row', outputs') && outputs <= outputs'
    ensures ResumerOk(row', outputs', r)
  {
  }

  /** The resumers, when one row evolves and no resumer moves. */
  lemma ResumersCarry(s: State, s': State, id: ExecutionId)
    requires DataOk(s) && s'.resumers == s.resumers && Evolves(RowOf(s, id), RowOf(s', id), OutputsOf(s', id))
    requires OutputsOf(s, id) <= OutputsOf(s', id)
    requires forall i | i != id :: RowOf(s', i) == RowOf(s, i) && OutputsOf(s', i) == OutputsOf(s, i)
    ensures forall r | r in s'.resumers ::
      ResumerOk(RowOf(s', s'.resumers[r].target), OutputsOf(s', s'.resumers[r].target), s'.resumers[r])
  {
    forall r | r in s'.resumers
      ensures ResumerOk(RowOf(s', s'.resumers[r].target), OutputsOf(s', s'.resumers[r].target), s'.resumers[r])
    {
      if s.resumers[r].target == id {
        ResumerCarries(RowOf(s, id), RowOf(s', id), OutputsOf(s, id), OutputsOf(s', id), s.resumers[r]);
      }
    }
  }

  lemma RowKeepsData(s: State, id: ExecutionId, row': Row)
    requires DataOk(s) && Evolves(RowOf(s, id), row', OutputsOf(s, id)) && RowOk(row', OutputsOf(s, id))
    ensures DataOk(s.(rows := s.rows[id := row']))
  {
    var s' := s.(rows := s.rows[id := row']);
    ResumersCarry(s, s', id);
    forall i | i in s'.rows ensures RowOk(s'.rows[i], OutputsOf(s', i)) {
      if i != id { assert RowOk(s.rows[i], OutputsOf(s, i)); }
    }
  }

  /** The data invariant does not look at owners, capacity and numbers. */
  lemma SameData(s: State, s': State)
    requires DataOk(s) && s'.rows == s.rows && s'.resumers == s.resumers && s'.outputs == s.outputs
    ensures DataOk(s')
  {
    assert forall i :: RowOf(s', i) == RowOf(s, i) && OutputsOf(s', i) == OutputsOf(s, i);
  }

  lemma CreateKeepsControl(s: State, id: ExecutionId, data: RunData)
    requires ControlOk(s)
    ensures ControlOk(DoCreate(s, id, data))
  {
  }

  lemma CreateKeeps(s: State, id: ExecutionId, data: RunData)
    requires Inv(s)
    ensures Inv(DoCreate(s, id, data))
  {
    CreateKeepsControl(s, id, data);
    if id !in s.rows {
      var row := Row(New, data, 0, data, false);
      RowKeepsData(s, id, row);
      SameData(s.(rows := s.rows[id := row]), DoCreate(s, id, data));
    }
  }

  lemma MarkRunningKeeps(s: State, segment: SegmentId)
    requires Inv(s)
    ensures Inv(DoMarkRunning(s, segment))
  {
    if segment in s.running {
      var id := s.running[segment];
      RowKeepsData(s, id, s.rows[id].(status := Running));
    }
  }

  lemma EndSegmentKeepsControl(s: State, segment: SegmentId, status: Status, data: RunData)
    requires ControlOk(s)
    ensures ControlOk(DoEndSegment(s, segment, status, data))
  {
  }

  lemma EndSegmentKeeps(s: State, segment: SegmentId, status: Status, data: RunData)
    requires Inv(s)
    ensures Inv(DoEndSegment(s, segment, status, data))
  {
    EndSegmentKeepsControl(s, segment, status, data);
    if segment in s.running && status != New && status != Running {
      var id, s' := s.running[segment], DoEndSegment(s, segment, status, data);
      RowKeepsData(s, id, s'.rows[id]);
      SameData(s.(rows := s'.rows), s');
    }
  }

  lemma CancelWaitingKeepsControl(s: State, id: ExecutionId)
    requires ControlOk(s)
    ensures ControlOk(DoCancelWaiting(s, id))
  {
  }

  lemma CancelWaitingKeeps(s: State, id: ExecutionId)
    requires Inv(s)
    ensures Inv(DoCancelWaiting(s, id))
  {
    CancelWaitingKeepsControl(s, id);
    if id in s.rows && s.rows[id].status == Waiting { RowKeepsData(s, id, s.rows[id].(status := Failed)); }
  }

  lemma SpawnKeepsControl(s: State, id: ExecutionId, kind: Kind)
    requires ControlOk(s)
    ensures ControlOk(DoSpawn(s, id, kind))
  {
  }

  lemma SpawnKeeps(s: State, id: ExecutionId, kind: Kind)
    requires Inv(s)
    ensures Inv(DoSpawn(s, id, kind))
  {
    SpawnKeepsControl(s, id, kind);
    SpawnKeepsData(s, id, kind);
  }

  lemma SpawnKeepsData(s: State, id: ExecutionId, kind: Kind)
    requires DataOk(s)
    ensures DataOk(DoSpawn(s, id, kind))
  {
    var s' := DoSpawn(s, id, kind);
    var s1 := s.(outputs := s'.outputs);
    ReportKeepsData(s, id, s'.outputs[id]);
    var r := s'.resumers[s.next];
    assert ResumerOk(RowOf(s1, id), OutputsOf(s1, id), r);
    JoinKeepsData(s1, s.next, r);
    assert s'.rows == s1.rows && s'.outputs == s1.outputs && s'.resumers == s1.resumers[s.next := r];
  }

  lemma ReportKeepsData(s: State, id: ExecutionId, outputs: set<Output>)
    requires DataOk(s) && OutputsOf(s, id) <= outputs
    ensures DataOk(s.(outputs := s.outputs[id := outputs]))
  {
    var s' := s.(outputs := s.outputs[id := outputs]);
    ResumersCarry(s, s', id);
    forall i | i in s'.rows ensures RowOk(s'.rows[i], OutputsOf(s', i)) {
      assert RowOk(s.rows[i], OutputsOf(s, i));
    }
  }

  lemma JoinKeepsData(s: State, n: ResumerId, r: Resumer)
    requires DataOk(s) && ResumerOk(RowOf(s, r.target), OutputsOf(s, r.target), r)
    ensures DataOk(s.(resumers := s.resumers[n := r]))
  {
    var s' := s.(resumers := s.resumers[n := r]);
    assert forall i :: RowOf(s', i) == RowOf(s, i) && OutputsOf(s', i) == OutputsOf(s, i);
  }

  lemma MoveKeepsControl(s: State, r: ResumerId, pc: Pc, reserved: set<ResumerId>)
    requires ControlOk(s)
    requires r in s.resumers && !s.resumers[r].pc.Won? && !pc.Won?
    requires forall q :: q in reserved <==> if q == r then pc.Update? else q in s.reserved
    ensures ControlOk(Move(s.(reserved := reserved), r, pc))
  {
  }

  lemma MoveKeeps(s: State, r: ResumerId, pc: Pc, reserved: set<ResumerId>)
    requires Inv(s) && r in s.resumers && !s.resumers[r].pc.Won? && !pc.Won?
    requires ResumerOk(RowOf(s, s.resumers[r].target), OutputsOf(s, s.resumers[r].target), s.resumers[r].(pc := pc))
    requires forall q :: q in reserved <==> if q == r then pc.Update? else q in s.reserved
    ensures Inv(Move(s.(reserved := reserved), r, pc))
  {
    MoveKeepsControl(s, r, pc, reserved);
    MoveKeepsData(s, r, pc);
    var s', s1 := Move(s.(reserved := reserved), r, pc), Move(s, r, pc);
    assert s'.rows == s1.rows && s'.outputs == s1.outputs && s'.resumers == s1.resumers;
  }

  lemma ReadKeeps(s: State, r: ResumerId)
    requires Inv(s) && r in s.resumers && s.resumers[r].pc.ReadParent?
    ensures Inv(DoRead(s, r))
  {
    var Resumer(id, kind, _) := s.resumers[r];
    if kind.Timer? || kind.output.None? {
      MoveKeeps(s, r, Fetch(None), s.reserved);
    } else if id !in s.rows || s.rows[id].status != Waiting || s.rows[id].data.stack == [] {
      MoveKeeps(s, r, Fetch(None), s.reserved);
    } else {
      assert RowOk(s.rows[id], OutputsOf(s, id));
      MoveKeeps(s, r, WriteParent(s.rows[id].data, s.rows[id].waits), s.reserved);
    }
  }

  lemma FetchKeeps(s: State, r: ResumerId)
    requires Inv(s) && r in s.resumers && s.resumers[r].pc.Fetch?
    ensures Inv(DoFetch(s, r))
  {
    var Resumer(id, _, pc) := s.resumers[r];
    if id !in s.rows || s.rows[id].status == Success {
      MoveKeeps(s, r, Threw, s.reserved);
    } else {
      var row := s.rows[id];
      assert RowOk(row, OutputsOf(s, id)) && ResumerOk(row, OutputsOf(s, id), s.resumers[r]);
      MoveKeeps(s, r, Reserve(Resume(row.data, pc.wrote, WaitingPeriod(row), row.saved, !row.tampered)), s.reserved);
    }
  }

  lemma ReserveKeeps(s: State, r: ResumerId)
    requires Inv(s) && r in s.resumers && s.resumers[r].pc.Reserve?
    ensures Inv(DoReserve(s, r))
  {
    MoveKeeps(s, r, Update(s.resumers[r].pc.resume), s.reserved + {r});
  }

  lemma NewDataKeepsControl(s: State, id: ExecutionId, row': Row)
    requires ControlOk(s) && id in s.rows && row'.status == s.rows[id].status && row'.waits == s.rows[id].waits
    ensures ControlOk(s.(rows := s.rows[id := row']))
  {
  }

  lemma WriteKeeps(s: State, r: ResumerId)
    requires Inv(s) && r in s.resumers && s.resumers[r].pc.WriteParent?
    ensures Inv(DoWrite(s, r))
  {
    var Resumer(id, kind, pc) := s.resumers[r];
    var outputs := OutputsOf(s, id);
    assert ResumerOk(RowOf(s, id), outputs, s.resumers[r]);
    if id in s.rows {
      var row := s.rows[id];
      var row' := row.(data := WithHead(pc.snapshot, kind.output.value),
                       tampered := row.tampered || WaitingPeriod(row) != Some(pc.period));
      var s1 := s.(rows := s.rows[id := row']);
      assert HasHeadOf(row'.data, outputs);
      RowKeepsData(s, id, row');
      NewDataKeepsControl(s, id, row');
      MoveKeeps(s1, r, Fetch(WaitingPeriod(row)), s.reserved);
    }
  }

  lemma UpdateKeeps(s: State, r: ResumerId)
    requires Inv(s) && r in s.resumers && s.resumers[r].pc.Update?
    ensures Inv(DoUpdate(s, r))
  {
    var Resumer(id, kind, pc) := s.resumers[r];
    if id in s.rows && s.rows[id].status == Waiting {
      WinKeepsControl(s, r);
      WinKeepsData(s, r);
    } else {
      MoveKeeps(s, r, Lost, s.reserved - {r});
    }
  }

  lemma WinKeepsControl(s: State, r: ResumerId)
    requires Inv(s) && r in s.resumers && s.resumers[r].pc.Update?
    requires s.resumers[r].target in s.rows && s.rows[s.resumers[r].target].status == Waiting
    ensures ControlOk(DoUpdate(s, r))
  {
    WinKeepsOwners(s, r);
    WinKeepsWinners(s, r);
  }

  lemma WinKeepsOwners(s: State, r: ResumerId)
    requires ControlOk(s) && r in s.resumers && s.resumers[r].pc.Update?
    requires s.resumers[r].target in s.rows && s.rows[s.resumers[r].target].status == Waiting
    ensures FreshOk(DoUpdate(s, r)) && OwnersOk(DoUpdate(s, r)) && ReservedOk(DoUpdate(s, r))
  {
  }

  lemma WinKeepsWinners(s: State, r: ResumerId)
    requires ControlOk(s) && r in s.resumers && s.resumers[r].pc.Update?
    requires s.resumers[r].target in s.rows && s.rows[s.resumers[r].target].status == Waiting
    ensures WinnersOk(DoUpdate(s, r))
  {
  }

  lemma WinKeepsData(s: State, r: ResumerId)
    requires Inv(s) && r in s.resumers && s.resumers[r].pc.Update?
    requires s.resumers[r].target in s.rows && s.rows[s.resumers[r].target].status == Waiting
    ensures DataOk(DoUpdate(s, r))
  {
    var Resumer(id, _, pc) := s.resumers[r];
    var row := s.rows[id];
    var row' := row.(status := Running, data := pc.resume.data);
    RowKeepsData(s, id, row');
    var s1 := s.(rows := s.rows[id := row']);
    assert ResumerOk(RowOf(s, id), OutputsOf(s, id), s.resumers[r]);
    MoveKeepsData(s1, r, Won(pc.resume, row.waits));
    SameData(Move(s1, r, Won(pc.resume, row.waits)), DoUpdate(s, r));
  }

  lemma MoveKeepsData(s: State, r: ResumerId, pc: Pc)
    requires DataOk(s) && r in s.resumers
    requires ResumerOk(RowOf(s, s.resumers[r].target), OutputsOf(s, s.resumers[r].target), s.resumers[r].(pc := pc))
    ensures DataOk(Move(s, r, pc))
  {
    JoinKeepsData(s, r, s.resumers[r].(pc := pc));
  }

  lemma AdvanceKeeps(s: State, r: ResumerId)
    requires Inv(s)
    ensures Inv(DoAdvance(s, r))
  {
    if r in s.resumers {
      match s.resumers[r].pc
      case ReadParent => ReadKeeps(s, r);
      case WriteParent(_, _) => WriteKeeps(s, r);
      case Fetch(_) => FetchKeeps(s, r);
      case Reserve(_) => ReserveKeeps(s, r);
      case Update(_) => UpdateKeeps(s, r);
      case _ =>
    }
  }

  lemma ApplyKeeps(s: State, a: Action)
    requires Inv(s)
    ensures Inv(Apply(s, a))
  {
    match a
    case Create(id, data) => CreateKeeps(s, id, data);
    case MarkRunning(segment) => MarkRunningKeeps(s, segment);
    case EndSegment(segment, status, data) => EndSegmentKeeps(s, segment, status, data);
    case CancelWaiting(id) => CancelWaitingKeeps(s, id);
    case SpawnTimer(id) => SpawnKeeps(s, id, Timer);
    case SpawnChild(id, output) => SpawnKeeps(s, id, Child(output));
    case Advance(r) => AdvanceKeeps(s, r);
  }

  lemma {:induction false} ContinueKeeps(s: State, more: seq<Action>)
    requires Inv(s)
    ensures Inv(Continue(s, more))
    decreases |more|
  {
    if more == [] {
    } else {
      ContinueKeeps(s, more[..|more| - 1]);
      ApplyKeeps(Continue(s, more[..|more| - 1]), more[|more| - 1]);
    }
  }

  lemma RunKeeps(actions: seq<Action>)
    ensures Inv(Run(actions))
  {
    ContinueKeeps(INITIAL, actions);
  }

  lemma ContinueExtends(s: State, more: seq<Action>, a: Action)
    ensures Continue(s, more + [a]) == Apply(Continue(s, more), a)
  {
    var longer := more + [a];
    assert longer[..|longer| - 1] == more;
  }

  ghost predicate Reachable(s: State) {
    exists actions :: Run(actions) == s
  }

  lemma ReachableKeeps(s: State)
    requires Reachable(s)
    ensures Inv(s)
  {
    var actions :| Run(actions) == s;
    RunKeeps(actions);
  }

  // ----- One owner, one winner per waiting period -----

  /** In every run an execution has at most one owner, and none while its row is waiting. */
  lemma AtMostOneOwner(s: State, g: SegmentId, h: SegmentId)
    requires Reachable(s) && g in s.running && h in s.running && s.running[g] == s.running[h]
    ensures g == h && s.running[g] in s.rows && s.rows[s.running[g]].status != Waiting
  {
    ReachableKeeps(s);
  }

  ghost function Winners(s: State, id: ExecutionId): set<ResumerId> {
    set r | r in s.resumers && s.resumers[r].target == id && s.resumers[r].pc.Won?
  }

  lemma {:induction false} DistinctPeriodsAreFew(s: State, winners: set<ResumerId>, n: nat)
    requires forall r | r in winners :: r in s.resumers && s.resumers[r].pc.Won? && 1 <= s.resumers[r].pc.period <= n
    requires forall r, q | r in winners && q in winners && s.resumers[r].pc.period == s.resumers[q].pc.period :: r == q
    ensures |winners| <= n
    decreases n
  {
    if r :| r in winners && s.resumers[r].pc.period == n {
      DistinctPeriodsAreFew(s, winners - {r}, n - 1);
    } else if n > 0 {
      DistinctPeriodsAreFew(s, winners, n - 1);
    } else {
      assert winners == {};
    }
  }

  /** In every run an execution is resumed at most as often as its row entered `Waiting`; while it is
      waiting, strictly less often. */
  lemma ResumedAtMostAsOftenAsWaiting(s: State, id: ExecutionId)
    requires Reachable(s) && id in s.rows
    ensures |Winners(s, id)| <= s.rows[id].waits
    ensures s.rows[id].status == Waiting ==> |Winners(s, id)| < s.rows[id].waits
  {
    ReachableKeeps(s);
    var n := if s.rows[id].status == Waiting then s.rows[id].waits - 1 else s.rows[id].waits;
    DistinctPeriodsAreFew(s, Winners(s, id), n);
  }

  /** Every row, owner and report is as it was, and the capacity is back. */
  ghost predicate LostTo(s: State, s': State, r: ResumerId) {
    && r in s'.resumers && s'.resumers[r].pc.Lost?
    && s'.rows == s.rows && s'.running == s.running && s'.outputs == s.outputs && s'.reserved == s.reserved - {r}
  }

  /** The execution has a new owner, and the capacity is kept. */
  ghost predicate WonBy(s: State, s': State, r: ResumerId, id: ExecutionId, data: RunData) {
    && r in s'.resumers && s'.resumers[r].pc.Won?
    && id in s'.rows && s'.rows[id].status == Running && s'.rows[id].data == data
    && s'.running == s.running[s.next := id] && s.next !in s.running
    && s'.reserved == s.reserved && s'.outputs == s.outputs
  }

  /** A helper: the two outcomes of the conditional update, with the capacity that the invariant says
      is held before. */
  lemma LosingChangesNothing(s: State, r: ResumerId)
    requires Reachable(s) && r in s.resumers && s.resumers[r].pc.Update?
    ensures r in s.reserved
    ensures var s', id := Apply(s, Advance(r)), s.resumers[r].target;
      if id in s.rows && s.rows[id].status == Waiting then WonBy(s, s', r, id, s.resumers[r].pc.resume.data)
      else LostTo(s, s', r)
  {
    ReachableKeeps(s);
    assert Apply(s, Advance(r)) == DoUpdate(s, r);
  }

  // ----- What the single steps store -----

  /** A child goes on to write exactly if it has an output and the parent is waiting with a node on its stack;
      it then holds the data of the row. */
  lemma ChildReads(s: State, r: ResumerId)
    requires r in s.resumers && s.resumers[r].pc.ReadParent?
    ensures var s', id, kind := Apply(s, Advance(r)), s.resumers[r].target, s.resumers[r].kind;
      if kind.Child? && kind.output.Some? && id in s.rows && s.rows[id].status == Waiting && s.rows[id].data.stack != []
      then s'.resumers[r].pc == WriteParent(s.rows[id].data, s.rows[id].waits)
      else s'.resumers[r].pc == Fetch(None)
  {
  }

  /** A fetch throws exactly if there is no row or the execution has succeeded; otherwise it holds the data of
      the row, and the waiting period if there is one. */
  lemma FetchSees(s: State, r: ResumerId)
    requires r in s.resumers && s.resumers[r].pc.Fetch?
    ensures var s', id := Apply(s, Advance(r)), s.resumers[r].target;
      if id !in s.rows || s.rows[id].status == Success then s'.resumers[r].pc == Threw
      else
        && s'.resumers[r].pc.Reserve? && s'.resumers[r].pc.resume.data == s.rows[id].data
        && s'.resumers[r].pc.resume.seen == (if s.rows[id].status == Waiting then Some(s.rows[id].waits) else None)
        && s'.resumers[r].pc.resume.saved == s.rows[id].saved && s'.resumers[r].pc.resume.clean == !s.rows[id].tampered
  {
  }

  /** A child's write replaces the first input of the snapshot, whatever the row is by then, and touches
      neither status nor period nor any other row. */
  lemma ChildWriteStores(s: State, r: ResumerId)
    requires Reachable(s) && r in s.resumers && s.resumers[r].pc.WriteParent? && s.resumers[r].target in s.rows
    ensures var s', id, snapshot := Apply(s, Advance(r)), s.resumers[r].target, s.resumers[r].pc.snapshot;
      && s'.rows.Keys == s.rows.Keys && (forall i | i in s.rows && i != id :: s'.rows[i] == s.rows[i])
      && s'.rows[id].status == s.rows[id].status && s'.rows[id].waits == s.rows[id].waits
      && s'.rows[id].saved == s.rows[id].saved
      && s.resumers[r].kind.Child? && s.resumers[r].kind.output.Some?
      && |s'.rows[id].data.stack| == |snapshot.stack| > 0
      && s'.rows[id].data.stack[0] == s.resumers[r].kind.output.value
      && (forall k | 0 < k < |snapshot.stack| :: s'.rows[id].data.stack[k] == snapshot.stack[k])
      && s'.rows[id].data.rest == snapshot.rest
      && s'.running == s.running && s'.reserved == s.reserved && s'.outputs == s.outputs
  {
    ReachableKeeps(s);
    var id, pc := s.resumers[r].target, s.resumers[r].pc;
    assert ResumerOk(RowOf(s, id), OutputsOf(s, id), s.resumers[r]);
    var stored := WithHead(pc.snapshot, s.resumers[r].kind.output.value);
    forall k | 0 < k < |pc.snapshot.stack| ensures stored.stack[k] == pc.snapshot.stack[k] {
      assert stored.stack[1..][k - 1] == pc.snapshot.stack[1..][k - 1];
    }
  }

  /** A segment that ends stores its status and data and gives the execution up; waiting begins a new
      period with these data. */
  lemma EndingStores(s: State, g: SegmentId, status: Status, data: RunData)
    requires Reachable(s) && g in s.running && status != New && status != Running
    ensures var s', id := Apply(s, EndSegment(g, status, data)), s.running[g];
      && id in s.rows && id in s'.rows && s'.rows[id].status == status && s'.rows[id].data == data
      && s'.rows[id].waits == s.rows[id].waits + (if status == Waiting then 1 else 0)
      && (status == Waiting ==> s'.rows[id].saved == data && !s'.rows[id].tampered)
      && (forall h | h in s'.running :: h in s.running && s'.running[h] == s.running[h] != id)
      && s'.rows.Keys == s.rows.Keys && (forall i | i in s.rows && i != id :: s'.rows[i] == s.rows[i])
  {
    ReachableKeeps(s);
  }

  /** The step from `s` to `s'` changes no row but the one that `r` aims at, moves no other resumer and
      touches no other one's capacity. */
  ghost predicate IsLocal(s: State, s': State, r: ResumerId)
    requires r in s.resumers
  {
    && s'.rows.Keys == s.rows.Keys && (forall i | i in s.rows && i != s.resumers[r].target :: s'.rows[i] == s.rows[i])
    && s'.resumers.Keys == s.resumers.Keys
    && (forall q | q in s.resumers && q != r :: s'.resumers[q] == s.resumers[q])
    && s'.resumers[r].target == s.resumers[r].target && s'.resumers[r].kind == s.resumers[r].kind
    && s'.outputs == s.outputs && s'.reserved - {r} == s.reserved - {r}
  }

  lemma MoveIsLocal(s: State, r: ResumerId, pc: Pc, reserved: set<ResumerId>)
    requires r in s.resumers && reserved - {r} == s.reserved - {r}
    ensures IsLocal(s, Move(s.(reserved := reserved), r, pc), r)
  {
  }

  lemma WriteIsLocal(s: State, r: ResumerId)
    requires r in s.resumers && s.resumers[r].pc.WriteParent?
    ensures IsLocal(s, DoWrite(s, r), r) && DoWrite(s, r).running == s.running
  {
  }

  lemma UpdateIsLocal(s: State, r: ResumerId)
    requires r in s.resumers && s.resumers[r].pc.Update?
    ensures IsLocal(s, DoUpdate(s, r), r)
  {
  }

  /** A resumer's steps are local; only a child's write and an update change a row, and only an update
      makes an owner. */
  lemma ResumersAreLocal(s: State, r: ResumerId)
    requires r in s.resumers
    ensures var s' := Apply(s, Advance(r));
      && IsLocal(s, s', r)
      && (s'.rows == s.rows || s.resumers[r].pc.WriteParent? || s.resumers[r].pc.Update?)
      && (s'.running == s.running || s.resumers[r].pc.Update?)
  {
    match s.resumers[r].pc
    case ReadParent => MoveIsLocal(s, r, DoRead(s, r).resumers[r].pc, s.reserved);
    case WriteParent(_, _) => WriteIsLocal(s, r);
    case Fetch(_) => MoveIsLocal(s, r, DoFetch(s, r).resumers[r].pc, s.reserved);
    case Reserve(resume) => MoveIsLocal(s, r, Update(resume), s.reserved + {r});
    case Update(_) => UpdateIsLocal(s, r);
    case _ =>
  }

  /** A new execution has one owner and keeps its data; marking it running and cancelling it while it waits
      change its status only. */
  lemma RowsStartAndStop(s: State, id: ExecutionId, data: RunData, g: SegmentId)
    requires Reachable(s)
    ensures var s' := Apply(s, Create(id, data));
      if id in s.rows then s' == s
      else s'.rows == s.rows[id := Row(New, data, 0, data, false)] && s'.running == s.running[s.next := id]
    ensures var s' := Apply(s, MarkRunning(g));
      && s'.running == s.running
      && (g !in s.running ==> s'.rows == s.rows)
      && (g in s.running ==>
            var owned := s.running[g];
            owned in s.rows && s'.rows == s.rows[owned := s.rows[owned].(status := Running)])
    ensures var s' := Apply(s, CancelWaiting(id));
      && s'.running == s.running
      && if id in s.rows && s.rows[id].status == Waiting then s'.rows == s.rows[id := s.rows[id].(status := Failed)]
         else s'.rows == s.rows
  {
    ReachableKeeps(s);
  }

  // ----- What the resumed execution works on -----

  /** The resumer's update succeeds. */
  ghost predicate Wins(s: State, r: ResumerId) {
    && r in s.resumers && s.resumers[r].pc.Update?
    && s.resumers[r].target in s.rows && s.rows[s.resumers[r].target].status == Waiting
  }

  /** If a child's update and its fetch fall in one waiting period, then, however many other children
      and timers interleave, the parent it resumes starts with the output of a finished child at the
      head of its stack. */
  lemma WinningChildDelivers(s: State, r: ResumerId)
    requires Reachable(s) && Wins(s, r)
    requires var resume := s.resumers[r].pc.resume; resume.seen.Some? && resume.seen == resume.wrote
    ensures var s', id := Apply(s, Advance(r)), s.resumers[r].target;
      id in s'.rows && s'.rows[id].status == Running && HasHeadOf(s'.rows[id].data, OutputsOf(s, id))
  {
    ReachableKeeps(s);
    LosingChangesNothing(s, r);
    assert ResumerOk(RowOf(s, s.resumers[r].target), OutputsOf(s, s.resumers[r].target), s.resumers[r]);
  }

  /** If no write of the fetched period was read in another one, the winner resumes what the parent had
      saved in the fetched period, with at most the head replaced by a finished child's output, and
      certainly replaced if the winner wrote.  If it wins the period that it fetched, this is what the
      parent saved in the period that ends. */
  lemma WinnerResumesTheSavedData(s: State, r: ResumerId)
    requires Reachable(s) && Wins(s, r)
    requires s.resumers[r].pc.resume.seen.Some? && s.resumers[r].pc.resume.clean
    ensures var s', id, resume := Apply(s, Advance(r)), s.resumers[r].target, s.resumers[r].pc.resume;
      && id in s'.rows && s'.rows[id].data == resume.data
      && Fits(resume.saved, s'.rows[id].data, OutputsOf(s, id))
      && (resume.seen == resume.wrote ==> HasHeadOf(s'.rows[id].data, OutputsOf(s, id)))
      && (resume.seen == Some(s.rows[id].waits) ==> Fits(s.rows[id].saved, s'.rows[id].data, OutputsOf(s, id)))
  {
    ReachableKeeps(s);
    LosingChangesNothing(s, r);
    assert ResumerOk(RowOf(s, s.resumers[r].target), OutputsOf(s, s.resumers[r].target), s.resumers[r]);
  }
}
