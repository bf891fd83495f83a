/** The executions active in one process (packages/cli/src/active-executions.ts).

    A record of the map is a `Segment`: one stretch of an execution between being started or resumed
    and settling its post-execution promise.  Resuming replaces the record of the previous segment,
    whose clean-up callback may still be queued.  `add` waits twice for other parties, so it is
    modelled as two atomic parts: `Reserve`, and `CompleteAdd` once the database has answered. */
module ActiveExecutions {
  import opened Collections
  import opened Wrappers

  type ExecutionId = string
  type Time = int
  type PromiseId = nat

  datatype Status = New | Running | Waiting | Ended(name: string)

  /** The two limited queues of the concurrency control; other modes are unlimited. */
  datatype Queue = Production | Evaluation

  datatype Phase = Open | Settled | Cleaned

  class Reservation {
    const queue: Option<Queue>
    var acquired: bool

    constructor (queue: Option<Queue>)
      ensures this.queue == queue && acquired
    {
      this.queue, acquired := queue, true;
    }
  }

  class Segment {
    const executionId: ExecutionId
    const startedAt: Time
    const reservation: Reservation
    var status: Status
    var responsePromise: Option<PromiseId>
    var attached: bool
    var cancelRequested: bool
    /** Open until the post-execution promise settles; then its callback is queued until it ran. */
    var phase: Phase

    constructor (executionId: ExecutionId, startedAt: Time, reservation: Reservation, status: Status,
                 responsePromise: Option<PromiseId>)
      ensures this.executionId == executionId && this.startedAt == startedAt && this.reservation == reservation
      ensures this.status == status && this.responsePromise == responsePromise
      ensures !attached && !cancelRequested && phase == Open
    {
      this.executionId, this.startedAt, this.reservation := executionId, startedAt, reservation;
      this.status, this.responsePromise := status, responsePromise;
      attached, cancelRequested, phase := false, false, Open;
    }
  }

  /** What a cancelling shutdown starts from. */
  datatype Tally = Tally(
    rejected: seq<PromiseId>,
    modes: map<ExecutionId, string>,
    promises: map<ExecutionId, Option<PromiseId>>,
    waiting: set<ExecutionId>)

  class ActiveExecutions {
    var active: map<ExecutionId, Segment>
    var responseModes: map<ExecutionId, string>
    /** Settled segments whose `.finally` callback has not run yet. */
    var pending: seq<Segment>
    /** The concurrency control: capacity in use per queue, and whether it still counts. */
    var heldProduction: int
    var heldEvaluation: int
    var enabled: bool
    /** Response promises rejected so far. */
    var rejected: seq<PromiseId>

    /** Calls of `add` that are past `reserve` and have neither failed nor installed a record. */
    ghost var adders: set<Reservation>
    /** Every reservation ever made. */
    ghost var reservations: set<Reservation>
    /** Every segment ever installed. */
    ghost var segments: set<Segment>
    /** When each id last entered the map without replacing a record. */
    ghost var entered: map<ExecutionId, Time>
    /** Segments that a resume replaced while their status was `Waiting`. */
    ghost var replacedWaiting: set<Segment>

    ghost predicate RecordsOk()
      reads this`active, this`segments, this`entered
    {
      && (forall id | id in active :: active[id] in segments && active[id].executionId == id)
      && (forall id | id in active :: id in entered && active[id].startedAt == entered[id])
    }

    ghost predicate QueueOk()
      reads this`pending, this`segments, segments`phase
    {
      && Distinct(pending)
      && (forall s | s in pending :: s in segments && s.phase == Settled)
      && (forall s | s in segments && s.phase == Settled :: s in pending)
    }

    ghost predicate ReservationsOk()
      reads this`segments, this`adders, this`reservations, segments`phase, reservations
    {
      && adders <= reservations && (forall s | s in segments :: s.reservation in reservations)
      && (forall r | r in adders :: r.acquired)
      && (forall s | s in segments :: s.reservation.acquired <==> s.phase != Cleaned)
      && (forall s | s in segments :: s.reservation !in adders)
      && (forall s, u | s in segments && u in segments && s != u :: s.reservation != u.reservation)
    }

    ghost function AddersOn(q: Queue): set<Reservation>
      reads this`adders
    {
      set r | r in adders && r.queue == Some(q)
    }

    ghost function SegmentsOn(q: Queue): set<Segment>
      reads this`segments, segments`phase
    {
      set s | s in segments && s.phase != Cleaned && s.reservation.queue == Some(q)
    }

    function Held(q: Queue): int
      reads this`heldProduction, this`heldEvaluation
    {
      if q == Production then heldProduction else heldEvaluation
    }

    /** Capacity conservation: what is held is what the calls past `reserve` and the segments not yet
        cleaned up hold, whether or not their records are still in the map. */
    ghost predicate CapacityOk()
      reads this`adders, this`segments, this`enabled, this`heldProduction, this`heldEvaluation, segments`phase
    {
      enabled ==> forall q :: Held(q) == |AddersOn(q)| + |SegmentsOn(q)|
    }

    ghost predicate ReplacedOk()
      reads this`active, this`segments, this`replacedWaiting, segments`status
    {
      replacedWaiting <= segments && forall s | s in replacedWaiting :: s.status == Waiting && !IsCurrent(s)
    }

    ghost predicate Valid()
      reads this`active, this`pending, this`heldProduction, this`heldEvaluation, this`enabled
      reads this`adders, this`reservations, this`segments, this`entered, this`replacedWaiting
      reads segments`phase, segments`status, reservations
    {
      RecordsOk() && QueueOk() && ReservationsOk() && CapacityOk() && ReplacedOk()
    }

    ghost predicate IsCurrent(s: Segment)
      reads this`active
    {
      s.executionId in active && active[s.executionId] == s
    }

    /** Every record that is not waiting is unsettled or has its callback queued. */
    ghost predicate Live()
      reads this`active, this`segments, segments`phase, segments`status
    {
      forall id | id in active && active[id] in segments :: active[id].status == Waiting || active[id].phase != Cleaned
    }

    /** Unsettled and no longer in the map: nothing can settle such a segment any more. */
    ghost predicate IsStranded(s: Segment)
      reads this`active, this`segments, s`phase
    {
      s in segments && s.phase == Open && !IsCurrent(s)
    }

    /** Stranded segments stay stranded. */
    twostate predicate StrandedStay()
      reads this`active, this`segments, segments`phase
    {
      forall s | s in old(segments) && s in segments :: old(IsStranded(s)) ==> IsStranded(s)
    }

    /** Exactly the segments in `lost` are stranded anew. */
    twostate predicate Strands(lost: set<Segment>)
      reads this`active, this`segments, segments`phase
    {
      forall s | s in old(segments) && s in segments :: IsStranded(s) <==> old(IsStranded(s)) || s in lost
    }

    /** The record of `id`, if its promise is open. */
    ghost function OpenRecord(id: ExecutionId): set<Segment>
      reads this`active, (if id in active then {active[id]} else {})`phase
    {
      if id in active && active[id].phase == Open then {active[id]} else {}
    }

    /** The open records among `ids`. */
    ghost function OpenRecords(ids: set<ExecutionId>): set<Segment>
      reads this`active, (set id | id in active :: active[id])`phase
    {
      set id | id in active && id in ids && active[id].phase == Open :: active[id]
    }

    twostate predicate NoneStranded()
      reads this`active, this`segments, segments`phase
    {
      forall s | s in old(segments) && s in segments :: IsStranded(s) <==> old(IsStranded(s))
    }

    constructor ()
      ensures Valid() && Live()
      ensures active == map[] && pending == [] && adders == {} && segments == {}
      ensures enabled && heldProduction == heldEvaluation == 0
    {
      active, responseModes, pending, rejected := map[], map[], [], [];
      heldProduction, heldEvaluation, enabled := 0, 0, true;
      adders, reservations, segments, entered, replacedWaiting := {}, {}, {}, map[], {};
    }

    // ----- The concurrency control -----

    /** The capacity in use on `queue` has changed by `n`, and no other. */
    twostate predicate CountsBy(new queue: Option<Queue>, n: int)
      reads this
    {
      forall q :: Held(q) == old(Held(q)) + (if queue == Some(q) then n else 0)
    }

    method Count(queue: Option<Queue>, n: int)
      modifies this`heldProduction, this`heldEvaluation
      ensures CountsBy(queue, n)
    {
      if queue == Some(Production) { heldProduction := heldProduction + n; }
      if queue == Some(Evaluation) { heldEvaluation := heldEvaluation + n; }
    }

    // ----- add -----

    /** The first part of `add`: reserve capacity. */
    method Reserve(queue: Option<Queue>) returns (r: Reservation)
      requires Valid()
      modifies this`heldProduction, this`heldEvaluation, this`adders, this`reservations
      ensures Valid() && (old(Live()) ==> Live()) && NoneStranded()
      ensures fresh(r) && r.queue == queue && adders == old(adders) + {r}
      ensures CountsBy(queue, if enabled then 1 else 0)
    {
      r := new Reservation(queue);
      if enabled { Count(queue, 1); }
      adders := adders + {r};
      reservations := reservations + {r};
      ReserveKeepsValid(r);
    }

    twostate lemma ReserveKeepsValid(new r: Reservation)
      requires old(Valid()) && r !in old(adders) && adders == old(adders) + {r}
      requires r.acquired && reservations == old(reservations) + {r}
      requires forall u | u in old(segments) :: u.reservation != r && unchanged(u) && unchanged(u.reservation)
      requires forall u | u in old(adders) :: unchanged(u)
      requires active == old(active) && segments == old(segments) && pending == old(pending) && enabled == old(enabled)
      requires entered == old(entered) && replacedWaiting == old(replacedWaiting)
      requires CountsBy(r.queue, if enabled then 1 else 0)
      ensures Valid()
    {
      AddersGrow(r);
      SegmentsStay();
    }

    /** `capacityReservation.release()`: nothing unless it is holding, and once only. */
    method Release(r: Reservation)
      modifies r, this`heldProduction, this`heldEvaluation
      ensures !r.acquired
      ensures CountsBy(r.queue, if old(r.acquired) && enabled then -1 else 0)
    {
      if !r.acquired { return; }
      if enabled { Count(r.queue, -1); }
      r.acquired := false;
    }

    /** The second part of `add`, with the database's answer: for an existing execution whether the
        row was still waiting, for a new one whether its row could be set running.  `None` stands for
        the error that `add` throws.  A record that is replaced while its promise is open is stranded,
        waiting or not. */
    method CompleteAdd(r: Reservation, id: ExecutionId, dbOk: bool, now: Time) returns (added: Option<Segment>)
      requires Valid() && r in adders
      modifies this`active, this`heldProduction, this`heldEvaluation, this`adders, this`segments
      modifies this`entered, this`replacedWaiting, r
      ensures Valid() && (old(Live()) ==> Live())
      ensures added.Some? == dbOk && adders == old(adders) - {r}
      ensures Strands(if dbOk then old(OpenRecord(id)) else {})
      ensures !dbOk ==> Lost(r)
      ensures dbOk ==> fresh(added.value) && Installed(r, id, now, added.value)
    {
      if !dbOk {
        LoseAdd(r);
        return None;
      }
      var s := Install(r, id, now);
      return Some(s);
    }

    /** Losing leaves the map and every record as they were and gives the capacity back. */
    twostate predicate Lost(r: Reservation)
      reads this, segments, r
    {
      && active == old(active) && segments == old(segments) && !r.acquired
      && CountsBy(r.queue, if enabled then -1 else 0)
    }

    method LoseAdd(r: Reservation)
      requires Valid() && r in adders
      modifies this`heldProduction, this`heldEvaluation, this`adders, r
      ensures Valid() && (old(Live()) ==> Live()) && NoneStranded()
      ensures adders == old(adders) - {r} && Lost(r)
    {
      adders := adders - {r};
      AddersShrink(r);
      Release(r);
      SegmentsStay();
    }

    /** The new record takes over start time and response promise of the record it replaces. */
    twostate predicate Installed(r: Reservation, new id: ExecutionId, new now: Time, new s: Segment)
      reads this, r, s
    {
      && active == old(active)[id := s] && segments == old(segments) + {s} && CountsBy(None, 0)
      && s.executionId == id && s.reservation == r && r.acquired && s.status == Running && s.phase == Open
      && !s.attached && !s.cancelRequested
      && (id in old(active) ==>
            && s.startedAt == old(active[id].startedAt)
            && s.responsePromise == old(active[id].responsePromise)
            && entered == old(entered))
      && (id !in old(active) ==> s.startedAt == now && s.responsePromise == None && entered == old(entered)[id := now])
      && replacedWaiting
         == old(replacedWaiting + if id in active && active[id].status == Waiting then {active[id]} else {})
    }

    method Install(r: Reservation, id: ExecutionId, now: Time) returns (s: Segment)
      requires Valid() && r in adders
      modifies this`active, this`adders, this`segments, this`entered, this`replacedWaiting
      ensures Valid() && (old(Live()) ==> Live())
      ensures adders == old(adders) - {r} && fresh(s) && Installed(r, id, now, s) && Strands(old(OpenRecord(id)))
    {
      var startedAt := if id in active then active[id].startedAt else now;
      var responsePromise := if id in active then active[id].responsePromise else None;
      s := new Segment(id, startedAt, r, Running, responsePromise);
      Replace(id, s, now);
      adders := adders - {r};
      InstallKeepsRecords(r, id, now, s);
      InstallKeepsCapacity(r, id, now, s);
    }

    method Replace(id: ExecutionId, s: Segment, ghost now: Time)
      modifies this`active, this`segments, this`entered, this`replacedWaiting
      ensures active == old(active)[id := s] && segments == old(segments) + {s}
      ensures entered == if id in old(active) then old(entered) else old(entered)[id := now]
      ensures replacedWaiting
           == old(replacedWaiting + if id in active && active[id].status == Waiting then {active[id]} else {})
    {
      if id !in active {
        entered := entered[id := now];
      } else if active[id].status == Waiting {
        replacedWaiting := replacedWaiting + {active[id]};
      }
      active := active[id := s];
      segments := segments + {s};
    }

    twostate lemma InstallKeepsRecords(r: Reservation, new id: ExecutionId, new now: Time, new s: Segment)
      requires old(Valid()) && s !in old(segments) && Installed(r, id, now, s)
      requires forall u | u in old(segments) :: unchanged(u)
      ensures RecordsOk() && ReplacedOk() && (old(Live()) ==> Live()) && Strands(old(OpenRecord(id)))
    {
    }

    twostate lemma InstallKeepsCapacity(r: Reservation, new id: ExecutionId, new now: Time, new s: Segment)
      requires old(Valid()) && s !in old(segments) && Installed(r, id, now, s)
      requires r in old(adders) && adders == old(adders) - {r}
      requires forall u | u in old(segments) :: unchanged(u) && unchanged(u.reservation)
      requires forall u | u in adders :: unchanged(u)
      requires pending == old(pending) && enabled == old(enabled) && reservations == old(reservations)
      ensures QueueOk() && ReservationsOk() && CapacityOk()
    {
      AddersShrink(r);
      SegmentsGrow(s);
    }

    // ----- Counting holders -----

    twostate lemma AddersGrow(new r: Reservation)
      requires r !in old(adders) && adders == old(adders) + {r}
      ensures forall q :: |AddersOn(q)| == |old(AddersOn(q))| + (if r.queue == Some(q) then 1 else 0)
    {
      forall q ensures |AddersOn(q)| == |old(AddersOn(q))| + (if r.queue == Some(q) then 1 else 0) {
        assert AddersOn(q) == old(AddersOn(q)) + (if r.queue == Some(q) then {r} else {});
      }
    }

    twostate lemma AddersShrink(r: Reservation)
      requires r in old(adders) && adders == old(adders) - {r}
      ensures forall q :: |AddersOn(q)| == |old(AddersOn(q))| - (if r.queue == Some(q) then 1 else 0)
    {
      forall q ensures |AddersOn(q)| == |old(AddersOn(q))| - (if r.queue == Some(q) then 1 else 0) {
        assert old(AddersOn(q)) == AddersOn(q) + (if r.queue == Some(q) then {r} else {});
      }
    }

    twostate lemma SegmentsStay()
      requires segments == old(segments)
      requires forall s | s in segments :: s.phase == Cleaned <==> old(s.phase) == Cleaned
      ensures forall q :: SegmentsOn(q) == old(SegmentsOn(q))
    {
      forall q ensures SegmentsOn(q) == old(SegmentsOn(q)) { }
    }

    twostate lemma SegmentsGrow(new s: Segment)
      requires s !in old(segments) && segments == old(segments) + {s} && s.phase != Cleaned
      requires forall u | u in old(segments) :: u.phase == old(u.phase)
      ensures forall q :: |SegmentsOn(q)| == |old(SegmentsOn(q))| + (if s.reservation.queue == Some(q) then 1 else 0)
    {
      forall q ensures |SegmentsOn(q)| == |old(SegmentsOn(q))| + (if s.reservation.queue == Some(q) then 1 else 0) {
        assert SegmentsOn(q) == old(SegmentsOn(q)) + (if s.reservation.queue == Some(q) then {s} else {});
      }
    }

    twostate lemma SegmentsShrink(s: Segment)
      requires segments == old(segments) && s in segments && old(s.phase) != Cleaned && s.phase == Cleaned
      requires forall u | u in segments && u != s :: u.phase == old(u.phase)
      ensures forall q :: |SegmentsOn(q)| == |old(SegmentsOn(q))| - (if s.reservation.queue == Some(q) then 1 else 0)
    {
      forall q ensures |SegmentsOn(q)| == |old(SegmentsOn(q))| - (if s.reservation.queue == Some(q) then 1 else 0) {
        assert old(SegmentsOn(q)) == SegmentsOn(q) + (if s.reservation.queue == Some(q) then {s} else {});
      }
    }

    // ----- Updates of the current record -----

    /** `false` stands for the not-found error. */
    method AttachWorkflowExecution(id: ExecutionId) returns (found: bool)
      requires Valid()
      modifies (if id in active then {active[id]} else {})`attached
      ensures Valid() && (old(Live()) ==> Live()) && NoneStranded()
      ensures found == (id in active) && (found ==> active[id].attached)
    {
      found := id in active;
      if found { active[id].attached := true; }
    }

    method AttachResponsePromise(id: ExecutionId, p: PromiseId) returns (found: bool)
      requires Valid()
      modifies (if id in active then {active[id]} else {})`responsePromise
      ensures Valid() && (old(Live()) ==> Live()) && NoneStranded()
      ensures found == (id in active) && (found ==> active[id].responsePromise == Some(p))
    {
      found := id in active;
      if found { active[id].responsePromise := Some(p); }
    }

    /** Reaches the current record only; a replaced segment keeps the status it had.  The record stays
        live exactly when it is put to wait or was not cleaned up. */
    method SetStatus(id: ExecutionId, status: Status) returns (found: bool)
      requires Valid()
      modifies (if id in active then {active[id]} else {})`status
      ensures Valid() && NoneStranded()
      ensures found == (id in active) && (found ==> active[id].status == status)
      ensures old(Live()) ==> (Live() <==> found ==> status == Waiting || active[id].phase != Cleaned)
    {
      found := id in active;
      if found { active[id].status := status; }
    }

    /** Called with an id, by whichever segment has ended: that segment's promise settles exactly if its
        record is still the current one, and otherwise the promise of the newer record does. */
    method FinalizeExecution(id: ExecutionId)
      requires Valid()
      modifies this`pending, (if id in active then {active[id]} else {})`phase
      ensures Valid() && (old(Live()) ==> Live()) && NoneStranded()
      ensures id in active ==>
        active[id].phase == if old(active[id].phase) == Open then Settled else old(active[id].phase)
      ensures pending == old(pending) + (if id in active && old(active[id].phase) == Open then [active[id]] else [])
      ensures forall s | s in segments && s.executionId == id && old(s.phase) == Open ::
        s.phase == Settled <==> IsCurrent(s)
    {
      if id in active { Settle(active[id]); }
    }

    /** Settling a promise a second time has no effect. */
    method Settle(s: Segment)
      requires Valid() && IsCurrent(s)
      modifies this`pending, s`phase
      ensures Valid() && (old(Live()) ==> Live()) && NoneStranded()
      ensures s.phase == if old(s.phase) == Open then Settled else old(s.phase)
      ensures pending == old(pending) + (if old(s.phase) == Open then [s] else [])
    {
      if s.phase == Open {
        s.phase := Settled;
        pending := pending + [s];
        SegmentsStay();
      }
    }

    /** A waiting record is deleted at once: if its promise was still open, the segment is stranded
        and keeps its capacity for good.  Any other record is cancelled and settled. */
    method StopExecution(id: ExecutionId)
      requires Valid()
      modifies this`active, this`responseModes, this`pending, this`rejected
      modifies (if id in active then {active[id]} else {})`phase
      modifies (if id in active then {active[id]} else {})`cancelRequested
      ensures Valid() && (old(Live()) ==> Live())
      ensures id !in old(active) ==> Unchanged() && rejected == old(rejected)
      ensures id in old(active) ==>
        var s := old(active)[id];
        && rejected == old(rejected) + (if s.responsePromise.Some? then [s.responsePromise.value] else [])
        && if s.status == Waiting then Deleted(id, s) else Cancelled(s)
    {
      if id !in active { return; }
      var s := active[id];
      RejectResponse(s);
      if s.status == Waiting {
        DeleteWaiting(id);
      } else {
        Cancel(s);
      }
    }

    method RejectResponse(s: Segment)
      modifies this`rejected
      ensures rejected == old(rejected) + (if s.responsePromise.Some? then [s.responsePromise.value] else [])
    {
      if s.responsePromise.Some? { rejected := rejected + [s.responsePromise.value]; }
    }

    twostate predicate Unchanged()
      reads this, segments
    {
      && active == old(active) && responseModes == old(responseModes)
      && pending == old(pending) && NoneStranded()
    }

    twostate predicate Deleted(id: ExecutionId, s: Segment)
      reads this, segments, s
    {
      && active == old(active) - {id} && responseModes == old(responseModes) - {id} && pending == old(pending)
      && s.phase == old(s.phase) && s.cancelRequested == old(s.cancelRequested)
      && forall u | u in old(segments) && u in segments ::
           IsStranded(u) <==> (old(IsStranded(u)) || (u == s && s.phase == Open))
    }

    twostate predicate Cancelled(s: Segment)
      reads this, segments, s
    {
      && active == old(active) && responseModes == old(responseModes) && NoneStranded()
      && s.cancelRequested == (old(s.cancelRequested) || s.attached)
      && s.phase == (if old(s.phase) == Open then Settled else old(s.phase))
      && pending == old(pending) + (if old(s.phase) == Open then [s] else [])
    }

    method DeleteWaiting(id: ExecutionId)
      requires Valid() && id in active && active[id].status == Waiting
      modifies this`active, this`responseModes
      ensures Valid() && (old(Live()) ==> Live()) && Deleted(id, old(active)[id])
    {
      active := active - {id};
      responseModes := responseModes - {id};
    }

    method Cancel(s: Segment)
      requires Valid() && IsCurrent(s)
      modifies this`pending, s`phase, s`cancelRequested
      ensures Valid() && (old(Live()) ==> Live()) && Cancelled(s)
    {
      if s.attached { s.cancelRequested := true; }
      Settle(s);
    }

    ghost function StrandedOn(q: Queue): set<Segment>
      reads this`active, this`segments, segments`phase
    {
      set s | s in segments && IsStranded(s) && s.reservation.queue == Some(q)
    }

    /** Once everything that can settle has settled and been cleaned up, the capacity still held is that
        of the calls of `add` under way and of the stranded segments. */
    lemma IdleCapacityIsStranded(q: Queue)
      requires Valid() && enabled && pending == []
      requires forall id | id in active :: active[id].phase != Open
      ensures Held(q) == |AddersOn(q)| + |StrandedOn(q)|
    {
      assert SegmentsOn(q) == StrandedOn(q);
    }

    // ----- The queued callbacks -----

    /** The records left after the given callbacks: each removes whatever record its execution has,
        unless its own segment is waiting. */
    ghost function AfterCallbacks(records: map<ExecutionId, Segment>, callbacks: seq<Segment>)
      : map<ExecutionId, Segment>
      reads (set s | s in callbacks)`status
    {
      map id | id in records && !(exists s | s in callbacks :: s.executionId == id && s.status != Waiting)
        :: records[id]
    }

    /** The first queued callback: the capacity goes back, then the record is removed unless this
        segment is waiting.  A segment that a resume replaced while it was waiting removes nothing; one
        that was replaced in another status removes the newer record, and strands it if it is open. */
    method RunCallback()
      requires Valid() && pending != []
      modifies this`pending, this`active, this`responseModes, this`heldProduction, this`heldEvaluation
      modifies {pending[0]}`phase, {pending[0]}`attached, pending[0].reservation
      ensures Valid() && (old(Live()) ==> Live())
      ensures Strands(old(if pending[0].status == Waiting then {} else OpenRecord(pending[0].executionId)))
      ensures pending == old(pending[1..]) && CallbackRan(old(pending[0]))
    {
      var s := pending[0];
      pending := pending[1..];
      CleanUp(s);
      CallbackKeepsCapacity(s);
      CallbackKeepsRecords(s);
    }

    /** The body of the callback. */
    method CleanUp(s: Segment)
      requires s.reservation.acquired && (s in replacedWaiting ==> s.status == Waiting)
      modifies this`active, this`responseModes, this`heldProduction, this`heldEvaluation
      modifies s`phase, s`attached, s.reservation
      ensures CallbackRan(s)
    {
      Release(s.reservation);
      if s.status == Waiting {
        s.attached := false;
      } else {
        active := active - {s.executionId};
        responseModes := responseModes - {s.executionId};
      }
      s.phase := Cleaned;
    }

    twostate predicate CallbackRan(s: Segment)
      reads this, s, s.reservation
    {
      && s.phase == Cleaned && !s.reservation.acquired
      && CountsBy(s.reservation.queue, if enabled then -1 else 0)
      && (s.status == Waiting ==> active == old(active) && responseModes == old(responseModes) && !s.attached)
      && (s.status != Waiting ==>
            active == old(active) - {s.executionId} && responseModes == old(responseModes) - {s.executionId})
      && (s in replacedWaiting ==> active == old(active))
    }

    twostate lemma CallbackKeepsCapacity(s: Segment)
      requires old(Valid()) && s in old(pending) && s == old(pending[0]) && pending == old(pending[1..])
      requires s.phase == Cleaned && !s.reservation.acquired && CountsBy(s.reservation.queue, if enabled then -1 else 0)
      requires segments == old(segments) && adders == old(adders) && enabled == old(enabled)
      requires reservations == old(reservations)
      requires forall u | u in segments && u != s :: u.phase == old(u.phase) && unchanged(u.reservation)
      requires forall r | r in adders :: unchanged(r)
      ensures QueueOk() && ReservationsOk() && CapacityOk()
    {
      SegmentsShrink(s);
    }

    twostate lemma CallbackKeepsRecords(s: Segment)
      requires old(Valid()) && s in segments && segments == old(segments)
      requires entered == old(entered) && replacedWaiting == old(replacedWaiting)
      requires active == if s.status == Waiting then old(active) else old(active) - {s.executionId}
      requires s.phase == Cleaned && old(s.phase) == Settled
      requires forall u | u in segments && u != s :: u.phase == old(u.phase)
      requires forall u | u in segments :: u.status == old(u.status)
      ensures RecordsOk() && ReplacedOk() && (old(Live()) ==> Live())
      ensures Strands(old(if s.status == Waiting then {} else OpenRecord(s.executionId)))
    {
    }

    lemma AfterTheFirst(records: map<ExecutionId, Segment>, callbacks: seq<Segment>)
      requires callbacks != []
      ensures AfterCallbacks(records, callbacks)
           == AfterCallbacks(if callbacks[0].status == Waiting then records else records - {callbacks[0].executionId},
                             callbacks[1..])
    {
      assert forall u :: u in callbacks <==> u == callbacks[0] || u in callbacks[1..];
    }

    /** One callback; the records that will be left in the end stay the same. */
    method RunNext(ghost left: map<ExecutionId, Segment>)
      requires Valid() && pending != [] && AfterCallbacks(active, pending) == left
      modifies this`pending, this`active, this`responseModes, this`heldProduction, this`heldEvaluation
      modifies {pending[0]}`phase, {pending[0]}`attached, pending[0].reservation
      ensures Valid() && (old(Live()) ==> Live()) && StrandedStay()
      ensures pending == old(pending[1..]) && AfterCallbacks(active, pending) == left
      ensures old(pending[0]).phase == Cleaned
    {
      AfterTheFirst(active, pending);
      RunCallback();
    }

    /** Every callback that is queued. */
    method RunCallbacks()
      requires Valid()
      modifies this`pending, this`active, this`responseModes, this`heldProduction, this`heldEvaluation
      modifies segments`phase, segments`attached, reservations
      ensures Valid() && (old(Live()) ==> Live()) && StrandedStay()
      ensures Strands(old(OpenRecords(active.Keys - AfterCallbacks(active, pending).Keys)))
      ensures pending == [] && active == old(AfterCallbacks(active, pending))
      ensures forall s | s in segments :: s.phase == if old(s.phase) == Settled then Cleaned else old(s.phase)
    {
      ghost var left := AfterCallbacks(active, pending);
      while pending != []
        invariant Valid() && (old(Live()) ==> Live()) && StrandedStay()
        invariant AfterCallbacks(active, pending) == left
        invariant forall s | s in segments ::
          if old(s.phase) == Settled then s.phase != Open else s.phase == old(s.phase)
        decreases |pending|
      {
        RunNext(left);
      }
    }

    // ----- Shutdown -----

    /** What is left of `records` are those in `ids` and those whose status is in neither of the
        two statuses that do not block a shutdown. */
    ghost predicate Left(records: map<ExecutionId, Segment>, ids: set<ExecutionId>, dropNew: bool)
      reads this`active, (set id | id in records :: records[id])`status
    {
      && (forall id | id in active :: id in records && active[id] == records[id])
      && (forall id | id in records :: id in active <==>
            id in ids || !(records[id].status == Waiting || (dropNew && records[id].status == New)))
    }

    /** The ids whose records do not block a shutdown. */
    ghost function Idle(dropNew: bool): set<ExecutionId>
      reads this`active, (set id | id in active :: active[id])`status
    {
      set id | id in active && (active[id].status == Waiting || (dropNew && active[id].status == New))
    }

    /** Shutdown up to its wait loop.  Cancelling keeps the records that are not waiting, all settled;
        otherwise exactly the records neither waiting nor new remain, and nothing else changes.  The open
        records among those dropped are stranded.  Cancelling visits every record once, in the order
        `visited`: it rejects its response promise, if it has one, asks the workflow of one that is not
        waiting to stop, and forgets the response mode of a waiting one. */
    method Shutdown(isRegularMode: bool, cancelAll: bool) returns (ghost visited: seq<ExecutionId>)
      requires Valid()
      modifies this`active, this`responseModes, this`pending, this`rejected, this`enabled
      modifies segments`phase, segments`cancelRequested
      ensures Valid() && (old(Live()) ==> Live())
      ensures Strands(old(OpenRecords(Idle(!(isRegularMode && cancelAll)))))
      ensures enabled == (old(enabled) && !isRegularMode)
      ensures isRegularMode && cancelAll ==>
        Left(old(active), {}, false) && NoneOpenBut({}) && Visits(visited, old(active.Keys)) && EachCancelled(visited)
      ensures !(isRegularMode && cancelAll) ==>
        && Left(old(active), {}, true) && pending == old(pending) && responseModes == old(responseModes)
        && rejected == old(rejected) && unchanged(segments)
    {
      visited := [];
      if isRegularMode && cancelAll {
        visited := DisableAndCancelAll();
      } else {
        DisableAndDropIdle(isRegularMode);
      }
    }

    /** `order` lists `ids`, each once. */
    ghost predicate Visits(order: seq<ExecutionId>, ids: set<ExecutionId>) {
      Distinct(order) && forall id :: id in order <==> id in ids
    }

    ghost function ResponsePromises(): map<ExecutionId, Option<PromiseId>>
      reads this`active, (set id | id in active :: active[id])`responsePromise
    {
      map id | id in active :: active[id].responsePromise
    }

    /** The response promises there are, in the order of the visits. */
    ghost function Responses(promises: map<ExecutionId, Option<PromiseId>>, order: seq<ExecutionId>): seq<PromiseId> {
      if order == [] then []
      else
        var id := order[|order| - 1];
        Responses(promises, order[..|order| - 1])
        + (if id in promises && promises[id].Some? then [promises[id].value] else [])
    }

    twostate predicate EachCancelled(new visited: seq<ExecutionId>)
      reads this`rejected, this`responseModes, this`segments, segments`cancelRequested
    {
      && rejected == old(rejected) + Responses(old(ResponsePromises()), visited)
      && responseModes == old(responseModes) - old(Idle(false))
      && forall s | s in old(segments) && s in segments ::
           s.cancelRequested == (old(s.cancelRequested) || s in old(Cancellable()))
    }

    /** The segments whose workflow a stop reaches. */
    ghost function Cancellable(): set<Segment>
      reads this`active, this`segments, segments`status, segments`attached
    {
      set s | s in segments && IsCurrent(s) && s.status != Waiting && s.attached
    }

    method DisableAndCancelAll() returns (ghost visited: seq<ExecutionId>)
      requires Valid()
      modifies this`active, this`responseModes, this`pending, this`rejected, this`enabled
      modifies segments`phase, segments`cancelRequested
      ensures Valid() && (old(Live()) ==> Live()) && !enabled
      ensures Left(old(active), {}, false) && NoneOpenBut({}) && Strands(old(OpenRecords(Idle(false))))
      ensures Visits(visited, old(active.Keys)) && EachCancelled(visited)
    {
      Disable();
      visited := CancelAll();
    }

    method CancelAll() returns (ghost visited: seq<ExecutionId>)
      requires Valid()
      modifies this`active, this`responseModes, this`pending, this`rejected
      modifies segments`phase, segments`cancelRequested
      ensures Valid() && (old(Live()) ==> Live())
      ensures Left(old(active), {}, false) && NoneOpenBut({}) && Strands(old(OpenRecords(Idle(false))))
      ensures Visits(visited, old(active.Keys)) && EachCancelled(visited)
    {
      visited := CancelRecords();
      assert Strands(old(OpenRecords(Idle(false)))) by { DroppedAreStranded(false); }
      assert EachCancelled(visited) by { VisitedAreCancelled(visited); }
    }

    twostate predicate SameRecords()
      reads this`segments, segments`status, segments`attached
    {
      && segments == old(segments)
      && forall s | s in segments :: s.status == old(s.status) && s.attached == old(s.attached)
    }

    method CancelRecords() returns (ghost visited: seq<ExecutionId>)
      requires Valid()
      modifies this`active, this`responseModes, this`pending, this`rejected
      modifies segments`phase, segments`cancelRequested
      ensures Valid() && (old(Live()) ==> Live()) && Visits(visited, old(active.Keys)) && SameRecords()
      ensures Left(old(active), {}, false) && NoneOpenBut({})
      ensures OnlyRecordsSettled(old(Phases())) && RequestedOutside(old(Requests()), old(active), {})
      ensures Tallied(old(Tally(rejected, responseModes, ResponsePromises(), Idle(false))), visited)
    {
      ghost var before := Tally(rejected, responseModes, ResponsePromises(), Idle(false));
      ReadyToCancel();
      visited := CancelEach(active, Phases(), Requests(), before);
    }

    lemma ReadyToCancel()
      requires RecordsOk()
      ensures Cancelling(active, Phases(), Requests(), active.Keys)
      ensures var before := Tally(rejected, responseModes, ResponsePromises(), Idle(false));
        TakenOf(before, active) && Tallied(before, [])
    {
    }

    twostate lemma VisitedAreCancelled(new visited: seq<ExecutionId>)
      requires old(RecordsOk()) && SameRecords() && RequestedOutside(old(Requests()), old(active), {})
      requires Visits(visited, old(active.Keys))
      requires Tallied(old(Tally(rejected, responseModes, ResponsePromises(), Idle(false))), visited)
      ensures EachCancelled(visited)
    {
      assert (set id | id in visited && id in old(Idle(false))) == old(Idle(false));
      forall s | s in segments ensures IsVisited(s, old(active), {}) <==> old(IsCurrent(s)) {
      }
    }

    method DisableAndDropIdle(isRegularMode: bool)
      requires Valid()
      modifies this`active, this`enabled
      ensures Valid() && (old(Live()) ==> Live()) && enabled == (old(enabled) && !isRegularMode)
      ensures Left(old(active), {}, true) && Strands(old(OpenRecords(Idle(true))))
    {
      if isRegularMode { Disable(); }
      DropIdle();
    }

    /** From now on releasing gives nothing back, so that throttled executions stay throttled. */
    method Disable()
      requires Valid()
      modifies this`enabled
      ensures Valid() && !enabled && Live() == old(Live()) && NoneStranded()
      ensures Idle(false) == old(Idle(false)) && OpenRecords(Idle(false)) == old(OpenRecords(Idle(false)))
      ensures ResponsePromises() == old(ResponsePromises()) && Cancellable() == old(Cancellable())
    {
      enabled := false;
    }

    ghost function Phases(): map<Segment, Phase>
      reads this`segments, segments`phase
    {
      map s | s in segments :: s.phase
    }

    /** Whatever has settled since `phases` still has its record, and is not waiting. */
    ghost predicate OnlyRecordsSettled(phases: map<Segment, Phase>)
      reads this`active, this`segments, segments`phase, segments`status
    {
      phases.Keys == segments
      && forall s | s in segments :: s.phase == phases[s] || (IsCurrent(s) && s.status != Waiting)
    }

    twostate lemma DroppedAreStranded(new dropNew: bool)
      requires old(RecordsOk()) && SameRecords() && OnlyRecordsSettled(old(Phases())) && Left(old(active), {}, dropNew)
      ensures Strands(old(OpenRecords(Idle(dropNew))))
    {
      forall s | s in segments ensures IsStranded(s) <==> old(IsStranded(s)) || s in old(OpenRecords(Idle(dropNew))) {
        if old(IsCurrent(s)) {
          assert old(active)[s.executionId] == s;
        }
      }
    }

    ghost function Requests(): map<Segment, bool>
      reads this`segments, segments`cancelRequested
    {
      map s | s in segments :: s.cancelRequested
    }

    /** Since `requests`, the workflows of the records outside `ids` that are not waiting were asked to stop,
        and no others. */
    ghost predicate RequestedOutside(requests: map<Segment, bool>, records: map<ExecutionId, Segment>,
                                     ids: set<ExecutionId>)
      reads this`segments, segments`cancelRequested, segments`status, segments`attached
    {
      && requests.Keys == segments
      && forall s | s in segments ::
           s.cancelRequested == (requests[s] || (IsVisited(s, records, ids) && s.status != Waiting && s.attached))
    }

    ghost predicate IsVisited(s: Segment, records: map<ExecutionId, Segment>, ids: set<ExecutionId>) {
      s.executionId in records && records[s.executionId] == s && s.executionId !in ids
    }

    /** The response promises rejected and the response modes forgotten since `before` are those of the
        records visited. */
    ghost predicate Tallied(before: Tally, visited: seq<ExecutionId>)
      reads this`rejected, this`responseModes
    {
      && rejected == before.rejected + Responses(before.promises, visited)
      && responseModes == before.modes - (set id | id in visited && id in before.waiting)
    }

    ghost predicate NoneOpenBut(ids: set<ExecutionId>)
      reads this`active, (set id | id in active :: active[id])`phase
    {
      forall id | id in active && id !in ids :: active[id].phase != Open
    }

    /** How far the cancelling has come: the records in `ids` are still to be visited. */
    ghost predicate Cancelling(records: map<ExecutionId, Segment>, phases: map<Segment, Phase>,
                               requests: map<Segment, bool>, ids: set<ExecutionId>)
      reads this`active, this`segments, segments`phase, segments`status, segments`cancelRequested, segments`attached
      reads (set id | id in records :: records[id])`status, (set id | id in active :: active[id])`phase
    {
      && (forall id | id in records :: records[id] in segments)
      && Left(records, ids, false) && NoneOpenBut(ids)
      && OnlyRecordsSettled(phases) && RequestedOutside(requests, records, ids)
    }

    /** `before` was taken of the records. */
    ghost predicate TakenOf(before: Tally, records: map<ExecutionId, Segment>)
      reads this`segments, segments`responsePromise, segments`status
    {
      forall id | id in records ::
        && records[id] in segments && id in before.promises && before.promises[id] == records[id].responsePromise
        && (id in before.waiting <==> records[id].status == Waiting)
    }

    /** The loop. */
    method CancelEach(ghost records: map<ExecutionId, Segment>, ghost phases: map<Segment, Phase>,
                      ghost requests: map<Segment, bool>, ghost before: Tally)
      returns (ghost visited: seq<ExecutionId>)
      requires Valid() && active == records && Cancelling(records, phases, requests, active.Keys)
      requires TakenOf(before, records) && Tallied(before, [])
      modifies this`active, this`responseModes, this`pending, this`rejected
      modifies segments`phase, segments`cancelRequested
      ensures Valid() && (old(Live()) ==> Live()) && SameRecords()
      ensures Cancelling(records, phases, requests, {}) && Tallied(before, visited) && Visits(visited, records.Keys)
    {
      hide Valid, Live, Cancelling, Tallied;
      var ids := active.Keys;
      visited := [];
      while ids != {}
        invariant Valid() && (old(Live()) ==> Live()) && ids <= records.Keys && Visits(visited, records.Keys - ids)
        invariant Cancelling(records, phases, requests, ids) && Tallied(before, visited)
      {
        var id :| id in ids;
        assert records[id] in segments && records[id].status == old(records[id].status);
        assert records[id].responsePromise == old(records[id].responsePromise);
        CancelAndTally(records, phases, requests, before, visited, ids, id);
        VisitNext(records.Keys, visited, ids, id);
        ids, visited := ids - {id}, visited + [id];
      }
    }

    lemma VisitNext(all: set<ExecutionId>, visited: seq<ExecutionId>, ids: set<ExecutionId>, id: ExecutionId)
      requires id in ids && ids <= all && Visits(visited, all - ids)
      ensures Visits(visited + [id], all - (ids - {id}))
    {
    }

    lemma TallyNext(before: Tally, visited: seq<ExecutionId>, id: ExecutionId)
      requires id in before.promises
      ensures Responses(before.promises, visited + [id]) == Responses(before.promises, visited) +
        (if before.promises[id].Some? then [before.promises[id].value] else [])
      ensures (set i | i in visited + [id] && i in before.waiting) ==
        (set i | i in visited && i in before.waiting) + (if id in before.waiting then {id} else {})
    {
      var longer := visited + [id];
      assert longer[..|longer| - 1] == visited;
    }

    method CancelAndTally(ghost records: map<ExecutionId, Segment>, ghost phases: map<Segment, Phase>,
                          ghost requests: map<Segment, bool>, ghost before: Tally,
                          ghost visited: seq<ExecutionId>, ghost ids: set<ExecutionId>, id: ExecutionId)
      requires Valid() && id in ids && ids <= records.Keys && Cancelling(records, phases, requests, ids)
      requires id in before.promises && before.promises[id] == records[id].responsePromise
      requires (id in before.waiting <==> records[id].status == Waiting) && Tallied(before, visited)
      modifies this`active, this`responseModes, this`pending, this`rejected
      modifies {records[id]}`phase, {records[id]}`cancelRequested
      ensures Valid() && (old(Live()) ==> Live())
      ensures Cancelling(records, phases, requests, ids - {id}) && Tallied(before, visited + [id])
    {
      CancelNext(records, phases, requests, ids, id);
      StoppedIsTallied(before, visited, id, records[id].status, records[id].responsePromise);
    }

    twostate lemma StoppedIsTallied(before: Tally, new visited: seq<ExecutionId>, new id: ExecutionId,
                                    new status: Status, new promise: Option<PromiseId>)
      requires old(Tallied(before, visited)) && StoppedOne(id, status, promise)
      requires id in before.promises && before.promises[id] == promise && (id in before.waiting <==> status == Waiting)
      ensures Tallied(before, visited + [id])
    {
      TallyNext(before, visited, id);
    }

    method CancelNext(ghost records: map<ExecutionId, Segment>, ghost phases: map<Segment, Phase>,
                      ghost requests: map<Segment, bool>, ghost ids: set<ExecutionId>, id: ExecutionId)
      requires Valid() && id in ids && ids <= records.Keys && Cancelling(records, phases, requests, ids)
      modifies this`active, this`responseModes, this`pending, this`rejected
      modifies {active[id]}`phase, {active[id]}`cancelRequested
      ensures Valid() && (old(Live()) ==> Live())
      ensures Cancelling(records, phases, requests, ids - {id})
      ensures StoppedOne(id, records[id].status, records[id].responsePromise)
    {
      StopNext(id);
      assert Left(records, ids - {id}, false) by { StoppedKeepsLeft(records, ids, id); }
      assert OnlyRecordsSettled(phases) && NoneOpenBut(ids - {id}) by { StoppedKeepsSettled(phases, ids, id); }
      assert RequestedOutside(requests, records, ids - {id}) by { StoppedRequests(records, requests, ids, id); }
    }

    /** The response promise of a record is rejected, and the response mode of a waiting one forgotten. */
    twostate predicate StoppedOne(new id: ExecutionId, new status: Status, new promise: Option<PromiseId>)
      reads this`rejected, this`responseModes
    {
      && rejected == old(rejected) + (if promise.Some? then [promise.value] else [])
      && responseModes == old(responseModes) - (if status == Waiting then {id} else {})
    }

    /** What the loop needs to know of `StopExecution`. */
    twostate predicate StoppedRecord(new id: ExecutionId)
      reads this`active, this`segments
      reads segments`status, segments`attached, segments`phase, segments`cancelRequested
    {
      && segments == old(segments) && id in old(active) && old(active)[id] in segments
      && active == (if old(active[id].status) == Waiting then old(active) - {id} else old(active))
      && (forall s | s in segments && s != old(active)[id] ::
            s.phase == old(s.phase) && s.cancelRequested == old(s.cancelRequested))
      && (forall s | s in segments :: s.status == old(s.status) && s.attached == old(s.attached))
      && var s := old(active)[id];
         ((if s.status == Waiting then s.phase == old(s.phase) else s.phase != Open)
          && s.cancelRequested == (old(s.cancelRequested) || (s.status != Waiting && s.attached)))
    }

    method StopNext(id: ExecutionId)
      requires Valid() && id in active
      modifies this`active, this`responseModes, this`pending, this`rejected
      modifies {active[id]}`phase, {active[id]}`cancelRequested
      ensures Valid() && (old(Live()) ==> Live())
      ensures StoppedOne(id, old(active[id].status), old(active[id].responsePromise)) && StoppedRecord(id)
    {
      StopExecution(id);
    }

    twostate lemma StoppedRequests(records: map<ExecutionId, Segment>, new requests: map<Segment, bool>,
                                   new ids: set<ExecutionId>, new id: ExecutionId)
      requires old(RecordsOk()) && StoppedRecord(id) && id in ids && id in records && records[id] == old(active)[id]
      requires requests.Keys == segments
      requires forall s | s in segments ::
        old(s.cancelRequested) == (requests[s] || (IsVisited(s, records, ids) && s.status != Waiting && s.attached))
      ensures RequestedOutside(requests, records, ids - {id})
    {
      forall s | s in segments
        ensures IsVisited(s, records, ids - {id}) <==> IsVisited(s, records, ids) || s == records[id]
      {
      }
    }

    twostate lemma StoppedKeepsLeft(records: map<ExecutionId, Segment>, new ids: set<ExecutionId>, new id: ExecutionId)
      requires old(Left(records, ids, false)) && StoppedRecord(id) && id in ids && ids <= records.Keys
      requires forall i | i in records :: records[i] in segments
      ensures Left(records, ids - {id}, false)
    {
    }

    twostate lemma StoppedKeepsSettled(phases: map<Segment, Phase>, new ids: set<ExecutionId>, new id: ExecutionId)
      requires old(RecordsOk() && OnlyRecordsSettled(phases) && NoneOpenBut(ids)) && StoppedRecord(id)
      ensures OnlyRecordsSettled(phases) && NoneOpenBut(ids - {id})
    {
    }

    method DropIdle()
      requires Valid()
      modifies this`active
      ensures Valid() && (old(Live()) ==> Live())
      ensures Left(old(active), {}, true) && Strands(old(OpenRecords(Idle(true))))
    {
      DropEachIdle();
      DroppedAreStranded(true);
    }

    /** The loop. */
    method DropEachIdle()
      modifies this`active
      ensures Left(old(active), {}, true)
    {
      ghost var records := active;
      var ids := active.Keys;
      while ids != {}
        invariant ids <= records.Keys && Left(records, ids, true)
      {
        var id :| id in ids;
        if active[id].status == Waiting || active[id].status == New {
          active := active - {id};
        }
        ids := ids - {id};
      }
    }

    /** One turn of the wait loop: some executions settle and the queued callbacks run. */
    method Sleep(finishing: set<ExecutionId>)
      requires Valid() && Live()
      modifies this`pending, this`active, this`responseModes, this`heldProduction, this`heldEvaluation
      modifies segments`phase, segments`attached, reservations
      ensures Valid() && Live() && StrandedStay() && pending == []
      ensures active.Keys == old(StillActive(active, pending, finishing))
      ensures finishing == old(active.Keys) ==> (active == map[] <==> old(NoneKeepsWaiting()))
      ensures forall s | s in segments ::
        s.phase == if old(s.phase) == Settled
                      || (old(s.phase) == Open && old(IsCurrent(s)) && s.executionId in finishing)
                   then Cleaned else old(s.phase)
    {
      NothingStillActiveIff();
      SettleAll(finishing);
      RunCallbacks();
    }

    /** No record that survives the queued callbacks is waiting. */
    ghost predicate NoneKeepsWaiting()
      reads this`active, this`pending, (set s | s in pending)`status, (set id | id in active :: active[id])`status
    {
      forall id | id in AfterCallbacks(active, pending) :: active[id].status != Waiting
    }

    /** When all executions settle, the wait loop ends exactly if none has put itself to wait; a record
        that has keeps the loop going. */
    lemma NothingStillActiveIff()
      ensures StillActive(active, pending, active.Keys) == {} <==> NoneKeepsWaiting()
    {
      forall id | id in AfterCallbacks(active, pending) && active[id].status == Waiting
        ensures id in StillActive(active, pending, active.Keys)
      {
      }
    }

    lemma SettledAreRemoved(queued: seq<Segment>, finishing: set<ExecutionId>)
      requires Valid() && Live() && QueuedBehind(queued, finishing, {})
      ensures AfterCallbacks(active, pending).Keys == StillActive(active, queued, finishing)
    {
      assert forall s :: s in pending <==> s in queued || s in pending[|queued|..];
      forall id | id in active && id in finishing && active[id].status != Waiting
        ensures id !in AfterCallbacks(active, pending)
      {
        assert active[id] in pending;
      }
    }

    method SettleAll(finishing: set<ExecutionId>)
      requires Valid() && Live()
      modifies this`pending, segments`phase
      ensures Valid() && Live() && StrandedStay()
      ensures AfterCallbacks(active, pending).Keys == old(StillActive(active, pending, finishing))
      ensures SettledIn(old(Phases()), finishing)
    {
      ghost var queued, phases := pending, Phases();
      var ids := finishing;
      while ids != {}
        invariant Valid() && Live() && StrandedStay() && ids <= finishing
        invariant QueuedBehind(queued, finishing, ids) && SettledIn(phases, finishing - ids)
      {
        var id :| id in ids;
        SettleNext(queued, phases, finishing, ids, id);
        ids := ids - {id};
      }
      SettledAreRemoved(queued, finishing);
    }

    /** Since `phases`, the open records of `ids` have settled, and nothing else. */
    ghost predicate SettledIn(phases: map<Segment, Phase>, ids: set<ExecutionId>)
      reads this`active, this`segments, segments`phase
    {
      && phases.Keys == segments
      && forall s | s in segments ::
           s.phase == if phases[s] == Open && IsCurrent(s) && s.executionId in ids then Settled else phases[s]
    }

    /** Behind `queued` only current records of `finishing` are queued, and of those in the map none
        is open but the ones in `ids`. */
    ghost predicate QueuedBehind(queued: seq<Segment>, finishing: set<ExecutionId>, ids: set<ExecutionId>)
      reads this`active, this`pending, (set id | id in active :: active[id])`phase
    {
      && queued <= pending
      && (forall s | s in pending[|queued|..] :: s.executionId in finishing && IsCurrent(s))
      && (forall id | id in finishing && id in active && id !in ids :: active[id].phase != Open)
    }

    method SettleNext(ghost queued: seq<Segment>, ghost phases: map<Segment, Phase>, ghost finishing: set<ExecutionId>,
                      ghost ids: set<ExecutionId>, id: ExecutionId)
      requires Valid() && Live() && id in ids && ids <= finishing && QueuedBehind(queued, finishing, ids)
      requires SettledIn(phases, finishing - ids)
      modifies this`pending, (if id in active then {active[id]} else {})`phase
      ensures Valid() && Live() && StrandedStay() && QueuedBehind(queued, finishing, ids - {id})
      ensures SettledIn(phases, finishing - (ids - {id}))
    {
      FinalizeExecution(id);
    }

    /** The ids left when the executions in `finishing` settle behind the callbacks in `queued`. */
    ghost function StillActive(records: map<ExecutionId, Segment>, queued: seq<Segment>, finishing: set<ExecutionId>)
      : set<ExecutionId>
      reads (set s | s in queued)`status, (set id | id in records :: records[id])`status
    {
      set id | id in AfterCallbacks(records, queued) && !(id in finishing && records[id].status != Waiting)
    }

    /** A cancelling shutdown followed by the queued callbacks leaves no record. */
    method ShutdownCancelling()
      requires Valid() && Live()
      modifies this`pending, this`active, this`responseModes, this`heldProduction, this`heldEvaluation, this`enabled
      modifies this`rejected, segments`phase, segments`attached, segments`cancelRequested
      modifies reservations
      ensures Valid() && active == map[] && pending == []
      ensures forall id | id in old(active) && old(active[id].status) != Waiting :: old(active)[id].phase == Cleaned
    {
      var visited := Shutdown(true, true);
      SettledLeaveNothing();
      RunCallbacks();
    }

    lemma SettledLeaveNothing()
      requires Valid() && Live() && NoneOpenBut({})
      requires forall id | id in active :: active[id].status != Waiting
      ensures AfterCallbacks(active, pending) == map[]
    {
      forall id | id in active ensures id !in AfterCallbacks(active, pending) {
        assert active[id] in pending;
      }
    }

    /** Any other shutdown ends its wait loop once all remaining executions settle: it never waits
        for the records it dropped.  (An execution that puts itself to wait meanwhile keeps the loop
        going, see `NothingStillActiveIff`.) */
    method ShutdownWaiting(isRegularMode: bool)
      requires Valid() && Live()
      modifies this`pending, this`active, this`responseModes, this`heldProduction, this`heldEvaluation, this`enabled
      modifies this`rejected, segments`phase, segments`attached, segments`cancelRequested
      modifies reservations
      ensures Valid() && active == map[] && pending == []
      ensures forall id | id in old(active) && old(active[id].status) != Waiting && old(active[id].status) != New ::
        old(active)[id].phase == Cleaned
    {
      var visited := Shutdown(isRegularMode, false);
      Sleep(active.Keys);
    }
  }
}
