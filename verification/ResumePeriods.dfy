/** Why the waiting period matters to resuming (packages/cli/src/workflow-helpers.ts,
    packages/cli/src/wait-tracker.ts).

    The update that resumes an execution checks the status of its row, not which waiting period it is.
    Runs that cross a period therefore break the promises of `ResumeProtocol`; here are the exact
    conditions, with a run for every case in which they fail. */
module ResumePeriods {
  import opened Wrappers
  import opened ResumeProtocol

  // ----- Building runs -----

  lemma Step(s: State, a: Action) returns (s': State)
    requires Reachable(s)
    ensures Reachable(s') && s' == Apply(s, a)
  {
    var actions :| Run(actions) == s;
    ContinueExtends(INITIAL, actions, a);
    assert Run(actions + [a]) == Apply(s, a);
    s' := Apply(s, a);
  }

  /** The parent starts waiting. */
  lemma FirstWait(id: ExecutionId, data: RunData) returns (s: State)
    ensures Reachable(s)
    ensures s == State(map[id := Row(Waiting, data, 1, data, false)], map[], map[], map[], {}, 1)
  {
    assert Run([]) == INITIAL;
    s := Step(INITIAL, Create(id, data));
    s := Step(s, EndSegment(0, Waiting, data));
    assert s.running == map[];
  }

  /** A timer fires and fetches the waiting parent. */
  lemma TimerFetches(s0: State, id: ExecutionId) returns (s: State)
    requires Reachable(s0) && id in s0.rows && s0.rows[id].status == Waiting
    ensures Reachable(s)
    ensures s == s0.(resumers := s.resumers, outputs := s0.outputs[id := OutputsOf(s0, id)], next := s0.next + 1)
    ensures var row := s0.rows[id];
      s.resumers == s0.resumers[s0.next :=
        Resumer(id, Timer, Reserve(Resume(row.data, None, Some(row.waits), row.saved, !row.tampered)))]
  {
    s := Step(s0, SpawnTimer(id));
    s := Step(s, Advance(s0.next));
  }

  /** A timer that nobody interferes with resumes the waiting parent with the data of the row. */
  lemma TimerWins(s0: State, id: ExecutionId) returns (s: State)
    requires Reachable(s0) && id in s0.rows && s0.rows[id].status == Waiting
    ensures Reachable(s)
    ensures s.rows == s0.rows[id := s0.rows[id].(status := Running)]
    ensures s.running == s0.running[s0.next + 1 := id] && s.outputs == s0.outputs[id := OutputsOf(s0, id)]
    ensures s.next == s0.next + 2 && s.reserved == s0.reserved + {s0.next}
    ensures forall r | r in s0.resumers && r != s0.next :: r in s.resumers && s.resumers[r] == s0.resumers[r]
  {
    s := TimerFetches(s0, id);
    s := Step(s, Advance(s0.next));
    s := Step(s, Advance(s0.next));
  }

  /** The parent is resumed by a timer and waits again; nobody else moves. */
  lemma WaitAgain(s0: State, id: ExecutionId, data: RunData) returns (s: State)
    requires Reachable(s0) && id in s0.rows && s0.rows[id].status == Waiting
    ensures Reachable(s) && id in s.rows && OutputsOf(s, id) == OutputsOf(s0, id)
    ensures s.rows[id] == Row(Waiting, data, s0.rows[id].waits + 1, data, false)
    ensures forall r | r in s0.resumers :: r in s.resumers && s.resumers[r] == s0.resumers[r]
  {
    ReachableKeeps(s0);
    s := TimerWins(s0, id);
    s := Step(s, EndSegment(s0.next + 1, Waiting, data));
  }

  lemma {:induction false} WaitUntil(s0: State, id: ExecutionId, period: nat, data: RunData) returns (s: State)
    requires Reachable(s0) && id in s0.rows && s0.rows[id].status == Waiting && s0.rows[id].waits <= period
    ensures Reachable(s) && id in s.rows && OutputsOf(s, id) == OutputsOf(s0, id)
    ensures s.rows[id] == if period == s0.rows[id].waits then s0.rows[id] else Row(Waiting, data, period, data, false)
    ensures forall r | r in s0.resumers :: r in s.resumers && s.resumers[r] == s0.resumers[r]
    decreases period - s0.rows[id].waits
  {
    if s0.rows[id].waits == period {
      s := s0;
    } else {
      s := WaitAgain(s0, id, data);
      s := WaitUntil(s, id, period, data);
    }
  }

  // ----- One resumer alone -----

  /** A finished child that nobody interferes with resumes its waiting parent with exactly its output in
      place of the first input; everything else of the row stays. */
  lemma LoneChildResumes(s0: State, id: ExecutionId, output: Output) returns (s: State)
    requires Reachable(s0) && id in s0.rows && s0.rows[id].status == Waiting && s0.rows[id].data.stack != []
    ensures Reachable(s)
    ensures var r, row := s0.next, s0.rows[id];
      && r in s.resumers && s.resumers[r].pc.Won? && s.resumers[r].kind == Child(Some(output))
      && s.rows == s0.rows[id := row.(status := Running,
                                      data := RunData([output] + row.data.stack[1..], row.data.rest))]
      && s.running == s0.running[s0.next + 1 := id] && s.reserved == s0.reserved + {r}
  {
    var r, row := s0.next, s0.rows[id];
    ReachableKeeps(s0);
    s := ChildReadsAndWrites(s0, id, output);
    s := FetchAndReserve(s, r);
    s := Step(s, Advance(r));
  }

  lemma ChildReadsAndWrites(s0: State, id: ExecutionId, output: Output) returns (s: State)
    requires Reachable(s0) && id in s0.rows && s0.rows[id].status == Waiting && s0.rows[id].data.stack != []
    ensures Reachable(s) && s.running == s0.running && s.reserved == s0.reserved && s.next == s0.next + 1
    ensures var r, row := s0.next, s0.rows[id];
      && s.rows == s0.rows[id := row.(data := RunData([output] + row.data.stack[1..], row.data.rest))]
      && r in s.resumers && s.resumers[r] == Resumer(id, Child(Some(output)), Fetch(Some(row.waits)))
  {
    var r, row := s0.next, s0.rows[id];
    s := Step(s0, SpawnChild(id, Some(output)));
    s := Step(s, Advance(r));
    assert s.resumers[r] == Resumer(id, Child(Some(output)), WriteParent(row.data, row.waits));
    s := Step(s, Advance(r));
    assert WithHead(row.data, output) == RunData([output] + row.data.stack[1..], row.data.rest);
  }

  // ----- Two periods, for any two data -----

  /** The child reads, a timer ends the period, and the child writes. */
  lemma WriteWhileRunning(id: ExecutionId, first: RunData, output: Output) returns (s: State)
    requires first.stack != []
    ensures Reachable(s) && s.running == map[3 := id] && OutputsOf(s, id) == {output}
    ensures id in s.rows && s.rows[id] == Row(Running, WithHead(first, output), 1, first, true)
    ensures 1 in s.resumers && s.resumers[1] == Resumer(id, Child(Some(output)), Fetch(None))
  {
    s := FirstWait(id, first);
    s := Step(s, SpawnChild(id, Some(output)));
    s := Step(s, Advance(1));
    assert s.resumers[1] == Resumer(id, Child(Some(output)), WriteParent(first, 1));
    s := TimerWins(s, id);
    s := Step(s, Advance(1));
  }

  lemma LateWrite(id: ExecutionId, first: RunData, second: RunData, output: Output) returns (s: State)
    requires first.stack != []
    ensures Reachable(s)
    ensures id in s.rows && s.rows[id] == Row(Waiting, second, 2, second, false)
    ensures 1 in s.resumers && s.resumers[1] == Resumer(id, Child(Some(output)), Fetch(None))
    ensures OutputsOf(s, id) == {output}
  {
    s := WriteWhileRunning(id, first, output);
    s := Step(s, EndSegment(3, Waiting, second));
  }

  /** Across two waiting periods a winning child may resume the parent with its original input: the
      child reads in the first period, writes after a timer has ended it, and wins the second. */
  lemma LateWriteDeliversNothing(id: ExecutionId, first: RunData, second: RunData, output: Output) returns (s: State)
    requires first.stack != [] && !HasHeadOf(second, {output})
    ensures Reachable(s)
    ensures 1 in s.resumers && s.resumers[1].kind == Child(Some(output)) && s.resumers[1].pc.Won?
    ensures OutputsOf(s, id) == {output}
    ensures id in s.rows && s.rows[id].status == Running && s.rows[id].data == second
  {
    s := LateWrite(id, first, second, output);
    s := Step(s, Advance(1));
    s := Step(s, Advance(1));
    s := Step(s, Advance(1));
  }

  /** A timer fetches, another one ends the period, and the parent waits again. */
  lemma StaleFetch(id: ExecutionId, first: RunData, second: RunData) returns (s: State)
    ensures Reachable(s)
    ensures id in s.rows && s.rows[id] == Row(Waiting, second, 2, second, false)
    ensures 1 in s.resumers && s.resumers[1] == Resumer(id, Timer, Reserve(Resume(first, None, Some(1), first, true)))
  {
    s := FirstWait(id, first);
    s := Step(s, SpawnTimer(id));
    s := Step(s, Advance(1));
    assert s.resumers[1].pc == Reserve(Resume(first, None, Some(1), first, true));
    s := TimerWins(s, id);
    s := Step(s, EndSegment(3, Waiting, second));
  }

  /** The update checks the status, not the period: a resumer that fetched in the first period may win
      the second, and the parent starts over from data it had already replaced. */
  lemma StaleFetchResumesOldData(id: ExecutionId, first: RunData, second: RunData) returns (s: State)
    ensures Reachable(s)
    ensures 1 in s.resumers && s.resumers[1].pc.Won? && s.resumers[1].pc.period == 2
    ensures s.resumers[1].pc.resume.seen == Some(1)
    ensures id in s.rows && s.rows[id].status == Running && s.rows[id].data == first && s.rows[id].saved == second
  {
    s := StaleFetch(id, first, second);
    s := Step(s, Advance(1));
    s := Step(s, Advance(1));
  }

  /** A child that writes in the first period and then wins the second delivers nothing either. */
  lemma EarlyWriteDeliversNothing(id: ExecutionId, first: RunData, second: RunData, output: Output)
    returns (s: State, r: ResumerId)
    requires first.stack != [] && !HasHeadOf(second, {output})
    ensures Reachable(s)
    ensures r in s.resumers && s.resumers[r].kind == Child(Some(output)) && s.resumers[r].pc.Won?
    ensures s.resumers[r].pc.resume.wrote == Some(1) && s.resumers[r].pc.resume.seen == Some(2)
    ensures OutputsOf(s, id) == {output}
    ensures id in s.rows && s.rows[id].status == Running && s.rows[id].data == second
  {
    s, r := ChildWrites(id, first, 1, output);
    s := WaitUntil(s, id, 2, second);
    s := FetchAndReserve(s, r);
    s := Step(s, Advance(r));
  }

  // ----- When the winner resumes the data of the period it wins -----

  /** A resumer is about to win the period `won`.  It fetched in the period `seen`, or while the row was
      not waiting; `clean` tells whether the row was then free of writes that were read in another period. */
  ghost predicate WinsSeeing(s: State, r: ResumerId, seen: Option<nat>, won: nat, clean: bool) {
    && Reachable(s) && Wins(s, r) && s.rows[s.resumers[r].target].waits == won
    && s.resumers[r].pc.resume.seen == seen && s.resumers[r].pc.resume.clean == clean
  }

  /** The resumed execution works on what it saved when the period began, up to a delivered head. */
  ghost predicate ResumesThePeriod(s: State, r: ResumerId) {
    var s' := Apply(s, Advance(r));
    Wins(s, r) && s.resumers[r].target in s'.rows
    && Fits(s.rows[s.resumers[r].target].saved, s'.rows[s.resumers[r].target].data, OutputsOf(s, s.resumers[r].target))
  }

  /** The combinations that runs reach: no fetch is from the future, and nobody can tamper before the
      first period has ended. */
  ghost predicate Occurs(seen: Option<nat>, won: nat, clean: bool) {
    && won >= 1
    && if seen.Some? then 1 <= seen.value <= won && (clean || seen.value >= 2) else clean || won >= 2
  }

  lemma WinsOccur(s: State, r: ResumerId, seen: Option<nat>, won: nat, clean: bool)
    requires WinsSeeing(s, r, seen, won, clean)
    ensures Occurs(seen, won, clean)
  {
    ReachableKeeps(s);
    assert ResumerOk(RowOf(s, s.resumers[r].target), OutputsOf(s, s.resumers[r].target), s.resumers[r]);
  }

  /** The exact condition: whoever wins, in whatever run, resumes the data of the period that it wins if
      and only if it fetched in that period and the period was clean. */
  lemma ResumesThePeriodIff(seen: Option<nat>, won: nat, clean: bool)
    ensures (forall s, r | WinsSeeing(s, r, seen, won, clean) :: ResumesThePeriod(s, r))
            <==> (Occurs(seen, won, clean) ==> seen == Some(won) && clean)
  {
    if Occurs(seen, won, clean) && !(seen == Some(won) && clean) {
      var s, r := OldDataWins(seen, won, clean);
      assert WinsSeeing(s, r, seen, won, clean) && !ResumesThePeriod(s, r);
    } else {
      forall s, r | WinsSeeing(s, r, seen, won, clean) ensures ResumesThePeriod(s, r) {
        WinsOccur(s, r, seen, won, clean);
        WinnerResumesTheSavedData(s, r);
      }
    }
  }

  const FIRST := RunData([""], "first")
  const SECOND := RunData([], "second")

  /** A resumer has fetched the first data, or what a late child made of them; the row is now waiting for
      the `waits`-th time. */
  ghost predicate HasFetched(s: State, r: ResumerId, seen: Option<nat>, clean: bool, waits: nat) {
    && Reachable(s) && "" in s.rows && s.rows[""].status == Waiting && s.rows[""].waits == waits
    && r in s.resumers && s.resumers[r].target == "" && s.resumers[r].pc.Reserve?
    && s.resumers[r].pc.resume.seen == seen && s.resumers[r].pc.resume.clean == clean
    && s.resumers[r].pc.resume.data.rest == FIRST.rest
    && (seen.None? || !clean ==> s.rows[""].saved == SECOND)
  }

  lemma FetchClean(seen: nat) returns (s: State, r: ResumerId)
    requires seen >= 1
    ensures HasFetched(s, r, Some(seen), true, seen)
  {
    s := FirstWait("", FIRST);
    s := WaitUntil(s, "", seen, FIRST);
    r := s.next;
    s := TimerFetches(s, "");
  }

  lemma FetchAfterLateWrite(seen: nat) returns (s: State, r: ResumerId)
    requires seen >= 2
    ensures HasFetched(s, r, Some(seen), false, seen)
  {
    s := FirstWait("", FIRST);
    s := Step(s, SpawnChild("", Some("result")));
    r := 1;
    s := Step(s, Advance(r));
    assert s.resumers[r] == Resumer("", Child(Some("result")), WriteParent(FIRST, 1));
    s := WaitUntil(s, "", seen, SECOND);
    s := Step(s, Advance(r));
    s := Step(s, Advance(r));
  }

  /** A fetch before the execution ever waits. */
  lemma FetchBeforeWaiting() returns (s: State, r: ResumerId)
    ensures HasFetched(s, r, None, true, 1)
    ensures s.resumers[r].pc.resume.wrote == None && OutputsOf(s, "") == {}
  {
    assert Run([]) == INITIAL;
    s := Step(INITIAL, Create("", FIRST));
    s := Step(s, SpawnTimer(""));
    r := 1;
    s := Step(s, Advance(r));
    assert s.resumers[r] == Resumer("", Timer, Reserve(Resume(FIRST, None, None, FIRST, true)));
    s := Step(s, EndSegment(0, Waiting, SECOND));
  }

  /** A child writes and fetches after a timer has ended the period. */
  lemma FetchWhileRunning() returns (s: State, r: ResumerId)
    ensures HasFetched(s, r, None, false, 2)
  {
    s := WriteWhileRunning("", FIRST, "result");
    r := 1;
    s := FetchRunning(s, r);
    s := Step(s, EndSegment(3, Waiting, SECOND));
  }

  lemma FetchOldData(seen: Option<nat>, clean: bool) returns (s: State, r: ResumerId, waits: nat)
    requires seen.Some? ==> seen.value >= 1 && (clean || seen.value >= 2)
    ensures HasFetched(s, r, seen, clean, waits)
    ensures waits == if seen.Some? then seen.value else if clean then 1 else 2
  {
    waits := if seen.Some? then seen.value else if clean then 1 else 2;
    if seen.Some? && clean {
      s, r := FetchClean(seen.value);
    } else if seen.Some? {
      s, r := FetchAfterLateWrite(seen.value);
    } else if clean {
      s, r := FetchBeforeWaiting();
    } else {
      s, r := FetchWhileRunning();
    }
  }

  lemma OldDataWins(seen: Option<nat>, won: nat, clean: bool) returns (s: State, r: ResumerId)
    requires Occurs(seen, won, clean) && !(seen == Some(won) && clean)
    ensures WinsSeeing(s, r, seen, won, clean) && !ResumesThePeriod(s, r)
  {
    var waits;
    s, r, waits := FetchOldData(seen, clean);
    s := WaitUntil(s, "", won, SECOND);
    s := Step(s, Advance(r));
    assert s.rows[""].saved == SECOND;
    LosingChangesNothing(s, r);
  }

  // ----- When a winning child delivers -----

  /** A resumer is about to win.  It fetched in the period `seen`, or while the row was not waiting; if it
      is a child that updated the row while that was waiting, it did so in the period `wrote`. */
  ghost predicate WinsAfterWriting(s: State, r: ResumerId, wrote: Option<nat>, seen: Option<nat>) {
    && Reachable(s) && Wins(s, r)
    && s.resumers[r].pc.resume.wrote == wrote && s.resumers[r].pc.resume.seen == seen
  }

  /** The resumed execution starts with the output of a finished child at the head of its stack. */
  ghost predicate DeliversAnOutput(s: State, r: ResumerId) {
    var s' := Apply(s, Advance(r));
    Wins(s, r) && s.resumers[r].target in s'.rows
    && HasHeadOf(s'.rows[s.resumers[r].target].data, OutputsOf(s', s.resumers[r].target))
  }

  ghost predicate WriteOccurs(wrote: Option<nat>, seen: Option<nat>) {
    && (seen.Some? ==> seen.value >= 1)
    && (wrote.Some? ==> wrote.value >= 1 && (seen.Some? ==> wrote.value <= seen.value))
  }

  /** The exact condition: whoever wins, in whatever run, delivers the output of a finished child if and
      only if it wrote in a waiting period and fetched in the same one. */
  lemma DeliversIff(wrote: Option<nat>, seen: Option<nat>)
    ensures (forall s, r | WinsAfterWriting(s, r, wrote, seen) :: DeliversAnOutput(s, r))
            <==> (WriteOccurs(wrote, seen) ==> wrote.Some? && wrote == seen)
  {
    if WriteOccurs(wrote, seen) && !(wrote.Some? && wrote == seen) {
      var s, r := NothingDelivered(wrote, seen);
      assert WinsAfterWriting(s, r, wrote, seen) && !DeliversAnOutput(s, r);
    } else {
      forall s, r | WinsAfterWriting(s, r, wrote, seen) ensures DeliversAnOutput(s, r) {
        ReachableKeeps(s);
        assert ResumerOk(RowOf(s, s.resumers[r].target), OutputsOf(s, s.resumers[r].target), s.resumers[r]);
        WinningChildDelivers(s, r);
        LosingChangesNothing(s, r);
      }
    }
  }

  /** A child reads and writes in one period. */
  lemma ChildWrites(id: ExecutionId, first: RunData, period: nat, output: Output) returns (s: State, r: ResumerId)
    requires first.stack != [] && period >= 1
    ensures Reachable(s) && id in s.rows && s.rows[id].status == Waiting && s.rows[id].waits == period
    ensures r in s.resumers && s.resumers[r] == Resumer(id, Child(Some(output)), Fetch(Some(period)))
    ensures OutputsOf(s, id) == {output}
  {
    s := FirstWait(id, first);
    s := WaitUntil(s, id, period, first);
    r := s.next;
    s := Step(s, SpawnChild(id, Some(output)));
    s := Step(s, Advance(r));
    assert s.resumers[r] == Resumer(id, Child(Some(output)), WriteParent(first, period));
    s := Step(s, Advance(r));
  }

  /** A resumer at its fetch gets to its update, the row being as it is. */
  lemma FetchAndReserve(s0: State, r: ResumerId) returns (s: State)
    requires Reachable(s0) && r in s0.resumers && s0.resumers[r].pc.Fetch?
    requires s0.resumers[r].target in s0.rows && s0.rows[s0.resumers[r].target].status == Waiting
    ensures Reachable(s) && s.rows == s0.rows && s.outputs == s0.outputs && r in s.resumers
    ensures s.running == s0.running && s.next == s0.next && s.reserved == s0.reserved + {r}
    ensures var row := s0.rows[s0.resumers[r].target];
      s.resumers[r] == s0.resumers[r].(
        pc := Update(Resume(row.data, s0.resumers[r].pc.wrote, Some(row.waits), row.saved, !row.tampered)))
    ensures s == Continue(s0, [Advance(r), Advance(r)])
  {
    s := Step(s0, Advance(r));
    s := Step(s, Advance(r));
    ContinueExtends(s0, [], Advance(r));
    ContinueExtends(s0, [Advance(r)], Advance(r));
    assert [] + [Advance(r)] == [Advance(r)] && [Advance(r)] + [Advance(r)] == [Advance(r), Advance(r)];
  }

  /** A child writes in a period and fetches while the execution runs after the next one. */
  lemma WriteAndFetchWhileRunning(wrote: nat) returns (s: State, r: ResumerId)
    requires wrote >= 1
    ensures Reachable(s) && "" in s.rows && s.rows[""].status == Waiting
    ensures r in s.resumers && s.resumers[r].target == "" && s.resumers[r].pc.Update?
    ensures s.resumers[r].pc.resume.wrote == Some(wrote) && s.resumers[r].pc.resume.seen == None
    ensures s.resumers[r].pc.resume.data == SECOND
  {
    s, r := ChildWrites("", FIRST, wrote, "result");
    s := WaitAgain(s, "", SECOND);
    s := FetchBetween(s, r, SECOND);
    s := Step(s, Advance(r));
  }

  /** A timer ends the period, the resumer fetches, and the parent waits again. */
  lemma FetchBetween(s0: State, r: ResumerId, data: RunData) returns (s: State)
    requires Reachable(s0) && r in s0.resumers && s0.resumers[r].pc.Fetch?
    requires s0.resumers[r].target in s0.rows && s0.rows[s0.resumers[r].target].status == Waiting
    ensures Reachable(s) && r in s.resumers && s.resumers[r].target in s.rows
    ensures s.rows[s.resumers[r].target].status == Waiting
    ensures var row := s0.rows[s0.resumers[r].target];
      s.resumers[r] == s0.resumers[r].(
        pc := Reserve(Resume(row.data, s0.resumers[r].pc.wrote, None, row.saved, !row.tampered)))
  {
    var id := s0.resumers[r].target;
    ReachableKeeps(s0);
    s := TimerWins(s0, id);
    assert s.running[s0.next + 1] == id && s.rows[id].status == Running;
    s := FetchRunning(s, r);
    s := StartWaiting(s, s0.next + 1, data);
  }

  lemma StartWaiting(s0: State, g: SegmentId, data: RunData) returns (s: State)
    requires Reachable(s0) && g in s0.running && s0.running[g] in s0.rows
    ensures Reachable(s) && s.resumers == s0.resumers && s.outputs == s0.outputs
    ensures var id := s0.running[g];
      s.rows == s0.rows[id := Row(Waiting, data, s0.rows[id].waits + 1, data, false)]
  {
    s := Step(s0, EndSegment(g, Waiting, data));
  }

  lemma FetchRunning(s0: State, r: ResumerId) returns (s: State)
    requires Reachable(s0) && r in s0.resumers && s0.resumers[r].pc.Fetch?
    requires s0.resumers[r].target in s0.rows && s0.rows[s0.resumers[r].target].status == Running
    ensures Reachable(s) && s.rows == s0.rows && s.running == s0.running && s.outputs == s0.outputs && r in s.resumers
    ensures var row := s0.rows[s0.resumers[r].target];
      s.resumers[r] == s0.resumers[r].(
        pc := Reserve(Resume(row.data, s0.resumers[r].pc.wrote, None, row.saved, !row.tampered)))
  {
    s := Step(s0, Advance(r));
  }

  lemma NothingDelivered(wrote: Option<nat>, seen: Option<nat>) returns (s: State, r: ResumerId)
    requires WriteOccurs(wrote, seen) && !(wrote.Some? && wrote == seen)
    ensures WinsAfterWriting(s, r, wrote, seen) && !DeliversAnOutput(s, r)
  {
    if seen.Some? {
      s, r := NothingDeliveredLater(wrote, seen.value);
    } else if wrote.Some? {
      s, r := WriteAndFetchWhileRunning(wrote.value);
    } else {
      s, r := FetchBeforeWaiting();
      s := Step(s, Advance(r));
    }
    LosingChangesNothing(s, r);
  }

  lemma NothingDeliveredLater(wrote: Option<nat>, seen: nat) returns (s: State, r: ResumerId)
    requires WriteOccurs(wrote, Some(seen)) && wrote != Some(seen)
    ensures WinsAfterWriting(s, r, wrote, Some(seen)) && !DeliversAnOutput(s, r)
  {
    if wrote.Some? {
      s, r := ChildWrites("", FIRST, wrote.value, "result");
    } else {
      s := FirstWait("", SECOND);
      s := Step(s, SpawnChild("", Some("result")));
      r := 1;
      s := Step(s, Advance(r));
      assert s.resumers[r] == Resumer("", Child(Some("result")), Fetch(None));
    }
    s := WaitUntil(s, "", seen, SECOND);
    s := FetchAndReserve(s, r);
    assert s.rows[""].data == SECOND;
    LosingChangesNothing(s, r);
  }

  // ----- The same from the fetch on -----

  /** The resumer is about to win the period `n`. */
  ghost predicate WinsPeriod(s: State, r: ResumerId, n: nat) {
    Wins(s, r) && s.rows[s.resumers[r].target].waits == n
  }

  /** As long as the period `n` lasts, the row and the resumer carry a child's output. */
  ghost predicate Carries(s: State, r: ResumerId, id: ExecutionId, n: nat) {
    && r in s.resumers && s.resumers[r].target == id && id in s.rows && n <= s.rows[id].waits
    && (WaitingPeriod(s.rows[id]) == Some(n) ==>
          HasHeadOf(s.rows[id].data, OutputsOf(s, id)) && PcCarries(s.resumers[r].pc, OutputsOf(s, id)))
  }

  ghost predicate PcCarries(pc: Pc, outputs: set<Output>) {
    pc.Reserve? || pc.Update? ==> HasHeadOf(pc.resume.data, outputs)
  }

  lemma MoveCarries(s: State, q: ResumerId, pc: Pc, reserved: set<ResumerId>, r: ResumerId, id: ExecutionId, n: nat)
    requires Carries(s, r, id, n) && q in s.resumers
    requires q == r && WaitingPeriod(s.rows[id]) == Some(n) ==> PcCarries(pc, OutputsOf(s, id))
    ensures Carries(Move(s.(reserved := reserved), q, pc), r, id, n)
  {
  }

  lemma WriteCarries(s: State, q: ResumerId, r: ResumerId, id: ExecutionId, n: nat)
    requires Inv(s) && Carries(s, r, id, n) && q in s.resumers && s.resumers[q].pc.WriteParent?
    ensures Carries(DoWrite(s, q), r, id, n)
  {
    assert ResumerOk(RowOf(s, s.resumers[q].target), OutputsOf(s, s.resumers[q].target), s.resumers[q]);
  }

  lemma UpdateCarries(s: State, q: ResumerId, r: ResumerId, id: ExecutionId, n: nat)
    requires Carries(s, r, id, n) && q in s.resumers && s.resumers[q].pc.Update?
    ensures Carries(DoUpdate(s, q), r, id, n)
  {
  }

  lemma AdvanceCarries(s: State, q: ResumerId, r: ResumerId, id: ExecutionId, n: nat)
    requires Inv(s) && Carries(s, r, id, n)
    ensures Carries(DoAdvance(s, q), r, id, n)
  {
    if q in s.resumers {
      match s.resumers[q].pc
      case ReadParent => MoveCarries(s, q, DoRead(s, q).resumers[q].pc, s.reserved, r, id, n);
      case WriteParent(_, _) => WriteCarries(s, q, r, id, n);
      case Fetch(_) => MoveCarries(s, q, DoFetch(s, q).resumers[q].pc, s.reserved, r, id, n);
      case Reserve(resume) => MoveCarries(s, q, Update(resume), s.reserved + {q}, r, id, n);
      case Update(_) => UpdateCarries(s, q, r, id, n);
      case _ =>
    }
  }

  lemma StepCarries(s: State, a: Action, r: ResumerId, id: ExecutionId, n: nat)
    requires Inv(s) && Carries(s, r, id, n)
    ensures Carries(Apply(s, a), r, id, n)
  {
    if a.Advance? { AdvanceCarries(s, a.resumer, r, id, n); }
  }

  lemma {:induction false} ContinuationCarries(s: State, more: seq<Action>, r: ResumerId, id: ExecutionId, n: nat)
    requires Inv(s) && Carries(s, r, id, n)
    ensures Inv(Continue(s, more)) && Carries(Continue(s, more), r, id, n)
    decreases |more|
  {
    if more == [] {
    } else {
      var before := Continue(s, more[..|more| - 1]);
      ContinuationCarries(s, more[..|more| - 1], r, id, n);
      ContinueKeeps(s, more);
      StepCarries(before, more[|more| - 1], r, id, n);
    }
  }

  lemma CarriedIsDelivered(s: State, more: seq<Action>, r: ResumerId, id: ExecutionId, n: nat)
    requires Inv(s) && Carries(s, r, id, n) && WinsPeriod(Continue(s, more), r, n)
    ensures DeliversAnOutput(Continue(s, more), r)
  {
    ContinuationCarries(s, more, r, id, n);
  }

  lemma FetchedIsNotDelivered(s: State, r: ResumerId) returns (more: seq<Action>)
    requires Reachable(s) && r in s.resumers && s.resumers[r].pc.Fetch?
    requires s.resumers[r].target in s.rows && s.rows[s.resumers[r].target].status == Waiting
    requires !HasHeadOf(s.rows[s.resumers[r].target].data, OutputsOf(s, s.resumers[r].target))
    ensures WinsPeriod(Continue(s, more), r, s.rows[s.resumers[r].target].waits)
    ensures !DeliversAnOutput(Continue(s, more), r)
  {
    more := [Advance(r), Advance(r)];
    var t := FetchAndReserve(s, r);
    LosingChangesNothing(t, r);
  }

  /** The exact condition at the fetch of a waiting row: however the run continues, if the resumer wins
      before the period ends then it delivers, precisely when the row carries a child's output now. */
  lemma FetchDeliversIff(s: State, r: ResumerId)
    requires Reachable(s) && r in s.resumers && s.resumers[r].pc.Fetch?
    requires s.resumers[r].target in s.rows && s.rows[s.resumers[r].target].status == Waiting
    ensures var id := s.resumers[r].target;
      (forall more | WinsPeriod(Continue(s, more), r, s.rows[id].waits) :: DeliversAnOutput(Continue(s, more), r))
      <==> HasHeadOf(s.rows[id].data, OutputsOf(s, id))
  {
    var id := s.resumers[r].target;
    var n := s.rows[id].waits;
    ReachableKeeps(s);
    if HasHeadOf(s.rows[id].data, OutputsOf(s, id)) {
      forall more | WinsPeriod(Continue(s, more), r, n) ensures DeliversAnOutput(Continue(s, more), r) {
        CarriedIsDelivered(s, more, r, id, n);
      }
    } else {
      var more := FetchedIsNotDelivered(s, r);
    }
  }
}
