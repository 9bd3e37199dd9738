/** No accepted event is lost, whatever overlaps, fails or crashes. */
module LostEvents {
  import opened ParkingStore
  import opened Operations
  import opened Ledger
  import opened Sweep
  import opened Protocol
  import opened Serializability
  import opened Accounting
  import opened Attempts
  import opened Overlaps

  lemma {:induction false} PayloadKept(s: Store, ops: seq<Op>, e: nat)
    requires StoreOk(s) && e in s.events
    requires forall op | op in ops :: !Removes(op, s.events[e].deviceId)
    ensures e in Run(s, ops).events && Run(s, ops).events[e].SamePayload(s.events[e])
  {
    if ops != [] {
      var init, last := ops[..|ops| - 1], ops[|ops| - 1];
      assert last in ops;
      assert forall op | op in init :: op in ops;
      PayloadKept(s, init, e);
      StoreOkOverRun(s, init);
      StepKeepsPayload(Run(s, init), last, e);
    }
  }

  lemma StepKeepsPayload(s: Store, op: Op, e: nat)
    requires ReferencesOk(s) && e in s.events && !Removes(op, s.events[e].deviceId)
    ensures e in Do(s, op).events && Do(s, op).events[e].SamePayload(s.events[e])
  {
  }

  lemma WorkersRemoveNothing(store: Store, worker: Worker, step: Step, device: nat)
    requires Ready(store, worker, step) && ShapeOk(worker)
    ensures forall op | op in OpOf(store, worker, step) :: !Removes(op, device)
  {
  }

  lemma {:induction false} OnlyEnvRemoves(s: State, schedule: seq<Step>, device: nat)
    requires Keeps(schedule, device)
    ensures forall op | op in Commits(s, schedule) :: !Removes(op, device)
  {
    if schedule != [] {
      var init, step := schedule[..|schedule| - 1], schedule[|schedule| - 1];
      assert step in schedule;
      assert forall other | other in init :: other in schedule;
      OnlyEnvRemoves(s, init, device);
      var before := After(s, init);
      if Sound(before) && Enabled(before, step) && !step.Env? && !step.Crash? {
        WorkersRemoveNothing(before.store, before.workers[step.w], step, device);
      }
    }
  }

  datatype Standing = Applied | AwaitsSweep | GivenUp

  /** Where an accepted event stands; `AwaitsSweep` rows are eligible as soon as they are stale. */
  function StandingOf(row: Event, maxAttempts: nat): Standing {
    if row.status == EventStatus.Processed then Applied
    else if row.attempts < maxAttempts then AwaitsSweep
    else GivenUp
  }

  /** The three standings exclude one another, and the sweep retries exactly the middle one. */
  lemma Standings(row: Event, maxAttempts: nat)
    ensures forall cutoff ::
      Eligible(row, cutoff, maxAttempts) <==> StandingOf(row, maxAttempts) == AwaitsSweep && row.receivedAt < cutoff
    ensures StandingOf(row, maxAttempts) == GivenUp <==> row.Unfinished() && row.attempts >= maxAttempts
  {
  }

  /**
   Through any schedule an accepted event keeps its row and payload unless its device is deleted or
   the day is reset. Unless it is applied, the sweep picks it up as soon as it is stale, or it has
   really failed so often that the sweep leaves it; a pending event is never left.
   */
  lemma NoLostEvent(s: State, schedule: seq<Step>, e: nat, maxAttempts: nat)
    requires Inv(s) && e in s.store.events && maxAttempts > 0
    requires Keeps(schedule, s.store.events[e].deviceId)
    ensures e in After(s, schedule).store.events
    ensures var row := After(s, schedule).store.events[e];
      && row.SamePayload(s.store.events[e])
      && (forall cutoff ::
            Eligible(row, cutoff, maxAttempts)
            <==> StandingOf(row, maxAttempts) == AwaitsSweep && row.receivedAt < cutoff)
      && (row.status == Pending ==> StandingOf(row, maxAttempts) == AwaitsSweep)
      && (StandingOf(row, maxAttempts) == GivenUp && Level(s, e, s.store.events[e].attempts) ==>
            row.status == Failed && s.store.events[e].attempts + MarksOn(Commits(s, schedule), e) >= maxAttempts)
  {
    Serializable(s, schedule);
    OnlyEnvRemoves(s, schedule, s.store.events[e].deviceId);
    PayloadKept(s.store, Commits(s, schedule), e);
    Standings(After(s, schedule).store.events[e], maxAttempts);
    if Level(s, e, s.store.events[e].attempts) {
      AttemptsCountMarks(s, schedule, e);
    }
  }

  // A row that was given up.

  /**
   Giving up is not final: a row comes back to the sweep exactly if a mark is committed on it by a call
   that had read fewer attempts before, and is applied exactly by the commit of a call scheduled for it
   all the same.
   */
  lemma LeavesGivenUpIff(s: State, step: Step, e: nat, maxAttempts: nat)
    requires Inv(s) && Enabled(s, step) && e in s.store.events && StandingOf(s.store.events[e], maxAttempts) == GivenUp
    requires step.Env? ==> !Removes(step.op, s.store.events[e].deviceId)
    ensures var t := Next(s, step);
      && e in t.store.events
      && (StandingOf(t.store.events[e], maxAttempts) == AwaitsSweep
          <==> step.CommitMark? && s.workers[step.w].pc.e == e && s.workers[step.w].pc.read + 1 < maxAttempts)
      && (StandingOf(t.store.events[e], maxAttempts) == Applied <==> step.CommitApply? && s.workers[step.w].pc.e == e)
  {
    if step.Env? {
      EnvKeepsAttempts(s, step.op, e);
    } else if !step.Crash? {
      EventsAfter(s.store, s.workers[step.w], step);
    }
  }

  lemma MarkEnds(start: State, s: State, v: nat, e: nat, pc: Pc)
    requires Reaches(start, s) && Sound(s) && v in s.workers && s.workers[v] == Worker(pc, [], {})
    requires pc.Marking? && pc.e == e && Waiting(s.store, e) && EventFree(s, v, e)
    ensures Reaches(start, State(MarkAs(s.store, e, pc.read + 1, true), s.workers[v := IDLE], s.applied, s.clobbered))
  {
    MarkCommits(s, v, e, pc);
    ReachesNext(start, s, CommitMark(v));
  }

  /** The state after a call that fails and marks its failure. */
  function FailedOnce(s: State, e: nat): State
    requires e in s.store.events
  {
    s.(store := MarkAs(s.store, e, s.store.events[e].attempts + 1, true))
  }

  lemma CallMarks(start: State, s: State, v: nat, e: nat, skips: bool)
    requires Reaches(start, s) && Sound(s) && v in s.workers && s.workers[v] == IDLE
    requires Waiting(s.store, e) && EventFree(s, v, e)
    ensures Reaches(start, FailedOnce(s, e))
  {
    var pc := MarkingOf(s.store.events[e], e, skips);
    var marking := At(s, v, Worker(pc, [], {}));
    CallFails(start, s, v, e, skips);
    MarkEnds(start, marking, v, e, pc);
    var t := State(MarkAs(marking.store, e, pc.read + 1, true), marking.workers[v := IDLE],
                   marking.applied, marking.clobbered);
    assert Reaches(start, t);
    MarkedWorkers(s, marking, v, e, pc);
    assert t == FailedOnce(s, e);
  }

  lemma MarkedWorkers(s: State, marking: State, v: nat, e: nat, pc: Pc)
    requires v in s.workers && s.workers[v] == IDLE && e in s.store.events
    requires pc.Marking? && pc.read == s.store.events[e].attempts && marking == At(s, v, Worker(pc, [], {}))
    ensures State(MarkAs(marking.store, e, pc.read + 1, true), marking.workers[v := IDLE],
                  marking.applied, marking.clobbered)
         == FailedOnce(s, e)
  {
    assert marking.workers[v := IDLE] == s.workers;
  }

  /** One call is about to mark its failure while two others for the same event fail and mark theirs. */
  lemma FailsTwiceMeanwhile(s: State, w: nat, v: nat, e: nat, view: Device, skips: bool) returns (t: State)
    requires Quiet(s, e, view) && w != v
    requires w in s.workers && v in s.workers && s.workers[w] == IDLE && s.workers[v] == IDLE
    ensures Reaches(s, t) && Waiting(t.store, e) && t.store.events[e].attempts == s.store.events[e].attempts + 2
    ensures t.workers == s.workers[w := Worker(MarkingOf(s.store.events[e], e, skips), [], {})]
  {
    ReachesItself(s);
    CallFails(s, s, w, e, skips);
    t := At(s, w, Worker(MarkingOf(s.store.events[e], e, skips), [], {}));
    CallMarks(s, t, v, e, skips);
    t := FailedOnce(t, e);
    ReachesInv(s, t);
    CallMarks(s, t, v, e, skips);
    t := FailedOnce(t, e);
  }

  /** And it does come back: with that cap the row was given up, and the late mark makes it retryable. */
  lemma GivenUpComesBack(s: State, w: nat, v: nat, e: nat, view: Device, skips: bool) returns (t: State)
    requires Quiet(s, e, view) && w != v
    requires w in s.workers && v in s.workers && s.workers[w] == IDLE && s.workers[v] == IDLE
    ensures Reaches(s, t) && e in t.store.events && e in Take(t, CommitMark(w)).store.events
    ensures var cap := s.store.events[e].attempts + 2;
      && StandingOf(t.store.events[e], cap) == GivenUp
      && StandingOf(Take(t, CommitMark(w)).store.events[e], cap) == AwaitsSweep
  {
    t := FailsTwiceMeanwhile(s, w, v, e, view, skips);
    ReachesInv(s, t);
    MarkCommits(t, w, e, MarkingOf(s.store.events[e], e, skips));
  }
}
