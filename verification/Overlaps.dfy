/**
 What overlapping calls can really do: from any quiet state, schedules in which the guarantees the
 documentation gives are lost.
 */
module Overlaps {
  import opened Wrappers
  import opened ParkingStore
  import opened Operations
  import opened Protocol
  import opened Serializability
  import opened Attempts

  predicate NoSweepStarts(schedule: seq<Step>) {
    forall step | step in schedule :: !step.StartSweep?
  }

  /** Some schedule leads from `s` to `t`, without starting another sweep. */
  ghost predicate Reaches(s: State, t: State) {
    exists schedule :: NoSweepStarts(schedule) && After(s, schedule) == t
  }

  lemma ReachesItself(s: State)
    ensures Reaches(s, s)
  {
    assert NoSweepStarts([]) && After(s, []) == s;
  }

  lemma ReachesNext(s: State, t: State, step: Step)
    requires Reaches(s, t) && !step.StartSweep?
    ensures Reaches(s, Take(t, step))
  {
    var schedule :| NoSweepStarts(schedule) && After(s, schedule) == t;
    assert (schedule + [step])[..|schedule|] == schedule;
    assert NoSweepStarts(schedule + [step]) && After(s, schedule + [step]) == Take(t, step);
  }

  lemma ReachesInv(s: State, t: State)
    requires Inv(s) && Reaches(s, t)
    ensures Inv(t)
  {
    var schedule :| NoSweepStarts(schedule) && After(s, schedule) == t;
    Serializable(s, schedule);
  }

  /** The state with one worker elsewhere. */
  function At(s: State, w: nat, worker: Worker): State {
    s.(workers := s.workers[w := worker])
  }

  predicate Writes(step: Step) {
    step.CommitApply? || step.CommitMark? || step.CommitRow?
  }

  /** A step that commits nothing only moves its worker. */
  lemma Glide(start: State, s: State, step: Step, worker: Worker)
    requires Reaches(start, s) && Sound(s)
    requires !step.Crash? && !step.Env? && !step.StartSweep? && !Writes(step) && step.w in s.workers
    requires Ready(s.store, s.workers[step.w], step) && Granted(s, step.w, s.workers[step.w].pc, step)
    requires worker == Moved(s.store, s.workers[step.w], step)
    ensures Reaches(start, At(s, step.w, worker)) && Sound(At(s, step.w, worker))
  {
    MoverReads(s.store, s.workers[step.w], step);
    assert s.applied + [] == s.applied && s.clobbered + [] == s.clobbered;
    assert Take(s, step) == At(s, step.w, worker);
    ReachesNext(start, s, step);
  }

  lemma LocksEvent(start: State, s: State, w: nat, e: nat)
    requires Reaches(start, s) && Sound(s) && w in s.workers && s.workers[w] == IDLE
    requires Waiting(s.store, e) && EventFree(s, w, e)
    ensures var t := At(s, w, Worker(HasEvent(e), [], {})); Reaches(start, t) && Sound(t)
  {
    var wants, has := Worker(WantEvent(e), [], {}), Worker(HasEvent(e), [], {});
    Glide(start, s, Call(w, e), wants);
    Glide(start, At(s, w, wants), LockEvent(w), has);
    AtAt(s, w, wants, has);
  }

  lemma SeesDevice(start: State, s: State, w: nat, e: nat, view: Device)
    requires Reaches(start, s) && Sound(s) && w in s.workers && s.workers[w] == Worker(HasEvent(e), [], {})
    ensures var t := At(s, w, Worker(WantLot(e, view), [], {})); Reaches(start, t) && Sound(t)
  {
    Glide(start, s, LoadDevice(w, view), Worker(WantLot(e, view), [], {}));
  }

  lemma LocksLot(start: State, s: State, w: nat, e: nat, view: Device)
    requires Reaches(start, s) && Sound(s) && w in s.workers && s.workers[w] == Worker(HasEvent(e), [], {})
    requires view.lotId in s.store.lots && LotFree(s, w, view.lotId)
    ensures var t := At(s, w, Worker(HasLot(e, view, s.store.lots[view.lotId].systemCount), [], {}));
      Reaches(start, t) && Sound(t)
  {
    SeesDevice(start, s, w, e, view);
    var s1 := At(s, w, Worker(WantLot(e, view), [], {}));
    var locked := Worker(HasLot(e, view, s.store.lots[view.lotId].systemCount), [], {});
    Glide(start, s1, LockLot(w), locked);
    AtAt(s, w, Worker(WantLot(e, view), [], {}), locked);
  }

  lemma CommitsApply(start: State, s: State, w: nat, now: int)
    requires Reaches(start, s) && Sound(s) && w in s.workers && s.workers[w].pc.HasLot? && s.workers[w].todo == []
    ensures var pc := s.workers[w].pc;
      Reaches(start, State(Do(s.store, Apply(pc.e, Some(pc.view.lotId), pc.view.code, now)),
                           s.workers[w := IDLE], s.applied + [pc.e], s.clobbered))
  {
    ApplyIsSerial(s.store, s.workers[w], CommitApply(w, now));
    assert s.clobbered + [] == s.clobbered;
    ReachesNext(start, s, CommitApply(w, now));
  }

  /** What one undisturbed call of an idle worker leads to. */
  function CallDone(s: State, e: nat, view: Device, now: int): State {
    State(Do(s.store, Apply(e, Some(view.lotId), view.code, now)), s.workers, s.applied + [e], s.clobbered)
  }

  lemma LocksBoth(start: State, s: State, w: nat, e: nat, view: Device)
    requires Reaches(start, s) && Sound(s) && w in s.workers && s.workers[w] == IDLE
    requires Waiting(s.store, e) && view.lotId in s.store.lots
    requires EventFree(s, w, e) && LotFree(s, w, view.lotId)
    ensures var t := At(s, w, Worker(HasLot(e, view, s.store.lots[view.lotId].systemCount), [], {}));
      Reaches(start, t) && Sound(t)
  {
    var s1 := At(s, w, Worker(HasEvent(e), [], {}));
    var locked := Worker(HasLot(e, view, s.store.lots[view.lotId].systemCount), [], {});
    LocksEvent(start, s, w, e);
    LocksLot(start, s1, w, e, view);
    AtAt(s, w, Worker(HasEvent(e), [], {}), locked);
  }

  lemma CallApplies(start: State, s: State, w: nat, e: nat, view: Device, now: int)
    requires Reaches(start, s) && Sound(s) && w in s.workers && s.workers[w] == IDLE
    requires Waiting(s.store, e) && view.lotId in s.store.lots
    requires EventFree(s, w, e) && LotFree(s, w, view.lotId)
    ensures Reaches(start, CallDone(s, e, view, now))
  {
    LocksBoth(start, s, w, e, view);
    var s2 := At(s, w, Worker(HasLot(e, view, s.store.lots[view.lotId].systemCount), [], {}));
    CommitsApply(start, s2, w, now);
    assert s2.workers[w := IDLE] == s.workers;
  }

  lemma RollsBack(start: State, s: State, w: nat, e: nat)
    requires Reaches(start, s) && Sound(s) && w in s.workers && s.workers[w] == Worker(HasEvent(e), [], {})
    ensures var t := At(s, w, Worker(RolledBack(e), [], {})); Reaches(start, t) && Sound(t)
  {
    Glide(start, s, Fail(w), Worker(RolledBack(e), [], {}));
  }

  /** A call whose try block raises, up to the point where it has read the attempts. */
  lemma CallFails(start: State, s: State, w: nat, e: nat, skips: bool)
    requires Reaches(start, s) && Sound(s) && w in s.workers && s.workers[w] == IDLE
    requires Waiting(s.store, e) && EventFree(s, w, e)
    ensures var t := At(s, w, Worker(MarkingOf(s.store.events[e], e, skips), [], {}));
      Reaches(start, t) && Sound(t)
  {
    var has, rolled := Worker(HasEvent(e), [], {}), Worker(RolledBack(e), [], {});
    LocksEvent(start, s, w, e);
    RollsBack(start, At(s, w, has), w, e);
    AtAt(s, w, has, rolled);
    ReadsAttempts(start, At(s, w, rolled), w, e, skips);
    AtAt(s, w, rolled, Worker(MarkingOf(s.store.events[e], e, skips), [], {}));
  }

  lemma AtAt(s: State, w: nat, a: Worker, b: Worker)
    ensures At(At(s, w, a), w, b) == At(s, w, b)
  {
  }

  lemma ReadsAttempts(start: State, s: State, w: nat, e: nat, skips: bool)
    requires Reaches(start, s) && Sound(s) && w in s.workers && s.workers[w] == Worker(RolledBack(e), [], {})
    requires e in s.store.events
    ensures var t := At(s, w, Worker(MarkingOf(s.store.events[e], e, skips), [], {})); Reaches(start, t) && Sound(t)
  {
    Glide(start, s, ReadForMark(w, skips), Worker(MarkingOf(s.store.events[e], e, skips), [], {}));
  }

  /** The mark of a call that failed before another one applied the event. */
  function Marked(s: State, w: nat, e: nat, read: nat): State
    requires e in s.store.events
  {
    State(MarkAs(s.store, e, read + 1, true), s.workers[w := IDLE], s.applied, s.clobbered + [e])
  }

  lemma LateMark(s: State, w: nat, e: nat, read: nat)
    requires Sound(s) && w in s.workers && s.workers[w] == Worker(Marking(e, read, true), [], {})
    requires e in s.store.events && s.store.events[e].status == Processed && EventFree(s, w, e)
    ensures Take(s, CommitMark(w)) == Marked(s, w, e, read)
  {
    var step := CommitMark(w);
    assert Enabled(s, step);
    assert Wrote(s.store, s.workers[w], step) == MarkAs(s.store, e, read + 1, true);
    assert s.applied + [] == s.applied;
  }

  /** No worker holds the rows the schedules below go through. */
  ghost predicate Quiet(s: State, e: nat, view: Device) {
    Inv(s) && Waiting(s.store, e) && view.lotId in s.store.lots && NobodyHolds(s.workers, e, view.lotId)
  }

  ghost predicate NobodyHolds(workers: map<nat, Worker>, e: nat, lot: nat) {
    forall v | v in workers :: !HoldsEvent(workers[v], e) && !HoldsLot(workers[v], lot)
  }

  lemma AfterApply(store: Store, e: nat, view: Device, now: int)
    requires Waiting(store, e) && view.lotId in store.lots
    ensures var t := Do(store, Apply(e, Some(view.lotId), view.code, now));
      && t.events == store.events[e := store.events[e].(status := Processed)]
      && t.lots.Keys == store.lots.Keys
      && t.lots[view.lotId].systemCount
         == CountAfterEvent(store.lots[view.lotId].systemCount, store.events[e].eventType)
  {
  }

  /** One call fails and rolls back; then another applies the event. */
  lemma FailsThenApplies(s: State, w: nat, v: nat, e: nat, view: Device, now: int, skips: bool) returns (t: State)
    requires Quiet(s, e, view) && w != v
    requires w in s.workers && v in s.workers && s.workers[w] == IDLE && s.workers[v] == IDLE
    ensures Reaches(s, t)
    ensures t == CallDone(At(s, w, Worker(MarkingOf(s.store.events[e], e, skips), [], {})), e, view, now)
  {
    ReachesItself(s);
    CallFails(s, s, w, e, skips);
    var s1 := At(s, w, Worker(MarkingOf(s.store.events[e], e, skips), [], {}));
    CallApplies(s, s1, v, e, view, now);
    t := CallDone(s1, e, view, now);
  }

  /** What the late mark leaves: the event is to be applied again, and nobody holds anything. */
  lemma MarkedIsQuiet(s: State, s2: State, w: nat, e: nat, view: Device, read: nat)
    requires NobodyHolds(s.workers, e, view.lotId) && w in s.workers && s.workers[w] == IDLE
    requires s2.workers == s.workers[w := Worker(Marking(e, read, true), [], {})]
    requires e in s2.store.events && view.lotId in s2.store.lots && Inv(Marked(s2, w, e, read))
    ensures Quiet(Marked(s2, w, e, read), e, view)
    ensures Marked(s2, w, e, read).workers == s.workers
  {
    assert s2.workers[w := IDLE] == s.workers;
  }

  lemma MarksLate(s: State, s2: State, w: nat, e: nat, read: nat)
    requires Inv(s) && Reaches(s, s2) && w in s2.workers && s2.workers[w] == Worker(Marking(e, read, true), [], {})
    requires e in s2.store.events && s2.store.events[e].status == Processed && EventFree(s2, w, e)
    ensures Reaches(s, Marked(s2, w, e, read)) && Inv(Marked(s2, w, e, read))
  {
    ReachesInv(s, s2);
    LateMark(s2, w, e, read);
    ReachesNext(s, s2, CommitMark(w));
    ReachesInv(s, Marked(s2, w, e, read));
  }

  /** After that the first one marks the processed event `failed`, and it can be applied again. */
  lemma Clobbers(s: State, w: nat, v: nat, e: nat, view: Device, now: int, skips: bool) returns (t: State)
    requires Quiet(s, e, view) && w != v
    requires skips ==> s.store.events[e].status == Pending
    requires w in s.workers && v in s.workers && s.workers[w] == IDLE && s.workers[v] == IDLE
    ensures Reaches(s, t) && Quiet(t, e, view) && t.workers == s.workers
    ensures t.applied == s.applied + [e] && t.clobbered == s.clobbered + [e]
    ensures t.store.events[e].eventType == s.store.events[e].eventType
    ensures t.store.lots[view.lotId].systemCount
         == CountAfterEvent(s.store.lots[view.lotId].systemCount, s.store.events[e].eventType)
  {
    var read := s.store.events[e].attempts;
    var s2 := FailsThenApplies(s, w, v, e, view, now, skips);
    AfterApply(s.store, e, view, now);
    MarksLate(s, s2, w, e, read);
    MarkedIsQuiet(s, s2, w, e, view, read);
    t := Marked(s2, w, e, read);
  }

  /**
   An event can be applied twice, from any quiet state with two idle workers: the guard on its
   status does not make overlapping calls safe. It has to be pending if a status assigned its old value
   is not written.
   */
  lemma AppliedTwice(s: State, w: nat, v: nat, e: nat, view: Device, now: int, skips: bool)
    returns (schedule: seq<Step>)
    requires Quiet(s, e, view) && w != v && s.store.events[e].eventType == Entry
    requires skips ==> s.store.events[e].status == Pending
    requires w in s.workers && v in s.workers && s.workers[w] == IDLE && s.workers[v] == IDLE
    ensures var t := After(s, schedule);
      && t.applied == s.applied + [e] + [e]
      && t.clobbered == s.clobbered + [e]
      && e in t.store.events && t.store.events[e].status == Processed
      && view.lotId in t.store.lots
      && t.store.lots[view.lotId].systemCount == s.store.lots[view.lotId].systemCount + 2
  {
    var s3 := Clobbers(s, w, v, e, view, now, skips);
    CallApplies(s, s3, v, e, view, now);
    AfterApply(s3.store, e, view, now);
    schedule :| NoSweepStarts(schedule) && After(s, schedule) == CallDone(s3, e, view, now);
  }

  // Two failures.

  /** Both workers are about to mark `e`, with the same attempts read. */
  ghost predicate BothMark(s: State, w: nat, v: nat, e: nat, skips: bool) {
    && Waiting(s.store, e) && w != v && w in s.workers && v in s.workers
    && s.workers[w] == Worker(MarkingOf(s.store.events[e], e, skips), [], {}) == s.workers[v]
    && EventFree(s, w, e) && EventFree(s, v, e)
  }

  lemma BothMarking(s: State, w: nat, v: nat, e: nat, lot: nat, skips: bool)
    requires NobodyHolds(s.workers, e, lot) && w != v && w in s.workers && v in s.workers && Waiting(s.store, e)
    ensures var marking := Worker(MarkingOf(s.store.events[e], e, skips), [], {});
      BothMark(At(At(s, w, marking), v, marking), w, v, e, skips)
  {
  }

  lemma BothFail(s: State, w: nat, v: nat, e: nat, view: Device, skips: bool) returns (t: State)
    requires Quiet(s, e, view) && w != v
    requires w in s.workers && v in s.workers && s.workers[w] == IDLE && s.workers[v] == IDLE
    ensures Reaches(s, t) && t.store == s.store && BothMark(t, w, v, e, skips)
  {
    var marking := Worker(MarkingOf(s.store.events[e], e, skips), [], {});
    ReachesItself(s);
    CallFails(s, s, w, e, skips);
    CallFails(s, At(s, w, marking), v, e, skips);
    BothMarking(s, w, v, e, view.lotId, skips);
    t := At(At(s, w, marking), v, marking);
  }

  /** The mark of an event that is still to be applied leaves it failed either way. */
  lemma MarkCommits(s: State, w: nat, e: nat, pc: Pc)
    requires Sound(s) && w in s.workers && s.workers[w] == Worker(pc, [], {}) && pc.Marking? && pc.e == e
    requires Waiting(s.store, e) && EventFree(s, w, e)
    ensures Take(s, CommitMark(w))
         == State(MarkAs(s.store, e, pc.read + 1, true), s.workers[w := IDLE], s.applied, s.clobbered)
    ensures CommittedBy(s, CommitMark(w)) == [Mark(e, pc.read + 1, pc.sets)]
  {
    var step := CommitMark(w);
    assert Enabled(s, step);
    assert ReadsCurrent(s.store, s.workers[w]);
    assert MarkedRow(s.store.events[e], pc.read + 1, pc.sets) == MarkedRow(s.store.events[e], pc.read + 1, true);
    assert Wrote(s.store, s.workers[w], step) == MarkAs(s.store, e, pc.read + 1, true);
    assert s.applied + [] == s.applied && s.clobbered + [] == s.clobbered;
  }

  lemma TwoSteps(s: State, a: Step, b: Step)
    ensures After(s, [a, b]) == Take(Take(s, a), b)
    ensures Commits(s, [a, b]) == CommittedBy(s, a) + CommittedBy(Take(s, a), b)
  {
    assert [a, b][..1] == [a] && [a][..0] == [];
    assert After(s, [a]) == Take(s, a);
    assert Commits(s, [a]) == CommittedBy(s, a);
  }

  lemma TwoMarks(e: nat, attempts: nat, sets: bool)
    ensures MarksOn([Mark(e, attempts, sets)] + [Mark(e, attempts, sets)], e) == 2
  {
    var mark := [Mark(e, attempts, sets)];
    MarksConcat([], mark, e);
    MarksConcat(mark, mark, e);
    assert [] + mark == mark;
  }

  /** The second mark writes what the first one wrote. */
  lemma SecondMark(s: State, s1: State, w: nat, v: nat, e: nat, skips: bool)
    requires BothMark(s, w, v, e, skips) && Sound(s1)
    requires s1 == State(MarkAs(s.store, e, s.store.events[e].attempts + 1, true), s.workers[w := IDLE],
                         s.applied, s.clobbered)
    ensures Take(s1, CommitMark(v)).store == s1.store
    ensures CommittedBy(s1, CommitMark(v)) == [Mark(e, s.store.events[e].attempts + 1, s.workers[w].pc.sets)]
  {
    MarkCommits(s1, v, e, s1.workers[v].pc);
    assert MarkAs(s1.store, e, s.store.events[e].attempts + 1, true) == s1.store;
  }

  lemma MarksTwice(t: State, w: nat, v: nat, e: nat, skips: bool) returns (marks: seq<Step>)
    requires BothMark(t, w, v, e, skips) && Sound(t) && Sound(Take(t, CommitMark(w)))
    ensures MarksOn(Commits(t, marks), e) == 2
    ensures After(t, marks).store == MarkAs(t.store, e, t.store.events[e].attempts + 1, true)
  {
    marks := [CommitMark(w), CommitMark(v)];
    MarkCommits(t, w, e, t.workers[w].pc);
    SecondMark(t, Take(t, CommitMark(w)), w, v, e, skips);
    TwoSteps(t, CommitMark(w), CommitMark(v));
    TwoMarks(e, t.store.events[e].attempts + 1, t.workers[w].pc.sets);
  }

  lemma TakesSound(s: State, t: State, step: Step)
    requires Inv(s) && Reaches(s, t) && !step.StartSweep?
    ensures Sound(t) && Sound(Take(t, step))
  {
    ReachesInv(s, t);
    ReachesNext(s, t, step);
    ReachesInv(s, Take(t, step));
  }

  /** Both mark their failure, but the attempts go up by one: the cap lets one more call fail. */
  lemma MarkIsLost(s: State, w: nat, v: nat, e: nat, view: Device, skips: bool) returns (t: State, marks: seq<Step>)
    requires Quiet(s, e, view) && w != v
    requires w in s.workers && v in s.workers && s.workers[w] == IDLE && s.workers[v] == IDLE
    ensures Reaches(s, t) && t.store == s.store
    ensures MarksOn(Commits(t, marks), e) == 2
    ensures After(t, marks).store == MarkAs(t.store, e, t.store.events[e].attempts + 1, true)
  {
    t := BothFail(s, w, v, e, view, skips);
    TakesSound(s, t, CommitMark(w));
    marks := MarksTwice(t, w, v, e, skips);
  }
}
