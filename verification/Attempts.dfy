/**
 What `attempts` counts when calls overlap. The failure mark reads and writes it without a lock, so
 of two overlapping marks one may get lost; but it never counts more than was marked.
 */
module Attempts {
  import opened ParkingStore
  import opened Operations
  import opened Ledger
  import opened Protocol
  import opened Serializability
  import opened Accounting

  /** How many failure marks of `e` are among the commits. */
  function MarksOn(ops: seq<Op>, e: nat): nat {
    if ops == [] then 0
    else
      var last := ops[|ops| - 1];
      MarksOn(ops[..|ops| - 1], e) + if last.Mark? && last.event == e then 1 else 0
  }

  predicate Removes(op: Op, device: nat) {
    op == DeleteDevice(device) || op == DailyReset
  }

  /** No step of the schedule removes the event on purpose. */
  predicate Keeps(schedule: seq<Step>, device: nat) {
    forall step | step in schedule :: step.Env? ==> !Removes(step.op, device)
  }

  predicate Marks(worker: Worker, e: nat) {
    worker.pc.Marking? && worker.pc.e == e
  }

  /**
   With `total` marks charged so far: neither the row nor a worker about to mark it knows of more,
   and a worker knows of all of them only if the row does.
   */
  ghost predicate Level(s: State, e: nat, total: int) {
    && e in s.store.events && s.store.events[e].attempts <= total
    && forall w | w in s.workers && Marks(s.workers[w], e) ::
         && s.workers[w].pc.read <= total
         && (s.workers[w].pc.read == total ==> s.store.events[e].attempts == total)
  }

  /** If the step marks `e`, its row still shows the attempts the worker read. */
  predicate MarkIsCurrent(s: State, step: Step, e: nat) {
    step.CommitMark? && Enabled(s, step) && Marks(s.workers[step.w], e) ==>
      s.workers[step.w].pc.read == s.store.events[e].attempts
  }

  /** Level, and the row shows all `total` marks exactly if `exact`. */
  ghost predicate Tallied(s: State, e: nat, device: nat, total: int, exact: bool) {
    && Level(s, e, total) && s.store.events[e].deviceId == device
    && (s.store.events[e].attempts == total <==> exact)
  }

  lemma {:induction false} MarksConcat(first: seq<Op>, second: seq<Op>, e: nat)
    requires |second| <= 1
    ensures MarksOn(first + second, e) == MarksOn(first, e) + MarksOn(second, e)
  {
    if second == [] {
      assert first + second == first;
    } else {
      assert (first + second)[..|first + second| - 1] == first;
      assert second[..0] == [];
    }
  }

  lemma EnvKeepsAttempts(s: State, op: Op, e: nat)
    requires ReferencesOk(s.store) && EnvFree(s, op)
    requires e in s.store.events && !Removes(op, s.store.events[e].deviceId)
    ensures e in Do(s.store, op).events && Do(s.store, op).events[e] == s.store.events[e]
    ensures MarksOn([op], e) == 0
  {
    assert [op][..0] == [];
  }

  lemma EnvLevel(s: State, op: Op, e: nat, total: int)
    requires ReferencesOk(s.store) && Sound(s) && EnvFree(s, op) && Level(s, e, total)
    requires !Removes(op, s.store.events[e].deviceId)
    ensures Tallied(Next(s, Env(op)), e, s.store.events[e].deviceId, total + MarksOn([op], e),
                    s.store.events[e].attempts == total)
  {
    EnvKeepsAttempts(s, op, e);
  }

  /** What a worker's step adds to the attempts on one row, and what it then knows. */
  lemma WorkerMarks(store: Store, worker: Worker, step: Step, e: nat)
    requires Ready(store, worker, step) && ShapeOk(worker) && ReadsCurrent(store, worker) && e in store.events
    ensures e in Wrote(store, worker, step).events
    ensures Wrote(store, worker, step).events[e].deviceId == store.events[e].deviceId
    ensures Wrote(store, worker, step).events[e].attempts
         == if step.CommitMark? && worker.pc.e == e then worker.pc.read + 1 else store.events[e].attempts
    ensures MarksOn(OpOf(store, worker, step), e) == if step.CommitMark? && worker.pc.e == e then 1 else 0
    ensures Marks(Moved(store, worker, step), e) ==>
      step.ReadForMark? && Moved(store, worker, step).pc.read == store.events[e].attempts
  {
    EventsAfter(store, worker, step);
    var ops := OpOf(store, worker, step);
    assert ops != [] ==> ops[..|ops| - 1] == [];
  }

  lemma MoveLevel(s: State, step: Step, e: nat, total: int)
    requires Sound(s) && Enabled(s, step) && !step.Env? && !step.Crash? && Level(s, e, total)
    ensures Tallied(Next(s, step), e, s.store.events[e].deviceId, total + MarksOn(OpsOf(s, step), e),
                    s.store.events[e].attempts == total && MarkIsCurrent(s, step, e))
  {
    WorkerMarks(s.store, s.workers[step.w], step, e);
  }

  lemma TakeLevel(s: State, step: Step, e: nat, total: int)
    requires ReferencesOk(s.store) && Sound(s) && Level(s, e, total)
    requires step.Env? ==> !Removes(step.op, s.store.events[e].deviceId)
    ensures Tallied(Take(s, step), e, s.store.events[e].deviceId, total + MarksOn(CommittedBy(s, step), e),
                    s.store.events[e].attempts == total && MarkIsCurrent(s, step, e))
  {
    if Enabled(s, step) {
      if step.Env? {
        EnvLevel(s, step.op, e, total);
      } else if !step.Crash? {
        MoveLevel(s, step, e, total);
      }
    }
  }

  ghost predicate AllCurrent(s: State, schedule: seq<Step>, e: nat) {
    forall k | 0 <= k < |schedule| :: MarkIsCurrent(After(s, schedule[..k]), schedule[k], e)
  }

  lemma AllCurrentSnoc(s: State, schedule: seq<Step>, e: nat)
    requires schedule != []
    ensures var n := |schedule| - 1;
      AllCurrent(s, schedule, e)
      <==> AllCurrent(s, schedule[..n], e) && MarkIsCurrent(After(s, schedule[..n]), schedule[n], e)
  {
    var n := |schedule| - 1;
    assert forall k | 0 <= k < n :: schedule[..n][..k] == schedule[..k];
  }

  /**
   Over every schedule `attempts` grows by at most the failure marks committed on the row, and by
   exactly as many if and only if each of them wrote over the value it had read.
   */
  lemma {:induction false} AttemptsCountMarks(s: State, schedule: seq<Step>, e: nat)
    requires Inv(s) && e in s.store.events && Level(s, e, s.store.events[e].attempts)
    requires Keeps(schedule, s.store.events[e].deviceId)
    ensures Tallied(After(s, schedule), e, s.store.events[e].deviceId,
                    s.store.events[e].attempts + MarksOn(Commits(s, schedule), e), AllCurrent(s, schedule, e))
  {
    if schedule != [] {
      var init, step := schedule[..|schedule| - 1], schedule[|schedule| - 1];
      assert step in schedule;
      assert forall other | other in init :: other in schedule;
      AttemptsCountMarks(s, init, e);
      Serializable(s, init);
      AllCurrentSnoc(s, schedule, e);
      MarksConcat(Commits(s, init), CommittedBy(After(s, init), step), e);
      TakeLevel(After(s, init), step, e, s.store.events[e].attempts + MarksOn(Commits(s, init), e));
    }
  }
}
