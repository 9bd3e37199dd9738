/**
 Over every schedule of overlapping calls the committed store is what some serial run of whole
 transactions gives, in commit order. So everything proved of serial runs holds of schedules.
 */
module Serializability {
  import opened Wrappers
  import opened ParkingStore
  import opened Operations
  import opened Ledger
  import opened Protocol

  /** The transaction a worker's step commits, if any. */
  function OpOf(store: Store, worker: Worker, step: Step): seq<Op>
    requires Ready(store, worker, step)
  {
    var pc := worker.pc;
    match step
    case CommitApply(_, now) =>
      [Apply(pc.e, if pc.HasLot? then Some(pc.view.lotId) else None, pc.view.code, now)]
    case CommitMark(_) => [Mark(pc.e, pc.read + 1, pc.sets)]
    case CommitRow(_) => [pc.op]
    case _ => []
  }

  function OpsOf(s: State, step: Step): seq<Op>
    requires Enabled(s, step)
  {
    match step
    case Crash(_) => []
    case Env(op) => [op]
    case _ => OpOf(s.store, s.workers[step.w], step)
  }

  /** A step that is not enabled when its turn comes does nothing. */
  function Take(s: State, step: Step): State {
    if Sound(s) && Enabled(s, step) then Next(s, step) else s
  }

  /** The step is the worker's own, and it is taken. */
  predicate Moves(s: State, step: Step, u: nat) {
    Sound(s) && Enabled(s, step) && !step.Crash? && !step.Env? && step.w == u
  }

  lemma MovedWorkers(s: State, step: Step)
    requires Sound(s) && Enabled(s, step) && !step.Crash? && !step.Env?
    ensures Take(s, step).workers == s.workers[step.w := Moved(s.store, s.workers[step.w], step)]
  {
  }

  lemma LeftWorkers(s: State, step: Step, u: nat)
    requires !(Sound(s) && Enabled(s, step)) || step.Crash? || step.Env?
    requires u in Take(s, step).workers
    ensures u in s.workers
    ensures Take(s, step).workers[u] == s.workers[u] || Take(s, step).workers[u] == IDLE
  {
  }

  /** A step moves its own worker, or makes some idle; the others stay where they are. */
  lemma TakenWorker(s: State, step: Step, u: nat)
    requires u in Take(s, step).workers
    ensures u in s.workers
    ensures Moves(s, step, u) ==> Take(s, step).workers[u] == Moved(s.store, s.workers[u], step)
    ensures !Moves(s, step, u) ==> Take(s, step).workers[u] == s.workers[u] || Take(s, step).workers[u] == IDLE
  {
    if Sound(s) && Enabled(s, step) && !step.Crash? && !step.Env? {
      MovedWorkers(s, step);
    } else {
      LeftWorkers(s, step, u);
    }
  }

  /** A schedule is any list of steps. */
  function After(s: State, schedule: seq<Step>): State {
    if schedule == [] then s
    else Take(After(s, schedule[..|schedule| - 1]), schedule[|schedule| - 1])
  }

  /** The transaction that taking the step commits, if any. */
  function CommittedBy(s: State, step: Step): (ops: seq<Op>)
    ensures |ops| <= 1
  {
    if Sound(s) && Enabled(s, step) then OpsOf(s, step) else []
  }

  function Commits(s: State, schedule: seq<Step>): seq<Op> {
    if schedule == [] then []
    else
      var init := schedule[..|schedule| - 1];
      Commits(s, init) + CommittedBy(After(s, init), schedule[|schedule| - 1])
  }

  /** No worker is doing anything yet. */
  ghost predicate Fresh(s: State) {
    StoreOk(s.store) && forall w | w in s.workers :: s.workers[w] == IDLE
  }

  lemma FreshInv(s: State)
    requires Fresh(s)
    ensures Inv(s)
  {
  }

  lemma RunOne(s: Store, op: Op)
    ensures Run(s, [op]) == Do(s, op)
  {
    assert [op][..0] == [];
  }

  /** What a worker writes over the value it read is what the transaction does to the latest store. */
  lemma ApplyIsSerial(store: Store, worker: Worker, step: Step)
    requires step.CommitApply? && Ready(store, worker, step) && ReadsCurrent(store, worker)
    requires ShapeOk(worker)
    ensures Wrote(store, worker, step) == Do(store, OpOf(store, worker, step)[0])
  {
  }

  lemma RowIsSerial(store: Store, worker: Worker, step: Step)
    requires step.CommitRow? && Ready(store, worker, step) && ReadsCurrent(store, worker) && ShapeOk(worker)
    ensures Wrote(store, worker, step) == Do(store, worker.pc.op)
  {
  }

  lemma WroteIsSerial(store: Store, worker: Worker, step: Step)
    requires Ready(store, worker, step) && ShapeOk(worker) && ReadsCurrent(store, worker)
    ensures Wrote(store, worker, step) == Run(store, OpOf(store, worker, step))
  {
    var ops := OpOf(store, worker, step);
    if step.CommitApply? {
      ApplyIsSerial(store, worker, step);
      RunOne(store, ops[0]);
    } else if step.CommitRow? {
      RowIsSerial(store, worker, step);
      RunOne(store, ops[0]);
    } else if step.CommitMark? {
      RunOne(store, ops[0]);
    }
  }

  lemma StepIsSerial(s: State, step: Step)
    requires Sound(s) && Enabled(s, step)
    ensures Next(s, step).store == Run(s.store, OpsOf(s, step))
  {
    if step.Env? {
      RunOne(s.store, step.op);
    } else if !step.Crash? {
      WroteIsSerial(s.store, s.workers[step.w], step);
    }
  }

  /** Locks stay exclusive, reads under them current, and the store consistent, at every step. */
  lemma InvKept(s: State, step: Step)
    requires Inv(s) && Enabled(s, step)
    ensures Inv(Next(s, step))
  {
    NextSound(s, step);
    NextExclusive(s, step);
    StepIsSerial(s, step);
    StoreOkOverRun(s.store, OpsOf(s, step));
  }

  lemma {:induction false} Serializable(s: State, schedule: seq<Step>)
    requires Inv(s)
    ensures Inv(After(s, schedule))
    ensures After(s, schedule).store == Run(s.store, Commits(s, schedule))
  {
    if schedule != [] {
      var init, step := schedule[..|schedule| - 1], schedule[|schedule| - 1];
      Serializable(s, init);
      var before := After(s, init);
      if Enabled(before, step) {
        InvKept(before, step);
        StepIsSerial(before, step);
        RunConcat(s.store, Commits(s, init), OpsOf(before, step));
      } else {
        assert Commits(s, init) + [] == Commits(s, init);
      }
    }
  }
}
