/**
 Who waits for whom. process_event locks an event row and then a lot row, adjust_count and
 reset_count only a lot row; but a sweep keeps the locks of rows it skips until its next commit.
 So overlapping sweeps are the only way to a deadlock, and they need to list rows in conflicting
 orders, which rows received at the same instant allow.
 */
module Deadlock {
  import opened ParkingStore
  import opened Protocol
  import opened Serializability
  import opened Sweep

  /** Worker `v` cannot go on before `u` releases a row. */
  predicate WaitsFor(s: State, v: nat, u: nat) {
    && v in s.workers && u in s.workers && v != u
    && var pc := s.workers[v].pc;
       || ((pc.WantEvent? || pc.Marking?) && HoldsEvent(s.workers[u], pc.e))
       || (pc.WantLot? && HoldsLot(s.workers[u], pc.view.lotId))
       || (pc.WantRow? && HoldsLot(s.workers[u], LotOf(pc.op)))
  }

  ghost predicate Blocked(s: State, v: nat) {
    exists u :: WaitsFor(s, v, u)
  }

  ghost predicate WaitCycle(s: State, cycle: seq<nat>) {
    && |cycle| >= 2 && cycle[0] == cycle[|cycle| - 1]
    && forall i | 0 <= i < |cycle| - 1 :: WaitsFor(s, cycle[i], cycle[i + 1])
  }

  /** A sweep that waits for an event row while it keeps one it skipped. */
  predicate KeepsAndWaits(s: State, w: nat) {
    w in s.workers && s.workers[w].pc.WantEvent? && s.workers[w].kept != {}
  }

  lemma LotHoldersRun(s: State, v: nat, u: nat)
    requires WaitsFor(s, v, u) && (s.workers[v].pc.WantLot? || s.workers[v].pc.WantRow?)
    ensures !Blocked(s, u)
  {
  }

  /** Whoever is waited for and waits in turn is such a sweep, or the chain ends at the next worker. */
  lemma MiddleIsSweep(s: State, v: nat, u: nat, t: nat)
    requires Inv(s) && WaitsFor(s, v, u) && WaitsFor(s, u, t) && Blocked(s, t)
    ensures s.workers[v].pc.WantEvent? || s.workers[v].pc.Marking?
    ensures KeepsAndWaits(s, u)
    ensures s.workers[v].pc.e in s.workers[u].kept
  {
    if s.workers[v].pc.WantLot? || s.workers[v].pc.WantRow? {
      LotHoldersRun(s, v, u);
      assert false;
    }
    if s.workers[u].pc.WantLot? {
      LotHoldersRun(s, u, t);
      assert false;
    }
  }

  lemma CycleOfSweeps(s: State, cycle: seq<nat>, i: nat)
    requires Inv(s) && WaitCycle(s, cycle) && i < |cycle| - 1
    ensures KeepsAndWaits(s, cycle[i]) && KeepsAndWaits(s, cycle[i + 1])
    ensures s.workers[cycle[i]].pc.e in s.workers[cycle[i + 1]].kept
  {
    var n := |cycle| - 1;
    var after, later := if i + 1 < n then i + 2 else 1, if i == 0 then n - 1 else i - 1;
    assert WaitsFor(s, cycle[i], cycle[i + 1]);
    assert WaitsFor(s, cycle[i + 1], cycle[after]);
    assert WaitsFor(s, cycle[later], cycle[i]);
    assert WaitsFor(s, cycle[after], cycle[if after < n then after + 1 else 1]);
    MiddleIsSweep(s, cycle[i], cycle[i + 1], cycle[after]);
    MiddleIsSweep(s, cycle[later], cycle[i], cycle[i + 1]);
  }

  /** A sweep that keeps a row itself waits for one that another sweep skipped and keeps. */
  predicate WantsKept(s: State, v: nat, u: nat) {
    KeepsAndWaits(s, v) && u in s.workers && v != u && s.workers[v].pc.e in s.workers[u].kept
  }

  ghost predicate SweepRing(s: State, ring: seq<nat>) {
    && |ring| >= 2 && ring[0] == ring[|ring| - 1]
    && forall i | 0 <= i < |ring| - 1 :: WantsKept(s, ring[i], ring[i + 1])
  }

  /** The wait cycles are exactly those rings. */
  lemma CycleIffRing(s: State, cycle: seq<nat>)
    requires Inv(s)
    ensures WaitCycle(s, cycle) <==> SweepRing(s, cycle)
  {
    if WaitCycle(s, cycle) {
      forall i | 0 <= i < |cycle| - 1 ensures WantsKept(s, cycle[i], cycle[i + 1]) {
        assert WaitsFor(s, cycle[i], cycle[i + 1]);
        CycleOfSweeps(s, cycle, i);
      }
    }
    if SweepRing(s, cycle) {
      forall i | 0 <= i < |cycle| - 1 ensures WaitsFor(s, cycle[i], cycle[i + 1]) {
        assert WantsKept(s, cycle[i], cycle[i + 1]);
        assert HoldsEvent(s.workers[cycle[i + 1]], s.workers[cycle[i]].pc.e);
      }
    }
  }

  /** With at most one sweep holding skipped rows there is no deadlock. */
  lemma OneSweepNoCycle(s: State, cycle: seq<nat>)
    requires Inv(s)
    requires forall v, u |
      v in s.workers && u in s.workers && s.workers[v].kept != {} && s.workers[u].kept != {} :: v == u
    ensures !WaitCycle(s, cycle)
  {
    if WaitCycle(s, cycle) {
      assert WaitsFor(s, cycle[0], cycle[1]);
      CycleOfSweeps(s, cycle, 0);
    }
  }

  // Sweeps that list rows in one common order.

  predicate Ascends(ids: seq<nat>, rank: nat -> int) {
    forall i, j | 0 <= i < j < |ids| :: rank(ids[i]) < rank(ids[j])
  }

  predicate WorkerOrdered(worker: Worker, rank: nat -> int) {
    && Ascends(worker.todo, rank)
    && (forall k, e | k in worker.kept && e in worker.todo :: rank(k) < rank(e))
    && (worker.pc.WantEvent? ==>
          && (forall k | k in worker.kept :: rank(k) < rank(worker.pc.e))
          && (forall e | e in worker.todo :: rank(worker.pc.e) < rank(e)))
  }

  predicate Ordered(s: State, rank: nat -> int) {
    forall w | w in s.workers :: WorkerOrdered(s.workers[w], rank)
  }

  lemma {:induction false} RankClimbs(s: State, cycle: seq<nat>, rank: nat -> int, i: nat)
    requires Inv(s) && Ordered(s, rank) && WaitCycle(s, cycle) && 0 < i < |cycle|
    ensures KeepsAndWaits(s, cycle[0]) && KeepsAndWaits(s, cycle[i])
    ensures rank(s.workers[cycle[0]].pc.e) < rank(s.workers[cycle[i]].pc.e)
  {
    CycleOfSweeps(s, cycle, i - 1);
    if i > 1 {
      RankClimbs(s, cycle, rank, i - 1);
    }
  }

  lemma OrderedNoCycle(s: State, cycle: seq<nat>, rank: nat -> int)
    requires Inv(s) && Ordered(s, rank)
    ensures !WaitCycle(s, cycle)
  {
    if WaitCycle(s, cycle) {
      RankClimbs(s, cycle, rank, |cycle| - 1);
    }
  }

  /** Steps by which a call goes forward; exceptions and crashes are not among them. */
  predicate Progress(step: Step) {
    step.NextListed? || step.LockEvent? || step.LoadDevice? || step.LockLot? || step.CommitApply? ||
    step.CommitMark? || step.LockRow? || step.CommitRow?
  }

  /** A worker that others wait for, and that waits for nobody, can go forward. */
  lemma HolderCanMove(s: State, v: nat, u: nat) returns (step: Step)
    requires Inv(s) && WaitsFor(s, v, u) && !Blocked(s, u)
    ensures Progress(step) && step.w == u && Enabled(s, step)
  {
    var pc := s.workers[u].pc;
    match pc
    case Idle => step := NextListed(u);
    case WantEvent(e) =>
      step := LockEvent(u);
      forall x | x in s.workers && x != u && HoldsEvent(s.workers[x], e) ensures false {
        assert WaitsFor(s, u, x);
      }
    case HasEvent(e) => step := LoadDevice(u, s.store.devices[s.store.events[e].deviceId]);
    case WantLot(_, view) =>
      step := LockLot(u);
      forall x | x in s.workers && x != u && HoldsLot(s.workers[x], view.lotId) ensures false {
        assert WaitsFor(s, u, x);
      }
    case HasLot(_, _, _) => step := CommitApply(u, 0);
    case NoLot(_, _) => step := CommitApply(u, 0);
    case HasRow(_, _) => step := CommitRow(u);
    case _ => assert false;
  }

  ghost function Higher(s: State, v: nat, rank: nat -> int): set<nat>
    requires v in s.workers
  {
    set x | x in s.workers && s.workers[x].pc.WantEvent?
            && (s.workers[v].pc.WantEvent? ==> rank(s.workers[x].pc.e) > rank(s.workers[v].pc.e))
  }

  /** `chain` leads from `v` along who waits for whom to the worker of `step`, which can go forward. */
  ghost predicate Unblocks(s: State, v: nat, chain: seq<nat>, step: Step) {
    && |chain| >= 2 && chain[0] == v
    && (forall i | 0 <= i < |chain| - 1 :: WaitsFor(s, chain[i], chain[i + 1]))
    && Progress(step) && step.w == chain[|chain| - 1] && Enabled(s, step)
  }

  lemma ChainGrows(s: State, v: nat, u: nat, chain: seq<nat>, step: Step)
    requires WaitsFor(s, v, u) && Unblocks(s, u, chain, step)
    ensures Unblocks(s, v, [v] + chain, step)
  {
    var longer := [v] + chain;
    forall i | 0 <= i < |longer| - 1 ensures WaitsFor(s, longer[i], longer[i + 1]) {
      if i > 0 { assert WaitsFor(s, chain[i - 1], chain[i]); }
    }
  }

  lemma HolderUnblocks(s: State, v: nat, u: nat) returns (step: Step)
    requires Inv(s) && WaitsFor(s, v, u) && !Blocked(s, u)
    ensures Unblocks(s, v, [v, u], step)
  {
    step := HolderCanMove(s, v, u);
  }

  lemma HigherUp(s: State, v: nat, u: nat, rank: nat -> int)
    requires Ordered(s, rank) && v in s.workers && KeepsAndWaits(s, u)
    requires s.workers[v].pc.WantEvent? ==> s.workers[v].pc.e in s.workers[u].kept
    ensures Higher(s, u, rank) < Higher(s, v, rank)
  {
    assert WorkerOrdered(s.workers[u], rank);
    assert u in Higher(s, v, rank) && u !in Higher(s, u, rank);
  }

  /** From any waiting worker the chain of waiting ends at one that can go forward. */
  lemma {:induction false} SomeoneMoves(s: State, v: nat, rank: nat -> int) returns (chain: seq<nat>, step: Step)
    requires Inv(s) && Ordered(s, rank) && v in s.workers && Blocked(s, v)
    ensures Unblocks(s, v, chain, step)
    decreases Higher(s, v, rank)
  {
    var u :| WaitsFor(s, v, u);
    if !Blocked(s, u) {
      step := HolderUnblocks(s, v, u);
      chain := [v, u];
    } else {
      var t :| WaitsFor(s, u, t);
      if !Blocked(s, t) {
        step := HolderUnblocks(s, u, t);
        chain := [u, t];
      } else {
        MiddleIsSweep(s, v, u, t);
        HigherUp(s, v, u, rank);
        chain, step := SomeoneMoves(s, u, rank);
      }
      ChainGrows(s, v, u, chain, step);
      chain := [v] + chain;
    }
  }

  predicate ListsAscend(step: Step, rank: nat -> int) {
    step.StartSweep? ==> Ascends(step.batch, rank)
  }

  lemma NextOrdered(worker: Worker, rank: nat -> int)
    requires worker.pc.Idle? && worker.todo != [] && WorkerOrdered(worker, rank)
    ensures WorkerOrdered(Worker(WantEvent(worker.todo[0]), worker.todo[1..], worker.kept), rank)
  {
    var rest := worker.todo[1..];
    assert worker.todo[0] in worker.todo;
    forall e | e in rest ensures e in worker.todo && rank(worker.todo[0]) < rank(e) {
      var i :| 0 <= i < |rest| && rest[i] == e;
      assert worker.todo[i + 1] == e;
    }
  }

  lemma MovedOrdered(store: Store, worker: Worker, step: Step, rank: nat -> int)
    requires Ready(store, worker, step) && WorkerOrdered(worker, rank) && ListsAscend(step, rank)
    ensures WorkerOrdered(Moved(store, worker, step), rank)
  {
    if step.NextListed? {
      NextOrdered(worker, rank);
    }
  }

  lemma {:induction false} StaysOrdered(s: State, schedule: seq<Step>, rank: nat -> int)
    requires Ordered(s, rank) && forall step | step in schedule :: ListsAscend(step, rank)
    ensures Ordered(After(s, schedule), rank)
  {
    if schedule != [] {
      var init, step := schedule[..|schedule| - 1], schedule[|schedule| - 1];
      assert step in schedule;
      assert forall other | other in init :: other in schedule;
      StaysOrdered(s, init, rank);
      TakeOrdered(After(s, init), step, rank);
    }
  }

  lemma TakeOrdered(s: State, step: Step, rank: nat -> int)
    requires Ordered(s, rank) && ListsAscend(step, rank)
    ensures Ordered(Take(s, step), rank)
  {
    forall u | u in Take(s, step).workers ensures WorkerOrdered(Take(s, step).workers[u], rank) {
      if Moves(s, step, u) {
        MovedOrdered(s.store, s.workers[u], step, rank);
      }
      TakenWorker(s, step, u);
    }
  }

  /**
   If all sweeps list rows in one common strict order, the wait-for graph has no cycle in any
   reachable state, and whoever waits, waits in the end for somebody who can go forward.
   */
  lemma DeadlockFree(s: State, schedule: seq<Step>, rank: nat -> int)
    requires Fresh(s) && forall step | step in schedule :: ListsAscend(step, rank)
    ensures forall cycle :: !WaitCycle(After(s, schedule), cycle)
    ensures forall v | v in s.workers && Blocked(After(s, schedule), v) ::
      exists chain, step :: Unblocks(After(s, schedule), v, chain, step)
  {
    FreshInv(s);
    Serializable(s, schedule);
    StaysOrdered(s, schedule, rank);
    var t := After(s, schedule);
    forall cycle { OrderedNoCycle(t, cycle, rank); }
    forall v | v in s.workers && Blocked(t, v) ensures exists chain, step :: Unblocks(t, v, chain, step) {
      var u :| WaitsFor(t, v, u);
      var chain, step := SomeoneMoves(t, v, rank);
    }
  }

  /** Order by arrival is such an order as long as no two rows arrive at the same instant. */
  lemma ArrivalOrders(queue: Queue, cutoff: int, limit: nat, maxAttempts: nat, batch: seq<nat>, rank: nat -> int)
    requires IsBatch(queue, cutoff, limit, maxAttempts, batch)
    requires forall e | e in queue :: rank(e) == queue[e].receivedAt
    requires forall e, f | e in queue && f in queue && queue[e].receivedAt == queue[f].receivedAt :: e == f
    ensures Ascends(batch, rank)
  {
    forall i, j | 0 <= i < j < |batch| ensures rank(batch[i]) < rank(batch[j]) {
      assert batch[i] in batch && batch[j] in batch;
    }
  }
}
