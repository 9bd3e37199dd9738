/**
 Overlapping calls. Every process_event, adjust_count and reset_count is cut into its database
 steps; workers take them in any order, sweeps and client retries come at any time, any call may
 raise, and any set of workers may crash. A row lock is held from the locking read to the end of
 the worker's transaction; a commit that raises has not happened.
 */
module Protocol {
  import opened Wrappers
  import opened ParkingStore
  import opened Operations
  import opened Ledger

  /** Where a worker is. */
  datatype Pc =
    | Idle
    | WantEvent(e: nat)                               // about to lock the event row
    | HasEvent(e: nat)                                // locked it, status guard passed
    | WantLot(e: nat, view: Device)                   // read the device, about to lock its lot
    | HasLot(e: nat, view: Device, before: int)       // locked the lot and read its counter
    | NoLot(e: nat, view: Device)                     // the lot was not found
    | RolledBack(e: nat)                              // the try block raised; nothing is locked
    | Marking(e: nat, read: nat, sets: bool)          // read the attempts for the failure mark
    | WantRow(op: Op)                                 // adjust or reset, about to lock the lot
    | HasRow(op: Op, before: int)                     // locked it and read its counter

  /**
   `todo` is the rest of the list a sweep works through. `kept` are the event rows a sweep locked
   and skipped in its current transaction: the early return of process_event ends no transaction.
   */
  datatype Worker = Worker(pc: Pc, todo: seq<nat>, kept: set<nat>)

  const IDLE := Worker(Idle, [], {})

  /** `applied` lists the commits that applied an event, `clobbered` the failure marks that landed
      on a processed row; both since the event table was last truncated. */
  datatype State = State(store: Store, workers: map<nat, Worker>, applied: seq<nat>, clobbered: seq<nat>)

  datatype Step =
    | Call(w: nat, e: nat)                    // a scheduled background task starts
    | StartSweep(w: nat, batch: seq<nat>)
    | NextListed(w: nat)
    | LockEvent(w: nat)
    | LookupRaises(w: nat)                    // line 114, outside the try block
    | LoadDevice(w: nat, view: Device)        // the device row as this session last loaded it
    | LockLot(w: nat)
    | CommitApply(w: nat, now: int)
    | Fail(w: nat)                            // any exception in the try block, then rollback
    | ReadForMark(w: nat, skips: bool)        // if it skips, a status assigned its old value is not written
    | MarkRaises(w: nat)
    | CommitMark(w: nat)
    | StartManual(w: nat, op: Op)
    | LockRow(w: nat)
    | CommitRow(w: nat)
    | Abandon(w: nat)                         // an exception in adjust or reset
    | Crash(ws: set<nat>)
    | Env(op: Op)                             // a transaction that takes its locks only to commit

  // Locks.

  predicate PcHoldsEvent(pc: Pc, e: nat) {
    (pc.HasEvent? || pc.WantLot? || pc.HasLot? || pc.NoLot?) && pc.e == e
  }

  predicate HoldsEvent(worker: Worker, e: nat) {
    PcHoldsEvent(worker.pc, e) || e in worker.kept
  }

  predicate HoldsLot(worker: Worker, lot: nat) {
    (worker.pc.HasLot? && worker.pc.view.lotId == lot) || (worker.pc.HasRow? && LotOf(worker.pc.op) == lot)
  }

  predicate EventFree(s: State, w: nat, e: nat) {
    forall v | v in s.workers && v != w :: !HoldsEvent(s.workers[v], e)
  }

  predicate LotFree(s: State, w: nat, lot: nat) {
    forall v | v in s.workers && v != w :: !HoldsLot(s.workers[v], lot)
  }

  predicate Manual(op: Op) {
    op.Adjust? || op.Reset?
  }

  function LotOf(op: Op): nat {
    match op
    case Adjust(lot, _, _) => lot
    case Reset(lot, _, _, _) => lot
    case _ => 0
  }

  function SideOf(op: Op): Target {
    if op.Reset? then op.target else Current
  }

  /** What adjust_count or reset_count writes, from the value it read. */
  function Written(op: Op, before: int): int {
    match op
    case Adjust(_, delta, _) => Max0(before + delta)
    case Reset(_, count, _, _) => count
    case _ => before
  }

  function StampOf(op: Op): Stamp
    requires Manual(op)
  {
    op.stamp
  }

  function KindOf(op: Op): ActivityType {
    if op.Reset? then ResetKind(op.target) else ManualAdjustment
  }

  /** Locks that the direct transactions wait for. */
  predicate EnvFree(s: State, op: Op) {
    match op
    case CreateLot(_, _) | RegisterDevice(_, _) | UpdateDevice(_, _, _) | Enqueue(_, _, _, _, _, _) => true
    case DeleteLot(lot) => forall v | v in s.workers :: !HoldsLot(s.workers[v], lot)
    case DeleteDevice(device) =>
      forall e, v | e in s.store.events && s.store.events[e].deviceId == device && v in s.workers ::
        !HoldsEvent(s.workers[v], e)
    case ResetAll(_, _) => NoLotHeld(s)
    case DailyReset => NoLotHeld(s) && NoEventHeld(s)
    case _ => false
  }

  predicate NoLotHeld(s: State) {
    forall v | v in s.workers :: !s.workers[v].pc.HasLot? && !s.workers[v].pc.HasRow?
  }

  /** Nobody has an event row locked, or read one for a mark: truncating the table waits for both. */
  predicate NoEventHeld(s: State) {
    forall v | v in s.workers ::
      var pc := s.workers[v].pc;
      !pc.HasEvent? && !pc.WantLot? && !pc.HasLot? && !pc.NoLot? && !pc.Marking? && s.workers[v].kept == {}
  }

  predicate Busy(pc: Pc) {
    pc.HasEvent? || pc.WantLot? || pc.HasLot? || pc.NoLot?
  }

  /** What a step asks of the worker that takes it. */
  predicate Ready(store: Store, worker: Worker, step: Step) {
    match step
    case Call(_, _) => worker == IDLE
    case StartSweep(_, _) => worker == IDLE
    case StartManual(_, op) => worker == IDLE && Manual(op)
    case NextListed(_) => worker.pc.Idle? && worker.todo != []
    case LockEvent(_) => worker.pc.WantEvent?
    case LookupRaises(_) => worker.pc.WantEvent?
    case LoadDevice(_, _) => worker.pc.HasEvent?
    case LockLot(_) => worker.pc.WantLot?
    case CommitApply(_, _) => worker.pc.HasLot? || worker.pc.NoLot?
    case Fail(_) => Busy(worker.pc)
    case ReadForMark(_, _) => worker.pc.RolledBack? && worker.pc.e in store.events
    case MarkRaises(_) => worker.pc.RolledBack? || worker.pc.Marking?
    case CommitMark(_) => worker.pc.Marking? && worker.pc.e in store.events
    case LockRow(_) => worker.pc.WantRow?
    case CommitRow(_) => worker.pc.HasRow?
    case Abandon(_) => worker.pc.WantRow? || worker.pc.HasRow?
    case Crash(_) => false
    case Env(_) => false
  }

  /** The row locks a step has to wait for. */
  predicate Granted(s: State, w: nat, pc: Pc, step: Step) {
    match step
    case LockEvent(_) => pc.WantEvent? && EventFree(s, w, pc.e)
    case CommitMark(_) => pc.Marking? && EventFree(s, w, pc.e)
    case LockLot(_) => pc.WantLot? && LotFree(s, w, pc.view.lotId)
    case LockRow(_) => pc.WantRow? && LotFree(s, w, LotOf(pc.op))
    case _ => true
  }

  predicate Enabled(s: State, step: Step) {
    match step
    case Crash(ws) => true
    case Env(op) => EnvFree(s, op)
    case _ =>
      && step.w in s.workers
      && Ready(s.store, s.workers[step.w], step)
      && Granted(s, step.w, s.workers[step.w].pc, step)
  }

  /** A call returned without ending its transaction; closing the session after the last one does. */
  function Returned(worker: Worker, kept: set<nat>): Worker {
    if worker.todo == [] then IDLE else Worker(Idle, worker.todo, kept)
  }

  /** The store's counter and log after a worker writes `n` over the `before` it read. */
  function Write(store: Store, lot: nat, kind: ActivityType, before: int, n: int, stamp: Stamp): Store
    requires lot in store.lots
  {
    Append(SetCount(store, lot, Side(kind), n), lot, kind, n - before, n, stamp)
  }

  /** A mark sets the status unless that was `failed` already and is then not written. */
  function MarkingOf(row: Event, e: nat, skips: bool): Pc {
    Marking(e, row.attempts, !(skips && row.status == EventStatus.Failed))
  }

  /** The worker after its step. */
  function Moved(store: Store, worker: Worker, step: Step): Worker
    requires Ready(store, worker, step)
  {
    var pc := worker.pc;
    match step
    case Call(_, e) => worker.(pc := WantEvent(e))
    case StartSweep(_, batch) => worker.(todo := batch)
    case StartManual(_, op) => worker.(pc := WantRow(op))
    case NextListed(_) => Worker(WantEvent(worker.todo[0]), worker.todo[1..], worker.kept)
    case LockEvent(_) =>
      if Waiting(store, pc.e) then worker.(pc := HasEvent(pc.e))
      else Returned(worker, worker.kept + if pc.e in store.events then {pc.e} else {})
    case LookupRaises(_) => IDLE
    case LoadDevice(_, view) => worker.(pc := WantLot(pc.e, view))
    case LockLot(_) =>
      var lot := pc.view.lotId;
      worker.(pc :=
        if lot in store.lots then HasLot(pc.e, pc.view, store.lots[lot].systemCount) else NoLot(pc.e, pc.view))
    case CommitApply(_, _) => Returned(worker, {})
    case Fail(_) => Worker(RolledBack(pc.e), worker.todo, {})
    case ReadForMark(_, skips) => worker.(pc := MarkingOf(store.events[pc.e], pc.e, skips))
    case MarkRaises(_) => Returned(worker, {})
    case CommitMark(_) => Returned(worker, {})
    case LockRow(_) =>
      var lot := LotOf(pc.op);
      if lot in store.lots then worker.(pc := HasRow(pc.op, Count(store, lot, SideOf(pc.op)))) else IDLE
    case CommitRow(_) => IDLE
    case Abandon(_) => IDLE
  }

  /** The store after the step: only the three commits change it, by what the worker read. */
  function Wrote(store: Store, worker: Worker, step: Step): Store
    requires Ready(store, worker, step) && ShapeOk(worker) && ReadsCurrent(store, worker)
  {
    var pc := worker.pc;
    match step
    case CommitApply(_, now) =>
      var row := store.events[pc.e];
      var counted :=
        if pc.HasLot? then
          Write(store, pc.view.lotId, EventKind(row.eventType), pc.before,
                CountAfterEvent(pc.before, row.eventType), Stamp(pc.view.code, None, now))
        else store;
      SetEvent(counted, pc.e, row.(status := Processed))
    case CommitMark(_) => MarkAs(store, pc.e, pc.read + 1, pc.sets)
    case CommitRow(_) =>
      Write(store, LotOf(pc.op), KindOf(pc.op), pc.before, Written(pc.op, pc.before), StampOf(pc.op))
    case _ => store
  }

  function Next(s: State, step: Step): State
    requires Sound(s) && Enabled(s, step)
  {
    match step
    case Crash(ws) => s.(workers := map v | v in s.workers :: if v in ws then IDLE else s.workers[v])
    case Env(op) =>
      if op == DailyReset then State(Do(s.store, op), s.workers, [], [])
      else s.(store := Do(s.store, op))
    case _ =>
      var worker := s.workers[step.w];
      State(Wrote(s.store, worker, step),
            s.workers[step.w := Moved(s.store, worker, step)],
            s.applied + AppliedBy(s.store, worker, step),
            s.clobbered + ClobberedBy(s.store, worker, step))
  }

  function AppliedBy(store: Store, worker: Worker, step: Step): seq<nat>
    requires Ready(store, worker, step)
  {
    match step
    case CommitApply(_, _) => [worker.pc.e]
    case _ => []
  }

  /** A failure mark that overwrites the status of a row another worker has applied in the meantime. */
  function ClobberedBy(store: Store, worker: Worker, step: Step): seq<nat>
    requires Ready(store, worker, step)
  {
    match step
    case CommitMark(_) => if worker.pc.sets && store.events[worker.pc.e].status == Processed then [worker.pc.e] else []
    case _ => []
  }

  // What holds in every reachable state.

  predicate ShapeOk(worker: Worker) {
    && ((worker.pc.WantRow? || worker.pc.HasRow?) ==> Manual(worker.pc.op) && worker.todo == [])
    && (worker.kept != {} ==> worker.pc.WantEvent? || Busy(worker.pc) || (worker.pc.Idle? && worker.todo != []))
  }

  /** What a worker read under a lock is still what the table says: no update gets lost. */
  predicate ReadsCurrent(store: Store, worker: Worker) {
    && (forall e | e in worker.kept :: e in store.events)
    && (Busy(worker.pc) ==> Waiting(store, worker.pc.e))
    && (worker.pc.HasLot? ==>
          worker.pc.view.lotId in store.lots && store.lots[worker.pc.view.lotId].systemCount == worker.pc.before)
    && (worker.pc.HasRow? ==>
          && LotOf(worker.pc.op) in store.lots
          && Count(store, LotOf(worker.pc.op), SideOf(worker.pc.op)) == worker.pc.before)
    && (worker.pc.Marking? && !worker.pc.sets ==> Settled(store, worker.pc.e))
  }

  /** The event is not pending, and will not be again. */
  predicate Settled(store: Store, e: nat) {
    e < store.nextEvent && (e in store.events ==> store.events[e].status != Pending)
  }

  predicate IdsBelow(store: Store) {
    forall e | e in store.events :: e < store.nextEvent
  }

  /** No row is locked twice. */
  ghost predicate Exclusive(workers: map<nat, Worker>) {
    && (forall v, w, e |
          v in workers && w in workers && HoldsEvent(workers[v], e) && HoldsEvent(workers[w], e) :: v == w)
    && (forall v, w, l |
          v in workers && w in workers && HoldsLot(workers[v], l) && HoldsLot(workers[w], l) :: v == w)
  }

  predicate Sound(s: State) {
    IdsBelow(s.store) && forall w | w in s.workers :: ShapeOk(s.workers[w]) && ReadsCurrent(s.store, s.workers[w])
  }

  ghost predicate Inv(s: State) {
    Sound(s) && Exclusive(s.workers) && StoreOk(s.store)
  }

  /** The rows a worker has locked are as they were. */
  predicate Undisturbed(store: Store, store': Store, worker: Worker) {
    && (forall e | e in store.events && HoldsEvent(worker, e) ::
          e in store'.events && store'.events[e] == store.events[e])
    && (forall l | l in store.lots && HoldsLot(worker, l) ::
          l in store'.lots && store'.lots[l] == store.lots[l])
  }

  lemma UndisturbedReads(store: Store, store': Store, worker: Worker)
    requires ReadsCurrent(store, worker) && Undisturbed(store, store', worker)
    requires worker.pc.Marking? && !worker.pc.sets ==> Settled(store', worker.pc.e)
    ensures ReadsCurrent(store', worker)
  {
    if Busy(worker.pc) { assert HoldsEvent(worker, worker.pc.e); }
    forall e | e in worker.kept ensures e in store'.events { assert HoldsEvent(worker, e); }
    if worker.pc.HasLot? { assert HoldsLot(worker, worker.pc.view.lotId); }
    if worker.pc.HasRow? { assert HoldsLot(worker, LotOf(worker.pc.op)); }
  }

  /** A lock is only ever taken over a free row. */
  lemma LockingExclusive(s: State, w: nat, worker: Worker)
    requires Exclusive(s.workers) && w in s.workers
    requires forall e | HoldsEvent(worker, e) && !HoldsEvent(s.workers[w], e) :: EventFree(s, w, e)
    requires forall l | HoldsLot(worker, l) && !HoldsLot(s.workers[w], l) :: LotFree(s, w, l)
    ensures Exclusive(s.workers[w := worker])
  {
  }

  /** Only the locking steps take a lock, and only the one they were granted. */
  lemma NewLocks(store: Store, worker: Worker, step: Step)
    requires Ready(store, worker, step)
    ensures forall e | HoldsEvent(Moved(store, worker, step), e) && !HoldsEvent(worker, e) ::
      step.LockEvent? && worker.pc.e == e
    ensures forall l | HoldsLot(Moved(store, worker, step), l) && !HoldsLot(worker, l) ::
      (step.LockLot? && worker.pc.view.lotId == l) || (step.LockRow? && LotOf(worker.pc.op) == l)
  {
  }

  lemma NextExclusive(s: State, step: Step)
    requires Sound(s) && Exclusive(s.workers) && Enabled(s, step)
    ensures Exclusive(Next(s, step).workers)
  {
    if step.Crash? {
      CrashExclusive(s, step.ws);
    } else if !step.Env? {
      NewLocks(s.store, s.workers[step.w], step);
      LockingExclusive(s, step.w, Moved(s.store, s.workers[step.w], step));
    }
  }

  lemma CrashExclusive(s: State, ws: set<nat>)
    requires Sound(s) && Exclusive(s.workers)
    ensures Exclusive(Next(s, Crash(ws)).workers)
  {
  }

  /** The worker that moves still reads what the table says. */
  lemma MoverReads(store: Store, worker: Worker, step: Step)
    requires Ready(store, worker, step) && ShapeOk(worker) && ReadsCurrent(store, worker) && IdsBelow(store)
    ensures ShapeOk(Moved(store, worker, step))
    ensures ReadsCurrent(Wrote(store, worker, step), Moved(store, worker, step))
  {
    match step
    case CommitApply(_, _) =>
    case CommitMark(_) =>
    case CommitRow(_) =>
    case _ =>
  }

  /** A commit writes only rows its worker has locked; a failure mark, its own event. */
  lemma WritesOwnRows(store: Store, worker: Worker, step: Step)
    requires Ready(store, worker, step) && ShapeOk(worker) && ReadsCurrent(store, worker)
    ensures forall e | e in store.events && !HoldsEvent(worker, e) && !(step.CommitMark? && worker.pc.e == e) ::
      e in Wrote(store, worker, step).events && Wrote(store, worker, step).events[e] == store.events[e]
    ensures forall l | l in store.lots && !HoldsLot(worker, l) ::
      l in Wrote(store, worker, step).lots && Wrote(store, worker, step).lots[l] == store.lots[l]
  {
    match step
    case CommitApply(_, _) => assert HoldsEvent(worker, worker.pc.e);
    case CommitMark(_) =>
    case CommitRow(_) => assert HoldsLot(worker, LotOf(worker.pc.op));
    case _ =>
  }

  lemma OthersUndisturbed(s: State, step: Step, v: nat)
    requires Sound(s) && Exclusive(s.workers) && Enabled(s, step) && !step.Crash? && !step.Env?
    requires v in s.workers && v != step.w
    ensures Undisturbed(s.store, Wrote(s.store, s.workers[step.w], step), s.workers[v])
  {
    var worker := s.workers[step.w];
    WritesOwnRows(s.store, worker, step);
    forall e | HoldsEvent(s.workers[v], e) ensures !HoldsEvent(worker, e) {}
    forall l | HoldsLot(s.workers[v], l) ensures !HoldsLot(worker, l) {}
  }

  lemma EnvUndisturbed(s: State, op: Op, v: nat)
    requires Inv(s) && EnvFree(s, op) && v in s.workers
    ensures Undisturbed(s.store, Do(s.store, op), s.workers[v])
  {
    forall e | e in s.store.events && HoldsEvent(s.workers[v], e) { EnvKeepsEvent(s, op, v, e); }
    forall l | l in s.store.lots && HoldsLot(s.workers[v], l) { EnvKeepsLot(s, op, v, l); }
  }

  lemma EnvKeepsEvent(s: State, op: Op, v: nat, e: nat)
    requires ReferencesOk(s.store) && EnvFree(s, op) && v in s.workers
    requires e in s.store.events && HoldsEvent(s.workers[v], e)
    ensures e in Do(s.store, op).events && Do(s.store, op).events[e] == s.store.events[e]
  {
  }

  lemma EnvKeepsLot(s: State, op: Op, v: nat, l: nat)
    requires ReferencesOk(s.store) && EnvFree(s, op) && v in s.workers
    requires l in s.store.lots && HoldsLot(s.workers[v], l)
    ensures l in Do(s.store, op).lots && Do(s.store, op).lots[l] == s.store.lots[l]
  {
  }

  lemma EnvSettled(s: State, op: Op, v: nat)
    requires EnvFree(s, op) && v in s.workers && s.workers[v].pc.Marking? && Settled(s.store, s.workers[v].pc.e)
    ensures Settled(Do(s.store, op), s.workers[v].pc.e)
  {
  }

  lemma EnvSound(s: State, op: Op)
    requires Inv(s) && EnvFree(s, op)
    ensures Sound(Next(s, Env(op)))
  {
    ReferencesKept(s.store, op);
    forall v | v in s.workers ensures ReadsCurrent(Do(s.store, op), s.workers[v]) {
      EnvReads(s, op, v);
    }
  }

  lemma EnvReads(s: State, op: Op, v: nat)
    requires Inv(s) && EnvFree(s, op) && v in s.workers
    ensures ReadsCurrent(Do(s.store, op), s.workers[v])
  {
    EnvUndisturbed(s, op, v);
    if s.workers[v].pc.Marking? && !s.workers[v].pc.sets { EnvSettled(s, op, v); }
    UndisturbedReads(s.store, Do(s.store, op), s.workers[v]);
  }

  /** No step makes an event pending again. */
  lemma WritesSettled(store: Store, worker: Worker, step: Step, e: nat)
    requires Ready(store, worker, step) && ShapeOk(worker) && ReadsCurrent(store, worker) && Settled(store, e)
    ensures Settled(Wrote(store, worker, step), e)
  {
  }

  lemma WritesIdsBelow(store: Store, worker: Worker, step: Step)
    requires Ready(store, worker, step) && ShapeOk(worker) && ReadsCurrent(store, worker) && IdsBelow(store)
    ensures IdsBelow(Wrote(store, worker, step))
  {
  }

  lemma OtherReads(s: State, step: Step, v: nat)
    requires Sound(s) && Exclusive(s.workers) && Enabled(s, step) && !step.Crash? && !step.Env?
    requires v in s.workers && v != step.w
    ensures ReadsCurrent(Wrote(s.store, s.workers[step.w], step), s.workers[v])
  {
    OthersUndisturbed(s, step, v);
    var pc := s.workers[v].pc;
    if pc.Marking? && !pc.sets { WritesSettled(s.store, s.workers[step.w], step, pc.e); }
    UndisturbedReads(s.store, Wrote(s.store, s.workers[step.w], step), s.workers[v]);
  }

  lemma MoveSound(s: State, step: Step)
    requires Sound(s) && Exclusive(s.workers) && Enabled(s, step) && !step.Crash? && !step.Env?
    ensures Sound(Next(s, step))
  {
    MoverReads(s.store, s.workers[step.w], step);
    WritesIdsBelow(s.store, s.workers[step.w], step);
    forall v | v in s.workers && v != step.w { OtherReads(s, step, v); }
  }

  lemma NextSound(s: State, step: Step)
    requires Inv(s) && Enabled(s, step)
    ensures Sound(Next(s, step))
  {
    if step.Env? {
      EnvSound(s, step.op);
    } else if !step.Crash? {
      MoveSound(s, step);
    }
  }
}
