/** heartbeat_usecase.py and queue_command: the command queue that devices poll. */
module DeviceCommands {
  import opened Wrappers
  import ParkingStore

  datatype CommandType = Restart | StartCounting | StopCounting

  datatype CommandStatus = Pending | Delivered | Completed | Failed

  datatype Command = Command(
    deviceId: nat,
    commandType: CommandType,
    status: CommandStatus,
    resultMessage: Option<string>,
    deliveredAt: Option<int>,
    completedAt: Option<int>)

  datatype Queue = Queue(commands: map<nat, Command>, devices: set<nat>, next: nat)

  predicate IsPending(q: Queue, id: nat) {
    id in q.commands && q.commands[id].status == Pending
  }

  function PendingFor(q: Queue, device: nat): set<nat> {
    set id | id in q.commands && q.commands[id].status == Pending && q.commands[id].deviceId == device
  }

  function AllPending(q: Queue): set<nat> {
    set id | id in q.commands && q.commands[id].status == Pending
  }

  function NewCommand(device: nat, commandType: CommandType): Command {
    Command(device, commandType, Pending, None, None, None)
  }

  function Deliver(row: Command, now: int): Command {
    row.(status := Delivered, deliveredAt := Some(now))
  }

  datatype Op =
    | AddDevice(device: nat)
    | QueueCommand(device: nat, commandType: CommandType)
    | Heartbeat(device: nat, now: int)
    | Ack(device: nat, id: nat, succeeded: bool, message: Option<string>, now: int)

  predicate AckFits(q: Queue, device: nat, id: nat) {
    id in q.commands && q.commands[id].deviceId == device
  }

  function Acked(row: Command, succeeded: bool, message: Option<string>, now: int): Command {
    row.(status := if succeeded then Completed else Failed, resultMessage := message, completedAt := Some(now))
  }

  function Do(q: Queue, op: Op): Queue {
    match op
    case AddDevice(device) => q.(devices := q.devices + {device})
    case QueueCommand(device, commandType) =>
      if device !in q.devices then q
      else q.(commands := q.commands[q.next := NewCommand(device, commandType)], next := q.next + 1)
    case Heartbeat(device, now) =>
      q.(commands := map id | id in q.commands ::
           if id in PendingFor(q, device) then Deliver(q.commands[id], now) else q.commands[id])
    case Ack(device, id, succeeded, message, now) =>
      if AckFits(q, device, id)
      then q.(commands := q.commands[id := Acked(q.commands[id], succeeded, message, now)])
      else q
  }

  function Run(q: Queue, ops: seq<Op>): Queue {
    if ops == [] then q else Do(Run(q, ops[..|ops| - 1]), ops[|ops| - 1])
  }

  class HeartbeatUsecase {
    var queue: Queue

    constructor (q: Queue)
      ensures queue == q
    {
      queue := q;
    }

    /** A new pending command of the given type; no other command is touched. */
    method QueueCommand(device: nat, commandType: CommandType) returns (r: Result<nat>)
      modifies this
      ensures queue == Do(old(queue), Op.QueueCommand(device, commandType))
      ensures r == if device in old(queue).devices then Ok(old(queue).next) else Err(NotFound)
      ensures r.Ok? ==> queue == old(queue).(
        commands := old(queue).commands[r.value := Command(device, commandType, Pending, None, None, None)],
        next := r.value + 1)
      ensures r.Err? ==> queue == old(queue)
    {
      if device !in queue.devices {
        return Err(NotFound);
      }
      var id := queue.next;
      var command := Command(device, commandType, Pending, None, None, None);
      queue := queue.(commands := queue.commands[id := command], next := id + 1);
      return Ok(id);
    }

    method ListPendingForDevice(device: nat) returns (ids: seq<nat>)
      ensures forall id :: id in ids <==> id in PendingFor(queue, device)
      ensures forall i, j | 0 <= i < j < |ids| :: ids[i] != ids[j]
    {
      ids := ParkingStore.SortedIds(PendingFor(queue, device));
    }

    /**
     Hands back exactly the commands pending for the device, and marks each delivered now; every other
     command, and everything else about these, stays as it was.
     */
    method RecordHeartbeat(device: nat, now: int) returns (ids: seq<nat>)
      modifies this
      ensures queue == Do(old(queue), Heartbeat(device, now))
      ensures forall id :: id in ids <==>
        && id in old(queue).commands
        && old(queue).commands[id].status == Pending && old(queue).commands[id].deviceId == device
      ensures forall i, j | 0 <= i < j < |ids| :: ids[i] != ids[j]
      ensures queue.commands.Keys == old(queue).commands.Keys
      ensures queue.devices == old(queue).devices && queue.next == old(queue).next
      ensures forall id | id in ids && id in queue.commands ::
        queue.commands[id] == old(queue).commands[id].(status := Delivered, deliveredAt := Some(now))
      ensures forall id | id !in ids && id in queue.commands :: queue.commands[id] == old(queue).commands[id]
      ensures PendingFor(queue, device) == {}
    {
      ids := ListPendingForDevice(device);
      ghost var start := queue;
      for i := 0 to |ids|
        invariant queue == DeliveredSome(start, ids[..i], now)
      {
        assert ids[i] in ids && ids[i] !in ids[..i] && ids[..i + 1] == ids[..i] + [ids[i]];
        var row := queue.commands[ids[i]];
        row := row.(status := Delivered);
        row := row.(deliveredAt := Some(now));
        queue := queue.(commands := queue.commands[ids[i] := row]);
        assert queue.commands == DeliveredSome(start, ids[..i + 1], now).commands;
      }
      assert ids[..|ids|] == ids;
      assert queue.commands == Do(start, Heartbeat(device, now)).commands;
    }

    /**
     An answer to a command of this device, whatever state the command is in: its status becomes the one
     given, with message and time, and nothing else changes.
     */
    method AckCommand(device: nat, id: nat, succeeded: bool, message: Option<string>, now: int)
      returns (r: Result<Command>)
      modifies this
      ensures queue == Do(old(queue), Ack(device, id, succeeded, message, now))
      ensures r.Ok? <==> id in old(queue).commands && old(queue).commands[id].deviceId == device
      ensures r.Ok? ==>
        && r.value == old(queue).commands[id].(
             status := if succeeded then Completed else Failed,
             resultMessage := message,
             completedAt := Some(now))
        && queue == old(queue).(commands := old(queue).commands[id := r.value])
      ensures r.Err? ==> r.error == NotFound && queue == old(queue)
    {
      if id !in queue.commands || queue.commands[id].deviceId != device {
        return Err(NotFound);
      }
      var row := queue.commands[id];
      row := row.(status := if succeeded then Completed else Failed);
      row := row.(resultMessage := message);
      row := row.(completedAt := Some(now));
      queue := queue.(commands := queue.commands[id := row]);
      return Ok(row);
    }
  }

  ghost function DeliveredSome(q: Queue, ids: seq<nat>, now: int): Queue {
    q.(commands := map id | id in q.commands :: if id in ids then Deliver(q.commands[id], now) else q.commands[id])
  }

  // What happens to queued commands over a run.

  /** The ids queued by a run. */
  function Queued(q: Queue, ops: seq<Op>): set<nat> {
    if ops == [] then {}
    else
      var init, last := ops[..|ops| - 1], ops[|ops| - 1];
      Queued(q, init) + if last.QueueCommand? && last.device in Run(q, init).devices then {Run(q, init).next} else {}
  }

  /** What each heartbeat of a run returned, in order. */
  function Returned(q: Queue, ops: seq<Op>): seq<set<nat>> {
    if ops == [] then []
    else
      var init, last := ops[..|ops| - 1], ops[|ops| - 1];
      Returned(q, init) + if last.Heartbeat? then [PendingFor(Run(q, init), last.device)] else []
  }

  /** Commands answered while no heartbeat had returned them. */
  function AckedEarly(q: Queue, ops: seq<Op>): set<nat> {
    if ops == [] then {}
    else
      var init, last := ops[..|ops| - 1], ops[|ops| - 1];
      AckedEarly(q, init) +
      if last.Ack? && AckFits(Run(q, init), last.device, last.id) && IsPending(Run(q, init), last.id)
      then {last.id}
      else {}
  }

  function Union(sets: seq<set<nat>>): set<nat> {
    if sets == [] then {} else Union(sets[..|sets| - 1]) + sets[|sets| - 1]
  }

  predicate PairwiseDisjoint(sets: seq<set<nat>>) {
    forall i, j | 0 <= i < j < |sets| :: sets[i] !! sets[j]
  }

  ghost predicate IdsFresh(q: Queue) {
    forall id | id in q.commands :: id < q.next
  }

  /** No step makes a command pending again. */
  lemma {:induction false} NeverPendingAgain(q: Queue, ops: seq<Op>, id: nat)
    requires IdsFresh(q) && id < q.next && !IsPending(q, id)
    ensures IdsFresh(Run(q, ops)) && id < Run(q, ops).next && !IsPending(Run(q, ops), id)
  {
    if ops != [] {
      NeverPendingAgain(q, ops[..|ops| - 1], id);
    }
  }

  lemma {:induction false} UnionHas(sets: seq<set<nat>>, i: nat)
    requires i < |sets|
    ensures sets[i] <= Union(sets)
  {
    if i < |sets| - 1 {
      UnionHas(sets[..|sets| - 1], i);
    }
  }

  /** What became of the commands pending at the start and those queued since. */
  ghost predicate Conserved(start: set<nat>, q: Queue, queued: set<nat>, returned: seq<set<nat>>, early: set<nat>) {
    && IdsFresh(q)
    && (forall id | id in start + queued :: id < q.next)
    && start !! queued
    && start + queued == AllPending(q) + Union(returned) + early
    && AllPending(q) !! Union(returned) && AllPending(q) !! early && Union(returned) !! early
    && PairwiseDisjoint(returned)
  }

  lemma PendingStep(q: Queue, op: Op)
    requires IdsFresh(q)
    ensures IdsFresh(Do(q, op)) && q.next <= Do(q, op).next
    ensures AllPending(Do(q, op)) == match op
      case QueueCommand(device, _) => AllPending(q) + if device in q.devices then {q.next} else {}
      case Heartbeat(device, _) => AllPending(q) - PendingFor(q, device)
      case Ack(device, id, _, _, _) => AllPending(q) - if AckFits(q, device, id) then {id} else {}
      case AddDevice(_) => AllPending(q)
  {
  }

  /** The early answers after an answer. */
  function EarlyAfter(q: Queue, op: Op, early: set<nat>): set<nat> {
    early + if op.Ack? && AckFits(q, op.device, op.id) && IsPending(q, op.id) then {op.id} else {}
  }

  lemma QueueConserves(start: set<nat>, q: Queue, queued: set<nat>, returned: seq<set<nat>>, early: set<nat>, op: Op)
    requires Conserved(start, q, queued, returned, early) && op.QueueCommand? && op.device in q.devices
    ensures Conserved(start, Do(q, op), queued + {q.next}, returned, early)
  {
    PendingStep(q, op);
  }

  lemma AckConserves(start: set<nat>, q: Queue, queued: set<nat>, returned: seq<set<nat>>, early: set<nat>, op: Op)
    requires Conserved(start, q, queued, returned, early) && op.Ack?
    ensures Conserved(start, Do(q, op), queued, returned, EarlyAfter(q, op, early))
  {
    PendingStep(q, op);
  }

  lemma HeartbeatConserves(start: set<nat>, q: Queue, queued: set<nat>, returned: seq<set<nat>>, early: set<nat>,
                           op: Op)
    requires Conserved(start, q, queued, returned, early) && op.Heartbeat?
    ensures Conserved(start, Do(q, op), queued, returned + [PendingFor(q, op.device)], early)
  {
    PendingStep(q, op);
    var more := returned + [PendingFor(q, op.device)];
    assert more[..|returned|] == returned;
    forall i, j | 0 <= i < j < |more| ensures more[i] !! more[j] {
      if j == |returned| { UnionHas(returned, i); }
    }
  }

  lemma ConservedStep(start: set<nat>, q: Queue, queued: set<nat>, returned: seq<set<nat>>, early: set<nat>, op: Op)
    requires Conserved(start, q, queued, returned, early)
    ensures Conserved(start, Do(q, op),
                      queued + (if op.QueueCommand? && op.device in q.devices then {q.next} else {}),
                      returned + (if op.Heartbeat? then [PendingFor(q, op.device)] else []),
                      EarlyAfter(q, op, early))
  {
    assert queued + {} == queued && returned + [] == returned && early + {} == early;
    match op
    case QueueCommand(device, _) =>
      if device in q.devices { QueueConserves(start, q, queued, returned, early, op); }
    case Heartbeat(_, _) => HeartbeatConserves(start, q, queued, returned, early, op);
    case Ack(_, _, _, _, _) => AckConserves(start, q, queued, returned, early, op);
    case AddDevice(_) => PendingStep(q, op);
  }

  /**
   Over any run: the commands heartbeats return are pairwise disjoint, and what was or became pending
   is split without overlap into what still is, what some heartbeat returned, and what was answered
   before any heartbeat returned it.
   */
  lemma {:induction false} CommandsConserved(q: Queue, ops: seq<Op>)
    requires IdsFresh(q)
    ensures Conserved(AllPending(q), Run(q, ops), Queued(q, ops), Returned(q, ops), AckedEarly(q, ops))
  {
    if ops != [] {
      var init := ops[..|ops| - 1];
      CommandsConserved(q, init);
      ConservedStep(AllPending(q), Run(q, init), Queued(q, init), Returned(q, init), AckedEarly(q, init),
                    ops[|ops| - 1]);
    }
  }

  // The documented life cycle.

  /** pending -> delivered -> completed or failed. */
  predicate LifeCycle(from: CommandStatus, to: CommandStatus) {
    (from == Pending && to == Delivered) || (from == Delivered && (to == Completed || to == Failed))
  }

  /** An answer follows it exactly if the command was delivered and not answered before. */
  lemma AckFollowsIff(q: Queue, device: nat, id: nat, succeeded: bool, message: Option<string>, now: int)
    requires AckFits(q, device, id)
    ensures var t := Do(q, Ack(device, id, succeeded, message, now));
      id in t.commands
      && (LifeCycle(q.commands[id].status, t.commands[id].status) <==> q.commands[id].status == Delivered)
  {
  }

  /** For one, a command that was just queued can be completed without ever being delivered. */
  lemma CompletedUndelivered(q: Queue, device: nat, commandType: CommandType, now: int)
    requires device in q.devices
    ensures var ops :=
        [QueueCommand(device, commandType), Ack(device, q.next, true, None, now), Heartbeat(device, now)];
      var t := Run(q, ops);
      && q.next in t.commands
      && t.commands[q.next].status == Completed && t.commands[q.next].deliveredAt == None
  {
    var a, b, c := QueueCommand(device, commandType), Ack(device, q.next, true, None, now), Heartbeat(device, now);
    assert [a, b, c][..2] == [a, b] && [a, b][..1] == [a] && [a][..0] == [];
    assert Run(q, [a]) == Do(q, a);
    assert Run(q, [a, b]) == Do(Do(q, a), b);
  }

  // Answers.

  /** The last answer given to the command over a run, if any. */
  function LastAnswer(q: Queue, ops: seq<Op>, id: nat): Option<Op> {
    if ops == [] then None
    else
      var init, last := ops[..|ops| - 1], ops[|ops| - 1];
      if last.Ack? && last.id == id && AckFits(Run(q, init), last.device, id) then Some(last)
      else LastAnswer(q, init, id)
  }

  /** An answered command shows its last answer, whatever else happens. */
  lemma {:induction false} ShowsLastAnswer(q: Queue, ops: seq<Op>, id: nat)
    requires IdsFresh(q) && LastAnswer(q, ops, id).Some?
    ensures LastAnswer(q, ops, id).value.Ack? && id in Run(q, ops).commands && id < Run(q, ops).next
    ensures var answer, command := LastAnswer(q, ops, id).value, Run(q, ops).commands[id];
      && command.status == (if answer.succeeded then Completed else Failed)
      && command.resultMessage == answer.message && command.completedAt == Some(answer.now)
  {
    var init, last := ops[..|ops| - 1], ops[|ops| - 1];
    IdsStayFresh(q, init);
    if !(last.Ack? && last.id == id && AckFits(Run(q, init), last.device, id)) {
      ShowsLastAnswer(q, init, id);
    }
  }

  lemma {:induction false} IdsStayFresh(q: Queue, ops: seq<Op>)
    requires IdsFresh(q)
    ensures IdsFresh(Run(q, ops))
  {
    if ops != [] {
      IdsStayFresh(q, ops[..|ops| - 1]);
    }
  }
}
