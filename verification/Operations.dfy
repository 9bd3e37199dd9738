/**
 Every committed transaction of the parking side of the service, as a value, and what it does to
 the store. `Process` is one whole call of process_event; `Apply` and `Mark` are the two commits
 such a call can end in, for runs in which calls overlap: there the lot and the device code are the
 ones the worker saw. A mark leaves the status alone (`!sets`) if its worker had read `failed` and a
 column assigned its old value is not written; such a row is not `pending`.
 */
module Operations {
  import opened Wrappers
  import opened ParkingStore

  /** How one call of process_event ends: which of its two commits, if any, goes through. */
  datatype Outcome = Succeeds | FailsMarked | FailsUnmarked

  datatype Op =
    | CreateLot(name: string, capacity: nat)
    | DeleteLot(lot: nat)
    | RegisterDevice(code: string, lot: nat)
    | UpdateDevice(device: nat, newCode: Option<string>, newLot: Option<nat>)
    | DeleteDevice(device: nat)
    | Enqueue(device: nat, eventType: EventType, trackId: Option<string>,
              detectedAt: int, receivedAt: int, requestId: string)
    | Process(event: nat, outcome: Outcome, now: int)
    | Apply(event: nat, found: Option<nat>, actor: string, now: int)
    | Mark(event: nat, attempts: nat, sets: bool)
    | Adjust(lot: nat, delta: int, stamp: Stamp)
    | Reset(lot: nat, count: int, target: Target, stamp: Stamp)
    | ResetAll(target: Target, stamp: Stamp)
    | DailyReset

  predicate CodeTaken(s: Store, code: string, except: Option<nat>) {
    exists d | d in s.devices :: s.devices[d].code == code && Some(d) != except
  }

  predicate LotInUse(s: Store, lot: nat) {
    exists d | d in s.devices :: s.devices[d].lotId == lot
  }

  function NewEvent(op: Op): Event
    requires op.Enqueue?
  {
    Event(op.device, op.eventType, op.requestId, op.trackId, op.detectedAt, op.receivedAt, Pending, 0)
  }

  function SetEvent(s: Store, e: nat, row: Event): Store {
    s.(events := s.events[e := row])
  }

  predicate Waiting(s: Store, e: nat) {
    e in s.events && s.events[e].Unfinished()
  }

  /**
   The commit at line 135: the lot's counter, the activity row and the status, together. The
   counter is skipped if the lot was not found.
   */
  function ApplyTo(s: Store, e: nat, lot: Option<nat>, actor: string, now: int): Store
    requires e in s.events
  {
    var row := s.events[e];
    var counted :=
      if lot.Some? && lot.value in s.lots then
        Record(s, lot.value, EventKind(row.eventType),
               CountAfterEvent(s.lots[lot.value].systemCount, row.eventType), Stamp(actor, None, now))
      else s;
    SetEvent(counted, e, row.(status := Processed))
  }

  /** A row after a failure mark; one that does not set the status leaves it as it is. */
  function MarkedRow(row: Event, attempts: nat, sets: bool): Event {
    row.(status := if sets then Failed else row.status, attempts := attempts)
  }

  /** The commit at line 149. */
  function MarkAs(s: Store, e: nat, attempts: nat, sets: bool): Store
    requires e in s.events
  {
    SetEvent(s, e, MarkedRow(s.events[e], attempts, sets))
  }

  predicate Processable(s: Store, e: nat) {
    Waiting(s, e) && s.events[e].deviceId in s.devices
  }

  function ProcessAs(s: Store, e: nat, outcome: Outcome, now: int): Store {
    if !Processable(s, e) then s
    else
      match outcome
      case Succeeds =>
        var device := s.devices[s.events[e].deviceId];
        ApplyTo(s, e, Some(device.lotId), device.code, now)
      case FailsMarked => MarkAs(s, e, s.events[e].attempts + 1, true)
      case FailsUnmarked => s
  }

  function BulkRows(s: Store, ids: seq<nat>, target: Target, stamp: Stamp): (rows: seq<Activity>)
    ensures |rows| == |ids|
  {
    seq(|ids|, i requires 0 <= i < |ids| => BulkRow(s, i, ids[i], target, stamp))
  }

  /** The row that reset_all_counts logs for the `i`-th lot it visits. */
  function BulkRow(s: Store, i: nat, lot: nat, target: Target, stamp: Stamp): Activity {
    var before := if lot in s.lots then Count(s, lot, target) else 0;
    Activity(s.nextActivity + i, lot, ResetKind(target), -before, 0, stamp)
  }

  function Zeroed(s: Store, ids: seq<nat>, target: Target): map<nat, Lot> {
    map l | l in s.lots :: if l in ids then WithCount(s.lots[l], target, 0) else s.lots[l]
  }

  /** The counters of the lots `ids` to 0 in one transaction, one row per lot in that order. */
  function BulkOver(s: Store, ids: seq<nat>, target: Target, stamp: Stamp): Store {
    s.(lots := Zeroed(s, ids, target),
       log := s.log + BulkRows(s, ids, target, stamp),
       nextActivity := s.nextActivity + |ids|)
  }

  /** One transaction. A call the use case or the schema rejects leaves the store as it was. */
  function Do(s: Store, op: Op): Store {
    match op
    case CreateLot(name, capacity) =>
      s.(lots := s.lots[s.nextLot := Lot(name, capacity, 0, 0)], nextLot := s.nextLot + 1)
    case DeleteLot(lot) =>
      if lot !in s.lots || LotInUse(s, lot) then s
      else s.(lots := s.lots - {lot}, log := WithoutLot(s.log, lot))
    case RegisterDevice(code, lot) =>
      if lot !in s.lots || CodeTaken(s, code, None) then s
      else s.(devices := s.devices[s.nextDevice := Device(code, lot)], nextDevice := s.nextDevice + 1)
    case UpdateDevice(device, newCode, newLot) =>
      if device !in s.devices
         || (newLot.Some? && newLot.value !in s.lots)
         || (newCode.Some? && CodeTaken(s, newCode.value, Some(device)))
      then s
      else
        var row := s.devices[device];
        s.(devices := s.devices[device :=
             Device(if newCode.Some? then newCode.value else row.code,
                    if newLot.Some? then newLot.value else row.lotId)])
    case DeleteDevice(device) =>
      s.(devices := s.devices - {device},
         events := map e | e in s.events && s.events[e].deviceId != device :: s.events[e])
    case Enqueue(device, _, _, _, _, requestId) =>
      if RequestKnown(s, requestId) || device !in s.devices then s
      else s.(events := s.events[s.nextEvent := NewEvent(op)], nextEvent := s.nextEvent + 1)
    case Process(e, outcome, now) =>
      ProcessAs(s, e, outcome, now)
    case Apply(e, lot, actor, now) =>
      if Waiting(s, e) then ApplyTo(s, e, lot, actor, now) else s
    case Mark(e, attempts, sets) =>
      if e in s.events && (sets || s.events[e].status != Pending) then MarkAs(s, e, attempts, sets) else s
    case Adjust(lot, delta, stamp) =>
      if lot in s.lots
      then Record(s, lot, ManualAdjustment, Max0(s.lots[lot].currentCount + delta), stamp)
      else s
    case Reset(lot, count, target, stamp) =>
      if lot in s.lots then Record(s, lot, ResetKind(target), count, stamp) else s
    case ResetAll(target, stamp) =>
      BulkOver(s, SortedIds(s.lots.Keys), target, stamp)
    case DailyReset =>
      s.(lots := map l | l in s.lots :: s.lots[l].(currentCount := 0, systemCount := 0),
         events := map[], log := [], nextEvent := 1, nextActivity := 1)
  }

  /** A serial run. */
  function Run(s: Store, ops: seq<Op>): Store {
    if ops == [] then s else Do(Run(s, ops[..|ops| - 1]), ops[|ops| - 1])
  }

  /** `reset_count(lot, 0, target)` over `ids`, one transaction each. */
  function FoldResets(s: Store, ids: seq<nat>, target: Target, stamp: Stamp): Store {
    if ids == [] then s
    else
      Do(FoldResets(s, ids[..|ids| - 1], target, stamp),
         Reset(ids[|ids| - 1], 0, target, stamp))
  }

  lemma BulkOverSnoc(s: Store, init: seq<nat>, last: nat, target: Target, stamp: Stamp)
    requires last in s.lots && last !in init
    ensures BulkOver(s, init + [last], target, stamp)
         == Do(BulkOver(s, init, target, stamp), Reset(last, 0, target, stamp))
  {
    var before := BulkOver(s, init, target, stamp);
    assert before.lots[last] == s.lots[last];
    assert Zeroed(s, init + [last], target)
        == before.lots[last := WithCount(s.lots[last], target, 0)];
    var row := BulkRow(s, |init|, last, target, stamp);
    assert BulkRows(s, init + [last], target, stamp) == BulkRows(s, init, target, stamp) + [row];
    assert s.log + (BulkRows(s, init, target, stamp) + [row]) == before.log + [row];
  }

  lemma {:induction false} FoldResetsIs(s: Store, ids: seq<nat>, target: Target, stamp: Stamp)
    requires forall l | l in ids :: l in s.lots
    requires Ascending(ids)
    ensures FoldResets(s, ids, target, stamp) == BulkOver(s, ids, target, stamp)
  {
    if ids == [] {
      assert Zeroed(s, ids, target) == s.lots;
    } else {
      var init, last := ids[..|ids| - 1], ids[|ids| - 1];
      assert ids == init + [last];
      assert last in ids && last !in init;
      FoldResetsIs(s, init, target, stamp);
      BulkOverSnoc(s, init, last, target, stamp);
    }
  }

  lemma ListedLots(s: Store, ids: seq<nat>)
    requires ids == SortedIds(s.lots.Keys)
    ensures Ascending(ids) && forall l | l in ids :: l in s.lots
  {
    forall l | l in ids ensures l in s.lots { assert l in s.lots.Keys; }
  }

  lemma ResetAllIs(s: Store, ids: seq<nat>, target: Target, stamp: Stamp)
    requires ids == SortedIds(s.lots.Keys)
    ensures Do(s, ResetAll(target, stamp)) == BulkOver(s, ids, target, stamp)
  {
  }

  lemma BulkIsFold(s: Store, ids: seq<nat>, target: Target, stamp: Stamp)
    requires ids == SortedIds(s.lots.Keys)
    ensures Do(s, ResetAll(target, stamp)) == FoldResets(s, ids, target, stamp)
  {
    ListedLots(s, ids);
    ResetAllIs(s, ids, target, stamp);
    FoldResetsIs(s, ids, target, stamp);
  }

  /** reset_all_counts is the fold of reset_count to 0 over the lots in id order. */
  lemma BulkEqualsFold(s: Store, target: Target, stamp: Stamp)
    ensures Do(s, ResetAll(target, stamp))
         == FoldResets(s, SortedIds(s.lots.Keys), target, stamp)
  {
    BulkIsFold(s, SortedIds(s.lots.Keys), target, stamp);
  }

  lemma {:induction false} RunConcat(s: Store, first: seq<Op>, second: seq<Op>)
    ensures Run(s, first + second) == Run(Run(s, first), second)
  {
    if second == [] {
      assert first + second == first;
    } else {
      var init := second[..|second| - 1];
      RunConcat(s, first, init);
      assert (first + second)[..|first + second| - 1] == first + init;
    }
  }
}
