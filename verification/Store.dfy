/** Results of lookups and of calls that may be rejected. */
module Wrappers {

  datatype Option<+T> = None | Some(value: T)

  /** The exceptions the use cases raise, as values. */
  datatype Error = NotFound | Conflict | Integrity | Unauthorized

  datatype Result<+T> = Ok(value: T) | Err(error: Error)
}

/**
 The rows of the database and the constraints the schema enforces. A table is a map from
 primary key to row, except for the activity log, which is kept in primary-key order.
 Times are integers on the server's local clock.
 */
module ParkingStore {
  import opened Wrappers

  datatype EventType = Entry | Exit

  datatype EventStatus = Pending | Processed | Failed

  datatype Event = Event(
    deviceId: nat,
    eventType: EventType,
    requestId: string,
    trackId: Option<string>,
    detectedAt: int,
    receivedAt: int,
    status: EventStatus,
    attempts: nat)
  {
    /** The guard of process_event and of the sweep: not applied yet. */
    predicate Unfinished() {
      status == Pending || status == Failed
    }

    /** What the device sent and when it arrived; no later step may change it. */
    predicate SamePayload(that: Event) {
      this == that.(status := status, attempts := attempts)
    }
  }

  datatype Lot = Lot(name: string, capacity: nat, currentCount: int, systemCount: int)

  datatype Device = Device(code: string, lotId: nat)

  /** The two counters of a lot: `Current` is the manual one, `System` the device-reported one. */
  datatype Target = Current | System

  datatype ActivityType =
    | EntryActivity
    | ExitActivity
    | ManualAdjustment
    | ManualReset
    | SystemReset

  /** Who changed a counter, why and when: actor_label, note and created_at. */
  datatype Stamp = Stamp(actor: string, note: Option<string>, createdAt: int)

  datatype Activity = Activity(
    id: nat,
    lotId: nat,
    kind: ActivityType,
    delta: int,
    countAfter: int,
    stamp: Stamp)

  datatype Store = Store(
    lots: map<nat, Lot>,
    devices: map<nat, Device>,
    events: map<nat, Event>,
    log: seq<Activity>,
    nextLot: nat,
    nextDevice: nat,
    nextEvent: nat,
    nextActivity: nat)

  const EMPTY_STORE := Store(map[], map[], map[], [], 1, 1, 1, 1)

  /** The counter an activity row is about. */
  function Side(kind: ActivityType): Target {
    match kind
    case EntryActivity | ExitActivity | SystemReset => System
    case ManualAdjustment | ManualReset => Current
  }

  function ResetKind(target: Target): ActivityType {
    if target == Current then ManualReset else SystemReset
  }

  function EventKind(eventType: EventType): ActivityType {
    if eventType == Entry then EntryActivity else ExitActivity
  }

  function Max0(n: int): int {
    if n < 0 then 0 else n
  }

  function CountOf(row: Lot, side: Target): int {
    if side == Current then row.currentCount else row.systemCount
  }

  function WithCount(row: Lot, side: Target, n: int): Lot {
    if side == Current then row.(currentCount := n) else row.(systemCount := n)
  }

  function Count(s: Store, lot: nat, side: Target): int
    requires lot in s.lots
  {
    CountOf(s.lots[lot], side)
  }

  function SetCount(s: Store, lot: nat, side: Target, n: int): Store
    requires lot in s.lots
  {
    s.(lots := s.lots[lot := WithCount(s.lots[lot], side, n)])
  }

  /** parking_activity_repository.create: the log only grows at its end. */
  function Append(s: Store, lot: nat, kind: ActivityType, delta: int, countAfter: int, stamp: Stamp): Store {
    s.(log := s.log + [Activity(s.nextActivity, lot, kind, delta, countAfter, stamp)],
       nextActivity := s.nextActivity + 1)
  }

  /** Sets the counter that `kind` is about to `n`, and logs the change. */
  function Record(s: Store, lot: nat, kind: ActivityType, n: int, stamp: Stamp): Store
    requires lot in s.lots
  {
    Append(SetCount(s, lot, Side(kind), n), lot, kind, n - Count(s, lot, Side(kind)), n, stamp)
  }

  /** What one event asks of the system counter, before the clamp at 0. */
  function EventDelta(eventType: EventType): int {
    if eventType == Entry then 1 else -1
  }

  /** Lines 122 to 125 of event_usecase.py. */
  function CountAfterEvent(before: int, eventType: EventType): int {
    if eventType == Entry then before + 1 else Max0(before - 1)
  }

  predicate RequestKnown(s: Store, requestId: string) {
    exists e | e in s.events :: s.events[e].requestId == requestId
  }

  /** Rows of one lot removed, as the cascade of a deleted lot does. */
  function WithoutLot(log: seq<Activity>, lot: nat): (kept: seq<Activity>)
    ensures forall r | r in kept :: r in log && r.lotId != lot
  {
    if log == [] then []
    else
      var last := log[|log| - 1];
      WithoutLot(log[..|log| - 1], lot) + if last.lotId == lot then [] else [last]
  }

  predicate IsLeast(least: nat, ids: set<nat>) {
    least in ids && forall i | i in ids :: least <= i
  }

  lemma LeastExists(ids: set<nat>)
    requires ids != {}
    ensures exists least :: IsLeast(least, ids)
  {
    var some :| some in ids;
    if ids == {some} {
      assert IsLeast(some, ids);
    } else {
      LeastExists(ids - {some});
      var least :| IsLeast(least, ids - {some});
      assert IsLeast(if some < least then some else least, ids) by {
        assert forall i | i in ids :: i == some || i in ids - {some};
      }
    }
  }

  /** The keys of a table in ascending order, as ORDER BY id lists them. */
  function SortedIds(ids: set<nat>): (order: seq<nat>)
    ensures forall i :: i in ids <==> i in order
    ensures Ascending(order)
  {
    if ids == {} then []
    else
      LeastExists(ids);
      var least :| IsLeast(least, ids);
      var rest := SortedIds(ids - {least});
      assert forall i | i in rest :: i in ids - {least};
      [least] + rest
  }

  predicate Ascending(order: seq<nat>) {
    forall i, j | 0 <= i < j < |order| :: order[i] < order[j]
  }
}
