/**
 The manual and the device-reported count never influence one another, over whole runs: erasing
 every operation on one side leaves everything the other side can see as it was.
 */
module NonInterference {
  import opened Wrappers
  import opened ParkingStore
  import opened Operations

  /** A log row without its generated id, which both sides draw from one sequence. */
  datatype Change = Change(lotId: nat, kind: ActivityType, delta: int, countAfter: int, stamp: Stamp)

  /** Everything one side sees. The event queue belongs to the device side. */
  datatype View = View(
    counts: map<nat, int>,
    names: map<nat, (string, nat)>,
    changes: seq<Change>,
    devices: map<nat, Device>,
    events: map<nat, Event>,
    nextLot: nat,
    nextDevice: nat,
    nextEvent: nat)

  function ChangeOf(row: Activity): Change {
    Change(row.lotId, row.kind, row.delta, row.countAfter, row.stamp)
  }

  /** The rows of one side, in log order. */
  function Changes(log: seq<Activity>, side: Target): seq<Change> {
    if log == [] then []
    else
      var last := log[|log| - 1];
      Changes(log[..|log| - 1], side) + if Side(last.kind) == side then [ChangeOf(last)] else []
  }

  function Counts(lots: map<nat, Lot>, side: Target): map<nat, int> {
    map l | l in lots :: CountOf(lots[l], side)
  }

  function Names(lots: map<nat, Lot>): map<nat, (string, nat)> {
    map l | l in lots :: (lots[l].name, lots[l].capacity)
  }

  function Seen(s: Store, side: Target): View {
    View(Counts(s.lots, side),
         Names(s.lots),
         Changes(s.log, side),
         s.devices,
         if side == System then s.events else map[],
         s.nextLot, s.nextDevice,
         if side == System then s.nextEvent else 0)
  }

  /** Operations that belong to the other side. */
  predicate Foreign(op: Op, side: Target) {
    match op
    case Adjust(_, _, _) => side == System
    case Reset(_, _, target, _) => target != side
    case ResetAll(target, _) => target != side
    case Enqueue(_, _, _, _, _, _) | Process(_, _, _) | Apply(_, _, _, _) | Mark(_, _, _) => side == Current
    case _ => false
  }

  function Erase(ops: seq<Op>, side: Target): seq<Op> {
    if ops == [] then []
    else
      var last := ops[|ops| - 1];
      Erase(ops[..|ops| - 1], side) + if Foreign(last, side) then [] else [last]
  }

  lemma ChangesSnoc(log: seq<Activity>, row: Activity, side: Target)
    ensures Changes(log + [row], side) == Changes(log, side) + if Side(row.kind) == side then [ChangeOf(row)] else []
  {
    assert (log + [row])[..|log|] == log;
  }

  lemma {:induction false} WithoutLotSameView(a: seq<Activity>, b: seq<Activity>, lot: nat, side: Target)
    requires Changes(a, side) == Changes(b, side)
    ensures Changes(WithoutLot(a, lot), side) == Changes(WithoutLot(b, lot), side)
  {
    WithoutLotView(a, lot, side);
    WithoutLotView(b, lot, side);
  }

  function DropLot(changes: seq<Change>, lot: nat): seq<Change> {
    if changes == [] then []
    else
      var last := changes[|changes| - 1];
      DropLot(changes[..|changes| - 1], lot) + if last.lotId == lot then [] else [last]
  }

  lemma {:induction false} WithoutLotView(log: seq<Activity>, lot: nat, side: Target)
    ensures Changes(WithoutLot(log, lot), side) == DropLot(Changes(log, side), lot)
  {
    if log != [] {
      var init, last := log[..|log| - 1], log[|log| - 1];
      WithoutLotView(init, lot, side);
      var kept, seen := WithoutLot(init, lot), Changes(init, side);
      ChangesSnoc(kept, last, side);
      assert kept + [] == kept && seen + [] == seen;
      assert (seen + [ChangeOf(last)])[..|seen|] == seen;
    }
  }

  // An operation of the other side is invisible.

  lemma WithCountSeen(lots: map<nat, Lot>, lot: nat, target: Target, n: int, side: Target)
    requires lot in lots
    ensures var changed := lots[lot := WithCount(lots[lot], target, n)];
      && Counts(changed, side) == (if target == side then Counts(lots, side)[lot := n] else Counts(lots, side))
      && Names(changed) == Names(lots)
  {
  }

  lemma RecordInvisible(s: Store, lot: nat, kind: ActivityType, n: int, stamp: Stamp, side: Target)
    requires lot in s.lots && Side(kind) != side
    ensures Seen(Record(s, lot, kind, n, stamp), side) == Seen(s, side)
  {
    ChangesSnoc(s.log, Record(s, lot, kind, n, stamp).log[|s.log|], side);
    WithCountSeen(s.lots, lot, Side(kind), n, side);
  }

  lemma {:induction false} FoldInvisible(s: Store, ids: seq<nat>, target: Target, stamp: Stamp, side: Target)
    requires target != side
    ensures Seen(FoldResets(s, ids, target, stamp), side) == Seen(s, side)
  {
    if ids != [] {
      var before := FoldResets(s, ids[..|ids| - 1], target, stamp);
      FoldInvisible(s, ids[..|ids| - 1], target, stamp, side);
      if ids[|ids| - 1] in before.lots {
        RecordInvisible(before, ids[|ids| - 1], ResetKind(target), 0, stamp, side);
      }
    }
  }

  lemma ApplyInvisible(s: Store, e: nat, lot: Option<nat>, actor: string, now: int)
    requires Waiting(s, e)
    ensures Seen(ApplyTo(s, e, lot, actor, now), Current) == Seen(s, Current)
  {
    if lot.Some? && lot.value in s.lots {
      var eventType := s.events[e].eventType;
      RecordInvisible(s, lot.value, EventKind(eventType),
                      CountAfterEvent(s.lots[lot.value].systemCount, eventType), Stamp(actor, None, now), Current);
    }
  }

  lemma ForeignInvisible(s: Store, op: Op, side: Target)
    requires Foreign(op, side)
    ensures Seen(Do(s, op), side) == Seen(s, side)
  {
    match op
    case Adjust(lot, delta, stamp) =>
      if lot in s.lots {
        RecordInvisible(s, lot, ManualAdjustment, Max0(s.lots[lot].currentCount + delta), stamp, side);
      }
    case Reset(lot, count, target, stamp) =>
      if lot in s.lots { RecordInvisible(s, lot, ResetKind(target), count, stamp, side); }
    case ResetAll(target, stamp) =>
      BulkEqualsFold(s, target, stamp);
      FoldInvisible(s, SortedIds(s.lots.Keys), target, stamp, side);
    case Process(e, outcome, now) =>
      if Processable(s, e) {
        var device := s.devices[s.events[e].deviceId];
        ApplyInvisible(s, e, Some(device.lotId), device.code, now);
      }
    case Apply(e, lot, actor, now) =>
      if Waiting(s, e) { ApplyInvisible(s, e, lot, actor, now); }
    case _ =>
  }

  // An operation of this side depends on nothing but the view.

  lemma SameLots(s: Store, t: Store, side: Target)
    requires Seen(s, side) == Seen(t, side)
    ensures s.lots.Keys == t.lots.Keys
    ensures forall l | l in s.lots :: l in t.lots && Count(s, l, side) == Count(t, l, side)
  {
    assert s.lots.Keys == Seen(s, side).counts.Keys;
    assert t.lots.Keys == Seen(t, side).counts.Keys;
    forall l | l in s.lots ensures Count(s, l, side) == Count(t, l, side) {
      assert Seen(s, side).counts[l] == Seen(t, side).counts[l];
    }
  }

  lemma RecordSeen(s: Store, lot: nat, kind: ActivityType, n: int, stamp: Stamp)
    requires lot in s.lots
    ensures var side, v := Side(kind), Seen(s, Side(kind));
      Seen(Record(s, lot, kind, n, stamp), side)
      == v.(counts := v.counts[lot := n],
            changes := v.changes + [Change(lot, kind, n - Count(s, lot, side), n, stamp)])
  {
    ChangesSnoc(s.log, Record(s, lot, kind, n, stamp).log[|s.log|], Side(kind));
    WithCountSeen(s.lots, lot, Side(kind), n, Side(kind));
  }

  lemma RecordSameView(s: Store, t: Store, lot: nat, kind: ActivityType, n: int, stamp: Stamp)
    requires Seen(s, Side(kind)) == Seen(t, Side(kind))
    requires lot in s.lots
    ensures lot in t.lots
    ensures Seen(Record(s, lot, kind, n, stamp), Side(kind)) == Seen(Record(t, lot, kind, n, stamp), Side(kind))
  {
    SameLots(s, t, Side(kind));
    RecordSeen(s, lot, kind, n, stamp);
    RecordSeen(t, lot, kind, n, stamp);
  }

  lemma {:induction false} FoldSameView(s: Store, t: Store, ids: seq<nat>, stamp: Stamp, side: Target)
    requires Seen(s, side) == Seen(t, side)
    ensures Seen(FoldResets(s, ids, side, stamp), side) == Seen(FoldResets(t, ids, side, stamp), side)
  {
    if ids != [] {
      var init, last := ids[..|ids| - 1], ids[|ids| - 1];
      FoldSameView(s, t, init, stamp, side);
      ResetSameView(FoldResets(s, init, side, stamp), FoldResets(t, init, side, stamp), last, 0, stamp, side);
    }
  }

  lemma ResetSameView(s: Store, t: Store, lot: nat, count: int, stamp: Stamp, side: Target)
    requires Seen(s, side) == Seen(t, side)
    ensures Seen(Do(s, Reset(lot, count, side, stamp)), side) == Seen(Do(t, Reset(lot, count, side, stamp)), side)
  {
    SameLots(s, t, side);
    if lot in s.lots { RecordSameView(s, t, lot, ResetKind(side), count, stamp); }
  }

  lemma ApplySameView(s: Store, t: Store, e: nat, lot: Option<nat>, actor: string, now: int)
    requires Seen(s, System) == Seen(t, System) && Waiting(s, e)
    ensures Waiting(t, e)
    ensures Seen(ApplyTo(s, e, lot, actor, now), System) == Seen(ApplyTo(t, e, lot, actor, now), System)
  {
    SameLots(s, t, System);
    if lot.Some? && lot.value in s.lots {
      var eventType := s.events[e].eventType;
      assert Count(s, lot.value, System) == Count(t, lot.value, System);
      RecordSameView(s, t, lot.value, EventKind(eventType),
                     CountAfterEvent(s.lots[lot.value].systemCount, eventType), Stamp(actor, None, now));
    }
  }

  lemma DeleteLotSameView(s: Store, t: Store, lot: nat, side: Target)
    requires Seen(s, side) == Seen(t, side)
    ensures Seen(Do(s, DeleteLot(lot)), side) == Seen(Do(t, DeleteLot(lot)), side)
  {
    SameLots(s, t, side);
    WithoutLotSameView(s.log, t.log, lot, side);
    LotRemovedSeen(s.lots, lot, side);
    LotRemovedSeen(t.lots, lot, side);
    assert LotInUse(s, lot) <==> LotInUse(t, lot);
  }

  lemma LotRemovedSeen(lots: map<nat, Lot>, lot: nat, side: Target)
    ensures Counts(lots - {lot}, side) == Counts(lots, side) - {lot}
    ensures Names(lots - {lot}) == Names(lots) - {lot}
  {
  }

  lemma LotAddedSeen(lots: map<nat, Lot>, id: nat, row: Lot, side: Target)
    ensures Counts(lots[id := row], side) == Counts(lots, side)[id := CountOf(row, side)]
    ensures Names(lots[id := row]) == Names(lots)[id := (row.name, row.capacity)]
  {
  }

  lemma CreateLotSameView(s: Store, t: Store, name: string, capacity: nat, side: Target)
    requires Seen(s, side) == Seen(t, side)
    ensures Seen(Do(s, CreateLot(name, capacity)), side) == Seen(Do(t, CreateLot(name, capacity)), side)
  {
    LotAddedSeen(s.lots, s.nextLot, Lot(name, capacity, 0, 0), side);
    LotAddedSeen(t.lots, t.nextLot, Lot(name, capacity, 0, 0), side);
  }

  lemma ZeroedSeen(s: Store, side: Target)
    ensures Counts(Do(s, DailyReset).lots, side) == map l | l in Counts(s.lots, side) :: 0
    ensures Names(Do(s, DailyReset).lots) == Names(s.lots)
  {
  }

  lemma DailyResetSameView(s: Store, t: Store, side: Target)
    requires Seen(s, side) == Seen(t, side)
    ensures Seen(Do(s, DailyReset), side) == Seen(Do(t, DailyReset), side)
  {
    ZeroedSeen(s, side);
    ZeroedSeen(t, side);
  }

  lemma AppliesSameView(s: Store, t: Store, op: Op, side: Target)
    requires Seen(s, side) == Seen(t, side) && !Foreign(op, side)
    requires op.Process? || op.Apply?
    ensures Seen(Do(s, op), side) == Seen(Do(t, op), side)
  {
    match op
    case Process(e, outcome, now) =>
      if Processable(s, e) {
        var device := s.devices[s.events[e].deviceId];
        ApplySameView(s, t, e, Some(device.lotId), device.code, now);
      }
    case Apply(e, lot, actor, now) =>
      if Waiting(s, e) { ApplySameView(s, t, e, lot, actor, now); }
  }

  lemma ManualSameView(s: Store, t: Store, op: Op, side: Target)
    requires Seen(s, side) == Seen(t, side) && !Foreign(op, side)
    requires op.Adjust? || op.Reset? || op.ResetAll?
    ensures Seen(Do(s, op), side) == Seen(Do(t, op), side)
  {
    SameLots(s, t, side);
    match op
    case Adjust(lot, delta, stamp) =>
      if lot in s.lots {
        assert Count(s, lot, side) == Count(t, lot, side);
        RecordSameView(s, t, lot, ManualAdjustment, Max0(s.lots[lot].currentCount + delta), stamp);
      }
    case Reset(lot, count, target, stamp) => ResetSameView(s, t, lot, count, stamp, side);
    case ResetAll(target, stamp) =>
      BulkEqualsFold(s, target, stamp);
      BulkEqualsFold(t, target, stamp);
      FoldSameView(s, t, SortedIds(s.lots.Keys), stamp, side);
  }

  lemma LotsSameView(s: Store, t: Store, op: Op, side: Target)
    requires Seen(s, side) == Seen(t, side)
    requires op.CreateLot? || op.DeleteLot? || op.DailyReset?
    ensures Seen(Do(s, op), side) == Seen(Do(t, op), side)
  {
    match op
    case CreateLot(name, capacity) => CreateLotSameView(s, t, name, capacity, side);
    case DeleteLot(lot) => DeleteLotSameView(s, t, lot, side);
    case DailyReset => DailyResetSameView(s, t, side);
  }

  lemma RegisterSameView(s: Store, t: Store, code: string, lot: nat, side: Target)
    requires Seen(s, side) == Seen(t, side)
    ensures Seen(Do(s, RegisterDevice(code, lot)), side) == Seen(Do(t, RegisterDevice(code, lot)), side)
  {
    SameLots(s, t, side);
  }

  lemma UpdateSameView(s: Store, t: Store, device: nat, newCode: Option<string>, newLot: Option<nat>, side: Target)
    requires Seen(s, side) == Seen(t, side)
    ensures Seen(Do(s, UpdateDevice(device, newCode, newLot)), side)
         == Seen(Do(t, UpdateDevice(device, newCode, newLot)), side)
  {
    SameLots(s, t, side);
  }

  lemma DeleteDeviceSameView(s: Store, t: Store, device: nat, side: Target)
    requires Seen(s, side) == Seen(t, side)
    ensures Seen(Do(s, DeleteDevice(device)), side) == Seen(Do(t, DeleteDevice(device)), side)
  {
  }

  lemma DevicesSameView(s: Store, t: Store, op: Op, side: Target)
    requires Seen(s, side) == Seen(t, side)
    requires op.RegisterDevice? || op.UpdateDevice? || op.DeleteDevice?
    ensures Seen(Do(s, op), side) == Seen(Do(t, op), side)
  {
    match op
    case RegisterDevice(code, lot) => RegisterSameView(s, t, code, lot, side);
    case UpdateDevice(device, newCode, newLot) => UpdateSameView(s, t, device, newCode, newLot, side);
    case DeleteDevice(device) => DeleteDeviceSameView(s, t, device, side);
  }

  lemma EnqueueSameView(s: Store, t: Store, op: Op)
    requires Seen(s, System) == Seen(t, System) && op.Enqueue?
    ensures Seen(Do(s, op), System) == Seen(Do(t, op), System)
  {
    assert s.events == t.events && s.devices == t.devices && s.nextEvent == t.nextEvent;
    assert RequestKnown(s, op.requestId) <==> RequestKnown(t, op.requestId);
  }

  lemma MarkSameView(s: Store, t: Store, e: nat, attempts: nat, sets: bool)
    requires Seen(s, System) == Seen(t, System)
    ensures Seen(Do(s, Mark(e, attempts, sets)), System) == Seen(Do(t, Mark(e, attempts, sets)), System)
  {
  }

  lemma QueueSameView(s: Store, t: Store, op: Op, side: Target)
    requires Seen(s, side) == Seen(t, side) && !Foreign(op, side)
    requires op.Enqueue? || op.Mark?
    ensures Seen(Do(s, op), side) == Seen(Do(t, op), side)
  {
    match op
    case Enqueue(_, _, _, _, _, _) => EnqueueSameView(s, t, op);
    case Mark(e, attempts, sets) => MarkSameView(s, t, e, attempts, sets);
  }

  lemma OwnSameView(s: Store, t: Store, op: Op, side: Target)
    requires Seen(s, side) == Seen(t, side) && !Foreign(op, side)
    ensures Seen(Do(s, op), side) == Seen(Do(t, op), side)
  {
    if op.CreateLot? || op.DeleteLot? || op.DailyReset? {
      LotsSameView(s, t, op, side);
    } else if op.RegisterDevice? || op.UpdateDevice? || op.DeleteDevice? {
      DevicesSameView(s, t, op, side);
    } else if op.Enqueue? || op.Mark? {
      QueueSameView(s, t, op, side);
    } else if op.Process? || op.Apply? {
      AppliesSameView(s, t, op, side);
    } else {
      ManualSameView(s, t, op, side);
    }
  }

  /** The other side's operations can be erased from any run without this side noticing. */
  lemma {:induction false} NonInterferenceOverRun(s: Store, ops: seq<Op>, side: Target)
    ensures Seen(Run(s, ops), side) == Seen(Run(s, Erase(ops, side)), side)
  {
    if ops != [] {
      var init, last := ops[..|ops| - 1], ops[|ops| - 1];
      NonInterferenceOverRun(s, init, side);
      var kept := Erase(init, side);
      if Foreign(last, side) {
        ForeignInvisible(Run(s, init), last, side);
        assert Erase(ops, side) == kept;
      } else {
        OwnSameView(Run(s, init), Run(s, kept), last, side);
        assert Erase(ops, side) == kept + [last];
        assert (kept + [last])[..|kept|] == kept;
      }
    }
  }
}
