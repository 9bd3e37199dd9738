/**
 The counters are a cached view of the activity log, and the foreign keys, generated ids and
 unique columns stay in order. Both are kept by every committed transaction.
 */
module Ledger {
  import opened Wrappers
  import opened ParkingStore
  import opened Operations

  predicate About(row: Activity, lot: nat, side: Target) {
    row.lotId == lot && Side(row.kind) == side
  }

  /** The deltas logged for one counter. */
  function Total(log: seq<Activity>, lot: nat, side: Target): int {
    if log == [] then 0
    else
      var last := log[|log| - 1];
      Total(log[..|log| - 1], lot, side) + if About(last, lot, side) then last.delta else 0
  }

  /** Every row's count_after is what the rows up to and including it add up to. */
  predicate Chained(log: seq<Activity>) {
    log == [] ||
    var init, last := log[..|log| - 1], log[|log| - 1];
    Chained(init) && last.countAfter == Total(init, last.lotId, Side(last.kind)) + last.delta
  }

  ghost predicate CountersAgree(s: Store) {
    && (forall l | l in s.lots :: s.lots[l].systemCount == Total(s.log, l, System))
    && (forall l | l in s.lots :: s.lots[l].currentCount == Total(s.log, l, Current))
  }

  /** Log rows reference lots that exist, and carry increasing generated ids. */
  ghost predicate LogInOrder(s: Store) {
    && (forall i | 0 <= i < |s.log| :: s.log[i].lotId in s.lots && s.log[i].id < s.nextActivity)
    && IdsIncrease(s.log)
  }

  ghost predicate IdsIncrease(log: seq<Activity>) {
    forall i, j | 0 <= i < j < |log| :: log[i].id < log[j].id
  }

  ghost predicate LedgerOk(s: Store) {
    CountersAgree(s) && Chained(s.log) && LogInOrder(s)
  }

  /** Foreign keys hold and generated ids are fresh. */
  ghost predicate ReferencesOk(s: Store) {
    && (forall d | d in s.devices :: s.devices[d].lotId in s.lots && d < s.nextDevice)
    && (forall e | e in s.events :: s.events[e].deviceId in s.devices && e < s.nextEvent)
    && (forall l | l in s.lots :: l < s.nextLot)
  }

  ghost predicate EventsOk(s: Store) {
    && (forall e, f | e in s.events && f in s.events && s.events[e].requestId == s.events[f].requestId :: e == f)
    && (forall e | e in s.events && s.events[e].status == Pending :: s.events[e].attempts == 0)
  }

  /** No two devices have the same code. */
  ghost predicate CodesUnique(s: Store) {
    forall d, f | d in s.devices && f in s.devices && s.devices[d].code == s.devices[f].code :: d == f
  }

  ghost predicate StoreOk(s: Store) {
    LedgerOk(s) && ReferencesOk(s) && EventsOk(s) && CodesUnique(s)
  }

  lemma TotalSnoc(log: seq<Activity>, row: Activity, lot: nat, side: Target)
    ensures Total(log + [row], lot, side) == Total(log, lot, side) + if About(row, lot, side) then row.delta else 0
  {
    assert (log + [row])[..|log|] == log;
  }

  lemma {:induction false} UnseenLotHasNoTotal(log: seq<Activity>, lot: nat, side: Target)
    requires forall r | r in log :: r.lotId != lot
    ensures Total(log, lot, side) == 0
  {
    if log != [] {
      assert log[|log| - 1] in log;
      UnseenLotHasNoTotal(log[..|log| - 1], lot, side);
    }
  }

  /** Setting a counter and logging the difference keeps the ledger. */
  lemma RecordKeepsLedger(s: Store, lot: nat, kind: ActivityType, n: int, stamp: Stamp)
    requires LedgerOk(s) && lot in s.lots
    ensures LedgerOk(Record(s, lot, kind, n, stamp))
  {
    var t := Record(s, lot, kind, n, stamp);
    var row := t.log[|s.log|];
    forall l, side { TotalSnoc(s.log, row, l, side); }
    assert t.log[..|t.log| - 1] == s.log;
  }

  lemma {:induction false} FoldKeepsLedger(s: Store, ids: seq<nat>, target: Target, stamp: Stamp)
    requires LedgerOk(s)
    ensures LedgerOk(FoldResets(s, ids, target, stamp))
  {
    if ids != [] {
      var before := FoldResets(s, ids[..|ids| - 1], target, stamp);
      FoldKeepsLedger(s, ids[..|ids| - 1], target, stamp);
      ResetKeepsLedger(before, ids[|ids| - 1], 0, target, stamp);
    }
  }

  lemma ResetKeepsLedger(s: Store, lot: nat, count: int, target: Target, stamp: Stamp)
    requires LedgerOk(s)
    ensures LedgerOk(Do(s, Reset(lot, count, target, stamp)))
  {
    if lot in s.lots { RecordKeepsLedger(s, lot, ResetKind(target), count, stamp); }
  }

  lemma WithoutLotSnoc(log: seq<Activity>, gone: nat)
    requires log != []
    ensures var init, last := log[..|log| - 1], log[|log| - 1];
      WithoutLot(log, gone) == if last.lotId == gone then WithoutLot(init, gone) else WithoutLot(init, gone) + [last]
  {
    assert WithoutLot(log[..|log| - 1], gone) + [] == WithoutLot(log[..|log| - 1], gone);
  }

  /** The cascade of a deleted lot leaves exactly the rows of the other lots. */
  lemma {:induction false} WithoutLotHas(log: seq<Activity>, gone: nat)
    ensures forall r :: r in WithoutLot(log, gone) <==> r in log && r.lotId != gone
  {
    if log != [] {
      var init, last := log[..|log| - 1], log[|log| - 1];
      assert log == init + [last];
      WithoutLotSnoc(log, gone);
      WithoutLotHas(init, gone);
    }
  }

  /** And their deltas, counter by counter. */
  lemma {:induction false} WithoutLotTotal(log: seq<Activity>, gone: nat, l: nat, side: Target)
    requires l != gone
    ensures Total(WithoutLot(log, gone), l, side) == Total(log, l, side)
  {
    if log != [] {
      var init, last := log[..|log| - 1], log[|log| - 1];
      WithoutLotSnoc(log, gone);
      WithoutLotTotal(init, gone, l, side);
      TotalSnoc(WithoutLot(init, gone), last, l, side);
    }
  }

  lemma {:induction false} WithoutLotChained(log: seq<Activity>, gone: nat)
    requires Chained(log)
    ensures Chained(WithoutLot(log, gone))
  {
    if log != [] {
      var init, last := log[..|log| - 1], log[|log| - 1];
      WithoutLotSnoc(log, gone);
      WithoutLotChained(init, gone);
      if last.lotId != gone {
        WithoutLotTotal(init, gone, last.lotId, Side(last.kind));
        assert (WithoutLot(init, gone) + [last])[..|WithoutLot(init, gone)|] == WithoutLot(init, gone);
      }
    }
  }

  lemma {:induction false} WithoutLotIds(log: seq<Activity>, gone: nat)
    requires IdsIncrease(log)
    ensures IdsIncrease(WithoutLot(log, gone))
  {
    if log != [] {
      var init, last := log[..|log| - 1], log[|log| - 1];
      WithoutLotSnoc(log, gone);
      WithoutLotIds(init, gone);
      forall r | r in WithoutLot(init, gone) ensures r.id < last.id {
        assert r in init;
      }
    }
  }

  /** The rows left are of lots that are left. */
  lemma WithoutLotRefers(s: Store, gone: nat)
    requires LogInOrder(s)
    ensures LogInOrder(s.(lots := s.lots - {gone}, log := WithoutLot(s.log, gone)))
  {
    WithoutLotIds(s.log, gone);
    var kept := WithoutLot(s.log, gone);
    forall i | 0 <= i < |kept| ensures kept[i].lotId in s.lots && kept[i].lotId != gone && kept[i].id < s.nextActivity {
      assert kept[i] in kept;
    }
  }

  lemma DeleteLotKeepsLedger(s: Store, lot: nat)
    requires LedgerOk(s)
    ensures LedgerOk(Do(s, DeleteLot(lot)))
  {
    forall l, side | l != lot { WithoutLotTotal(s.log, lot, l, side); }
    WithoutLotChained(s.log, lot);
    WithoutLotRefers(s, lot);
  }

  lemma CreateLotKeepsLedger(s: Store, name: string, capacity: nat)
    requires LedgerOk(s) && ReferencesOk(s)
    ensures LedgerOk(Do(s, CreateLot(name, capacity)))
  {
    assert s.nextLot !in s.lots;
    forall side { UnseenLotHasNoTotal(s.log, s.nextLot, side); }
  }

  lemma ManualKeepsLedger(s: Store, op: Op)
    requires LedgerOk(s) && (op.Adjust? || op.Reset? || op.ResetAll?)
    ensures LedgerOk(Do(s, op))
  {
    match op
    case Adjust(lot, delta, stamp) =>
      if lot in s.lots {
        RecordKeepsLedger(s, lot, ManualAdjustment, Max0(s.lots[lot].currentCount + delta), stamp);
      }
    case Reset(lot, count, target, stamp) => ResetKeepsLedger(s, lot, count, target, stamp);
    case ResetAll(target, stamp) =>
      BulkEqualsFold(s, target, stamp);
      FoldKeepsLedger(s, SortedIds(s.lots.Keys), target, stamp);
  }

  /** For each lot, both counters equal the deltas logged for them, and every count_after fits. */
  lemma LedgerKept(s: Store, op: Op)
    requires LedgerOk(s) && ReferencesOk(s)
    ensures LedgerOk(Do(s, op))
  {
    match op
    case CreateLot(name, capacity) => CreateLotKeepsLedger(s, name, capacity);
    case DeleteLot(lot) => DeleteLotKeepsLedger(s, lot);
    case Process(e, outcome, now) =>
      if Processable(s, e) {
        var device := s.devices[s.events[e].deviceId];
        ApplyKeepsLedger(s, e, Some(device.lotId), device.code, now);
      }
    case Apply(e, lot, actor, now) =>
      if Waiting(s, e) { ApplyKeepsLedger(s, e, lot, actor, now); }
    case Adjust(_, _, _) => ManualKeepsLedger(s, op);
    case Reset(_, _, _, _) => ManualKeepsLedger(s, op);
    case ResetAll(_, _) => ManualKeepsLedger(s, op);
    case _ =>
  }

  lemma ApplyKeepsLedger(s: Store, e: nat, lot: Option<nat>, actor: string, now: int)
    requires LedgerOk(s) && Waiting(s, e)
    ensures LedgerOk(ApplyTo(s, e, lot, actor, now))
  {
    if lot.Some? && lot.value in s.lots {
      var eventType := s.events[e].eventType;
      RecordKeepsLedger(s, lot.value, EventKind(eventType),
                        CountAfterEvent(s.lots[lot.value].systemCount, eventType), Stamp(actor, None, now));
    }
  }

  /** Every device's lot and every event's device exist after any transaction. */
  lemma ReferencesKept(s: Store, op: Op)
    requires ReferencesOk(s)
    ensures ReferencesOk(Do(s, op))
  {
  }

  /** A row rewritten under its own request id, and not as pending after attempts, disturbs nothing. */
  lemma RowKept(s: Store, e: nat, row: Event)
    requires EventsOk(s) && e in s.events && row.requestId == s.events[e].requestId
    requires row.status == Pending ==> row.attempts == 0
    ensures EventsOk(SetEvent(s, e, row))
  {
  }

  lemma ApplyKeepsEvents(s: Store, e: nat, found: Option<nat>, actor: string, now: int)
    requires EventsOk(s) && e in s.events
    ensures EventsOk(ApplyTo(s, e, found, actor, now))
  {
    RowKept(s, e, s.events[e].(status := Processed));
  }

  lemma EnqueueKeepsEvents(s: Store, op: Op)
    requires ReferencesOk(s) && EventsOk(s) && op.Enqueue?
    ensures EventsOk(Do(s, op))
  {
  }

  lemma ProcessKeepsEvents(s: Store, e: nat, outcome: Outcome, now: int)
    requires EventsOk(s) && Processable(s, e)
    ensures EventsOk(ProcessAs(s, e, outcome, now))
  {
    match outcome
    case Succeeds =>
      var device := s.devices[s.events[e].deviceId];
      ApplyKeepsEvents(s, e, Some(device.lotId), device.code, now);
    case FailsMarked => RowKept(s, e, MarkedRow(s.events[e], s.events[e].attempts + 1, true));
    case FailsUnmarked =>
  }

  lemma MarkKeepsEvents(s: Store, e: nat, attempts: nat, sets: bool)
    requires EventsOk(s)
    ensures EventsOk(Do(s, Mark(e, attempts, sets)))
  {
    if e in s.events && (sets || s.events[e].status != Pending) {
      RowKept(s, e, MarkedRow(s.events[e], attempts, sets));
    }
  }

  lemma FewerEvents(s: Store, t: Store)
    requires EventsOk(s) && forall e | e in t.events :: e in s.events && t.events[e] == s.events[e]
    ensures EventsOk(t)
  {
  }

  lemma EventsKept(s: Store, op: Op)
    requires ReferencesOk(s) && EventsOk(s)
    ensures EventsOk(Do(s, op))
  {
    match op
    case Enqueue(_, _, _, _, _, _) => EnqueueKeepsEvents(s, op);
    case Process(e, outcome, now) =>
      if Processable(s, e) { ProcessKeepsEvents(s, e, outcome, now); }
    case Apply(e, found, actor, now) =>
      if Waiting(s, e) { ApplyKeepsEvents(s, e, found, actor, now); }
    case Mark(e, attempts, sets) => MarkKeepsEvents(s, e, attempts, sets);
    case _ => FewerEvents(s, Do(s, op));
  }

  lemma CodesKept(s: Store, op: Op)
    requires CodesUnique(s)
    ensures CodesUnique(Do(s, op))
  {
  }

  lemma StoreKept(s: Store, op: Op)
    requires StoreOk(s)
    ensures StoreOk(Do(s, op))
  {
    CodesKept(s, op);
    LedgerKept(s, op);
    ReferencesKept(s, op);
    EventsKept(s, op);
  }

  lemma {:induction false} StoreOkOverRun(s: Store, ops: seq<Op>)
    requires StoreOk(s)
    ensures StoreOk(Run(s, ops))
  {
    if ops != [] {
      StoreOkOverRun(s, ops[..|ops| - 1]);
      StoreKept(Run(s, ops[..|ops| - 1]), ops[|ops| - 1]);
    }
  }

  lemma {:induction false} ChainedAt(log: seq<Activity>, k: nat)
    requires Chained(log) && k < |log|
    ensures log[k].countAfter == Total(log[..k + 1], log[k].lotId, Side(log[k].kind))
  {
    if k == |log| - 1 {
      assert log[..k + 1] == log;
    } else {
      var init := log[..|log| - 1];
      ChainedAt(init, k);
      assert init[..k + 1] == log[..k + 1];
    }
  }

  lemma {:induction false} TotalSkips(log: seq<Activity>, i: nat, j: nat, lot: nat, side: Target)
    requires i <= j <= |log|
    requires forall k | i <= k < j :: !About(log[k], lot, side)
    ensures Total(log[..j], lot, side) == Total(log[..i], lot, side)
    decreases j
  {
    if i < j {
      TotalSkips(log, i, j - 1, lot, side);
      assert log[..j][..j - 1] == log[..j - 1];
    }
  }

  /**
   Each row's count_after is the previous same-counter row's count_after plus its own delta, and
   the last row of a counter shows the stored value.
   */
  lemma RowsFollowOneAnother(s: Store, i: nat, j: nat, lot: nat, side: Target)
    requires StoreOk(s) && lot in s.lots
    requires i < j <= |s.log| && About(s.log[i], lot, side)
    requires forall k | i < k < j :: !About(s.log[k], lot, side)
    ensures j < |s.log| && About(s.log[j], lot, side) ==>
      s.log[j].countAfter == s.log[i].countAfter + s.log[j].delta
    ensures j == |s.log| ==> Count(s, lot, side) == s.log[i].countAfter
  {
    ChainedAt(s.log, i);
    TotalSkips(s.log, i + 1, j, lot, side);
    if j < |s.log| {
      ChainedAt(s.log, j);
      assert s.log[..j + 1][..j] == s.log[..j];
    } else {
      assert s.log[..j] == s.log;
    }
  }

  function SumDeltas(rows: seq<Activity>): int {
    if rows == [] then 0 else SumDeltas(rows[..|rows| - 1]) + rows[|rows| - 1].delta
  }

  function SumCounts(s: Store, ids: seq<nat>, target: Target): int
    requires forall l | l in ids :: l in s.lots
  {
    if ids == [] then 0
    else
      var n := |ids| - 1;
      assert ids[n] in ids && forall l | l in ids[..n] :: l in ids;
      SumCounts(s, ids[..n], target) + Count(s, ids[n], target)
  }

  /** The deltas a reset-all logs add up to minus what the lots counted before. */
  lemma {:induction false} BulkDeltas(s: Store, ids: seq<nat>, target: Target, stamp: Stamp)
    requires forall l | l in ids :: l in s.lots
    ensures SumDeltas(BulkRows(s, ids, target, stamp)) == -SumCounts(s, ids, target)
  {
    if ids != [] {
      var n := |ids| - 1;
      assert ids[n] in ids && forall l | l in ids[..n] :: l in ids;
      BulkDeltas(s, ids[..n], target, stamp);
      assert BulkRows(s, ids, target, stamp)[..n] == BulkRows(s, ids[..n], target, stamp);
    }
  }
}
