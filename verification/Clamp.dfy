/**
 What the clamp at 0 does over unbounded histories: a closed form for clamped counting, bounds
 that hold in whatever order entries and exits are applied, and the tie to the stored counters.
 */
module Clamp {
  import opened Wrappers
  import opened ParkingStore
  import opened Operations
  import opened Ledger

  /** Counting from `c` with every intermediate result clamped at 0. */
  function Clamped(c: int, deltas: seq<int>): int {
    if deltas == [] then c else Max0(Clamped(c, deltas[..|deltas| - 1]) + deltas[|deltas| - 1])
  }

  function Sum(deltas: seq<int>): int {
    if deltas == [] then 0 else Sum(deltas[..|deltas| - 1]) + deltas[|deltas| - 1]
  }

  function Min(a: int, b: int): int {
    if a < b then a else b
  }

  /** The lowest point of the unclamped walk from `c`. */
  function Low(c: int, deltas: seq<int>): int {
    if deltas == [] then c else Min(Low(c, deltas[..|deltas| - 1]), c + Sum(deltas))
  }

  /** How much the clamp has swallowed. */
  function Deficit(c: int, deltas: seq<int>): int {
    -Min(0, Low(c, deltas))
  }

  lemma {:induction false} LowIsLowest(c: int, deltas: seq<int>)
    ensures forall k | 0 <= k <= |deltas| :: Low(c, deltas) <= c + Sum(deltas[..k])
    ensures exists k | 0 <= k <= |deltas| :: Low(c, deltas) == c + Sum(deltas[..k])
  {
    assert deltas[..|deltas|] == deltas;
    if deltas != [] {
      var init := deltas[..|deltas| - 1];
      LowIsLowest(c, init);
      forall k | 0 <= k < |deltas| ensures init[..k] == deltas[..k] {}
      var k :| 0 <= k <= |init| && Low(c, init) == c + Sum(init[..k]);
      assert deltas[..k] == init[..k];
    }
  }

  /** Clamped counting is unclamped counting lifted by the deepest dip below 0. */
  lemma {:induction false} ClosedForm(c: int, deltas: seq<int>)
    requires c >= 0
    ensures Clamped(c, deltas) == c + Sum(deltas) + Deficit(c, deltas)
    ensures Clamped(c, deltas) >= 0
  {
    if deltas != [] {
      ClosedForm(c, deltas[..|deltas| - 1]);
    }
  }

  /** No step of the walk is clamped. */
  predicate NeverClamps(c: int, deltas: seq<int>) {
    forall k | 0 <= k < |deltas| :: Clamped(c, deltas[..k]) + deltas[k] >= 0
  }

  lemma {:induction false} DeficitGrows(c: int, deltas: seq<int>, k: nat)
    requires c >= 0 && k <= |deltas|
    ensures Deficit(c, deltas[..k]) <= Deficit(c, deltas)
    decreases |deltas|
  {
    if k == |deltas| {
      assert deltas[..k] == deltas;
    } else {
      var init := deltas[..|deltas| - 1];
      DeficitGrows(c, init, k);
      assert init[..k] == deltas[..k];
    }
  }

  /** The plain sum is exact if and only if no step was clamped. */
  lemma {:induction false} ExactIffNeverClamps(c: int, deltas: seq<int>)
    requires c >= 0
    ensures Clamped(c, deltas) == c + Sum(deltas) <==> NeverClamps(c, deltas)
  {
    ClosedForm(c, deltas);
    if Clamped(c, deltas) == c + Sum(deltas) {
      forall k | 0 <= k < |deltas| ensures Clamped(c, deltas[..k]) + deltas[k] >= 0 {
        DeficitGrows(c, deltas, k);
        DeficitGrows(c, deltas, k + 1);
        ClosedForm(c, deltas[..k]);
        ClosedForm(c, deltas[..k + 1]);
        assert deltas[..k + 1][..k] == deltas[..k];
      }
    }
    if NeverClamps(c, deltas) && deltas != [] {
      var init := deltas[..|deltas| - 1];
      forall k | 0 <= k < |init| ensures Clamped(c, init[..k]) + init[k] >= 0 {
        assert init[..k] == deltas[..k];
      }
      ExactIffNeverClamps(c, init);
    }
  }

  function Occurrences(deltas: seq<int>, d: int): nat {
    multiset(deltas)[d]
  }

  /**
   E entries and X exits, in any order: the outcome lies between all exits last and all exits
   first.
   */
  lemma {:induction false} OrderBounds(c: int, deltas: seq<int>)
    requires c >= 0 && forall d | d in deltas :: d == 1 || d == -1
    ensures Sum(deltas) == Occurrences(deltas, 1) - Occurrences(deltas, -1)
    ensures Max0(c + Occurrences(deltas, 1) - Occurrences(deltas, -1)) <= Clamped(c, deltas)
    ensures Clamped(c, deltas) <= Max0(c - Occurrences(deltas, -1)) + Occurrences(deltas, 1)
  {
    if deltas != [] {
      var init, last := deltas[..|deltas| - 1], deltas[|deltas| - 1];
      assert deltas == init + [last] && last in deltas;
      assert forall d | d in init :: d in deltas;
      OrderBounds(c, init);
    }
  }

  // Both bounds are reached, so no tighter statement about the order is true.
  lemma {:induction false} ExitsFirst(c: int, exits: nat, entries: nat)
    requires c >= 0
    ensures Clamped(c, seq(exits, _ => -1) + seq(entries, _ => 1)) == Max0(c - exits) + entries
    decreases exits + entries
  {
    var deltas := seq(exits, _ => -1) + seq(entries, _ => 1);
    if entries > 0 {
      assert deltas[..|deltas| - 1] == seq(exits, _ => -1) + seq(entries - 1, _ => 1);
      ExitsFirst(c, exits, entries - 1);
    } else if exits > 0 {
      assert deltas[..|deltas| - 1] == seq(exits - 1, _ => -1) + seq(0, _ => 1);
      ExitsFirst(c, exits - 1, 0);
    }
  }

  lemma {:induction false} ExitsLast(c: int, exits: nat, entries: nat)
    requires c >= 0
    ensures Clamped(c, seq(entries, _ => 1) + seq(exits, _ => -1)) == Max0(c + entries - exits)
    decreases exits + entries
  {
    var deltas := seq(entries, _ => 1) + seq(exits, _ => -1);
    if exits > 0 {
      assert deltas[..|deltas| - 1] == seq(entries, _ => 1) + seq(exits - 1, _ => -1);
      ExitsLast(c, exits - 1, entries);
    } else if entries > 0 {
      assert deltas[..|deltas| - 1] == seq(entries - 1, _ => 1) + seq(0, _ => -1);
      ExitsLast(c, 0, entries - 1);
    }
  }

  // The stored counters.

  /** The change `op` asks for on one counter, if it is one that asks for a change. */
  function Request(s: Store, op: Op, lot: nat, side: Target): (deltas: seq<int>) {
    match op
    case Adjust(l, delta, _) => if l == lot && side == Current then [delta] else []
    case Apply(e, l, _, _) =>
      if Waiting(s, e) && l == Some(lot) && side == System then [EventDelta(s.events[e].eventType)] else []
    case Process(e, outcome, _) =>
      if Processable(s, e) && outcome == Succeeds && side == System && s.devices[s.events[e].deviceId].lotId == lot
      then [EventDelta(s.events[e].eventType)]
      else []
    case _ => []
  }

  ghost function Requests(s: Store, ops: seq<Op>, lot: nat, side: Target): seq<int> {
    if ops == [] then []
    else
      var init := ops[..|ops| - 1];
      Requests(s, init, lot, side) + Request(Run(s, init), ops[|ops| - 1], lot, side)
  }

  /** Ops that overwrite the counter, or remove it, instead of asking for a change. */
  predicate Overwrites(op: Op, lot: nat, side: Target) {
    match op
    case DeleteLot(l) => l == lot
    case Reset(l, _, target, _) => l == lot && target == side
    case ResetAll(target, _) => target == side
    case DailyReset => true
    case _ => false
  }

  lemma OneStep(c: int, delta: int)
    ensures Clamped(c, [delta]) == Max0(c + delta)
  {
    assert [delta][..0] == [];
  }

  lemma EventClamps(s: Store, e: nat, found: nat, actor: string, now: int, lot: nat)
    requires lot in s.lots && Waiting(s, e)
    ensures var t := ApplyTo(s, e, Some(found), actor, now);
      && lot in t.lots
      && t.lots[lot].currentCount == s.lots[lot].currentCount
      && (s.lots[lot].systemCount >= 0 ==>
            t.lots[lot].systemCount
            == Clamped(s.lots[lot].systemCount, if found == lot then [EventDelta(s.events[e].eventType)] else []))
  {
    OneStep(s.lots[lot].systemCount, EventDelta(s.events[e].eventType));
  }

  lemma EventStepClamps(s: Store, op: Op, lot: nat, side: Target)
    requires lot in s.lots && Count(s, lot, side) >= 0 && (op.Process? || op.Apply?)
    ensures lot in Do(s, op).lots
    ensures Count(Do(s, op), lot, side) == Clamped(Count(s, lot, side), Request(s, op, lot, side))
  {
    match op
    case Process(e, outcome, now) =>
      if Processable(s, e) {
        var device := s.devices[s.events[e].deviceId];
        EventClamps(s, e, device.lotId, device.code, now, lot);
      }
    case Apply(e, found, actor, now) =>
      if Waiting(s, e) && found.Some? { EventClamps(s, e, found.value, actor, now, lot); }
  }

  lemma StepClamps(s: Store, op: Op, lot: nat, side: Target)
    requires ReferencesOk(s) && lot in s.lots && Count(s, lot, side) >= 0 && !Overwrites(op, lot, side)
    ensures lot in Do(s, op).lots
    ensures Count(Do(s, op), lot, side) == Clamped(Count(s, lot, side), Request(s, op, lot, side))
  {
    if op.Process? || op.Apply? {
      EventStepClamps(s, op, lot, side);
    } else if op.ResetAll? {
      BulkLeaves(s, SortedIds(s.lots.Keys), op.target, op.stamp, lot, side);
    } else if op.Adjust? {
      OneStep(Count(s, lot, side), op.delta);
    }
  }

  lemma BulkLeaves(s: Store, ids: seq<nat>, target: Target, stamp: Stamp, lot: nat, side: Target)
    requires lot in s.lots && target != side
    ensures var t := BulkOver(s, ids, target, stamp);
      lot in t.lots && Count(t, lot, side) == Count(s, lot, side)
  {
  }

  lemma {:induction false} ClampedConcat(c: int, first: seq<int>, second: seq<int>)
    requires |second| <= 1
    ensures Clamped(c, first + second) == Clamped(Clamped(c, first), second)
  {
    if second == [] {
      assert first + second == first;
    } else {
      assert (first + second)[..|first + second| - 1] == first;
      assert second[..0] == [];
    }
  }

  lemma {:induction false} CountOverRun(s: Store, ops: seq<Op>, lot: nat, side: Target)
    requires StoreOk(s) && lot in s.lots && Count(s, lot, side) >= 0
    requires forall op | op in ops :: !Overwrites(op, lot, side)
    ensures lot in Run(s, ops).lots
    ensures Count(Run(s, ops), lot, side) == Clamped(Count(s, lot, side), Requests(s, ops, lot, side))
  {
    if ops != [] {
      var init, last := ops[..|ops| - 1], ops[|ops| - 1];
      assert last in ops;
      assert forall op | op in init :: op in ops;
      CountOverRun(s, init, lot, side);
      StoreOkOverRun(s, init);
      ClosedForm(Count(s, lot, side), Requests(s, init, lot, side));
      StepClamps(Run(s, init), last, lot, side);
      ClampedConcat(Count(s, lot, side), Requests(s, init, lot, side), Request(Run(s, init), last, lot, side));
    }
  }

  /**
   Over any run that does not reset the counter: its value is the clamped count of what was asked
   of it, that is the plain count plus the deficit, and the deltas in the log exceed what was
   asked by exactly that deficit.
   */
  lemma CounterOverRun(s: Store, ops: seq<Op>, lot: nat, side: Target)
    requires StoreOk(s) && lot in s.lots && Count(s, lot, side) >= 0
    requires forall op | op in ops :: !Overwrites(op, lot, side)
    ensures var t, asked, c := Run(s, ops), Requests(s, ops, lot, side), Count(s, lot, side);
      && lot in t.lots
      && Count(t, lot, side) == Clamped(c, asked) == c + Sum(asked) + Deficit(c, asked)
      && Total(t.log, lot, side) - Total(s.log, lot, side) == Sum(asked) + Deficit(c, asked)
  {
    CountOverRun(s, ops, lot, side);
    ClosedForm(Count(s, lot, side), Requests(s, ops, lot, side));
    StoreOkOverRun(s, ops);
  }

  // Entries and exits.

  /** The types of the events that a run applies to the lot, in order. */
  function TypeBy(s: Store, op: Op, lot: nat): seq<EventType> {
    match op
    case Apply(e, found, _, _) => if Waiting(s, e) && found == Some(lot) then [s.events[e].eventType] else []
    case Process(e, outcome, _) =>
      if Processable(s, e) && outcome == Succeeds && s.devices[s.events[e].deviceId].lotId == lot
      then [s.events[e].eventType]
      else []
    case _ => []
  }

  ghost function TypesApplied(s: Store, ops: seq<Op>, lot: nat): seq<EventType> {
    if ops == [] then []
    else
      var init := ops[..|ops| - 1];
      TypesApplied(s, init, lot) + TypeBy(Run(s, init), ops[|ops| - 1], lot)
  }

  function CountType(types: seq<EventType>, eventType: EventType): nat {
    multiset(types)[eventType]
  }

  /** Each entry asks for one car more, each exit for one less. */
  ghost predicate AskFor(deltas: seq<int>, types: seq<EventType>) {
    |deltas| == |types| && forall i | 0 <= i < |types| :: deltas[i] == if types[i] == Entry then 1 else -1
  }

  lemma {:induction false} TypesAreRequests(s: Store, ops: seq<Op>, lot: nat)
    ensures AskFor(Requests(s, ops, lot, System), TypesApplied(s, ops, lot))
  {
    if ops != [] {
      TypesAreRequests(s, ops[..|ops| - 1], lot);
    }
  }

  lemma {:induction false} AskedCounts(deltas: seq<int>, types: seq<EventType>)
    requires AskFor(deltas, types)
    ensures Occurrences(deltas, 1) == CountType(types, Entry) && Occurrences(deltas, -1) == CountType(types, Exit)
    ensures forall d | d in deltas :: d == 1 || d == -1
  {
    if types != [] {
      var n := |types| - 1;
      AskedCounts(deltas[..n], types[..n]);
      assert deltas == deltas[..n] + [deltas[n]] && types == types[..n] + [types[n]];
    }
  }

  /**
   However the E entries and X exits applied to a lot are ordered, and whatever happens in between,
   its system counter ends within the bounds; it is exactly c + E - X iff no exit was clamped.
   */
  lemma SystemCountBounds(s: Store, ops: seq<Op>, lot: nat, entries: nat, exits: nat)
    requires StoreOk(s) && lot in s.lots && s.lots[lot].systemCount >= 0
    requires forall op | op in ops :: !Overwrites(op, lot, System)
    requires entries == CountType(TypesApplied(s, ops, lot), Entry)
    requires exits == CountType(TypesApplied(s, ops, lot), Exit)
    ensures lot in Run(s, ops).lots
    ensures var c, n := s.lots[lot].systemCount, Run(s, ops).lots[lot].systemCount;
      && (if c + entries - exits < 0 then 0 else c + entries - exits) <= n
      && n <= (if c - exits < 0 then 0 else c - exits) + entries
      && (n == c + entries - exits <==> NeverClamps(c, Requests(s, ops, lot, System)))
  {
    var asked := Requests(s, ops, lot, System);
    CounterOverRun(s, ops, lot, System);
    TypesAreRequests(s, ops, lot);
    AskedCounts(asked, TypesApplied(s, ops, lot));
    UnitBounds(s.lots[lot].systemCount, asked);
  }

  lemma UnitBounds(c: int, deltas: seq<int>)
    requires c >= 0 && forall d | d in deltas :: d == 1 || d == -1
    ensures Max0(c + Occurrences(deltas, 1) - Occurrences(deltas, -1)) <= Clamped(c, deltas)
    ensures Clamped(c, deltas) <= Max0(c - Occurrences(deltas, -1)) + Occurrences(deltas, 1)
    ensures Clamped(c, deltas) == c + Occurrences(deltas, 1) - Occurrences(deltas, -1) <==> NeverClamps(c, deltas)
  {
    OrderBounds(c, deltas);
    ExactIffNeverClamps(c, deltas);
  }

  /** The counters a caller can reset to are non-negative (`count` has ge=0 in the schema). */
  predicate CountsAllowed(op: Op) {
    op.Reset? ==> op.count >= 0
  }

  ghost predicate NonNegative(s: Store) {
    forall l | l in s.lots :: s.lots[l].currentCount >= 0 && s.lots[l].systemCount >= 0
  }

  lemma StaysNonNegative(s: Store, op: Op)
    requires NonNegative(s) && CountsAllowed(op)
    ensures NonNegative(Do(s, op))
  {
    match op
    case ResetAll(target, stamp) => BulkStaysNonNegative(s, SortedIds(s.lots.Keys), target, stamp);
    case _ =>
  }

  lemma BulkStaysNonNegative(s: Store, ids: seq<nat>, target: Target, stamp: Stamp)
    requires NonNegative(s)
    ensures NonNegative(BulkOver(s, ids, target, stamp))
  {
  }

  lemma {:induction false} NeverNegative(s: Store, ops: seq<Op>)
    requires NonNegative(s) && forall op | op in ops :: CountsAllowed(op)
    ensures NonNegative(Run(s, ops))
  {
    if ops != [] {
      var init, last := ops[..|ops| - 1], ops[|ops| - 1];
      assert last in ops;
      assert forall op | op in init :: op in ops;
      NeverNegative(s, init);
      StaysNonNegative(Run(s, init), last);
    }
  }

  // The logged deltas of entries and exits.

  /** An entry row adds one car; an exit row takes one away, or none if there was none. */
  predicate RowFits(row: Activity) {
    && (row.kind == EntryActivity ==> row.delta == 1)
    && (row.kind == ExitActivity ==> row.delta == -1 || (row.delta == 0 && row.countAfter == 0))
  }

  ghost predicate RowsFit(log: seq<Activity>) {
    forall r | r in log :: RowFits(r)
  }

  lemma AppliedFits(s: Store, e: nat, found: Option<nat>, actor: string, now: int)
    requires NonNegative(s) && RowsFit(s.log) && Waiting(s, e)
    ensures RowsFit(ApplyTo(s, e, found, actor, now).log)
  {
    var t := ApplyTo(s, e, found, actor, now);
    forall r | r in t.log ensures RowFits(r) {
      assert r in s.log || r == t.log[|s.log|];
    }
  }

  /** Rows of other kinds fit anyway. */
  lemma OtherRowFits(s: Store, lot: nat, kind: ActivityType, n: int, stamp: Stamp)
    requires lot in s.lots && RowsFit(s.log) && kind != EntryActivity && kind != ExitActivity
    ensures RowsFit(Record(s, lot, kind, n, stamp).log)
  {
  }

  lemma BulkFits(s: Store, ids: seq<nat>, target: Target, stamp: Stamp)
    requires RowsFit(s.log)
    ensures RowsFit(BulkOver(s, ids, target, stamp).log)
  {
    forall r | r in BulkRows(s, ids, target, stamp) ensures RowFits(r) {
    }
  }

  lemma StepFits(s: Store, op: Op)
    requires NonNegative(s) && RowsFit(s.log)
    ensures RowsFit(Do(s, op).log)
  {
    match op
    case Process(e, outcome, now) =>
      if Processable(s, e) {
        var device := s.devices[s.events[e].deviceId];
        AppliedFits(s, e, Some(device.lotId), device.code, now);
      }
    case Apply(e, found, actor, now) =>
      if Waiting(s, e) { AppliedFits(s, e, found, actor, now); }
    case Adjust(lot, delta, stamp) =>
      if lot in s.lots { OtherRowFits(s, lot, ManualAdjustment, Max0(s.lots[lot].currentCount + delta), stamp); }
    case Reset(lot, count, target, stamp) =>
      if lot in s.lots { OtherRowFits(s, lot, ResetKind(target), count, stamp); }
    case ResetAll(target, stamp) => BulkFits(s, SortedIds(s.lots.Keys), target, stamp);
    case _ =>
  }

  /** Over every run, each entry row has delta 1 and each exit row delta -1 or, at 0, delta 0. */
  lemma {:induction false} EventRowDeltas(s: Store, ops: seq<Op>)
    requires NonNegative(s) && RowsFit(s.log) && forall op | op in ops :: CountsAllowed(op)
    ensures forall r | r in Run(s, ops).log ::
      && (r.kind == EntryActivity ==> r.delta == 1)
      && (r.kind == ExitActivity ==> r.delta == -1 || (r.delta == 0 && r.countAfter == 0))
  {
    if ops != [] {
      var init, last := ops[..|ops| - 1], ops[|ops| - 1];
      assert last in ops;
      assert forall op | op in init :: op in ops;
      EventRowDeltas(s, init);
      NeverNegative(s, init);
      StepFits(Run(s, init), last);
    }
  }
}
