/**
 All or nothing: over serial runs, processed events and entry/exit rows of the activity log are in
 one-to-one correspondence, in order of application. A row names the code its device had then.
 */
module Correspondence {
  import opened Wrappers
  import opened ParkingStore
  import opened Operations
  import opened Ledger

  predicate IsEntryOrExit(row: Activity) {
    row.kind == EntryActivity || row.kind == ExitActivity
  }

  /** The entry and exit rows, in log order. */
  function EventRows(log: seq<Activity>): (rows: seq<Activity>)
    ensures forall r | r in rows :: r in log
  {
    if log == [] then []
    else
      var last := log[|log| - 1];
      EventRows(log[..|log| - 1]) + if IsEntryOrExit(last) then [last] else []
  }

  /** An event that was applied, as what, and the code of its device as the call saw it. */
  datatype Application = Application(event: nat, kind: ActivityType, code: string)

  function ApplicationFor(s: Store, e: nat, code: string): Application
    requires e in s.events
  {
    Application(e, EventKind(s.events[e].eventType), code)
  }

  predicate Shows(row: Activity, a: Application) {
    row.kind == a.kind && row.stamp.actor == a.code
  }

  /** Row `row` is the trace that the application leaves. */
  predicate IsTraceOf(s: Store, row: Activity, a: Application) {
    && a.event in s.events
    && s.events[a.event].status == Processed
    && a.kind == (if s.events[a.event].eventType == Entry then EntryActivity else ExitActivity)
    && Shows(row, a)
  }

  /** `order` matches the entry/exit rows with the processed events, one to one. */
  ghost predicate Matched(s: Store, order: seq<Application>) {
    var rows := EventRows(s.log);
    && |rows| == |order|
    && (forall i | 0 <= i < |order| :: IsTraceOf(s, rows[i], order[i]))
    && (forall i, j | 0 <= i < j < |order| :: order[i].event != order[j].event)
    && (forall e | e in s.events && s.events[e].status == Processed ::
          exists i :: 0 <= i < |order| && order[i].event == e)
  }

  /** Whole calls only, nothing deleted. */
  predicate Serial(op: Op) {
    match op
    case DeleteLot(_) | DeleteDevice(_) | DailyReset | Apply(_, _, _, _) | Mark(_, _, _) => false
    case _ => true
  }

  predicate AppliesNow(s: Store, op: Op) {
    op.Process? && op.outcome == Succeeds && Processable(s, op.event)
  }

  function ApplicationOf(s: Store, e: nat): Application
    requires Processable(s, e)
  {
    ApplicationFor(s, e, s.devices[s.events[e].deviceId].code)
  }

  /** What a run applies, in order. */
  ghost function Applied(s: Store, ops: seq<Op>): seq<Application> {
    if ops == [] then []
    else
      var init, last := ops[..|ops| - 1], ops[|ops| - 1];
      Applied(s, init) + if AppliesNow(Run(s, init), last) then [ApplicationOf(Run(s, init), last.event)] else []
  }

  lemma EventRowsSnoc(log: seq<Activity>, row: Activity)
    ensures EventRows(log + [row])
         == EventRows(log) + if IsEntryOrExit(row) then [row] else []
  {
    assert (log + [row])[..|log|] == log;
  }

  /** Adjustments and resets log no entry or exit. */
  lemma OtherRecord(s: Store, lot: nat, kind: ActivityType, n: int, stamp: Stamp)
    requires lot in s.lots && kind != EntryActivity && kind != ExitActivity
    ensures var t := Record(s, lot, kind, n, stamp);
      EventRows(t.log) == EventRows(s.log) && t.events == s.events && t.devices == s.devices
  {
    EventRowsSnoc(s.log, Record(s, lot, kind, n, stamp).log[|s.log|]);
  }

  lemma {:induction false} FoldHasNoEventRows(s: Store, ids: seq<nat>, target: Target, stamp: Stamp)
    ensures var t := FoldResets(s, ids, target, stamp);
      EventRows(t.log) == EventRows(s.log) && t.events == s.events && t.devices == s.devices
  {
    if ids != [] {
      var before := FoldResets(s, ids[..|ids| - 1], target, stamp);
      FoldHasNoEventRows(s, ids[..|ids| - 1], target, stamp);
      if ids[|ids| - 1] in before.lots {
        OtherRecord(before, ids[|ids| - 1], ResetKind(target), 0, stamp);
      }
    }
  }

  /** With its lot in place, an applied event leaves exactly one row; the skip is unreachable. */
  lemma ApplyingLogs(s: Store, e: nat, now: int)
    requires ReferencesOk(s) && Processable(s, e)
    ensures s.devices[s.events[e].deviceId].lotId in s.lots
    ensures var t := Do(s, Process(e, Succeeds, now));
      && |t.log| == |s.log| + 1
      && EventRows(t.log) == EventRows(s.log) + [t.log[|s.log|]]
      && IsTraceOf(t, t.log[|s.log|], ApplicationOf(s, e))
  {
    EventRowsSnoc(s.log, Do(s, Process(e, Succeeds, now)).log[|s.log|]);
  }

  /** One more event processed, one more row, and the match grows by that. */
  lemma MatchedSnoc(s: Store, t: Store, order: seq<Application>, a: Application, row: Activity)
    requires Matched(s, order) && a.event in s.events && s.events[a.event].status != Processed
    requires t.events == s.events[a.event := s.events[a.event].(status := Processed)]
    requires EventRows(t.log) == EventRows(s.log) + [row] && IsTraceOf(t, row, a)
    ensures Matched(t, order + [a])
  {
    var rows, longer := EventRows(t.log), order + [a];
    forall i | 0 <= i < |longer|
      ensures IsTraceOf(t, rows[i], longer[i]) && (i < |order| ==> longer[i].event != a.event)
    {
      if i < |order| {
        assert IsTraceOf(s, EventRows(s.log)[i], order[i]);
        assert rows[i] == EventRows(s.log)[i];
      }
    }
    forall f | f in t.events && t.events[f].status == Processed
      ensures exists i :: 0 <= i < |longer| && longer[i].event == f
    {
      MatchedHas(s, order, a, f);
    }
  }

  lemma MatchedHas(s: Store, order: seq<Application>, a: Application, f: nat)
    requires Matched(s, order)
    requires f == a.event || (f in s.events && s.events[f].status == Processed)
    ensures exists i :: 0 <= i < |order + [a]| && (order + [a])[i].event == f
  {
    var longer := order + [a];
    if f == a.event {
      assert longer[|order|].event == f;
    } else {
      var i :| 0 <= i < |order| && order[i].event == f;
      assert longer[i].event == f;
    }
  }

  lemma ApplyingMatches(s: Store, e: nat, now: int, order: seq<Application>)
    requires ReferencesOk(s) && Processable(s, e) && Matched(s, order)
    ensures Matched(Do(s, Process(e, Succeeds, now)), order + [ApplicationOf(s, e)])
  {
    var t := Do(s, Process(e, Succeeds, now));
    ApplyingLogs(s, e, now);
    MatchedSnoc(s, t, order, ApplicationOf(s, e), t.log[|s.log|]);
  }

  /** Steps that apply nothing neither add a trace nor disturb one. */
  lemma OthersMatch(s: Store, op: Op, order: seq<Application>)
    requires ReferencesOk(s) && Serial(op) && !AppliesNow(s, op) && Matched(s, order)
    ensures Matched(Do(s, op), order)
  {
    var t := Do(s, op);
    NoEventRow(s, op);
    TracesStay(s, op);
    forall i | 0 <= i < |order| ensures IsTraceOf(t, EventRows(t.log)[i], order[i]) {
      assert IsTraceOf(s, EventRows(s.log)[i], order[i]);
    }
  }

  /** Such a step logs no entry or exit. */
  lemma NoEventRow(s: Store, op: Op)
    requires Serial(op) && !AppliesNow(s, op)
    ensures EventRows(Do(s, op).log) == EventRows(s.log)
  {
    match op
    case Adjust(lot, delta, stamp) =>
      if lot in s.lots { OtherRecord(s, lot, ManualAdjustment, Max0(s.lots[lot].currentCount + delta), stamp); }
    case Reset(lot, count, target, stamp) =>
      if lot in s.lots { OtherRecord(s, lot, ResetKind(target), count, stamp); }
    case ResetAll(target, stamp) =>
      BulkEqualsFold(s, target, stamp);
      FoldHasNoEventRows(s, SortedIds(s.lots.Keys), target, stamp);
    case _ =>
  }

  /** And it changes no processed event and makes none. */
  lemma TracesStay(s: Store, op: Op)
    requires ReferencesOk(s) && Serial(op) && !AppliesNow(s, op)
    ensures var t := Do(s, op);
      && (forall e | e in s.events && s.events[e].status == Processed :: e in t.events && t.events[e] == s.events[e])
      && (forall e | e in t.events && t.events[e].status == Processed :: e in s.events && t.events[e] == s.events[e])
  {
  }

  lemma {:induction false} AllOrNothing(s: Store, ops: seq<Op>, order: seq<Application>)
    requires ReferencesOk(s) && Matched(s, order)
    requires forall op | op in ops :: Serial(op)
    ensures ReferencesOk(Run(s, ops)) && Matched(Run(s, ops), order + Applied(s, ops))
  {
    if ops == [] {
      assert order + [] == order;
    } else {
      var init, last := ops[..|ops| - 1], ops[|ops| - 1];
      assert last in ops;
      assert forall op | op in init :: op in ops;
      AllOrNothing(s, init, order);
      var before := Run(s, init);
      ReferencesKept(before, last);
      if AppliesNow(before, last) {
        var a := ApplicationOf(before, last.event);
        ApplyingMatches(before, last.event, last.now, order + Applied(s, init));
        assert order + (Applied(s, init) + [a]) == order + Applied(s, init) + [a];
      } else {
        OthersMatch(before, last, order + Applied(s, init));
        assert Applied(s, init) + [] == Applied(s, init);
      }
    }
  }

  /** From an empty database the match is complete. */
  lemma AllOrNothingFromEmpty(ops: seq<Op>)
    requires forall op | op in ops :: Serial(op)
    ensures Matched(Run(EMPTY_STORE, ops), Applied(EMPTY_STORE, ops))
  {
    AllOrNothing(EMPTY_STORE, ops, []);
    assert [] + Applied(EMPTY_STORE, ops) == Applied(EMPTY_STORE, ops);
  }

  // The codes that rows name.

  predicate Renames(op: Op) {
    op.UpdateDevice? && op.newCode.Some?
  }

  /** Every application's code is the one its device has now. */
  ghost predicate CodesCurrent(s: Store, order: seq<Application>) {
    forall a | a in order ::
      && a.event in s.events && s.events[a.event].deviceId in s.devices
      && s.devices[s.events[a.event].deviceId].code == a.code
  }

  lemma CodesStay(s: Store, op: Op, order: seq<Application>)
    requires ReferencesOk(s) && Serial(op) && !Renames(op) && CodesCurrent(s, order)
    ensures CodesCurrent(Do(s, op), order)
  {
    assert forall d | d in s.devices :: d in Do(s, op).devices && Do(s, op).devices[d].code == s.devices[d].code;
    assert forall e | e in s.events :: e in Do(s, op).events && Do(s, op).events[e].deviceId == s.events[e].deviceId;
  }

  /** As long as no device is renamed, each row names the current code of its event's device. */
  lemma {:induction false} CodesMatch(s: Store, ops: seq<Op>, order: seq<Application>)
    requires ReferencesOk(s) && CodesCurrent(s, order)
    requires forall op | op in ops :: Serial(op) && !Renames(op)
    ensures ReferencesOk(Run(s, ops)) && CodesCurrent(Run(s, ops), order + Applied(s, ops))
  {
    if ops == [] {
      assert order + [] == order;
    } else {
      var init, last := ops[..|ops| - 1], ops[|ops| - 1];
      assert last in ops;
      assert forall op | op in init :: op in ops;
      CodesMatch(s, init, order);
      var before, sofar := Run(s, init), order + Applied(s, init);
      ReferencesKept(before, last);
      var more := if AppliesNow(before, last) then [ApplicationOf(before, last.event)] else [];
      assert order + (Applied(s, init) + more) == sofar + more;
      CodesStay(before, last, sofar + more);
    }
  }

  predicate UpdateAccepted(s: Store, device: nat, code: string, newLot: Option<nat>) {
    device in s.devices && !CodeTaken(s, code, Some(device)) && (newLot.Some? ==> newLot.value in s.lots)
  }

  /** A rename breaks that exactly if the code is another one and an event of the device was applied. */
  lemma RenameKeepsCodesIff(s: Store, device: nat, code: string, newLot: Option<nat>, order: seq<Application>)
    requires UpdateAccepted(s, device, code, newLot) && CodesCurrent(s, order)
    ensures CodesCurrent(Do(s, UpdateDevice(device, Some(code), newLot)), order)
       <==> code == s.devices[device].code
            || forall a | a in order :: a.event in s.events && s.events[a.event].deviceId != device
  {
    var t := Do(s, UpdateDevice(device, Some(code), newLot));
    assert t.events == s.events && t.devices[device].code == code;
    assert forall d | d in s.devices && d != device :: d in t.devices && t.devices[d].code == s.devices[d].code;
  }

  /** A new request, stored and applied. */
  function StoredAndApplied(s: Store, first: Op, now: int): Store {
    Do(Do(s, first), Process(s.nextEvent, Succeeds, now))
  }

  lemma StoredOnce(s: Store, first: Op, now: int)
    requires first.Enqueue? && !RequestKnown(s, first.requestId) && first.device in s.devices
    ensures var t := StoredAndApplied(s, first, now);
      && Run(s, [first, Process(s.nextEvent, Succeeds, now)]) == t
      && s.nextEvent in t.events
      && t.events[s.nextEvent]
         == Event(first.device, first.eventType, first.requestId, first.trackId, first.detectedAt, first.receivedAt,
                  Processed, 0)
  {
    var start := [first, Process(s.nextEvent, Succeeds, now)];
    assert start[..1] == [first] && [first][..0] == [];
    assert Run(s, [first]) == Do(s, first);
  }

  /** Repeating it, or processing it again, does nothing. */
  lemma RepeatDoesNothing(t: Store, op: Op, e: nat)
    requires e in t.events && t.events[e].status == Processed
    requires (op.Enqueue? && op.requestId == t.events[e].requestId) || (op.Process? && op.event == e)
    ensures Do(t, op) == t
  {
  }

  /**
   A device that repeats a request, whatever it puts in the repeat, changes nothing once the first
   one was applied, however often and with whatever outcome the repeat is processed.
   */
  lemma {:induction false} RetryIsIdempotent(s: Store, first: Op, retries: seq<Op>, e: nat, now: int)
    requires first.Enqueue? && !RequestKnown(s, first.requestId) && first.device in s.devices && e == s.nextEvent
    requires forall op | op in retries ::
      (op.Enqueue? && op.requestId == first.requestId) || (op.Process? && op.event == e)
    ensures Run(s, [first, Process(e, Succeeds, now)] + retries) == Run(s, [first, Process(e, Succeeds, now)])
    ensures e in Run(s, [first, Process(e, Succeeds, now)]).events
    ensures Run(s, [first, Process(e, Succeeds, now)]).events[e]
         == Event(first.device, first.eventType, first.requestId, first.trackId, first.detectedAt, first.receivedAt,
                  Processed, 0)
  {
    var start := [first, Process(e, Succeeds, now)];
    StoredOnce(s, first, now);
    if retries == [] {
      assert start + retries == start;
    } else {
      var init, last := retries[..|retries| - 1], retries[|retries| - 1];
      assert last in retries;
      assert forall op | op in init :: op in retries;
      RetryIsIdempotent(s, first, init, e, now);
      assert (start + retries)[..|start + retries| - 1] == start + init;
      RepeatDoesNothing(StoredAndApplied(s, first, now), last, e);
    }
  }
}
