/**
 What overlapping calls leave in the activity log: one entry or exit row for every commit that applies
 an event and found the lot, a second application of one event included.
 */
module Traces {
  import opened Wrappers
  import opened ParkingStore
  import opened Operations
  import opened Ledger
  import opened Correspondence
  import opened Protocol
  import opened Serializability

  /** What a transaction applies to the lot. */
  function EntriesBy(s: Store, op: Op, lot: nat): seq<Application> {
    match op
    case Apply(e, found, actor, _) =>
      if Waiting(s, e) && found == Some(lot) && lot in s.lots then [ApplicationFor(s, e, actor)] else []
    case Process(e, outcome, _) =>
      if Processable(s, e) && outcome == Succeeds && s.devices[s.events[e].deviceId].lotId == lot && lot in s.lots
      then [ApplicationOf(s, e)]
      else []
    case _ => []
  }

  ghost function EntriesOf(s: Store, ops: seq<Op>, lot: nat): seq<Application> {
    if ops == [] then []
    else
      var init := ops[..|ops| - 1];
      EntriesOf(s, init, lot) + EntriesBy(Run(s, init), ops[|ops| - 1], lot)
  }

  function InLot(rows: seq<Activity>, lot: nat): (kept: seq<Activity>)
    ensures forall r | r in kept :: r in rows && r.lotId == lot
  {
    if rows == [] then []
    else
      var last := rows[|rows| - 1];
      InLot(rows[..|rows| - 1], lot) + if last.lotId == lot then [last] else []
  }

  /** The entry and exit rows of one lot, in log order. */
  function RowsOf(log: seq<Activity>, lot: nat): seq<Activity> {
    InLot(EventRows(log), lot)
  }

  /** `rows` are the rows of `before`, then one for each of the entries, in their order. */
  ghost predicate Continues(rows: seq<Activity>, before: seq<Activity>, entries: seq<Application>) {
    && |rows| == |before| + |entries| && rows[..|before|] == before
    && forall i | 0 <= i < |entries| :: Shows(rows[|before| + i], entries[i])
  }

  lemma InLotSnoc(rows: seq<Activity>, row: Activity, lot: nat)
    ensures InLot(rows + [row], lot) == InLot(rows, lot) + if row.lotId == lot then [row] else []
  {
    assert (rows + [row])[..|rows|] == rows;
  }

  lemma RowsSnoc(log: seq<Activity>, row: Activity, lot: nat)
    ensures RowsOf(log + [row], lot)
         == RowsOf(log, lot) + if IsEntryOrExit(row) && row.lotId == lot then [row] else []
  {
    EventRowsSnoc(log, row);
    InLotSnoc(EventRows(log), row, lot);
    assert EventRows(log) + [] == EventRows(log);
  }

  lemma {:induction false} WithoutLotRows(log: seq<Activity>, gone: nat, lot: nat)
    requires gone != lot
    ensures RowsOf(WithoutLot(log, gone), lot) == RowsOf(log, lot)
  {
    if log != [] {
      var init, last := log[..|log| - 1], log[|log| - 1];
      assert log == init + [last];
      WithoutLotSnoc(log, gone);
      WithoutLotRows(init, gone, lot);
      RowsSnoc(init, last, lot);
      RowsSnoc(WithoutLot(init, gone), last, lot);
    }
  }

  lemma ContinuesNone(rows: seq<Activity>)
    ensures Continues(rows, rows, [])
  {
  }

  /** Other transactions than applications leave the rows of a lot as they are. */
  lemma OthersLogNone(s: Store, op: Op, lot: nat)
    requires !op.Apply? && !op.Process? && op != DailyReset && op != DeleteLot(lot)
    ensures RowsOf(Do(s, op).log, lot) == RowsOf(s.log, lot)
  {
    match op
    case DeleteLot(gone) => WithoutLotRows(s.log, gone, lot);
    case DeleteDevice(_) =>
    case Mark(_, _, _) =>
    case _ => NoEventRow(s, op);
  }

  lemma ContinuesOne(rows: seq<Activity>, row: Activity, a: Application)
    requires Shows(row, a)
    ensures Continues(rows + [row], rows, [a])
  {
  }

  lemma RecordIs(s: Store, l: nat, kind: ActivityType, n: int, stamp: Stamp)
    requires l in s.lots
    ensures Record(s, l, kind, n, stamp).log
         == s.log + [Activity(s.nextActivity, l, kind, n - Count(s, l, Side(kind)), n, stamp)]
  {
  }

  lemma RecordRow(s: Store, l: nat, kind: ActivityType, n: int, stamp: Stamp, lot: nat) returns (row: Activity)
    requires l in s.lots && (kind == EntryActivity || kind == ExitActivity)
    ensures row.kind == kind && row.stamp == stamp
    ensures RowsOf(Record(s, l, kind, n, stamp).log, lot) == RowsOf(s.log, lot) + if l == lot then [row] else []
  {
    row := Activity(s.nextActivity, l, kind, n - Count(s, l, Side(kind)), n, stamp);
    RecordIs(s, l, kind, n, stamp);
    RowsSnoc(s.log, row, lot);
  }

  lemma RecordLogs(s: Store, l: nat, e: nat, actor: string, n: int, now: int, lot: nat)
    requires l in s.lots && e in s.events
    ensures Continues(RowsOf(Record(s, l, EventKind(s.events[e].eventType), n, Stamp(actor, None, now)).log, lot),
                      RowsOf(s.log, lot), if l == lot then [ApplicationFor(s, e, actor)] else [])
  {
    var rows := RowsOf(s.log, lot);
    var row := RecordRow(s, l, EventKind(s.events[e].eventType), n, Stamp(actor, None, now), lot);
    if l == lot {
      ContinuesOne(rows, row, ApplicationFor(s, e, actor));
    } else {
      ContinuesNone(rows);
      assert rows + [] == rows;
    }
  }

  lemma ApplyLogs(s: Store, e: nat, found: Option<nat>, actor: string, now: int, lot: nat)
    requires Waiting(s, e)
    ensures Continues(RowsOf(ApplyTo(s, e, found, actor, now).log, lot), RowsOf(s.log, lot),
                      if found == Some(lot) && lot in s.lots then [ApplicationFor(s, e, actor)] else [])
  {
    if found.Some? && found.value in s.lots {
      RecordLogs(s, found.value, e, actor,
                 CountAfterEvent(s.lots[found.value].systemCount, s.events[e].eventType), now, lot);
    } else {
      ContinuesNone(RowsOf(s.log, lot));
    }
  }

  lemma StepLogs(s: Store, op: Op, lot: nat)
    requires op != DailyReset && lot in s.lots && lot in Do(s, op).lots
    ensures Continues(RowsOf(Do(s, op).log, lot), RowsOf(s.log, lot), EntriesBy(s, op, lot))
  {
    match op
    case Apply(e, found, actor, now) =>
      if Waiting(s, e) { ApplyLogs(s, e, found, actor, now, lot); }
    case Process(e, outcome, now) =>
      if Processable(s, e) && outcome == Succeeds {
        var device := s.devices[s.events[e].deviceId];
        ApplyLogs(s, e, Some(device.lotId), device.code, now, lot);
      }
    case DeleteLot(gone) =>
      if gone != lot { OthersLogNone(s, op, lot); }
    case _ => OthersLogNone(s, op, lot);
  }

  lemma ContinuesOn(rows: seq<Activity>, middle: seq<Activity>, before: seq<Activity>,
                    first: seq<Application>, second: seq<Application>)
    requires Continues(middle, before, first) && Continues(rows, middle, second)
    ensures Continues(rows, before, first + second)
  {
    forall i | 0 <= i < |first + second| ensures Shows(rows[|before| + i], (first + second)[i]) {
      if i < |first| {
        assert rows[..|middle|][|before| + i] == middle[|before| + i];
      } else {
        assert Shows(rows[|middle| + (i - |first|)], second[i - |first|]);
      }
    }
    assert rows[..|before|] == rows[..|middle|][..|before|];
  }

  lemma {:induction false} NoneInLot(rows: seq<Activity>, lot: nat)
    requires forall r | r in rows :: r.lotId != lot
    ensures InLot(rows, lot) == []
  {
    if rows != [] {
      var init, last := rows[..|rows| - 1], rows[|rows| - 1];
      assert last in rows && forall r | r in init :: r in rows;
      NoneInLot(init, lot);
    }
  }

  /** A lot that does not exist yet has no rows. */
  lemma NoRowsYet(s: Store, lot: nat)
    requires LogInOrder(s) && lot !in s.lots
    ensures RowsOf(s.log, lot) == []
  {
    NoneInLot(EventRows(s.log), lot);
  }

  lemma LotIdsGrow(s: Store, op: Op)
    requires ReferencesOk(s)
    ensures s.nextLot <= Do(s, op).nextLot
    ensures forall l | l in Do(s, op).lots :: l in s.lots || l == s.nextLot
    ensures forall l | l in Do(s, op).lots && l !in s.lots :: op.CreateLot?
  {
  }

  lemma {:induction false} LotIdsGrowOverRun(s: Store, ops: seq<Op>)
    requires StoreOk(s)
    ensures s.nextLot <= Run(s, ops).nextLot
  {
    if ops != [] {
      LotIdsGrowOverRun(s, ops[..|ops| - 1]);
      StoreOkOverRun(s, ops[..|ops| - 1]);
      LotIdsGrow(Run(s, ops[..|ops| - 1]), ops[|ops| - 1]);
    }
  }

  lemma {:induction false} NoEntriesYet(s: Store, ops: seq<Op>, lot: nat)
    requires StoreOk(s) && lot >= Run(s, ops).nextLot
    ensures EntriesOf(s, ops, lot) == []
  {
    if ops != [] {
      var init := ops[..|ops| - 1];
      StoreOkOverRun(s, init);
      LotIdsGrow(Run(s, init), ops[|ops| - 1]);
      NoEntriesYet(s, init, lot);
    }
  }

  /** Over any run, the entry and exit rows of a lot are the applications to it, in order. */
  lemma {:induction false} RowsAreEntries(s: Store, ops: seq<Op>, lot: nat)
    requires StoreOk(s) && DailyReset !in ops && lot in Run(s, ops).lots
    ensures Continues(RowsOf(Run(s, ops).log, lot), RowsOf(s.log, lot), EntriesOf(s, ops, lot))
  {
    if ops == [] {
      ContinuesNone(RowsOf(s.log, lot));
    } else {
      var init, last := ops[..|ops| - 1], ops[|ops| - 1];
      var before := Run(s, init);
      assert last in ops && forall op | op in init :: op in ops;
      StoreOkOverRun(s, init);
      if lot in before.lots {
        RowsAreEntries(s, init, lot);
        StepLogs(before, last, lot);
        ContinuesOn(RowsOf(Do(before, last).log, lot), RowsOf(before.log, lot), RowsOf(s.log, lot),
                    EntriesOf(s, init, lot), EntriesBy(before, last, lot));
      } else {
        NewLotRows(s, init, last, lot);
      }
    }
  }

  lemma NewLotRows(s: Store, init: seq<Op>, last: Op, lot: nat)
    requires StoreOk(s) && StoreOk(Run(s, init)) && lot !in Run(s, init).lots && lot in Do(Run(s, init), last).lots
    ensures RowsOf(Do(Run(s, init), last).log, lot) == [] && RowsOf(s.log, lot) == []
    ensures EntriesOf(s, init, lot) + EntriesBy(Run(s, init), last, lot) == []
  {
    LotIdsGrow(Run(s, init), last);
    LotIdsGrowOverRun(s, init);
    NoEntriesYet(s, init, lot);
    NoRowsYet(s, lot);
    NoRowsYet(Run(s, init), lot);
  }

  // Schedules.

  lemma WorkersResetNothing(store: Store, worker: Worker, step: Step)
    requires Ready(store, worker, step) && ShapeOk(worker)
    ensures DailyReset !in OpOf(store, worker, step)
  {
  }

  lemma {:induction false} NoResetCommitted(s: State, schedule: seq<Step>)
    requires Env(DailyReset) !in schedule
    ensures DailyReset !in Commits(s, schedule)
  {
    if schedule != [] {
      var init, step := schedule[..|schedule| - 1], schedule[|schedule| - 1];
      NoResetCommitted(s, init);
      var before := After(s, init);
      if Sound(before) && Enabled(before, step) && !step.Env? && !step.Crash? {
        WorkersResetNothing(before.store, before.workers[step.w], step);
      }
    }
  }

  /**
   Over every schedule, the entry and exit rows of a lot are the commits that applied an event to it,
   in commit order: those that found it, double applications included.
   */
  lemma RowsAreApplications(s: State, schedule: seq<Step>, lot: nat)
    requires Inv(s) && Env(DailyReset) !in schedule && lot in After(s, schedule).store.lots
    ensures Continues(RowsOf(After(s, schedule).store.log, lot), RowsOf(s.store.log, lot),
                      EntriesOf(s.store, Commits(s, schedule), lot))
  {
    Serializable(s, schedule);
    NoResetCommitted(s, schedule);
    RowsAreEntries(s.store, Commits(s, schedule), lot);
  }
}
