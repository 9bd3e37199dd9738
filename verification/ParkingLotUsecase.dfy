/** parking_lot_usecase.py and the row-keeping part of device_usecase.py. */
module ParkingLotUsecases {
  import opened Wrappers
  import opened ParkingStore
  import opened Operations
  import opened Ledger
  import opened Sessions

  class ParkingLotUsecase {
    const db: Session

    constructor (db: Session)
      ensures this.db == db
    {
      this.db := db;
    }

    /** A new lot, empty by both counts; no other lot is touched. */
    method CreateParkingLot(name: string, capacity: nat) returns (lot: nat)
      requires db.Idle()
      modifies db
      ensures db.Idle() && db.committed == Do(old(db.committed), CreateLot(name, capacity))
      ensures lot == old(db.committed).nextLot
      ensures db.committed == old(db.committed).(
        lots := old(db.committed).lots[lot := Lot(name, capacity, 0, 0)],
        nextLot := lot + 1)
    {
      lot := db.work.nextLot;
      db.work := db.work.(lots := db.work.lots[lot := Lot(name, capacity, 0, 0)], nextLot := lot + 1);
      db.Commit();
    }

    /** The lot goes, and its log rows with it, if it exists and no device refers to it. */
    method DeleteParkingLot(lot: nat) returns (r: Result<()>)
      requires db.Idle()
      modifies db
      ensures db.Idle() && db.committed == Do(old(db.committed), DeleteLot(lot))
      ensures r.Ok? <==>
        && lot in old(db.committed).lots
        && !exists d :: d in old(db.committed).devices && old(db.committed).devices[d].lotId == lot
      ensures r.Err? ==> r.error == if lot in old(db.committed).lots then Conflict else NotFound
      ensures r.Err? ==> db.committed == old(db.committed)
      ensures r.Ok? ==>
        && db.committed == old(db.committed).(lots := old(db.committed).lots - {lot}, log := db.committed.log)
        && forall row :: row in db.committed.log <==> row in old(db.committed).log && row.lotId != lot
    {
      if lot !in db.work.lots {
        return Err(NotFound);
      }
      if exists d :: d in db.work.devices && db.work.devices[d].lotId == lot {
        assert LotInUse(db.work, lot);
        return Err(Conflict);
      }
      WithoutLotHas(db.work.log, lot);
      db.work := db.work.(lots := db.work.lots - {lot}, log := WithoutLot(db.work.log, lot));
      db.Commit();
      return Ok(());
    }

    /** Sets one counter and logs the difference as a reset of that counter; nothing else changes. */
    method ResetCount(lot: nat, count: int, target: Target, stamp: Stamp) returns (r: Result<Lot>)
      requires db.Idle()
      modifies db
      ensures db.Idle() && db.committed == Do(old(db.committed), Reset(lot, count, target, stamp))
      ensures r == if lot in old(db.committed).lots then Ok(db.committed.lots[lot]) else Err(NotFound)
      ensures r.Err? ==> db.committed == old(db.committed)
      ensures r.Ok? ==>
        var s := old(db.committed);
        var row := s.lots[lot];
        db.committed ==
          if target == Current then
            Logged(s, lot, row.(currentCount := count), ManualReset, count - row.currentCount, count, stamp)
          else
            Logged(s, lot, row.(systemCount := count), SystemReset, count - row.systemCount, count, stamp)
    {
      if lot !in db.work.lots {
        return Err(NotFound);
      }
      var delta, kind;
      if target == Current {
        delta, kind := count - db.work.lots[lot].currentCount, ManualReset;
      } else {
        delta, kind := count - db.work.lots[lot].systemCount, SystemReset;
      }
      db.work := SetCount(db.work, lot, target, count);
      db.work := Append(db.work, lot, kind, delta, count, stamp);
      db.Commit();
      return Ok(db.committed.lots[lot]);
    }

    /** Moves current_count by the delta, but not below 0, and logs what it moved; nothing else changes. */
    method AdjustCount(lot: nat, delta: int, stamp: Stamp) returns (r: Result<Lot>)
      requires db.Idle()
      modifies db
      ensures db.Idle() && db.committed == Do(old(db.committed), Adjust(lot, delta, stamp))
      ensures r == if lot in old(db.committed).lots then Ok(db.committed.lots[lot]) else Err(NotFound)
      ensures r.Err? ==> db.committed == old(db.committed)
      ensures r.Ok? ==>
        var s := old(db.committed);
        var before := s.lots[lot].currentCount;
        var after := if before + delta < 0 then 0 else before + delta;
        db.committed ==
          Logged(s, lot, s.lots[lot].(currentCount := after), ManualAdjustment, after - before, after, stamp)
    {
      if lot !in db.work.lots {
        return Err(NotFound);
      }
      var before := db.work.lots[lot].currentCount;
      db.work := SetCount(db.work, lot, Current, Max0(before + delta));
      var after := db.work.lots[lot].currentCount;
      db.work := Append(db.work, lot, ManualAdjustment, after - before, after, stamp);
      db.Commit();
      return Ok(db.committed.lots[lot]);
    }

    /** The loop body of reset_all_counts: still uncommitted. */
    method ZeroOne(lot: nat, target: Target, stamp: Stamp)
      requires lot in db.work.lots
      modifies db`work
      ensures db.work == Record(old(db.work), lot, ResetKind(target), 0, stamp)
    {
      var before := if target == Current then db.work.lots[lot].currentCount else db.work.lots[lot].systemCount;
      var kind := if target == Current then ManualReset else SystemReset;
      db.work := SetCount(db.work, lot, target, 0);
      db.work := Append(db.work, lot, kind, -before, 0, stamp);
    }

    /** The loop of reset_all_counts over the listed lots. */
    method ZeroEach(lots: seq<nat>, target: Target, stamp: Stamp)
      requires Ascending(lots) && forall l | l in lots :: l in db.work.lots
      modifies db`work
      ensures db.work == BulkOver(old(db.work), lots, target, stamp)
    {
      ghost var start := db.work;
      BulkOverNone(start, target, stamp);
      assert lots[..0] == [];
      for i := 0 to |lots|
        invariant db.work == BulkOver(start, lots[..i], target, stamp)
      {
        BulkNext(start, lots, i, target, stamp);
        ZeroOne(lots[i], target, stamp);
      }
      assert lots[..|lots|] == lots;
    }

    /** One transaction over every lot; it comes to reset_count(lot, 0) on each, in id order. */
    method ResetAllCounts(target: Target, stamp: Stamp) returns (lots: seq<nat>)
      requires db.Idle()
      modifies db
      ensures db.Idle() && db.committed == Do(old(db.committed), ResetAll(target, stamp))
      ensures lots == SortedIds(old(db.committed).lots.Keys)
      ensures db.committed == FoldResets(old(db.committed), lots, target, stamp)
      ensures Ascending(lots) && forall l :: l in lots <==> l in old(db.committed).lots
      ensures CountersReset(old(db.committed).lots, db.committed.lots, target)
      ensures ResetsLogged(old(db.committed), db.committed.log, lots, target, stamp)
      ensures db.committed.devices == old(db.committed).devices && db.committed.events == old(db.committed).events
    {
      lots := SortedIds(db.work.lots.Keys);
      ListedLots(db.work, lots);
      ResetAllIs(db.work, lots, target, stamp);
      BulkIsFold(db.work, lots, target, stamp);
      assert forall l :: l in lots <==> l in db.work.lots.Keys;
      BulkResetsCounters(db.work, lots, target);
      BulkLogsResets(db.work, lots, target, stamp);
      ZeroEach(lots, target, stamp);
      db.Commit();
    }
  }

  /** The store with one lot's row changed and one log row more. */
  function Logged(s: Store, lot: nat, row: Lot, kind: ActivityType, delta: int, countAfter: int, stamp: Stamp): Store {
    s.(lots := s.lots[lot := row],
       log := s.log + [Activity(s.nextActivity, lot, kind, delta, countAfter, stamp)],
       nextActivity := s.nextActivity + 1)
  }

  /** The chosen counter of every lot is 0, and the other one as before. */
  ghost predicate CountersReset(before: map<nat, Lot>, after: map<nat, Lot>, target: Target) {
    && after.Keys == before.Keys
    && forall l | l in before :: after[l] ==
         (if target == Current then before[l].(currentCount := 0) else before[l].(systemCount := 0))
  }

  /** One reset row for each of the lots was logged, in that order: what it counted, down to 0. */
  ghost predicate ResetsLogged(s: Store, log: seq<Activity>, lots: seq<nat>, target: Target, stamp: Stamp) {
    && |log| == |s.log| + |lots| && log[..|s.log|] == s.log
    && forall i | 0 <= i < |lots| && lots[i] in s.lots ::
         var before := if target == Current then s.lots[lots[i]].currentCount else s.lots[lots[i]].systemCount;
         var kind := if target == Current then ManualReset else SystemReset;
         log[|s.log| + i] == Activity(s.nextActivity + i, lots[i], kind, -before, 0, stamp)
  }

  lemma BulkResetsCounters(s: Store, lots: seq<nat>, target: Target)
    requires forall l | l in s.lots :: l in lots
    ensures CountersReset(s.lots, Zeroed(s, lots, target), target)
  {
  }

  lemma BulkLogsResets(s: Store, lots: seq<nat>, target: Target, stamp: Stamp)
    ensures ResetsLogged(s, s.log + BulkRows(s, lots, target, stamp), lots, target, stamp)
  {
    var rows := BulkRows(s, lots, target, stamp);
    forall i | 0 <= i < |lots| ensures (s.log + rows)[|s.log| + i] == rows[i] == BulkRow(s, i, lots[i], target, stamp) {
    }
  }

  lemma BulkOverNone(s: Store, target: Target, stamp: Stamp)
    ensures BulkOver(s, [], target, stamp) == s
  {
    assert Zeroed(s, [], target) == s.lots;
  }

  lemma BulkNext(s: Store, lots: seq<nat>, i: nat, target: Target, stamp: Stamp)
    requires i < |lots| && Ascending(lots) && forall l | l in lots :: l in s.lots
    ensures var before := BulkOver(s, lots[..i], target, stamp);
      && lots[i] in before.lots
      && BulkOver(s, lots[..i + 1], target, stamp) == Record(before, lots[i], ResetKind(target), 0, stamp)
  {
    assert lots[i] in lots && lots[i] !in lots[..i];
    assert lots[..i + 1] == lots[..i] + [lots[i]];
    BulkOverSnoc(s, lots[..i], lots[i], target, stamp);
  }

  class DeviceUsecase {
    const db: Session

    constructor (db: Session)
      ensures this.db == db
    {
      this.db := db;
    }

    /** A new device, under a lot that exists and a code that is free; `Integrity` is the unique index. */
    method RegisterDevice(code: string, lot: nat) returns (r: Result<nat>)
      requires db.Idle()
      modifies db
      ensures db.Idle() && db.committed == Do(old(db.committed), Operations.RegisterDevice(code, lot))
      ensures r.Ok? <==>
        && lot in old(db.committed).lots
        && !exists d :: d in old(db.committed).devices && old(db.committed).devices[d].code == code
      ensures r.Err? ==> r.error == if lot in old(db.committed).lots then Integrity else NotFound
      ensures r.Err? ==> db.committed == old(db.committed)
      ensures r.Ok? ==>
        && r.value == old(db.committed).nextDevice
        && db.committed == old(db.committed).(
             devices := old(db.committed).devices[r.value := Device(code, lot)],
             nextDevice := r.value + 1)
    {
      if lot !in db.work.lots {
        return Err(NotFound);
      }
      if d :| d in db.work.devices && db.work.devices[d].code == code {
        assert CodeTaken(db.work, code, None);
        return Err(Integrity);
      }
      var device := db.work.nextDevice;
      db.work := db.work.(devices := db.work.devices[device := Device(code, lot)], nextDevice := device + 1);
      db.Commit();
      return Ok(device);
    }

    /** Only the columns given change, to an existing lot and a code that no other device has. */
    method UpdateDevice(device: nat, newCode: Option<string>, newLot: Option<nat>) returns (r: Result<Device>)
      requires db.Idle()
      modifies db
      ensures db.Idle() && db.committed == Do(old(db.committed), Operations.UpdateDevice(device, newCode, newLot))
      ensures r.Ok? <==>
        && device in old(db.committed).devices
        && (newLot.Some? ==> newLot.value in old(db.committed).lots)
        && (newCode.Some? ==> !exists d ::
              d in old(db.committed).devices && d != device && old(db.committed).devices[d].code == newCode.value)
      ensures r.Err? ==> db.committed == old(db.committed)
      ensures r.Err? ==>
        var missing :=
          device !in old(db.committed).devices || (newLot.Some? && newLot.value !in old(db.committed).lots);
        r.error == if missing then NotFound else Integrity
      ensures r.Ok? ==>
        && r.value.code == (if newCode.Some? then newCode.value else old(db.committed).devices[device].code)
        && r.value.lotId == (if newLot.Some? then newLot.value else old(db.committed).devices[device].lotId)
        && db.committed == old(db.committed).(devices := old(db.committed).devices[device := r.value])
    {
      if device !in db.work.devices || (newLot.Some? && newLot.value !in db.work.lots) {
        return Err(NotFound);
      }
      if newCode.Some? {
        if d :| d in db.work.devices && d != device && db.work.devices[d].code == newCode.value {
          assert CodeTaken(db.work, newCode.value, Some(device));
          return Err(Integrity);
        }
      }
      var row := db.work.devices[device];
      if newCode.Some? {
        row := row.(code := newCode.value);
      }
      if newLot.Some? {
        row := row.(lotId := newLot.value);
      }
      db.work := db.work.(devices := db.work.devices[device := row]);
      db.Commit();
      return Ok(row);
    }

    /** The device goes and its events with it; every other device and event stays. */
    method DeleteDevice(device: nat) returns (r: Result<()>)
      requires db.Idle()
      modifies db
      ensures db.Idle()
      ensures r == if device in old(db.committed).devices then Ok(()) else Err(NotFound)
      ensures r.Ok? ==> db.committed == Do(old(db.committed), Operations.DeleteDevice(device))
      ensures r.Err? ==> db.committed == old(db.committed)
      ensures r.Ok? ==>
        && db.committed == old(db.committed).(
             devices := old(db.committed).devices - {device},
             events := db.committed.events)
        && (forall e :: e in db.committed.events <==>
              e in old(db.committed).events && old(db.committed).events[e].deviceId != device)
        && (forall e | e in db.committed.events :: db.committed.events[e] == old(db.committed).events[e])
    {
      if device !in db.work.devices {
        return Err(NotFound);
      }
      var events := db.work.events;
      db.work := db.work.(
        devices := db.work.devices - {device},
        events := map e | e in events && events[e].deviceId != device :: events[e]);
      db.Commit();
      return Ok(());
    }
  }

  /** The day's reset after its first statements; a truncation of a table commits by itself. */
  function ResetUpTo(s: Store, statements: nat): Store {
    match statements
    case 0 => s
    case 1 => s.(events := map[], nextEvent := 1)
    case 2 => s.(events := map[], nextEvent := 1, log := [], nextActivity := 1)
    case _ => Do(s, DailyReset)
  }

  /** scripts/reset_daily_activity.py, cut off after so many of its three statements. */
  method ResetDailyActivity(db: Session, statements: nat)
    requires db.Idle() && statements <= 3
    modifies db
    ensures db.Idle() && db.committed == ResetUpTo(old(db.committed), statements)
    ensures statements == 3 ==> db.committed == Do(old(db.committed), DailyReset)
    ensures db.committed.events == if statements >= 1 then map[] else old(db.committed).events
    ensures db.committed.log == if statements >= 2 then [] else old(db.committed).log
    ensures db.committed.lots.Keys == old(db.committed).lots.Keys
    ensures statements < 3 ==> db.committed.lots == old(db.committed).lots
    ensures statements == 3 ==> forall l | l in db.committed.lots ::
      db.committed.lots[l] == old(db.committed).lots[l].(currentCount := 0, systemCount := 0)
    ensures db.committed.devices == old(db.committed).devices
  {
    if statements == 0 { return; }
    db.work := db.work.(events := map[], nextEvent := 1);
    db.Commit();
    if statements == 1 { return; }
    db.work := db.work.(log := [], nextActivity := 1);
    db.Commit();
    if statements == 2 { return; }
    var lots := db.work.lots;
    db.work := db.work.(lots := map l | l in lots :: lots[l].(currentCount := 0, systemCount := 0));
    db.Commit();
  }

  ghost predicate AllZero(s: Store) {
    forall l | l in s.lots :: s.lots[l].currentCount == 0 && s.lots[l].systemCount == 0
  }

  /** Without events everything else stands. */
  lemma EventsEmptied(s: Store)
    requires StoreOk(s)
    ensures StoreOk(ResetUpTo(s, 1))
  {
  }

  /** Without a log the counters have to be zero. */
  lemma LogEmptied(s: Store)
    requires StoreOk(s)
    ensures StoreOk(ResetUpTo(s, 2)) <==> AllZero(s)
  {
  }

  /** The reset leaves a consistent store unless it is cut off before its last statement with cars counted. */
  lemma ResetConsistentIff(s: Store, statements: nat)
    requires StoreOk(s) && statements <= 3
    ensures StoreOk(ResetUpTo(s, statements)) <==> statements != 2 || AllZero(s)
  {
    match statements
    case 1 => EventsEmptied(s);
    case 2 => LogEmptied(s);
    case 3 => StoreKept(s, DailyReset);
    case _ =>
  }
}
