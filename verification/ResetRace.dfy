/**
 reset_all_counts reads the lots without locking them. If a counter changes between that read and
 the commit, the rows it logs are about a value that is gone.
 */
module ResetRace {
  import opened ParkingStore
  import opened Operations
  import opened Ledger

  /** The rows logged for lots whose counters were read as `seen`. */
  function SeenRows(next: nat, ids: seq<nat>, seen: map<nat, int>, target: Target, stamp: Stamp): seq<Activity>
    requires forall l | l in ids :: l in seen
  {
    if ids == [] then []
    else
      var n := |ids| - 1;
      assert ids[n] in ids && forall l | l in ids[..n] :: l in ids;
      SeenRows(next, ids[..n], seen, target, stamp)
      + [Activity(next + n, ids[n], ResetKind(target), -seen[ids[n]], 0, stamp)]
  }

  /** What a reset-all reads. */
  function Read(s: Store, target: Target): map<nat, int> {
    map l | l in s.lots :: Count(s, l, target)
  }

  /**
   The commit of a reset-all that had read `seen`. If `skips`, a column assigned the value it was
   loaded with is not written, as the object-relational mapper has it. A lot created in the meantime is
   left alone; if one was deleted, the commit raises.
   */
  function CommitSeen(s: Store, seen: map<nat, int>, target: Target, stamp: Stamp, skips: bool): Store
    requires seen.Keys <= s.lots.Keys
  {
    CommitOver(s, SortedIds(seen.Keys), seen, target, stamp, skips)
  }

  ghost predicate Lists(ids: seq<nat>, seen: map<nat, int>) {
    Ascending(ids) && forall l :: l in ids <==> l in seen
  }

  lemma SortedLists(seen: map<nat, int>)
    ensures Lists(SortedIds(seen.Keys), seen)
  {
    assert forall l :: l in seen <==> l in seen.Keys;
  }

  function CommitOver(s: Store, ids: seq<nat>, seen: map<nat, int>, target: Target, stamp: Stamp, skips: bool): Store
    requires forall l | l in ids :: l in seen
  {
    s.(lots := Written(s, seen, target, skips),
       log := s.log + SeenRows(s.nextActivity, ids, seen, target, stamp),
       nextActivity := s.nextActivity + |ids|)
  }

  function Written(s: Store, seen: map<nat, int>, target: Target, skips: bool): map<nat, Lot> {
    map l | l in s.lots ::
      if l in seen && !(skips && seen[l] == 0) then WithCount(s.lots[l], target, 0) else s.lots[l]
  }

  lemma {:induction false} SeenRowsTotal(log: seq<Activity>, next: nat, ids: seq<nat>, seen: map<nat, int>,
                                         target: Target, stamp: Stamp, lot: nat)
    requires Ascending(ids) && forall l | l in ids :: l in seen
    ensures Total(log + SeenRows(next, ids, seen, target, stamp), lot, target)
         == Total(log, lot, target) - if lot in ids then seen[lot] else 0
  {
    if ids == [] {
      assert log + [] == log;
    } else {
      var init, last := ids[..|ids| - 1], ids[|ids| - 1];
      assert forall l | l in init :: l in ids;
      SeenRowsTotal(log, next, init, seen, target, stamp, lot);
      OneMoreRow(log, SeenRows(next, init, seen, target, stamp),
                 Activity(next + |init|, last, ResetKind(target), -seen[last], 0, stamp), lot, target);
      LastIsNew(ids, lot);
    }
  }

  lemma OneMoreRow(log: seq<Activity>, rows: seq<Activity>, row: Activity, lot: nat, side: Target)
    ensures Total(log + (rows + [row]), lot, side)
         == Total(log + rows, lot, side) + if About(row, lot, side) then row.delta else 0
  {
    TotalSnoc(log + rows, row, lot, side);
    assert log + (rows + [row]) == log + rows + [row];
  }

  lemma LastIsNew(ids: seq<nat>, lot: nat)
    requires ids != [] && Ascending(ids)
    ensures ids[|ids| - 1] !in ids[..|ids| - 1]
    ensures lot in ids <==> lot in ids[..|ids| - 1] || lot == ids[|ids| - 1]
  {
    assert ids == ids[..|ids| - 1] + [ids[|ids| - 1]];
  }

  ghost predicate Agrees(s: Store, target: Target) {
    forall l | l in s.lots :: Count(s, l, target) == Total(s.log, l, target)
  }

  lemma AgreesOver(s: Store, ids: seq<nat>, seen: map<nat, int>, target: Target, stamp: Stamp, skips: bool)
    requires LedgerOk(s) && seen.Keys <= s.lots.Keys && Lists(ids, seen)
    ensures Agrees(CommitOver(s, ids, seen, target, stamp, skips), target)
       <==> forall l | l in seen :: seen[l] == Count(s, l, target) || (skips && seen[l] == 0)
  {
    var t := CommitOver(s, ids, seen, target, stamp, skips);
    forall l | l in s.lots
      ensures Total(t.log, l, target) == Count(s, l, target) - if l in seen then seen[l] else 0
    {
      SeenRowsTotal(s.log, s.nextActivity, ids, seen, target, stamp, l);
    }
    forall l | l in s.lots
      ensures Count(t, l, target) == if l in seen && !(skips && seen[l] == 0) then 0 else Count(s, l, target)
    {
    }
    assert forall l | l in seen :: l in seen.Keys;
  }

  /**
   Counters and log agree afterwards if and only if every counter still was what the reset-all had read,
   except that one read as 0 may have moved if the mapper then does not write it.
   */
  lemma AgreesIff(s: Store, seen: map<nat, int>, target: Target, stamp: Stamp, skips: bool)
    requires LedgerOk(s) && seen.Keys <= s.lots.Keys
    ensures Agrees(CommitSeen(s, seen, target, stamp, skips), target)
       <==> forall l | l in seen :: seen[l] == Count(s, l, target) || (skips && seen[l] == 0)
  {
    SortedLists(seen);
    AgreesOver(s, SortedIds(seen.Keys), seen, target, stamp, skips);
  }

  /** So it is for whatever is committed between the read and the commit. */
  lemma RunBetween(s: Store, ops: seq<Op>, target: Target, stamp: Stamp, skips: bool)
    requires StoreOk(s) && s.lots.Keys <= Run(s, ops).lots.Keys
    ensures Agrees(CommitSeen(Run(s, ops), Read(s, target), target, stamp, skips), target)
       <==> forall l | l in s.lots ::
              Count(s, l, target) == Count(Run(s, ops), l, target) || (skips && Count(s, l, target) == 0)
  {
    StoreOkOverRun(s, ops);
    AgreesIff(Run(s, ops), Read(s, target), target, stamp, skips);
    assert forall l | l in s.lots :: l in Read(s, target) && Read(s, target)[l] == Count(s, l, target);
  }

  /** One car that enters in between is enough to make them disagree. */
  lemma EntryBetween(s: Store, e: nat, now: int, stamp: Stamp, skips: bool)
    requires StoreOk(s) && Processable(s, e) && s.events[e].eventType == Entry
    requires Count(s, s.devices[s.events[e].deviceId].lotId, System) > 0
    ensures var ops := [Process(e, Succeeds, now)];
      && s.lots.Keys <= Run(s, ops).lots.Keys
      && !Agrees(CommitSeen(Run(s, ops), Read(s, System), System, stamp, skips), System)
  {
    var ops := [Process(e, Succeeds, now)];
    var lot := s.devices[s.events[e].deviceId].lotId;
    assert ops[..0] == [];
    assert Run(s, ops) == Do(s, ops[0]);
    assert Count(Run(s, ops), lot, System) == Count(s, lot, System) + 1;
    RunBetween(s, ops, System, stamp, skips);
  }

  lemma {:induction false} SeenRowsFresh(s: Store, ids: seq<nat>, seen: map<nat, int>, target: Target, stamp: Stamp)
    requires forall l | l in ids :: l in seen && l in s.lots && seen[l] == Count(s, l, target)
    ensures SeenRows(s.nextActivity, ids, seen, target, stamp) == BulkRows(s, ids, target, stamp)
  {
    if ids != [] {
      var n := |ids| - 1;
      assert ids[n] in ids && forall l | l in ids[..n] :: l in ids;
      SeenRowsFresh(s, ids[..n], seen, target, stamp);
    }
  }

  lemma WrittenIsZeroed(s: Store, ids: seq<nat>, target: Target, skips: bool)
    requires Lists(ids, Read(s, target))
    ensures Written(s, Read(s, target), target, skips) == Zeroed(s, ids, target)
  {
    forall l | l in s.lots
      ensures l in ids && (Read(s, target)[l] == 0 ==> WithCount(s.lots[l], target, 0) == s.lots[l])
    {
      assert l in Read(s, target);
    }
  }

  lemma AloneOver(s: Store, ids: seq<nat>, target: Target, stamp: Stamp, skips: bool)
    requires Lists(ids, Read(s, target))
    ensures CommitOver(s, ids, Read(s, target), target, stamp, skips) == BulkOver(s, ids, target, stamp)
  {
    WrittenIsZeroed(s, ids, target, skips);
    SeenRowsFresh(s, ids, Read(s, target), target, stamp);
  }

  /** With nothing in between it is the transaction of the serial model. */
  lemma AloneIsSerial(s: Store, target: Target, stamp: Stamp, skips: bool)
    ensures CommitSeen(s, Read(s, target), target, stamp, skips) == Do(s, ResetAll(target, stamp))
  {
    assert Read(s, target).Keys == s.lots.Keys;
    SortedLists(Read(s, target));
    AloneOver(s, SortedIds(s.lots.Keys), target, stamp, skips);
    ResetAllIs(s, SortedIds(s.lots.Keys), target, stamp);
  }
}
