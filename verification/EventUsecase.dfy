/** event_usecase.py and the sweep loop of main.py: the asynchronous event queue. */
module EventUsecases {
  import opened Wrappers
  import opened ParkingStore
  import opened Operations
  import opened Ledger
  import opened Sweep
  import opened Sessions
  import opened Effects

  /** Where a call of process_event raises, if it does. `LookupRaises` is outside its try block. */
  datatype Fault = NoFault | LookupRaises | LotLookupRaises | CountRaises | LogRaises | CommitRaises

  datatype Faults = Faults(raised: Fault, markingRaises: bool)

  /** What one call of process_event comes to: its return value, or an exception. */
  datatype Attempt = Returned(ok: bool) | Raised

  datatype Settings = Settings(staleSeconds: nat, batchSize: nat, maxAttempts: nat)

  /** The unique index on request_id or the foreign key rejects the insert. */
  predicate Rejected(s: Store, device: nat, requestId: string) {
    RequestKnown(s, requestId) || device !in s.devices
  }

  function OutcomeOf(faults: Faults): Outcome {
    if faults.raised == NoFault then Succeeds
    else if faults.markingRaises then FailsUnmarked
    else FailsMarked
  }

  function Outcomes(oracle: nat -> Faults): nat -> Outcome {
    (i: nat) => OutcomeOf(oracle(i))
  }

  /** The in-memory background queue of the API process. */
  class BackgroundTasks {
    var queue: seq<nat>

    constructor ()
      ensures queue == []
    {
      queue := [];
    }
  }

  class EventUsecase {
    const db: Session
    const settings: Settings

    constructor (db: Session, settings: Settings)
      ensures this.db == db && this.settings == settings
    {
      this.db, this.settings := db, settings;
    }

    method GetByRequestId(requestId: string) returns (found: Option<nat>)
      ensures found.Some? <==> exists e :: e in db.work.events && db.work.events[e].requestId == requestId
      ensures found.Some? ==> found.value in db.work.events && db.work.events[found.value].requestId == requestId
    {
      if e :| e in db.work.events && db.work.events[e].requestId == requestId {
        return Some(e);
      }
      return None;
    }

    /**
     `rivals` is what other sessions commit between this call's lookup and its own commit, `later` what
     they commit between the violation and the second lookup. Unless the request is known, or the commit
     rejected, the new row is what was asked for, pending and untried, and no other row is touched. The
     call fails only if its commit was rejected and no row with the request id is there afterwards.
     */
    method EnqueueEvent(device: nat, eventType: EventType, trackId: Option<string>, detectedAt: int,
                        receivedAt: int, requestId: string, rivals: seq<Op>, later: seq<Op>)
      returns (r: Result<nat>)
      requires db.Idle()
      modifies db
      ensures db.Idle()
      ensures RequestKnown(old(db.committed), requestId) ==> db.committed == old(db.committed)
      ensures !RequestKnown(old(db.committed), requestId) ==>
        db.committed ==
          var met := Run(old(db.committed), rivals);
          if Rejected(met, device, requestId) then Run(met, later)
          else Do(met, Enqueue(device, eventType, trackId, detectedAt, receivedAt, requestId))
      ensures !RequestKnown(old(db.committed), requestId) ==>
        var met := Run(old(db.committed), rivals);
        !Rejected(met, device, requestId) ==>
          && r == Ok(met.nextEvent)
          && db.committed == met.(
               events := met.events[met.nextEvent :=
                 Event(device, eventType, requestId, trackId, detectedAt, receivedAt, Pending, 0)],
               nextEvent := met.nextEvent + 1)
      ensures r.Ok? <==> exists e :: e in db.committed.events && db.committed.events[e].requestId == requestId
      ensures r.Ok? ==> r.value in db.committed.events && db.committed.events[r.value].requestId == requestId
      ensures r.Err? ==> Rejected(Run(old(db.committed), rivals), device, requestId)
    {
      var existing := GetByRequestId(requestId);
      if existing.Some? {
        return Ok(existing.value);
      }
      var event := Event(device, eventType, requestId, trackId, detectedAt, receivedAt, Pending, 0);
      db.OthersCommit(rivals);
      if Rejected(db.work, device, requestId) {
        db.Rollback();
        db.OthersCommit(later);
        existing := GetByRequestId(requestId);
        if existing.Some? {
          return Ok(existing.value);
        }
        return Err(Integrity);
      }
      var id := db.work.nextEvent;
      db.work := SetEvent(db.work, id, event).(nextEvent := id + 1);
      assert db.work.events[id].requestId == requestId;
      db.Commit();
      return Ok(id);
    }

    /** POST /events: store, then schedule unconditionally. */
    method CreateEvent(tasks: BackgroundTasks, device: nat, eventType: EventType, trackId: Option<string>,
                       detectedAt: int, receivedAt: int, requestId: string, rivals: seq<Op>, later: seq<Op>)
      returns (r: Result<nat>)
      requires db.Idle()
      modifies db, tasks
      ensures db.Idle()
      ensures r.Ok? ==> tasks.queue == old(tasks.queue) + [r.value]
      ensures r.Ok? ==> r.value in db.committed.events && db.committed.events[r.value].requestId == requestId
      ensures r.Err? ==> tasks.queue == old(tasks.queue)
      ensures RequestKnown(old(db.committed), requestId) ==> db.committed == old(db.committed) && r.Ok?
      ensures !RequestKnown(old(db.committed), requestId) ==>
        var met := Run(old(db.committed), rivals);
        !Rejected(met, device, requestId) ==>
          && r.Ok? && r.value == met.nextEvent
          && db.committed.events == met.events[r.value :=
               Event(device, eventType, requestId, trackId, detectedAt, receivedAt, Pending, 0)]
    {
      r := EnqueueEvent(device, eventType, trackId, detectedAt, receivedAt, requestId, rivals, later);
      if r.Ok? {
        tasks.queue := tasks.queue + [r.value];
      }
    }

    /** The try block of process_event. On an exception (`!done`) nothing of it is committed. */
    method TryApply(id: nat, fault: Fault, now: int) returns (done: bool)
      requires db.Idle() && ReferencesOk(db.committed) && Processable(db.committed, id)
      requires fault != LookupRaises
      modifies db
      ensures done <==> fault == NoFault
      ensures done ==> db.Idle() && db.committed == Do(old(db.committed), Process(id, Succeeds, now))
      ensures done ==>
        var device := old(db.committed).devices[old(db.committed).events[id].deviceId];
        AppliedTo(old(db.committed), db.committed, id, device.lotId, device.code, now)
      ensures !done ==> db.committed == old(db.committed)
    {
      ProcessWrites(db.committed, id, now);
      var row := db.work.events[id];
      var device := db.work.devices[row.deviceId];
      if fault == LotLookupRaises { return false; }
      if device.lotId in db.work.lots {
        var before := db.work.lots[device.lotId].systemCount;
        if fault == CountRaises { return false; }
        if row.eventType == Entry {
          db.work := SetCount(db.work, device.lotId, System, before + 1);
        } else {
          db.work := SetCount(db.work, device.lotId, System, Max0(before - 1));
        }
        if fault == LogRaises { return false; }
        var after := db.work.lots[device.lotId].systemCount;
        var kind := if row.eventType == Entry then EntryActivity else ExitActivity;
        db.work := Append(db.work, device.lotId, kind, after - before, after, Stamp(device.code, None, now));
      }
      db.work := SetEvent(db.work, id, row.(status := Processed));
      if fault == CommitRaises { return false; }
      db.Commit();
      return true;
    }

    /** The mini-transaction that marks a failure. */
    method TryMark(id: nat, raises: bool) returns (done: bool)
      requires db.Idle() && id in db.committed.events
      modifies db
      ensures done <==> !raises
      ensures done ==> db.Idle() && MarkedFailed(old(db.committed), db.committed, id)
      ensures !done ==> db.committed == old(db.committed)
    {
      var row := db.work.events[id];
      db.work := SetEvent(db.work, id, row.(attempts := row.attempts + 1));
      db.work := SetEvent(db.work, id, db.work.events[id].(status := Failed));
      if raises { return false; }
      db.Commit();
      return true;
    }

    /**
     One call in full. It commits either everything or a failure mark or nothing, and returns true
     exactly when the event is no longer stuck.
     */
    method ProcessEvent(id: nat, faults: Faults, now: int) returns (r: Attempt)
      requires db.Idle() && ReferencesOk(db.committed)
      modifies db
      ensures db.Idle() && ReferencesOk(db.committed)
      ensures r == Raised <==> faults.raised == LookupRaises
      ensures r == Raised ==> db.committed == old(db.committed)
      ensures r != Raised ==> db.committed == Do(old(db.committed), Process(id, OutcomeOf(faults), now))
      ensures r != Raised ==>
        (r.ok <==> id !in db.committed.events || db.committed.events[id].status == Processed)
      ensures id !in old(db.committed).events || old(db.committed).events[id].status == Processed ==>
        db.committed == old(db.committed)
      ensures id in old(db.committed).events && old(db.committed).events[id].status != Processed ==>
        var s := old(db.committed);
        var device := s.devices[s.events[id].deviceId];
        if faults.raised == NoFault then AppliedTo(s, db.committed, id, device.lotId, device.code, now)
        else if faults.raised != LookupRaises && !faults.markingRaises then MarkedFailed(s, db.committed, id)
        else db.committed == s
    {
      if faults.raised == LookupRaises { return Raised; }
      if id !in db.work.events || !db.work.events[id].Unfinished() {
        ProcessedStays(db.committed, id, OutcomeOf(faults), now);
        return Returned(true);
      }
      ProcessWrites(db.committed, id, now);
      var applied := TryApply(id, faults.raised, now);
      if applied {
        return Returned(true);
      }
      db.Rollback();
      var marked := TryMark(id, faults.markingRaises);
      if !marked {
        db.Rollback();
      }
      return Returned(false);
    }

    /** The query of list_stale_queued: repeatedly the oldest eligible row not yet listed. */
    method ListStaleQueued(cutoff: int) returns (batch: seq<nat>)
      ensures IsBatch(db.work.events, cutoff, settings.batchSize, settings.maxAttempts, batch)
      ensures |batch| <= settings.batchSize
      ensures forall e | e in batch ::
        && e in db.work.events && db.work.events[e].status != Processed
        && db.work.events[e].receivedAt < cutoff && db.work.events[e].attempts < settings.maxAttempts
    {
      var queue := db.work.events;
      batch := [];
      var left := set e | e in queue && Eligible(queue[e], cutoff, settings.maxAttempts);
      while left != {} && |batch| < settings.batchSize
        invariant |batch| <= settings.batchSize
        invariant Picking(queue, cutoff, settings.maxAttempts, left, batch)
        decreases left
      {
        OldestExists(queue, left);
        var oldest :| IsOldest(queue, left, oldest);
        PickOne(queue, cutoff, settings.maxAttempts, left, batch, oldest);
        batch := batch + [oldest];
        left := left - {oldest};
      }
    }

    /**
     One sweep, with the i-th call of process_event meeting `oracle(i)`. `tried` calls returned; the
     pass aborts only if one raises outside its try block. The result counts the listed events that
     are no longer stuck.
     */
    method SweepStaleEvents(now: int, oracle: nat -> Faults)
      returns (recovered: Option<nat>, ghost batch: seq<nat>, ghost tried: nat)
      requires db.Idle() && ReferencesOk(db.committed)
      modifies db
      ensures db.Idle() && ReferencesOk(db.committed)
      ensures IsBatch(old(db.committed).events, now - settings.staleSeconds, settings.batchSize,
                      settings.maxAttempts, batch)
      ensures tried <= |batch|
      ensures db.committed == Run(old(db.committed), SweepOps(batch[..tried], Outcomes(oracle), now))
      ensures Handled(old(db.committed).events, db.committed.events, batch[..tried], Outcomes(oracle))
      ensures recovered.None? <==> tried < |batch|
      ensures tried < |batch| ==> oracle(tried).raised == LookupRaises
      ensures recovered.Some? ==> recovered.value == |NoLongerStuck(batch, db.committed.events)|
    {
      var listed := ListStaleQueued(now - settings.staleSeconds);
      batch := listed;
      BatchProcessable(db.committed, now - settings.staleSeconds, settings.batchSize, settings.maxAttempts, listed);
      ghost var start := db.committed;
      recovered, tried := ProcessListed(listed, now, oracle);
      HandledSoFar(start, listed, tried, Outcomes(oracle), now);
    }

    /** process_event on each listed row in turn, counting the calls that return true. */
    method ProcessListed(listed: seq<nat>, now: int, oracle: nat -> Faults)
      returns (recovered: Option<nat>, ghost tried: nat)
      requires db.Idle() && ReferencesOk(db.committed)
      requires Distinct(listed) && forall e | e in listed :: Processable(db.committed, e)
      modifies db
      ensures db.Idle() && ReferencesOk(db.committed)
      ensures tried <= |listed|
      ensures db.committed == Run(old(db.committed), SweepOps(listed[..tried], Outcomes(oracle), now))
      ensures recovered.None? <==> tried < |listed|
      ensures tried < |listed| ==> oracle(tried).raised == LookupRaises
      ensures recovered.Some? ==> recovered.value == |NoLongerStuck(listed, db.committed.events)|
    {
      var count, i := 0, 0;
      ghost var start := db.committed;
      assert listed[..0] == [];
      while i < |listed|
        invariant i <= |listed|
        invariant db.Idle() && ReferencesOk(db.committed)
        invariant db.committed == Run(start, SweepOps(listed[..i], Outcomes(oracle), now))
        invariant count == |NoLongerStuck(listed[..i], db.committed.events)|
      {
        AfterCall(start, listed, i, Outcomes(oracle), now);
        var r := ProcessEvent(listed[i], oracle(i), now);
        if r == Raised {
          return None, i;
        }
        if r.ok {
          count := count + 1;
        }
        i := i + 1;
      }
      assert listed[..i] == listed;
      return Some(count), i;
    }
  }

  lemma BatchProcessable(s: Store, cutoff: int, limit: nat, maxAttempts: nat, batch: seq<nat>)
    requires ReferencesOk(s) && IsBatch(s.events, cutoff, limit, maxAttempts, batch)
    ensures Distinct(batch) && forall e | e in batch :: Processable(s, e)
  {
  }

  /** The listed events that a sweep leaves applied. */
  ghost function NoLongerStuck(batch: seq<nat>, queue: Queue): set<nat> {
    set e | e in batch && e in queue && queue[e].status == Processed
  }

  predicate IsOldest(queue: Queue, ids: set<nat>, oldest: nat)
    requires ids <= queue.Keys
  {
    oldest in ids && forall e | e in ids :: queue[oldest].receivedAt <= queue[e].receivedAt
  }

  lemma {:induction false} OldestExists(queue: Queue, ids: set<nat>)
    requires ids != {} && ids <= queue.Keys
    ensures exists oldest :: IsOldest(queue, ids, oldest)
    decreases |ids|
  {
    var some :| some in ids;
    if ids == {some} {
      assert IsOldest(queue, ids, some);
    } else {
      OldestExists(queue, ids - {some});
      var other :| IsOldest(queue, ids - {some}, other);
      assert forall e | e in ids :: e == some || e in ids - {some};
      assert IsOldest(queue, ids, if queue[some].receivedAt <= queue[other].receivedAt then some else other);
    }
  }

  /** `batch` holds the oldest eligible rows in order, `left` the other eligible ones. */
  ghost predicate Picking(queue: Queue, cutoff: int, maxAttempts: nat, left: set<nat>, batch: seq<nat>) {
    && left <= queue.Keys
    && (forall e | e in left :: Eligible(queue[e], cutoff, maxAttempts) && e !in batch)
    && (forall e | e in queue && Eligible(queue[e], cutoff, maxAttempts) && e !in batch :: e in left)
    && (forall b | b in batch :: b in queue && Eligible(queue[b], cutoff, maxAttempts))
    && Distinct(batch)
    && (forall i, j | 0 <= i < j < |batch| && batch[i] in queue && batch[j] in queue ::
          queue[batch[i]].receivedAt <= queue[batch[j]].receivedAt)
    && (forall b, e | b in batch && b in queue && e in left :: queue[b].receivedAt <= queue[e].receivedAt)
  }

  lemma PickOne(queue: Queue, cutoff: int, maxAttempts: nat, left: set<nat>, batch: seq<nat>, oldest: nat)
    requires Picking(queue, cutoff, maxAttempts, left, batch) && IsOldest(queue, left, oldest)
    ensures Picking(queue, cutoff, maxAttempts, left - {oldest}, batch + [oldest])
  {
    var longer := batch + [oldest];
    assert forall b | b in longer :: b in batch || b == oldest;
    assert forall b | b !in longer :: b !in batch && b != longer[|batch|];
    forall i, j | 0 <= i < j < |longer|
      ensures longer[i] != longer[j] && queue[longer[i]].receivedAt <= queue[longer[j]].receivedAt
    {
      assert longer[i] == batch[i] && batch[i] in batch;
      if j < |batch| { assert longer[j] == batch[j] && batch[j] in batch; }
    }
  }

  lemma HandledSoFar(start: Store, listed: seq<nat>, i: nat, outcomes: nat -> Outcome, now: int)
    requires i <= |listed| && Distinct(listed) && forall e | e in listed :: Processable(start, e)
    ensures Handled(start.events, Run(start, SweepOps(listed[..i], outcomes, now)).events, listed[..i], outcomes)
  {
    assert forall e | e in listed[..i] :: e in listed;
    SweepEffect(start, listed[..i], outcomes, now);
  }

  /** When its turn comes, a listed event can still be processed. */
  lemma BeforeCall(start: Store, listed: seq<nat>, i: nat, outcomes: nat -> Outcome, now: int)
    requires i < |listed| && Distinct(listed) && forall e | e in listed :: Processable(start, e)
    ensures Processable(Run(start, SweepOps(listed[..i], outcomes, now)), listed[i])
  {
    assert listed[i] in listed && listed[i] !in listed[..i];
    assert forall e | e in listed[..i] :: e in listed;
    SweepEffect(start, listed[..i], outcomes, now);
  }

  lemma AfterCall(start: Store, listed: seq<nat>, i: nat, outcomes: nat -> Outcome, now: int)
    requires i < |listed| && Distinct(listed) && forall e | e in listed :: Processable(start, e)
    ensures var before := Run(start, SweepOps(listed[..i], outcomes, now));
      var after := Do(before, Process(listed[i], outcomes(i), now));
      && after == Run(start, SweepOps(listed[..i + 1], outcomes, now))
      && |NoLongerStuck(listed[..i + 1], after.events)| == |NoLongerStuck(listed[..i], before.events)|
         + if listed[i] !in after.events || after.events[listed[i]].status == Processed then 1 else 0
  {
    BeforeCall(start, listed, i, outcomes, now);
    var before := Run(start, SweepOps(listed[..i], outcomes, now));
    OneProcess(before, listed[i], outcomes(i), now);
    assert listed[..i + 1][..i] == listed[..i];
    SweepOpsSnoc(listed[..i + 1], outcomes, now);
    assert listed[..i + 1] == listed[..i] + [listed[i]] && listed[i] !in listed[..i];
    OneMoreUnstuck(listed[..i], before.events, listed[i], RowAfter(before.events[listed[i]], outcomes(i)));
  }

  lemma OneMoreUnstuck(batch: seq<nat>, queue: Queue, e: nat, row: Event)
    requires e in queue && e !in batch
    ensures |NoLongerStuck(batch + [e], queue[e := row])|
         == |NoLongerStuck(batch, queue)| + if row.status == Processed then 1 else 0
  {
    assert NoLongerStuck(batch + [e], queue[e := row])
        == NoLongerStuck(batch, queue) + if row.status == Processed then {e} else {};
  }

  // The sweep loop.

  /** Nothing raises outside a try block, and every failure gets marked. */
  ghost predicate MarksFailures(oracle: nat -> nat -> Faults) {
    forall tick: nat, i: nat :: oracle(tick)(i).raised != LookupRaises && !oracle(tick)(i).markingRaises
  }

  /** `n` rounds of the loop have taken the queue from `start` to `end`. */
  ghost predicate Rounds(ts: seq<Tick>, n: nat, start: Queue, end: Queue, clock: nat -> int, settings: Settings) {
    && |ts| == n && Ticked(ts, start, end, settings.batchSize, settings.maxAttempts)
    && forall k | 0 <= k < |ts| :: ts[k].cutoff == clock(k) - settings.staleSeconds
  }

  lemma NoRound(start: Queue, clock: nat -> int, settings: Settings)
    ensures Rounds([], 0, start, start, clock, settings)
  {
  }

  /** One more round, in which every failure gets marked. */
  lemma OneMoreRound(ts: seq<Tick>, n: nat, start: Queue, t: Tick, clock: nat -> int, settings: Settings,
                     outcomes: nat -> Outcome)
    requires Rounds(ts, n, start, t.start, clock, settings)
    requires t.cutoff == clock(n) - settings.staleSeconds && forall i: nat, j: nat | i <= j :: clock(i) <= clock(j)
    requires IsBatch(t.start, t.cutoff, settings.batchSize, settings.maxAttempts, t.batch)
    requires Handled(t.start, t.end, t.batch, outcomes) && forall i: nat :: outcomes(i) != FailsUnmarked
    ensures Rounds(ts + [t], n + 1, start, t.end, clock, settings)
  {
    HandledIsSwept(t.start, t.end, t.batch, outcomes);
    TickedSnoc(ts, start, settings.batchSize, settings.maxAttempts, t);
  }

  /** What the rounds of the loop come to, when failures get marked. */
  ghost predicate LoopOutcome(start: Queue, end: Queue, ticks: nat, cutoff: int, settings: Settings)
    requires settings.batchSize > 0
  {
    && (AllStale(start, cutoff, settings.maxAttempts) && ticks > Budget(start, start.Keys, settings.maxAttempts)
        ==> Drained(end, settings.maxAttempts))
    && (forall e | e in start && Eligible(start[e], cutoff, settings.maxAttempts)
                   && ticks > |Ahead(start, e, settings.maxAttempts)| * settings.maxAttempts / settings.batchSize ::
          e in end && Tried(start[e], end[e]))
  }

  lemma RoundsComeTo(ts: seq<Tick>, n: nat, start: Queue, end: Queue, clock: nat -> int, settings: Settings)
    requires settings.batchSize > 0 && Rounds(ts, n, start, end, clock, settings)
    ensures LoopOutcome(start, end, n, clock(0) - settings.staleSeconds, settings)
  {
    if ts != [] && AllStale(start, ts[0].cutoff, settings.maxAttempts)
       && |ts| > Budget(start, start.Keys, settings.maxAttempts) {
      TickedDrains(ts, start, end, settings.batchSize, settings.maxAttempts);
    }
    forall e | e in start && Eligible(start[e], clock(0) - settings.staleSeconds, settings.maxAttempts)
               && |ts| > |Ahead(start, e, settings.maxAttempts)| * settings.maxAttempts / settings.batchSize
      ensures e in end && Tried(start[e], end[e])
    {
      BoundNotNegative(|Ahead(start, e, settings.maxAttempts)|, settings.maxAttempts, settings.batchSize);
      TickedTries(ts, start, end, settings.batchSize, settings.maxAttempts, e);
    }
  }

  lemma BoundNotNegative(r: nat, maxAttempts: nat, limit: nat)
    requires limit > 0
    ensures r * maxAttempts / limit >= 0
  {
  }

  /** One round: the sweep, whose exception, if it raises, is only logged. */
  method SweepTick(usecase: EventUsecase, now: int, oracle: nat -> Faults) returns (ghost batch: seq<nat>)
    requires usecase.db.Idle() && ReferencesOk(usecase.db.committed)
    modifies usecase.db
    ensures usecase.db.Idle() && ReferencesOk(usecase.db.committed)
    ensures usecase.db.committed.events.Keys == old(usecase.db.committed).events.Keys
    ensures IsBatch(old(usecase.db.committed).events, now - usecase.settings.staleSeconds, usecase.settings.batchSize,
                    usecase.settings.maxAttempts, batch)
    ensures (forall i :: oracle(i).raised != LookupRaises) ==>
      Handled(old(usecase.db.committed).events, usecase.db.committed.events, batch, Outcomes(oracle))
  {
    var recovered, listed, tried := usecase.SweepStaleEvents(now, oracle);
    batch := listed;
    assert tried == |batch| ==> batch[..tried] == batch;
  }

  /**
   `ticks` rounds of the loop in main.py. It survives sweeps that raise; and if failures get marked, it
   drains a stale queue within as many ticks as that has budget, and tries every eligible event within
   floor(r * maxAttempts / batchSize) + 1 ticks, r being the rows ahead of it, whatever fails.
   */
  method EventQueueSweepLoop(usecase: EventUsecase, ticks: nat, clock: nat -> int, oracle: nat -> nat -> Faults)
    requires usecase.db.Idle() && ReferencesOk(usecase.db.committed)
    requires usecase.settings.batchSize > 0
    requires forall i: nat, j: nat | i <= j :: clock(i) <= clock(j)
    modifies usecase.db
    ensures usecase.db.Idle() && ReferencesOk(usecase.db.committed)
    ensures usecase.db.committed.events.Keys == old(usecase.db.committed).events.Keys
    ensures MarksFailures(oracle) ==>
      LoopOutcome(old(usecase.db.committed).events, usecase.db.committed.events, ticks,
                  clock(0) - usecase.settings.staleSeconds, usecase.settings)
  {
    var db, settings := usecase.db, usecase.settings;
    ghost var start := db.committed.events;
    ghost var ts: seq<Tick> := [];
    NoRound(start, clock, settings);
    for tick := 0 to ticks
      invariant db.Idle() && ReferencesOk(db.committed)
      invariant db.committed.events.Keys == start.Keys
      invariant MarksFailures(oracle) ==> Rounds(ts, tick, start, db.committed.events, clock, settings)
    {
      ghost var before := db.committed.events;
      ghost var batch := SweepTick(usecase, clock(tick), oracle(tick));
      if MarksFailures(oracle) {
        ghost var t := Tick(before, clock(tick) - settings.staleSeconds, batch, db.committed.events);
        OneMoreRound(ts, tick, start, t, clock, settings, Outcomes(oracle(tick)));
        ts := ts + [t];
      }
    }
    if MarksFailures(oracle) {
      RoundsComeTo(ts, ticks, start, db.committed.events, clock, settings);
    }
  }
}
