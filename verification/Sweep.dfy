/**
 The periodic sweep: which rows one tick picks, what processing them does to the queue, and why
 every recoverable row is reached and the queue drains whatever fails on the way.
 */
module Sweep {
  import opened ParkingStore
  import opened Operations
  import opened Ledger
  import opened Clamp

  type Queue = map<nat, Event>

  /** Rows the sweep may still retry, once they are stale. */
  predicate Retryable(row: Event, maxAttempts: nat) {
    row.Unfinished() && row.attempts < maxAttempts
  }

  /** The filter of list_stale_queued. */
  predicate Eligible(row: Event, cutoff: int, maxAttempts: nat) {
    Retryable(row, maxAttempts) && row.receivedAt < cutoff
  }

  ghost function EligibleIds(queue: Queue, cutoff: int, maxAttempts: nat): set<nat> {
    set e | e in queue && Eligible(queue[e], cutoff, maxAttempts)
  }

  predicate Distinct(ids: seq<nat>) {
    forall i, j | 0 <= i < j < |ids| :: ids[i] != ids[j]
  }

  /**
   What list_stale_queued promises: eligible rows, oldest first, at most `limit` of them; a row is
   left out only if the batch is full of rows at least as old. Ties may fall either way.
   */
  ghost predicate IsBatch(queue: Queue, cutoff: int, limit: nat, maxAttempts: nat, batch: seq<nat>) {
    && Distinct(batch)
    && |batch| <= limit
    && (forall e | e in batch :: e in queue && Eligible(queue[e], cutoff, maxAttempts))
    && (forall i, j | 0 <= i < j < |batch| && batch[i] in queue && batch[j] in queue ::
          queue[batch[i]].receivedAt <= queue[batch[j]].receivedAt)
    && (forall e | e in queue && Eligible(queue[e], cutoff, maxAttempts) && e !in batch ::
          |batch| == limit && forall b | b in batch :: queue[b].receivedAt <= queue[e].receivedAt)
  }

  function IdSet(ids: seq<nat>): set<nat> {
    set e | e in ids
  }

  lemma {:induction false} DistinctCount(ids: seq<nat>)
    requires Distinct(ids)
    ensures |IdSet(ids)| == |ids|
  {
    if ids != [] {
      var init, last := ids[..|ids| - 1], ids[|ids| - 1];
      DistinctCount(init);
      assert ids == init + [last] && last !in init;
      assert IdSet(ids) == IdSet(init) + {last};
    }
  }

  /** A batch is as large as it can be. */
  lemma BatchSize(queue: Queue, cutoff: int, limit: nat, maxAttempts: nat, batch: seq<nat>)
    requires IsBatch(queue, cutoff, limit, maxAttempts, batch)
    ensures |batch| == Min(limit, |EligibleIds(queue, cutoff, maxAttempts)|)
  {
    var eligible, picked := EligibleIds(queue, cutoff, maxAttempts), IdSet(batch);
    DistinctCount(batch);
    if |batch| < limit {
      assert picked == eligible;
    } else {
      assert picked <= eligible;
      SubsetSize(picked, eligible);
    }
  }

  lemma SubsetSize(small: set<nat>, big: set<nat>)
    requires small <= big
    ensures |small| <= |big|
  {
    assert big == small + (big - small);
  }

  // One sweep as a serial run.

  /** process_event on each id of the batch, in list order. */
  function SweepOps(batch: seq<nat>, oracle: nat -> Outcome, now: int): seq<Op> {
    seq(|batch|, i requires 0 <= i < |batch| => Process(batch[i], oracle(i), now))
  }

  function RowAfter(row: Event, outcome: Outcome): Event {
    match outcome
    case Succeeds => row.(status := Processed)
    case FailsMarked => row.(status := Failed, attempts := row.attempts + 1)
    case FailsUnmarked => row
  }

  function Successes(n: nat, oracle: nat -> Outcome): nat {
    if n == 0 then 0 else Successes(n - 1, oracle) + if oracle(n - 1) == Succeeds then 1 else 0
  }

  lemma SweepOpsSnoc(batch: seq<nat>, oracle: nat -> Outcome, now: int)
    requires batch != []
    ensures var n := |batch| - 1;
      && SweepOps(batch, oracle, now)[..n] == SweepOps(batch[..n], oracle, now)
      && SweepOps(batch, oracle, now)[n] == Process(batch[n], oracle(n), now)
  {
  }

  lemma RunSweepSnoc(s: Store, batch: seq<nat>, oracle: nat -> Outcome, now: int)
    requires batch != []
    ensures var n := |batch| - 1;
      Run(s, SweepOps(batch, oracle, now))
      == Do(Run(s, SweepOps(batch[..n], oracle, now)), Process(batch[n], oracle(n), now))
  {
    SweepOpsSnoc(batch, oracle, now);
  }

  /** Each listed row is handled exactly once; rows outside the batch are untouched. */
  ghost predicate Handled(start: Queue, end: Queue, batch: seq<nat>, oracle: nat -> Outcome) {
    && end.Keys == start.Keys
    && (forall i | 0 <= i < |batch| :: batch[i] in start && end[batch[i]] == RowAfter(start[batch[i]], oracle(i)))
    && (forall e | e in start && e !in batch :: end[e] == start[e])
  }

  lemma HandledSnoc(start: Queue, mid: Queue, batch: seq<nat>, last: nat, oracle: nat -> Outcome)
    requires Handled(start, mid, batch, oracle) && last in start && last !in batch
    ensures Handled(start, mid[last := RowAfter(mid[last], oracle(|batch|))], batch + [last], oracle)
  {
    var all, end := batch + [last], mid[last := RowAfter(mid[last], oracle(|batch|))];
    assert mid[last] == start[last];
    forall i | 0 <= i < |all| ensures all[i] in start && end[all[i]] == RowAfter(start[all[i]], oracle(i)) {
      if i < |batch| { assert all[i] == batch[i] && batch[i] in batch; }
    }
    forall e | e in start && e !in all ensures end[e] == start[e] {
      assert e !in batch && e != all[|batch|];
    }
  }

  lemma DistinctSnoc(ids: seq<nat>)
    requires Distinct(ids) && ids != []
    ensures var init, last := ids[..|ids| - 1], ids[|ids| - 1];
      && ids == init + [last] && Distinct(init) && last in ids && last !in init
      && forall e | e in init :: e in ids
  {
  }

  lemma {:induction false} SweepEffect(s: Store, batch: seq<nat>, oracle: nat -> Outcome, now: int)
    requires Distinct(batch)
    requires forall e | e in batch :: Processable(s, e)
    ensures Run(s, SweepOps(batch, oracle, now)).devices == s.devices
    ensures Handled(s.events, Run(s, SweepOps(batch, oracle, now)).events, batch, oracle)
  {
    if batch != [] {
      var init, last := batch[..|batch| - 1], batch[|batch| - 1];
      DistinctSnoc(batch);
      RunSweepSnoc(s, batch, oracle, now);
      SweepEffect(s, init, oracle, now);
      SweepEffectSnoc(s, Run(s, SweepOps(init, oracle, now)), init, last, oracle, now);
    }
  }

  lemma SweepEffectSnoc(s: Store, before: Store, init: seq<nat>, last: nat, oracle: nat -> Outcome, now: int)
    requires before.devices == s.devices && Handled(s.events, before.events, init, oracle)
    requires Processable(s, last) && last !in init
    ensures var t := Do(before, Process(last, oracle(|init|), now));
      t.devices == s.devices && Handled(s.events, t.events, init + [last], oracle)
  {
    assert before.events[last] == s.events[last];
    OneProcess(before, last, oracle(|init|), now);
    HandledSnoc(s.events, before.events, init, last, oracle);
  }

  lemma OneProcess(s: Store, e: nat, outcome: Outcome, now: int)
    requires Processable(s, e)
    ensures var t := Do(s, Process(e, outcome, now));
      && t.events == s.events[e := RowAfter(s.events[e], outcome)]
      && t.devices == s.devices
      && t.lots.Keys == s.lots.Keys
  {
  }

  /** The changes a sweep asks of one lot: those of its successes, in list order. */
  function SuccessDeltas(s: Store, batch: seq<nat>, oracle: nat -> Outcome, lot: nat): seq<int>
    requires forall e | e in batch :: Processable(s, e)
  {
    if batch == [] then []
    else
      var n := |batch| - 1;
      assert batch[n] in batch;
      assert Processable(s, batch[n]);
      var row := s.events[batch[n]];
      SuccessDeltas(s, batch[..n], oracle, lot) +
      if oracle(n) == Succeeds && s.devices[row.deviceId].lotId == lot then [EventDelta(row.eventType)] else []
  }

  /** The lots' counters after a sweep are the clamped fold of its successes. */
  lemma {:induction false} SweepCounts(s: Store, batch: seq<nat>, oracle: nat -> Outcome, now: int, lot: nat)
    requires StoreOk(s) && lot in s.lots && s.lots[lot].systemCount >= 0 && Distinct(batch)
    requires forall e | e in batch :: Processable(s, e)
    ensures var t := Run(s, SweepOps(batch, oracle, now));
      && lot in t.lots
      && t.lots[lot].systemCount == Clamped(s.lots[lot].systemCount, SuccessDeltas(s, batch, oracle, lot))
  {
    SweepRequests(s, batch, oracle, now, lot);
    CounterOverRun(s, SweepOps(batch, oracle, now), lot, System);
  }

  lemma {:induction false} SweepRequests(s: Store, batch: seq<nat>, oracle: nat -> Outcome, now: int, lot: nat)
    requires Distinct(batch)
    requires forall e | e in batch :: Processable(s, e)
    ensures Requests(s, SweepOps(batch, oracle, now), lot, System) == SuccessDeltas(s, batch, oracle, lot)
  {
    if batch != [] {
      var n := |batch| - 1;
      var init, last := batch[..n], batch[n];
      assert last in batch && last !in init;
      assert forall e | e in init :: e in batch;
      SweepOpsSnoc(batch, oracle, now);
      SweepRequests(s, init, oracle, now, lot);
      LastRequest(s, init, last, oracle, now, lot);
    }
  }

  lemma LastRequest(s: Store, init: seq<nat>, last: nat, oracle: nat -> Outcome, now: int, lot: nat)
    requires Distinct(init) && last !in init && Processable(s, last)
    requires forall e | e in init :: Processable(s, e)
    ensures Request(Run(s, SweepOps(init, oracle, now)), Process(last, oracle(|init|), now), lot, System)
         == if oracle(|init|) == Succeeds && s.devices[s.events[last].deviceId].lotId == lot
            then [EventDelta(s.events[last].eventType)] else []
  {
    SweepEffect(s, init, oracle, now);
    var before := Run(s, SweepOps(init, oracle, now));
    assert before.events[last] == s.events[last];
  }

  // Attempts.

  /** The sweep never charges a row beyond the cap. */
  lemma SweepRespectsCap(start: Queue, end: Queue, cutoff: int, limit: nat, maxAttempts: nat, batch: seq<nat>,
                         oracle: nat -> Outcome)
    requires IsBatch(start, cutoff, limit, maxAttempts, batch) && Handled(start, end, batch, oracle)
    requires forall e | e in start :: start[e].attempts <= maxAttempts
    ensures forall e | e in end :: end[e].attempts <= maxAttempts
  {
    forall e | e in end ensures end[e].attempts <= maxAttempts {
      if e in batch {
        var i :| 0 <= i < |batch| && batch[i] == e;
        assert end[batch[i]] == RowAfter(start[batch[i]], oracle(i));
      }
    }
  }

  /** But process_event itself does not look at the cap: repeated calls go as far beyond it as one likes. */
  lemma {:induction false} RetriesIgnoreCap(s: Store, e: nat, now: int, n: nat)
    requires Processable(s, e)
    ensures var t := Run(s, seq(n, _ => Process(e, FailsMarked, now)));
      Processable(t, e) && t.events[e].attempts == s.events[e].attempts + n
  {
    if n > 0 {
      var calls := seq(n, _ => Process(e, FailsMarked, now));
      assert calls[..n - 1] == seq(n - 1, _ => Process(e, FailsMarked, now));
      RetriesIgnoreCap(s, e, now, n - 1);
    }
  }

  ghost predicate WithinCap(s: Store, cap: nat) {
    forall e | e in s.events :: s.events[e].attempts <= cap
  }

  /** A failure mark on a row that has used up its attempts. */
  predicate Exceeds(s: Store, op: Op, cap: nat) {
    match op
    case Process(e, outcome, _) => Processable(s, e) && outcome == FailsMarked && s.events[e].attempts >= cap
    case Mark(e, attempts, sets) =>
      e in s.events && (sets || s.events[e].status != Pending) && attempts > cap
    case _ => false
  }

  /** A transaction keeps every row within the cap if and only if it is no such mark. */
  lemma CapKeptIff(s: Store, op: Op, cap: nat)
    requires WithinCap(s, cap)
    ensures WithinCap(Do(s, op), cap) <==> !Exceeds(s, op, cap)
  {
    match op
    case Process(e, _, _) => if Exceeds(s, op, cap) { assert Do(s, op).events[e].attempts > cap; }
    case Mark(e, _, _) => if Exceeds(s, op, cap) { assert Do(s, op).events[e].attempts > cap; }
    case _ =>
  }

  /** After every transaction of the run. */
  ghost predicate AlwaysWithinCap(s: Store, ops: seq<Op>, cap: nat) {
    WithinCap(Run(s, ops), cap) && (ops != [] ==> AlwaysWithinCap(s, ops[..|ops| - 1], cap))
  }

  /** No transaction of the run is such a mark when its turn comes. */
  ghost predicate NoneExceeds(s: Store, ops: seq<Op>, cap: nat) {
    ops != [] ==>
      var n := |ops| - 1;
      NoneExceeds(s, ops[..n], cap) && !Exceeds(Run(s, ops[..n]), ops[n], cap)
  }

  /** So a run stays within the cap all along if and only if no such mark is among its transactions. */
  lemma {:induction false} CapKeptOverRunIff(s: Store, ops: seq<Op>, cap: nat)
    requires WithinCap(s, cap)
    ensures AlwaysWithinCap(s, ops, cap) <==> NoneExceeds(s, ops, cap)
  {
    if ops != [] {
      var n := |ops| - 1;
      CapKeptOverRunIff(s, ops[..n], cap);
      if AlwaysWithinCap(s, ops[..n], cap) {
        CapKeptIff(Run(s, ops[..n]), ops[n], cap);
      }
    }
  }

  // Progress.

  /** How many more failures a row can absorb before the sweep gives up on it. */
  ghost function Weight(queue: Queue, e: nat, maxAttempts: nat): nat {
    if e in queue && Retryable(queue[e], maxAttempts) then maxAttempts - queue[e].attempts else 0
  }

  ghost function Budget(queue: Queue, ids: set<nat>, maxAttempts: nat): nat {
    if ids == {} then 0
    else
      var e :| e in ids;
      Weight(queue, e, maxAttempts) + Budget(queue, ids - {e}, maxAttempts)
  }

  lemma {:induction false} BudgetWithout(queue: Queue, ids: set<nat>, e: nat, maxAttempts: nat)
    requires e in ids
    ensures Budget(queue, ids, maxAttempts)
         == Weight(queue, e, maxAttempts) + Budget(queue, ids - {e}, maxAttempts)
    decreases |ids|
  {
    var f :| f in ids && Budget(queue, ids, maxAttempts)
                         == Weight(queue, f, maxAttempts) + Budget(queue, ids - {f}, maxAttempts);
    if e != f {
      BudgetWithout(queue, ids - {f}, e, maxAttempts);
      BudgetWithout(queue, ids - {e}, f, maxAttempts);
      assert ids - {f} - {e} == ids - {e} - {f};
    }
  }

  lemma {:induction false} BudgetDrops(start: Queue, end: Queue, ids: set<nat>, hit: set<nat>, maxAttempts: nat)
    requires hit <= ids
    requires forall e | e in ids :: Weight(end, e, maxAttempts) <= Weight(start, e, maxAttempts)
    requires forall e | e in hit :: Weight(end, e, maxAttempts) < Weight(start, e, maxAttempts)
    ensures Budget(end, ids, maxAttempts) + |hit| <= Budget(start, ids, maxAttempts)
    decreases |ids|
  {
    if ids != {} {
      var e :| e in ids;
      BudgetWithout(start, ids, e, maxAttempts);
      BudgetWithout(end, ids, e, maxAttempts);
      BudgetDrops(start, end, ids - {e}, hit - {e}, maxAttempts);
    }
  }

  lemma {:induction false} BudgetBound(queue: Queue, ids: set<nat>, maxAttempts: nat)
    ensures Budget(queue, ids, maxAttempts) <= |ids| * maxAttempts
    decreases |ids|
  {
    if ids != {} {
      var e :| e in ids;
      BudgetWithout(queue, ids, e, maxAttempts);
      BudgetBound(queue, ids - {e}, maxAttempts);
      assert |ids| == |ids - {e}| + 1;
    }
  }

  /**
   One tick whose marking succeeds: each picked row was applied or charged one attempt, the rest
   is as before.
   */
  ghost predicate Swept(start: Queue, end: Queue, batch: seq<nat>) {
    && start.Keys == end.Keys
    && (forall e | e in batch ::
          && e in start
          && (end[e] == RowAfter(start[e], Succeeds) || end[e] == RowAfter(start[e], FailsMarked)))
    && (forall e | e in start && e !in batch :: end[e] == start[e])
  }

  /** A sweep in which every failure is marked is such a tick. */
  lemma HandledIsSwept(start: Queue, end: Queue, batch: seq<nat>, oracle: nat -> Outcome)
    requires Handled(start, end, batch, oracle) && forall i: nat :: oracle(i) != FailsUnmarked
    ensures Swept(start, end, batch)
  {
    forall e | e in batch
      ensures e in start && (end[e] == RowAfter(start[e], Succeeds) || end[e] == RowAfter(start[e], FailsMarked))
    {
      var i :| 0 <= i < |batch| && batch[i] == e;
      assert end[batch[i]] == RowAfter(start[batch[i]], oracle(i));
    }
  }

  /** Each tick spends at least min(limit, eligible) of the budget. */
  lemma TickSpends(start: Queue, end: Queue, ids: set<nat>, cutoff: int, limit: nat, maxAttempts: nat, batch: seq<nat>)
    requires IsBatch(start, cutoff, limit, maxAttempts, batch) && Swept(start, end, batch)
    requires forall e | e in batch :: e in ids
    ensures Budget(end, ids, maxAttempts) + |batch| <= Budget(start, ids, maxAttempts)
    ensures |batch| == Min(limit, |EligibleIds(start, cutoff, maxAttempts)|)
    ensures forall e :: Weight(end, e, maxAttempts) <= Weight(start, e, maxAttempts)
  {
    BatchSize(start, cutoff, limit, maxAttempts, batch);
    DistinctCount(batch);
    forall e ensures Weight(end, e, maxAttempts) <= Weight(start, e, maxAttempts) - if e in batch then 1 else 0 {
      TickWeight(start, end, e, cutoff, limit, maxAttempts, batch);
    }
    BudgetDrops(start, end, ids, IdSet(batch), maxAttempts);
  }

  lemma TickWeight(start: Queue, end: Queue, e: nat, cutoff: int, limit: nat, maxAttempts: nat, batch: seq<nat>)
    requires IsBatch(start, cutoff, limit, maxAttempts, batch) && Swept(start, end, batch)
    ensures Weight(end, e, maxAttempts) <= Weight(start, e, maxAttempts) - if e in batch then 1 else 0
  {
  }

  /** One sweep of a longer history: the queue it found, what it picked, the queue it left. */
  datatype Tick = Tick(start: Queue, cutoff: int, batch: seq<nat>, end: Queue)

  ghost predicate TickOk(t: Tick, limit: nat, maxAttempts: nat) {
    IsBatch(t.start, t.cutoff, limit, maxAttempts, t.batch) && Swept(t.start, t.end, t.batch)
  }

  /**
   Between ticks anything may happen to the queue, except that no row at or before `e` may appear
   or become more retryable, and `e` itself is left to the sweep. New arrivals are later than `e`.
   */
  ghost predicate Calm(start: Queue, end: Queue, e: nat) {
    && e in start && e in end && start[e] == end[e]
    && forall f | f in end && end[f].receivedAt <= end[e].receivedAt ::
         f in start && start[f].receivedAt == end[f].receivedAt
  }

  ghost predicate NoReprieve(start: Queue, end: Queue, maxAttempts: nat) {
    forall f | f in start && f in end :: Weight(end, f, maxAttempts) <= Weight(start, f, maxAttempts)
  }

  ghost predicate IdsNotReused(known: Queue, start: Queue, end: Queue) {
    forall f | f in end && f !in start :: f !in known
  }

  ghost predicate Ticking(ts: seq<Tick>, e: nat, limit: nat, maxAttempts: nat) {
    && (forall k | 0 <= k < |ts| :: TickOk(ts[k], limit, maxAttempts))
    && (forall k | 0 < k < |ts| ::
          ts[k - 1].cutoff <= ts[k].cutoff && NoReprieve(ts[k - 1].end, ts[k].start, maxAttempts))
    && (forall k | 0 < k < |ts| && e in ts[k - 1].end :: Calm(ts[k - 1].end, ts[k].start, e))
    && (forall k | 0 < k < |ts| :: IdsNotReused(ts[0].start, ts[k - 1].end, ts[k].start))
  }

  /** Other rows the sweep would take before `e`. */
  ghost function Ahead(queue: Queue, e: nat, maxAttempts: nat): set<nat>
    requires e in queue
  {
    set f | f in queue && f != e && Retryable(queue[f], maxAttempts) && queue[f].receivedAt <= queue[e].receivedAt
  }

  /** As long as `e` has not been picked, every tick so far spent a full batch on rows ahead of it. */
  lemma {:induction false} WaitingSpends(ts: seq<Tick>, e: nat, limit: nat, maxAttempts: nat, k: nat)
    requires k < |ts| && Ticking(ts, e, limit, maxAttempts)
    requires e in ts[0].start && Eligible(ts[0].start[e], ts[0].cutoff, maxAttempts)
    requires forall i | 0 <= i < k :: e !in ts[i].batch
    ensures e in ts[k].start && ts[k].start[e] == ts[0].start[e] && ts[0].cutoff <= ts[k].cutoff
    ensures Ahead(ts[k].start, e, maxAttempts) <= Ahead(ts[0].start, e, maxAttempts)
    ensures Budget(ts[k].start, Ahead(ts[0].start, e, maxAttempts), maxAttempts) + k * limit
         <= Budget(ts[0].start, Ahead(ts[0].start, e, maxAttempts), maxAttempts)
  {
    if k > 0 {
      WaitingSpends(ts, e, limit, maxAttempts, k - 1);
      FullTickAhead(ts[k - 1], ts[k].start, e, limit, maxAttempts, ts[0].start, Ahead(ts[0].start, e, maxAttempts));
      assert k * limit == (k - 1) * limit + limit;
    }
  }

  lemma FullTickSpends(t: Tick, e: nat, limit: nat, maxAttempts: nat, ahead: set<nat>)
    requires TickOk(t, limit, maxAttempts) && e !in t.batch
    requires e in t.start && Eligible(t.start[e], t.cutoff, maxAttempts)
    requires Ahead(t.start, e, maxAttempts) <= ahead
    ensures Budget(t.end, ahead, maxAttempts) + limit <= Budget(t.start, ahead, maxAttempts)
    ensures forall f :: Weight(t.end, f, maxAttempts) <= Weight(t.start, f, maxAttempts)
  {
    forall f | f in t.batch ensures f in ahead {
      assert f in Ahead(t.start, e, maxAttempts);
    }
    TickSpends(t.start, t.end, ahead, t.cutoff, limit, maxAttempts, t.batch);
  }

  lemma FullTickAhead(t: Tick, next: Queue, e: nat, limit: nat, maxAttempts: nat, known: Queue, ahead: set<nat>)
    requires TickOk(t, limit, maxAttempts) && e !in t.batch
    requires e in t.start && Eligible(t.start[e], t.cutoff, maxAttempts)
    requires Calm(t.end, next, e) && NoReprieve(t.end, next, maxAttempts)
    requires IdsNotReused(known, t.end, next) && ahead <= known.Keys
    requires Ahead(t.start, e, maxAttempts) <= ahead
    ensures next[e] == t.start[e]
    ensures Ahead(next, e, maxAttempts) <= ahead
    ensures Budget(next, ahead, maxAttempts) + limit <= Budget(t.start, ahead, maxAttempts)
  {
    FullTickSpends(t, e, limit, maxAttempts, ahead);
    forall f | f in Ahead(next, e, maxAttempts) ensures f in ahead {
      assert f in t.end && Weight(t.end, f, maxAttempts) > 0;
      assert Weight(t.start, f, maxAttempts) > 0;
      assert t.end[f].receivedAt == t.start[f].receivedAt;
      assert f in Ahead(t.start, e, maxAttempts);
    }
    BudgetDrops(t.end, next, ahead, {}, maxAttempts);
  }

  lemma PickedByThen(ts: seq<Tick>, e: nat, limit: nat, maxAttempts: nat, bound: nat)
    requires limit > 0 && Ticking(ts, e, limit, maxAttempts) && bound < |ts|
    requires e in ts[0].start && Eligible(ts[0].start[e], ts[0].cutoff, maxAttempts)
    requires bound == |Ahead(ts[0].start, e, maxAttempts)| * maxAttempts / limit
    ensures exists k | 0 <= k <= bound :: e in ts[k].batch
  {
    var ahead := Ahead(ts[0].start, e, maxAttempts);
    if forall k | 0 <= k <= bound :: e !in ts[k].batch {
      WaitingSpends(ts, e, limit, maxAttempts, bound);
      FullTickSpends(ts[bound], e, limit, maxAttempts, ahead);
      BudgetBound(ts[0].start, ahead, maxAttempts);
      OneMoreBatch(|ahead| * maxAttempts, limit, bound);
      assert false;
    }
  }

  /**
   No starvation by poison events: with `r` rows ahead of it, an eligible event is picked within
   floor(r * maxAttempts / limit) + 1 ticks, even if everything ahead of it fails every time.
   */
  lemma NoStarvation(ts: seq<Tick>, e: nat, limit: nat, maxAttempts: nat, r: nat)
    requires limit > 0 && ts != [] && Ticking(ts, e, limit, maxAttempts)
    requires e in ts[0].start && Eligible(ts[0].start[e], ts[0].cutoff, maxAttempts)
    requires r == |Ahead(ts[0].start, e, maxAttempts)| && |ts| > r * maxAttempts / limit
    ensures exists k | 0 <= k < r * maxAttempts / limit + 1 :: k < |ts| && e in ts[k].batch
  {
    OneMoreBatch(r * maxAttempts, limit, r * maxAttempts / limit);
    PickedByThen(ts, e, limit, maxAttempts, r * maxAttempts / limit);
  }

  lemma OneMoreBatch(total: nat, limit: nat, ticks: nat)
    requires limit > 0 && ticks == total / limit
    ensures ticks * limit + limit > total && ticks >= 0
  {
  }

  /** Without arrivals or reprieves, and with everything stale, repeated ticks drain the queue. */
  ghost predicate Draining(ts: seq<Tick>, limit: nat, maxAttempts: nat) {
    && (forall k | 0 <= k < |ts| :: TickOk(ts[k], limit, maxAttempts))
    && (forall k | 0 < k < |ts| ::
          ts[k - 1].cutoff <= ts[k].cutoff && ts[k].start.Keys <= ts[k - 1].end.Keys
          && NoReprieve(ts[k - 1].end, ts[k].start, maxAttempts))
  }

  function Spent(ts: seq<Tick>, k: nat): nat
    requires k <= |ts|
  {
    if k == 0 then 0 else Spent(ts, k - 1) + |ts[k - 1].batch|
  }

  /** What has been picked so far has been paid for, out of the budget the queue started with. */
  lemma {:induction false} DrainSpends(ts: seq<Tick>, limit: nat, maxAttempts: nat, k: nat)
    requires k < |ts| && Draining(ts, limit, maxAttempts)
    ensures ts[k].start.Keys <= ts[0].start.Keys
    ensures Budget(ts[k].start, ts[0].start.Keys, maxAttempts) + Spent(ts, k)
         <= Budget(ts[0].start, ts[0].start.Keys, maxAttempts)
    ensures |ts[k].batch| == Min(limit, |EligibleIds(ts[k].start, ts[k].cutoff, maxAttempts)|)
  {
    var t := ts[k];
    BatchSize(t.start, t.cutoff, limit, maxAttempts, t.batch);
    if k > 0 {
      DrainSpends(ts, limit, maxAttempts, k - 1);
      TickAndQuiet(ts[k - 1], t.start, ts[0].start.Keys, limit, maxAttempts);
    }
  }

  lemma TickAndQuiet(t: Tick, next: Queue, keys: set<nat>, limit: nat, maxAttempts: nat)
    requires TickOk(t, limit, maxAttempts) && t.start.Keys <= keys
    requires next.Keys <= t.end.Keys && NoReprieve(t.end, next, maxAttempts)
    ensures Budget(next, keys, maxAttempts) + |t.batch| <= Budget(t.start, keys, maxAttempts)
  {
    TickSpends(t.start, t.end, keys, t.cutoff, limit, maxAttempts, t.batch);
    BudgetDrops(t.end, next, keys, {}, maxAttempts);
  }

  lemma {:induction false} SpentAtLeast(ts: seq<Tick>, k: nat)
    requires k <= |ts| && forall i | 0 <= i < k :: ts[i].batch != []
    ensures Spent(ts, k) >= k
  {
    if k > 0 { SpentAtLeast(ts, k - 1); }
  }

  /** Ticks that each find something cost at least as much budget as there are of them. */
  lemma BusyTicksCost(ts: seq<Tick>, limit: nat, maxAttempts: nat, n: nat)
    requires Draining(ts, limit, maxAttempts) && n < |ts|
    requires forall k | 0 <= k <= n :: ts[k].batch != []
    ensures Budget(ts[0].start, ts[0].start.Keys, maxAttempts) > n
  {
    SpentAtLeast(ts, n);
    DrainSpends(ts, limit, maxAttempts, n);
    BatchPaid(ts[n], ts[0].start.Keys, limit, maxAttempts);
  }

  lemma BatchPaid(t: Tick, ids: set<nat>, limit: nat, maxAttempts: nat)
    requires TickOk(t, limit, maxAttempts) && t.start.Keys <= ids
    ensures Budget(t.start, ids, maxAttempts) >= |t.batch|
  {
    TickSpends(t.start, t.end, ids, t.cutoff, limit, maxAttempts, t.batch);
  }

  lemma EmptyBatch(t: Tick, limit: nat, maxAttempts: nat)
    requires TickOk(t, limit, maxAttempts) && limit > 0 && t.batch == []
    ensures EligibleIds(t.start, t.cutoff, maxAttempts) == {}
  {
    BatchSize(t.start, t.cutoff, limit, maxAttempts, t.batch);
  }

  /**
   Within as many ticks as the queue has budget, a tick finds nothing left to do, whatever failed:
   every stale row has been applied or has used up its attempts.
   */
  lemma QueueDrains(ts: seq<Tick>, limit: nat, maxAttempts: nat)
    requires limit > 0 && Draining(ts, limit, maxAttempts)
    requires ts != [] && |ts| > Budget(ts[0].start, ts[0].start.Keys, maxAttempts)
    ensures exists k | 0 <= k <= Budget(ts[0].start, ts[0].start.Keys, maxAttempts) ::
      k < |ts| && EligibleIds(ts[k].start, ts[k].cutoff, maxAttempts) == {}
  {
    var bound := Budget(ts[0].start, ts[0].start.Keys, maxAttempts);
    if k :| 0 <= k <= bound && ts[k].batch == [] {
      EmptyBatch(ts[k], limit, maxAttempts);
    } else {
      BusyTicksCost(ts, limit, maxAttempts, bound);
    }
  }

  // Sweeps with nothing in between.

  ghost predicate Ticked(ts: seq<Tick>, start: Queue, end: Queue, limit: nat, maxAttempts: nat) {
    && (forall k | 0 <= k < |ts| :: TickOk(ts[k], limit, maxAttempts))
    && (forall k | 0 < k < |ts| :: ts[k - 1].end == ts[k].start && ts[k - 1].cutoff <= ts[k].cutoff)
    && if ts == [] then start == end else ts[0].start == start && ts[|ts| - 1].end == end
  }

  lemma TickedSnoc(ts: seq<Tick>, start: Queue, limit: nat, maxAttempts: nat, t: Tick)
    requires Ticked(ts, start, t.start, limit, maxAttempts) && TickOk(t, limit, maxAttempts)
    requires ts != [] ==> ts[|ts| - 1].cutoff <= t.cutoff
    ensures Ticked(ts + [t], start, t.end, limit, maxAttempts)
  {
    var all := ts + [t];
    assert all[|ts|] == t;
    forall k | 0 <= k < |ts|
      ensures all[k] == ts[k] && TickOk(all[k], limit, maxAttempts)
      ensures k > 0 ==> all[k - 1].end == all[k].start && all[k - 1].cutoff <= all[k].cutoff
    {
    }
  }

  lemma TickedInit(ts: seq<Tick>, start: Queue, end: Queue, limit: nat, maxAttempts: nat)
    requires Ticked(ts, start, end, limit, maxAttempts) && ts != []
    ensures Ticked(ts[..|ts| - 1], start, ts[|ts| - 1].start, limit, maxAttempts)
  {
  }

  /** The row was tried: it has been applied, or its attempts have gone up. */
  predicate Tried(before: Event, after: Event) {
    after.status == Processed || after.attempts > before.attempts
  }

  predicate Onward(before: Event, after: Event) {
    before.attempts <= after.attempts && (before.status == Processed ==> after.status == Processed)
  }

  lemma TickOnward(t: Tick, limit: nat, maxAttempts: nat, e: nat)
    requires TickOk(t, limit, maxAttempts) && e in t.start
    ensures e in t.end && Onward(t.start[e], t.end[e])
    ensures e in t.batch ==> Tried(t.start[e], t.end[e])
  {
  }

  lemma {:induction false} TickedOnward(ts: seq<Tick>, start: Queue, end: Queue, limit: nat, maxAttempts: nat, e: nat)
    requires Ticked(ts, start, end, limit, maxAttempts) && e in start
    ensures e in end && Onward(start[e], end[e])
    ensures forall k | 0 <= k < |ts| && e in ts[k].batch :: Tried(start[e], end[e])
  {
    if ts != [] {
      var t := ts[|ts| - 1];
      TickedInit(ts, start, end, limit, maxAttempts);
      TickedOnward(ts[..|ts| - 1], start, t.start, limit, maxAttempts, e);
      TickOnward(t, limit, maxAttempts, e);
      forall k | 0 <= k < |ts| && e in ts[k].batch ensures Tried(start[e], end[e]) {
        if k < |ts| - 1 { assert ts[..|ts| - 1][k] == ts[k]; }
      }
    }
  }

  lemma TickedIsTicking(ts: seq<Tick>, start: Queue, end: Queue, limit: nat, maxAttempts: nat, e: nat)
    requires Ticked(ts, start, end, limit, maxAttempts) && e in start
    ensures Ticking(ts, e, limit, maxAttempts)
  {
  }

  /** Within the bound of NoStarvation, successive sweeps have tried an eligible event. */
  lemma TickedTries(ts: seq<Tick>, start: Queue, end: Queue, limit: nat, maxAttempts: nat, e: nat)
    requires limit > 0 && ts != [] && Ticked(ts, start, end, limit, maxAttempts)
    requires e in start && Eligible(start[e], ts[0].cutoff, maxAttempts)
    requires |ts| > |Ahead(start, e, maxAttempts)| * maxAttempts / limit
    ensures e in end && Tried(start[e], end[e])
  {
    TickedIsTicking(ts, start, end, limit, maxAttempts, e);
    NoStarvation(ts, e, limit, maxAttempts, |Ahead(start, e, maxAttempts)|);
    TickedOnward(ts, start, end, limit, maxAttempts, e);
  }

  ghost predicate AllStale(queue: Queue, cutoff: int, maxAttempts: nat) {
    forall e | e in queue && Retryable(queue[e], maxAttempts) :: queue[e].receivedAt < cutoff
  }

  ghost predicate Drained(queue: Queue, maxAttempts: nat) {
    forall e | e in queue :: !Retryable(queue[e], maxAttempts)
  }

  /** A tick spends budget as long as there is any. */
  lemma TickDrains(t: Tick, ids: set<nat>, limit: nat, maxAttempts: nat)
    requires limit > 0 && TickOk(t, limit, maxAttempts)
    requires AllStale(t.start, t.cutoff, maxAttempts) && t.start.Keys == ids
    ensures Drained(t.end, maxAttempts) || Budget(t.end, ids, maxAttempts) < Budget(t.start, ids, maxAttempts)
    ensures Drained(t.start, maxAttempts) ==> Drained(t.end, maxAttempts)
  {
    TickSpends(t.start, t.end, ids, t.cutoff, limit, maxAttempts, t.batch);
    forall e | e in t.end && Retryable(t.end[e], maxAttempts) ensures Retryable(t.start[e], maxAttempts) {
      TickRetryable(t, limit, maxAttempts, e);
    }
    if !Drained(t.end, maxAttempts) {
      var e :| e in t.end && Retryable(t.end[e], maxAttempts);
      assert e in EligibleIds(t.start, t.cutoff, maxAttempts);
    }
  }

  /** No tick makes a row retryable, nor changes when it arrived. */
  lemma TickRetryable(t: Tick, limit: nat, maxAttempts: nat, e: nat)
    requires TickOk(t, limit, maxAttempts) && e in t.end
    ensures e in t.start && t.start[e].receivedAt == t.end[e].receivedAt
    ensures Retryable(t.end[e], maxAttempts) ==> Retryable(t.start[e], maxAttempts)
  {
  }

  lemma TickStale(t: Tick, cutoff: int, limit: nat, maxAttempts: nat)
    requires TickOk(t, limit, maxAttempts) && AllStale(t.start, cutoff, maxAttempts)
    ensures AllStale(t.end, cutoff, maxAttempts)
  {
    forall e | e in t.end && Retryable(t.end[e], maxAttempts) ensures t.end[e].receivedAt < cutoff {
      TickRetryable(t, limit, maxAttempts, e);
    }
  }

  lemma {:induction false} TickedSpends(ts: seq<Tick>, start: Queue, end: Queue, limit: nat, maxAttempts: nat)
    requires limit > 0 && Ticked(ts, start, end, limit, maxAttempts)
    requires ts != [] ==> AllStale(start, ts[0].cutoff, maxAttempts)
    ensures end.Keys == start.Keys && (ts != [] ==> AllStale(end, ts[|ts| - 1].cutoff, maxAttempts))
    ensures Drained(end, maxAttempts)
         || Budget(end, start.Keys, maxAttempts) + |ts| <= Budget(start, start.Keys, maxAttempts)
  {
    if ts != [] {
      var init, t := ts[..|ts| - 1], ts[|ts| - 1];
      TickedInit(ts, start, end, limit, maxAttempts);
      TickedSpends(init, start, t.start, limit, maxAttempts);
      assert AllStale(t.start, t.cutoff, maxAttempts);
      TickDrains(t, start.Keys, limit, maxAttempts);
      TickStale(t, t.cutoff, limit, maxAttempts);
    }
  }

  /** Successive sweeps of a stale queue drain it within as many ticks as it has budget. */
  lemma TickedDrains(ts: seq<Tick>, start: Queue, end: Queue, limit: nat, maxAttempts: nat)
    requires limit > 0 && Ticked(ts, start, end, limit, maxAttempts)
    requires |ts| > Budget(start, start.Keys, maxAttempts) && AllStale(start, ts[0].cutoff, maxAttempts)
    ensures Drained(end, maxAttempts)
  {
    TickedSpends(ts, start, end, limit, maxAttempts);
  }
}
