/**
 Sweeps list rows by time of arrival. As long as no two rows arrive at the same instant, that is one
 order for all sweeps of a schedule, and they never wait for each other in a circle.
 */
module SweepOrders {
  import opened ParkingStore
  import opened Operations
  import opened Ledger
  import opened Protocol
  import opened Serializability
  import opened Accounting
  import opened Sweep
  import opened Deadlock

  function ArrivedIn(queue: Queue): map<nat, int> {
    map e | e in queue :: queue[e].receivedAt
  }

  /** When each event arrived that was stored at some time of the schedule. */
  ghost function Arrivals(s: State, schedule: seq<Step>): map<nat, int> {
    if schedule == [] then ArrivedIn(s.store.events)
    else Arrivals(s, schedule[..|schedule| - 1]) + ArrivedIn(After(s, schedule).store.events)
  }

  /** A step stores new events under new ids only, and never changes when one arrived. */
  ghost predicate ArrivalsKept(s: Store, t: Store) {
    && s.nextEvent <= t.nextEvent
    && forall e | e in t.events ::
         e < t.nextEvent && (e < s.nextEvent ==> e in s.events && t.events[e].receivedAt == s.events[e].receivedAt)
  }

  lemma EnvArrivals(s: State, op: Op)
    requires ReferencesOk(s.store) && EnvFree(s, op) && op != DailyReset
    ensures ArrivalsKept(s.store, Do(s.store, op))
  {
  }

  lemma TakeArrivals(s: State, step: Step)
    requires Inv(s) && step != Env(DailyReset)
    ensures ArrivalsKept(s.store, Take(s, step).store)
  {
    if Enabled(s, step) {
      if step.Env? {
        EnvArrivals(s, step.op);
      } else if !step.Crash? {
        EventsAfter(s.store, s.workers[step.w], step);
      }
    }
  }

  lemma {:induction false} ArrivalsBelow(s: State, schedule: seq<Step>)
    requires Inv(s) && Env(DailyReset) !in schedule
    ensures forall e | e in Arrivals(s, schedule) :: e < After(s, schedule).store.nextEvent
  {
    if schedule != [] {
      var init := schedule[..|schedule| - 1];
      ArrivalsBelow(s, init);
      Serializable(s, init);
      TakeArrivals(After(s, init), schedule[|schedule| - 1]);
    }
  }

  lemma {:induction false} ArrivalsNow(s: State, schedule: seq<Step>)
    requires Inv(s)
    ensures forall e | e in After(s, schedule).store.events ::
      e in Arrivals(s, schedule) && Arrivals(s, schedule)[e] == After(s, schedule).store.events[e].receivedAt
  {
  }

  ghost predicate Extends(late: map<nat, int>, early: map<nat, int>) {
    forall e | e in early :: e in late && late[e] == early[e]
  }

  lemma OneStepExtends(s: State, schedule: seq<Step>)
    requires Inv(s) && Env(DailyReset) !in schedule && schedule != []
    ensures Extends(Arrivals(s, schedule), Arrivals(s, schedule[..|schedule| - 1]))
  {
    var init := schedule[..|schedule| - 1];
    Serializable(s, init);
    TakeArrivals(After(s, init), schedule[|schedule| - 1]);
    ArrivalsBelow(s, init);
    ArrivalsNow(s, init);
  }

  lemma {:induction false} ArrivalsExtend(s: State, schedule: seq<Step>, k: nat)
    requires Inv(s) && Env(DailyReset) !in schedule && k <= |schedule|
    ensures Extends(Arrivals(s, schedule), Arrivals(s, schedule[..k]))
    decreases |schedule|
  {
    if k == |schedule| {
      assert schedule[..k] == schedule;
    } else {
      var init := schedule[..|schedule| - 1];
      ArrivalsExtend(s, init, k);
      assert init[..k] == schedule[..k];
      OneStepExtends(s, schedule);
    }
  }

  /** Every sweep starts with a list that the query can give at that moment. */
  ghost predicate SweepsListQueue(s: State, schedule: seq<Step>, limit: nat, maxAttempts: nat) {
    forall k | 0 <= k < |schedule| && schedule[k].StartSweep? ::
      exists cutoff :: IsBatch(After(s, schedule[..k]).store.events, cutoff, limit, maxAttempts, schedule[k].batch)
  }

  ghost predicate AllDistinct(arrivals: map<nat, int>) {
    forall e, f | e in arrivals && f in arrivals && arrivals[e] == arrivals[f] :: e == f
  }

  function RankBy(arrivals: map<nat, int>): nat -> int {
    e => if e in arrivals then arrivals[e] else 0
  }

  lemma ListAscends(queue: Queue, cutoff: int, limit: nat, maxAttempts: nat, batch: seq<nat>, arrivals: map<nat, int>)
    requires IsBatch(queue, cutoff, limit, maxAttempts, batch)
    requires Extends(arrivals, ArrivedIn(queue)) && AllDistinct(arrivals)
    ensures Ascends(batch, RankBy(arrivals))
  {
    forall e | e in queue ensures RankBy(arrivals)(e) == queue[e].receivedAt && e in arrivals {
      assert e in ArrivedIn(queue);
    }
    ArrivalOrders(queue, cutoff, limit, maxAttempts, batch, RankBy(arrivals));
  }

  lemma AllListsAscend(s: State, schedule: seq<Step>, limit: nat, maxAttempts: nat)
    requires Inv(s) && Env(DailyReset) !in schedule
    requires SweepsListQueue(s, schedule, limit, maxAttempts) && AllDistinct(Arrivals(s, schedule))
    ensures forall step | step in schedule :: ListsAscend(step, RankBy(Arrivals(s, schedule)))
  {
    forall k | 0 <= k < |schedule| && schedule[k].StartSweep?
      ensures Ascends(schedule[k].batch, RankBy(Arrivals(s, schedule)))
    {
      var queue := After(s, schedule[..k]).store.events;
      var cutoff :| IsBatch(queue, cutoff, limit, maxAttempts, schedule[k].batch);
      ArrivalsExtend(s, schedule, k);
      ArrivalsNow(s, schedule[..k]);
      ListAscends(queue, cutoff, limit, maxAttempts, schedule[k].batch, Arrivals(s, schedule));
    }
  }

  /**
   Sweeps that list the queue as they find it never deadlock while no two rows arrive at the same
   instant: no reachable state has a wait cycle, and whoever waits, waits in the end for somebody who can go
   forward.
   */
  lemma DistinctArrivalsNoDeadlock(s: State, schedule: seq<Step>, limit: nat, maxAttempts: nat)
    requires Fresh(s) && Env(DailyReset) !in schedule
    requires SweepsListQueue(s, schedule, limit, maxAttempts) && AllDistinct(Arrivals(s, schedule))
    ensures forall cycle :: !WaitCycle(After(s, schedule), cycle)
    ensures forall v | v in s.workers && Blocked(After(s, schedule), v) ::
      exists chain, step :: Unblocks(After(s, schedule), v, chain, step)
  {
    FreshInv(s);
    AllListsAscend(s, schedule, limit, maxAttempts);
    DeadlockFree(s, schedule, RankBy(Arrivals(s, schedule)));
  }
}
