/**
 Lists of overlapping sweeps that are opposed in a circle. Any number of sweeps, begun at any time, come
 to wait for each other in a circle only if their lists are so opposed.
 */
module SweepRings {
  import opened ParkingStore
  import opened Operations
  import opened Protocol
  import opened Serializability
  import opened Sweep
  import opened Deadlock

  /** What each sweep works through. */
  type Lists = map<nat, seq<nat>>

  predicate Precedes(list: seq<nat>, e: nat, f: nat) {
    exists i, j :: 0 <= i < j < |list| && list[i] == e && list[j] == f
  }

  /** The one after `i`, around a circle of `n`. */
  function Succ(i: nat, n: nat): nat {
    if i + 1 == n then 0 else i + 1
  }

  /** Each of the sweeps `us` lists its own row of `es` before the next one's. */
  ghost predicate OpposedRing(lists: Lists, us: seq<nat>, es: seq<nat>) {
    && |us| == |es| >= 2 && Distinct(us) && Distinct(es)
    && forall i | 0 <= i < |us| :: us[i] in lists && Precedes(lists[us[i]], es[i], es[Succ(i, |us|)])
  }

  ghost predicate Opposed(lists: Lists) {
    exists us, es :: OpposedRing(lists, us, es)
  }

  /** Sweeps begin with the lists given for them; when, and how often, is left open. */
  predicate StartsFrom(schedule: seq<Step>, lists: Lists) {
    forall step | step in schedule && step.StartSweep? :: step.w in lists && step.batch == lists[step.w]
  }

  ghost predicate CanDeadlock(s: State, lists: Lists) {
    exists schedule, cycle :: StartsFrom(schedule, lists) && WaitCycle(After(s, schedule), cycle)
  }

  /** Nobody does anything yet, and all listed rows are to be applied; `x` does not sweep. */
  ghost predicate SweepsReady(s: State, lists: Lists, x: nat) {
    && Fresh(s) && lists.Keys <= s.workers.Keys && x in s.workers && x !in lists
    && forall u, e | u in lists && e in lists[u] :: Waiting(s.store, e)
  }

  // A deadlock takes opposed lists.

  /** How far a worker has come with its list, and that it keeps only rows it has passed. */
  predicate OnList(worker: Worker, list: seq<nat>) {
    && |worker.todo| <= |list|
    && var n := |list| - |worker.todo|;
       && worker.todo == list[n..]
       && (forall k | k in worker.kept :: k in list[..n])
       && (worker.pc.WantEvent? && (worker.kept != {} || worker.todo != []) ==>
             n > 0 && list[n - 1] == worker.pc.e && forall k | k in worker.kept :: k in list[..n - 1])
  }

  /** If the step starts a sweep of this worker, it is one through the list. */
  predicate StartsAs(step: Step, u: nat, list: seq<nat>) {
    step.StartSweep? && step.w == u ==> step.batch == list
  }

  lemma MovedOnList(store: Store, worker: Worker, step: Step, list: seq<nat>)
    requires Ready(store, worker, step) && OnList(worker, list) && (step.StartSweep? ==> step.batch == list)
    ensures OnList(Moved(store, worker, step), list)
  {
    var n := |list| - |worker.todo|;
    if step.NextListed? {
      assert list[n..][1..] == list[n + 1..];
      assert list[..n + 1][..n] == list[..n];
    } else if step.LockEvent? && worker.todo != [] {
      assert list[..n] == list[..n - 1] + [list[n - 1]];
    } else if step.StartSweep? {
      assert list[0..] == list;
    }
  }

  function ListOf(lists: Lists, u: nat): seq<nat> {
    if u in lists then lists[u] else []
  }

  ghost predicate OnLists(s: State, lists: Lists) {
    forall u | u in s.workers :: OnList(s.workers[u], ListOf(lists, u))
  }

  lemma FreshOnLists(s: State, lists: Lists)
    requires Fresh(s)
    ensures OnLists(s, lists)
  {
    forall u | u in s.workers { IdleOnList(ListOf(lists, u)); }
  }

  lemma IdleOnList(list: seq<nat>)
    ensures OnList(IDLE, list)
  {
  }

  lemma TakeOnList(s: State, step: Step, u: nat, list: seq<nat>)
    requires u in Take(s, step).workers && u in s.workers && OnList(s.workers[u], list) && StartsAs(step, u, list)
    ensures OnList(Take(s, step).workers[u], list)
  {
    TakenWorker(s, step, u);
    IdleOnList(list);
    if Moves(s, step, u) {
      MovedOnList(s.store, s.workers[u], step, list);
    }
  }

  lemma TakeOnLists(s: State, step: Step, lists: Lists)
    requires OnLists(s, lists) && (step.StartSweep? ==> step.w in lists && step.batch == lists[step.w])
    ensures OnLists(Take(s, step), lists)
  {
    forall u | u in Take(s, step).workers ensures OnList(Take(s, step).workers[u], ListOf(lists, u)) {
      TakenWorker(s, step, u);
      TakeOnList(s, step, u, ListOf(lists, u));
    }
  }

  lemma {:induction false} StayOnLists(s: State, schedule: seq<Step>, lists: Lists)
    requires OnLists(s, lists) && StartsFrom(schedule, lists)
    ensures OnLists(After(s, schedule), lists)
  {
    if schedule != [] {
      var init, step := schedule[..|schedule| - 1], schedule[|schedule| - 1];
      assert step in schedule;
      assert forall other | other in init :: other in schedule;
      StayOnLists(s, init, lists);
      TakeOnLists(After(s, init), step, lists);
    }
  }

  /** A sweep that keeps a row and waits for another one lists them in that order. */
  lemma KeptPrecedes(worker: Worker, list: seq<nat>, k: nat)
    requires OnList(worker, list) && worker.pc.WantEvent? && k in worker.kept
    ensures Precedes(list, k, worker.pc.e)
  {
    var n := |list| - |worker.todo|;
    assert k in list[..n - 1];
    var i :| 0 <= i < n - 1 && list[i] == k;
    assert list[n - 1] == worker.pc.e;
  }

  /** A ring in which nobody occurs twice. */
  ghost predicate SimpleRing(s: State, ring: seq<nat>) {
    SweepRing(s, ring) && Distinct(ring[..|ring| - 1])
  }

  lemma Shortcut(s: State, ring: seq<nat>) returns (simple: seq<nat>)
    requires SweepRing(s, ring)
    ensures SimpleRing(s, simple)
    decreases |ring|
  {
    var n := |ring| - 1;
    if i, j :| 0 <= i < j < n && ring[i] == ring[j] {
      InnerRing(s, ring, i, j);
      simple := Shortcut(s, ring[i..j + 1]);
    } else {
      simple := ring;
    }
  }

  lemma InnerRing(s: State, ring: seq<nat>, i: nat, j: nat)
    requires SweepRing(s, ring) && i < j < |ring| && ring[i] == ring[j]
    ensures SweepRing(s, ring[i..j + 1])
  {
    var inner := ring[i..j + 1];
    forall k | 0 <= k < |inner| - 1 ensures WantsKept(s, inner[k], inner[k + 1]) {
      assert WantsKept(s, ring[i + k], ring[i + k + 1]);
    }
  }

  /** The sweeps of a ring, each after the one that waits for it. */
  function Keepers(ring: seq<nat>): (us: seq<nat>)
    requires ring != []
    ensures |us| == |ring| - 1
  {
    ring[1..]
  }

  function RowWanted(s: State, v: nat): nat {
    if KeepsAndWaits(s, v) then s.workers[v].pc.e else 0
  }

  /** The rows they are waited for. */
  function Wanted(s: State, ring: seq<nat>): (es: seq<nat>)
    requires ring != []
    ensures |es| == |ring| - 1
  {
    seq(|ring| - 1, i requires 0 <= i < |ring| - 1 => RowWanted(s, ring[i]))
  }

  lemma RingMember(s: State, ring: seq<nat>, i: nat)
    requires SweepRing(s, ring) && i < |ring| - 1
    ensures WantsKept(s, ring[i], ring[i + 1]) && KeepsAndWaits(s, ring[i])
  {
  }

  lemma KeepersDistinct(s: State, ring: seq<nat>)
    requires SimpleRing(s, ring)
    ensures Distinct(Keepers(ring)) && |ring| > 2
  {
    var us, init := Keepers(ring), ring[..|ring| - 1];
    RingMember(s, ring, 0);
    forall i, j | 0 <= i < j < |us| ensures us[i] != us[j] {
      if j + 1 == |us| {
        assert us[j] == init[0] && us[i] == init[i + 1];
      } else {
        assert us[j] == init[j + 1] && us[i] == init[i + 1];
      }
    }
  }

  /** No row is kept by two sweeps, so the rows differ as the sweeps do. */
  lemma WantedDistinct(s: State, ring: seq<nat>)
    requires Inv(s) && SimpleRing(s, ring)
    ensures Distinct(Wanted(s, ring))
  {
    KeepersDistinct(s, ring);
    var us, es := Keepers(ring), Wanted(s, ring);
    forall i, j | 0 <= i < j < |es| ensures es[i] != es[j] {
      RingMember(s, ring, i);
      RingMember(s, ring, j);
      assert us[i] == ring[i + 1] && us[j] == ring[j + 1];
      assert HoldsEvent(s.workers[us[i]], es[i]) && HoldsEvent(s.workers[us[j]], es[j]);
    }
  }

  lemma KeeperListed(s: State, lists: Lists, v: nat, u: nat)
    requires OnLists(s, lists) && WantsKept(s, v, u) && KeepsAndWaits(s, u)
    ensures u in lists && Precedes(lists[u], s.workers[v].pc.e, s.workers[u].pc.e)
  {
    assert OnList(s.workers[u], ListOf(lists, u));
    KeptPrecedes(s.workers[u], ListOf(lists, u), s.workers[v].pc.e);
  }

  lemma MemberOpposes(s: State, lists: Lists, ring: seq<nat>, i: nat)
    requires OnLists(s, lists) && SweepRing(s, ring) && i < |ring| - 1
    ensures ring[i + 1] in lists
    ensures Precedes(lists[ring[i + 1]], RowWanted(s, ring[i]), RowWanted(s, ring[Succ(i, |ring| - 1)]))
  {
    var next := Succ(i, |ring| - 1);
    assert ring[next] == ring[i + 1];
    RingMember(s, ring, i);
    RingMember(s, ring, next);
    KeeperListed(s, lists, ring[i], ring[next]);
  }

  lemma RingOpposes(s: State, lists: Lists, ring: seq<nat>)
    requires Inv(s) && OnLists(s, lists) && SimpleRing(s, ring)
    ensures Opposed(lists)
  {
    var us, es := Keepers(ring), Wanted(s, ring);
    KeepersDistinct(s, ring);
    WantedDistinct(s, ring);
    forall i | 0 <= i < |us| ensures us[i] in lists && Precedes(lists[us[i]], es[i], es[Succ(i, |us|)]) {
      MemberOpposes(s, lists, ring, i);
    }
    assert OpposedRing(lists, us, es);
  }

  lemma DeadlockOpposes(s: State, lists: Lists, schedule: seq<Step>, cycle: seq<nat>)
    requires Fresh(s) && StartsFrom(schedule, lists) && WaitCycle(After(s, schedule), cycle)
    ensures Opposed(lists)
  {
    FreshInv(s);
    FreshOnLists(s, lists);
    Serializable(s, schedule);
    StayOnLists(s, schedule, lists);
    CycleIffRing(After(s, schedule), cycle);
    var ring := Shortcut(After(s, schedule), cycle);
    RingOpposes(After(s, schedule), lists, ring);
  }
}
