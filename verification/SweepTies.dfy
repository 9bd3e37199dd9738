/** Sweeps of one queue: they can deadlock if and only if two rows they list arrived at the same instant. */
module SweepTies {
  import opened Protocol
  import opened Serializability
  import opened Sweep
  import opened SweepRings
  import opened SweepDeadlocks

  /** Two listed rows were received at the same instant. */
  ghost predicate Tied(queue: Queue, list: seq<nat>) {
    exists i, j | 0 <= i < j < |list| ::
      list[i] in queue && list[j] in queue && queue[list[i]].receivedAt == queue[list[j]].receivedAt
  }

  ghost predicate ListsTie(queue: Queue, cutoff: int, limit: nat, maxAttempts: nat) {
    exists a :: IsBatch(queue, cutoff, limit, maxAttempts, a) && Tied(queue, a)
  }

  lemma PrecedesArrival(queue: Queue, cutoff: int, limit: nat, maxAttempts: nat, list: seq<nat>, e: nat, f: nat)
    requires IsBatch(queue, cutoff, limit, maxAttempts, list) && Precedes(list, e, f)
    ensures e in queue && f in queue && queue[e].receivedAt <= queue[f].receivedAt
  {
    assert e in list && f in list;
  }

  lemma {:induction false} RowsArrive(queue: Queue, cutoff: int, limit: nat, maxAttempts: nat, lists: Lists,
                                      us: seq<nat>, es: seq<nat>, i: nat, j: nat)
    requires OpposedRing(lists, us, es) && i <= j < |es|
    requires forall u | u in lists :: IsBatch(queue, cutoff, limit, maxAttempts, lists[u])
    ensures es[i] in queue && es[j] in queue && queue[es[i]].receivedAt <= queue[es[j]].receivedAt
  {
    PrecedesArrival(queue, cutoff, limit, maxAttempts, lists[us[j]], es[j], es[Succ(j, |us|)]);
    if i < j {
      RowsArrive(queue, cutoff, limit, maxAttempts, lists, us, es, i, j - 1);
      assert Succ(j - 1, |us|) == j;
      PrecedesArrival(queue, cutoff, limit, maxAttempts, lists[us[j - 1]], es[j - 1], es[j]);
    }
  }

  /** Around a ring of rows in order of arrival, all have arrived at the same instant. */
  lemma OpposedTie(queue: Queue, cutoff: int, limit: nat, maxAttempts: nat, lists: Lists, us: seq<nat>, es: seq<nat>)
    requires OpposedRing(lists, us, es)
    requires forall u | u in lists :: IsBatch(queue, cutoff, limit, maxAttempts, lists[u])
    ensures ListsTie(queue, cutoff, limit, maxAttempts)
  {
    var n := |us| - 1;
    RowsArrive(queue, cutoff, limit, maxAttempts, lists, us, es, 1, n);
    RowsArrive(queue, cutoff, limit, maxAttempts, lists, us, es, 0, 1);
    assert Succ(n, |us|) == 0 && Succ(0, |us|) == 1;
    PrecedesArrival(queue, cutoff, limit, maxAttempts, lists[us[n]], es[n], es[0]);
    assert Precedes(lists[us[0]], es[0], es[1]);
    var i, j :| 0 <= i < j < |lists[us[0]]| && lists[us[0]][i] == es[0] && lists[us[0]][j] == es[1];
    assert Tied(queue, lists[us[0]]);
  }

  function Swapped(list: seq<nat>, i: nat): seq<nat>
    requires i + 1 < |list|
  {
    list[i := list[i + 1]][i + 1 := list[i]]
  }

  /** Of two tied neighbours the query may give either one first. */
  lemma SwappedIsBatch(queue: Queue, cutoff: int, limit: nat, maxAttempts: nat, a: seq<nat>, i: nat)
    requires IsBatch(queue, cutoff, limit, maxAttempts, a) && i + 1 < |a|
    requires a[i] in queue && a[i + 1] in queue && queue[a[i]].receivedAt == queue[a[i + 1]].receivedAt
    ensures IsBatch(queue, cutoff, limit, maxAttempts, Swapped(a, i))
  {
    var b := Swapped(a, i);
    forall e ensures e in b <==> e in a {
      SwapHas(a, i, e);
    }
  }

  lemma SwapPrecedes(a: seq<nat>, i: nat)
    requires i + 1 < |a|
    ensures Precedes(a, a[i], a[i + 1]) && Precedes(Swapped(a, i), a[i + 1], a[i])
  {
    assert Swapped(a, i)[i] == a[i + 1] && Swapped(a, i)[i + 1] == a[i];
  }

  lemma SwapHas(list: seq<nat>, i: nat, e: nat)
    requires i + 1 < |list|
    ensures e in Swapped(list, i) <==> e in list
  {
    assert Swapped(list, i)[i] == list[i + 1] && Swapped(list, i)[i + 1] == list[i];
    assert forall m | 0 <= m < |list| && m != i && m != i + 1 :: Swapped(list, i)[m] == list[m];
  }

  lemma TiedNeighbours(queue: Queue, cutoff: int, limit: nat, maxAttempts: nat, a: seq<nat>) returns (i: nat)
    requires IsBatch(queue, cutoff, limit, maxAttempts, a) && Tied(queue, a)
    ensures i + 1 < |a| && a[i] in queue && a[i + 1] in queue
    ensures queue[a[i]].receivedAt == queue[a[i + 1]].receivedAt
  {
    var j;
    i, j :| 0 <= i < j < |a| && a[i] in queue && a[j] in queue && queue[a[i]].receivedAt == queue[a[j]].receivedAt;
    assert a[i + 1] in a;
  }

  /** Lists that the query can give to each of the sweeps, and over which they can deadlock. */
  ghost predicate DeadlockListed(s: State, sweeps: set<nat>, lists: Lists, cutoff: int, limit: nat, maxAttempts: nat) {
    && lists.Keys == sweeps && CanDeadlock(s, lists)
    && forall u | u in lists :: IsBatch(s.store.events, cutoff, limit, maxAttempts, lists[u])
  }

  lemma ListsReady(s: State, sweeps: set<nat>, lists: Lists, x: nat, cutoff: int, limit: nat, maxAttempts: nat)
    requires Fresh(s) && sweeps <= s.workers.Keys && x in s.workers && x !in sweeps && lists.Keys == sweeps
    requires forall u | u in lists :: IsBatch(s.store.events, cutoff, limit, maxAttempts, lists[u])
    ensures SweepsReady(s, lists, x)
  {
  }

  /**
   Two sweeps or more of one queue can come to a deadlock if and only if two rows they list were received
   at the same instant.
   */
  lemma DeadlockIffTie(s: State, sweeps: set<nat>, w: nat, v: nat, x: nat, cutoff: int, limit: nat, maxAttempts: nat)
    requires Fresh(s) && sweeps <= s.workers.Keys && w in sweeps && v in sweeps && w != v
    requires x in s.workers && x !in sweeps
    ensures (exists lists :: DeadlockListed(s, sweeps, lists, cutoff, limit, maxAttempts))
       <==> ListsTie(s.store.events, cutoff, limit, maxAttempts)
  {
    var queue := s.store.events;
    if lists :| DeadlockListed(s, sweeps, lists, cutoff, limit, maxAttempts) {
      ListsReady(s, sweeps, lists, x, cutoff, limit, maxAttempts);
      DeadlockIffOpposed(s, lists, x);
      var us, es :| OpposedRing(lists, us, es);
      OpposedTie(queue, cutoff, limit, maxAttempts, lists, us, es);
    }
    if ListsTie(queue, cutoff, limit, maxAttempts) {
      var a :| IsBatch(queue, cutoff, limit, maxAttempts, a) && Tied(queue, a);
      TieDeadlocks(s, sweeps, w, v, x, cutoff, limit, maxAttempts, a);
    }
  }

  /** The lists of a deadlock: one sweep lists the tied rows the other way round. */
  function SwapFor(sweeps: set<nat>, v: nat, a: seq<nat>, i: nat): (lists: Lists)
    requires i + 1 < |a|
    ensures lists.Keys == sweeps
  {
    map u | u in sweeps :: if u == v then Swapped(a, i) else a
  }

  lemma SwapListed(queue: Queue, sweeps: set<nat>, v: nat, cutoff: int, limit: nat, maxAttempts: nat,
                   a: seq<nat>, i: nat)
    requires i + 1 < |a|
    requires IsBatch(queue, cutoff, limit, maxAttempts, a) && IsBatch(queue, cutoff, limit, maxAttempts, Swapped(a, i))
    ensures forall u | u in SwapFor(sweeps, v, a, i) ::
      IsBatch(queue, cutoff, limit, maxAttempts, SwapFor(sweeps, v, a, i)[u])
  {
  }

  lemma TieDeadlocks(s: State, sweeps: set<nat>, w: nat, v: nat, x: nat, cutoff: int, limit: nat, maxAttempts: nat,
                     a: seq<nat>)
    requires Fresh(s) && sweeps <= s.workers.Keys && w in sweeps && v in sweeps && w != v
    requires x in s.workers && x !in sweeps
    requires IsBatch(s.store.events, cutoff, limit, maxAttempts, a) && Tied(s.store.events, a)
    ensures exists lists :: DeadlockListed(s, sweeps, lists, cutoff, limit, maxAttempts)
  {
    var i := TiedNeighbours(s.store.events, cutoff, limit, maxAttempts, a);
    var lists := SwapFor(sweeps, v, a, i);
    SwappedIsBatch(s.store.events, cutoff, limit, maxAttempts, a, i);
    SwapListed(s.store.events, sweeps, v, cutoff, limit, maxAttempts, a, i);
    SwapOpposes(lists, w, v, a, i);
    ListsReady(s, sweeps, lists, x, cutoff, limit, maxAttempts);
    DeadlockIffOpposed(s, lists, x);
    assert DeadlockListed(s, sweeps, lists, cutoff, limit, maxAttempts);
  }

  lemma SwapOpposes(lists: Lists, w: nat, v: nat, a: seq<nat>, i: nat)
    requires w in lists && v in lists && w != v && i + 1 < |a| && a[i] != a[i + 1]
    requires lists[w] == a && lists[v] == Swapped(a, i)
    ensures Opposed(lists)
  {
    SwapPrecedes(a, i);
    assert OpposedRing(lists, [w, v], [a[i], a[i + 1]]);
  }
}
