/**
 Overlapping sweeps, any number of them, begun at any time: they can come to wait for each other in a
 circle if and only if their lists are opposed in a circle.
 */
module SweepDeadlocks {
  import opened ParkingStore
  import opened Operations
  import opened Protocol
  import opened Serializability
  import opened Sweep
  import opened Deadlock
  import opened Overlaps
  import opened SweepRings
  import opened SweepMoves

  // All sweeps of the ring begin.

  /** The state in which the sweeps `us` have just begun. */
  function Begun(s: State, lists: Lists, us: seq<nat>): State {
    s.(workers := map u | u in s.workers ::
         if u in us && u in lists then Worker(Idle, lists[u], {}) else s.workers[u])
  }

  lemma BegunInv(s: State, lists: Lists, us: seq<nat>)
    requires Fresh(s)
    ensures Inv(Begun(s, lists, us))
  {
  }

  lemma BeginsOne(s: State, lists: Lists, us: seq<nat>, u: nat)
    requires Fresh(s) && u in s.workers && u in lists && u !in us
    ensures Take(Begun(s, lists, us), StartSweep(u, lists[u])) == Begun(s, lists, us + [u])
  {
    var t := Begun(s, lists, us);
    BegunInv(s, lists, us);
    assert t.workers[u] == IDLE;
    assert t.applied + [] == t.applied && t.clobbered + [] == t.clobbered;
    assert forall v :: v in us + [u] <==> v in us || v == u;
    assert t.workers[u := Worker(Idle, lists[u], {})] == Begun(s, lists, us + [u]).workers;
  }

  lemma {:induction false} BeginAll(s: State, lists: Lists, us: seq<nat>) returns (schedule: seq<Step>)
    requires Fresh(s) && lists.Keys <= s.workers.Keys && Distinct(us) && forall u | u in us :: u in lists
    ensures StartsFrom(schedule, lists) && After(s, schedule) == Begun(s, lists, us)
  {
    if us == [] {
      schedule := [];
      assert Begun(s, lists, us).workers == s.workers;
    } else {
      var init, last := us[..|us| - 1], us[|us| - 1];
      assert us == init + [last] && last in us && last !in init;
      var before := BeginAll(s, lists, init);
      schedule := before + [StartSweep(last, lists[last])];
      assert schedule[..|before|] == before;
      BeginsOne(s, lists, init, last);
    }
  }

  lemma {:induction false} AfterConcat(s: State, first: seq<Step>, second: seq<Step>)
    ensures After(s, first + second) == After(After(s, first), second)
  {
    if second == [] {
      assert first + second == first;
    } else {
      var init := second[..|second| - 1];
      AfterConcat(s, first, init);
      assert (first + second)[..|first + second| - 1] == first + init;
    }
  }

  /** What is reached from there can be reached. */
  lemma ReachedCan(s: State, lists: Lists, us: seq<nat>, t: State, cycle: seq<nat>)
    requires Fresh(s) && lists.Keys <= s.workers.Keys && Distinct(us) && forall u | u in us :: u in lists
    requires Reaches(Begun(s, lists, us), t) && WaitCycle(t, cycle)
    ensures CanDeadlock(s, lists)
  {
    var first := BeginAll(s, lists, us);
    var second :| NoSweepStarts(second) && After(Begun(s, lists, us), second) == t;
    AfterConcat(s, first, second);
    assert StartsFrom(first + second, lists);
  }

  // Each comes to its own row of the ring.

  /** An idle sweep that has nothing locked and comes to row `e` next, and to `f` later. */
  predicate ComesBefore(store: Store, worker: Worker, e: nat, f: nat) {
    && worker.pc.Idle? && worker.kept == {} && worker.todo != [] && worker.todo[0] == e && f in worker.todo[1..]
    && forall r | r in worker.todo :: r in store.events
  }

  lemma SuffixBefore(store: Store, list: seq<nat>, e: nat, f: nat) returns (i: nat)
    requires Precedes(list, e, f) && forall r | r in list :: Waiting(store, r)
    ensures i < |list| && ComesBefore(store, Worker(Idle, list[i..], {}), e, f)
  {
    var j;
    i, j :| 0 <= i < j < |list| && list[i] == e && list[j] == f;
    assert list[i..][1..][j - i - 1] == f;
    forall r | r in list[i..] ensures r in store.events { assert r in list; }
  }

  lemma ComesTo(start: State, s: State, w: nat, list: seq<nat>, e: nat, f: nat) returns (t: State)
    requires Reaches(start, s) && Sound(s) && w in s.workers && s.workers[w] == Worker(Idle, list, {})
    requires NothingHeld(s.workers) && Precedes(list, e, f) && forall r | r in list :: Waiting(s.store, r)
    ensures Reaches(start, t) && Sound(t) && t.store == s.store && w in t.workers
    ensures t.workers == s.workers[w := t.workers[w]] && ComesBefore(t.store, t.workers[w], e, f)
  {
    var i := SuffixBefore(s.store, list, e, f);
    PassesTo(start, s, w, list, i);
    t := At(s, w, Worker(Idle, list[i..], {}));
  }

  /** The first `m` of the ring have come to their rows. */
  ghost predicate Come(s: State, t: State, lists: Lists, us: seq<nat>, es: seq<nat>, m: nat)
    requires |us| == |es|
  {
    && t.store == s.store && t.workers.Keys == s.workers.Keys && NothingHeld(t.workers)
    && (forall u | u in t.workers && u !in us :: t.workers[u] == IDLE)
    && (forall i | 0 <= i < |us| && i < m ::
          us[i] in t.workers && ComesBefore(t.store, t.workers[us[i]], es[i], es[Succ(i, |us|)]))
    && (forall i | m <= i < |us| ::
          us[i] in t.workers && us[i] in lists && t.workers[us[i]] == Worker(Idle, lists[us[i]], {}))
  }

  lemma ComeNext(s: State, t: State, u: State, lists: Lists, us: seq<nat>, es: seq<nat>, m: nat)
    requires |us| == |es| && m < |us| && Distinct(us) && Come(s, t, lists, us, es, m)
    requires u.store == t.store && us[m] in u.workers && u.workers == t.workers[us[m] := u.workers[us[m]]]
    requires ComesBefore(u.store, u.workers[us[m]], es[m], es[Succ(m, |us|)])
    ensures Come(s, u, lists, us, es, m + 1)
  {
    assert us[m] in us;
  }

  lemma OneComes(s: State, t: State, lists: Lists, us: seq<nat>, es: seq<nat>, x: nat, m: nat) returns (u: State)
    requires SweepsReady(s, lists, x) && OpposedRing(lists, us, es) && m < |us|
    requires Reaches(Begun(s, lists, us), t) && Sound(t) && Come(s, t, lists, us, es, m)
    ensures Reaches(Begun(s, lists, us), u) && Sound(u) && Come(s, u, lists, us, es, m + 1)
  {
    assert Precedes(lists[us[m]], es[m], es[Succ(m, |us|)]);
    u := ComesTo(Begun(s, lists, us), t, us[m], lists[us[m]], es[m], es[Succ(m, |us|)]);
    ComeNext(s, t, u, lists, us, es, m);
  }

  lemma ComeNone(s: State, lists: Lists, us: seq<nat>, es: seq<nat>, x: nat)
    requires SweepsReady(s, lists, x) && OpposedRing(lists, us, es)
    ensures Come(s, Begun(s, lists, us), lists, us, es, 0)
  {
    assert forall i | 0 <= i < |us| :: us[i] in us;
  }

  lemma {:induction false} AllCome(s: State, lists: Lists, us: seq<nat>, es: seq<nat>, x: nat, m: nat)
    returns (t: State)
    requires SweepsReady(s, lists, x) && OpposedRing(lists, us, es) && m <= |us|
    ensures Reaches(Begun(s, lists, us), t) && Sound(t) && Come(s, t, lists, us, es, m)
  {
    if m == 0 {
      t := Begun(s, lists, us);
      BegunInv(s, lists, us);
      ReachesItself(t);
      ComeNone(s, lists, us, es, x);
    } else {
      t := AllCome(s, lists, us, es, x, m - 1);
      t := OneComes(s, t, lists, us, es, x, m - 1);
    }
  }

  // Somebody applies everything, and each locks and keeps its own row.

  ghost predicate AllDone(store: Store) {
    forall e | e in store.events :: Done(store, e)
  }

  /** A sweep that keeps a row and has `f` still to come. */
  predicate KeepsAndComes(store: Store, worker: Worker, e: nat, f: nat) {
    && worker.pc.Idle? && e in worker.kept && f in worker.todo
    && forall r | r in worker.todo :: r in store.events
  }

  /** The first `m` keep their own rows and nobody anything else; the others have come to theirs. */
  ghost predicate Kept(t: State, us: seq<nat>, es: seq<nat>, m: nat)
    requires |us| == |es|
  {
    && AllDone(t.store)
    && (forall u | u in t.workers :: t.workers[u].pc.Idle?)
    && (forall u, k | u in t.workers && k in t.workers[u].kept :: KeptBy(us, es, m, u, k))
    && (forall i | 0 <= i < |us| && i < m ::
          us[i] in t.workers && KeepsAndComes(t.store, t.workers[us[i]], es[i], es[Succ(i, |us|)]))
    && (forall i | m <= i < |us| ::
          us[i] in t.workers && ComesBefore(t.store, t.workers[us[i]], es[i], es[Succ(i, |us|)]))
  }

  predicate KeptBy(us: seq<nat>, es: seq<nat>, m: nat, u: nat, k: nat)
    requires |us| == |es|
  {
    exists i :: 0 <= i < |us| && i < m && us[i] == u && es[i] == k
  }

  lemma AppliesEverything(start: State, s: State, x: nat) returns (t: State)
    requires Inv(start) && Reaches(start, s) && x in s.workers && s.workers[x] == IDLE && NothingHeld(s.workers)
    ensures Reaches(start, t) && t.workers == s.workers && t.store.events.Keys == s.store.events.Keys
    ensures AllDone(t.store)
  {
    var rows := SortedIds(s.store.events.Keys);
    forall r | r in rows ensures r in s.store.events { assert r in s.store.events.Keys; }
    t := AppliesAll(start, s, x, rows);
    forall e | e in t.store.events ensures Done(t.store, e) { assert e in s.store.events.Keys; }
  }

  lemma KeptNone(s: State, t: State, u: State, lists: Lists, us: seq<nat>, es: seq<nat>)
    requires |us| == |es| && Come(s, t, lists, us, es, |us|)
    requires u.workers == t.workers && u.store.events.Keys == t.store.events.Keys && AllDone(u.store)
    ensures Kept(u, us, es, 0)
  {
    forall i | 0 <= i < |us| ensures ComesBefore(u.store, u.workers[us[i]], es[i], es[Succ(i, |us|)]) {
      assert ComesBefore(t.store, t.workers[us[i]], es[i], es[Succ(i, |us|)]);
    }
  }

  /** A sweep at a row nobody else holds, which is applied, keeps it. */
  lemma KeepsOwn(start: State, s: State, w: nat, e: nat, f: nat) returns (t: State)
    requires Reaches(start, s) && Sound(s) && w in s.workers && ComesBefore(s.store, s.workers[w], e, f)
    requires AllDone(s.store) && EventFree(s, w, e)
    ensures Reaches(start, t) && Sound(t) && t.store == s.store
    ensures w in t.workers && t.workers == s.workers[w := t.workers[w]]
    ensures KeepsAndComes(t.store, t.workers[w], e, f) && t.workers[w].kept == {e}
  {
    var list := s.workers[w].todo;
    assert s.workers[w] == Worker(Idle, list, {});
    assert e in list;
    SweepSkips(start, s, w, list, {});
    t := At(s, w, Worker(Idle, list[1..], {} + {e}));
    assert forall r | r in list[1..] :: r in list;
  }

  lemma NotKeptYet(us: seq<nat>, es: seq<nat>, m: nat, v: nat)
    requires |us| == |es| && m < |us| && Distinct(es)
    ensures !KeptBy(us, es, m, v, es[m])
  {
  }

  lemma OwnFree(t: State, us: seq<nat>, es: seq<nat>, m: nat)
    requires |us| == |es| && m < |us| && Distinct(es) && Kept(t, us, es, m)
    ensures EventFree(t, us[m], es[m])
  {
    forall v | v in t.workers && v != us[m] ensures !HoldsEvent(t.workers[v], es[m]) {
      NotKeptYet(us, es, m, v);
    }
  }

  lemma KeptNext(t: State, u: State, us: seq<nat>, es: seq<nat>, m: nat)
    requires |us| == |es| && m < |us| && Distinct(us) && Kept(t, us, es, m)
    requires u.store == t.store && us[m] in u.workers && u.workers == t.workers[us[m] := u.workers[us[m]]]
    requires KeepsAndComes(u.store, u.workers[us[m]], es[m], es[Succ(m, |us|)]) && u.workers[us[m]].kept == {es[m]}
    ensures Kept(u, us, es, m + 1)
  {
    forall v, k | v in u.workers && k in u.workers[v].kept ensures KeptBy(us, es, m + 1, v, k) {
      if v != us[m] {
        assert KeptBy(us, es, m, v, k);
        var i :| 0 <= i < m && us[i] == v && es[i] == k;
        assert us[i] == v && es[i] == k;
      }
    }
  }

  lemma OneKeeps(start: State, t: State, us: seq<nat>, es: seq<nat>, m: nat) returns (u: State)
    requires Reaches(start, t) && Sound(t) && |us| == |es| && m < |us| && Distinct(us) && Distinct(es)
    requires Kept(t, us, es, m)
    ensures Reaches(start, u) && Sound(u) && Kept(u, us, es, m + 1)
  {
    OwnFree(t, us, es, m);
    u := KeepsOwn(start, t, us[m], es[m], es[Succ(m, |us|)]);
    KeptNext(t, u, us, es, m);
  }

  lemma NoneKeeps(s: State, lists: Lists, us: seq<nat>, es: seq<nat>, x: nat) returns (t: State)
    requires SweepsReady(s, lists, x) && OpposedRing(lists, us, es)
    ensures Reaches(Begun(s, lists, us), t) && Sound(t) && Kept(t, us, es, 0)
  {
    var u := AllCome(s, lists, us, es, x, |us|);
    BegunInv(s, lists, us);
    assert x !in us;
    t := AppliesEverything(Begun(s, lists, us), u, x);
    KeptNone(s, u, t, lists, us, es);
    ReachesInv(Begun(s, lists, us), t);
  }

  lemma {:induction false} AllKeep(start: State, s: State, us: seq<nat>, es: seq<nat>, m: nat) returns (t: State)
    requires Reaches(start, s) && Sound(s) && |us| == |es| && m <= |us| && Distinct(us) && Distinct(es)
    requires Kept(s, us, es, 0)
    ensures Reaches(start, t) && Sound(t) && Kept(t, us, es, m)
  {
    t := s;
    if m > 0 {
      t := AllKeep(start, s, us, es, m - 1);
      t := OneKeeps(start, t, us, es, m - 1);
    }
  }

  // Each goes on until it waits.

  /** A sweep with `f` still to come, which another one keeps. */
  predicate Bound(s: State, w: nat, f: nat, h: nat) {
    && w in s.workers && s.workers[w].pc.Idle? && f in s.workers[w].todo
    && (forall r | r in s.workers[w].todo :: r in s.store.events)
    && h in s.workers && h != w && f in s.workers[h].kept
  }

  /** A sweep goes on over applied rows, keeping them, up to one that somebody else keeps. */
  lemma {:induction false} GoesOn(start: State, s: State, w: nat, f: nat, h: nat) returns (t: State)
    requires Reaches(start, s) && Sound(s) && AllDone(s.store)
    requires Bound(s, w, f, h)
    ensures Reaches(start, t) && Sound(t) && t.store == s.store
    ensures w in t.workers && t.workers == s.workers[w := t.workers[w]]
    ensures t.workers[w].pc.WantEvent? && s.workers[w].kept <= t.workers[w].kept
    ensures !EventFree(t, w, t.workers[w].pc.e)
    decreases |s.workers[w].todo|
  {
    if EventFree(s, w, s.workers[w].todo[0]) {
      var u := GoesPast(start, s, w, f, h);
      t := GoesOn(start, u, w, f, h);
    } else {
      t := StopsAt(start, s, w);
    }
  }

  lemma GoesPast(start: State, s: State, w: nat, f: nat, h: nat) returns (t: State)
    requires Reaches(start, s) && Sound(s) && AllDone(s.store)
    requires Bound(s, w, f, h) && EventFree(s, w, s.workers[w].todo[0])
    ensures Reaches(start, t) && Sound(t) && t.store == s.store && Bound(t, w, f, h)
    ensures t.workers == s.workers[w := t.workers[w]]
    ensures |t.workers[w].todo| < |s.workers[w].todo| && s.workers[w].kept <= t.workers[w].kept
  {
    var list, kept := s.workers[w].todo, s.workers[w].kept;
    assert s.workers[w] == Worker(Idle, list, kept) && list[0] in list;
    assert HoldsEvent(s.workers[h], f);
    assert f in list[1..];
    SweepSkips(start, s, w, list, kept);
    t := At(s, w, Worker(Idle, list[1..], kept + {list[0]}));
    assert forall r | r in list[1..] :: r in list;
  }

  lemma StopsAt(start: State, s: State, w: nat) returns (t: State)
    requires Reaches(start, s) && Sound(s) && w in s.workers && s.workers[w].pc.Idle? && s.workers[w].todo != []
    requires !EventFree(s, w, s.workers[w].todo[0])
    ensures Reaches(start, t) && Sound(t) && t.store == s.store
    ensures t.workers
         == s.workers[w := Worker(WantEvent(s.workers[w].todo[0]), s.workers[w].todo[1..], s.workers[w].kept)]
    ensures !EventFree(t, w, s.workers[w].todo[0])
  {
    var list, kept := s.workers[w].todo, s.workers[w].kept;
    assert s.workers[w] == Worker(Idle, list, kept);
    SweepWants(start, s, w, list, kept);
    t := At(s, w, Worker(WantEvent(list[0]), list[1..], kept));
    var v :| v in s.workers && v != w && HoldsEvent(s.workers[v], list[0]);
    assert HoldsEvent(t.workers[v], list[0]);
  }

  /** The first `m` wait for somebody of the ring; the others keep their rows and can go on. */
  ghost predicate Waits(t: State, us: seq<nat>, es: seq<nat>, m: nat)
    requires |us| == |es|
  {
    && AllDone(t.store)
    && (forall u | u in t.workers :: t.workers[u].pc.Idle? || t.workers[u].pc.WantEvent?)
    && (forall u | u in t.workers && t.workers[u].kept != {} :: u in us)
    && (forall i | 0 <= i < |us| :: us[i] in t.workers && es[i] in t.workers[us[i]].kept)
    && (forall i | 0 <= i < |us| && i < m :: WaitsInRing(t, us, us[i]))
    && (forall i | m <= i < |us| :: KeepsAndComes(t.store, t.workers[us[i]], es[i], es[Succ(i, |us|)]))
  }

  ghost predicate WaitsInRing(t: State, us: seq<nat>, v: nat) {
    exists u :: u in us && WaitsFor(t, v, u)
  }

  lemma KeptWaits(t: State, us: seq<nat>, es: seq<nat>)
    requires |us| == |es| && Kept(t, us, es, |us|)
    ensures Waits(t, us, es, 0)
  {
    forall u | u in t.workers && t.workers[u].kept != {} ensures u in us {
      var k :| k in t.workers[u].kept;
      assert KeptBy(us, es, |us|, u, k);
    }
    forall i | 0 <= i < |us| ensures KeepsAndComes(t.store, t.workers[us[i]], es[i], es[Succ(i, |us|)]) {}
  }

  /** Whoever waited goes on waiting, since no sweep lets go of a row. */
  lemma StillWaits(t: State, u: State, us: seq<nat>, w: nat, v: nat)
    requires w in t.workers && w in u.workers && u.workers == t.workers[w := u.workers[w]]
    requires t.workers[w].pc.Idle? && t.workers[w].kept <= u.workers[w].kept
    requires v != w && v in t.workers && t.workers[v].pc.WantEvent? && WaitsInRing(t, us, v)
    ensures WaitsInRing(u, us, v)
  {
    var x :| x in us && WaitsFor(t, v, x);
    assert HoldsEvent(u.workers[x], u.workers[v].pc.e);
    assert WaitsFor(u, v, x);
  }

  lemma NowWaits(u: State, us: seq<nat>, w: nat)
    requires w in u.workers && u.workers[w].pc.WantEvent? && !EventFree(u, w, u.workers[w].pc.e)
    requires forall v | v in u.workers :: u.workers[v].pc.Idle? || u.workers[v].pc.WantEvent?
    requires forall v | v in u.workers && u.workers[v].kept != {} :: v in us
    ensures WaitsInRing(u, us, w)
  {
    var v :| v in u.workers && v != w && HoldsEvent(u.workers[v], u.workers[w].pc.e);
    assert WaitsFor(u, w, v);
  }

  /** One more sweep stands and waits. */
  predicate Stops(t: State, u: State, w: nat) {
    && u.store == t.store && w in t.workers && w in u.workers && u.workers == t.workers[w := u.workers[w]]
    && t.workers[w].pc.Idle? && u.workers[w].pc.WantEvent? && t.workers[w].kept <= u.workers[w].kept
    && !EventFree(u, w, u.workers[w].pc.e)
  }

  lemma OthersWait(t: State, u: State, us: seq<nat>, es: seq<nat>, m: nat)
    requires |us| == |es| && m < |us| && Distinct(us) && Waits(t, us, es, m) && Stops(t, u, us[m])
    ensures forall i | 0 <= i < m :: WaitsInRing(u, us, us[i])
  {
    forall i | 0 <= i < m ensures WaitsInRing(u, us, us[i]) {
      WaitersWant(t, us, es, m, i);
      StillWaits(t, u, us, us[m], us[i]);
    }
  }

  lemma OthersGoOn(t: State, u: State, us: seq<nat>, es: seq<nat>, m: nat)
    requires |us| == |es| && m < |us| && Distinct(us) && Waits(t, us, es, m) && Stops(t, u, us[m])
    ensures forall i | 0 <= i < |us| :: us[i] in u.workers && es[i] in u.workers[us[i]].kept
    ensures forall i | m < i < |us| :: KeepsAndComes(u.store, u.workers[us[i]], es[i], es[Succ(i, |us|)])
  {
    forall i | 0 <= i < |us| ensures us[i] in u.workers && es[i] in u.workers[us[i]].kept {
      assert es[i] in t.workers[us[i]].kept;
    }
    forall i | m < i < |us| ensures KeepsAndComes(u.store, u.workers[us[i]], es[i], es[Succ(i, |us|)]) {
      assert KeepsAndComes(t.store, t.workers[us[i]], es[i], es[Succ(i, |us|)]);
    }
  }

  lemma WaitsNext(t: State, u: State, us: seq<nat>, es: seq<nat>, m: nat)
    requires |us| == |es| && m < |us| && Distinct(us) && Waits(t, us, es, m) && Stops(t, u, us[m])
    ensures Waits(u, us, es, m + 1)
  {
    OthersWait(t, u, us, es, m);
    OthersGoOn(t, u, us, es, m);
    assert us[m] in us;
    NowWaits(u, us, us[m]);
  }

  lemma WaitersWant(t: State, us: seq<nat>, es: seq<nat>, m: nat, i: nat)
    requires |us| == |es| && Waits(t, us, es, m) && i < m && i < |us|
    ensures us[i] in t.workers && WaitsInRing(t, us, us[i]) && t.workers[us[i]].pc.WantEvent?
  {
    assert WaitsInRing(t, us, us[i]);
  }

  lemma OneWaits(start: State, t: State, us: seq<nat>, es: seq<nat>, m: nat) returns (u: State)
    requires Reaches(start, t) && Sound(t) && |us| == |es| >= 2 && m < |us| && Distinct(us) && Waits(t, us, es, m)
    ensures Reaches(start, u) && Sound(u) && Waits(u, us, es, m + 1)
  {
    var next := Succ(m, |us|);
    assert KeepsAndComes(t.store, t.workers[us[m]], es[m], es[next]) && es[next] in t.workers[us[next]].kept;
    u := GoesOn(start, t, us[m], es[next], us[next]);
    WaitsNext(t, u, us, es, m);
  }

  lemma {:induction false} AllWait(start: State, s: State, us: seq<nat>, es: seq<nat>, m: nat) returns (t: State)
    requires Reaches(start, s) && Sound(s) && |us| == |es| >= 2 && m <= |us| && Distinct(us) && Waits(s, us, es, 0)
    ensures Reaches(start, t) && Sound(t) && Waits(t, us, es, m)
  {
    t := s;
    if m > 0 {
      t := AllWait(start, s, us, es, m - 1);
      t := OneWaits(start, t, us, es, m - 1);
    }
  }

  // Where everybody waits for somebody there is a cycle.

  ghost predicate WaitPath(s: State, us: seq<nat>, path: seq<nat>) {
    && path != [] && Distinct(path) && (forall u | u in path :: u in us)
    && forall i | 0 <= i < |path| - 1 :: WaitsFor(s, path[i], path[i + 1])
  }

  lemma PathGrows(s: State, us: seq<nat>, path: seq<nat>, u: nat)
    requires WaitPath(s, us, path) && u in us && u !in path && WaitsFor(s, path[|path| - 1], u)
    ensures WaitPath(s, us, path + [u])
  {
    var longer := path + [u];
    forall i | 0 <= i < |longer| - 1 ensures WaitsFor(s, longer[i], longer[i + 1]) {
      if i < |path| - 1 { assert WaitsFor(s, path[i], path[i + 1]); }
    }
    forall v | v in longer ensures v in us { assert v in path || v == u; }
    forall i, j | 0 <= i < j < |longer| ensures longer[i] != longer[j] {
      assert longer[i] in path;
    }
  }

  lemma PathCloses(s: State, us: seq<nat>, path: seq<nat>, i: nat)
    requires WaitPath(s, us, path) && i < |path| && WaitsFor(s, path[|path| - 1], path[i])
    ensures WaitCycle(s, path[i..] + [path[i]])
  {
    var cycle := path[i..] + [path[i]];
    forall k | 0 <= k < |cycle| - 1 ensures WaitsFor(s, cycle[k], cycle[k + 1]) {
      if k < |path[i..]| - 1 { assert WaitsFor(s, path[i + k], path[i + k + 1]); }
    }
  }

  lemma PathBounded(us: seq<nat>, path: seq<nat>)
    requires Distinct(us) && Distinct(path) && forall u | u in path :: u in us
    ensures |path| <= |us|
  {
    DistinctCount(us);
    DistinctCount(path);
    SubsetSize(IdSet(path), IdSet(us));
  }

  lemma NextWaited(s: State, us: seq<nat>, path: seq<nat>) returns (u: nat)
    requires WaitPath(s, us, path) && forall v | v in us :: WaitsInRing(s, us, v)
    ensures u in us && WaitsFor(s, path[|path| - 1], u)
  {
    var last := path[|path| - 1];
    assert last in path;
    u :| u in us && WaitsFor(s, last, u);
  }

  lemma {:induction false} FindCycle(s: State, us: seq<nat>, path: seq<nat>) returns (cycle: seq<nat>)
    requires Distinct(us) && WaitPath(s, us, path) && forall u | u in us :: WaitsInRing(s, us, u)
    ensures WaitCycle(s, cycle)
    decreases |us| - |path|
  {
    var u := NextWaited(s, us, path);
    if u in path {
      var i :| 0 <= i < |path| && path[i] == u;
      PathCloses(s, us, path, i);
      cycle := path[i..] + [path[i]];
    } else {
      PathGrows(s, us, path, u);
      PathBounded(us, path + [u]);
      cycle := FindCycle(s, us, path + [u]);
    }
  }

  lemma AllWaiting(s: State, lists: Lists, us: seq<nat>, es: seq<nat>, x: nat) returns (t: State)
    requires SweepsReady(s, lists, x) && OpposedRing(lists, us, es)
    ensures Reaches(Begun(s, lists, us), t) && forall u | u in us :: WaitsInRing(t, us, u)
  {
    var start := Begun(s, lists, us);
    t := NoneKeeps(s, lists, us, es, x);
    t := AllKeep(start, t, us, es, |us|);
    KeptWaits(t, us, es);
    t := AllWait(start, t, us, es, |us|);
    forall u | u in us ensures WaitsInRing(t, us, u) {
      var i :| 0 <= i < |us| && us[i] == u;
    }
  }

  lemma OpposedDeadlocks(s: State, lists: Lists, us: seq<nat>, es: seq<nat>, x: nat)
    requires SweepsReady(s, lists, x) && OpposedRing(lists, us, es)
    ensures CanDeadlock(s, lists)
  {
    var t := AllWaiting(s, lists, us, es, x);
    var cycle := FindCycle(t, us, [us[0]]);
    ReachedCan(s, lists, us, t, cycle);
  }

  /**
   Sweeps of given lists can come to a deadlock if and only if those are opposed in a circle: there are
   sweeps, and as many rows, such that each of them lists its row before the next one's.
   */
  lemma DeadlockIffOpposed(s: State, lists: Lists, x: nat)
    requires SweepsReady(s, lists, x)
    ensures CanDeadlock(s, lists) <==> Opposed(lists)
  {
    if CanDeadlock(s, lists) {
      var schedule, cycle :| StartsFrom(schedule, lists) && WaitCycle(After(s, schedule), cycle);
      DeadlockOpposes(s, lists, schedule, cycle);
    }
    if Opposed(lists) {
      var us, es :| OpposedRing(lists, us, es);
      OpposedDeadlocks(s, lists, us, es, x);
    }
  }
}
