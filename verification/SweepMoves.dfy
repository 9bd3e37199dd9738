/** What a sweep can do by itself while others stand still, and how rows get applied meanwhile. */
module SweepMoves {
  import opened ParkingStore
  import opened Operations
  import opened Protocol
  import opened Overlaps

  /** A sweep whose first row fails, mark and all, goes on with nothing locked. */
  lemma SweepFails(start: State, s: State, w: nat, list: seq<nat>)
    requires Reaches(start, s) && Sound(s) && w in s.workers && s.workers[w] == Worker(Idle, list, {})
    requires |list| >= 2 && Waiting(s.store, list[0]) && EventFree(s, w, list[0])
    ensures var t := At(s, w, Worker(Idle, list[1..], {})); Reaches(start, t) && Sound(t)
  {
    var e, rest := list[0], list[1..];
    LocksListed(start, s, w, list);
    FailsUnmarked(start, At(s, w, Worker(HasEvent(e), rest, {})), w, e, rest);
    AtAt(s, w, Worker(HasEvent(e), rest, {}), Worker(Idle, rest, {}));
  }

  lemma LocksListed(start: State, s: State, w: nat, list: seq<nat>)
    requires Reaches(start, s) && Sound(s) && w in s.workers && s.workers[w] == Worker(Idle, list, {})
    requires list != [] && Waiting(s.store, list[0]) && EventFree(s, w, list[0])
    ensures var t := At(s, w, Worker(HasEvent(list[0]), list[1..], {})); Reaches(start, t) && Sound(t)
  {
    var wants, has := Worker(WantEvent(list[0]), list[1..], {}), Worker(HasEvent(list[0]), list[1..], {});
    Glide(start, s, NextListed(w), wants);
    Glide(start, At(s, w, wants), LockEvent(w), has);
    AtAt(s, w, wants, has);
  }

  lemma FailsUnmarked(start: State, s: State, w: nat, e: nat, rest: seq<nat>)
    requires Reaches(start, s) && Sound(s) && w in s.workers && s.workers[w] == Worker(HasEvent(e), rest, {})
    requires rest != []
    ensures var t := At(s, w, Worker(Idle, rest, {})); Reaches(start, t) && Sound(t)
  {
    var rolled, next := Worker(RolledBack(e), rest, {}), Worker(Idle, rest, {});
    Glide(start, s, Fail(w), rolled);
    Glide(start, At(s, w, rolled), MarkRaises(w), next);
    AtAt(s, w, rolled, next);
  }

  lemma {:induction false} PassesTo(start: State, s: State, w: nat, list: seq<nat>, n: nat)
    requires Reaches(start, s) && Sound(s) && w in s.workers && s.workers[w] == Worker(Idle, list, {})
    requires n < |list| && forall m | 0 <= m < n :: Waiting(s.store, list[m]) && EventFree(s, w, list[m])
    ensures var t := At(s, w, Worker(Idle, list[n..], {})); Reaches(start, t) && Sound(t)
  {
    if n == 0 {
      assert list[0..] == list;
      assert At(s, w, s.workers[w]) == s;
    } else {
      PassesTo(start, s, w, list, n - 1);
      var before := Worker(Idle, list[n - 1..], {});
      assert list[n - 1..][1..] == list[n..];
      SweepFails(start, At(s, w, before), w, list[n - 1..]);
      AtAt(s, w, before, Worker(Idle, list[n..], {}));
    }
  }

  /** Nobody holds any row. */
  ghost predicate NothingHeld(workers: map<nat, Worker>) {
    forall u | u in workers :: workers[u].pc.Idle? && workers[u].kept == {}
  }

  predicate Done(store: Store, e: nat) {
    e in store.events && store.events[e].status == Processed
  }

  /** Background tasks apply the rows one after the other. */
  lemma {:induction false} AppliesAll(start: State, s: State, x: nat, rows: seq<nat>) returns (t: State)
    requires Inv(start) && Reaches(start, s) && x in s.workers && s.workers[x] == IDLE && NothingHeld(s.workers)
    requires forall r | r in rows :: r in s.store.events
    ensures Reaches(start, t) && t.workers == s.workers
    ensures t.store.events.Keys == s.store.events.Keys
    ensures forall r | r in rows || Done(s.store, r) :: Done(t.store, r)
  {
    if rows == [] {
      t := s;
    } else {
      var init, last := rows[..|rows| - 1], rows[|rows| - 1];
      assert forall r | r in init :: r in rows;
      assert forall r | r in rows :: r in init || r == last;
      var u := AppliesAll(start, s, x, init);
      assert last in rows;
      t := AppliesOne(start, u, x, last);
    }
  }

  lemma AppliesOne(start: State, s: State, x: nat, e: nat) returns (t: State)
    requires Inv(start) && Reaches(start, s) && x in s.workers && s.workers[x] == IDLE && NothingHeld(s.workers)
    requires e in s.store.events
    ensures Reaches(start, t) && t.workers == s.workers
    ensures t.store.events.Keys == s.store.events.Keys
    ensures forall r | r == e || Done(s.store, r) :: Done(t.store, r)
  {
    t := s;
    if Waiting(s.store, e) {
      ReachesInv(start, s);
      var device := s.store.devices[s.store.events[e].deviceId];
      CallApplies(start, s, x, e, device, 0);
      AfterApply(s.store, e, device, 0);
      t := CallDone(s, e, device, 0);
    }
  }

  /** A sweep comes to a listed row that has been applied since, and keeps its lock. */
  lemma SweepSkips(start: State, s: State, w: nat, list: seq<nat>, kept: set<nat>)
    requires Reaches(start, s) && Sound(s) && w in s.workers && s.workers[w] == Worker(Idle, list, kept)
    requires |list| >= 2 && Done(s.store, list[0]) && EventFree(s, w, list[0])
    ensures var t := At(s, w, Worker(Idle, list[1..], kept + {list[0]})); Reaches(start, t) && Sound(t)
  {
    SweepWants(start, s, w, list, kept);
    var wants := Worker(WantEvent(list[0]), list[1..], kept);
    SkipsRow(start, At(s, w, wants), w, list[0], list[1..], kept);
    AtAt(s, w, wants, Worker(Idle, list[1..], kept + {list[0]}));
  }

  lemma SkipsRow(start: State, s: State, w: nat, e: nat, rest: seq<nat>, kept: set<nat>)
    requires Reaches(start, s) && Sound(s) && w in s.workers && s.workers[w] == Worker(WantEvent(e), rest, kept)
    requires rest != [] && Done(s.store, e) && EventFree(s, w, e)
    ensures var t := At(s, w, Worker(Idle, rest, kept + {e})); Reaches(start, t) && Sound(t)
  {
    Glide(start, s, LockEvent(w), Worker(Idle, rest, kept + {e}));
  }

  lemma SweepWants(start: State, s: State, w: nat, list: seq<nat>, kept: set<nat>)
    requires Reaches(start, s) && Sound(s) && w in s.workers && s.workers[w] == Worker(Idle, list, kept)
    requires list != []
    ensures var t := At(s, w, Worker(WantEvent(list[0]), list[1..], kept)); Reaches(start, t) && Sound(t)
  {
    Glide(start, s, NextListed(w), Worker(WantEvent(list[0]), list[1..], kept));
  }
}
