/**
 Applications that log nothing. process_event skips counter and log if it finds no lot; no serial run
 gets there, but overlapping calls do, when the device is moved and its old lot deleted between the
 loading of the device row and the locking of the lot. A sweep loads the device rows with its list.
 */
module Skips {
  import opened Wrappers
  import opened ParkingStore
  import opened Operations
  import opened Ledger
  import opened Protocol
  import opened Serializability
  import opened Overlaps

  /** A commit that applies an event leaves the log and all counters alone exactly if it found no lot. */
  lemma SkipsIffNoLot(s: State, w: nat, now: int)
    requires Inv(s) && Enabled(s, CommitApply(w, now))
    ensures var t := Take(s, CommitApply(w, now));
      && (t.store.log == s.store.log <==> s.workers[w].pc.NoLot?)
      && (s.workers[w].pc.NoLot? ==> t.store.lots == s.store.lots)
      && s.workers[w].pc.e in t.store.events && t.store.events[s.workers[w].pc.e].status == Processed
  {
  }

  /** The step deletes the lot. */
  predicate DeletesLot(s: State, step: Step, lot: nat) {
    step == Env(DeleteLot(lot)) && Enabled(s, step) && lot in s.store.lots && !LotInUse(s.store, lot)
  }

  ghost predicate LotKept(s: State, schedule: seq<Step>, lot: nat) {
    forall k | 0 <= k < |schedule| :: !DeletesLot(After(s, schedule[..k]), schedule[k], lot)
  }

  /** Some step of the schedule deletes the lot. */
  ghost predicate LotDeleted(s: State, schedule: seq<Step>, lot: nat) {
    !LotKept(s, schedule, lot)
  }

  lemma LotKeptSnoc(s: State, schedule: seq<Step>, lot: nat)
    requires schedule != []
    ensures var n := |schedule| - 1;
      LotKept(s, schedule, lot)
      <==> LotKept(s, schedule[..n], lot) && !DeletesLot(After(s, schedule[..n]), schedule[n], lot)
  {
    var n := |schedule| - 1;
    assert forall k | 0 <= k < n :: schedule[..n][..k] == schedule[..k];
  }

  lemma WorkersKeepLots(store: Store, worker: Worker, step: Step)
    requires Ready(store, worker, step) && ShapeOk(worker) && ReadsCurrent(store, worker)
    ensures Wrote(store, worker, step).lots.Keys == store.lots.Keys
    ensures Wrote(store, worker, step).nextLot == store.nextLot
  {
  }

  lemma TakeLots(s: State, step: Step, lot: nat)
    requires Inv(s) && lot < s.store.nextLot
    ensures lot < Take(s, step).store.nextLot
    ensures lot in Take(s, step).store.lots <==> lot in s.store.lots && !DeletesLot(s, step, lot)
  {
    if Enabled(s, step) {
      if step.Env? {
        EnvLots(s, step.op, lot);
      } else if !step.Crash? {
        WorkersKeepLots(s.store, s.workers[step.w], step);
      }
    }
  }

  lemma EnvLots(s: State, op: Op, lot: nat)
    requires ReferencesOk(s.store) && EnvFree(s, op) && lot < s.store.nextLot
    ensures lot < Do(s.store, op).nextLot
    ensures lot in Do(s.store, op).lots
       <==> lot in s.store.lots && !(op == DeleteLot(lot) && !LotInUse(s.store, lot))
  {
  }

  lemma {:induction false} LotGoneIff(s: State, schedule: seq<Step>, lot: nat)
    requires Inv(s) && lot in s.store.lots
    ensures lot < After(s, schedule).store.nextLot
    ensures lot in After(s, schedule).store.lots <==> !LotDeleted(s, schedule, lot)
  {
    if schedule != [] {
      var init, step := schedule[..|schedule| - 1], schedule[|schedule| - 1];
      LotGoneIff(s, init, lot);
      Serializable(s, init);
      TakeLots(After(s, init), step, lot);
      LotKeptSnoc(s, schedule, lot);
    }
  }

  /**
   Let `s` be the state in which a call's device row was loaded, naming `lot`. However long after that
   the call comes to lock the lot, it finds none, and so will log nothing, if and only if the lot was
   deleted in between.
   */
  lemma SkipIffDeleted(s: State, between: seq<Step>, w: nat, lot: nat)
    requires Inv(s) && lot in s.store.lots
    requires Enabled(After(s, between), LockLot(w)) && After(s, between).workers[w].pc.view.lotId == lot
    ensures w in Take(After(s, between), LockLot(w)).workers
    ensures Take(After(s, between), LockLot(w)).workers[w].pc.NoLot? <==> LotDeleted(s, between, lot)
  {
    LotGoneIff(s, between, lot);
    Serializable(s, between);
  }

  // What has to happen for that.

  /** The step moves the device to another lot. */
  predicate MovesDevice(step: Step, device: nat, lot: nat) {
    && step.Env? && step.op.UpdateDevice? && step.op.device == device
    && step.op.newLot.Some? && step.op.newLot.value != lot
  }

  /** The device of the event is registered at the lot. */
  predicate EventAtLot(store: Store, e: nat, device: nat, lot: nat) {
    && e in store.events && store.events[e].deviceId == device
    && device in store.devices && store.devices[device].lotId == lot
  }

  /** So it is for as long as the event is there. */
  predicate StillAtLot(store: Store, e: nat, device: nat, lot: nat) {
    e < store.nextEvent && (e in store.events ==> EventAtLot(store, e, device, lot))
  }

  lemma WorkersKeepDevices(store: Store, worker: Worker, step: Step, e: nat, device: nat, lot: nat)
    requires Ready(store, worker, step) && ShapeOk(worker) && ReadsCurrent(store, worker)
    requires StillAtLot(store, e, device, lot)
    ensures StillAtLot(Wrote(store, worker, step), e, device, lot)
  {
  }

  lemma DeviceStays(store: Store, op: Op, device: nat, lot: nat)
    requires device in store.devices && store.devices[device].lotId == lot && device < store.nextDevice
    requires op != DeleteDevice(device) && !MovesDevice(Env(op), device, lot)
    ensures device in Do(store, op).devices && Do(store, op).devices[device].lotId == lot
  {
  }

  lemma EventStays(s: State, op: Op, e: nat)
    requires ReferencesOk(s.store) && EnvFree(s, op) && op != DailyReset && e < s.store.nextEvent
    ensures e < Do(s.store, op).nextEvent
    ensures e in Do(s.store, op).events ==>
      && e in s.store.events && Do(s.store, op).events[e] == s.store.events[e]
      && op != DeleteDevice(s.store.events[e].deviceId)
  {
  }

  lemma EnvKeepsDevice(s: State, op: Op, e: nat, device: nat, lot: nat)
    requires ReferencesOk(s.store) && EnvFree(s, op) && op != DailyReset && StillAtLot(s.store, e, device, lot)
    requires !MovesDevice(Env(op), device, lot)
    ensures StillAtLot(Do(s.store, op), e, device, lot)
  {
    EventStays(s, op, e);
    if e in Do(s.store, op).events { DeviceStays(s.store, op, device, lot); }
  }

  lemma TakeKeepsDevice(s: State, step: Step, e: nat, device: nat, lot: nat)
    requires Inv(s) && StillAtLot(s.store, e, device, lot)
    requires step != Env(DailyReset) && !MovesDevice(step, device, lot)
    ensures StillAtLot(Take(s, step).store, e, device, lot)
  {
    if Enabled(s, step) {
      if step.Env? {
        EnvKeepsDevice(s, step.op, e, device, lot);
      } else if !step.Crash? {
        WorkersKeepDevices(s.store, s.workers[step.w], step, e, device, lot);
      }
    }
  }

  lemma {:induction false} StaysAtLot(s: State, schedule: seq<Step>, e: nat, device: nat, lot: nat)
    requires Inv(s) && StillAtLot(s.store, e, device, lot) && Env(DailyReset) !in schedule
    requires forall step | step in schedule :: !MovesDevice(step, device, lot)
    ensures StillAtLot(After(s, schedule).store, e, device, lot)
  {
    if schedule != [] {
      var init, step := schedule[..|schedule| - 1], schedule[|schedule| - 1];
      assert step in schedule;
      assert forall other | other in init :: other in schedule;
      StaysAtLot(s, init, e, device, lot);
      Serializable(s, init);
      TakeKeepsDevice(After(s, init), step, e, device, lot);
    }
  }

  /**
   And for that the event's device has to be moved in between. A call that is about to lock the lot has
   the event row locked, so that is still there.
   */
  lemma SkipTakesMove(s: State, between: seq<Step>, e: nat, device: nat, lot: nat)
    requires Inv(s) && EventAtLot(s.store, e, device, lot) && Env(DailyReset) !in between
    requires LotDeleted(s, between, lot) && e in After(s, between).store.events
    ensures exists step :: step in between && MovesDevice(step, device, lot)
  {
    if forall step | step in between :: !MovesDevice(step, device, lot) {
      StaysAtLot(s, between, e, device, lot);
      Serializable(s, between);
      LotGoneIff(s, between, lot);
    }
  }

  // It does happen.

  lemma EnvTaken(start: State, s: State, op: Op)
    requires Inv(start) && Reaches(start, s) && EnvFree(s, op) && op != DailyReset
    ensures Reaches(start, s.(store := Do(s.store, op)))
  {
    ReachesInv(start, s);
    ReachesNext(start, s, Env(op));
  }

  /** Its device is the only one at the lot, nobody works on it, and there is another lot. */
  ghost predicate LoneDevice(s: State, e: nat, other: nat) {
    && Waiting(s.store, e) && s.store.events[e].deviceId in s.store.devices
    && var device := s.store.events[e].deviceId;
       && Quiet(s, e, s.store.devices[device])
       && other in s.store.lots && other != s.store.devices[device].lotId
       && forall d | d in s.store.devices && d != device :: s.store.devices[d].lotId != s.store.devices[device].lotId
  }

  /** The device is moved and its old lot deleted. */
  function Relocated(store: Store, device: nat, lot: nat, other: nat): Store {
    Do(Do(store, UpdateDevice(device, None, Some(other))), DeleteLot(lot))
  }

  lemma RelocatedIs(store: Store, device: nat, lot: nat, other: nat)
    requires device in store.devices && store.devices[device].lotId == lot && lot in store.lots
    requires other in store.lots && other != lot
    requires forall d | d in store.devices && d != device :: store.devices[d].lotId != lot
    ensures var t := Relocated(store, device, lot, other);
      t.lots == store.lots - {lot} && t.log == WithoutLot(store.log, lot) && t.events == store.events
  {
    assert !LotInUse(Do(store, UpdateDevice(device, None, Some(other))), lot);
  }

  lemma Relocates(start: State, s: State, device: nat, lot: nat, other: nat)
    requires Inv(start) && Reaches(start, s) && forall v | v in s.workers :: !HoldsLot(s.workers[v], lot)
    ensures Reaches(start, s.(store := Relocated(s.store, device, lot, other)))
  {
    EnvTaken(start, s, UpdateDevice(device, None, Some(other)));
    EnvTaken(start, s.(store := Do(s.store, UpdateDevice(device, None, Some(other)))), DeleteLot(lot));
  }

  lemma AppliesNowhere(s: State, w: nat, e: nat, view: Device)
    requires Sound(s) && w in s.workers && s.workers[w] == Worker(NoLot(e, view), [], {})
    ensures e in s.store.events
    ensures Take(s, CommitApply(w, 0)).store == SetEvent(s.store, e, s.store.events[e].(status := Processed))
    ensures Take(s, CommitApply(w, 0)).applied == s.applied + [e]
  {
    assert ReadsCurrent(s.store, s.workers[w]);
  }

  lemma FindsNoLot(start: State, s: State, w: nat, e: nat, view: Device) returns (t: State)
    requires Reaches(start, s) && Sound(s) && w in s.workers && s.workers[w] == Worker(WantLot(e, view), [], {})
    requires view.lotId !in s.store.lots && LotFree(s, w, view.lotId) && e in s.store.events
    ensures Reaches(start, t) && t.store == SetEvent(s.store, e, s.store.events[e].(status := Processed))
    ensures t.applied == s.applied + [e]
  {
    Glide(start, s, LockLot(w), Worker(NoLot(e, view), [], {}));
    var u := At(s, w, Worker(NoLot(e, view), [], {}));
    AppliesNowhere(u, w, e, view);
    ReachesNext(start, u, CommitApply(w, 0));
    t := Take(u, CommitApply(w, 0));
  }

  /** An event can end up processed, with no counter moved and nothing logged. */
  lemma SkipReached(s: State, w: nat, e: nat, other: nat) returns (t: State)
    requires LoneDevice(s, e, other) && w in s.workers && s.workers[w] == IDLE
    ensures Reaches(s, t) && t.applied == s.applied + [e]
    ensures e in t.store.events && t.store.events[e].status == Processed
    ensures var lot := s.store.devices[s.store.events[e].deviceId].lotId;
      t.store.lots == s.store.lots - {lot} && t.store.log == WithoutLot(s.store.log, lot)
  {
    var d := s.store.events[e].deviceId;
    var device := s.store.devices[d];
    ReachesItself(s);
    LocksEvent(s, s, w, e);
    var s1 := At(s, w, Worker(HasEvent(e), [], {}));
    SeesDevice(s, s1, w, e, device);
    AtAt(s, w, Worker(HasEvent(e), [], {}), Worker(WantLot(e, device), [], {}));
    var s2 := At(s, w, Worker(WantLot(e, device), [], {}));
    Relocates(s, s2, d, device.lotId, other);
    RelocatedIs(s.store, d, device.lotId, other);
    var s3 := s2.(store := Relocated(s.store, d, device.lotId, other));
    ReachesInv(s, s3);
    t := FindsNoLot(s, s3, w, e, device);
  }
}
