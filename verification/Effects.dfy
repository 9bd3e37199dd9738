/**
 What applying or marking an event writes, row by row: for one transaction, and for the commit of an
 overlapping call.
 */
module Effects {
  import opened Wrappers
  import opened ParkingStore
  import opened Operations
  import opened Ledger
  import opened Protocol
  import opened Serializability

  /**
   From `s` to `t` the event was applied to the lot: one car more for an entry, one less for an exit but
   never below 0, a row that says so, and the status. Nothing else has changed.
   */
  ghost predicate AppliedTo(s: Store, t: Store, e: nat, lot: nat, code: string, now: int)
    requires e in s.events && lot in s.lots
  {
    var before := s.lots[lot].systemCount;
    var after := if s.events[e].eventType == Entry then before + 1 else if before > 0 then before - 1 else 0;
    var kind := if s.events[e].eventType == Entry then EntryActivity else ExitActivity;
    t == s.(
      events := s.events[e := s.events[e].(status := Processed)],
      lots := s.lots[lot := s.lots[lot].(systemCount := after)],
      log := s.log + [Activity(s.nextActivity, lot, kind, after - before, after, Stamp(code, None, now))],
      nextActivity := s.nextActivity + 1)
  }

  /** From `s` to `t` the event was marked failed once more. Nothing else has changed. */
  ghost predicate MarkedFailed(s: Store, t: Store, e: nat)
    requires e in s.events
  {
    t == s.(events := s.events[e := s.events[e].(status := Failed, attempts := s.events[e].attempts + 1)])
  }

  lemma ApplyWrites(s: Store, e: nat, lot: nat, code: string, now: int)
    requires Waiting(s, e) && lot in s.lots
    ensures AppliedTo(s, Do(s, Apply(e, Some(lot), code, now)), e, lot, code, now)
  {
  }

  /** A whole call applies the event to the lot of its device, under the code of its device. */
  lemma ProcessWrites(s: Store, e: nat, now: int)
    requires ReferencesOk(s) && e in s.events && s.events[e].status != Processed
    ensures var device := s.devices[s.events[e].deviceId];
      AppliedTo(s, Do(s, Process(e, Succeeds, now)), e, device.lotId, device.code, now)
    ensures MarkedFailed(s, Do(s, Process(e, FailsMarked, now)), e)
    ensures Do(s, Process(e, FailsUnmarked, now)) == s
  {
    var device := s.devices[s.events[e].deviceId];
    ApplyWrites(s, e, device.lotId, device.code, now);
  }

  /** What is processed stays as it is. */
  lemma ProcessedStays(s: Store, e: nat, outcome: Outcome, now: int)
    requires e !in s.events || s.events[e].status == Processed
    ensures Do(s, Process(e, outcome, now)) == s
  {
  }

  /** The commit of an overlapping call applies the event to the lot and under the code it had read. */
  lemma CommitWrites(s: State, w: nat, now: int)
    requires Inv(s) && Enabled(s, CommitApply(w, now)) && s.workers[w].pc.HasLot?
    ensures s.workers[w].pc.e in s.store.events && s.workers[w].pc.view.lotId in s.store.lots
    ensures var pc := s.workers[w].pc;
      AppliedTo(s.store, Next(s, CommitApply(w, now)).store, pc.e, pc.view.lotId, pc.view.code, now)
  {
    var pc := s.workers[w].pc;
    assert ReadsCurrent(s.store, s.workers[w]);
    ApplyIsSerial(s.store, s.workers[w], CommitApply(w, now));
    ApplyWrites(s.store, pc.e, pc.view.lotId, pc.view.code, now);
  }

  /** And its failure mark writes one more than the attempts it had read, and the status if it sets that. */
  lemma MarkWrites(s: State, w: nat)
    requires Inv(s) && Enabled(s, CommitMark(w))
    ensures var pc := s.workers[w].pc;
      && pc.e in s.store.events
      && Next(s, CommitMark(w)).store
         == var row := s.store.events[pc.e].(attempts := pc.read + 1);
            s.store.(events := s.store.events[pc.e := if pc.sets then row.(status := Failed) else row])
  {
    assert ReadsCurrent(s.store, s.workers[w]);
    MarkedRowIs(s.store.events[s.workers[w].pc.e], s.workers[w].pc.read + 1, s.workers[w].pc.sets);
  }

  lemma MarkedRowIs(row: Event, attempts: nat, sets: bool)
    ensures MarkedRow(row, attempts, sets)
         == if sets then row.(attempts := attempts, status := Failed) else row.(attempts := attempts)
  {
  }

  /** What a failed call reads for its mark: the attempts, and whether the status is to be written. */
  lemma MarkReads(s: State, w: nat, skips: bool)
    requires Inv(s) && Enabled(s, ReadForMark(w, skips))
    ensures s.workers[w].pc.e in s.store.events
    ensures var e, pc := s.workers[w].pc.e, Next(s, ReadForMark(w, skips)).workers[w].pc;
      && pc.Marking? && pc.e == e && pc.read == s.store.events[e].attempts
      && (pc.sets <==> !skips || s.store.events[e].status != EventStatus.Failed)
  {
  }
}
