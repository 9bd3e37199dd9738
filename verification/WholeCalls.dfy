/**
 When an overlapping schedule is as good as whole calls of process_event one after the other: exactly
 when every commit sees what a whole call at that moment would see.
 */
module WholeCalls {
  import opened Wrappers
  import opened ParkingStore
  import opened Operations
  import opened Ledger
  import opened Protocol
  import opened Serializability
  import Correspondence

  /** The whole call that a commit of an overlapping one stands for. */
  function CallFor(op: Op): Op {
    match op
    case Apply(e, _, _, now) => Process(e, Succeeds, now)
    case Mark(e, _, _) => Process(e, FailsMarked, 0)
    case _ => op
  }

  function CallsFor(ops: seq<Op>): seq<Op> {
    seq(|ops|, i requires 0 <= i < |ops| => CallFor(ops[i]))
  }

  /**
   The commit sees the present device row; or the present attempts of an event not yet applied, which
   it leaves failed; or it is a late mark that happens to change nothing.
   */
  predicate SeesPresent(s: Store, op: Op) {
    match op
    case Apply(e, found, actor, _) =>
      e in s.events && s.events[e].deviceId in s.devices
      && var device := s.devices[s.events[e].deviceId]; found == Some(device.lotId) && actor == device.code
    case Mark(e, attempts, sets) =>
      e in s.events
      && if s.events[e].status == Processed then !sets && attempts == s.events[e].attempts
         else attempts == s.events[e].attempts + 1 && (sets || s.events[e].status == EventStatus.Failed)
    case _ => true
  }

  lemma ApplyIsCallIff(s: Store, e: nat, found: Option<nat>, actor: string, now: int)
    requires ReferencesOk(s) && Waiting(s, e)
    ensures Do(s, Apply(e, found, actor, now)) == Do(s, Process(e, Succeeds, now))
       <==> SeesPresent(s, Apply(e, found, actor, now))
  {
    var device := s.devices[s.events[e].deviceId];
    var a, b := Do(s, Apply(e, found, actor, now)), Do(s, Process(e, Succeeds, now));
    assert |b.log| == |s.log| + 1;
    assert b.log[|s.log|].lotId == device.lotId && b.log[|s.log|].stamp.actor == device.code;
    if found.Some? && found.value in s.lots {
      assert a.log[|s.log|].lotId == found.value && a.log[|s.log|].stamp.actor == actor;
    }
  }

  lemma MarkIsCallIff(s: Store, e: nat, attempts: nat, sets: bool)
    requires ReferencesOk(s) && e in s.events && (sets || s.events[e].status != Pending)
    ensures Do(s, Mark(e, attempts, sets)) == Do(s, Process(e, FailsMarked, 0))
       <==> SeesPresent(s, Mark(e, attempts, sets))
  {
    assert Do(s, Mark(e, attempts, sets)).events[e] == MarkedRow(s.events[e], attempts, sets);
    assert s.events[e := s.events[e]] == s.events;
  }

  /** One commit is what the whole call does, if and only if it sees the present. */
  lemma IsCallIff(s: Store, op: Op)
    requires ReferencesOk(s) && (op.Apply? ==> Waiting(s, op.event))
    requires op.Mark? ==> op.event in s.events && (op.sets || s.events[op.event].status != Pending)
    ensures Do(s, op) == Do(s, CallFor(op)) <==> SeesPresent(s, op)
  {
    match op
    case Apply(e, found, actor, now) => ApplyIsCallIff(s, e, found, actor, now);
    case Mark(e, attempts, sets) => MarkIsCallIff(s, e, attempts, sets);
    case _ =>
  }

  ghost predicate AllSeePresent(s: Store, ops: seq<Op>) {
    ops != [] ==>
      var n := |ops| - 1;
      AllSeePresent(s, ops[..n]) && SeesPresent(Run(s, ops[..n]), ops[n])
  }

  lemma SeesPresentIsCall(s: Store, op: Op)
    requires ReferencesOk(s) && SeesPresent(s, op)
    ensures Do(s, op) == Do(s, CallFor(op))
  {
    if op.Mark? || (op.Apply? && Waiting(s, op.event)) {
      IsCallIff(s, op);
    }
  }

  lemma {:induction false} RunIsCalls(s: Store, ops: seq<Op>)
    requires StoreOk(s) && AllSeePresent(s, ops)
    ensures Run(s, ops) == Run(s, CallsFor(ops))
  {
    if ops != [] {
      var n := |ops| - 1;
      RunIsCalls(s, ops[..n]);
      assert CallsFor(ops)[..n] == CallsFor(ops[..n]);
      StoreOkOverRun(s, ops[..n]);
      SeesPresentIsCall(Run(s, ops[..n]), ops[n]);
    }
  }

  /** A schedule whose commits all see the present commits what whole calls in commit order do. */
  lemma ScheduleIsCalls(s: State, schedule: seq<Step>)
    requires Inv(s) && AllSeePresent(s.store, Commits(s, schedule))
    ensures After(s, schedule).store == Run(s.store, CallsFor(Commits(s, schedule)))
  {
    Serializable(s, schedule);
    RunIsCalls(s.store, Commits(s, schedule));
  }

  /** So for such a schedule, without deletions, processed events and entry/exit rows match one to one. */
  lemma AllOrNothingScheduled(s: State, schedule: seq<Step>, order: seq<Correspondence.Application>)
    requires Inv(s) && AllSeePresent(s.store, Commits(s, schedule)) && Correspondence.Matched(s.store, order)
    requires forall op | op in CallsFor(Commits(s, schedule)) :: Correspondence.Serial(op)
    ensures Correspondence.Matched(After(s, schedule).store,
                                   order + Correspondence.Applied(s.store, CallsFor(Commits(s, schedule))))
  {
    ScheduleIsCalls(s, schedule);
    Correspondence.AllOrNothing(s.store, CallsFor(Commits(s, schedule)), order);
  }
}
