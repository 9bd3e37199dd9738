/**
 How often an event is applied, over every schedule: once if processed, plus once for every
 failure mark that landed on its row after another worker had applied it.
 */
module Accounting {
  import opened ParkingStore
  import opened Operations
  import opened Ledger
  import opened Protocol
  import opened Serializability

  function Times(events: seq<nat>, e: nat): nat {
    multiset(events)[e]
  }

  ghost predicate AccountOk(queue: map<nat, Event>, nextEvent: nat, applied: seq<nat>, clobbered: seq<nat>) {
    && (forall e | e in queue ::
          Times(applied, e) == Times(clobbered, e) + if queue[e].status == Processed then 1 else 0)
    && (forall e: nat :: Times(applied, e) <= 1 + Times(clobbered, e))
    && (forall e | e >= nextEvent :: Times(applied, e) == 0 && Times(clobbered, e) == 0)
  }

  ghost predicate Accounted(s: State) {
    AccountOk(s.store.events, s.store.nextEvent, s.applied, s.clobbered)
  }

  lemma TimesSnoc(events: seq<nat>, e: nat, x: nat)
    ensures Times(events + [x], e) == Times(events, e) + if e == x then 1 else 0
  {
  }

  lemma CountApply(queue: map<nat, Event>, nextEvent: nat, applied: seq<nat>, clobbered: seq<nat>, e: nat, row: Event)
    requires AccountOk(queue, nextEvent, applied, clobbered)
    requires e in queue && e < nextEvent && queue[e].status != Processed && row.status == Processed
    ensures AccountOk(queue[e := row], nextEvent, applied + [e], clobbered)
  {
    forall f: nat { TimesSnoc(applied, f, e); }
  }

  /** A mark that sets the status over a processed row costs one more application. */
  lemma CountMark(queue: map<nat, Event>, nextEvent: nat, applied: seq<nat>, clobbered: seq<nat>, e: nat,
                  attempts: nat, sets: bool)
    requires AccountOk(queue, nextEvent, applied, clobbered) && e in queue && e < nextEvent
    ensures AccountOk(queue[e := MarkedRow(queue[e], attempts, sets)], nextEvent, applied,
                      clobbered + if sets && queue[e].status == Processed then [e] else [])
  {
    if sets && queue[e].status == Processed {
      forall f: nat { TimesSnoc(clobbered, f, e); }
    } else {
      assert clobbered + [] == clobbered;
    }
  }

  /** What a worker's step does to the event table. */
  lemma EventsAfter(store: Store, worker: Worker, step: Step)
    requires Ready(store, worker, step) && ShapeOk(worker) && ReadsCurrent(store, worker)
    ensures Wrote(store, worker, step).nextEvent == store.nextEvent
    ensures step.CommitApply? ==>
      && worker.pc.e in store.events && store.events[worker.pc.e].Unfinished()
      && Wrote(store, worker, step).events
         == store.events[worker.pc.e := store.events[worker.pc.e].(status := Processed)]
    ensures step.CommitMark? ==>
      && worker.pc.e in store.events
      && Wrote(store, worker, step).events
         == store.events[worker.pc.e := MarkedRow(store.events[worker.pc.e], worker.pc.read + 1, worker.pc.sets)]
    ensures !step.CommitApply? && !step.CommitMark? ==> Wrote(store, worker, step).events == store.events
  {
    match step
    case CommitApply(_, _) =>
    case CommitMark(_) =>
    case CommitRow(_) =>
    case _ =>
  }

  lemma AccountedKept(s: State, step: Step)
    requires Inv(s) && Accounted(s) && Enabled(s, step)
    ensures Accounted(Next(s, step))
  {
    if step.Env? {
      EnvAccounted(s, step.op);
    } else if step.CommitApply? {
      ApplyAccounted(s, step);
    } else if step.CommitMark? {
      MarkAccounted(s, step);
    } else if !step.Crash? {
      OtherAccounted(s, step);
    }
  }

  lemma EnvAccounted(s: State, op: Op)
    requires Sound(s) && ReferencesOk(s.store) && Accounted(s) && EnvFree(s, op)
    ensures Accounted(Next(s, Env(op)))
  {
  }

  lemma ApplyAccounted(s: State, step: Step)
    requires Sound(s) && ReferencesOk(s.store) && Accounted(s) && Enabled(s, step) && step.CommitApply?
    ensures Accounted(Next(s, step))
  {
    var e := s.workers[step.w].pc.e;
    EventsAfter(s.store, s.workers[step.w], step);
    CountApply(s.store.events, s.store.nextEvent, s.applied, s.clobbered, e, s.store.events[e].(status := Processed));
    assert s.clobbered + [] == s.clobbered;
  }

  lemma AfterMark(s: State, step: Step)
    requires Sound(s) && Enabled(s, step) && step.CommitMark?
    ensures var pc, t := s.workers[step.w].pc, Next(s, step);
      && pc.e in s.store.events && t.store.nextEvent == s.store.nextEvent && t.applied == s.applied
      && t.store.events == s.store.events[pc.e := MarkedRow(s.store.events[pc.e], pc.read + 1, pc.sets)]
      && t.clobbered == s.clobbered + if pc.sets && s.store.events[pc.e].status == Processed then [pc.e] else []
  {
    EventsAfter(s.store, s.workers[step.w], step);
    assert s.applied + [] == s.applied;
  }

  lemma MarkAccounted(s: State, step: Step)
    requires Sound(s) && ReferencesOk(s.store) && Accounted(s) && Enabled(s, step) && step.CommitMark?
    ensures Accounted(Next(s, step))
  {
    var pc := s.workers[step.w].pc;
    AfterMark(s, step);
    CountMark(s.store.events, s.store.nextEvent, s.applied, s.clobbered, pc.e, pc.read + 1, pc.sets);
  }

  lemma OtherAccounted(s: State, step: Step)
    requires Sound(s) && Accounted(s) && Enabled(s, step)
    requires !step.Crash? && !step.Env? && !step.CommitApply? && !step.CommitMark?
    ensures Accounted(Next(s, step))
  {
    EventsAfter(s.store, s.workers[step.w], step);
    assert s.applied + [] == s.applied && s.clobbered + [] == s.clobbered;
  }

  /** The events applied by a list of commits, in order, since the event table was last truncated. */
  function AppliedIn(before: seq<nat>, ops: seq<Op>): seq<nat> {
    if ops == [] then before
    else
      var earlier := AppliedIn(before, ops[..|ops| - 1]);
      match ops[|ops| - 1]
      case Apply(e, _, _, _) => earlier + [e]
      case DailyReset => []
      case _ => earlier
  }

  lemma AppliedOne(s: State, step: Step)
    ensures Take(s, step).applied == AppliedIn(s.applied, CommittedBy(s, step))
  {
    var ops := CommittedBy(s, step);
    assert ops != [] ==> ops[..|ops| - 1] == [];
    assert s.applied + [] == s.applied;
  }

  lemma {:induction false} AppliedConcat(before: seq<nat>, first: seq<Op>, second: seq<Op>)
    requires |second| <= 1
    ensures AppliedIn(before, first + second) == AppliedIn(AppliedIn(before, first), second)
  {
    if second == [] {
      assert first + second == first;
    } else {
      assert (first + second)[..|first + second| - 1] == first;
      assert second[..0] == [];
    }
  }

  /** `applied` is nothing but the applications among the commits of the schedule. */
  lemma {:induction false} AppliedAreCommits(s: State, schedule: seq<Step>)
    ensures After(s, schedule).applied == AppliedIn(s.applied, Commits(s, schedule))
  {
    if schedule != [] {
      var init, step := schedule[..|schedule| - 1], schedule[|schedule| - 1];
      AppliedAreCommits(s, init);
      AppliedOne(After(s, init), step);
      AppliedConcat(s.applied, Commits(s, init), CommittedBy(After(s, init), step));
    }
  }

  lemma {:induction false} AlwaysAccounted(s: State, schedule: seq<Step>)
    requires Inv(s) && Accounted(s)
    ensures Accounted(After(s, schedule))
  {
    if schedule != [] {
      var init, step := schedule[..|schedule| - 1], schedule[|schedule| - 1];
      AlwaysAccounted(s, init);
      Serializable(s, init);
      if Enabled(After(s, init), step) {
        AccountedKept(After(s, init), step);
      }
    }
  }

  // The state a history starts in.

  ghost function ProcessedIds(queue: map<nat, Event>): set<nat> {
    set e | e in queue && queue[e].status == Processed
  }

  /** A row that is processed when the history begins counts as applied once. */
  ghost function Opening(store: Store, workers: map<nat, Worker>): State {
    State(store, workers, SortedIds(ProcessedIds(store.events)), [])
  }

  lemma {:induction false} OnceInOrder(order: seq<nat>, e: nat)
    requires Ascending(order)
    ensures Times(order, e) == if e in order then 1 else 0
  {
    if order != [] {
      var n := |order| - 1;
      OnceInOrder(order[..n], e);
      TimesSnoc(order[..n], e, order[n]);
      assert order == order[..n] + [order[n]];
    }
  }

  lemma OpeningAccounted(store: Store, workers: map<nat, Worker>)
    requires ReferencesOk(store)
    ensures Accounted(Opening(store, workers))
  {
    forall e { OnceInOrder(SortedIds(ProcessedIds(store.events)), e); }
  }

  // Which steps cost an event a second application.

  /** A failure mark that sets the status is committed on `e`, whose row is `processed` by then. */
  predicate MarksProcessed(s: State, step: Step, e: nat) {
    && step.CommitMark? && Enabled(s, step) && s.workers[step.w].pc.e == e
    && s.workers[step.w].pc.sets && s.store.events[e].status == Processed
  }

  /** How many steps of the schedule do that. */
  ghost function MarksOver(s: State, schedule: seq<Step>, e: nat): nat {
    if schedule == [] then 0
    else
      var n := |schedule| - 1;
      MarksOver(s, schedule[..n], e) + if MarksProcessed(After(s, schedule[..n]), schedule[n], e) then 1 else 0
  }

  ghost predicate NoneMarked(s: State, schedule: seq<Step>, e: nat) {
    forall k | 0 <= k < |schedule| :: !MarksProcessed(After(s, schedule[..k]), schedule[k], e)
  }

  lemma MarkClobbers(s: State, step: Step, e: nat)
    requires Sound(s) && step.CommitMark? && Enabled(s, step)
    ensures Times(Take(s, step).clobbered, e) == Times(s.clobbered, e) + if MarksProcessed(s, step, e) then 1 else 0
  {
    assert s.clobbered + [] == s.clobbered;
    TimesSnoc(s.clobbered, e, s.workers[step.w].pc.e);
  }

  lemma OthersClobberNone(s: State, step: Step)
    requires Sound(s) && !step.CommitMark? && step != Env(DailyReset)
    ensures Take(s, step).clobbered == s.clobbered
  {
    assert s.clobbered + [] == s.clobbered;
  }

  /** `clobbered` is nothing but those steps. */
  lemma ClobbersOne(s: State, step: Step, e: nat)
    requires Sound(s) && step != Env(DailyReset)
    ensures Times(Take(s, step).clobbered, e) == Times(s.clobbered, e) + if MarksProcessed(s, step, e) then 1 else 0
  {
    if !step.CommitMark? {
      OthersClobberNone(s, step);
    } else if Enabled(s, step) {
      MarkClobbers(s, step, e);
    }
  }

  lemma {:induction false} ClobberedAreMarks(s: State, schedule: seq<Step>, e: nat)
    requires Inv(s) && Env(DailyReset) !in schedule
    ensures Times(After(s, schedule).clobbered, e) == Times(s.clobbered, e) + MarksOver(s, schedule, e)
  {
    if schedule != [] {
      var init := schedule[..|schedule| - 1];
      ClobberedAreMarks(s, init, e);
      Serializable(s, init);
      ClobbersOne(After(s, init), schedule[|schedule| - 1], e);
    }
  }

  lemma NoneMarkedSnoc(s: State, schedule: seq<Step>, e: nat)
    requires schedule != []
    ensures var n := |schedule| - 1;
      NoneMarked(s, schedule, e)
      <==> NoneMarked(s, schedule[..n], e) && !MarksProcessed(After(s, schedule[..n]), schedule[n], e)
  {
    var n := |schedule| - 1;
    assert forall k | 0 <= k < n :: schedule[..n][..k] == schedule[..k];
  }

  lemma {:induction false} NoneMarkedIff(s: State, schedule: seq<Step>, e: nat)
    ensures MarksOver(s, schedule, e) == 0 <==> NoneMarked(s, schedule, e)
  {
    if schedule != [] {
      NoneMarkedIff(s, schedule[..|schedule| - 1], e);
      NoneMarkedSnoc(s, schedule, e);
    }
  }

  /**
   The exact count, over every schedule: an event has been applied once if it is processed, and once
   more for every failure mark that was committed over its row while that was processed.
   */
  lemma ExactAccounting(s: State, schedule: seq<Step>, e: nat)
    requires Inv(s) && Accounted(s) && e !in s.clobbered && Env(DailyReset) !in schedule
    requires e in After(s, schedule).store.events
    ensures Times(After(s, schedule).applied, e)
         == MarksOver(s, schedule, e) + if After(s, schedule).store.events[e].status == Processed then 1 else 0
  {
    AlwaysAccounted(s, schedule);
    ClobberedAreMarks(s, schedule, e);
    assert Times(s.clobbered, e) == 0;
  }

  /**
   No double processing, exactly when: an event is applied once if it is processed and never
   otherwise, if and only if no failure mark is committed over its row while that is processed.
   */
  lemma OnceIffNoneMarked(s: State, schedule: seq<Step>, e: nat)
    requires Inv(s) && Accounted(s) && e !in s.clobbered && Env(DailyReset) !in schedule
    requires e in After(s, schedule).store.events
    ensures Times(After(s, schedule).applied, e)
            == (if After(s, schedule).store.events[e].status == Processed then 1 else 0)
       <==> NoneMarked(s, schedule, e)
  {
    ExactAccounting(s, schedule, e);
    NoneMarkedIff(s, schedule, e);
  }

  /**
   Without such a mark, whatever else overlaps, fails or crashes, no event is applied twice, and an
   event is applied exactly if it is processed; resets of the day may come in between.
   */
  lemma {:induction false} AtMostOnce(s: State, schedule: seq<Step>)
    requires Inv(s) && Accounted(s) && s.clobbered == []
    requires forall e :: NoneMarked(s, schedule, e)
    ensures After(s, schedule).clobbered == []
    ensures forall e :: Times(After(s, schedule).applied, e) <= 1
    ensures forall e | e in After(s, schedule).store.events ::
      e in After(s, schedule).applied <==> After(s, schedule).store.events[e].status == Processed
  {
    AlwaysAccounted(s, schedule);
    NeverClobbered(s, schedule);
    var t := After(s, schedule);
    forall e | e in t.store.events ensures e in t.applied <==> t.store.events[e].status == Processed {
      assert e in t.applied <==> e in multiset(t.applied);
    }
  }

  lemma StaysUnclobbered(s: State, step: Step)
    requires s.clobbered == [] && forall e :: !MarksProcessed(s, step, e)
    ensures Take(s, step).clobbered == []
  {
    if step.CommitMark? && Enabled(s, step) {
      assert !MarksProcessed(s, step, s.workers[step.w].pc.e);
    }
  }

  lemma {:induction false} NeverClobbered(s: State, schedule: seq<Step>)
    requires s.clobbered == []
    requires forall e :: NoneMarked(s, schedule, e)
    ensures After(s, schedule).clobbered == []
  {
    if schedule != [] {
      var n := |schedule| - 1;
      forall e ensures NoneMarked(s, schedule[..n], e) && !MarksProcessed(After(s, schedule[..n]), schedule[n], e) {
        NoneMarkedSnoc(s, schedule, e);
      }
      NeverClobbered(s, schedule[..n]);
      StaysUnclobbered(After(s, schedule[..n]), schedule[n]);
    }
  }
}
