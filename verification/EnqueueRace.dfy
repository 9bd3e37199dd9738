/**
 Any number of POST /events calls at once, each cut into its database steps: lookup, insert and
 commit, and after a unique violation rollback and a second lookup. Rows are not deleted meanwhile,
 but may be processed.
 */
module EnqueueRace {
  import opened Wrappers
  import opened ParkingStore
  import Operations

  datatype Request = Request(
    device: nat,
    eventType: EventType,
    requestId: string,
    trackId: Option<string>,
    detectedAt: int)

  datatype Phase = Start | Missed | Violated | Answered(id: nat) | Raised | Gone

  datatype Caller = Caller(request: Request, phase: Phase)

  /** `winners` tells which caller inserted a row. */
  datatype Race = Race(rows: map<nat, Event>, nextId: nat, callers: map<nat, Caller>, winners: map<nat, nat>)

  datatype Step =
    | Lookup(c: nat)
    | InsertAndCommit(c: nat, now: int)
    | LookupAgain(c: nat)
    | Drop(c: nat)                                           // the call is cut off
    | Handle(id: nat, status: EventStatus, attempts: nat)    // the row is processed by someone

  function RowOf(request: Request, now: int): Event {
    Event(request.device, request.eventType, request.requestId, request.trackId, request.detectedAt, now, Pending, 0)
  }

  /** It is the row that the enqueueing transaction stores: what was asked for, pending and untried. */
  lemma RowIsNewEvent(request: Request, now: int)
    ensures RowOf(request, now)
         == Event(request.device, request.eventType, request.requestId, request.trackId, request.detectedAt, now,
                  Pending, 0)
         == Operations.NewEvent(Operations.Enqueue(request.device, request.eventType, request.trackId,
                                                   request.detectedAt, now, request.requestId))
  {
  }

  predicate Holds(rows: map<nat, Event>, id: nat, requestId: string) {
    id in rows && rows[id].requestId == requestId
  }

  /** get_by_request_id: some row with that request id. */
  ghost function Find(rows: map<nat, Event>, requestId: string): (found: Option<nat>)
    ensures found.Some? ==> Holds(rows, found.value, requestId)
    ensures found.None? ==> forall id :: !Holds(rows, id, requestId)
  {
    if id: nat :| Holds(rows, id, requestId) then Some(id) else None
  }

  ghost function Moved(s: Race, c: nat, phase: Phase): Race
    requires c in s.callers
  {
    s.(callers := s.callers[c := s.callers[c].(phase := phase)])
  }

  ghost function Inserted(s: Race, c: nat, now: int): Race
    requires c in s.callers
  {
    Moved(s, c, Answered(s.nextId)).(
      rows := s.rows[s.nextId := RowOf(s.callers[c].request, now)],
      nextId := s.nextId + 1,
      winners := s.winners[s.nextId := c])
  }

  ghost function Next(s: Race, step: Step): Race {
    match step
    case Lookup(c) =>
      if c !in s.callers || s.callers[c].phase != Start then s
      else
        var found := Find(s.rows, s.callers[c].request.requestId);
        Moved(s, c, if found.Some? then Answered(found.value) else Missed)
    case InsertAndCommit(c, now) =>
      if c !in s.callers || s.callers[c].phase != Missed then s
      else if Find(s.rows, s.callers[c].request.requestId).Some? then Moved(s, c, Violated)
      else Inserted(s, c, now)
    case LookupAgain(c) =>
      if c !in s.callers || s.callers[c].phase != Violated then s
      else
        var found := Find(s.rows, s.callers[c].request.requestId);
        Moved(s, c, if found.Some? then Answered(found.value) else Raised)
    case Drop(c) =>
      if c in s.callers then Moved(s, c, Gone) else s
    case Handle(id, status, attempts) =>
      if id in s.rows then s.(rows := s.rows[id := s.rows[id].(status := status, attempts := attempts)]) else s
  }

  ghost function After(s: Race, schedule: seq<Step>): Race {
    if schedule == [] then s else Next(After(s, schedule[..|schedule| - 1]), schedule[|schedule| - 1])
  }

  ghost predicate UniqueRequests(rows: map<nat, Event>) {
    forall i, j | i in rows && j in rows && rows[i].requestId == rows[j].requestId :: i == j
  }

  ghost predicate CallerOk(s: Race, caller: Caller) {
    match caller.phase
    case Answered(id) => Holds(s.rows, id, caller.request.requestId)
    case Violated => exists id :: Holds(s.rows, id, caller.request.requestId)
    case Raised => false
    case _ => true
  }

  ghost predicate RowsOk(s: Race) {
    && UniqueRequests(s.rows)
    && (forall id | id in s.rows :: id < s.nextId)
    && (forall id | id in s.winners ::
          && id in s.rows && s.winners[id] in s.callers
          && s.rows[id].SamePayload(RowOf(s.callers[s.winners[id]].request, s.rows[id].receivedAt)))
  }

  ghost predicate Inv(s: Race) {
    RowsOk(s) && forall c | c in s.callers :: CallerOk(s, s.callers[c])
  }

  /** What no step takes back: rows and their payloads, and who asked for what. */
  ghost predicate Grows(s: Race, t: Race) {
    && s.callers.Keys == t.callers.Keys
    && (forall c | c in s.callers :: t.callers[c].request == s.callers[c].request)
    && (forall id | id in s.rows :: id in t.rows && t.rows[id].SamePayload(s.rows[id]))
    && (forall id | id in t.rows && id !in s.rows :: id in t.winners)
    && (forall id | id in s.winners :: id in t.winners)
  }

  lemma GrowsMoved(s: Race, c: nat, phase: Phase)
    requires c in s.callers
    ensures Grows(s, Moved(s, c, phase))
  {
  }

  lemma GrowsInserted(s: Race, c: nat, now: int)
    requires RowsOk(s) && c in s.callers
    ensures Grows(s, Inserted(s, c, now))
  {
  }

  lemma GrowsHandled(s: Race, id: nat, status: EventStatus, attempts: nat)
    ensures Grows(s, Next(s, Handle(id, status, attempts)))
  {
  }

  lemma GrowsNext(s: Race, step: Step)
    requires RowsOk(s)
    ensures Grows(s, Next(s, step))
  {
    match step
    case Handle(id, status, attempts) => GrowsHandled(s, id, status, attempts);
    case InsertAndCommit(c, now) =>
      if c in s.callers {
        GrowsInserted(s, c, now);
        GrowsMoved(s, c, Violated);
      }
    case _ =>
      if step.c in s.callers { GrowsMoved(s, step.c, Next(s, step).callers[step.c].phase); }
  }

  lemma InsertKeepsRows(s: Race, c: nat, now: int)
    requires RowsOk(s) && c in s.callers && Find(s.rows, s.callers[c].request.requestId).None?
    ensures RowsOk(Inserted(s, c, now))
  {
    forall id | id in s.rows ensures s.rows[id].requestId != s.callers[c].request.requestId {
      assert !Holds(s.rows, id, s.callers[c].request.requestId);
    }
  }

  lemma RowsKept(s: Race, step: Step)
    requires RowsOk(s)
    ensures RowsOk(Next(s, step))
  {
    if step.InsertAndCommit? && step.c in s.callers && Find(s.rows, s.callers[step.c].request.requestId).None? {
      InsertKeepsRows(s, step.c, step.now);
    }
  }

  /** What a caller knows stays true while the rows grow. */
  lemma StillOk(s: Race, t: Race, caller: Caller)
    requires CallerOk(s, caller) && Grows(s, t)
    ensures CallerOk(t, caller)
  {
    if caller.phase.Violated? {
      var id :| Holds(s.rows, id, caller.request.requestId);
      assert Holds(t.rows, id, caller.request.requestId);
    }
  }

  lemma MoverOk(s: Race, step: Step)
    requires Inv(s) && !step.Handle? && step.c in s.callers
    ensures CallerOk(Next(s, step), Next(s, step).callers[step.c])
  {
    assert CallerOk(s, s.callers[step.c]);
  }

  lemma CallersKept(s: Race, step: Step, c: nat)
    requires Inv(s) && c in s.callers
    ensures c in Next(s, step).callers && CallerOk(Next(s, step), Next(s, step).callers[c])
  {
    if !step.Handle? && step.c == c {
      MoverOk(s, step);
    } else {
      GrowsNext(s, step);
      StillOk(s, Next(s, step), s.callers[c]);
    }
  }

  lemma InvKept(s: Race, step: Step)
    requires Inv(s)
    ensures Inv(Next(s, step)) && Grows(s, Next(s, step))
  {
    GrowsNext(s, step);
    RowsKept(s, step);
    forall c | c in s.callers { CallersKept(s, step, c); }
  }

  lemma {:induction false} InvAfter(s: Race, schedule: seq<Step>)
    requires Inv(s)
    ensures Inv(After(s, schedule)) && Grows(s, After(s, schedule))
  {
    if schedule != [] {
      var before := After(s, schedule[..|schedule| - 1]);
      InvAfter(s, schedule[..|schedule| - 1]);
      InvKept(before, schedule[|schedule| - 1]);
      GrowsOn(s, before, After(s, schedule));
    }
  }

  lemma GrowsOn(s: Race, t: Race, u: Race)
    requires Grows(s, t) && Grows(t, u)
    ensures Grows(s, u)
  {
  }

  /** Nothing has happened yet. */
  ghost predicate Opening(s: Race) {
    && UniqueRequests(s.rows) && (forall id | id in s.rows :: id < s.nextId)
    && s.winners == map[] && forall c | c in s.callers :: s.callers[c].phase == Start
  }

  /**
   However the calls interleave: nobody gets an exception for a repeated request id; all callers
   with one request id are given the same row, the only one with it; and that row is the one there
   was before, or holds the payload of the one caller who inserted it.
   */
  lemma EnqueuesAgree(s: Race, schedule: seq<Step>)
    requires Opening(s)
    ensures var t := After(s, schedule);
      && (forall c | c in t.callers :: !t.callers[c].phase.Raised?)
      && (forall c, d | c in t.callers && d in t.callers
                        && t.callers[c].phase.Answered? && t.callers[d].phase.Answered?
                        && t.callers[c].request.requestId == t.callers[d].request.requestId ::
            t.callers[c].phase == t.callers[d].phase)
      && (forall c | c in t.callers && t.callers[c].phase.Answered? :: AnswerIsRight(s, t, c))
  {
    InvAfter(s, schedule);
    var t := After(s, schedule);
    forall c | c in t.callers ensures !t.callers[c].phase.Raised? { assert CallerOk(t, t.callers[c]); }
    forall c | c in t.callers && t.callers[c].phase.Answered? ensures AnswerIsRight(s, t, c) {
      assert CallerOk(t, t.callers[c]);
    }
    forall c, d | c in t.callers && d in t.callers
                  && t.callers[c].phase.Answered? && t.callers[d].phase.Answered?
                  && t.callers[c].request.requestId == t.callers[d].request.requestId
      ensures t.callers[c].phase == t.callers[d].phase
    {
      assert CallerOk(t, t.callers[c]) && CallerOk(t, t.callers[d]);
    }
  }

  ghost predicate AnswerIsRight(s: Race, t: Race, c: nat)
    requires c in t.callers && t.callers[c].phase.Answered?
  {
    var id, requestId := t.callers[c].phase.id, t.callers[c].request.requestId;
    && Holds(t.rows, id, requestId)
    && (forall other | Holds(t.rows, other, requestId) :: other == id)
    && if id in s.rows then t.rows[id].SamePayload(s.rows[id])
       else
         && id in t.winners && t.winners[id] in s.callers
         && s.callers[t.winners[id]].request.requestId == requestId
         && t.rows[id].SamePayload(RowOf(s.callers[t.winners[id]].request, t.rows[id].receivedAt))
  }
}
