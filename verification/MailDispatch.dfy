/** Recorded attempts: how often, how far apart, and when the last one was made. */
module MailDispatch {
  import opened Orders
  import opened MailLedgers
  import opened MailCalls
  import opened MailInvariants
  import opened MailRuns
  import opened MailWakeups

  /** The notification counts its attempts, in every state of every run. */
  lemma {:induction false} RunCountsAttempts(o: KeyOrder, calls: seq<Call>, n: nat, id: NoteId)
    requires o.Valid() && n <= |calls| && id in LatestNotes(Run(o, calls, n).notes)
    ensures var s := Run(o, calls, n);
      && LatestNotes(s.notes)[id].attemptCount == CountAttempts(s.attempts, id)
      && forall i, j | 0 <= i < j < |s.attempts| :: s.attempts[i].id != s.attempts[j].id
  {
    RunKeepsInv(o, calls, n);
    hide Run, DeliveryHistory, NoteHistory, AgentHistory, LatestDeliveries, LatestNotes, NotesFit, ClaimsReplay,
         KeysUnique, MessagesHeld;
  }

  function LastAttempt(attempts: seq<Attempt>, note: NoteId): (a: Option<AttemptId>)
    ensures a.Some? ==> a.value.note == note
  {
    if attempts == [] then None
    else
      var n := |attempts| - 1;
      if attempts[n].id.note == note then Some(attempts[n].id) else LastAttempt(attempts[..n], note)
  }

  /** A retry comes when the failure before it allows one, and after nothing else. */
  predicate Retries(earlier: AttemptId, later: AttemptId) {
    earlier.status == Failed && NextDispatch(earlier.at) <= later.at
  }

  ghost predicate SpacedOut(attempts: seq<Attempt>) {
    attempts == []
    || var n := |attempts| - 1;
       && SpacedOut(attempts[..n])
       && var last := LastAttempt(attempts[..n], attempts[n].id.note);
          last.Some? ==> Retries(last.value, attempts[n].id)
  }

  predicate Remembers(note: Note, last: Option<AttemptId>) {
    last.Some? ==>
      && note.attemptCount > 0
      && note.nextDispatchAt == if last.value.status == Failed then Some(NextDispatch(last.value.at)) else None
  }

  /** Every notification knows its last attempt. */
  ghost predicate LastKnown(notes: map<NoteId, Note>, attempts: seq<Attempt>) {
    forall id | id in notes :: Remembers(notes[id], LastAttempt(attempts, id))
  }

  ghost predicate Paced(s: Ledgers) {
    SpacedOut(s.attempts) && LastKnown(LatestNotes(s.notes), s.attempts)
  }

  lemma {:induction false} LastSnoc(attempts: seq<Attempt>, a: Attempt, id: NoteId)
    ensures LastAttempt(attempts + [a], id) == if a.id.note == id then Some(a.id) else LastAttempt(attempts, id)
  {
    assert (attempts + [a])[..|attempts|] == attempts;
  }

  lemma {:induction false} NeverAttempted(attempts: seq<Attempt>, id: NoteId)
    requires forall i | 0 <= i < |attempts| :: attempts[i].id.note != id
    ensures LastAttempt(attempts, id) == None
  {
    if attempts != [] {
      NeverAttempted(attempts[..|attempts| - 1], id);
    }
  }

  lemma {:induction false} AttemptPaced(notes: map<NoteId, Note>, attempts: seq<Attempt>, id: NoteId,
                                        status: AttemptStatus, at: int,
                                        error: Option<string>)
    requires SpacedOut(attempts) && LastKnown(notes, attempts) && id in notes && Dispatchable(notes[id], at)
    ensures var a := Attempt(AttemptId(id, at, status), error);
      && SpacedOut(attempts + [a])
      && LastKnown(notes[id := AttemptedNote(notes[id], status, at, error)], attempts + [a])
  {
    var a := Attempt(AttemptId(id, at, status), error);
    var after := notes[id := AttemptedNote(notes[id], status, at, error)];
    assert (attempts + [a])[..|attempts|] == attempts;
    assert Remembers(notes[id], LastAttempt(attempts, id));
    hide SpacedOut, LastAttempt;
    forall x | x in after ensures Remembers(after[x], LastAttempt(attempts + [a], x)) {
      LastSnoc(attempts, a, x);
    }
    SpacedSnoc(attempts, a);
  }

  lemma {:induction false} SpacedSnoc(attempts: seq<Attempt>, a: Attempt)
    requires SpacedOut(attempts)
    requires LastAttempt(attempts, a.id.note).Some? ==> Retries(LastAttempt(attempts, a.id.note).value, a.id)
    ensures SpacedOut(attempts + [a])
  {
    assert (attempts + [a])[..|attempts|] == attempts;
  }

  /** Acknowledging and suppressing a notification leave its dispatch times alone. */
  lemma {:induction false} StillKnown(notes: map<NoteId, Note>, after: map<NoteId, Note>, attempts: seq<Attempt>)
    requires LastKnown(notes, attempts)
    requires forall id | id in after :: id in notes && after[id].attemptCount == notes[id].attemptCount
               && after[id].nextDispatchAt == notes[id].nextDispatchAt
    ensures LastKnown(after, attempts)
  {
  }

  /** An attempt is only made when its notification may be dispatched. */
  ghost predicate OnlyWhenDue(s: Ledgers, e: Event) {
    e.Attempted? ==> e.noteId in LatestNotes(s.notes) && Dispatchable(LatestNotes(s.notes)[e.noteId], e.at)
  }

  lemma {:induction false} MovePaced(o: KeyOrder, s: Ledgers, id: DeliveryId, actor: AgentId, state: DeliveryState,
                                     until: Option<int>, at: int)
    requires o.Valid() && Paced(s) && id in LatestDeliveries(s.deliveries)
    ensures Paced(Move(o, s, id, actor, state, until, at))
  {
    hide LatestDeliveries, LatestNotes, CompetingSuppressed, SpacedOut, LastKnown, TotalOrder;
    SuppressionRead(o, s.notes, id, actor, at);
    assert s.notes + [] == s.notes;
    StillKnown(LatestNotes(s.notes), AfterSuppression(LatestNotes(s.notes), id, actor, at), s.attempts);
  }

  lemma {:induction false} EventPaced(o: KeyOrder, s: Ledgers, e: Event)
    requires o.Valid() && Inv(s) && Paced(s) && Enabled(s, e) && OnlyWhenDue(s, e)
    ensures Paced(Apply(o, s, e))
  {
    hide LatestDeliveries, LatestNotes, LatestAgents, CompetingSuppressed, SpacedOut, DeliveryHistory, NoteHistory,
         AgentHistory,
         NotesFit, ClaimsReplay, KeysUnique, MessagesHeld, Move, CountAttempts;
    match e
    case Noted(n) =>
      NotesSnoc(s.notes, n);
      NeverAttempted(s.attempts, n.id);
    case Moved(id, actor, state, until, at) => MovePaced(o, s, id, actor, state, until, at);
    case Acked(id, at) =>
      LatestNoteKeyed(s.notes);
      var note := AckedNote(LatestNotes(s.notes)[id], at);
      NotesSnoc(s.notes, note);
      StillKnown(LatestNotes(s.notes), LatestNotes(s.notes)[id := note], s.attempts);
    case Attempted(id, status, at, error) =>
      LatestNoteKeyed(s.notes);
      NotesSnoc(s.notes, AttemptedNote(LatestNotes(s.notes)[id], status, at, error));
      AttemptPaced(LatestNotes(s.notes), s.attempts, id, status, at, error);
    case AgentSeen(_) =>
    case Leased(_) =>
    case Accepted(_) =>
    case Delivered(_) =>
    case Deferred(_) =>
  }

  ghost predicate NoAttempt(events: seq<Event>) { forall i | 0 <= i < |events| :: !events[i].Attempted? }

  lemma {:induction false} EventsPaced(o: KeyOrder, s: Ledgers, events: seq<Event>)
    requires o.Valid() && Inv(s) && Paced(s) && AllEnabled(o, s, events) && NoAttempt(events)
    ensures Paced(ApplyAll(o, s, events))
  {
    hide Inv, Paced, Enabled, Apply;
    if events != [] {
      var n := |events| - 1;
      EventsKeepInv(o, s, events[..n]);
      EventsPaced(o, s, events[..n]);
      EventPaced(o, ApplyAll(o, s, events[..n]), events[n]);
    }
  }

  lemma {:induction false} DeliveryNotesNoAttempt(o: KeyOrder, s: Ledgers, d: Delivery)
    requires o.Valid()
    ensures NoAttempt(DeliveryNotes(o, s, d))
  {
    hide LatestAgents, LatestNotes, NotesForAgents, TotalOrder;
    var ids := Ascending(o.agents, LatestAgents(s.agents).Keys);
    AgentsNoAttempt(LatestAgents(s.agents), LatestNotes(s.notes), d, ids, |ids|);
  }

  lemma {:induction false} AgentsNoAttempt(agents: map<AgentId, Agent>, known: map<NoteId, Note>, d: Delivery,
                                           ids: seq<AgentId>, n: nat)
    requires n <= |ids| && forall i | 0 <= i < |ids| :: ids[i] in agents
    ensures NoAttempt(NotesForAgents(agents, known, d, ids, n))
  {
    hide Wanted;
    if n > 0 {
      AgentsNoAttempt(agents, known, d, ids, n - 1);
    }
  }

  lemma {:induction false} RecipientNoAttempt(o: KeyOrder, s: Ledgers, message: Message, recipient: Address,
                                              limit: Option<nat>)
    requires o.Valid()
    ensures NoAttempt(RecipientEvents(o, s, message, recipient, limit))
  {
    hide LatestDeliveries, DeliveryNotes, AtCapacity, Apply;
    var id := DeliveryId(message.id, recipient);
    if id in LatestDeliveries(s.deliveries) {
      DeliveryNotesNoAttempt(o, s, LatestDeliveries(s.deliveries)[id]);
    } else {
      var d := NewDelivery(message, recipient);
      DeliveryNotesNoAttempt(o, Apply(o, s, Delivered(d)), d);
    }
  }

  lemma {:induction false} SentToPaced(o: KeyOrder, s: Ledgers, message: Message, recipients: seq<Address>,
                                       limit: Option<nat>, n: nat)
    requires o.Valid() && n <= |recipients| && Inv(s) && Paced(s)
    ensures Paced(SentTo(o, s, message, recipients, limit, n))
  {
    hide Inv, Paced, AllEnabled, ApplyAll, RecipientEvents, NoAttempt;
    if n > 0 {
      var before := SentTo(o, s, message, recipients, limit, n - 1);
      SentToPaced(o, s, message, recipients, limit, n - 1);
      SentToKeepsInv(o, s, message, recipients, limit, n - 1);
      RecipientEnabled(o, before, message, recipients[n - 1], limit);
      RecipientNoAttempt(o, before, message, recipients[n - 1], limit);
      EventsPaced(o, before, RecipientEvents(o, before, message, recipients[n - 1], limit));
    }
  }

  lemma {:induction false} SimpleNoAttempt(o: KeyOrder, s: Ledgers, call: Call)
    requires o.Valid() && !call.CallRecord?
    ensures NoAttempt(SimpleEvents(o, s, call))
  {
    hide LatestDeliveries, LatestNotes, LatestAgents, LiveAgent, NotesForDeliveries, TotalOrder, Accessible, Accept;
    if (call.CallPoll? && LiveAgent(s, call.agent, call.at).Ok?) {
      AgentNotesNoAttempt(o, s, LiveAgent(s, call.agent, call.at).value, call.at);
    } else if (call.CallDispatch? && UnretiredAgent(s, call.agent).Ok?) {
      AgentNotesNoAttempt(o, s, UnretiredAgent(s, call.agent).value, call.at);
    }
  }

  lemma {:induction false} AgentNotesNoAttempt(o: KeyOrder, s: Ledgers, agent: Agent, at: int)
    requires o.Valid()
    ensures NoAttempt(AgentNotes(o, s, agent, at))
  {
    hide LatestDeliveries, LatestNotes, NotesForDeliveries, TotalOrder;
    var ids := Ascending(o.deliveries, LatestDeliveries(s.deliveries).Keys);
    EventsAreNotes(s, agent, at, ids, |ids|);
  }

  /** The caller records attempts only for notifications the dispatch queue offers at that time. */
  ghost predicate FromQueue(o: KeyOrder, s: Ledgers, call: Call)
    requires o.Valid()
  {
    call.CallRecord? ==> exists note | note in DispatchDue(o, s, call.note.agent, call.at) :: note.id == call.note
  }

  lemma {:induction false} QueuedIsDue(o: KeyOrder, s: Ledgers, call: Call)
    requires o.Valid() && call.CallRecord? && FromQueue(o, s, call)
    ensures call.note in LatestNotes(s.notes) && Dispatchable(LatestNotes(s.notes)[call.note], call.at)
  {
    hide LatestNotes, PendingDue, DuePending;
    var note :| note in DispatchDue(o, s, call.note.agent, call.at) && note.id == call.note;
    FilterMember(CanDispatch(call.at), PendingDue(o, s, call.note.agent, call.at), note);
    PendingDueIs(o, s, call.note.agent, call.at);
  }

  lemma {:induction false} RecordPaced(o: KeyOrder, s: Ledgers, call: Call)
    requires o.Valid() && Inv(s) && Paced(s) && call.CallRecord? && FromQueue(o, s, call)
    ensures Paced(ApplyAll(o, s, SimpleEvents(o, s, call)))
  {
    hide Inv, Paced, LatestNotes, Apply, ApplyAll, AllEnabled, FromQueue, SteeringFailure, FindAttempt, Dispatchable,
         Enabled;
    QueuedIsDue(o, s, call);
    CallEnabled(o, s, call);
    NoEvents(o, s);
    var events := SimpleEvents(o, s, call);
    if events != [] {
      EventsSnoc(o, s, [], events[0]);
      assert events == [] + [events[0]];
      EventPaced(o, s, events[0]);
    }
  }

  lemma {:induction false} CallPaced(o: KeyOrder, s: Ledgers, call: Call)
    requires o.Valid() && Inv(s) && Paced(s) && FromQueue(o, s, call)
    ensures Paced(After(o, s, call))
  {
    hide Inv, Paced, AllEnabled, ApplyAll, SimpleEvents, SentTo, Effective, RecipientList, FromQueue, NoAttempt;
    if call.CallRecord? {
      RecordPaced(o, s, call);
    } else if call.CallSend? {
      SendPaced(o, s, call.message, call.limit);
    } else {
      CallEnabled(o, s, call);
      SimpleNoAttempt(o, s, call);
      EventsPaced(o, s, SimpleEvents(o, s, call));
    }
  }

  lemma {:induction false} SendPaced(o: KeyOrder, s: Ledgers, message: Message, limit: Option<nat>)
    requires o.Valid() && Inv(s) && Paced(s)
    ensures Paced(AfterSend(o, s, message, limit))
  {
    hide Inv, Paced, AllEnabled, ApplyAll, SentTo, Effective, RecipientList;
    AcceptEnabled(o, s, message);
    EventsKeepInv(o, s, AcceptEvents(s, message));
    EventsPaced(o, s, AcceptEvents(s, message));
    var effective := Effective(s, message);
    if effective.Ok? {
      var recipients := RecipientList(o, message);
      SentToPaced(o, ApplyAll(o, s, AcceptEvents(s, message)), effective.value, recipients, limit, |recipients|);
    }
  }

  ghost predicate Disciplined(o: KeyOrder, calls: seq<Call>)
    requires o.Valid()
  {
    forall k | 0 <= k < |calls| :: FromQueue(o, Run(o, calls, k), calls[k])
  }

  lemma {:induction false} RunPaced(o: KeyOrder, calls: seq<Call>, n: nat)
    requires o.Valid() && n <= |calls| && Disciplined(o, calls)
    ensures Paced(Run(o, calls, n))
  {
    hide Inv, After, Paced, FromQueue;
    if n == 0 {
      EmptyPaced();
    } else {
      RunPaced(o, calls, n - 1);
      RunKeepsInv(o, calls, n - 1);
      CallPaced(o, Run(o, calls, n - 1), calls[n - 1]);
    }
  }

  lemma {:induction false} EmptyPaced()
    ensures Paced(EMPTY)
  {
  }

  lemma {:induction false} BeforeLast(attempts: seq<Attempt>, i: nat)
    requires SpacedOut(attempts) && i < |attempts|
    ensures var last := LastAttempt(attempts, attempts[i].id.note);
      last.Some? && (last.value == attempts[i].id || Retries(attempts[i].id, last.value))
  {
    var n := |attempts| - 1;
    if i < n {
      BeforeLast(attempts[..n], i);
      NextDispatchNear(LastAttempt(attempts[..n], attempts[i].id.note).value.at);
    }
  }

  lemma {:induction false} AllSpaced(attempts: seq<Attempt>, i: nat, j: nat)
    requires SpacedOut(attempts) && i < j < |attempts| && attempts[i].id.note == attempts[j].id.note
    ensures Retries(attempts[i].id, attempts[j].id)
    decreases |attempts|
  {
    var n := |attempts| - 1;
    if j < n {
      AllSpaced(attempts[..n], i, j);
    } else {
      BeforeLast(attempts[..n], i);
      NextDispatchNear(LastAttempt(attempts[..n], attempts[i].id.note).value.at);
    }
  }

  /** Dispatch discipline: of two attempts for one notification the earlier failed and the later came more
      than 59 seconds after it, and a full minute after it if the earlier fell on a whole second; so at
      most one was sent or a dry run, and it is the last. */
  lemma {:induction false} DispatchDiscipline(o: KeyOrder, calls: seq<Call>, n: nat, i: nat, j: nat)
    requires o.Valid() && n <= |calls| && Disciplined(o, calls)
    requires i < j < |Run(o, calls, n).attempts|
    requires Run(o, calls, n).attempts[i].id.note == Run(o, calls, n).attempts[j].id.note
    ensures var earlier, later := Run(o, calls, n).attempts[i].id, Run(o, calls, n).attempts[j].id;
      && earlier.status == Failed && earlier.at + 59 * SECOND < later.at
      && (earlier.at % SECOND == 0 ==> earlier.at + MINUTE <= later.at)
  {
    hide Run, SpacedOut, Disciplined;
    RunPaced(o, calls, n);
    AllSpaced(Run(o, calls, n).attempts, i, j);
    NextDispatchNear(Run(o, calls, n).attempts[i].id.at);
  }

  lemma {:induction false} NextDispatchNear(at: int)
    ensures at + 59 * SECOND < NextDispatch(at) <= at + MINUTE
    ensures NextDispatch(at) == at + MINUTE <==> at % SECOND == 0
  {
  }

  /** The exact condition for the minute: a failed attempt keeps every retry a minute away if and only if
      it fell on a whole second. */
  lemma {:induction false} MinuteKeptIff(note: Note, at: int, error: Option<string>)
    ensures (forall now | Dispatchable(AttemptedNote(note, Failed, at, error), now) :: at + MINUTE <= now)
            <==> at % SECOND == 0
  {
    hide NextDispatch;
    NextDispatchNear(at);
    assert Dispatchable(AttemptedNote(note, Failed, at, error), NextDispatch(at));
  }
}
