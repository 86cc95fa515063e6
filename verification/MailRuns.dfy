/** Every call makes only enabled appends, so every run keeps the invariant; what that means for
    agents waiting for mail. */
module MailRuns {
  import opened Orders
  import opened MailLedgers
  import opened MailCalls
  import opened MailInvariants

  ghost predicate OnlyNotesDiffer(s: Ledgers, r: Ledgers) { r == s.(notes := r.notes) }

  ghost predicate NotesKept(before: map<NoteId, Note>, after: map<NoteId, Note>) {
    forall id | id in before :: id in after && after[id] == before[id]
  }

  lemma {:induction false} NoEvents(o: KeyOrder, s: Ledgers)
    requires o.Valid()
    ensures AllEnabled(o, s, []) && ApplyAll(o, s, []) == s
  {
  }

  lemma {:induction false} OneEvent(o: KeyOrder, s: Ledgers, e: Event)
    requires o.Valid() && Enabled(s, e)
    ensures AllEnabled(o, s, [e]) && ApplyAll(o, s, [e]) == Apply(o, s, e)
  {
    hide Apply, Enabled;
    NoEvents(o, s);
    EventsSnoc(o, s, [], e);
    assert [] + [e] == [e];
  }

  lemma {:induction false} TwoEvents(o: KeyOrder, s: Ledgers, a: Event, b: Event)
    requires o.Valid() && Enabled(s, a) && Enabled(Apply(o, s, a), b)
    ensures AllEnabled(o, s, [a, b]) && ApplyAll(o, s, [a, b]) == Apply(o, Apply(o, s, a), b)
  {
    hide Apply, Enabled;
    OneEvent(o, s, a);
    EventsSnoc(o, s, [a], b);
    assert [a] + [b] == [a, b];
  }

  /** Adding one missing notification at the end of a list of them. */
  lemma {:induction false} NoteAdded(o: KeyOrder, s: Ledgers, events: seq<Event>, d: Delivery, agent: AgentId, at: int)
    requires o.Valid() && AllEnabled(o, s, events) && OnlyNotesDiffer(s, ApplyAll(o, s, events))
    requires d.id in LatestDeliveries(s.deliveries) && LatestDeliveries(s.deliveries)[d.id] == d
    requires d.state.IsOpen() && d.FreeFor(agent)
    requires NoteId(d.id, agent) !in LatestNotes(ApplyAll(o, s, events).notes)
    ensures var r, note := ApplyAll(o, s, events), FreshNote(d, agent, at);
      && AllEnabled(o, s, events + [Noted(note)])
      && ApplyAll(o, s, events + [Noted(note)]) == r.(notes := r.notes + [note])
      && LatestNotes(r.notes + [note]) == LatestNotes(r.notes)[note.id := note]
  {
    hide LatestDeliveries, LatestNotes, AllEnabled, ApplyAll;
    var r := ApplyAll(o, s, events);
    EventsSnoc(o, s, events, Noted(FreshNote(d, agent, at)));
    NotesSnoc(r.notes, FreshNote(d, agent, at));
  }

  /** What adding the missing notifications for the first `n` of the listed agents amounts to. */
  lemma {:induction false} NotesForAgentsAdded(o: KeyOrder, s: Ledgers, d: Delivery, ids: seq<AgentId>, n: nat)
    requires o.Valid() && n <= |ids| && Distinct(ids) && forall i | 0 <= i < |ids| :: ids[i] in LatestAgents(s.agents)
    requires d.id in LatestDeliveries(s.deliveries) && LatestDeliveries(s.deliveries)[d.id] == d
    ensures var events := NotesForAgents(LatestAgents(s.agents), LatestNotes(s.notes), d, ids, n);
      var r := ApplyAll(o, s, events);
      && AllEnabled(o, s, events)
      && OnlyNotesDiffer(s, r)
      && NotesKept(LatestNotes(s.notes), LatestNotes(r.notes))
      && (forall k | n <= k < |ids| :: NoteId(d.id, ids[k]) in LatestNotes(r.notes) <==>
           NoteId(d.id, ids[k]) in LatestNotes(s.notes))
  {
    hide LatestDeliveries, LatestNotes, LatestAgents, AllEnabled, ApplyAll;
    var agents, known := LatestAgents(s.agents), LatestNotes(s.notes);
    if n == 0 {
      NoEvents(o, s);
    } else {
      NotesForAgentsAdded(o, s, d, ids, n - 1);
      var before := NotesForAgents(agents, known, d, ids, n - 1);
      AgentKeyed(s.agents);
      assert before + [] == before;
      if Wanted(agents[ids[n - 1]], d, known) {
        NoteAdded(o, s, before, d, ids[n - 1], d.createdAt);
      }
    }
  }

  /** The same for an agent and the deliveries it should know of; afterwards it knows of each. */
  lemma {:induction false} NotesForDeliveriesAdded(o: KeyOrder, s: Ledgers, agent: Agent, at: int,
                                                   ids: seq<DeliveryId>, n: nat)
    requires o.Valid() && n <= |ids| && Distinct(ids) && forall i | 0 <= i < |ids| ::
            ids[i] in LatestDeliveries(s.deliveries)
    ensures var deliveries := LatestDeliveries(s.deliveries);
      var events := NotesForDeliveries(deliveries, LatestNotes(s.notes), agent, at, ids, n);
      var r := ApplyAll(o, s, events);
      && AllEnabled(o, s, events)
      && OnlyNotesDiffer(s, r)
      && NotesKept(LatestNotes(s.notes), LatestNotes(r.notes))
      && (forall k | n <= k < |ids| :: NoteId(ids[k], agent.id) in LatestNotes(r.notes) <==>
           NoteId(ids[k], agent.id) in LatestNotes(s.notes))
      && (forall k | 0 <= k < n && agent.state != Retired && deliveries[ids[k]].state.IsOpen()
           && Actionable(agent, deliveries[ids[k]]) ::
            NoteId(ids[k], agent.id) in LatestNotes(r.notes))
  {
    hide LatestDeliveries, LatestNotes, LatestAgents, AllEnabled, ApplyAll, Actionable;
    var deliveries, known := LatestDeliveries(s.deliveries), LatestNotes(s.notes);
    if n == 0 {
      NoEvents(o, s);
    } else {
      NotesForDeliveriesAdded(o, s, agent, at, ids, n - 1);
      var before := NotesForDeliveries(deliveries, known, agent, at, ids, n - 1);
      DeliveryKeyed(s.deliveries);
      assert before + [] == before;
      if Wanted(agent, deliveries[ids[n - 1]], known) {
        ActionableIsFree(agent, deliveries[ids[n - 1]]);
        NoteAdded(o, s, before, deliveries[ids[n - 1]], agent.id, at);
      }
    }
  }

  lemma {:induction false} ActionableIsFree(agent: Agent, d: Delivery)
    requires Actionable(agent, d)
    ensures d.FreeFor(agent.id)
  {
  }

  lemma {:induction false} DeliveryNotesEnabled(o: KeyOrder, s: Ledgers, d: Delivery)
    requires o.Valid() && d.id in LatestDeliveries(s.deliveries) && LatestDeliveries(s.deliveries)[d.id] == d
    ensures AllEnabled(o, s, DeliveryNotes(o, s, d))
    ensures OnlyNotesDiffer(s, ApplyAll(o, s, DeliveryNotes(o, s, d)))
  {
    hide LatestDeliveries, LatestNotes, LatestAgents, AllEnabled, ApplyAll, NotesForAgents, TotalOrder;
    var ids := Ascending(o.agents, LatestAgents(s.agents).Keys);
    NotesForAgentsAdded(o, s, d, ids, |ids|);
  }

  /** An agent's missing notifications: afterwards it has one for every open delivery it may act on. */
  lemma {:induction false} AgentNotesEnabled(o: KeyOrder, s: Ledgers, agent: Agent, at: int)
    requires o.Valid()
    ensures var events := AgentNotes(o, s, agent, at);
      var r := ApplyAll(o, s, events);
      && AllEnabled(o, s, events)
      && OnlyNotesDiffer(s, r)
      && NotesKept(LatestNotes(s.notes), LatestNotes(r.notes))
      && (agent.state != Retired ==>
            forall id | id in LatestDeliveries(s.deliveries) && LatestDeliveries(s.deliveries)[id].state.IsOpen()
              && Actionable(agent, LatestDeliveries(s.deliveries)[id]) :: NoteId(id, agent.id) in LatestNotes(r.notes))
  {
    hide LatestDeliveries, LatestNotes, LatestAgents, AllEnabled, ApplyAll, NotesForDeliveries, TotalOrder, Actionable;
    var deliveries := LatestDeliveries(s.deliveries);
    var ids := Ascending(o.deliveries, deliveries.Keys);
    NotesForDeliveriesAdded(o, s, agent, at, ids, |ids|);
    var r := ApplyAll(o, s, AgentNotes(o, s, agent, at));
    forall id | agent.state != Retired && id in deliveries && deliveries[id].state.IsOpen()
      && Actionable(agent, deliveries[id])
      ensures NoteId(id, agent.id) in LatestNotes(r.notes)
    {
      assert id in ids;
      var k :| 0 <= k < |ids| && ids[k] == id;
    }
  }

  lemma {:induction false} RecipientEnabled(o: KeyOrder, s: Ledgers, message: Message, recipient: Address,
                                            limit: Option<nat>)
    requires o.Valid()
    ensures AllEnabled(o, s, RecipientEvents(o, s, message, recipient, limit))
  {
    hide LatestDeliveries, LatestNotes, AllEnabled, ApplyAll, DeliveryNotes, AtCapacity;
    var latest := LatestDeliveries(s.deliveries);
    var id := DeliveryId(message.id, recipient);
    if id in latest {
      DeliveryKeyed(s.deliveries);
      DeliveryNotesEnabled(o, s, latest[id]);
    } else if AtCapacity(latest, recipient, limit) {
      OneEvent(o, s, Deferred(Deferral(message.id, recipient, message.createdAt)));
    } else {
      var d := NewDelivery(message, recipient);
      OneEvent(o, s, Delivered(d));
      DeliveriesSnoc(s.deliveries, d);
      DeliveryNotesEnabled(o, Apply(o, s, Delivered(d)), d);
      EventsConcat(o, s, [Delivered(d)], DeliveryNotes(o, Apply(o, s, Delivered(d)), d));
    }
  }

  lemma {:induction false} SentToKeepsInv(o: KeyOrder, s: Ledgers, message: Message, recipients: seq<Address>,
                                          limit: Option<nat>, n: nat)
    requires o.Valid() && n <= |recipients| && Inv(s)
    ensures Inv(SentTo(o, s, message, recipients, limit, n))
  {
    hide Inv, AllEnabled, ApplyAll, RecipientEvents;
    if n > 0 {
      SentToKeepsInv(o, s, message, recipients, limit, n - 1);
      var before := SentTo(o, s, message, recipients, limit, n - 1);
      RecipientEnabled(o, before, message, recipients[n - 1], limit);
      EventsKeepInv(o, before, RecipientEvents(o, before, message, recipients[n - 1], limit));
    }
  }

  lemma {:induction false} AcceptEnabled(o: KeyOrder, s: Ledgers, message: Message)
    requires o.Valid()
    ensures AllEnabled(o, s, AcceptEvents(s, message))
  {
    hide AllEnabled, ApplyAll;
    NoEvents(o, s);
    if Accept(s, message) == Ok(NewMessage) {
      OneEvent(o, s, Accepted(message));
    }
  }

  lemma {:induction false} AgentCallEnabled(o: KeyOrder, s: Ledgers, call: Call)
    requires o.Valid() && (call.CallIdentify? || call.CallHeartbeat? || call.CallRetire?)
    ensures AllEnabled(o, s, SimpleEvents(o, s, call))
  {
    hide AllEnabled, ApplyAll, LatestAgents;
    NoEvents(o, s);
    AgentKeyed(s.agents);
    match call
    case CallIdentify(agent, requested, allowed, expires, at) =>
      var r := Identify(s, agent, requested, allowed, expires, at);
      if r.Ok? {
        TwoEvents(o, s, r.value[0], r.value[1]);
      }
    case CallHeartbeat(agent, expires, at) =>
      var r := Heartbeat(s, agent, expires, at);
      if r.Ok? && |r.value| == 1 {
        assert r.value == [r.value[0]];
        OneEvent(o, s, r.value[0]);
      } else if r.Ok? {
        assert r.value == [r.value[0], r.value[1]];
        TwoEvents(o, s, r.value[0], r.value[1]);
      }
    case CallRetire(agent, expires, at) =>
      var r := Retire(s, agent, expires, at);
      if r.Ok? {
        TwoEvents(o, s, r.value[0], r.value[1]);
      }
  }

  lemma {:induction false} DeliveryCallEnabled(o: KeyOrder, s: Ledgers, call: Call)
    requires o.Valid() && (call.CallClaim? || call.CallMark? || call.CallSnooze?)
    ensures AllEnabled(o, s, SimpleEvents(o, s, call))
  {
    hide AllEnabled, ApplyAll, LatestDeliveries, LiveAgent, Visible;
    NoEvents(o, s);
    DeliveryKeyed(s.deliveries);
    var events := SimpleEvents(o, s, call);
    if events != [] {
      OneEvent(o, s, events[0]);
    }
  }

  lemma {:induction false} NoteCallEnabled(o: KeyOrder, s: Ledgers, call: Call)
    requires o.Valid() && (call.CallAcknowledge? || call.CallRecord?)
    ensures AllEnabled(o, s, SimpleEvents(o, s, call))
  {
    hide AllEnabled, ApplyAll, LatestDeliveries, LatestNotes, LiveAgent;
    NoEvents(o, s);
    var events := SimpleEvents(o, s, call);
    if events != [] {
      OneEvent(o, s, events[0]);
    }
  }

  lemma {:induction false} CallEnabled(o: KeyOrder, s: Ledgers, call: Call)
    requires o.Valid()
    ensures AllEnabled(o, s, SimpleEvents(o, s, call))
  {
    hide AllEnabled, ApplyAll, Identify, Heartbeat, Retire, ClaimDelivery, MarkDelivery, SnoozeDelivery, Acknowledge,
         RecordAttempt, AgentNotes, LiveAgent, UnretiredAgent, AcceptEvents;
    NoEvents(o, s);
    match call
    case CallAccept(message) => AcceptEnabled(o, s, message);
    case CallPoll(agent, at) =>
      if LiveAgent(s, agent, at).Ok? {
        AgentNotesEnabled(o, s, LiveAgent(s, agent, at).value, at);
      }
    case CallDispatch(agent, at) =>
      if UnretiredAgent(s, agent).Ok? {
        AgentNotesEnabled(o, s, UnretiredAgent(s, agent).value, at);
      }
    case CallSend(_, _) =>
    case CallAcknowledge(_, _, _) => NoteCallEnabled(o, s, call);
    case CallRecord(_, _, _, _) => NoteCallEnabled(o, s, call);
    case CallClaim(_, _, _) => DeliveryCallEnabled(o, s, call);
    case CallMark(_, _, _, _) => DeliveryCallEnabled(o, s, call);
    case CallSnooze(_, _, _, _) => DeliveryCallEnabled(o, s, call);
    case CallIdentify(_, _, _, _, _) => AgentCallEnabled(o, s, call);
    case CallHeartbeat(_, _, _) => AgentCallEnabled(o, s, call);
    case CallRetire(_, _, _) => AgentCallEnabled(o, s, call);
  }

  lemma {:induction false} CallKeepsInv(o: KeyOrder, s: Ledgers, call: Call)
    requires o.Valid() && Inv(s)
    ensures Inv(After(o, s, call))
  {
    hide Inv, AllEnabled, ApplyAll, SimpleEvents, SentTo, Effective, RecipientList, AcceptEvents;
    if call.CallSend? {
      var message := call.message;
      AcceptEnabled(o, s, message);
      EventsKeepInv(o, s, AcceptEvents(s, message));
      var effective := Effective(s, message);
      if effective.Ok? {
        var recipients := RecipientList(o, message);
        SentToKeepsInv(o, ApplyAll(o, s, AcceptEvents(s, message)), effective.value, recipients, call.limit,
          |recipients|);
      }
    } else {
      CallEnabled(o, s, call);
      EventsKeepInv(o, s, SimpleEvents(o, s, call));
    }
  }

  /** Every state of every run satisfies the invariant. */
  lemma {:induction false} RunKeepsInv(o: KeyOrder, calls: seq<Call>, n: nat)
    requires o.Valid() && n <= |calls|
    ensures Inv(Run(o, calls, n))
  {
    hide Inv, After;
    if n == 0 {
      EmptyInv();
    } else {
      RunKeepsInv(o, calls, n - 1);
      CallKeepsInv(o, Run(o, calls, n - 1), calls[n - 1]);
    }
  }
}
