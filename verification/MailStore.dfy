/** The mail store as an object: its ledgers are fields that every call appends to, and each method is
    proved to do exactly what the call's specification says. */
module MailStore {
  import opened Orders
  import opened MailLedgers
  import opened MailCalls
  import opened MailInvariants
  import opened MailRuns

  class AgentMailStore {
    const order: KeyOrder
    var agents: seq<Agent>
    var leases: seq<Lease>
    var deliveries: seq<Delivery>
    var claims: seq<Claim>
    var notes: seq<Note>
    var attempts: seq<Attempt>
    var keys: seq<KeyRecord>
    var deferrals: seq<Deferral>
    var messages: map<string, Message>

    constructor (order: KeyOrder)
      requires order.Valid()
      ensures this.order == order && Now() == EMPTY
    {
      this.order := order;
      agents, leases, deliveries, claims := [], [], [], [];
      notes, attempts, keys, deferrals, messages := [], [], [], [], map[];
    }

    /** What the ledgers hold. */
    function Now(): (s: Ledgers)
      reads this
    {
      Ledgers(agents, leases, deliveries, claims, notes, attempts, keys, deferrals, messages)
    }

    // ----- reading

    method ReadDeliveries() returns (latest: map<DeliveryId, Delivery>)
      ensures latest == LatestDeliveries(deliveries)
    {
      latest := map[];
      for i := 0 to |deliveries|
        invariant latest == LatestDeliveries(deliveries[..i])
      {
        DeliveriesSnoc(deliveries[..i], deliveries[i]);
        assert deliveries[..i + 1] == deliveries[..i] + [deliveries[i]];
        latest := latest[deliveries[i].id := deliveries[i]];
      }
      assert deliveries[..|deliveries|] == deliveries;
    }

    method ReadNotes() returns (latest: map<NoteId, Note>)
      ensures latest == LatestNotes(notes)
    {
      latest := map[];
      for i := 0 to |notes|
        invariant latest == LatestNotes(notes[..i])
      {
        NotesSnoc(notes[..i], notes[i]);
        assert notes[..i + 1] == notes[..i] + [notes[i]];
        latest := latest[notes[i].id := notes[i]];
      }
      assert notes[..|notes|] == notes;
    }

    method ReadAgents() returns (latest: map<AgentId, Agent>)
      ensures latest == LatestAgents(agents)
    {
      latest := map[];
      for i := 0 to |agents|
        invariant latest == LatestAgents(agents[..i])
      {
        AgentsSnoc(agents[..i], agents[i]);
        assert agents[..i + 1] == agents[..i] + [agents[i]];
        latest := latest[agents[i].id := agents[i]];
      }
      assert agents[..|agents|] == agents;
    }

    // ----- agents

    method IdentifyAgent(id: AgentId, requested: seq<Address>, allowed: set<Address>, expires: int, at: int)
      returns (r: Result<Agent, Failure>)
      requires order.Valid()
      modifies this
      ensures Now() == After(order, old(Now()), CallIdentify(id, requested, allowed, expires, at))
      ensures r.Ok? <==> Identify(old(Now()), id, requested, allowed, expires, at).Ok?
      ensures r.Err? ==> r.error == Identify(old(Now()), id, requested, allowed, expires, at).error
      ensures r.Ok? ==> r.value.state == Active && id in LatestAgents(agents) && LatestAgents(agents)[id] == r.value
    {
      hide LatestAgents, ApplyAll, AllEnabled;
      NoEvents(order, Now());
      var latest := ReadAgents();
      if exists role | role in requested :: !role.Grantable? {
        return Err(NotGrantable);
      }
      if id in latest && latest[id].state == Retired {
        return Err(RetiredAgent);
      }
      var record := Agent(id, Filter(In(allowed), requested), expires, Active);
      var lease := Lease(id, expires, at);
      TwoEvents(order, Now(), AgentSeen(record), Leased(lease));
      AgentsSnoc(agents, record);
      agents := agents + [record];
      leases := leases + [lease];
      r := Ok(record);
    }

    method HeartbeatAgent(id: AgentId, expires: int, at: int) returns (r: Result<Lease, Failure>)
      requires order.Valid()
      modifies this
      ensures Now() == After(order, old(Now()), CallHeartbeat(id, expires, at))
      ensures r.Ok? <==> Heartbeat(old(Now()), id, expires, at).Ok?
      ensures r.Err? ==> r.error == Heartbeat(old(Now()), id, expires, at).error
      ensures r.Ok? ==> r.value == Lease(id, expires, at)
    {
      hide LatestAgents, ApplyAll, AllEnabled;
      NoEvents(order, Now());
      var latest := ReadAgents();
      if id !in latest {
        return Err(UnknownAgent);
      }
      if latest[id].state == Retired {
        return Err(RetiredAgent);
      }
      var lease := Lease(id, expires, at);
      if latest[id].state == Stale {
        var record := latest[id].(state := Active, leaseExpires := expires);
        AgentKeyed(agents);
        TwoEvents(order, Now(), AgentSeen(record), Leased(lease));
        assert [AgentSeen(record)] + [Leased(lease)] == [AgentSeen(record), Leased(lease)];
        agents := agents + [record];
      } else {
        OneEvent(order, Now(), Leased(lease));
        assert [] + [Leased(lease)] == [Leased(lease)];
      }
      leases := leases + [lease];
      r := Ok(lease);
    }

    method RetireAgent(id: AgentId, expires: int, at: int) returns (r: Result<Agent, Failure>)
      requires order.Valid()
      modifies this
      ensures Now() == After(order, old(Now()), CallRetire(id, expires, at))
      ensures if id in LatestAgents(old(agents)) then r.Ok? else r == Err(UnknownAgent)
      ensures r.Ok? ==> r.value.state == Retired && id in LatestAgents(agents) && LatestAgents(agents)[id] == r.value
    {
      hide LatestAgents, ApplyAll, AllEnabled;
      NoEvents(order, Now());
      var latest := ReadAgents();
      if id !in latest {
        return Err(UnknownAgent);
      }
      var record := latest[id].(state := Retired, leaseExpires := expires);
      var lease := Lease(id, expires, at);
      AgentKeyed(agents);
      TwoEvents(order, Now(), AgentSeen(record), Leased(lease));
      AgentsSnoc(agents, record);
      agents := agents + [record];
      leases := leases + [lease];
      r := Ok(record);
    }

    method RequireLiveAgent(id: AgentId, now: int) returns (r: Result<Agent, Failure>)
      ensures r == LiveAgent(Now(), id, now)
    {
      var latest := ReadAgents();
      if id !in latest {
        return Err(UnknownAgent);
      }
      if latest[id].state != Active {
        return Err(NotActive);
      }
      var lease := LatestLease(leases, id);
      if lease.Some? && lease.value.expires > now {
        return Ok(latest[id]);
      }
      r := Err(StaleLease);
    }

    // ----- notifications

    method EnsureDeliveryNotifications(d: Delivery)
      requires order.Valid() && d.id in LatestDeliveries(deliveries) && LatestDeliveries(deliveries)[d.id] == d
      modifies this`notes
      ensures Now() == ApplyAll(order, old(Now()), DeliveryNotes(order, old(Now()), d))
    {
      hide LatestAgents, LatestNotes, LatestDeliveries, ApplyAll, AllEnabled, TotalOrder, Actionable, NotesForAgents,
           FreshNote,
           KnownFrom, Distinct, SortedBy, Apply;
      ghost var s := Now();
      var records := ReadAgents();
      var latest := ReadNotes();
      ghost var known := latest;
      var ids := Ascending(order.agents, records.Keys);
      AgentKeyed(agents);
      NoNotesYet(order, s, d, ids);
      KnownAtFirst(known, d.id, ids);
      for i := 0 to |ids|
        invariant Now() == ApplyAll(order, s, NotesForAgents(records, known, d, ids, i))
        invariant KnownFrom(latest, known, d.id, ids, i)
      {
        var agent := records[ids[i]];
        var id := NoteId(d.id, agent.id);
        NotesForAgentsStep(records, known, d, ids, i);
        KnownNext(latest, known, d.id, ids, i, FreshNote(d, agent.id, d.createdAt));
        if agent.state != Retired && d.state.IsOpen() && Actionable(agent, d) && id !in latest {
          var note := FreshNote(d, agent.id, d.createdAt);
          NotedSnoc(order, s, NotesForAgents(records, known, d, ids, i), note);
          notes := notes + [note];
          latest := latest[id := note];
        }
      }
    }

    method EnsureAgentNotifications(agent: Agent, at: int)
      requires order.Valid()
      modifies this`notes
      ensures Now() == ApplyAll(order, old(Now()), AgentNotes(order, old(Now()), agent, at))
    {
      hide LatestNotes, LatestDeliveries, ApplyAll, AllEnabled, TotalOrder, Wanted, NotesForDeliveries, FreshNote,
           Distinct, SortedBy, Apply;
      ghost var s := Now();
      var records := ReadDeliveries();
      var latest := ReadNotes();
      var ids := Ascending(order.deliveries, records.Keys);
      NoNotesYetFor(order, s, agent, at, ids);
      for i := 0 to |ids|
        invariant Now() == ApplyAll(order, s, NotesForDeliveries(records, latest, agent, at, ids, i))
      {
        var d := records[ids[i]];
        NotesForDeliveriesStep(records, latest, agent, at, ids, i);
        if Wanted(agent, d, latest) {
          var note := FreshNote(d, agent.id, at);
          NotedSnoc(order, s, NotesForDeliveries(records, latest, agent, at, ids, i), note);
          notes := notes + [note];
        }
      }
    }

    method SuppressCompetingNotifications(delivery: DeliveryId, winner: AgentId, at: int)
      requires order.Valid()
      modifies this`notes
      ensures notes == old(notes) + CompetingSuppressed(order, old(notes), delivery, winner, at)
    {
      hide LatestNotes, TotalOrder, Suppressions, Competes, Suppress, Distinct, SortedBy;
      var latest := ReadNotes();
      var ids := Ascending(order.notes, latest.Keys);
      NoSuppressionYet(latest, ids, delivery, winner, at);
      assert notes + [] == notes;
      for i := 0 to |ids|
        invariant notes == old(notes) + Suppressions(latest, ids, i, delivery, winner, at)
      {
        var note := latest[ids[i]];
        SuppressionsStep(latest, ids, i, delivery, winner, at);
        if Competes(note, delivery, winner) {
          ConcatAssoc(old(notes), Suppressions(latest, ids, i, delivery, winner, at), [Suppress(note, at)]);
          notes := notes + [Suppress(note, at)];
        }
      }
    }

    method PendingDueNotifications(agent: AgentId, now: int) returns (due: seq<Note>)
      requires order.Valid()
      ensures due == PendingDue(order, Now(), agent, now)
    {
      hide LatestNotes, TotalOrder, Sort, DueNotes, LatestDeliveries, Distinct, SortedBy;
      var latestDeliveries := ReadDeliveries();
      var latest := ReadNotes();
      var ids := Ascending(order.notes, latest.Keys);
      var found: seq<Note> := [];
      NoneDueYet(Now(), latest, ids, agent, now);
      for i := 0 to |ids|
        invariant found == DueNotes(Now(), latest, ids, i, agent, now)
      {
        var note := latest[ids[i]];
        DueNotesStep(Now(), latest, ids, i, agent, now);
        if note.id.agent == agent && note.state == Pending && note.id.delivery in latestDeliveries {
          var d := latestDeliveries[note.id.delivery];
          if d.state.IsOpen() && d.FreeFor(note.id.agent) && d.DueAt(now) {
            found := found + [note];
          }
        }
      }
      due := Sort(NoteLe(order), found);
    }

    method NotificationPoll(agent: AgentId, now: int) returns (r: Result<seq<Note>, Failure>)
      requires order.Valid()
      modifies this`notes
      ensures Now() == After(order, old(Now()), CallPoll(agent, now))
      ensures r.Ok? <==> LiveAgent(old(Now()), agent, now).Ok?
      ensures r.Err? ==> r.error == LiveAgent(old(Now()), agent, now).error
      ensures r.Ok? ==> r.value == PendingDue(order, Now(), agent, now)
    {
      hide LiveAgent, ApplyAll, AgentNotes, PendingDue;
      NoEvents(order, Now());
      var live := RequireLiveAgent(agent, now);
      if live.Err? {
        return Err(live.error);
      }
      EnsureAgentNotifications(live.value, now);
      var due := PendingDueNotifications(agent, now);
      r := Ok(due);
    }

    method NotificationDispatchQueue(agent: AgentId, now: int) returns (r: Result<seq<Note>, Failure>)
      requires order.Valid()
      modifies this`notes
      ensures Now() == After(order, old(Now()), CallDispatch(agent, now))
      ensures r.Ok? <==> UnretiredAgent(old(Now()), agent).Ok?
      ensures r.Err? ==> r.error == UnretiredAgent(old(Now()), agent).error
      ensures r.Ok? ==> r.value == DispatchDue(order, Now(), agent, now)
    {
      hide LatestAgents, ApplyAll, AgentNotes, PendingDue;
      NoEvents(order, Now());
      var latest := ReadAgents();
      if agent !in latest {
        return Err(UnknownAgent);
      }
      if latest[agent].state == Retired {
        return Err(RetiredAgent);
      }
      EnsureAgentNotifications(latest[agent], now);
      var due := PendingDueNotifications(agent, now);
      r := Ok(Filter(CanDispatch(now), due));
    }

    method AcknowledgeNotification(agent: AgentId, id: NoteId, at: int) returns (r: Result<Note, Failure>)
      requires order.Valid()
      modifies this`notes
      ensures Now() == After(order, old(Now()), CallAcknowledge(agent, id, at))
      ensures r.Ok? <==> Acknowledge(old(Now()), agent, id, at).Ok?
      ensures r.Err? ==> r.error == Acknowledge(old(Now()), agent, id, at).error
      ensures r.Ok? ==> id in LatestNotes(notes) && r.value == LatestNotes(notes)[id] && r.value.state != Pending
    {
      hide LiveAgent, ApplyAll, AllEnabled, LatestNotes;
      NoEvents(order, Now());
      var live := RequireLiveAgent(agent, at);
      if live.Err? {
        return Err(live.error);
      }
      var latest := ReadNotes();
      if id !in latest {
        return Err(UnknownNote);
      }
      if id.agent != agent {
        return Err(WrongAgent);
      }
      if latest[id].state != Pending {
        return Ok(latest[id]);
      }
      LatestNoteKeyed(notes);
      var note := AckedNote(latest[id], at);
      OneEvent(order, Now(), Acked(id, at));
      NotesSnoc(notes, note);
      notes := notes + [note];
      r := Ok(note);
    }

    method RecordNotificationAttempt(id: NoteId, status: AttemptStatus, at: int, error: Option<string>)
      returns (r: Result<Attempt, Failure>)
      requires order.Valid()
      modifies this`notes, this`attempts
      ensures Now() == After(order, old(Now()), CallRecord(id, status, at, error))
      ensures r.Ok? <==> RecordAttempt(old(Now()), id, status, at, error).Ok?
      ensures r.Err? ==> r.error == RecordAttempt(old(Now()), id, status, at, error).error
      ensures r.Ok? ==> r.value in attempts && r.value.id == AttemptId(id, at, status)
    {
      hide ApplyAll, AllEnabled, LatestNotes, LatestDeliveries;
      NoEvents(order, Now());
      var attemptId := AttemptId(id, at, status);
      var existing := FindAttempt(attempts, attemptId, 0);
      if existing.Some? {
        return Ok(existing.value);
      }
      var latest := ReadNotes();
      if id !in latest {
        return Err(UnknownNote);
      }
      var failure := SteeringFailure(Now(), latest[id]);
      if failure.Some? {
        return Err(failure.value);
      }
      NoSuchAttempt(attempts, attemptId);
      OneEvent(order, Now(), Attempted(id, status, at, error));
      var attempt := Attempt(attemptId, error);
      attempts := attempts + [attempt];
      notes := notes + [AttemptedNote(latest[id], status, at, error)];
      r := Ok(attempt);
    }

    // ----- deliveries

    method TransitionDelivery(d: Delivery, actor: AgentId, state: DeliveryState, until: Option<int>, at: int)
      returns (updated: Delivery)
      requires order.Valid() && d.id in LatestDeliveries(deliveries) && LatestDeliveries(deliveries)[d.id] == d
      modifies this`deliveries, this`claims, this`notes
      ensures Now() == Move(order, old(Now()), d.id, actor, state, until, at)
      ensures updated == MovedTo(d, actor, state, until, at) && deliveries == old(deliveries) + [updated]
    {
      hide LatestDeliveries, CompetingSuppressed;
      updated := MovedTo(d, actor, state, until, at);
      deliveries := deliveries + [updated];
      claims := claims + [Claim(updated.id, updated.thread, actor, state, at)];
      assert notes + [] == notes;
      if updated.claimedBy == Some(actor) {
        SuppressCompetingNotifications(updated.id, actor, at);
      }
    }

    /** The access checks of a delivery change. */
    method RequireDelivery(id: DeliveryId, agent: Agent) returns (r: Result<Delivery, Failure>)
      ensures r == Accessible(Now(), id, agent)
    {
      var latest := ReadDeliveries();
      if id !in latest {
        return Err(UnknownDelivery);
      }
      if !Visible(agent, latest[id]) {
        return Err(NoAccess);
      }
      r := Ok(latest[id]);
    }

    method ClaimDelivery(id: DeliveryId, agent: AgentId, at: int) returns (r: Result<Delivery, Failure>)
      requires order.Valid()
      modifies this`deliveries, this`claims, this`notes
      ensures Now() == After(order, old(Now()), CallClaim(id, agent, at))
      ensures r.Ok? <==> MailCalls.ClaimDelivery(old(Now()), id, agent, at).Ok?
      ensures r.Err? ==> r.error == MailCalls.ClaimDelivery(old(Now()), id, agent, at).error
      ensures r.Ok? ==> id in LatestDeliveries(deliveries) && r.value == LatestDeliveries(deliveries)[id]
                        && r.value.state == Claimed && r.value.claimedBy == Some(agent)
    {
      hide LiveAgent, ApplyAll, AllEnabled, LatestDeliveries, Move, Visible;
      NoEvents(order, Now());
      DeliveryKeyed(deliveries);
      var live := RequireLiveAgent(agent, at);
      if live.Err? {
        return Err(live.error);
      }
      var found := RequireDelivery(id, live.value);
      if found.Err? {
        return Err(found.error);
      }
      var d := found.value;
      if d.state.IsTerminal() {
        return Err(AlreadyTerminal);
      }
      if d.state == Claimed && d.claimedBy == Some(agent) {
        return Ok(d);
      }
      if !d.FreeFor(agent) {
        return Err(ClaimedByOther);
      }
      OneEvent(order, Now(), Moved(id, agent, Claimed, None, at));
      DeliveriesSnoc(deliveries, MovedTo(d, agent, Claimed, None, at));
      var updated := TransitionDelivery(d, agent, Claimed, None, at);
      r := Ok(updated);
    }

    method MarkDelivery(id: DeliveryId, agent: AgentId, state: DeliveryState, at: int)
      returns (r: Result<Delivery, Failure>)
      requires order.Valid()
      modifies this`deliveries, this`claims, this`notes
      ensures Now() == After(order, old(Now()), CallMark(id, agent, state, at))
      ensures r.Ok? <==> MailCalls.MarkDelivery(old(Now()), id, agent, state, at).Ok?
      ensures r.Err? ==> r.error == MailCalls.MarkDelivery(old(Now()), id, agent, state, at).error
      ensures r.Ok? ==> id in LatestDeliveries(deliveries) && r.value == LatestDeliveries(deliveries)[id]
                        && r.value.state == state
    {
      hide LiveAgent, ApplyAll, AllEnabled, LatestDeliveries, Move, Visible;
      NoEvents(order, Now());
      DeliveryKeyed(deliveries);
      var live := RequireLiveAgent(agent, at);
      if live.Err? {
        return Err(live.error);
      }
      if !state.IsMarkState() {
        return Err(NotMarkable);
      }
      var found := RequireDelivery(id, live.value);
      if found.Err? {
        return Err(found.error);
      }
      var d := found.value;
      if d.state.IsTerminal() {
        if d.state == state && d.claimedBy == Some(agent) {
          return Ok(d);
        }
        return Err(AlreadyTerminal);
      }
      if !d.FreeFor(agent) {
        return Err(ClaimedByOther);
      }
      if d.claimedBy == None && state.IsTerminal() {
        return Err(NotClaimed);
      }
      OneEvent(order, Now(), Moved(id, agent, state, None, at));
      DeliveriesSnoc(deliveries, MovedTo(d, agent, state, None, at));
      var updated := TransitionDelivery(d, agent, state, None, at);
      r := Ok(updated);
    }

    method SnoozeDelivery(id: DeliveryId, agent: AgentId, until: int, at: int) returns (r: Result<Delivery, Failure>)
      requires order.Valid()
      modifies this`deliveries, this`claims, this`notes
      ensures Now() == After(order, old(Now()), CallSnooze(id, agent, until, at))
      ensures r.Ok? <==> MailCalls.SnoozeDelivery(old(Now()), id, agent, until, at).Ok?
      ensures r.Err? ==> r.error == MailCalls.SnoozeDelivery(old(Now()), id, agent, until, at).error
      ensures r.Ok? ==> id in LatestDeliveries(deliveries) && r.value == LatestDeliveries(deliveries)[id]
                        && r.value.state == Snoozed && r.value.snoozedUntil == Some(until)
    {
      hide LiveAgent, ApplyAll, AllEnabled, LatestDeliveries, Move, Visible;
      NoEvents(order, Now());
      DeliveryKeyed(deliveries);
      var live := RequireLiveAgent(agent, at);
      if live.Err? {
        return Err(live.error);
      }
      var found := RequireDelivery(id, live.value);
      if found.Err? {
        return Err(found.error);
      }
      var d := found.value;
      if d.state.IsTerminal() {
        return Err(AlreadyTerminal);
      }
      if !d.FreeFor(agent) {
        return Err(ClaimedByOther);
      }
      OneEvent(order, Now(), Moved(id, agent, Snoozed, Some(until), at));
      DeliveriesSnoc(deliveries, MovedTo(d, agent, Snoozed, Some(until), at));
      var updated := TransitionDelivery(d, agent, Snoozed, Some(until), at);
      r := Ok(updated);
    }

    // ----- sending

    method AcceptMessage(message: Message) returns (r: Result<Acceptance, Failure>)
      requires order.Valid()
      modifies this`keys, this`messages
      ensures Now() == ApplyAll(order, old(Now()), AcceptEvents(old(Now()), message))
      ensures r == Accept(old(Now()), message)
    {
      hide ApplyAll, AllEnabled;
      NoEvents(order, Now());
      for i := 0 to |keys|
        invariant FindKey(keys, message.payload.key, 0) == FindKey(keys, message.payload.key, i)
      {
        if keys[i].key == message.payload.key {
          if keys[i].payload == message.payload {
            return Ok(Duplicate(keys[i].messageId));
          }
          return Err(KeyReused);
        }
      }
      OneEvent(order, Now(), Accepted(message));
      keys := keys + [KeyRecord(message.payload.key, message.id, message.payload, message.createdAt)];
      messages := messages[message.id := message];
      r := Ok(NewMessage);
    }

    /** One recipient of a send; `latest` is kept up to date with the deliveries made on the way. */
    method SendToRecipient(message: Message, recipient: Address, limit: Option<nat>, latest: map<DeliveryId, Delivery>)
      returns (attempt: DeliveryAttempt, now: map<DeliveryId, Delivery>)
      requires order.Valid() && latest == LatestDeliveries(deliveries)
      modifies this`deliveries, this`notes, this`deferrals
      ensures Now() == ApplyAll(order, old(Now()), RecipientEvents(order, old(Now()), message, recipient, limit))
      ensures attempt == DeliveryAttempt(recipient, DeliveryId(message.id, recipient),
                                         RecipientStatus(old(Now()), message, recipient, limit))
      ensures now == LatestDeliveries(deliveries)
    {
      hide ApplyAll, AllEnabled, LatestDeliveries, DeliveryNotes, OpenFor;
      var id := DeliveryId(message.id, recipient);
      if id in latest {
        DeliveryKeyed(deliveries);
        DeliveryNotesEnabled(order, Now(), latest[id]);
        EnsureDeliveryNotifications(latest[id]);
        return DeliveryAttempt(recipient, id, AlreadyDelivered), latest;
      }
      if limit.Some? && |OpenFor(latest, recipient)| >= limit.value {
        var deferral := Deferral(message.id, recipient, message.createdAt);
        OneEvent(order, Now(), Deferred(deferral));
        deferrals := deferrals + [deferral];
        return DeliveryAttempt(recipient, id, DeferredCapacity), latest;
      }
      var d := NewDelivery(message, recipient);
      ghost var s := Now();
      OneEvent(order, s, Delivered(d));
      DeliveriesSnoc(deliveries, d);
      EventsConcat(order, s, [Delivered(d)], DeliveryNotes(order, Apply(order, s, Delivered(d)), d));
      deliveries := deliveries + [d];
      EnsureDeliveryNotifications(d);
      now := latest[id := d];
      attempt := DeliveryAttempt(recipient, id, WasDelivered);
    }

    method SendMail(message: Message, limit: Option<nat>) returns (r: Result<Receipt, Failure>)
      requires order.Valid()
      modifies this
      ensures Now() == After(order, old(Now()), CallSend(message, limit))
      ensures r == SendReceipt(order, old(Now()), message, limit)
    {
      hide ApplyAll, AllEnabled, LatestDeliveries, SentTo, AttemptsUpTo, RecipientEvents, RecipientStatus, Recipients,
           FindKey, Accept, AcceptEvents;
      ghost var s := Now();
      var recipients := RecipientList(order, message);
      var acceptance := AcceptMessage(message);
      ghost var start := Now();
      if acceptance.Err? {
        RejectedUnchanged(order, s, message);
        return Err(acceptance.error);
      }
      var effective := message;
      if acceptance.value.Duplicate? && acceptance.value.messageId != message.id {
        DuplicateUnchanged(order, s, message);
        if acceptance.value.messageId !in messages {
          return Err(UnknownMessage);
        }
        effective := messages[acceptance.value.messageId];
      }
      var attempts: seq<DeliveryAttempt> := [];
      var latest := ReadDeliveries();
      SendStarts(order, start, effective, recipients, limit);
      for i := 0 to |recipients|
        invariant Now() == SentTo(order, start, effective, recipients, limit, i)
        invariant attempts == AttemptsUpTo(order, start, effective, recipients, limit, i)
        invariant latest == LatestDeliveries(deliveries)
      {
        SendStep(order, start, effective, recipients, limit, i);
        var attempt;
        attempt, latest := SendToRecipient(effective, recipients[i], limit, latest);
        attempts := attempts + [attempt];
      }
      r := Ok(Receipt(acceptance.value, attempts));
    }
  }

  lemma {:induction false} NoSuchAttempt(attempts: seq<Attempt>, id: AttemptId)
    requires FindAttempt(attempts, id, 0).None?
    ensures forall a | a in attempts :: a.id != id
  {
  }

  lemma {:induction false} RejectedUnchanged(o: KeyOrder, s: Ledgers, message: Message)
    requires o.Valid() && Accept(s, message).Err?
    ensures ApplyAll(o, s, AcceptEvents(s, message)) == s
  {
    NoEvents(o, s);
  }

  lemma {:induction false} DuplicateUnchanged(o: KeyOrder, s: Ledgers, message: Message)
    requires o.Valid() && Accept(s, message).Ok? && Accept(s, message).value.Duplicate?
    ensures ApplyAll(o, s, AcceptEvents(s, message)) == s
  {
    NoEvents(o, s);
  }

  lemma {:induction false} SendStarts(o: KeyOrder, s: Ledgers, message: Message, recipients: seq<Address>,
                                      limit: Option<nat>)
    requires o.Valid()
    ensures SentTo(o, s, message, recipients, limit, 0) == s && AttemptsUpTo(o, s, message, recipients, limit, 0) == []
  {
  }

  lemma {:induction false} SendStep(o: KeyOrder, s: Ledgers, message: Message, recipients: seq<Address>,
                                    limit: Option<nat>, i: nat)
    requires o.Valid() && i < |recipients|
    ensures var before := SentTo(o, s, message, recipients, limit, i);
      && SentTo(o, s, message, recipients, limit, i + 1) ==
           ApplyAll(o, before, RecipientEvents(o, before, message, recipients[i], limit))
      && AttemptsUpTo(o, s, message, recipients, limit, i + 1) ==
         AttemptsUpTo(o, s, message, recipients, limit, i)
         + [DeliveryAttempt(recipients[i], DeliveryId(message.id, recipients[i]),
           RecipientStatus(before, message, recipients[i], limit))]
  {
    hide ApplyAll, RecipientEvents, RecipientStatus;
  }

  // ----- one turn of each loop

  lemma {:induction false} NotedSnoc(o: KeyOrder, s: Ledgers, events: seq<Event>, note: Note)
    requires o.Valid()
    ensures var r := ApplyAll(o, s, events);
      ApplyAll(o, s, events + [Noted(note)]) == r.(notes := r.notes + [note])
  {
    hide ApplyAll, AllEnabled;
    EventsSnoc(o, s, events, Noted(note));
  }

  lemma {:induction false} NoNotesYet(o: KeyOrder, s: Ledgers, d: Delivery, ids: seq<AgentId>)
    requires o.Valid() && forall i | 0 <= i < |ids| :: ids[i] in LatestAgents(s.agents)
    ensures ApplyAll(o, s, NotesForAgents(LatestAgents(s.agents), LatestNotes(s.notes), d, ids, 0)) == s
  {
    hide LatestAgents, LatestNotes;
  }

  /** From the `i`-th agent on, the notifications added so far make no difference. */
  ghost predicate KnownFrom(latest: map<NoteId, Note>, known: map<NoteId, Note>, delivery: DeliveryId,
                            ids: seq<AgentId>, i: nat) {
    forall k | i <= k < |ids| :: NoteId(delivery, ids[k]) in latest <==> NoteId(delivery, ids[k]) in known
  }

  lemma {:induction false} KnownAtFirst(known: map<NoteId, Note>, delivery: DeliveryId, ids: seq<AgentId>)
    ensures KnownFrom(known, known, delivery, ids, 0)
  {
  }

  lemma {:induction false} KnownNext(latest: map<NoteId, Note>, known: map<NoteId, Note>, delivery: DeliveryId,
                                     ids: seq<AgentId>, i: nat,
                                     note: Note)
    requires KnownFrom(latest, known, delivery, ids, i) && i < |ids| && Distinct(ids)
    ensures NoteId(delivery, ids[i]) in latest <==> NoteId(delivery, ids[i]) in known
    ensures KnownFrom(latest, known, delivery, ids, i + 1)
    ensures KnownFrom(latest[NoteId(delivery, ids[i]) := note], known, delivery, ids, i + 1)
  {
  }

  lemma {:induction false} NotesForAgentsStep(agents: map<AgentId, Agent>, known: map<NoteId, Note>, d: Delivery,
                                              ids: seq<AgentId>, i: nat)
    requires i < |ids| && forall k | 0 <= k < |ids| :: ids[k] in agents
    ensures NotesForAgents(agents, known, d, ids, i + 1) ==
            if Wanted(agents[ids[i]], d, known)
            then NotesForAgents(agents, known, d, ids, i) + [Noted(FreshNote(d, agents[ids[i]].id, d.createdAt))]
            else NotesForAgents(agents, known, d, ids, i)
  {
    hide Wanted, FreshNote;
    assert NotesForAgents(agents, known, d, ids, i) + [] == NotesForAgents(agents, known, d, ids, i);
  }

  lemma {:induction false} NoNotesYetFor(o: KeyOrder, s: Ledgers, agent: Agent, at: int, ids: seq<DeliveryId>)
    requires o.Valid() && forall i | 0 <= i < |ids| :: ids[i] in LatestDeliveries(s.deliveries)
    ensures ApplyAll(o, s,
            NotesForDeliveries(LatestDeliveries(s.deliveries), LatestNotes(s.notes), agent, at, ids, 0)) == s
  {
    hide LatestDeliveries, LatestNotes;
  }

  lemma {:induction false} NotesForDeliveriesStep(deliveries: map<DeliveryId, Delivery>, known: map<NoteId, Note>,
                                                  agent: Agent, at: int,
                                                  ids: seq<DeliveryId>, i: nat)
    requires i < |ids| && forall k | 0 <= k < |ids| :: ids[k] in deliveries
    ensures NotesForDeliveries(deliveries, known, agent, at, ids, i + 1) ==
            if Wanted(agent, deliveries[ids[i]], known)
            then NotesForDeliveries(deliveries, known, agent, at, ids, i)
              + [Noted(FreshNote(deliveries[ids[i]], agent.id, at))]
            else NotesForDeliveries(deliveries, known, agent, at, ids, i)
  {
    hide Wanted, FreshNote;
    assert NotesForDeliveries(deliveries, known, agent, at, ids, i) + [] ==
      NotesForDeliveries(deliveries, known, agent, at, ids, i);
  }

  lemma {:induction false} NoSuppressionYet(latest: map<NoteId, Note>, ids: seq<NoteId>, delivery: DeliveryId,
                                            winner: AgentId, at: int)
    requires forall i | 0 <= i < |ids| :: ids[i] in latest
    ensures Suppressions(latest, ids, 0, delivery, winner, at) == []
  {
  }

  lemma {:induction false} SuppressionsStep(latest: map<NoteId, Note>, ids: seq<NoteId>, i: nat, delivery: DeliveryId,
                                            winner: AgentId, at: int)
    requires i < |ids| && forall k | 0 <= k < |ids| :: ids[k] in latest
    ensures Suppressions(latest, ids, i + 1, delivery, winner, at) ==
            if Competes(latest[ids[i]], delivery, winner)
            then Suppressions(latest, ids, i, delivery, winner, at) + [Suppress(latest[ids[i]], at)]
            else Suppressions(latest, ids, i, delivery, winner, at)
  {
    hide Competes, Suppress;
    assert Suppressions(latest, ids, i, delivery, winner, at) + [] ==
      Suppressions(latest, ids, i, delivery, winner, at);
  }

  lemma {:induction false} NoneDueYet(s: Ledgers, latest: map<NoteId, Note>, ids: seq<NoteId>, agent: AgentId, now: int)
    requires forall i | 0 <= i < |ids| :: ids[i] in latest
    ensures DueNotes(s, latest, ids, 0, agent, now) == []
  {
  }

  lemma {:induction false} DueNotesStep(s: Ledgers, latest: map<NoteId, Note>, ids: seq<NoteId>, i: nat,
                                        agent: AgentId, now: int)
    requires i < |ids| && forall k | 0 <= k < |ids| :: ids[k] in latest
    ensures DueNotes(s, latest, ids, i + 1, agent, now) ==
            if DuePending(s, latest[ids[i]], agent, now)
            then DueNotes(s, latest, ids, i, agent, now) + [latest[ids[i]]] else DueNotes(s, latest, ids, i, agent, now)
  {
    hide DuePending;
    assert DueNotes(s, latest, ids, i, agent, now) + [] == DueNotes(s, latest, ids, i, agent, now);
  }
}
