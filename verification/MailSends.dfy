/** Sending mail: one record a key, one attempt a recipient, a bound on open mail, and retries that
    complete what was deferred. */
module MailSends {
  import opened Orders
  import opened MailLedgers
  import opened MailCalls
  import opened MailInvariants
  import opened MailRuns
  import opened MailWakeups

  // ----- back pressure

  ghost predicate Bounded(latest: map<DeliveryId, Delivery>, limit: nat) {
    forall recipient :: |OpenFor(latest, recipient)| <= limit
  }

  lemma {:induction false} FewerOpen(before: map<DeliveryId, Delivery>, after: map<DeliveryId, Delivery>, limit: nat)
    requires Bounded(before, limit)
    requires forall id | id in after && after[id].state.IsOpen() :: id in before && before[id].state.IsOpen()
    ensures Bounded(after, limit)
  {
    forall recipient ensures |OpenFor(after, recipient)| <= limit {
      SubsetSize(OpenFor(after, recipient), OpenFor(before, recipient));
    }
  }

  lemma {:induction false} ReplacedOpen(latest: map<DeliveryId, Delivery>, id: DeliveryId, d: Delivery, limit: nat)
    requires Bounded(latest, limit) && id in latest && latest[id].state.IsOpen()
    ensures Bounded(latest[id := d], limit)
  {
    hide Bounded;
    var after := latest[id := d];
    forall x | x in after && after[x].state.IsOpen() ensures x in latest && latest[x].state.IsOpen() {
    }
    FewerOpen(latest, after, limit);
  }

  lemma {:induction false} SubsetSize<T>(a: set<T>, b: set<T>)
    requires a <= b
    ensures |a| <= |b|
  {
    if a != {} {
      var x :| x in a;
      SubsetSize(a - {x}, b - {x});
    }
  }

  lemma {:induction false} OneMoreOpen(latest: map<DeliveryId, Delivery>, d: Delivery, limit: nat)
    requires Bounded(latest, limit) && d.id !in latest && |OpenFor(latest, d.id.recipient)| < limit
    ensures Bounded(latest[d.id := d], limit)
  {
    var more := latest[d.id := d];
    forall recipient ensures |OpenFor(more, recipient)| <= limit {
      var before := OpenFor(latest, recipient);
      var after := OpenFor(more, recipient);
      if recipient == d.id.recipient {
        assert after <= before + {d.id};
        SubsetSize(after, before + {d.id});
      } else {
        assert after == before;
      }
    }
  }

  lemma {:induction false} OpenOrTerminal(state: DeliveryState)
    ensures state.IsOpen() <==> !state.IsTerminal()
  {
    match state
    case Unread =>
    case Read =>
    case Claimed =>
    case Snoozed =>
    case Done =>
    case Archived =>
    case Rejected =>
    case DeadLetter =>
  }

  /** Appends that neither deliver nor defer anything. */
  ghost predicate NothingSettles(events: seq<Event>) {
    forall i | 0 <= i < |events| :: !events[i].Delivered? && !events[i].Deferred?
  }

  lemma {:induction false} EventKeepsBound(o: KeyOrder, s: Ledgers, e: Event, limit: nat)
    requires o.Valid() && Enabled(s, e) && !e.Delivered? && Bounded(LatestDeliveries(s.deliveries), limit)
    ensures Bounded(LatestDeliveries(Apply(o, s, e).deliveries), limit)
  {
    hide Bounded, LatestDeliveries, LatestNotes, LatestAgents, CompetingSuppressed;
    if e.Moved? {
      var latest := LatestDeliveries(s.deliveries);
      var d := MovedTo(latest[e.id], e.actor, e.state, e.until, e.at);
      DeliveryKeyed(s.deliveries);
      DeliveriesSnoc(s.deliveries, d);
      OpenOrTerminal(latest[e.id].state);
      ReplacedOpen(latest, e.id, d, limit);
    }
  }

  lemma {:induction false} EventsKeepBound(o: KeyOrder, s: Ledgers, events: seq<Event>, limit: nat)
    requires o.Valid() && AllEnabled(o, s, events) && NothingSettles(events)
            && Bounded(LatestDeliveries(s.deliveries), limit)
    ensures Bounded(LatestDeliveries(ApplyAll(o, s, events).deliveries), limit)
  {
    hide Bounded, LatestDeliveries, Apply, Enabled;
    if events != [] {
      var n := |events| - 1;
      EventsKeepBound(o, s, events[..n], limit);
      EventKeepsBound(o, ApplyAll(o, s, events[..n]), events[n], limit);
    }
  }

  lemma {:induction false} SimpleSettlesNothing(o: KeyOrder, s: Ledgers, call: Call)
    requires o.Valid()
    ensures NothingSettles(SimpleEvents(o, s, call))
  {
    hide LatestDeliveries, LatestNotes, LatestAgents, LiveAgent, AgentNotes, NotesForDeliveries, TotalOrder, Accessible,
         SteeringFailure, Accept, Visible, MovedTo, FindAttempt;
    if (call.CallPoll? && LiveAgent(s, call.agent, call.at).Ok?) {
      AgentNotesSettleNothing(o, s, LiveAgent(s, call.agent, call.at).value, call.at);
    } else if (call.CallDispatch? && UnretiredAgent(s, call.agent).Ok?) {
      AgentNotesSettleNothing(o, s, UnretiredAgent(s, call.agent).value, call.at);
    }
  }

  lemma {:induction false} AgentNotesSettleNothing(o: KeyOrder, s: Ledgers, agent: Agent, at: int)
    requires o.Valid()
    ensures NothingSettles(AgentNotes(o, s, agent, at))
  {
    hide LatestDeliveries, LatestNotes, NotesForDeliveries, TotalOrder;
    var ids := Ascending(o.deliveries, LatestDeliveries(s.deliveries).Keys);
    EventsAreNotes(s, agent, at, ids, |ids|);
  }

  lemma {:induction false} RecipientKeepsBound(o: KeyOrder, s: Ledgers, message: Message, recipient: Address,
                                               limit: nat, most: nat)
    requires o.Valid() && limit <= most && Bounded(LatestDeliveries(s.deliveries), most)
    ensures var r := ApplyAll(o, s, RecipientEvents(o, s, message, recipient, Some(limit)));
      Bounded(LatestDeliveries(r.deliveries), most)
  {
    hide Bounded, LatestDeliveries, LatestNotes, AllEnabled, ApplyAll, DeliveryNotes, OpenFor;
    var latest := LatestDeliveries(s.deliveries);
    var id := DeliveryId(message.id, recipient);
    if id in latest {
      DeliveryKeyed(s.deliveries);
      DeliveryNotesEnabled(o, s, latest[id]);
    } else if AtCapacity(latest, recipient, Some(limit)) {
      OneEvent(o, s, Deferred(Deferral(message.id, recipient, message.createdAt)));
    } else {
      var d := NewDelivery(message, recipient);
      OneEvent(o, s, Delivered(d));
      DeliveriesSnoc(s.deliveries, d);
      OneMoreOpen(latest, d, most);
      DeliveryNotesEnabled(o, Apply(o, s, Delivered(d)), d);
      EventsConcat(o, s, [Delivered(d)], DeliveryNotes(o, Apply(o, s, Delivered(d)), d));
    }
  }

  lemma {:induction false} SentToKeepsBound(o: KeyOrder, s: Ledgers, message: Message, recipients: seq<Address>,
                                            limit: nat, n: nat, most: nat)
    requires o.Valid() && n <= |recipients| && limit <= most && Bounded(LatestDeliveries(s.deliveries), most)
    ensures Bounded(LatestDeliveries(SentTo(o, s, message, recipients, Some(limit), n).deliveries), most)
  {
    hide Bounded, LatestDeliveries, ApplyAll, RecipientEvents;
    if n > 0 {
      SentToKeepsBound(o, s, message, recipients, limit, n - 1, most);
      RecipientKeepsBound(o, SentTo(o, s, message, recipients, Some(limit), n - 1), message, recipients[n - 1], limit,
        most);
    }
  }

  ghost predicate LimitedSends(calls: seq<Call>, most: nat) {
    forall k | 0 <= k < |calls| && calls[k].CallSend? :: calls[k].limit.Some? && calls[k].limit.value <= most
  }

  lemma {:induction false} CallKeepsBound(o: KeyOrder, s: Ledgers, call: Call, most: nat)
    requires o.Valid() && Bounded(LatestDeliveries(s.deliveries), most)
    requires call.CallSend? ==> call.limit.Some? && call.limit.value <= most
    ensures Bounded(LatestDeliveries(After(o, s, call).deliveries), most)
  {
    hide Bounded, LatestDeliveries, ApplyAll, AllEnabled, SimpleEvents, SentTo, Effective, RecipientList,
         NothingSettles;
    if call.CallSend? {
      var message := call.message;
      var effective := Effective(s, message);
      if effective.Ok? {
        var recipients := RecipientList(o, message);
        AcceptSameDeliveries(o, s, message);
        SentToKeepsBound(o, ApplyAll(o, s, AcceptEvents(s, message)), effective.value, recipients, call.limit.value,
          |recipients|, most);
      }
    } else {
      CallEnabled(o, s, call);
      SimpleSettlesNothing(o, s, call);
      EventsKeepBound(o, s, SimpleEvents(o, s, call), most);
    }
  }

  lemma {:induction false} AcceptSameDeliveries(o: KeyOrder, s: Ledgers, message: Message)
    requires o.Valid()
    ensures var r := ApplyAll(o, s, AcceptEvents(s, message));
      && r.deliveries == s.deliveries && r.deferrals == s.deferrals
      && (Accept(s, message) == Ok(NewMessage) ==>
            r.keys == s.keys + [KeyRecord(message.payload.key, message.id, message.payload, message.createdAt)]
            && r.messages == s.messages[message.id := message])
      && (Accept(s, message) != Ok(NewMessage) ==> r == s)
  {
    hide ApplyAll, AllEnabled;
    NoEvents(o, s);
    if Accept(s, message) == Ok(NewMessage) {
      OneEvent(o, s, Accepted(message));
    }
  }

  /** Back pressure: if no send of a run allows more than `most` open deliveries, no recipient ever has
      more. */
  lemma {:induction false} BackPressure(o: KeyOrder, calls: seq<Call>, n: nat, most: nat, recipient: Address)
    requires o.Valid() && n <= |calls| && LimitedSends(calls, most)
    ensures |OpenFor(LatestDeliveries(Run(o, calls, n).deliveries), recipient)| <= most
  {
    RunBounded(o, calls, n, most);
  }

  lemma {:induction false} RunBounded(o: KeyOrder, calls: seq<Call>, n: nat, most: nat)
    requires o.Valid() && n <= |calls| && LimitedSends(calls, most)
    ensures Bounded(LatestDeliveries(Run(o, calls, n).deliveries), most)
  {
    hide Bounded, After;
    if n == 0 {
      NothingOpen(most);
    } else {
      RunBounded(o, calls, n - 1, most);
      CallKeepsBound(o, Run(o, calls, n - 1), calls[n - 1], most);
    }
  }

  lemma {:induction false} NothingOpen(most: nat)
    ensures Bounded(LatestDeliveries(EMPTY.deliveries), most)
  {
    forall recipient ensures |OpenFor(map[], recipient)| <= most {
      assert OpenFor(map[], recipient) == {};
    }
  }

  // ----- one attempt a recipient

  lemma {:induction false} AttemptRecipients(o: KeyOrder, s: Ledgers, message: Message, recipients: seq<Address>,
                                             limit: Option<nat>, n: nat)
    requires o.Valid() && n <= |recipients|
    ensures var attempts := AttemptsUpTo(o, s, message, recipients, limit, n);
      && |attempts| == n
      && (forall i | 0 <= i < n :: attempts[i].recipient == recipients[i]
            && attempts[i].delivery == DeliveryId(message.id, recipients[i])
            && attempts[i].status ==
                 RecipientStatus(SentTo(o, s, message, recipients, limit, i), message, recipients[i], limit))
  {
    hide SentTo, RecipientStatus;
    if n > 0 {
      AttemptRecipients(o, s, message, recipients, limit, n - 1);
    }
  }

  /** A send that is accepted reports exactly one attempt for each distinct recipient. */
  lemma {:induction false} OneAttemptEach(o: KeyOrder, s: Ledgers, message: Message, limit: Option<nat>)
    requires o.Valid() && SendReceipt(o, s, message, limit).Ok?
    ensures var attempts := SendReceipt(o, s, message, limit).value.attempts;
      && (forall i | 0 <= i < |attempts| :: attempts[i].recipient in Recipients(message.payload))
      && (forall a | a in Recipients(message.payload) :: exists i | 0 <= i < |attempts| :: attempts[i].recipient == a)
      && (forall i, j | 0 <= i < j < |attempts| :: attempts[i].recipient != attempts[j].recipient)
  {
    hide AttemptsUpTo, RecipientList, Recipients, ApplyAll, Effective, SentTo, RecipientStatus;
    var recipients := RecipientList(o, message);
    var start := ApplyAll(o, s, AcceptEvents(s, message));
    AttemptRecipients(o, start, Effective(s, message).value, recipients, limit, |recipients|);
    var attempts := SendReceipt(o, s, message, limit).value.attempts;
    forall a | a in Recipients(message.payload) ensures exists i | 0 <= i < |attempts| :: attempts[i].recipient == a {
      var i :| 0 <= i < |recipients| && recipients[i] == a;
      assert attempts[i].recipient == a;
    }
  }

  // ----- ledgers only grow

  ghost predicate Grows(s: Ledgers, r: Ledgers) {
    s.deliveries <= r.deliveries && s.deferrals <= r.deferrals && s.keys <= r.keys && s.agents <= r.agents
  }

  lemma {:induction false} GrowsOn(a: Ledgers, b: Ledgers, c: Ledgers)
    requires Grows(a, b) && Grows(b, c)
    ensures Grows(a, c)
  {
    PrefixTrans(a.deliveries, b.deliveries, c.deliveries);
    PrefixTrans(a.deferrals, b.deferrals, c.deferrals);
    PrefixTrans(a.keys, b.keys, c.keys);
    PrefixTrans(a.agents, b.agents, c.agents);
  }

  lemma {:induction false} PrefixTrans<T>(a: seq<T>, b: seq<T>, c: seq<T>)
    requires a <= b <= c
    ensures a <= c
  {
  }

  lemma {:induction false} EventGrows(o: KeyOrder, s: Ledgers, e: Event)
    requires o.Valid()
    ensures Grows(s, Apply(o, s, e))
  {
    hide CompetingSuppressed, LatestDeliveries, LatestNotes, MovedTo;
  }

  lemma {:induction false} EventsGrow(o: KeyOrder, s: Ledgers, events: seq<Event>)
    requires o.Valid()
    ensures Grows(s, ApplyAll(o, s, events))
  {
    hide Apply;
    if events != [] {
      var n := |events| - 1;
      EventsGrow(o, s, events[..n]);
      EventGrows(o, ApplyAll(o, s, events[..n]), events[n]);
      GrowsOn(s, ApplyAll(o, s, events[..n]), ApplyAll(o, s, events));
    }
  }

  lemma {:induction false} SentToGrows(o: KeyOrder, s: Ledgers, message: Message, recipients: seq<Address>,
                                       limit: Option<nat>, i: nat, n: nat)
    requires o.Valid() && i <= n <= |recipients|
    ensures Grows(SentTo(o, s, message, recipients, limit, i), SentTo(o, s, message, recipients, limit, n))
  {
    hide ApplyAll, RecipientEvents;
    if i < n {
      var before := SentTo(o, s, message, recipients, limit, n - 1);
      SentToGrows(o, s, message, recipients, limit, i, n - 1);
      EventsGrow(o, before, RecipientEvents(o, before, message, recipients[n - 1], limit));
      GrowsOn(SentTo(o, s, message, recipients, limit, i), before, SentTo(o, s, message, recipients, limit, n));
    }
  }

  lemma {:induction false} CallGrows(o: KeyOrder, s: Ledgers, call: Call)
    requires o.Valid()
    ensures Grows(s, After(o, s, call))
  {
    hide ApplyAll, SimpleEvents, SentTo, Effective, RecipientList, AcceptEvents, Grows;
    if call.CallSend? {
      var start := ApplyAll(o, s, AcceptEvents(s, call.message));
      var effective := Effective(s, call.message);
      if effective.Ok? {
        var recipients := RecipientList(o, call.message);
        EventsGrow(o, s, AcceptEvents(s, call.message));
        SentToGrows(o, start, effective.value, recipients, call.limit, 0, |recipients|);
        SentToNobody(o, start, effective.value, recipients, call.limit);
        GrowsOn(s, start, SentTo(o, start, effective.value, recipients, call.limit, |recipients|));
      } else {
        GrowsSelf(s);
      }
    } else {
      EventsGrow(o, s, SimpleEvents(o, s, call));
    }
  }

  lemma {:induction false} SentToNobody(o: KeyOrder, s: Ledgers, message: Message, recipients: seq<Address>,
                                        limit: Option<nat>)
    requires o.Valid()
    ensures SentTo(o, s, message, recipients, limit, 0) == s
  {
  }

  lemma {:induction false} GrowsSelf(s: Ledgers)
    ensures Grows(s, s)
  {
  }

  lemma {:induction false} RunGrows(o: KeyOrder, calls: seq<Call>, i: nat, n: nat)
    requires o.Valid() && i <= n <= |calls|
    ensures Grows(Run(o, calls, i), Run(o, calls, n))
  {
    hide After;
    if i < n {
      RunGrows(o, calls, i, n - 1);
      CallGrows(o, Run(o, calls, n - 1), calls[n - 1]);
      GrowsOn(Run(o, calls, i), Run(o, calls, n - 1), Run(o, calls, n));
    }
  }

  lemma {:induction false} LatestGrows(s: seq<Delivery>, r: seq<Delivery>, id: DeliveryId)
    requires s <= r && id in LatestDeliveries(s)
    ensures id in LatestDeliveries(r)
  {
    LatestDeliveryAt(s, id);
    LatestDeliveryAt(r, id);
    var k :| 0 <= k < |s| && s[k].id == id;
    assert r[k].id == id;
  }

  // ----- retries

  ghost predicate WasDeferred(s: Ledgers, messageId: string, recipient: Address) {
    exists deferral | deferral in s.deferrals :: deferral.messageId == messageId && deferral.recipient == recipient
  }

  /** The recipient has its delivery, or the ledger says why not. */
  ghost predicate Settled(s: Ledgers, messageId: string, recipient: Address) {
    DeliveryId(messageId, recipient) in LatestDeliveries(s.deliveries) || WasDeferred(s, messageId, recipient)
  }

  lemma {:induction false} SettledGrows(s: Ledgers, r: Ledgers, messageId: string, recipient: Address)
    requires Grows(s, r) && Settled(s, messageId, recipient)
    ensures Settled(r, messageId, recipient)
  {
    hide LatestDeliveries;
    if DeliveryId(messageId, recipient) in LatestDeliveries(s.deliveries) {
      LatestGrows(s.deliveries, r.deliveries, DeliveryId(messageId, recipient));
    } else {
      var deferral :| deferral in s.deferrals && deferral.messageId == messageId && deferral.recipient == recipient;
      assert deferral in r.deferrals;
    }
  }

  lemma {:induction false} RecipientSettles(o: KeyOrder, s: Ledgers, message: Message, recipient: Address,
                                            limit: Option<nat>)
    requires o.Valid()
    ensures Settled(ApplyAll(o, s, RecipientEvents(o, s, message, recipient, limit)), message.id, recipient)
  {
    hide LatestDeliveries, LatestNotes, AllEnabled, ApplyAll, DeliveryNotes, AtCapacity;
    var latest := LatestDeliveries(s.deliveries);
    var id := DeliveryId(message.id, recipient);
    if id in latest {
      DeliveryKeyed(s.deliveries);
      DeliveryNotesEnabled(o, s, latest[id]);
    } else if AtCapacity(latest, recipient, limit) {
      var deferral := Deferral(message.id, recipient, message.createdAt);
      OneEvent(o, s, Deferred(deferral));
      assert deferral in s.deferrals + [deferral];
    } else {
      var d := NewDelivery(message, recipient);
      OneEvent(o, s, Delivered(d));
      DeliveriesSnoc(s.deliveries, d);
      DeliveryNotesEnabled(o, Apply(o, s, Delivered(d)), d);
      EventsConcat(o, s, [Delivered(d)], DeliveryNotes(o, Apply(o, s, Delivered(d)), d));
    }
  }

  lemma {:induction false} SentToSettles(o: KeyOrder, s: Ledgers, message: Message, recipients: seq<Address>,
                                         limit: Option<nat>, i: nat)
    requires o.Valid() && i < |recipients|
    ensures Settled(SentTo(o, s, message, recipients, limit, |recipients|), message.id, recipients[i])
  {
    hide ApplyAll, RecipientEvents, Settled, Grows;
    var before := SentTo(o, s, message, recipients, limit, i);
    RecipientSettles(o, before, message, recipients[i], limit);
    SentToGrows(o, s, message, recipients, limit, i + 1, |recipients|);
    SettledGrows(SentTo(o, s, message, recipients, limit, i + 1),
      SentTo(o, s, message, recipients, limit, |recipients|),
                 message.id, recipients[i]);
  }

  /** After an accepted send, each recipient has its delivery or a recorded deferral. */
  lemma {:induction false} SendSettles(o: KeyOrder, s: Ledgers, message: Message, limit: Option<nat>,
                                       recipient: Address)
    requires o.Valid() && Effective(s, message).Ok? && recipient in Recipients(message.payload)
    ensures Settled(AfterSend(o, s, message, limit), Effective(s, message).value.id, recipient)
  {
    hide ApplyAll, RecipientEvents, Settled, SentTo, RecipientList, Effective, AcceptEvents, Recipients;
    var recipients := RecipientList(o, message);
    var i :| 0 <= i < |recipients| && recipients[i] == recipient;
    SentToSettles(o, ApplyAll(o, s, AcceptEvents(s, message)), Effective(s, message).value, recipients, limit, i);
  }

  /** The key of a message is recorded with this payload and message id. */
  ghost predicate Bound(s: Ledgers, payload: Payload, messageId: string) {
    var found := FindKey(s.keys, payload.key, 0);
    found.Some? && found.value.payload == payload && found.value.messageId == messageId
  }

  lemma {:induction false} FindKeyGrows(s: seq<KeyRecord>, r: seq<KeyRecord>, key: string, k: nat)
    requires s <= r && k <= |s| && FindKey(s, key, k).Some?
    ensures FindKey(r, key, k) == FindKey(s, key, k)
    decreases |s| - k
  {
    if k < |s| && s[k].key != key {
      FindKeyGrows(s, r, key, k + 1);
    }
  }

  lemma {:induction false} FindKeyLast(s: seq<KeyRecord>, r: KeyRecord, k: nat)
    requires k <= |s| && FindKey(s, r.key, k).None?
    ensures FindKey(s + [r], r.key, k) == Some(r)
    decreases |s| - k
  {
    if k < |s| {
      FindKeyLast(s, r, k + 1);
    }
  }

  lemma {:induction false} AcceptBinds(o: KeyOrder, s: Ledgers, message: Message)
    requires o.Valid() && Inv(s) && Effective(s, message).Ok?
    ensures Bound(ApplyAll(o, s, AcceptEvents(s, message)), message.payload, Effective(s, message).value.id)
  {
    hide DeliveryHistory, NoteHistory, AttemptsCounted, AgentHistory, KeysUnique, LatestDeliveries, LatestNotes,
         NotesFit, ClaimsReplay,
         ApplyAll, AcceptEvents, FindKey;
    AcceptSameDeliveries(o, s, message);
    if Accept(s, message) == Ok(NewMessage) {
      FindKeyLast(s.keys, KeyRecord(message.payload.key, message.id, message.payload, message.createdAt), 0);
    }
  }

  /** Once a send was accepted, its key stays bound to its payload and first message id. */
  lemma {:induction false} SendBinds(o: KeyOrder, calls: seq<Call>, j: nat, k: nat)
    requires o.Valid() && j < k <= |calls| && calls[j].CallSend? && Effective(Run(o, calls, j), calls[j].message).Ok?
    ensures Bound(Run(o, calls, k), calls[j].message.payload, Effective(Run(o, calls, j), calls[j].message).value.id)
  {
    hide Inv, ApplyAll, AcceptEvents, FindKey, Effective, SentTo, RecipientList, Run;
    var s, message, limit := Run(o, calls, j), calls[j].message, calls[j].limit;
    RunKeepsInv(o, calls, j);
    AcceptBinds(o, s, message);
    var start := ApplyAll(o, s, AcceptEvents(s, message));
    var recipients := RecipientList(o, message);
    SentToGrows(o, start, Effective(s, message).value, recipients, limit, 0, |recipients|);
    SentToNobody(o, start, Effective(s, message).value, recipients, limit);
    RunStep(o, calls, j);
    RunGrows(o, calls, j + 1, k);
    GrowsOn(start, Run(o, calls, j + 1), Run(o, calls, k));
    FindKeyGrows(start.keys, Run(o, calls, k).keys, message.payload.key, 0);
  }

  lemma {:induction false} RunStep(o: KeyOrder, calls: seq<Call>, j: nat)
    requires o.Valid() && j < |calls|
    ensures Run(o, calls, j + 1) == After(o, Run(o, calls, j), calls[j])
  {
    hide After;
  }

  /** A retry with the same payload, under any message id, is a duplicate of the first message, records
      nothing new for the key, and delivers only to recipients that were deferred before. */
  lemma {:induction false} RetryDeliversOnlyDeferred(o: KeyOrder, calls: seq<Call>, j: nat, k: nat)
    requires o.Valid() && j < k < |calls| && calls[j].CallSend? && calls[k].CallSend?
    requires calls[j].message.payload == calls[k].message.payload
    requires Effective(Run(o, calls, j), calls[j].message).Ok?
    ensures var s, first := Run(o, calls, k), Effective(Run(o, calls, j), calls[j].message).value.id;
      var receipt := SendReceipt(o, s, calls[k].message, calls[k].limit);
      && receipt.Ok? && receipt.value.acceptance == Duplicate(first)
      && (forall a | a in receipt.value.attempts :: a.delivery == DeliveryId(first, a.recipient))
      && (forall a | a in receipt.value.attempts && a.status == WasDelivered :: WasDeferred(s, first, a.recipient))
  {
    var s, message, limit := Run(o, calls, k), calls[k].message, calls[k].limit;
    var first := Effective(Run(o, calls, j), calls[j].message).value.id;
    hide Run, Inv, After, Effective, SendReceipt, SentTo, AttemptsUpTo, ApplyAll, WasDeferred, Bound, FindKey,
         Recipients, Settled, Accept;
    SendBinds(o, calls, j, k);
    RunKeepsInv(o, calls, k);
    RetryEffective(o, s, message, limit, first);
    forall recipient | recipient in Recipients(message.payload) ensures Settled(s, first, recipient) {
      StaysSettled(o, calls, j, k, recipient);
    }
    RetryAttempts(o, s, message, limit, first);
  }

  /** What an accepted send settled stays settled. */
  lemma {:induction false} StaysSettled(o: KeyOrder, calls: seq<Call>, j: nat, k: nat, recipient: Address)
    requires o.Valid() && j < k <= |calls| && calls[j].CallSend?
    requires Effective(Run(o, calls, j), calls[j].message).Ok? && recipient in Recipients(calls[j].message.payload)
    ensures Settled(Run(o, calls, k), Effective(Run(o, calls, j), calls[j].message).value.id, recipient)
  {
    hide Run, Inv, After, Effective, AfterSend, Settled, Recipients, Grows;
    SendSettles(o, Run(o, calls, j), calls[j].message, calls[j].limit, recipient);
    RunStep(o, calls, j);
    AfterIsSend(o, Run(o, calls, j), calls[j]);
    RunGrows(o, calls, j + 1, k);
    SettledGrows(Run(o, calls, j + 1), Run(o, calls, k), Effective(Run(o, calls, j), calls[j].message).value.id,
      recipient);
  }

  lemma {:induction false} AfterIsSend(o: KeyOrder, s: Ledgers, call: Call)
    requires o.Valid() && call.CallSend?
    ensures After(o, s, call) == AfterSend(o, s, call.message, call.limit)
  {
  }

  lemma {:induction false} RetryEffective(o: KeyOrder, s: Ledgers, message: Message, limit: Option<nat>, first: string)
    requires o.Valid() && Inv(s) && Bound(s, message.payload, first)
    ensures Accept(s, message) == Ok(Duplicate(first))
    ensures Effective(s, message).Ok? && Effective(s, message).value.id == first
    ensures AcceptEvents(s, message) == []
  {
    hide DeliveryHistory, NoteHistory, AttemptsCounted, AgentHistory, KeysUnique, LatestDeliveries, LatestNotes,
         NotesFit, ClaimsReplay, FindKey;
  }

  lemma {:induction false} RetryAttempts(o: KeyOrder, s: Ledgers, message: Message, limit: Option<nat>, first: string)
    requires o.Valid() && Effective(s, message).Ok? && Effective(s, message).value.id == first
            && AcceptEvents(s, message) == []
    requires Accept(s, message) == Ok(Duplicate(first))
    requires forall recipient | recipient in Recipients(message.payload) :: Settled(s, first, recipient)
    ensures var receipt := SendReceipt(o, s, message, limit);
      && receipt.Ok? && receipt.value.acceptance == Duplicate(first)
      && (forall a | a in receipt.value.attempts :: a.delivery == DeliveryId(first, a.recipient))
      && (forall a | a in receipt.value.attempts && a.status == WasDelivered :: WasDeferred(s, first, a.recipient))
  {
    hide SentTo, AttemptsUpTo, ApplyAll, WasDeferred, Recipients, RecipientStatus, Settled, Effective, Accept,
         AcceptEvents, RecipientList;
    var effective := Effective(s, message).value;
    var recipients := RecipientList(o, message);
    NoEvents(o, s);
    AttemptRecipients(o, s, effective, recipients, limit, |recipients|);
    var attempts := AttemptsUpTo(o, s, effective, recipients, limit, |recipients|);
    forall a | a in attempts && a.status == WasDelivered ensures WasDeferred(s, first, a.recipient) {
      var i :| 0 <= i < |attempts| && attempts[i] == a;
      assert recipients[i] in Recipients(message.payload);
      DeliveredWasDeferred(o, s, effective, recipients, limit, i);
    }
    forall a | a in attempts ensures a.delivery == DeliveryId(first, a.recipient) {
      var i :| 0 <= i < |attempts| && attempts[i] == a;
    }
  }

  lemma {:induction false} DeliveredWasDeferred(o: KeyOrder, s: Ledgers, message: Message, recipients: seq<Address>,
                                                limit: Option<nat>, i: nat)
    requires o.Valid() && i < |recipients| && Settled(s, message.id, recipients[i])
    requires RecipientStatus(SentTo(o, s, message, recipients, limit, i), message, recipients[i], limit) == WasDelivered
    ensures WasDeferred(s, message.id, recipients[i])
  {
    hide SentTo, LatestDeliveries, WasDeferred, AtCapacity;
    SentToGrows(o, s, message, recipients, limit, 0, i);
    SentToNobody(o, s, message, recipients, limit);
    if DeliveryId(message.id, recipients[i]) in LatestDeliveries(s.deliveries) {
      LatestGrows(s.deliveries, SentTo(o, s, message, recipients, limit, i).deliveries,
        DeliveryId(message.id, recipients[i]));
    }
  }

  /** A key recorded without a send promises nothing about its recipients: the send that follows is a
      duplicate and still delivers to every one of them. */
  lemma {:induction false} AcceptedOnlyStillDelivers(o: KeyOrder, message: Message, recipient: Address)
    requires o.Valid() && recipient in Recipients(message.payload)
    ensures var s := Run(o, [CallAccept(message)], 1);
      var receipt := SendReceipt(o, s, message, None);
      && receipt.Ok? && receipt.value.acceptance == Duplicate(message.id)
      && (exists a | a in receipt.value.attempts :: a.recipient == recipient && a.status == WasDelivered)
      && !WasDeferred(s, message.id, recipient)
  {
    hide Run, SentTo, ApplyAll, Recipients, Settled, FindKey, RecipientList;
    var s := Run(o, [CallAccept(message)], 1);
    AcceptedOnce(o, message);
    var recipients := RecipientList(o, message);
    NoEvents(o, s);
    AttemptRecipients(o, s, message, recipients, None, |recipients|);
    var attempts := AttemptsUpTo(o, s, message, recipients, None, |recipients|);
    var i :| 0 <= i < |recipients| && recipients[i] == recipient;
    NotYetSent(o, s, message, recipients, i, i);
    assert attempts[i] in attempts && attempts[i].status == WasDelivered;
  }

  lemma {:induction false} AcceptedOnce(o: KeyOrder, message: Message)
    requires o.Valid()
    ensures var s := Run(o, [CallAccept(message)], 1);
      && s.deliveries == [] && s.deferrals == []
      && Accept(s, message) == Ok(Duplicate(message.id)) && Effective(s, message) == Ok(message)
           && AcceptEvents(s, message) == []
  {
    hide ApplyAll;
    RunStep(o, [CallAccept(message)], 0);
    AcceptSameDeliveries(o, EMPTY, message);
    assert Accept(EMPTY, message) == Ok(NewMessage);
    assert Run(o, [CallAccept(message)], 0) == EMPTY;
    var r := KeyRecord(message.payload.key, message.id, message.payload, message.createdAt);
    assert [] + [r] == [r];
  }

  /** Sending to other recipients delivers nothing to this one. */
  lemma {:induction false} NotYetSent(o: KeyOrder, s: Ledgers, message: Message, recipients: seq<Address>, i: nat,
                                      n: nat)
    requires o.Valid() && n <= i < |recipients| && Distinct(recipients)
    requires DeliveryId(message.id, recipients[i]) !in LatestDeliveries(s.deliveries)
    ensures DeliveryId(message.id,
            recipients[i]) !in LatestDeliveries(SentTo(o, s, message, recipients, None, n).deliveries)
  {
    hide LatestDeliveries, ApplyAll, RecipientEvents;
    if n > 0 {
      NotYetSent(o, s, message, recipients, i, n - 1);
      OtherRecipient(o, SentTo(o, s, message, recipients, None, n - 1), message, recipients[n - 1], recipients[i]);
    }
  }

  lemma {:induction false} OtherRecipient(o: KeyOrder, s: Ledgers, message: Message, recipient: Address, other: Address)
    requires o.Valid() && recipient != other && DeliveryId(message.id, other) !in LatestDeliveries(s.deliveries)
    ensures var r := ApplyAll(o, s, RecipientEvents(o, s, message, recipient, None));
      DeliveryId(message.id, other) !in LatestDeliveries(r.deliveries)
  {
    hide LatestDeliveries, LatestNotes, AllEnabled, ApplyAll, DeliveryNotes;
    var latest := LatestDeliveries(s.deliveries);
    var id := DeliveryId(message.id, recipient);
    if id in latest {
      DeliveryKeyed(s.deliveries);
      DeliveryNotesEnabled(o, s, latest[id]);
    } else {
      var d := NewDelivery(message, recipient);
      OneEvent(o, s, Delivered(d));
      DeliveriesSnoc(s.deliveries, d);
      DeliveryNotesEnabled(o, Apply(o, s, Delivered(d)), d);
      EventsConcat(o, s, [Delivered(d)], DeliveryNotes(o, Apply(o, s, Delivered(d)), d));
    }
  }

  ghost predicate SettlesNothing(s: Ledgers, r: Ledgers) {
    r.deferrals == s.deferrals && LatestDeliveries(r.deliveries).Keys == LatestDeliveries(s.deliveries).Keys
  }

  lemma {:induction false} EventSettlesNothing(o: KeyOrder, s: Ledgers, e: Event)
    requires o.Valid() && !e.Delivered? && !e.Deferred?
    ensures SettlesNothing(s, Apply(o, s, e))
  {
    hide LatestDeliveries, LatestNotes, LatestAgents, CompetingSuppressed;
    if e.Moved? && e.id in LatestDeliveries(s.deliveries) {
      var latest := LatestDeliveries(s.deliveries);
      var d := MovedTo(latest[e.id], e.actor, e.state, e.until, e.at);
      DeliveryKeyed(s.deliveries);
      DeliveriesSnoc(s.deliveries, d);
      assert latest[e.id := d].Keys == latest.Keys;
    }
  }

  lemma {:induction false} EventsSettleNothing(o: KeyOrder, s: Ledgers, events: seq<Event>)
    requires o.Valid() && NothingSettles(events)
    ensures SettlesNothing(s, ApplyAll(o, s, events))
  {
    hide LatestDeliveries, Apply;
    if events != [] {
      var n := |events| - 1;
      EventsSettleNothing(o, s, events[..n]);
      EventSettlesNothing(o, ApplyAll(o, s, events[..n]), events[n]);
    }
  }

  lemma {:induction false} RecipientSettlesOnly(o: KeyOrder, s: Ledgers, message: Message, recipient: Address,
                                                limit: Option<nat>,
                                                messageId: string, other: Address)
    requires o.Valid() && Settled(ApplyAll(o, s, RecipientEvents(o, s, message, recipient, limit)), messageId, other)
    ensures Settled(s, messageId, other) || (messageId == message.id && other == recipient)
  {
    hide LatestDeliveries, LatestNotes, AllEnabled, ApplyAll, DeliveryNotes, AtCapacity;
    var latest := LatestDeliveries(s.deliveries);
    var id := DeliveryId(message.id, recipient);
    if id in latest {
      DeliveryKeyed(s.deliveries);
      DeliveryNotesEnabled(o, s, latest[id]);
    } else if AtCapacity(latest, recipient, limit) {
      OneEvent(o, s, Deferred(Deferral(message.id, recipient, message.createdAt)));
    } else {
      var d := NewDelivery(message, recipient);
      OneEvent(o, s, Delivered(d));
      DeliveriesSnoc(s.deliveries, d);
      DeliveryNotesEnabled(o, Apply(o, s, Delivered(d)), d);
      EventsConcat(o, s, [Delivered(d)], DeliveryNotes(o, Apply(o, s, Delivered(d)), d));
    }
  }

  lemma {:induction false} SentToSettlesOnly(o: KeyOrder, s: Ledgers, message: Message, recipients: seq<Address>,
                                             limit: Option<nat>, n: nat,
                                             messageId: string, other: Address)
    requires o.Valid() && n <= |recipients| && Settled(SentTo(o, s, message, recipients, limit, n), messageId, other)
    ensures Settled(s, messageId, other) || (messageId == message.id && other in recipients)
  {
    hide Settled, ApplyAll, RecipientEvents;
    if n > 0 {
      var before := SentTo(o, s, message, recipients, limit, n - 1);
      RecipientSettlesOnly(o, before, message, recipients[n - 1], limit, messageId, other);
      if Settled(before, messageId, other) {
        SentToSettlesOnly(o, s, message, recipients, limit, n - 1, messageId, other);
      }
    }
  }

  /** The call is an accepted send of this message to this recipient. */
  ghost predicate SendsTo(s: Ledgers, call: Call, messageId: string, recipient: Address) {
    && call.CallSend? && Effective(s, call.message).Ok? && Effective(s, call.message).value.id == messageId
    && recipient in Recipients(call.message.payload)
  }

  lemma {:induction false} CallSettlesOnly(o: KeyOrder, s: Ledgers, call: Call, messageId: string, recipient: Address)
    requires o.Valid() && Settled(After(o, s, call), messageId, recipient)
    ensures Settled(s, messageId, recipient) || SendsTo(s, call, messageId, recipient)
  {
    hide LatestDeliveries, ApplyAll, SentTo, Effective, Recipients, RecipientList, SimpleEvents;
    if call.CallSend? {
      AcceptSameDeliveries(o, s, call.message);
      if Effective(s, call.message).Ok? {
        var recipients := RecipientList(o, call.message);
        SentToSettlesOnly(o, ApplyAll(o, s, AcceptEvents(s, call.message)), Effective(s, call.message).value,
          recipients, call.limit,
                          |recipients|, messageId, recipient);
      }
    } else {
      SimpleSettlesNothing(o, s, call);
      EventsSettleNothing(o, s, SimpleEvents(o, s, call));
    }
  }

  lemma {:induction false} SettledBySend(o: KeyOrder, calls: seq<Call>, n: nat, messageId: string, recipient: Address)
    returns (j: nat)
    requires o.Valid() && n <= |calls| && Settled(Run(o, calls, n), messageId, recipient)
    ensures j < n && SendsTo(Run(o, calls, j), calls[j], messageId, recipient)
  {
    hide Settled, After, SendsTo;
    if n == 0 {
      NothingSettledYet(messageId, recipient);
      assert false;
    } else {
      CallSettlesOnly(o, Run(o, calls, n - 1), calls[n - 1], messageId, recipient);
      if SendsTo(Run(o, calls, n - 1), calls[n - 1], messageId, recipient) {
        j := n - 1;
      } else {
        j := SettledBySend(o, calls, n - 1, messageId, recipient);
      }
    }
  }

  lemma {:induction false} NothingSettledYet(messageId: string, recipient: Address)
    ensures !Settled(EMPTY, messageId, recipient)
  {
  }

  /** In every run, a recipient has its delivery of a message or a recorded deferral exactly when an
      earlier accepted send named it. Recording the key alone does not settle anyone. */
  lemma {:induction false} SettledIffSent(o: KeyOrder, calls: seq<Call>, n: nat, messageId: string, recipient: Address)
    requires o.Valid() && n <= |calls|
    ensures Settled(Run(o, calls, n), messageId, recipient) <==>
            exists j | 0 <= j < n :: SendsTo(Run(o, calls, j), calls[j], messageId, recipient)
  {
    hide Settled, After, Effective, Recipients, Run;
    if Settled(Run(o, calls, n), messageId, recipient) {
      var j := SettledBySend(o, calls, n, messageId, recipient);
      assert SendsTo(Run(o, calls, j), calls[j], messageId, recipient);
    }
    if j :| 0 <= j < n && SendsTo(Run(o, calls, j), calls[j], messageId, recipient) {
      StaysSettled(o, calls, j, n, recipient);
    }
  }

  lemma {:induction false} DeliveredIsUnsettled(o: KeyOrder, s: Ledgers, message: Message, limit: Option<nat>,
                                                first: string,
                                                a: DeliveryAttempt)
    requires o.Valid() && SendReceipt(o, s, message, limit).Ok? && Effective(s, message).value.id == first
    requires a in SendReceipt(o, s, message, limit).value.attempts && a.status == WasDelivered
    requires AcceptEvents(s, message) == []
    ensures DeliveryId(first, a.recipient) !in LatestDeliveries(s.deliveries)
  {
    hide SentTo, AttemptsUpTo, ApplyAll, Effective, Accept, AcceptEvents, RecipientList, LatestDeliveries, AtCapacity;
    var effective := Effective(s, message).value;
    var recipients := RecipientList(o, message);
    NoEvents(o, s);
    AttemptRecipients(o, s, effective, recipients, limit, |recipients|);
    var attempts := AttemptsUpTo(o, s, effective, recipients, limit, |recipients|);
    var i: nat :| i < |attempts| && attempts[i] == a;
    SentToGrows(o, s, effective, recipients, limit, 0, i);
    SentToNobody(o, s, effective, recipients, limit);
    if DeliveryId(first, recipients[i]) in LatestDeliveries(s.deliveries) {
      LatestGrows(s.deliveries, SentTo(o, s, effective, recipients, limit, i).deliveries,
        DeliveryId(first, recipients[i]));
    }
  }

  ghost predicate NamedEarlier(o: KeyOrder, calls: seq<Call>, n: nat, messageId: string, recipient: Address)
    requires o.Valid() && n <= |calls|
  {
    exists j | 0 <= j < n :: SendsTo(Run(o, calls, j), calls[j], messageId, recipient)
  }

  /** Each delivery that the send reports as new goes to a recipient deferred before. */
  ghost predicate DeliversOnlyDeferred(o: KeyOrder, s: Ledgers, message: Message, limit: Option<nat>, first: string)
    requires o.Valid()
  {
    var receipt := SendReceipt(o, s, message, limit);
    receipt.Ok? &&
    forall a | a in receipt.value.attempts && a.status == WasDelivered :: WasDeferred(s, first, a.recipient)
  }

  /** What a duplicate delivers newly was deferred before if and only if it was named earlier. */
  lemma {:induction false} DeliveredIsNamed(o: KeyOrder, calls: seq<Call>, n: nat, message: Message,
                                            limit: Option<nat>, first: string)
    requires o.Valid() && n <= |calls| && Accept(Run(o, calls, n), message) == Ok(Duplicate(first))
    ensures var s := Run(o, calls, n);
      var receipt := SendReceipt(o, s, message, limit);
      && receipt.Ok?
      && forall a | a in receipt.value.attempts && a.status == WasDelivered ::
           a.recipient in Recipients(message.payload) &&
           (WasDeferred(s, first, a.recipient) <==> NamedEarlier(o, calls, n, first, a.recipient))
  {
    hide Run, AttemptsUpTo, SentTo, ApplyAll, WasDeferred, Accept, AcceptEvents, LatestDeliveries, NamedEarlier;
    var s := Run(o, calls, n);
    RunKeepsInv(o, calls, n);
    DuplicateEffective(s, message, first);
    OneAttemptEach(o, s, message, limit);
    var attempts := SendReceipt(o, s, message, limit).value.attempts;
    forall a | a in attempts && a.status == WasDelivered
      ensures a.recipient in Recipients(message.payload)
      ensures WasDeferred(s, first, a.recipient) <==> NamedEarlier(o, calls, n, first, a.recipient)
    {
      DeliveredIsUnsettled(o, s, message, limit, first, a);
      SettledIffNamed(o, calls, n, first, a.recipient);
    }
  }

  /** Without a limit a duplicate delivers to every recipient that has no delivery yet. */
  lemma {:induction false} UndeliveredIsDelivered(o: KeyOrder, s: Ledgers, message: Message, first: string,
                                                  recipient: Address)
    returns (a: DeliveryAttempt)
    requires o.Valid() && Inv(s) && Accept(s, message) == Ok(Duplicate(first))
    requires recipient in Recipients(message.payload)
    requires DeliveryId(first, recipient) !in LatestDeliveries(s.deliveries)
    ensures SendReceipt(o, s, message, None).Ok? && a in SendReceipt(o, s, message, None).value.attempts
    ensures a.recipient == recipient && a.status == WasDelivered
  {
    hide SentTo, AttemptsUpTo, ApplyAll, Effective, Accept, AcceptEvents, RecipientList, LatestDeliveries, Inv;
    DuplicateEffective(s, message, first);
    var effective, recipients := Effective(s, message).value, RecipientList(o, message);
    NoEvents(o, s);
    AttemptRecipients(o, s, effective, recipients, None, |recipients|);
    var i: nat :| i < |recipients| && recipients[i] == recipient;
    NotYetSent(o, s, effective, recipients, i, i);
    a := AttemptsUpTo(o, s, effective, recipients, None, |recipients|)[i];
  }

  /** The exact condition for retries, which a sender can check before the call: whatever the limit, a
      duplicate send delivers only to recipients deferred before, if and only if an earlier accepted send
      of the message named each of its recipients. */
  lemma {:induction false} DuplicateDeliversDeferredIff(o: KeyOrder, calls: seq<Call>, n: nat, message: Message,
                                                        first: string)
    requires o.Valid() && n <= |calls| && Accept(Run(o, calls, n), message) == Ok(Duplicate(first))
    ensures (forall limit :: DeliversOnlyDeferred(o, Run(o, calls, n), message, limit, first)) <==>
            (forall r | r in Recipients(message.payload) :: NamedEarlier(o, calls, n, first, r))
  {
    hide Run, SendReceipt, WasDeferred, Accept, NamedEarlier, Recipients;
    if forall r | r in Recipients(message.payload) :: NamedEarlier(o, calls, n, first, r) {
      forall limit ensures DeliversOnlyDeferred(o, Run(o, calls, n), message, limit, first) {
        DeliveredIsNamed(o, calls, n, message, limit, first);
      }
    }
    if forall limit :: DeliversOnlyDeferred(o, Run(o, calls, n), message, limit, first) {
      forall r | r in Recipients(message.payload) ensures NamedEarlier(o, calls, n, first, r) {
        OnlyDeferredIsNamed(o, calls, n, message, first, r);
      }
    }
  }

  lemma {:induction false} OnlyDeferredIsNamed(o: KeyOrder, calls: seq<Call>, n: nat, message: Message, first: string,
                                               recipient: Address)
    requires o.Valid() && n <= |calls| && Accept(Run(o, calls, n), message) == Ok(Duplicate(first))
    requires DeliversOnlyDeferred(o, Run(o, calls, n), message, None, first)
    requires recipient in Recipients(message.payload)
    ensures NamedEarlier(o, calls, n, first, recipient)
  {
    hide Run, SendReceipt, LatestDeliveries, WasDeferred, Accept, NamedEarlier, Recipients, Inv;
    var s := Run(o, calls, n);
    RunKeepsInv(o, calls, n);
    SettledIffNamed(o, calls, n, first, recipient);
    if DeliveryId(first, recipient) !in LatestDeliveries(s.deliveries) {
      var a := UndeliveredIsDelivered(o, s, message, first, recipient);
    }
  }

  lemma {:induction false} SettledIffNamed(o: KeyOrder, calls: seq<Call>, n: nat, messageId: string, recipient: Address)
    requires o.Valid() && n <= |calls|
    ensures Settled(Run(o, calls, n), messageId, recipient) <==> NamedEarlier(o, calls, n, messageId, recipient)
  {
    hide Settled, Run, SendsTo;
    SettledIffSent(o, calls, n, messageId, recipient);
  }

  lemma {:induction false} DuplicateEffective(s: Ledgers, message: Message, first: string)
    requires Inv(s) && Accept(s, message) == Ok(Duplicate(first))
    ensures Effective(s, message).Ok? && Effective(s, message).value.id == first && AcceptEvents(s, message) == []
  {
    hide DeliveryHistory, NoteHistory, AttemptsCounted, AgentHistory, KeysUnique, LatestDeliveries, LatestNotes,
         NotesFit,
         ClaimsReplay, FindKey;
  }

  // ----- one record a key

  /** In every state of every run each key has one record, and it never changes. */
  lemma {:induction false} KeysStayBound(o: KeyOrder, calls: seq<Call>, i: nat, n: nat, r: KeyRecord)
    requires o.Valid() && i <= n <= |calls| && r in Run(o, calls, i).keys
    ensures r in Run(o, calls, n).keys
    ensures forall q | q in Run(o, calls, n).keys && q.key == r.key :: q == r
  {
    RunGrows(o, calls, i, n);
    RunKeepsInv(o, calls, n);
    hide Run, DeliveryHistory, NoteHistory, AttemptsCounted, AgentHistory, LatestDeliveries, LatestNotes, NotesFit,
         ClaimsReplay;
    var keys := Run(o, calls, n).keys;
    var a :| 0 <= a < |keys| && keys[a] == r;
    forall q | q in keys && q.key == r.key ensures q == r {
      var b :| 0 <= b < |keys| && keys[b] == q;
    }
  }
}
