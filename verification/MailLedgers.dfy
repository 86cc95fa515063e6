/** The agent mail ledgers and the single appends every call is made of.

    Ids that the store derives by hashing are the values they are derived from. Times are whole
    nanoseconds, each written in one way. A ledger is read by letting the last record of each id win. */
module MailLedgers {
  import opened Orders

  datatype AgentId = AgentId(transport: string, thread: string)

  /** A canonical address: an agent's own mailbox, one that can be granted (a role, a list or a page),
      or anything else. */
  datatype Address = AgentMailbox(id: AgentId) | Grantable(text: string) | OtherAddress(text: string)

  datatype AgentState = Active | Stale | Retired

  datatype Agent = Agent(id: AgentId, roles: seq<Address>, leaseExpires: int, state: AgentState)

  datatype Lease = Lease(agent: AgentId, expires: int, at: int)

  datatype DeliveryId = DeliveryId(message: string, recipient: Address)

  datatype DeliveryState = Unread | Read | Claimed | Snoozed | Done | Archived | Rejected | DeadLetter {
    predicate IsOpen() { this in {Unread, Read, Claimed, Snoozed} }

    predicate IsTerminal() { this in {Done, Archived, Rejected, DeadLetter} }

    predicate IsMarkState() { this in {Read, Done, Archived, Rejected} }
  }

  datatype Delivery = Delivery(id: DeliveryId, thread: string, state: DeliveryState, claimedBy: Option<AgentId>,
                               snoozedUntil: Option<int>, createdAt: int, updatedAt: int) {
    predicate DueAt(now: int) { state == Snoozed && snoozedUntil.Some? ==> snoozedUntil.value <= now }

    predicate FreeFor(agent: AgentId) { claimedBy == None || claimedBy == Some(agent) }
  }

  datatype Claim = Claim(delivery: DeliveryId, thread: string, agent: AgentId, state: DeliveryState, at: int)

  datatype NoteId = NoteId(delivery: DeliveryId, agent: AgentId)

  datatype NoteState = Pending | Acknowledged | Suppressed

  datatype Note = Note(id: NoteId, thread: string, state: NoteState, createdAt: int, updatedAt: int,
                       acknowledgedAt: Option<int>, attemptCount: nat, lastAttemptAt: Option<int>,
                       nextDispatchAt: Option<int>, lastError: Option<string>)

  datatype AttemptStatus = Sent | Failed | DryRun

  datatype AttemptId = AttemptId(note: NoteId, at: int, status: AttemptStatus)

  datatype Attempt = Attempt(id: AttemptId, error: Option<string>)

  /** What the payload hash of a message covers: everything but its id and creation time. */
  datatype Payload = Payload(key: string, thread: string, to: seq<Address>, cc: seq<Address>, content: string)

  datatype Message = Message(id: string, createdAt: int, payload: Payload)

  datatype KeyRecord = KeyRecord(key: string, messageId: string, payload: Payload, createdAt: int)

  datatype Deferral = Deferral(messageId: string, recipient: Address, at: int)

  datatype Ledgers = Ledgers(agents: seq<Agent>, leases: seq<Lease>, deliveries: seq<Delivery>, claims: seq<Claim>,
                             notes: seq<Note>, attempts: seq<Attempt>, keys: seq<KeyRecord>,
                             deferrals: seq<Deferral>, messages: map<string, Message>)

  const EMPTY: Ledgers := Ledgers([], [], [], [], [], [], [], [], map[])

  const SECOND: int := 1_000_000_000

  const MINUTE: int := 60 * SECOND

  /** When a failed attempt may be repeated: a minute later, cut to the whole second. */
  function NextDispatch(at: int): (time: int) { (at + MINUTE) / SECOND * SECOND }

  // ----- the last record of each id

  function LatestAgents(s: seq<Agent>): (latest: map<AgentId, Agent>) {
    if s == [] then map[] else var n := |s| - 1; LatestAgents(s[..n])[s[n].id := s[n]]
  }

  function LatestDeliveries(s: seq<Delivery>): (latest: map<DeliveryId, Delivery>) {
    if s == [] then map[] else var n := |s| - 1; LatestDeliveries(s[..n])[s[n].id := s[n]]
  }

  function LatestNotes(s: seq<Note>): (latest: map<NoteId, Note>) {
    if s == [] then map[] else var n := |s| - 1; LatestNotes(s[..n])[s[n].id := s[n]]
  }

  function LatestLease(s: seq<Lease>, agent: AgentId): (lease: Option<Lease>) {
    if s == [] then None
    else var n := |s| - 1; if s[n].agent == agent then Some(s[n]) else LatestLease(s[..n], agent)
  }

  lemma {:induction false} DeliveriesSnoc(s: seq<Delivery>, d: Delivery)
    ensures LatestDeliveries(s + [d]) == LatestDeliveries(s)[d.id := d]
  {
    assert (s + [d])[..|s|] == s;
  }

  lemma {:induction false} NotesSnoc(s: seq<Note>, n: Note)
    ensures LatestNotes(s + [n]) == LatestNotes(s)[n.id := n]
  {
    assert (s + [n])[..|s|] == s;
  }

  lemma {:induction false} AgentsSnoc(s: seq<Agent>, a: Agent)
    ensures LatestAgents(s + [a]) == LatestAgents(s)[a.id := a]
  {
    assert (s + [a])[..|s|] == s;
  }

  ghost predicate IsLatestDelivery(s: seq<Delivery>, k: nat) {
    k < |s| && forall j | k < j < |s| :: s[j].id != s[k].id
  }

  lemma {:induction false} DeliveryListed(s: seq<Delivery>, i: nat)
    requires i < |s|
    ensures s[i].id in LatestDeliveries(s)
  {
    if i < |s| - 1 {
      DeliveryListed(s[..|s| - 1], i);
    }
  }

  lemma {:induction false} StillLatest(s: seq<Delivery>, k: nat)
    requires s != [] && IsLatestDelivery(s[..|s| - 1], k) && s[|s| - 1].id != s[k].id
    ensures IsLatestDelivery(s, k)
  {
    forall j | k < j < |s| ensures s[j].id != s[k].id {
      assert j < |s| - 1 ==> s[..|s| - 1][j].id != s[..|s| - 1][k].id;
    }
  }

  lemma {:induction false} LastDelivery(s: seq<Delivery>, id: DeliveryId) returns (k: nat)
    requires id in LatestDeliveries(s)
    ensures IsLatestDelivery(s, k) && s[k] == LatestDeliveries(s)[id] && s[k].id == id
  {
    var n := |s| - 1;
    if s[n].id == id {
      k := n;
    } else {
      k := LastDelivery(s[..n], id);
      StillLatest(s, k);
    }
  }

  /** The latest delivery of an id is the one its last record gives. */
  lemma {:induction false} LatestDeliveryAt(s: seq<Delivery>, id: DeliveryId)
    ensures id in LatestDeliveries(s) <==> exists k | 0 <= k < |s| :: s[k].id == id
    ensures id in LatestDeliveries(s) ==>
              LatestDeliveries(s)[id].id == id
              && exists k: nat :: IsLatestDelivery(s, k) && s[k] == LatestDeliveries(s)[id]
  {
    hide LatestDeliveries;
    if id in LatestDeliveries(s) {
      var k := LastDelivery(s, id);
    }
    if i: nat :| i < |s| && s[i].id == id {
      DeliveryListed(s, i);
    }
  }

  // ----- who may see and act

  predicate Visible(agent: Agent, d: Delivery) {
    d.id.recipient == AgentMailbox(agent.id) || d.id.recipient in agent.roles
  }

  predicate Actionable(agent: Agent, d: Delivery) { Visible(agent, d) && d.FreeFor(agent.id) }

  function FreshNote(d: Delivery, agent: AgentId, at: int): Note {
    Note(NoteId(d.id, agent), d.thread, Pending, at, at, None, 0, None, None, None)
  }

  // ----- single appends

  /** A notification that loses when `winner` takes the delivery. */
  predicate Competes(note: Note, delivery: DeliveryId, winner: AgentId) {
    note.id.delivery == delivery && note.id.agent != winner && note.state == Pending
  }

  function Suppress(note: Note, at: int): Note { note.(state := Suppressed, updatedAt := at) }

  /** The records appended for the first `n` of the listed notifications. */
  function Suppressions(latest: map<NoteId, Note>, ids: seq<NoteId>, n: nat, delivery: DeliveryId, winner: AgentId,
                        at: int)
    : (notes: seq<Note>)
    requires n <= |ids| && forall i | 0 <= i < |ids| :: ids[i] in latest
  {
    if n == 0 then []
    else
      Suppressions(latest, ids, n - 1, delivery, winner, at)
      + if Competes(latest[ids[n - 1]], delivery, winner) then [Suppress(latest[ids[n - 1]], at)] else []
  }

  /** What suppressing does to the notifications as they are read. */
  function AfterSuppression(latest: map<NoteId, Note>, delivery: DeliveryId, winner: AgentId, at: int)
    : (after: map<NoteId, Note>)
  {
    map id | id in latest :: if Competes(latest[id], delivery, winner) then Suppress(latest[id], at) else latest[id]
  }

  /** The orders in which the store's ordered maps and sets list their keys, and the order of creation
      times, which polls compare as text. */
  datatype KeyOrder = KeyOrder(agents: (AgentId, AgentId) -> bool, deliveries: (DeliveryId, DeliveryId) -> bool,
                               notes: (NoteId, NoteId) -> bool, addresses: (Address, Address) -> bool,
                               times: (int, int) -> bool) {
    ghost predicate Valid() {
      TotalOrder(agents) && TotalOrder(deliveries) && TotalOrder(notes) && TotalOrder(addresses) && TotalOrder(times)
    }
  }

  datatype Event =
    | AgentSeen(agent: Agent)
    | Leased(lease: Lease)
    | Accepted(message: Message)
    | Delivered(delivery: Delivery)
    | Deferred(deferral: Deferral)
    | Noted(note: Note)
    | Moved(id: DeliveryId, actor: AgentId, state: DeliveryState, until: Option<int>, at: int)
    | Acked(noteId: NoteId, at: int)
    | Attempted(noteId: NoteId, status: AttemptStatus, at: int, error: Option<string>)

  /** The delivery as its next record describes it; marking something read leaves its claimant alone. */
  function MovedTo(d: Delivery, actor: AgentId, state: DeliveryState, until: Option<int>, at: int): Delivery {
    d.(state := state, claimedBy := if state == Read then d.claimedBy else Some(actor),
       snoozedUntil := until, updatedAt := at)
  }

  function AttemptedNote(note: Note, status: AttemptStatus, at: int, error: Option<string>): Note {
    note.(attemptCount := note.attemptCount + 1, lastAttemptAt := Some(at), updatedAt := at, lastError := error,
          nextDispatchAt := if status == Failed then Some(NextDispatch(at)) else None)
  }

  function AckedNote(note: Note, at: int): Note {
    note.(state := Acknowledged, updatedAt := at, acknowledgedAt := Some(at))
  }

  function CompetingSuppressed(o: KeyOrder, notes: seq<Note>, delivery: DeliveryId, winner: AgentId, at: int)
    : (added: seq<Note>)
    requires o.Valid()
  {
    var latest := LatestNotes(notes);
    var ids := Ascending(o.notes, latest.Keys);
    Suppressions(latest, ids, |ids|, delivery, winner, at)
  }

  function Move(o: KeyOrder, s: Ledgers, id: DeliveryId, actor: AgentId, state: DeliveryState, until: Option<int>,
                at: int): Ledgers
    requires o.Valid() && id in LatestDeliveries(s.deliveries)
  {
    var d := MovedTo(LatestDeliveries(s.deliveries)[id], actor, state, until, at);
    s.(deliveries := s.deliveries + [d],
       claims := s.claims + [Claim(id, d.thread, actor, state, at)],
       notes := s.notes + if d.claimedBy == Some(actor) then CompetingSuppressed(o, s.notes, id, actor, at) else [])
  }

  /** When the store makes each append. */
  ghost predicate Enabled(s: Ledgers, e: Event) {
    match e
    case AgentSeen(agent) =>
      agent.id in LatestAgents(s.agents) && LatestAgents(s.agents)[agent.id].state == Retired ==> agent.state == Retired
    case Leased(_) => true
    case Accepted(message) => forall r | r in s.keys :: r.key != message.payload.key
    case Delivered(d) => d.id !in LatestDeliveries(s.deliveries) && d.state == Unread && d.claimedBy == None
                         && d.snoozedUntil == None && d.createdAt == d.updatedAt
    case Deferred(_) => true
    case Noted(n) =>
      && n.id !in LatestNotes(s.notes)
      && n.id.delivery in LatestDeliveries(s.deliveries)
      && var d := LatestDeliveries(s.deliveries)[n.id.delivery];
      && d.state.IsOpen() && d.FreeFor(n.id.agent)
      && n == FreshNote(d, n.id.agent, n.createdAt)
    case Moved(id, actor, state, until, _) =>
      && id in LatestDeliveries(s.deliveries)
      && var d := LatestDeliveries(s.deliveries)[id];
      && !d.state.IsTerminal() && d.FreeFor(actor)
      && state in {Read, Claimed, Snoozed, Done, Archived, Rejected}
      && (state.IsTerminal() ==> d.claimedBy == Some(actor))
      && (until.Some? <==> state == Snoozed)
    case Acked(id, _) => id in LatestNotes(s.notes) && LatestNotes(s.notes)[id].state == Pending
    case Attempted(id, status, at, _) =>
      && id in LatestNotes(s.notes) && LatestNotes(s.notes)[id].state == Pending
      && forall a | a in s.attempts :: a.id != AttemptId(id, at, status)
  }

  function Apply(o: KeyOrder, s: Ledgers, e: Event): Ledgers
    requires o.Valid()
  {
    match e
    case AgentSeen(agent) => s.(agents := s.agents + [agent])
    case Leased(lease) => s.(leases := s.leases + [lease])
    case Accepted(message) =>
      s.(keys := s.keys + [KeyRecord(message.payload.key, message.id, message.payload, message.createdAt)],
         messages := s.messages[message.id := message])
    case Delivered(d) => s.(deliveries := s.deliveries + [d])
    case Deferred(deferral) => s.(deferrals := s.deferrals + [deferral])
    case Noted(n) => s.(notes := s.notes + [n])
    case Moved(id, actor, state, until, at) =>
      if id in LatestDeliveries(s.deliveries) then Move(o, s, id, actor, state, until, at) else s
    case Acked(id, at) =>
      if id in LatestNotes(s.notes) then s.(notes := s.notes + [AckedNote(LatestNotes(s.notes)[id], at)]) else s
    case Attempted(id, status, at, error) =>
      if id in LatestNotes(s.notes)
      then s.(attempts := s.attempts + [Attempt(AttemptId(id, at, status), error)],
              notes := s.notes + [AttemptedNote(LatestNotes(s.notes)[id], status, at, error)])
      else s
  }

  function ApplyAll(o: KeyOrder, s: Ledgers, events: seq<Event>): Ledgers
    requires o.Valid()
  {
    if events == [] then s
    else Apply(o, ApplyAll(o, s, events[..|events| - 1]), events[|events| - 1])
  }

  /** Every append is made only when the store makes it. */
  ghost predicate AllEnabled(o: KeyOrder, s: Ledgers, events: seq<Event>)
    requires o.Valid()
  {
    events == []
    || (&& AllEnabled(o, s, events[..|events| - 1])
        && Enabled(ApplyAll(o, s, events[..|events| - 1]), events[|events| - 1]))
  }

  lemma {:induction false} EventsSnoc(o: KeyOrder, s: Ledgers, events: seq<Event>, e: Event)
    requires o.Valid()
    ensures ApplyAll(o, s, events + [e]) == Apply(o, ApplyAll(o, s, events), e)
    ensures AllEnabled(o, s, events + [e]) <==> AllEnabled(o, s, events) && Enabled(ApplyAll(o, s, events), e)
  {
    hide Apply, Enabled;
    assert (events + [e])[..|events|] == events;
  }

  lemma {:induction false} EventsConcat(o: KeyOrder, s: Ledgers, a: seq<Event>, b: seq<Event>)
    requires o.Valid()
    ensures ApplyAll(o, s, a + b) == ApplyAll(o, ApplyAll(o, s, a), b)
    ensures AllEnabled(o, s, a + b) <==> AllEnabled(o, s, a) && AllEnabled(o, ApplyAll(o, s, a), b)
  {
    hide Apply, Enabled;
    if b == [] {
      assert a + b == a;
    } else {
      var n := |b| - 1;
      EventsConcat(o, s, a, b[..n]);
      EventsSnoc(o, s, a + b[..n], b[n]);
      assert a + b == (a + b[..n]) + [b[n]];
    }
  }

  // ----- what suppression does

  lemma {:induction false} NotesConcat(s: seq<Note>, added: seq<Note>, n: Note)
    ensures LatestNotes(s + (added + [n])) == LatestNotes(s + added)[n.id := n]
  {
    ConcatAssoc(s, added, [n]);
    NotesSnoc(s + added, n);
  }

  lemma {:induction false} LatestNoteKeyed(s: seq<Note>)
    ensures forall id | id in LatestNotes(s) :: LatestNotes(s)[id].id == id
  {
    if s != [] {
      LatestNoteKeyed(s[..|s| - 1]);
    }
  }

  /** The notifications as they are read once the first `n` listed ones were dealt with. */
  function PartlySuppressed(latest: map<NoteId, Note>, ids: seq<NoteId>, n: nat, delivery: DeliveryId, winner: AgentId,
                            at: int)
    : map<NoteId, Note>
    requires n <= |ids|
  {
    map id | id in latest ::
      if id in ids[..n] && Competes(latest[id], delivery, winner) then Suppress(latest[id], at) else latest[id]
  }

  lemma {:induction false} PartlyStep(latest: map<NoteId, Note>, ids: seq<NoteId>, n: nat, delivery: DeliveryId,
                                      winner: AgentId, at: int)
    requires n < |ids| && ids[n] in latest
    ensures var before := PartlySuppressed(latest, ids, n, delivery, winner, at);
      PartlySuppressed(latest, ids, n + 1, delivery, winner, at) ==
      if Competes(latest[ids[n]], delivery, winner) then before[ids[n] := Suppress(latest[ids[n]], at)] else before
  {
    hide Competes, Suppress;
    assert ids[..n + 1] == ids[..n] + [ids[n]];
  }

  lemma {:induction false} SuppressionsRead(s: seq<Note>, ids: seq<NoteId>, n: nat, delivery: DeliveryId,
                                            winner: AgentId, at: int)
    requires n <= |ids| && forall i | 0 <= i < |ids| :: ids[i] in LatestNotes(s)
    ensures LatestNotes(s + Suppressions(LatestNotes(s), ids, n, delivery, winner, at)) ==
            PartlySuppressed(LatestNotes(s), ids, n, delivery, winner, at)
  {
    hide LatestNotes, PartlySuppressed, Competes;
    var latest := LatestNotes(s);
    if n == 0 {
      assert s + [] == s;
      NothingSuppressed(latest, ids, delivery, winner, at);
    } else {
      var added := Suppressions(latest, ids, n - 1, delivery, winner, at);
      var note := latest[ids[n - 1]];
      SuppressionsRead(s, ids, n - 1, delivery, winner, at);
      PartlyStep(latest, ids, n - 1, delivery, winner, at);
      NotesConcat(s, added, Suppress(note, at));
      LatestNoteKeyed(s);
      assert added + [] == added;
    }
  }

  lemma {:induction false} NothingSuppressed(latest: map<NoteId, Note>, ids: seq<NoteId>, delivery: DeliveryId,
                                             winner: AgentId, at: int)
    ensures PartlySuppressed(latest, ids, 0, delivery, winner, at) == latest
  {
  }

  lemma {:induction false} AllSuppressed(latest: map<NoteId, Note>, ids: seq<NoteId>, delivery: DeliveryId,
                                         winner: AgentId, at: int)
    requires forall id :: id in ids <==> id in latest
    ensures PartlySuppressed(latest, ids, |ids|, delivery, winner, at) == AfterSuppression(latest, delivery, winner, at)
  {
    assert ids[..|ids|] == ids;
  }

  lemma {:induction false} SuppressionRead(o: KeyOrder, s: seq<Note>, delivery: DeliveryId, winner: AgentId, at: int)
    requires o.Valid()
    ensures LatestNotes(s + CompetingSuppressed(o, s, delivery, winner, at)) ==
            AfterSuppression(LatestNotes(s), delivery, winner, at)
  {
    hide Competes, TotalOrder, LatestNotes, PartlySuppressed, AfterSuppression, Suppressions;
    var ids := Ascending(o.notes, LatestNotes(s).Keys);
    SuppressionsRead(s, ids, |ids|, delivery, winner, at);
    AllSuppressed(LatestNotes(s), ids, delivery, winner, at);
  }
}
