/** What each call of the mail store checks and appends, as a function of the ledgers it finds. */
module MailCalls {
  import opened Orders
  import opened MailLedgers

  datatype Failure =
    | UnknownAgent
    | NotActive
    | StaleLease
    | RetiredAgent
    | NotGrantable
    | UnknownDelivery
    | NoAccess
    | AlreadyTerminal
    | ClaimedByOther
    | NotMarkable
    | NotClaimed
    | UnknownNote
    | WrongAgent
    | KeyReused
    | UnknownMessage
    | NotPending
    | NotOpen

  // ----- agents

  function ActiveAgent(s: Ledgers, id: AgentId): (r: Result<Agent, Failure>) {
    var agents := LatestAgents(s.agents);
    if id !in agents then Err(UnknownAgent)
    else if agents[id].state != Active then Err(NotActive)
    else Ok(agents[id])
  }

  function LiveAgent(s: Ledgers, id: AgentId, now: int): (r: Result<Agent, Failure>) {
    var active := ActiveAgent(s, id);
    var lease := LatestLease(s.leases, id);
    if active.Err? then active
    else if lease.Some? && lease.value.expires > now then active
    else Err(StaleLease)
  }

  function UnretiredAgent(s: Ledgers, id: AgentId): (r: Result<Agent, Failure>) {
    var agents := LatestAgents(s.agents);
    if id !in agents then Err(UnknownAgent)
    else if agents[id].state == Retired then Err(RetiredAgent)
    else Ok(agents[id])
  }

  function In(allowed: set<Address>): Address -> bool { role => role in allowed }

  function Identify(s: Ledgers, id: AgentId, requested: seq<Address>, allowed: set<Address>, expires: int, at: int)
    : (r: Result<seq<Event>, Failure>)
  {
    var agents := LatestAgents(s.agents);
    if exists role | role in requested :: !role.Grantable? then Err(NotGrantable)
    else if id in agents && agents[id].state == Retired then Err(RetiredAgent)
    else Ok([AgentSeen(Agent(id, Filter(In(allowed), requested), expires, Active)), Leased(Lease(id, expires, at))])
  }

  function Heartbeat(s: Ledgers, id: AgentId, expires: int, at: int): (r: Result<seq<Event>, Failure>) {
    var agents := LatestAgents(s.agents);
    if id !in agents then Err(UnknownAgent)
    else if agents[id].state == Retired then Err(RetiredAgent)
    else
      Ok((if agents[id].state == Stale then [AgentSeen(agents[id].(state := Active, leaseExpires := expires))] else [])
         + [Leased(Lease(id, expires, at))])
  }

  function Retire(s: Ledgers, id: AgentId, expires: int, at: int): (r: Result<seq<Event>, Failure>) {
    var agents := LatestAgents(s.agents);
    if id !in agents then Err(UnknownAgent)
    else Ok([AgentSeen(agents[id].(state := Retired, leaseExpires := expires)), Leased(Lease(id, expires, at))])
  }

  // ----- notifications that are missing

  predicate Wanted(agent: Agent, d: Delivery, known: map<NoteId, Note>) {
    agent.state != Retired && d.state.IsOpen() && Actionable(agent, d) && NoteId(d.id, agent.id) !in known
  }

  /** For a delivery: one notification for each of the first `n` agents that should know of it. */
  function NotesForAgents(agents: map<AgentId, Agent>, known: map<NoteId, Note>, d: Delivery, ids: seq<AgentId>, n: nat)
    : (events: seq<Event>)
    requires n <= |ids| && forall i | 0 <= i < |ids| :: ids[i] in agents
  {
    if n == 0 then []
    else NotesForAgents(agents, known, d, ids, n - 1)
         + if Wanted(agents[ids[n - 1]], d, known)
           then [Noted(FreshNote(d, agents[ids[n - 1]].id, d.createdAt))] else []
  }

  function DeliveryNotes(o: KeyOrder, s: Ledgers, d: Delivery): (events: seq<Event>)
    requires o.Valid()
  {
    var agents := LatestAgents(s.agents);
    var ids := Ascending(o.agents, agents.Keys);
    NotesForAgents(agents, LatestNotes(s.notes), d, ids, |ids|)
  }

  /** For an agent: one notification for each of the first `n` deliveries it should know of. */
  function NotesForDeliveries(deliveries: map<DeliveryId, Delivery>, known: map<NoteId, Note>, agent: Agent, at: int,
                              ids: seq<DeliveryId>, n: nat)
    : (events: seq<Event>)
    requires n <= |ids| && forall i | 0 <= i < |ids| :: ids[i] in deliveries
  {
    if n == 0 then []
    else NotesForDeliveries(deliveries, known, agent, at, ids, n - 1)
         + if Wanted(agent, deliveries[ids[n - 1]], known)
           then [Noted(FreshNote(deliveries[ids[n - 1]], agent.id, at))] else []
  }

  function AgentNotes(o: KeyOrder, s: Ledgers, agent: Agent, at: int): (events: seq<Event>)
    requires o.Valid()
  {
    var deliveries := LatestDeliveries(s.deliveries);
    var ids := Ascending(o.deliveries, deliveries.Keys);
    NotesForDeliveries(deliveries, LatestNotes(s.notes), agent, at, ids, |ids|)
  }

  // ----- sending

  datatype Acceptance = NewMessage | Duplicate(messageId: string)

  datatype DeliveryStatus = WasDelivered | AlreadyDelivered | DeferredCapacity

  datatype DeliveryAttempt = DeliveryAttempt(recipient: Address, delivery: DeliveryId, status: DeliveryStatus)

  datatype Receipt = Receipt(acceptance: Acceptance, attempts: seq<DeliveryAttempt>)

  /** The first record of a key, among the records from the `k`-th on. */
  function FindKey(keys: seq<KeyRecord>, key: string, k: nat): (r: Option<KeyRecord>)
    requires k <= |keys|
    ensures r.Some? ==> r.value in keys && r.value.key == key
    ensures r.None? ==> forall i | k <= i < |keys| :: keys[i].key != key
    decreases |keys| - k
  {
    if k == |keys| then None
    else if keys[k].key == key then Some(keys[k])
    else FindKey(keys, key, k + 1)
  }

  function Accept(s: Ledgers, message: Message): (r: Result<Acceptance, Failure>) {
    match FindKey(s.keys, message.payload.key, 0)
    case Some(r) => if r.payload == message.payload then Ok(Duplicate(r.messageId)) else Err(KeyReused)
    case None => Ok(NewMessage)
  }

  function AcceptEvents(s: Ledgers, message: Message): (events: seq<Event>) {
    if Accept(s, message) == Ok(NewMessage) then [Accepted(message)] else []
  }

  function Recipients(payload: Payload): (r: set<Address>) {
    (set a | a in payload.to) + (set a | a in payload.cc)
  }

  function OpenFor(latest: map<DeliveryId, Delivery>, recipient: Address): (r: set<DeliveryId>) {
    set id | id in latest && id.recipient == recipient && latest[id].state.IsOpen()
  }

  function NewDelivery(message: Message, recipient: Address): Delivery {
    Delivery(DeliveryId(message.id, recipient), message.payload.thread, Unread, None, None, message.createdAt,
      message.createdAt)
  }

  predicate AtCapacity(latest: map<DeliveryId, Delivery>, recipient: Address, limit: Option<nat>) {
    limit.Some? && |OpenFor(latest, recipient)| >= limit.value
  }

  function RecipientStatus(s: Ledgers, message: Message, recipient: Address, limit: Option<nat>)
    : (status: DeliveryStatus) {
    var latest := LatestDeliveries(s.deliveries);
    if DeliveryId(message.id, recipient) in latest then AlreadyDelivered
    else if AtCapacity(latest, recipient, limit) then DeferredCapacity
    else WasDelivered
  }

  function RecipientEvents(o: KeyOrder, s: Ledgers, message: Message, recipient: Address, limit: Option<nat>)
    : (events: seq<Event>)
    requires o.Valid()
  {
    var latest := LatestDeliveries(s.deliveries);
    var id := DeliveryId(message.id, recipient);
    if id in latest then DeliveryNotes(o, s, latest[id])
    else if AtCapacity(latest, recipient, limit) then [Deferred(Deferral(message.id, recipient, message.createdAt))]
    else
      var d := NewDelivery(message, recipient);
      [Delivered(d)] + DeliveryNotes(o, Apply(o, s, Delivered(d)), d)
  }

  /** The ledgers once the first `n` recipients were dealt with. */
  function SentTo(o: KeyOrder, s: Ledgers, message: Message, recipients: seq<Address>, limit: Option<nat>, n: nat)
    : (r: Ledgers)
    requires o.Valid() && n <= |recipients|
  {
    if n == 0 then s
    else
      var before := SentTo(o, s, message, recipients, limit, n - 1);
      ApplyAll(o, before, RecipientEvents(o, before, message, recipients[n - 1], limit))
  }

  function AttemptsUpTo(o: KeyOrder, s: Ledgers, message: Message, recipients: seq<Address>, limit: Option<nat>, n: nat)
    : (r: seq<DeliveryAttempt>)
    requires o.Valid() && n <= |recipients|
  {
    if n == 0 then []
    else
      var before := SentTo(o, s, message, recipients, limit, n - 1);
      AttemptsUpTo(o, s, message, recipients, limit, n - 1)
      + [DeliveryAttempt(recipients[n - 1], DeliveryId(message.id, recipients[n - 1]),
                         RecipientStatus(before, message, recipients[n - 1], limit))]
  }

  /** The message whose deliveries a send makes: a duplicate under another id stands for the first. */
  function Effective(s: Ledgers, message: Message): (r: Result<Message, Failure>) {
    match Accept(s, message)
    case Err(e) => Err(e)
    case Ok(NewMessage) => Ok(message)
    case Ok(Duplicate(id)) =>
      if id == message.id then Ok(message)
      else if id in s.messages then Ok(s.messages[id])
      else Err(UnknownMessage)
  }

  function RecipientList(o: KeyOrder, message: Message): (r: seq<Address>)
    requires o.Valid()
    ensures Distinct(r) && (forall a | a in r :: a in Recipients(message.payload))
            && (forall a | a in Recipients(message.payload) :: a in r)
  {
    Ascending(o.addresses, Recipients(message.payload))
  }

  function AfterSend(o: KeyOrder, s: Ledgers, message: Message, limit: Option<nat>): (r: Ledgers)
    requires o.Valid()
  {
    var effective := Effective(s, message);
    if effective.Err? then s
    else
      var recipients := RecipientList(o, message);
      SentTo(o, ApplyAll(o, s, AcceptEvents(s, message)), effective.value, recipients, limit, |recipients|)
  }

  function SendReceipt(o: KeyOrder, s: Ledgers, message: Message, limit: Option<nat>): (r: Result<Receipt, Failure>)
    requires o.Valid()
  {
    var effective := Effective(s, message);
    if effective.Err? then Err(effective.error)
    else
      var recipients := RecipientList(o, message);
      Ok(Receipt(Accept(s, message).value,
                 AttemptsUpTo(o, ApplyAll(o, s, AcceptEvents(s, message)), effective.value, recipients, limit,
                   |recipients|)))
  }

  // ----- deliveries

  /** The checks every change of a delivery starts with. */
  function Accessible(s: Ledgers, id: DeliveryId, agent: Agent): (r: Result<Delivery, Failure>) {
    var deliveries := LatestDeliveries(s.deliveries);
    if id !in deliveries then Err(UnknownDelivery)
    else if !Visible(agent, deliveries[id]) then Err(NoAccess)
    else Ok(deliveries[id])
  }

  function ClaimCheck(d: Delivery, agent: AgentId, at: int): (r: Result<seq<Event>, Failure>) {
    if d.state.IsTerminal() then Err(AlreadyTerminal)
    else if d.state == Claimed && d.claimedBy == Some(agent) then Ok([])
    else if !d.FreeFor(agent) then Err(ClaimedByOther)
    else Ok([Moved(d.id, agent, Claimed, None, at)])
  }

  function MarkCheck(d: Delivery, agent: AgentId, state: DeliveryState, at: int): (r: Result<seq<Event>, Failure>) {
    if d.state.IsTerminal() then
      if d.state == state && d.claimedBy == Some(agent) then Ok([]) else Err(AlreadyTerminal)
    else if !d.FreeFor(agent) then Err(ClaimedByOther)
    else if d.claimedBy == None && state.IsTerminal() then Err(NotClaimed)
    else Ok([Moved(d.id, agent, state, None, at)])
  }

  function SnoozeCheck(d: Delivery, agent: AgentId, until: int, at: int): (r: Result<seq<Event>, Failure>) {
    if d.state.IsTerminal() then Err(AlreadyTerminal)
    else if !d.FreeFor(agent) then Err(ClaimedByOther)
    else Ok([Moved(d.id, agent, Snoozed, Some(until), at)])
  }

  function ClaimDelivery(s: Ledgers, id: DeliveryId, agent: AgentId, at: int): (r: Result<seq<Event>, Failure>) {
    var live := LiveAgent(s, agent, at);
    if live.Err? then Err(live.error)
    else
      var found := Accessible(s, id, live.value);
      if found.Err? then Err(found.error) else ClaimCheck(found.value, agent, at)
  }

  function MarkDelivery(s: Ledgers, id: DeliveryId, agent: AgentId, state: DeliveryState, at: int)
    : (r: Result<seq<Event>, Failure>) {
    var live := LiveAgent(s, agent, at);
    if live.Err? then Err(live.error)
    else if !state.IsMarkState() then Err(NotMarkable)
    else
      var found := Accessible(s, id, live.value);
      if found.Err? then Err(found.error) else MarkCheck(found.value, agent, state, at)
  }

  function SnoozeDelivery(s: Ledgers, id: DeliveryId, agent: AgentId, until: int, at: int)
    : (r: Result<seq<Event>, Failure>) {
    var live := LiveAgent(s, agent, at);
    if live.Err? then Err(live.error)
    else
      var found := Accessible(s, id, live.value);
      if found.Err? then Err(found.error) else SnoozeCheck(found.value, agent, until, at)
  }

  // ----- polling and dispatch

  predicate DuePending(s: Ledgers, note: Note, agent: AgentId, now: int) {
    && note.id.agent == agent && note.state == Pending
    && note.id.delivery in LatestDeliveries(s.deliveries)
    && var d := LatestDeliveries(s.deliveries)[note.id.delivery];
    && d.state.IsOpen() && d.FreeFor(agent) && d.DueAt(now)
  }

  predicate Dispatchable(note: Note, now: int) {
    note.attemptCount == 0 || (note.nextDispatchAt.Some? && note.nextDispatchAt.value <= now)
  }

  function NoteLe(o: KeyOrder): (Note, Note) -> bool {
    (a: Note, b: Note) => if a.createdAt == b.createdAt then o.notes(a.id, b.id) else o.times(a.createdAt, b.createdAt)
  }

  /** The due pending notifications among the first `n` listed. */
  function DueNotes(s: Ledgers, latest: map<NoteId, Note>, ids: seq<NoteId>, n: nat, agent: AgentId, now: int)
    : (notes: seq<Note>)
    requires n <= |ids| && forall i | 0 <= i < |ids| :: ids[i] in latest
  {
    if n == 0 then []
    else DueNotes(s, latest, ids, n - 1, agent, now)
         + if DuePending(s, latest[ids[n - 1]], agent, now) then [latest[ids[n - 1]]] else []
  }

  function PendingDue(o: KeyOrder, s: Ledgers, agent: AgentId, now: int): (notes: seq<Note>)
    requires o.Valid()
  {
    var latest := LatestNotes(s.notes);
    var ids := Ascending(o.notes, latest.Keys);
    Sort(NoteLe(o), DueNotes(s, latest, ids, |ids|, agent, now))
  }

  function CanDispatch(now: int): Note -> bool { (note: Note) => Dispatchable(note, now) }

  function DispatchDue(o: KeyOrder, s: Ledgers, agent: AgentId, now: int): (notes: seq<Note>)
    requires o.Valid()
  {
    Filter(CanDispatch(now), PendingDue(o, s, agent, now))
  }

  function Poll(o: KeyOrder, s: Ledgers, agent: AgentId, now: int): (r: Result<seq<Event>, Failure>)
    requires o.Valid()
  {
    var live := LiveAgent(s, agent, now);
    if live.Err? then Err(live.error) else Ok(AgentNotes(o, s, live.value, now))
  }

  function Dispatch(o: KeyOrder, s: Ledgers, agent: AgentId, now: int): (r: Result<seq<Event>, Failure>)
    requires o.Valid()
  {
    var found := UnretiredAgent(s, agent);
    if found.Err? then Err(found.error) else Ok(AgentNotes(o, s, found.value, now))
  }

  function Acknowledge(s: Ledgers, agent: AgentId, id: NoteId, at: int): (r: Result<seq<Event>, Failure>) {
    var live := LiveAgent(s, agent, at);
    var notes := LatestNotes(s.notes);
    if live.Err? then Err(live.error)
    else if id !in notes then Err(UnknownNote)
    else if id.agent != agent then Err(WrongAgent)
    else if notes[id].state != Pending then Ok([])
    else Ok([Acked(id, at)])
  }

  /** The first recorded attempt of an id, from the `k`-th attempt on. */
  function FindAttempt(attempts: seq<Attempt>, id: AttemptId, k: nat): (r: Option<Attempt>)
    requires k <= |attempts|
    ensures r.Some? ==> r.value in attempts && r.value.id == id
    ensures r.None? ==> forall i | k <= i < |attempts| :: attempts[i].id != id
    decreases |attempts| - k
  {
    if k == |attempts| then None
    else if attempts[k].id == id then Some(attempts[k])
    else FindAttempt(attempts, id, k + 1)
  }

  /** Why a notification cannot be turned into a steering payload, if it cannot. */
  function SteeringFailure(s: Ledgers, note: Note): (r: Option<Failure>) {
    var deliveries := LatestDeliveries(s.deliveries);
    if note.state != Pending then Some(NotPending)
    else if note.id.delivery.message !in s.messages then Some(UnknownMessage)
    else if note.id.delivery !in deliveries then Some(UnknownDelivery)
    else if !deliveries[note.id.delivery].state.IsOpen() then Some(NotOpen)
    else if !deliveries[note.id.delivery].FreeFor(note.id.agent) then Some(ClaimedByOther)
    else None
  }

  function RecordAttempt(s: Ledgers, id: NoteId, status: AttemptStatus, at: int, error: Option<string>)
    : (r: Result<seq<Event>, Failure>) {
    var notes := LatestNotes(s.notes);
    if FindAttempt(s.attempts, AttemptId(id, at, status), 0).Some? then Ok([])
    else if id !in notes then Err(UnknownNote)
    else
      match SteeringFailure(s, notes[id])
      case Some(failure) => Err(failure)
      case None => Ok([Attempted(id, status, at, error)])
  }

  // ----- runs

  datatype Call =
    | CallIdentify(agent: AgentId, requested: seq<Address>, allowed: set<Address>, expires: int, at: int)
    | CallHeartbeat(agent: AgentId, expires: int, at: int)
    | CallRetire(agent: AgentId, expires: int, at: int)
    | CallAccept(message: Message)
    | CallSend(message: Message, limit: Option<nat>)
    | CallClaim(delivery: DeliveryId, agent: AgentId, at: int)
    | CallMark(delivery: DeliveryId, agent: AgentId, state: DeliveryState, at: int)
    | CallSnooze(delivery: DeliveryId, agent: AgentId, until: int, at: int)
    | CallPoll(agent: AgentId, at: int)
    | CallDispatch(agent: AgentId, at: int)
    | CallAcknowledge(agent: AgentId, note: NoteId, at: int)
    | CallRecord(note: NoteId, status: AttemptStatus, at: int, error: Option<string>)

  function Made(r: Result<seq<Event>, Failure>): (events: seq<Event>) { if r.Ok? then r.value else [] }

  /** The appends of every call but a send. */
  function SimpleEvents(o: KeyOrder, s: Ledgers, call: Call): (events: seq<Event>)
    requires o.Valid()
  {
    match call
    case CallIdentify(agent, requested, allowed, expires, at) =>
      Made(Identify(s, agent, requested, allowed, expires, at))
    case CallHeartbeat(agent, expires, at) => Made(Heartbeat(s, agent, expires, at))
    case CallRetire(agent, expires, at) => Made(Retire(s, agent, expires, at))
    case CallAccept(message) => AcceptEvents(s, message)
    case CallSend(message, limit) => []
    case CallClaim(id, agent, at) => Made(ClaimDelivery(s, id, agent, at))
    case CallMark(id, agent, state, at) => Made(MarkDelivery(s, id, agent, state, at))
    case CallSnooze(id, agent, until, at) => Made(SnoozeDelivery(s, id, agent, until, at))
    case CallPoll(agent, at) => Made(Poll(o, s, agent, at))
    case CallDispatch(agent, at) => Made(Dispatch(o, s, agent, at))
    case CallAcknowledge(agent, note, at) => Made(Acknowledge(s, agent, note, at))
    case CallRecord(note, status, at, error) => Made(RecordAttempt(s, note, status, at, error))
  }

  /** The ledgers after a call, whether it succeeds or fails. */
  function After(o: KeyOrder, s: Ledgers, call: Call): (r: Ledgers)
    requires o.Valid()
  {
    if call.CallSend? then AfterSend(o, s, call.message, call.limit) else ApplyAll(o, s, SimpleEvents(o, s, call))
  }

  function Run(o: KeyOrder, calls: seq<Call>, n: nat): (r: Ledgers)
    requires o.Valid() && n <= |calls|
  {
    if n == 0 then EMPTY else After(o, Run(o, calls, n - 1), calls[n - 1])
  }
}
