/** What every append keeps: the life cycle of a delivery, the claim ledger that replays it, and the
    notifications that follow it. */
module MailInvariants {
  import opened Orders
  import opened MailLedgers

  // ----- ids

  lemma {:induction false} DeliveryKeyed(s: seq<Delivery>)
    ensures forall id | id in LatestDeliveries(s) :: LatestDeliveries(s)[id].id == id
  {
    if s != [] {
      DeliveryKeyed(s[..|s| - 1]);
    }
  }

  lemma {:induction false} AgentKeyed(s: seq<Agent>)
    ensures forall id | id in LatestAgents(s) :: LatestAgents(s)[id].id == id
  {
    if s != [] {
      AgentKeyed(s[..|s| - 1]);
    }
  }

  // ----- deliveries

  /** What the state of a delivery says about its claimant and its due time. */
  predicate WellFormed(d: Delivery) {
    && (d.state == Unread ==> d.claimedBy == None)
    && (d.state in {Claimed, Snoozed, Done, Archived, Rejected} ==> d.claimedBy.Some?)
    && (d.snoozedUntil.Some? <==> d.state == Snoozed)
    && d.state != DeadLetter
  }

  /** How the record of a delivery may follow its previous one. */
  predicate Follows(a: Delivery, b: Delivery) {
    && a.id == b.id && a.thread == b.thread && a.createdAt == b.createdAt
    && !a.state.IsTerminal() && b.state != Unread
    && (a.claimedBy.Some? ==> b.claimedBy == a.claimedBy)
  }

  /** Every record starts a delivery, unread, or follows the latest one of its id. */
  ghost predicate DeliveryHistory(s: seq<Delivery>) {
    s == []
    || var n := |s| - 1;
       && DeliveryHistory(s[..n]) && WellFormed(s[n])
       && if s[n].id in LatestDeliveries(s[..n]) then Follows(LatestDeliveries(s[..n])[s[n].id], s[n])
          else s[n].state == Unread
  }

  lemma {:induction false} HistorySnoc(s: seq<Delivery>, d: Delivery)
    requires DeliveryHistory(s) && WellFormed(d)
    requires if d.id in LatestDeliveries(s) then Follows(LatestDeliveries(s)[d.id], d) else d.state == Unread
    ensures DeliveryHistory(s + [d])
  {
    assert (s + [d])[..|s|] == s;
  }

  lemma {:induction false} DeliveryBeforeLatest(s: seq<Delivery>, i: nat)
    requires DeliveryHistory(s) && i < |s|
    ensures s[i].id in LatestDeliveries(s)
    ensures s[i] == LatestDeliveries(s)[s[i].id] || Follows(s[i], LatestDeliveries(s)[s[i].id])
  {
    var n := |s| - 1;
    if i < n {
      DeliveryBeforeLatest(s[..n], i);
    }
  }

  /** The life cycle of a delivery over its whole history: identity never changes, a claimant stays,
      nothing follows a terminal record, and only the first record is unread. */
  lemma {:induction false} Lifecycle(s: seq<Delivery>, i: nat, j: nat)
    requires DeliveryHistory(s) && i < j < |s| && s[i].id == s[j].id
    ensures Follows(s[i], s[j])
    decreases |s|
  {
    var n := |s| - 1;
    if j < n {
      Lifecycle(s[..n], i, j);
    } else {
      DeliveryBeforeLatest(s[..n], i);
    }
  }

  lemma {:induction false} FirstIsUnread(s: seq<Delivery>, j: nat)
    requires DeliveryHistory(s) && j < |s|
    ensures WellFormed(s[j])
    ensures s[j].state == Unread <==> forall i | 0 <= i < j :: s[i].id != s[j].id
    decreases |s|
  {
    var n := |s| - 1;
    if j < n {
      FirstIsUnread(s[..n], j);
    } else {
      LatestDeliveryAt(s[..n], s[n].id);
    }
  }

  // ----- the claim ledger

  /** The state the claim ledger leaves a delivery in. */
  function ReplayState(claims: seq<Claim>, id: DeliveryId): (state: DeliveryState) {
    if claims == [] then Unread
    else
      var n := |claims| - 1;
      if claims[n].delivery == id then claims[n].state else ReplayState(claims[..n], id)
  }

  /** The agent of the first claim event that is not a mere reading. */
  function ReplayClaimant(claims: seq<Claim>, id: DeliveryId): (agent: Option<AgentId>) {
    if claims == [] then None
    else
      var n := |claims| - 1;
      var before := ReplayClaimant(claims[..n], id);
      if before.Some? then before
      else if claims[n].delivery == id && claims[n].state != Read then Some(claims[n].agent)
      else None
  }

  ghost predicate Replays(latest: map<DeliveryId, Delivery>, claims: seq<Claim>) {
    && (forall id | id in latest ::
         latest[id].state == ReplayState(claims, id) && latest[id].claimedBy == ReplayClaimant(claims, id))
    && (forall i | 0 <= i < |claims| :: claims[i].delivery in latest)
  }

  ghost predicate ClaimsReplay(s: Ledgers) {
    && Replays(LatestDeliveries(s.deliveries), s.claims)
    && |s.deliveries| == |LatestDeliveries(s.deliveries).Keys| + |s.claims|
  }

  lemma {:induction false} ReplaySnoc(claims: seq<Claim>, c: Claim, id: DeliveryId)
    ensures ReplayState(claims + [c], id) == if c.delivery == id then c.state else ReplayState(claims, id)
    ensures ReplayClaimant(claims + [c], id) ==
            if ReplayClaimant(claims, id).Some? then ReplayClaimant(claims, id)
            else if c.delivery == id && c.state != Read then Some(c.agent) else None
  {
    assert (claims + [c])[..|claims|] == claims;
  }

  lemma {:induction false} NeverClaimed(claims: seq<Claim>, id: DeliveryId)
    requires forall i | 0 <= i < |claims| :: claims[i].delivery != id
    ensures ReplayState(claims, id) == Unread && ReplayClaimant(claims, id) == None
  {
    if claims != [] {
      NeverClaimed(claims[..|claims| - 1], id);
    }
  }

  lemma {:induction false} DeliveredReplays(latest: map<DeliveryId, Delivery>, claims: seq<Claim>, d: Delivery)
    requires Replays(latest, claims) && d.id !in latest && d.state == Unread && d.claimedBy == None
    ensures Replays(latest[d.id := d], claims)
  {
    NeverClaimed(claims, d.id);
  }

  lemma {:induction false} MovedReplays(latest: map<DeliveryId, Delivery>, claims: seq<Claim>, id: DeliveryId,
                                        actor: AgentId, state: DeliveryState, until: Option<int>, at: int)
    requires Replays(latest, claims) && id in latest && latest[id].FreeFor(actor)
    ensures var d := MovedTo(latest[id], actor, state, until, at);
      Replays(latest[id := d], claims + [Claim(id, d.thread, actor, state, at)])
  {
    var d := MovedTo(latest[id], actor, state, until, at);
    var c := Claim(id, d.thread, actor, state, at);
    forall x | x in latest[id := d]
      ensures latest[id := d][x].state == ReplayState(claims + [c], x)
              && latest[id := d][x].claimedBy == ReplayClaimant(claims + [c], x)
    {
      ReplaySnoc(claims, c, x);
    }
  }

  // ----- notifications

  /** No agent is left waiting for a delivery another agent took, and only such a delivery
      suppresses. */
  predicate NoteFits(note: Note, d: Delivery) {
    && (note.state == Pending ==> d.FreeFor(note.id.agent))
    && (note.state == Suppressed ==> !d.FreeFor(note.id.agent))
  }

  ghost predicate NotesFit(notes: map<NoteId, Note>, deliveries: map<DeliveryId, Delivery>) {
    forall id | id in notes ::
      notes[id].id == id && id.delivery in deliveries && NoteFits(notes[id], deliveries[id.delivery])
  }

  predicate Continues(a: Note, b: Note) {
    a.state == Pending && a.id == b.id && a.thread == b.thread && a.createdAt == b.createdAt
      && a.attemptCount <= b.attemptCount
  }

  /** Every record starts a notification, pending, or continues a pending one. */
  ghost predicate NoteHistory(s: seq<Note>) {
    s == []
    || var n := |s| - 1;
       && NoteHistory(s[..n])
       && if s[n].id in LatestNotes(s[..n]) then Continues(LatestNotes(s[..n])[s[n].id], s[n])
          else s[n].state == Pending && s[n].attemptCount == 0
  }

  lemma {:induction false} NoteHistorySnoc(s: seq<Note>, n: Note)
    requires NoteHistory(s)
    requires if n.id in LatestNotes(s) then Continues(LatestNotes(s)[n.id], n)
             else n.state == Pending && n.attemptCount == 0
    ensures NoteHistory(s + [n])
  {
    assert (s + [n])[..|s|] == s;
  }

  lemma {:induction false} SuppressionsHistory(s: seq<Note>, ids: seq<NoteId>, n: nat, delivery: DeliveryId,
                                               winner: AgentId, at: int)
    requires NoteHistory(s) && n <= |ids| && Distinct(ids) && forall i | 0 <= i < |ids| :: ids[i] in LatestNotes(s)
    ensures NoteHistory(s + Suppressions(LatestNotes(s), ids, n, delivery, winner, at))
  {
    hide NoteHistory, LatestNotes, Competes;
    var latest := LatestNotes(s);
    if n == 0 {
      assert s + [] == s;
    } else {
      var id := ids[n - 1];
      var added := Suppressions(latest, ids, n - 1, delivery, winner, at);
      SuppressionsHistory(s, ids, n - 1, delivery, winner, at);
      assert added + [] == added;
      if Competes(latest[id], delivery, winner) {
        SuppressionsRead(s, ids, n - 1, delivery, winner, at);
        LatestNoteKeyed(s);
        NotYetReached(ids, n - 1);
        CompetesPending(latest[id], delivery, winner);
        NoteHistorySnoc(s + added, Suppress(latest[id], at));
        ConcatAssoc(s, added, [Suppress(latest[id], at)]);
      }
    }
  }

  lemma {:induction false} NotYetReached(ids: seq<NoteId>, n: nat)
    requires n < |ids| && Distinct(ids)
    ensures ids[n] !in ids[..n]
  {
  }

  lemma {:induction false} CompetesPending(note: Note, delivery: DeliveryId, winner: AgentId)
    requires Competes(note, delivery, winner)
    ensures note.state == Pending
  {
  }

  lemma {:induction false} SuppressionHistory(o: KeyOrder, s: seq<Note>, delivery: DeliveryId, winner: AgentId, at: int)
    requires o.Valid() && NoteHistory(s)
    ensures NoteHistory(s + CompetingSuppressed(o, s, delivery, winner, at))
  {
    hide NoteHistory, LatestNotes, Suppressions;
    var ids := Ascending(o.notes, LatestNotes(s).Keys);
    SuppressionsHistory(s, ids, |ids|, delivery, winner, at);
  }

  lemma {:induction false} NoteBeforeLatest(s: seq<Note>, i: nat)
    requires NoteHistory(s) && i < |s|
    ensures s[i].id in LatestNotes(s)
    ensures s[i] == LatestNotes(s)[s[i].id] || Continues(s[i], LatestNotes(s)[s[i].id])
  {
    var n := |s| - 1;
    if i < n {
      NoteBeforeLatest(s[..n], i);
    }
  }

  /** Acknowledging and suppressing are final: nothing follows a record that is not pending. */
  lemma {:induction false} NoteLifecycle(s: seq<Note>, i: nat, j: nat)
    requires NoteHistory(s) && i < j < |s| && s[i].id == s[j].id
    ensures Continues(s[i], s[j])
    decreases |s|
  {
    var n := |s| - 1;
    if j < n {
      NoteLifecycle(s[..n], i, j);
    } else {
      NoteBeforeLatest(s[..n], i);
    }
  }

  // ----- attempts

  function CountAttempts(attempts: seq<Attempt>, note: NoteId): (count: nat) {
    if attempts == [] then 0
    else
      var n := |attempts| - 1;
      CountAttempts(attempts[..n], note) + if attempts[n].id.note == note then 1 else 0
  }

  ghost predicate AttemptsCounted(notes: map<NoteId, Note>, attempts: seq<Attempt>) {
    && (forall id | id in notes :: notes[id].attemptCount == CountAttempts(attempts, id))
    && (forall i | 0 <= i < |attempts| :: attempts[i].id.note in notes)
    && (forall i, j | 0 <= i < j < |attempts| :: attempts[i].id != attempts[j].id)
  }

  lemma {:induction false} NoAttempts(attempts: seq<Attempt>, note: NoteId)
    requires forall i | 0 <= i < |attempts| :: attempts[i].id.note != note
    ensures CountAttempts(attempts, note) == 0
  {
    if attempts != [] {
      NoAttempts(attempts[..|attempts| - 1], note);
    }
  }

  lemma {:induction false} AttemptCounted(notes: map<NoteId, Note>, attempts: seq<Attempt>, a: Attempt, note: Note)
    requires AttemptsCounted(notes, attempts) && a.id.note in notes && forall x | x in attempts :: x.id != a.id
    requires note.attemptCount == notes[a.id.note].attemptCount + 1
    ensures AttemptsCounted(notes[a.id.note := note], attempts + [a])
  {
    assert (attempts + [a])[..|attempts|] == attempts;
    forall i | 0 <= i < |attempts| ensures attempts[i].id != a.id {
      assert attempts[i] in attempts;
    }
  }

  // ----- agents and keys

  ghost predicate AgentHistory(s: seq<Agent>) {
    s == []
    || var n := |s| - 1;
       && AgentHistory(s[..n])
       && (s[n].id in LatestAgents(s[..n]) && LatestAgents(s[..n])[s[n].id].state == Retired ==> s[n].state == Retired)
  }

  lemma {:induction false} AgentHistorySnoc(s: seq<Agent>, a: Agent)
    requires AgentHistory(s)
    requires a.id in LatestAgents(s) && LatestAgents(s)[a.id].state == Retired ==> a.state == Retired
    ensures AgentHistory(s + [a])
  {
    assert (s + [a])[..|s|] == s;
  }

  /** A retired agent stays retired. */
  lemma {:induction false} RetiredForGood(s: seq<Agent>, i: nat, j: nat)
    requires AgentHistory(s) && i < j < |s| && s[i].id == s[j].id && s[i].state == Retired
    ensures s[j].state == Retired
    decreases |s|
  {
    var n := |s| - 1;
    if j < n {
      RetiredForGood(s[..n], i, j);
    } else {
      LatestStaysRetired(s[..n], i);
    }
  }

  lemma {:induction false} LatestStaysRetired(s: seq<Agent>, i: nat)
    requires AgentHistory(s) && i < |s| && s[i].state == Retired
    ensures s[i].id in LatestAgents(s) && LatestAgents(s)[s[i].id].state == Retired
  {
    var n := |s| - 1;
    if i < n {
      LatestStaysRetired(s[..n], i);
    }
  }

  ghost predicate KeysUnique(keys: seq<KeyRecord>) {
    forall i, j | 0 <= i < j < |keys| :: keys[i].key != keys[j].key
  }

  /** Every recorded key is that of its payload, and its message is there to be read. */
  ghost predicate MessagesHeld(keys: seq<KeyRecord>, messages: map<string, Message>) {
    && (forall i | 0 <= i < |keys| :: keys[i].key == keys[i].payload.key && keys[i].messageId in messages)
    && (forall id | id in messages :: messages[id].id == id)
  }

  // ----- the invariant

  ghost predicate Inv(s: Ledgers) {
    && DeliveryHistory(s.deliveries)
    && ClaimsReplay(s)
    && NoteHistory(s.notes)
    && NotesFit(LatestNotes(s.notes), LatestDeliveries(s.deliveries))
    && AttemptsCounted(LatestNotes(s.notes), s.attempts)
    && AgentHistory(s.agents)
    && KeysUnique(s.keys)
    && MessagesHeld(s.keys, s.messages)
  }

  lemma {:induction false} EmptyInv()
    ensures Inv(EMPTY)
  {
  }

  lemma {:induction false} DeliveredKeeps(s: Ledgers, d: Delivery)
    requires Inv(s) && Enabled(s, Delivered(d))
    ensures Inv(s.(deliveries := s.deliveries + [d]))
  {
    hide LatestDeliveries, LatestNotes, DeliveryHistory, NoteHistory, AttemptsCounted, Replays, AgentHistory,
         KeysUnique;
    DeliveriesSnoc(s.deliveries, d);
    HistorySnoc(s.deliveries, d);
    var latest := LatestDeliveries(s.deliveries);
    DeliveredReplays(latest, s.claims, d);
    assert latest[d.id := d].Keys == latest.Keys + {d.id};
  }

  lemma {:induction false} NotedKeeps(s: Ledgers, n: Note)
    requires Inv(s) && Enabled(s, Noted(n))
    ensures Inv(s.(notes := s.notes + [n]))
  {
    hide LatestDeliveries, LatestNotes, DeliveryHistory, NoteHistory, Replays, AgentHistory, KeysUnique, CountAttempts;
    NotesSnoc(s.notes, n);
    NoteHistorySnoc(s.notes, n);
    NoAttempts(s.attempts, n.id);
  }

  lemma {:induction false} AckedKeeps(s: Ledgers, id: NoteId, at: int)
    requires Inv(s) && Enabled(s, Acked(id, at))
    ensures Inv(s.(notes := s.notes + [AckedNote(LatestNotes(s.notes)[id], at)]))
  {
    hide LatestDeliveries, LatestNotes, DeliveryHistory, NoteHistory, Replays, AgentHistory, KeysUnique, CountAttempts;
    var note := AckedNote(LatestNotes(s.notes)[id], at);
    NotesSnoc(s.notes, note);
    NoteHistorySnoc(s.notes, note);
  }

  lemma {:induction false} AttemptedKeeps(s: Ledgers, id: NoteId, status: AttemptStatus, at: int, error: Option<string>)
    requires Inv(s) && Enabled(s, Attempted(id, status, at, error))
    ensures Inv(s.(attempts := s.attempts + [Attempt(AttemptId(id, at, status), error)],
                   notes := s.notes + [AttemptedNote(LatestNotes(s.notes)[id], status, at, error)]))
  {
    hide LatestDeliveries, LatestNotes, DeliveryHistory, NoteHistory, Replays, AgentHistory, KeysUnique,
         AttemptsCounted;
    var note := AttemptedNote(LatestNotes(s.notes)[id], status, at, error);
    NotesSnoc(s.notes, note);
    NoteHistorySnoc(s.notes, note);
    AttemptCounted(LatestNotes(s.notes), s.attempts, Attempt(AttemptId(id, at, status), error), note);
  }

  /** Suppression restores the fit that taking a delivery breaks. */
  lemma {:induction false} TakenFits(notes: map<NoteId, Note>, deliveries: map<DeliveryId, Delivery>, id: DeliveryId,
                                     winner: AgentId, d: Delivery, at: int)
    requires NotesFit(notes, deliveries) && id in deliveries && deliveries[id].FreeFor(winner)
            && d.claimedBy == Some(winner)
    ensures NotesFit(AfterSuppression(notes, id, winner, at), deliveries[id := d])
  {
  }

  lemma {:induction false} ReadFits(notes: map<NoteId, Note>, deliveries: map<DeliveryId, Delivery>, id: DeliveryId,
                                    d: Delivery)
    requires NotesFit(notes, deliveries) && id in deliveries && d.claimedBy == deliveries[id].claimedBy
    ensures NotesFit(notes, deliveries[id := d])
  {
  }

  lemma {:induction false} SuppressionCounts(notes: map<NoteId, Note>, attempts: seq<Attempt>, id: DeliveryId,
                                             winner: AgentId, at: int)
    requires AttemptsCounted(notes, attempts)
    ensures AttemptsCounted(AfterSuppression(notes, id, winner, at), attempts)
  {
    hide CountAttempts;
  }

  lemma {:induction false} MovedDeliveries(s: Ledgers, id: DeliveryId, actor: AgentId, state: DeliveryState,
                                           until: Option<int>, at: int)
    requires Inv(s) && Enabled(s, Moved(id, actor, state, until, at))
    ensures var d := MovedTo(LatestDeliveries(s.deliveries)[id], actor, state, until, at);
      && d.id == id && DeliveryHistory(s.deliveries + [d])
      && LatestDeliveries(s.deliveries + [d]) == LatestDeliveries(s.deliveries)[id := d]
      && ClaimsReplay(s.(deliveries := s.deliveries + [d],
                         claims := s.claims + [Claim(id, d.thread, actor, state, at)]))
  {
    hide LatestDeliveries, LatestNotes, DeliveryHistory, NoteHistory, Replays, AgentHistory, KeysUnique,
         AttemptsCounted, NotesFit;
    var latest := LatestDeliveries(s.deliveries);
    var d := MovedTo(latest[id], actor, state, until, at);
    DeliveryKeyed(s.deliveries);
    DeliveriesSnoc(s.deliveries, d);
    HistorySnoc(s.deliveries, d);
    MovedReplays(latest, s.claims, id, actor, state, until, at);
    assert latest[id := d].Keys == latest.Keys;
  }

  lemma {:induction false} MovedNotes(o: KeyOrder, s: Ledgers, id: DeliveryId, actor: AgentId, state: DeliveryState,
                                      until: Option<int>, at: int)
    requires o.Valid() && Inv(s) && Enabled(s, Moved(id, actor, state, until, at))
    ensures var d := MovedTo(LatestDeliveries(s.deliveries)[id], actor, state, until, at);
      var after := Move(o, s, id, actor, state, until, at);
      && NoteHistory(after.notes)
      && NotesFit(LatestNotes(after.notes), LatestDeliveries(s.deliveries)[id := d])
      && AttemptsCounted(LatestNotes(after.notes), s.attempts)
  {
    hide LatestDeliveries, LatestNotes, DeliveryHistory, NoteHistory, ClaimsReplay, AgentHistory, KeysUnique,
         AttemptsCounted,
         NotesFit, CompetingSuppressed, TotalOrder;
    var latest := LatestDeliveries(s.deliveries);
    var d := MovedTo(latest[id], actor, state, until, at);
    assert s.notes + [] == s.notes;
    if d.claimedBy == Some(actor) {
      SuppressionHistory(o, s.notes, id, actor, at);
      SuppressionRead(o, s.notes, id, actor, at);
      TakenFits(LatestNotes(s.notes), latest, id, actor, d, at);
      SuppressionCounts(LatestNotes(s.notes), s.attempts, id, actor, at);
    } else {
      ReadFits(LatestNotes(s.notes), latest, id, d);
    }
  }

  lemma {:induction false} MovedKeeps(o: KeyOrder, s: Ledgers, id: DeliveryId, actor: AgentId, state: DeliveryState,
                                      until: Option<int>, at: int)
    requires o.Valid() && Inv(s) && Enabled(s, Moved(id, actor, state, until, at))
    ensures Inv(Move(o, s, id, actor, state, until, at))
  {
    hide LatestDeliveries, LatestNotes, DeliveryHistory, NoteHistory, AgentHistory, KeysUnique, AttemptsCounted,
         NotesFit, CompetingSuppressed, TotalOrder, Replays;
    MovedDeliveries(s, id, actor, state, until, at);
    MovedNotes(o, s, id, actor, state, until, at);
  }

  lemma {:induction false} EventKeepsInv(o: KeyOrder, s: Ledgers, e: Event)
    requires o.Valid() && Inv(s) && Enabled(s, e)
    ensures Inv(Apply(o, s, e))
  {
    hide LatestDeliveries, LatestNotes, LatestAgents, DeliveryHistory, NoteHistory, AgentHistory, AttemptsCounted,
         NotesFit, TotalOrder, Replays, Move;
    match e
    case AgentSeen(agent) => AgentHistorySnoc(s.agents, agent);
    case Leased(_) =>
    case Accepted(message) =>
    case Delivered(d) => DeliveredKeeps(s, d);
    case Deferred(_) =>
    case Noted(n) => NotedKeeps(s, n);
    case Moved(id, actor, state, until, at) => MovedKeeps(o, s, id, actor, state, until, at);
    case Acked(id, at) => AckedKeeps(s, id, at);
    case Attempted(id, status, at, error) => AttemptedKeeps(s, id, status, at, error);
  }

  lemma {:induction false} EventsKeepInv(o: KeyOrder, s: Ledgers, events: seq<Event>)
    requires o.Valid() && Inv(s) && AllEnabled(o, s, events)
    ensures Inv(ApplyAll(o, s, events))
  {
    hide Inv, Enabled, Apply;
    if events != [] {
      var n := |events| - 1;
      EventsKeepInv(o, s, events[..n]);
      EventKeepsInv(o, ApplyAll(o, s, events[..n]), events[n]);
    }
  }
}
