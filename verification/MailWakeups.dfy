/** What waiting agents are told: a poll returns exactly the pending, due mail, nothing actionable is
    lost, and mail another agent took wakes nobody. */
module MailWakeups {
  import opened Orders
  import opened MailLedgers
  import opened MailCalls
  import opened MailInvariants
  import opened MailRuns

  lemma {:induction false} DueNotesAre(s: Ledgers, latest: map<NoteId, Note>, ids: seq<NoteId>, n: nat, agent: AgentId,
                                       now: int)
    requires n <= |ids| && forall i | 0 <= i < |ids| :: ids[i] in latest
    ensures forall note :: note in DueNotes(s, latest, ids, n, agent, now) <==>
              exists k | 0 <= k < n :: latest[ids[k]] == note && DuePending(s, note, agent, now)
  {
    hide DuePending;
    if n > 0 {
      DueNotesAre(s, latest, ids, n - 1, agent, now);
      var before := DueNotes(s, latest, ids, n - 1, agent, now);
      var last := latest[ids[n - 1]];
      forall note
        ensures note in DueNotes(s, latest, ids, n, agent, now) <==>
                exists k | 0 <= k < n :: latest[ids[k]] == note && DuePending(s, note, agent, now)
      {
        assert note in DueNotes(s, latest, ids, n, agent, now) <==>
          note in before || (note == last && DuePending(s, last, agent, now));
        if note == last && DuePending(s, last, agent, now) {
          assert latest[ids[n - 1]] == note;
        }
      }
    }
  }

  /** A note is among the pending, due ones exactly when it is the latest of its id, pending, and its
      delivery is open, due and free for the agent. */
  lemma {:induction false} PendingDueIs(o: KeyOrder, s: Ledgers, agent: AgentId, now: int)
    requires o.Valid()
    ensures forall note :: note in PendingDue(o, s, agent, now) <==>
              note.id in LatestNotes(s.notes) && LatestNotes(s.notes)[note.id] == note
                && DuePending(s, note, agent, now)
  {
    hide DuePending, LatestNotes, TotalOrder;
    var latest := LatestNotes(s.notes);
    var ids := Ascending(o.notes, latest.Keys);
    var due := DueNotes(s, latest, ids, |ids|, agent, now);
    DueNotesAre(s, latest, ids, |ids|, agent, now);
    SortMembers(NoteLe(o), due);
    LatestNoteKeyed(s.notes);
    forall note
      ensures note in due <==> note.id in latest && latest[note.id] == note && DuePending(s, note, agent, now)
    {
      if note.id in latest && latest[note.id] == note && DuePending(s, note, agent, now) {
        assert note.id in ids;
        var k :| 0 <= k < |ids| && ids[k] == note.id;
        assert latest[ids[k]] == note;
      }
    }
  }

  /** The result of a poll is in order of creation. */
  lemma {:induction false} NoteLePreorder(o: KeyOrder)
    requires o.Valid()
    ensures TotalPreorder(NoteLe(o))
  {
    forall x, y ensures NoteLe(o)(x, y) || NoteLe(o)(y, x) {
      assert o.notes(x.id, y.id) || o.notes(y.id, x.id);
      assert o.times(x.createdAt, y.createdAt) || o.times(y.createdAt, x.createdAt);
    }
    forall x, y, z | NoteLe(o)(x, y) && NoteLe(o)(y, z) ensures NoteLe(o)(x, z) {
      assert o.notes(x.id, y.id) && o.notes(y.id, z.id) ==> o.notes(x.id, z.id);
      assert o.times(x.createdAt, y.createdAt) && o.times(y.createdAt, z.createdAt) ==>
          o.times(x.createdAt, z.createdAt);
      assert o.times(x.createdAt, y.createdAt) && o.times(y.createdAt, x.createdAt) ==> x.createdAt == y.createdAt;
    }
  }

  lemma {:induction false} PollSorted(o: KeyOrder, s: Ledgers, agent: AgentId, now: int)
    requires o.Valid()
    ensures SortedBy(NoteLe(o), PendingDue(o, s, agent, now))
  {
    hide LatestNotes, DueNotes, TotalOrder, TotalPreorder, NoteLe, SortedBy;
    NoteLePreorder(o);
    var latest := LatestNotes(s.notes);
    var ids := Ascending(o.notes, latest.Keys);
    SortSorted(NoteLe(o), DueNotes(s, latest, ids, |ids|, agent, now));
  }

  ghost predicate Delivers(notes: seq<Note>, id: DeliveryId) { exists note | note in notes :: note.id.delivery == id }

  ghost predicate HasAcknowledged(s: Ledgers, id: NoteId) {
    id in LatestNotes(s.notes) && LatestNotes(s.notes)[id].state == Acknowledged
  }

  /** Adding an agent's missing notifications: the agent then has one, pending or acknowledged, for a
      delivery it may act on, and has acknowledged nothing new. */
  lemma {:induction false} AgentToldOf(o: KeyOrder, s: Ledgers, agent: Agent, now: int, id: DeliveryId)
    requires o.Valid() && Inv(s) && agent.state != Retired && id in LatestDeliveries(s.deliveries)
    requires LatestDeliveries(s.deliveries)[id].state.IsOpen() && Actionable(agent, LatestDeliveries(s.deliveries)[id])
    ensures var r, nid := ApplyAll(o, s, AgentNotes(o, s, agent, now)), NoteId(id, agent.id);
      && r.deliveries == s.deliveries
      && nid in LatestNotes(r.notes) && LatestNotes(r.notes)[nid].state != Suppressed
           && LatestNotes(r.notes)[nid].id == nid
      && (HasAcknowledged(r, nid) <==> HasAcknowledged(s, nid))
  {
    hide Inv, LatestNotes, AllEnabled, ApplyAll, AgentNotes, LatestDeliveries;
    var nid := NoteId(id, agent.id);
    var r := ApplyAll(o, s, AgentNotes(o, s, agent, now));
    AgentNotesEnabled(o, s, agent, now);
    EventsKeepInv(o, s, AgentNotes(o, s, agent, now));
    LatestNoteKeyed(r.notes);
    NoteOfFree(r, nid, LatestDeliveries(s.deliveries)[id]);
    if nid !in LatestNotes(s.notes) {
      AddedIsPending(o, s, agent, now, nid);
    }
  }

  lemma {:induction false} LiveIsKnown(s: Ledgers, agent: AgentId, now: int)
    requires LiveAgent(s, agent, now).Ok?
    ensures var record := LiveAgent(s, agent, now).value; record.id == agent && record.state == Active
  {
    hide LatestAgents;
    AgentKeyed(s.agents);
  }

  /** Poll coverage: an open, due delivery a live agent may act on is in the result of its poll exactly
      when the agent has not acknowledged it. */
  lemma {:induction false} PollCovers(o: KeyOrder, s: Ledgers, agent: AgentId, now: int, id: DeliveryId)
    requires o.Valid() && Inv(s) && LiveAgent(s, agent, now).Ok?
    requires id in LatestDeliveries(s.deliveries)
    requires var d := LatestDeliveries(s.deliveries)[id];
      d.state.IsOpen() && d.DueAt(now) && Actionable(LiveAgent(s, agent, now).value, d)
    ensures Delivers(PendingDue(o, After(o, s, CallPoll(agent, now)), agent, now), id) <==>
            !HasAcknowledged(s, NoteId(id, agent))
  {
    hide Inv, LatestNotes, ApplyAll, AgentNotes, PendingDue, LatestDeliveries, LiveAgent;
    var record := LiveAgent(s, agent, now).value;
    var r := ApplyAll(o, s, AgentNotes(o, s, record, now));
    LiveIsKnown(s, agent, now);
    AgentToldOf(o, s, record, now, id);
    PendingDueIs(o, r, agent, now);
    var note := LatestNotes(r.notes)[NoteId(id, agent)];
    assert DuePending(r, note, agent, now) <==> note.state == Pending;
    assert note.state == Pending ==> note in PendingDue(o, r, agent, now);
  }

  /** A notification for a delivery its agent may take is never suppressed. */
  lemma {:induction false} NoteOfFree(s: Ledgers, id: NoteId, d: Delivery)
    requires Inv(s) && id in LatestNotes(s.notes)
    requires id.delivery in LatestDeliveries(s.deliveries) && LatestDeliveries(s.deliveries)[id.delivery] == d
            && d.FreeFor(id.agent)
    ensures LatestNotes(s.notes)[id].state != Suppressed
  {
    hide DeliveryHistory, NoteHistory, ClaimsReplay, AttemptsCounted, AgentHistory, KeysUnique, LatestDeliveries,
         LatestNotes;
  }

  lemma {:induction false} AddedIsPending(o: KeyOrder, s: Ledgers, agent: Agent, at: int, id: NoteId)
    requires o.Valid() && id !in LatestNotes(s.notes)
            && id in LatestNotes(ApplyAll(o, s, AgentNotes(o, s, agent, at)).notes)
    ensures LatestNotes(ApplyAll(o, s, AgentNotes(o, s, agent, at)).notes)[id].state == Pending
  {
    hide LatestDeliveries, LatestNotes, ApplyAll, NotesForDeliveries, TotalOrder;
    var ids := Ascending(o.deliveries, LatestDeliveries(s.deliveries).Keys);
    EventsAreNotes(s, agent, at, ids, |ids|);
    NotesAdded(o, s, AgentNotes(o, s, agent, at), id);
  }

  ghost predicate PendingNotes(events: seq<Event>) {
    forall i | 0 <= i < |events| :: events[i].Noted? && events[i].note.state == Pending
  }

  lemma {:induction false} EventsAreNotes(s: Ledgers, agent: Agent, at: int, ids: seq<DeliveryId>, n: nat)
    requires n <= |ids| && forall i | 0 <= i < |ids| :: ids[i] in LatestDeliveries(s.deliveries)
    ensures PendingNotes(NotesForDeliveries(LatestDeliveries(s.deliveries), LatestNotes(s.notes), agent, at, ids, n))
  {
    hide LatestDeliveries, LatestNotes, Wanted;
    if n > 0 {
      EventsAreNotes(s, agent, at, ids, n - 1);
    }
  }

  lemma {:induction false} NotesAdded(o: KeyOrder, s: Ledgers, events: seq<Event>, id: NoteId)
    requires o.Valid() && PendingNotes(events)
    requires id !in LatestNotes(s.notes) && id in LatestNotes(ApplyAll(o, s, events).notes)
    ensures LatestNotes(ApplyAll(o, s, events).notes)[id].state == Pending
  {
    hide LatestNotes;
    if events != [] {
      var n := |events| - 1;
      var before := ApplyAll(o, s, events[..n]);
      NotesSnoc(before.notes, events[n].note);
      if id in LatestNotes(before.notes) {
        NotesAdded(o, s, events[..n], id);
      }
    }
  }

  /** No stolen wakeups: in every state of every run, once an agent has taken a delivery, no other
      agent has a pending notification for it, and no poll or dispatch returns one. */
  lemma {:induction false} NoStolenWakeups(o: KeyOrder, calls: seq<Call>, n: nat, id: NoteId, winner: AgentId)
    requires o.Valid() && n <= |calls|
    requires var s := Run(o, calls, n);
      && id in LatestNotes(s.notes) && id.delivery in LatestDeliveries(s.deliveries)
      && LatestDeliveries(s.deliveries)[id.delivery].claimedBy == Some(winner) && id.agent != winner
    ensures LatestNotes(Run(o, calls, n).notes)[id].state != Pending
    ensures forall now :: !Delivers(PendingDue(o, Run(o, calls, n), id.agent, now), id.delivery)
  {
    RunKeepsInv(o, calls, n);
    var s := Run(o, calls, n);
    hide DeliveryHistory, NoteHistory, ClaimsReplay, AttemptsCounted, AgentHistory, KeysUnique, LatestDeliveries,
         LatestNotes, Run, PendingDue;
    forall now ensures !Delivers(PendingDue(o, s, id.agent, now), id.delivery) {
      PendingDueIs(o, s, id.agent, now);
    }
  }

  /** In every state of every run, the claim ledger replays every delivery, which has one record for
      its start and one for each claim event. */
  lemma {:induction false} RunReplays(o: KeyOrder, calls: seq<Call>, n: nat, id: DeliveryId)
    requires o.Valid() && n <= |calls| && id in LatestDeliveries(Run(o, calls, n).deliveries)
    ensures var s := Run(o, calls, n);
      var d := LatestDeliveries(s.deliveries)[id];
      && d.state == ReplayState(s.claims, id)
      && d.claimedBy == ReplayClaimant(s.claims, id)
      && |s.deliveries| == |LatestDeliveries(s.deliveries).Keys| + |s.claims|
  {
    RunKeepsInv(o, calls, n);
    hide DeliveryHistory, NoteHistory, AttemptsCounted, AgentHistory, KeysUnique, LatestDeliveries, LatestNotes, Run,
         NotesFit;
  }

  /** In every state of every run, any two records of a delivery follow its life cycle, and exactly the
      first of a delivery's records is unread. */
  lemma {:induction false} RunLifecycle(o: KeyOrder, calls: seq<Call>, n: nat, i: nat, j: nat)
    requires o.Valid() && n <= |calls| && i < j < |Run(o, calls, n).deliveries|
    ensures var s := Run(o, calls, n).deliveries;
      && (s[i].id == s[j].id ==> Follows(s[i], s[j]))
      && WellFormed(s[j])
      && (s[j].state == Unread <==> forall k | 0 <= k < j :: s[k].id != s[j].id)
  {
    RunKeepsInv(o, calls, n);
    hide DeliveryHistory, NoteHistory, AttemptsCounted, AgentHistory, KeysUnique, LatestDeliveries, LatestNotes, Run,
         NotesFit, ClaimsReplay;
    var s := Run(o, calls, n).deliveries;
    FirstIsUnread(s, j);
    if s[i].id == s[j].id {
      Lifecycle(s, i, j);
    }
  }

  /** In every state of every run, acknowledged and suppressed notifications stay as they are, and so do
      retired agents. */
  lemma {:induction false} RunFinality(o: KeyOrder, calls: seq<Call>, n: nat)
    requires o.Valid() && n <= |calls|
    ensures var notes := Run(o, calls, n).notes;
      forall i, j | 0 <= i < j < |notes| && notes[i].id == notes[j].id :: Continues(notes[i], notes[j])
    ensures var agents := Run(o, calls, n).agents;
      forall i, j | 0 <= i < j < |agents| && agents[i].id == agents[j].id && agents[i].state == Retired ::
        agents[j].state == Retired
  {
    RunKeepsInv(o, calls, n);
    hide DeliveryHistory, NoteHistory, AttemptsCounted, AgentHistory, KeysUnique, LatestDeliveries, LatestNotes, Run,
         NotesFit,
         ClaimsReplay, Continues;
    var s := Run(o, calls, n);
    forall i, j | 0 <= i < j < |s.notes| && s.notes[i].id == s.notes[j].id ensures Continues(s.notes[i], s.notes[j]) {
      NoteLifecycle(s.notes, i, j);
    }
    forall i, j | 0 <= i < j < |s.agents| && s.agents[i].id == s.agents[j].id && s.agents[i].state == Retired
      ensures s.agents[j].state == Retired
    {
      RetiredForGood(s.agents, i, j);
    }
  }
}
