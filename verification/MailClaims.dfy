/** Claiming: what a successful claim does, and that a delivery has one claimant for good. */
module MailClaims {
  import opened Orders
  import opened MailLedgers
  import opened MailCalls
  import opened MailInvariants
  import opened MailRuns
  import opened MailWakeups
  import opened MailSends

  /** A successful claim gives the delivery to the agent, leaves every other delivery alone, suppresses
      exactly the pending notifications of other agents for it, and leaves every other notification
      alone; a repeated claim changes nothing. */
  lemma {:induction false} ClaimTakes(o: KeyOrder, s: Ledgers, id: DeliveryId, agent: AgentId, at: int)
    requires o.Valid() && Inv(s) && ClaimDelivery(s, id, agent, at).Ok?
    ensures var r := After(o, s, CallClaim(id, agent, at));
      var before, after := LatestDeliveries(s.deliveries), LatestDeliveries(r.deliveries);
      && after.Keys == before.Keys && id in before
      && before[id].FreeFor(agent) && !before[id].state.IsTerminal()
      && after[id].state == Claimed && after[id].claimedBy == Some(agent)
      && (forall x | x in before && x != id :: after[x] == before[x])
      && LatestNotes(r.notes) == AfterSuppression(LatestNotes(s.notes), id, agent, at)
  {
    hide LiveAgent, Visible, LatestDeliveries, LatestNotes, Inv, ApplyAll, AllEnabled, AfterSuppression,
         CompetingSuppressed;
    DeliveryKeyed(s.deliveries);
    NoEvents(o, s);
    var d := LatestDeliveries(s.deliveries)[id];
    if d.state == Claimed && d.claimedBy == Some(agent) {
      NothingToSuppress(s, id, agent, at);
    } else {
      OneEvent(o, s, Moved(id, agent, Claimed, None, at));
      DeliveriesSnoc(s.deliveries, MovedTo(d, agent, Claimed, None, at));
      SuppressionRead(o, s.notes, id, agent, at);
    }
  }

  /** Marking changes the state of one delivery and no notification. Reading leaves the claimant alone,
      and only the claimant finishes a delivery. */
  lemma {:induction false} MarkChangesOnlyState(o: KeyOrder, s: Ledgers, id: DeliveryId, agent: AgentId,
                                                state: DeliveryState, at: int)
    requires o.Valid() && Inv(s) && MarkDelivery(s, id, agent, state, at).Ok?
    ensures var r := After(o, s, CallMark(id, agent, state, at));
      var before, after := LatestDeliveries(s.deliveries), LatestDeliveries(r.deliveries);
      && after.Keys == before.Keys && id in before && after[id].state == state
      && after[id].claimedBy == before[id].claimedBy
      && (state.IsTerminal() ==> before[id].claimedBy == Some(agent))
      && (forall x | x in before && x != id :: after[x] == before[x])
      && LatestNotes(r.notes) == LatestNotes(s.notes)
  {
    hide LiveAgent, Visible, LatestDeliveries, LatestNotes, Inv, ApplyAll, AllEnabled, AfterSuppression,
         CompetingSuppressed;
    DeliveryKeyed(s.deliveries);
    NoEvents(o, s);
    var d := LatestDeliveries(s.deliveries)[id];
    if !d.state.IsTerminal() {
      OneEvent(o, s, Moved(id, agent, state, None, at));
      DeliveriesSnoc(s.deliveries, MovedTo(d, agent, state, None, at));
      SuppressionRead(o, s.notes, id, agent, at);
      assert s.notes + [] == s.notes;
      if d.claimedBy == Some(agent) {
        NothingToSuppress(s, id, agent, at);
      }
    }
  }

  /** Snoozing takes a delivery as claiming does, and hides it from its agent exactly until it is due. */
  lemma {:induction false} SnoozeHides(o: KeyOrder, s: Ledgers, id: DeliveryId, agent: AgentId, until: int, at: int,
                                       now: int)
    requires o.Valid() && Inv(s) && SnoozeDelivery(s, id, agent, until, at).Ok?
    ensures var r := After(o, s, CallSnooze(id, agent, until, at));
      && id in LatestDeliveries(r.deliveries)
      && LatestDeliveries(r.deliveries)[id].claimedBy == Some(agent)
      && (LatestDeliveries(r.deliveries)[id].DueAt(now) <==> until <= now)
      && LatestNotes(r.notes) == AfterSuppression(LatestNotes(s.notes), id, agent, at)
      && (now < until ==> !Delivers(PendingDue(o, r, agent, now), id))
  {
    hide LiveAgent, Visible, LatestDeliveries, LatestNotes, Inv, ApplyAll, AllEnabled, AfterSuppression,
         CompetingSuppressed, PendingDue;
    DeliveryKeyed(s.deliveries);
    var d := LatestDeliveries(s.deliveries)[id];
    OneEvent(o, s, Moved(id, agent, Snoozed, Some(until), at));
    DeliveriesSnoc(s.deliveries, MovedTo(d, agent, Snoozed, Some(until), at));
    SuppressionRead(o, s.notes, id, agent, at);
    PendingDueIs(o, After(o, s, CallSnooze(id, agent, until, at)), agent, now);
  }

  lemma {:induction false} NothingToSuppress(s: Ledgers, id: DeliveryId, agent: AgentId, at: int)
    requires Inv(s) && id in LatestDeliveries(s.deliveries)
            && LatestDeliveries(s.deliveries)[id].claimedBy == Some(agent)
    ensures AfterSuppression(LatestNotes(s.notes), id, agent, at) == LatestNotes(s.notes)
  {
    hide LatestDeliveries, LatestNotes, DeliveryHistory, NoteHistory, ClaimsReplay, AttemptsCounted, AgentHistory,
         KeysUnique, MessagesHeld;
  }

  /** Whoever has claimed a delivery in one state of a run has it in every later one. */
  lemma {:induction false} ClaimantStays(o: KeyOrder, calls: seq<Call>, i: nat, n: nat, id: DeliveryId)
    requires o.Valid() && i <= n <= |calls| && id in LatestDeliveries(Run(o, calls, i).deliveries)
    requires LatestDeliveries(Run(o, calls, i).deliveries)[id].claimedBy.Some?
    ensures id in LatestDeliveries(Run(o, calls, n).deliveries)
    ensures LatestDeliveries(Run(o, calls, n).deliveries)[id].claimedBy ==
            LatestDeliveries(Run(o, calls, i).deliveries)[id].claimedBy
  {
    hide Run, LatestDeliveries, DeliveryHistory, NoteHistory, ClaimsReplay, AttemptsCounted, AgentHistory, KeysUnique,
         MessagesHeld, NotesFit;
    var early, late := Run(o, calls, i).deliveries, Run(o, calls, n).deliveries;
    RunGrows(o, calls, i, n);
    RunKeepsInv(o, calls, n);
    LatestDeliveryAt(early, id);
    var k: nat :| IsLatestDelivery(early, k) && early[k] == LatestDeliveries(early)[id];
    assert late[k] == early[k];
    DeliveryBeforeLatest(late, k);
  }

  /** Mutual exclusion: once an agent has taken a delivery, no other agent ever claims, snoozes or
      finishes it, in any later state of the run. */
  lemma {:induction false} ClaimIsExclusive(o: KeyOrder, calls: seq<Call>, i: nat, n: nat, id: DeliveryId,
                                            winner: AgentId, other: AgentId,
                                            state: DeliveryState, until: int, at: int)
    requires o.Valid() && i <= n <= |calls| && id in LatestDeliveries(Run(o, calls, i).deliveries)
    requires LatestDeliveries(Run(o, calls, i).deliveries)[id].claimedBy == Some(winner) && other != winner
    ensures ClaimDelivery(Run(o, calls, n), id, other, at).Err?
    ensures MarkDelivery(Run(o, calls, n), id, other, state, at).Err?
    ensures SnoozeDelivery(Run(o, calls, n), id, other, until, at).Err?
  {
    hide Run, LatestDeliveries, LiveAgent, Visible;
    ClaimantStays(o, calls, i, n, id);
  }

  // ----- leases

  /** Identifying makes an agent live until its lease expires. */
  lemma {:induction false} IdentifiedIsLive(o: KeyOrder, s: Ledgers, id: AgentId, requested: seq<Address>,
                                            allowed: set<Address>,
                                            expires: int, at: int, now: int)
    requires o.Valid() && Identify(s, id, requested, allowed, expires, at).Ok?
    ensures var r := After(o, s, CallIdentify(id, requested, allowed, expires, at));
      && (LiveAgent(r, id, now).Ok? <==> now < expires)
      && (LiveAgent(r, id, now).Ok? ==> forall role :: role in LiveAgent(r, id, now).value.roles <==>
           role in requested && role in allowed)
  {
    hide LatestAgents, LatestLease, ApplyAll, AllEnabled;
    var record, lease := Agent(id, Filter(In(allowed), requested), expires, Active), Lease(id, expires, at);
    TwoEvents(o, s, AgentSeen(record), Leased(lease));
    AgentsSnoc(s.agents, record);
    LeaseSnoc(s.leases, lease);
    FilterMembers(In(allowed), requested);
  }

  lemma {:induction false} LeaseSnoc(s: seq<Lease>, lease: Lease)
    ensures LatestLease(s + [lease], lease.agent) == Some(lease)
  {
    assert (s + [lease])[..|s|] == s;
  }

  /** A heartbeat makes any agent that is not retired live until the new expiry, and fails for others. */
  lemma {:induction false} HeartbeatRenews(o: KeyOrder, s: Ledgers, id: AgentId, expires: int, at: int, now: int)
    requires o.Valid()
    ensures Heartbeat(s, id, expires, at).Ok? <==>
            id in LatestAgents(s.agents) && LatestAgents(s.agents)[id].state != Retired
    ensures Heartbeat(s, id, expires, at).Ok? ==>
              (LiveAgent(After(o, s, CallHeartbeat(id, expires, at)), id, now).Ok? <==> now < expires)
  {
    hide LatestAgents, LatestLease, ApplyAll, AllEnabled;
    AgentKeyed(s.agents);
    var lease := Lease(id, expires, at);
    LeaseSnoc(s.leases, lease);
    if Heartbeat(s, id, expires, at).Ok? {
      var events := Heartbeat(s, id, expires, at).value;
      if LatestAgents(s.agents)[id].state == Stale {
        assert events == [events[0], events[1]];
        TwoEvents(o, s, events[0], events[1]);
        AgentsSnoc(s.agents, events[0].agent);
      } else {
        assert events == [events[0]];
        OneEvent(o, s, events[0]);
      }
    }
  }

  /** An agent that is retired in one state of a run is never live again, so it can no longer poll,
      acknowledge, claim, mark or snooze. */
  lemma {:induction false} RetiredNeverLive(o: KeyOrder, calls: seq<Call>, i: nat, n: nat, id: AgentId, now: int)
    requires o.Valid() && i <= n <= |calls| && id in LatestAgents(Run(o, calls, i).agents)
    requires LatestAgents(Run(o, calls, i).agents)[id].state == Retired
    ensures LiveAgent(Run(o, calls, n), id, now).Err?
    ensures UnretiredAgent(Run(o, calls, n), id).Err?
  {
    hide Run, DeliveryHistory, NoteHistory, ClaimsReplay, AttemptsCounted, AgentHistory, KeysUnique, MessagesHeld,
         NotesFit;
    var early, late := Run(o, calls, i).agents, Run(o, calls, n).agents;
    RunGrows(o, calls, i, n);
    RunKeepsInv(o, calls, n);
    var k := LastRecord(early, id);
    assert late[k] == early[k];
    LatestStaysRetired(late, k);
  }

  lemma {:induction false} LastRecord(s: seq<Agent>, id: AgentId) returns (k: nat)
    requires id in LatestAgents(s)
    ensures k < |s| && s[k] == LatestAgents(s)[id] && s[k].id == id
  {
    var n := |s| - 1;
    if s[n].id == id {
      k := n;
    } else {
      k := LastRecord(s[..n], id);
    }
  }
}
