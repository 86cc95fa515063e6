/** Which of a plan's packets a run takes, and the plan as a whole. */
module PacketSelection {
  import opened Orders
  import opened Grouping
  import opened PacketRows
  import opened PacketPlanner
  import opened SourcePackets

  const MIN_TARGET: nat := 2_000

  datatype Policy = Policy(windowDays: nat, usableContextTokens: nat, contextFraction: real,
                           targetOverride: Option<nat>, maxPacketsPerRun: nat, recentPriorityDays: int) {
    predicate Backfill() { windowDays > 2 }

    /** The token target: at least 2000 and, unless overridden, between a quarter and nine tenths
        of the usable context when that is large enough. */
    function Target(): (tokens: nat)
      ensures tokens >= MIN_TARGET
      ensures targetOverride.None? ==>
                tokens as real <= 0.9 * usableContextTokens as real || tokens == MIN_TARGET
      ensures targetOverride.None? ==> (tokens + 1) as real > 0.25 * usableContextTokens as real
    {
      match targetOverride
      case Some(tokens) => Max(tokens, MIN_TARGET)
      case None =>
        var fraction := if contextFraction < 0.25 then 0.25 else if contextFraction > 0.9 then 0.9 else contextFraction;
        Scaled(usableContextTokens, fraction);
        Max((usableContextTokens as real * fraction).Floor, MIN_TARGET)
    }
  }

  lemma {:induction false} Scaled(n: nat, fraction: real)
    requires 0.25 <= fraction <= 0.9
    ensures 0.25 * n as real <= n as real * fraction <= 0.9 * n as real
  {
    var x := n as real;
    assert x >= 0.0;
    assert x * (fraction - 0.25) >= 0.0 && x * (0.9 - fraction) >= 0.0;
  }

  /** The date a number of days before the given one; `None` when the date does not parse. */
  type DaysBefore = (string, int) -> Option<string>

  function Uncached(): Packet -> bool { (p: Packet) => !p.cached }

  function Recent(cutoff: string): Packet -> bool { (p: Packet) => StringLe(cutoff, p.id.hour.0) }

  function Older(cutoff: string): Packet -> bool { (p: Packet) => !StringLe(cutoff, p.id.hour.0) }

  /** The greatest date among the first `n` packets. */
  function LatestDate(packets: seq<Packet>, n: nat): (latest: string)
    requires 0 < n <= |packets|
    ensures forall i | 0 <= i < n :: StringLe(packets[i].id.hour.0, latest)
    ensures exists i | 0 <= i < n :: packets[i].id.hour.0 == latest
  {
    StringLeTotalOrder();
    var date := packets[n - 1].id.hour.0;
    if n == 1 then date
    else
      var earlier := LatestDate(packets, n - 1);
      if StringLe(earlier, date) then date else earlier
  }

  function RecentCutoff(packets: seq<Packet>, recentDays: int, daysBefore: DaysBefore): (cutoff: Option<string>) {
    if packets == [] then None else daysBefore(LatestDate(packets, |packets|), recentDays - 1)
  }

  /** The cut-off a run uses: only a backfill with a positive number of priority days has one. */
  function Cutoff(packets: seq<Packet>, backfill: bool, recentDays: int, daysBefore: DaysBefore)
    : (cutoff: Option<string>) {
    if !backfill || recentDays <= 0 then None else RecentCutoff(packets, recentDays, daysBefore)
  }

  function RunOrder(packets: seq<Packet>, cutoff: Option<string>): (order: seq<Packet>) {
    var uncached := Filter(Uncached(), packets);
    match cutoff
    case None => uncached
    case Some(date) => Filter(Recent(date), uncached) + Filter(Older(date), uncached)
  }

  function Take(order: seq<Packet>, maxPackets: nat): (r: seq<Packet>) {
    if |order| <= maxPackets then order else order[..maxPackets]
  }

  method SelectPacketsForRun(packets: seq<Packet>, backfill: bool, maxPackets: nat, recentDays: int,
                             daysBefore: DaysBefore)
    returns (selected: seq<Packet>)
    ensures selected == Take(RunOrder(packets, Cutoff(packets, backfill, recentDays, daysBefore)), maxPackets)
  {
    hide LatestDate, Filter;
    var uncached := Filter(Uncached(), packets);
    if !backfill || recentDays <= 0 {
      return Take(uncached, maxPackets);
    }
    var found := RecentCutoff(packets, recentDays, daysBefore);
    if found == None {
      return Take(uncached, maxPackets);
    }
    var recent, older := SplitByDate(uncached, found.value);
    selected := Take(recent + older, maxPackets);
  }

  method SplitByDate(packets: seq<Packet>, cutoff: string) returns (recent: seq<Packet>, older: seq<Packet>)
    ensures recent == Filter(Recent(cutoff), packets) && older == Filter(Older(cutoff), packets)
  {
    hide StringLe, Filter;
    recent, older := [], [];
    NoneFiltered(cutoff);
    for i := 0 to |packets|
      invariant recent == Filter(Recent(cutoff), packets[..i])
      invariant older == Filter(Older(cutoff), packets[..i])
    {
      var packet := packets[i];
      FilterSnoc(Recent(cutoff), packets[..i], packet);
      FilterSnoc(Older(cutoff), packets[..i], packet);
      assert packets[..i + 1] == packets[..i] + [packet];
      if StringLe(cutoff, packet.id.hour.0) {
        recent := recent + [packet];
      } else {
        older := older + [packet];
      }
    }
    assert packets[..|packets|] == packets;
  }

  lemma {:induction false} NoneFiltered(cutoff: string)
    ensures Filter(Recent(cutoff), []) == [] && Filter(Older(cutoff), []) == []
  {
  }

  /** A run's order is a rearrangement of the uncached packets. */
  lemma {:induction false} RunOrderPermutes(packets: seq<Packet>, cutoff: Option<string>)
    ensures multiset(RunOrder(packets, cutoff)) == multiset(Filter(Uncached(), packets))
  {
    if cutoff.Some? {
      var uncached := Filter(Uncached(), packets);
      FilterUnion(packet => true, Recent(cutoff.value), Older(cutoff.value), uncached);
      FilterAll(packet => true, uncached);
    }
  }

  /** The recent part of the order comes first, and each part keeps the order of the plan. */
  lemma {:induction false} RecentBeforeOlder(packets: seq<Packet>, cutoff: string)
    ensures var order, recent := RunOrder(packets, Some(cutoff)), Filter(Recent(cutoff), Filter(Uncached(), packets));
      && |recent| <= |order| && order[..|recent|] == recent
      && (forall i | 0 <= i < |order| :: Recent(cutoff)(order[i]) <==> i < |recent|)
      && Filter(Recent(cutoff), order) == Filter(Recent(cutoff), Filter(Uncached(), packets))
      && Filter(Older(cutoff), order) == Filter(Older(cutoff), Filter(Uncached(), packets))
  {
    var uncached := Filter(Uncached(), packets);
    var recent, older := Filter(Recent(cutoff), uncached), Filter(Older(cutoff), uncached);
    forall i | 0 <= i < |recent| ensures Recent(cutoff)(recent[i]) {
      FilterMember(Recent(cutoff), uncached, recent[i]);
    }
    forall i | 0 <= i < |older| ensures Older(cutoff)(older[i]) {
      FilterMember(Older(cutoff), uncached, older[i]);
    }
    PartsKeepOrder(Recent(cutoff), Older(cutoff), recent, older);
  }

  lemma {:induction false} PartsKeepOrder(p: Packet -> bool, q: Packet -> bool, a: seq<Packet>, b: seq<Packet>)
    requires forall i | 0 <= i < |a| :: p(a[i]) && !q(a[i])
    requires forall i | 0 <= i < |b| :: q(b[i]) && !p(b[i])
    ensures Filter(p, a + b) == a && Filter(q, a + b) == b
  {
    FilterConcat(p, a, b);
    FilterConcat(q, a, b);
    FilterAll(p, a);
    FilterNone(p, b);
    FilterAll(q, b);
    FilterNone(q, a);
    assert a + [] == a && [] + b == b;
  }

  ghost predicate DistinctPackets(packets: seq<Packet>) {
    forall i, j | 0 <= i < j < |packets| :: packets[i].id != packets[j].id
  }

  lemma {:induction false} FilterDistinct(p: Packet -> bool, packets: seq<Packet>)
    requires DistinctPackets(packets)
    ensures DistinctPackets(Filter(p, packets))
  {
    if packets != [] {
      var rest := Filter(p, packets[1..]);
      FilterDistinct(p, packets[1..]);
      forall i | 0 <= i < |rest| ensures rest[i].id != packets[0].id {
        FilterMember(p, packets[1..], rest[i]);
      }
    }
  }

  lemma {:induction false} OrderDistinct(packets: seq<Packet>, cutoff: Option<string>)
    requires DistinctPackets(packets)
    ensures DistinctPackets(RunOrder(packets, cutoff))
  {
    FilterDistinct(Uncached(), packets);
    if cutoff.Some? {
      var uncached := Filter(Uncached(), packets);
      var recent, older := Filter(Recent(cutoff.value), uncached), Filter(Older(cutoff.value), uncached);
      FilterDistinct(Recent(cutoff.value), uncached);
      FilterDistinct(Older(cutoff.value), uncached);
      forall i, j | 0 <= i < |recent| && 0 <= j < |older| ensures recent[i].id != older[j].id {
        FilterMember(Recent(cutoff.value), uncached, recent[i]);
        FilterMember(Older(cutoff.value), uncached, older[j]);
      }
    }
  }

  /** What a run takes: as many packets as fit under the cap, each an uncached packet of the plan, no
      id twice, nothing older while something recent is left out, and all uncached ones when they fit. */
  lemma {:induction false} SelectionSound(packets: seq<Packet>, cutoff: Option<string>, maxPackets: nat)
    requires DistinctPackets(packets)
    ensures var order := RunOrder(packets, cutoff);
      var selected, uncached := Take(order, maxPackets), Filter(Uncached(), packets);
      && (if |uncached| <= maxPackets then |selected| == |uncached| else |selected| == maxPackets)
      && DistinctPackets(selected)
      && (forall p | p in selected :: p in packets && !p.cached)
      && (|uncached| <= maxPackets ==> forall p | p in packets && !p.cached :: p in selected)
      && (cutoff.Some? ==>
            forall p, q | p in uncached && Recent(cutoff.value)(p) && p !in selected && q in selected ::
              Recent(cutoff.value)(q))
  {
    var order, uncached := RunOrder(packets, cutoff), Filter(Uncached(), packets);
    var selected := Take(order, maxPackets);
    hide RunOrder, Recent, Older, Filter;
    RunOrderPermutes(packets, cutoff);
    SameElements(order, uncached);
    FilterMembers(Uncached(), packets);
    OrderDistinct(packets, cutoff);
    forall p | p in selected ensures p in packets && !p.cached {
      assert p in order && Uncached()(p);
    }
    forall p | p in packets && !p.cached && |uncached| <= maxPackets ensures p in selected {
      assert Uncached()(p) && p in order;
    }
    if cutoff.Some? {
      var date := cutoff.value;
      RecentBeforeOlder(packets, date);
      forall p, q | p in uncached && Recent(date)(p) && p !in selected && q in selected ensures Recent(date)(q) {
        LeftOutIsLater(order, selected, p, q, |Filter(Recent(date), uncached)|, Recent(date));
      }
    }
  }

  lemma {:induction false} LeftOutIsLater(order: seq<Packet>, selected: seq<Packet>, p: Packet, q: Packet, cut: nat,
                                          recent: Packet -> bool)
    requires |selected| <= |order| && selected == order[..|selected|]
    requires forall i | 0 <= i < |order| :: recent(order[i]) <==> i < cut
    requires p in order && recent(p) && p !in selected && q in selected
    ensures recent(q)
  {
    var rest := order[|selected|..];
    assert order == selected + rest;
    var i :| 0 <= i < |rest| && rest[i] == p;
    var j :| 0 <= j < |selected| && selected[j] == q;
    assert order[|selected| + i] == p && order[j] == q;
  }

  // ----- the whole plan

  datatype PacketPlan = PacketPlan(backfill: bool, target: nat, packets: seq<Packet>, selected: seq<Packet>)

  function PlanOf(calendar: Calendar, events: seq<Event>, policy: Policy, cached: set<PacketId>, daysBefore: DaysBefore)
    : (plan: PacketPlan)
  {
    var packets := Plan(calendar, events, policy.Target(), cached);
    var cutoff := Cutoff(packets, policy.Backfill(), policy.recentPriorityDays, daysBefore);
    PacketPlan(policy.Backfill(), policy.Target(), packets, Take(RunOrder(packets, cutoff), policy.maxPacketsPerRun))
  }

  method BuildPacketPlan(calendar: Calendar, events: seq<Event>, policy: Policy, cached: set<PacketId>,
                         daysBefore: DaysBefore)
    returns (plan: PacketPlan)
    ensures plan == PlanOf(calendar, events, policy, cached, daysBefore)
  {
    hide Plan, RunOrder, Cutoff;
    var target := policy.Target();
    var packets := PlanPackets(calendar, events, target, cached);
    var selected := SelectPacketsForRun(packets, policy.Backfill(), policy.maxPacketsPerRun,
                                        policy.recentPriorityDays, daysBefore);
    plan := PacketPlan(policy.Backfill(), target, packets, selected);
  }

  lemma {:induction false} PlanIdsDistinct(calendar: Calendar, events: seq<Event>, target: nat, cached: set<PacketId>)
    ensures DistinctPackets(Plan(calendar, events, target, cached))
  {
    hide PlannedHours, Parcels, EstimateTokens, CharCount, SessionIds;
    PlannedIdsDistinct(calendar, events, target);
  }

  /** Planning a run and materializing its selected packets from the same events: the selection is
      sound, and the materializer agrees with the plan on every selected packet. */
  lemma {:induction false} PlannedRunMaterializes(calendar: Calendar, events: seq<Event>, policy: Policy,
                                                  cached: set<PacketId>, daysBefore: DaysBefore)
    ensures var plan := PlanOf(calendar, events, policy, cached, daysBefore);
      && DistinctPackets(plan.selected)
      && |plan.selected| <= policy.maxPacketsPerRun
      && (forall p | p in plan.selected :: p in plan.packets && !p.cached)
      && PacketIssues(EventIndex(calendar, events, plan.target), plan.selected, |plan.selected|) == []
  {
    hide Plan, RunOrder, Cutoff, EventIndex, PacketIssues, DistinctPackets, Filter;
    var plan := PlanOf(calendar, events, policy, cached, daysBefore);
    var cutoff := Cutoff(plan.packets, policy.Backfill(), policy.recentPriorityDays, daysBefore);
    PlanIdsDistinct(calendar, events, plan.target, cached);
    SelectionSound(plan.packets, cutoff, policy.maxPacketsPerRun);
    forall i | 0 <= i < |plan.selected| ensures plan.selected[i] in plan.packets {
      assert plan.selected[i] in plan.selected;
    }
    NoPacketIssues(calendar, events, plan.target, cached, plan.selected, |plan.selected|);
  }
}
