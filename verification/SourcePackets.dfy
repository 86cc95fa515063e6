/** The materializer's own copy of the packing: it groups events by hour first, orders each hour
    afterwards, and checks the packets of a plan against what it rebuilt. */
module SourcePackets {
  import opened Orders
  import opened Grouping
  import opened PacketRows
  import opened PacketPlanner

  function SortGroup(groups: map<Hour, seq<Event>>): (sorted: map<Hour, seq<Event>>) {
    map hour | hour in groups :: Sort(TsLe, groups[hour])
  }

  /** The materializer groups readable events and orders each hour afterwards. */
  function MaterializedHours(calendar: Calendar, events: seq<Event>): (groups: map<Hour, seq<Event>>) {
    SortGroup(Groups(HourOf(calendar), events))
  }

  /** Packet contents by id; a later parcel replaces an earlier one of the same id. */
  function IndexParcels(parcels: seq<Parcel>, n: nat): (index: map<PacketId, seq<Event>>)
    requires n <= |parcels|
  {
    if n == 0 then map[] else IndexParcels(parcels, n - 1)[parcels[n - 1].id := parcels[n - 1].events]
  }

  function EventIndex(calendar: Calendar, events: seq<Event>, target: nat): (index: map<PacketId, seq<Event>>) {
    var parcels := Parcels(MaterializedHours(calendar, events), target);
    IndexParcels(parcels, |parcels|)
  }

  datatype Issue =
    | UnreadableTimestamps(count: nat)
    | EventCountDiffers(id: PacketId, planned: nat, actual: nat)
    | SessionsDiffer(id: PacketId, plannedIds: seq<string>, actualIds: seq<string>)
    | CharCountDiffers(id: PacketId, planned: nat, actual: nat)
    | TokensDiffer(id: PacketId, planned: nat, actual: nat)
    | NothingRebuilt(id: PacketId, planned: nat)

  function MetadataIssues(packet: Packet, events: seq<Event>): (issues: seq<Issue>) {
    (if packet.eventCount != |events| then [EventCountDiffers(packet.id, packet.eventCount, |events|)] else [])
    + (if packet.sessionIds != SessionIds(events)
       then [SessionsDiffer(packet.id, packet.sessionIds, SessionIds(events))] else [])
    + (if packet.charCount != CharCount(events)
       then [CharCountDiffers(packet.id, packet.charCount, CharCount(events))] else [])
    + (if packet.estimatedTokens != EstimateTokens(events)
       then [TokensDiffer(packet.id, packet.estimatedTokens, EstimateTokens(events))] else [])
  }

  method PacketizeHourEvents(hour: Hour, events: seq<Event>, target: nat) returns (parcels: seq<Parcel>)
    ensures parcels == HourParcels(hour, events, target)
  {
    hide EstimateTokens, SessionChunks;
    if EstimateTokens(events) <= target {
      parcels := [Parcel(PacketId(hour, 1, 1, WholeHour), events)];
    } else {
      var chunks := PackHour(events, target);
      parcels := Numbered(hour, chunks);
    }
  }

  method GroupEventsByHour(calendar: Calendar, events: seq<Event>) returns (byHour: map<Hour, seq<Event>>)
    ensures byHour == Groups(HourOf(calendar), events)
  {
    hide Groups;
    var key := HourOf(calendar);
    byHour := map[];
    assert byHour == Groups(key, []) by {
      NoGroups(key);
    }
    for i := 0 to |events|
      invariant byHour == Groups(key, events[..i])
    {
      var event := events[i];
      GroupsSnoc(key, events[..i], event);
      assert events[..i + 1] == events[..i] + [event];
      match calendar(event.ts)
      case Some(hour) =>
        byHour := byHour[hour := (if hour in byHour then byHour[hour] else []) + [event]];
      case None =>
    }
    assert events[..|events|] == events;
  }

  lemma {:induction false} IndexConcat(a: seq<Parcel>, b: seq<Parcel>, n: nat)
    requires n <= |a|
    ensures IndexParcels(a + b, n) == IndexParcels(a, n)
  {
    if n > 0 {
      IndexConcat(a, b, n - 1);
    }
  }

  lemma {:induction false} IndexNothing()
    ensures IndexParcels([], 0) == map[]
  {
  }

  lemma {:induction false} SortedRows(byHour: map<Hour, seq<Event>>, hours: seq<Hour>)
    requires forall i | 0 <= i < |hours| :: hours[i] in byHour
    ensures SortGroup(byHour).Keys == byHour.Keys
    ensures forall i | 0 <= i < |hours| :: Listed(SortGroup(byHour), hours, |hours|)[i] == Sort(TsLe, byHour[hours[i]])
  {
  }

  method PacketEventIndex(calendar: Calendar, events: seq<Event>, target: nat)
    returns (index: map<PacketId, seq<Event>>)
    ensures index == EventIndex(calendar, events, target)
  {
    hide Groups, Sort, HoursInOrder, HourParcels, SortGroup, IndexParcels, Listed, SortedBy, Distinct, HourOf;
    var byHour := GroupEventsByHour(calendar, events);
    var hours := HoursInOrder(byHour.Keys);
    SortedRows(byHour, hours);
    ghost var rows: seq<seq<Event>> := Listed(SortGroup(byHour), hours, |hours|);
    ghost var parcels: seq<Parcel> := [];
    index := map[];
    IndexNothing();
    for i := 0 to |hours|
      invariant parcels == ParcelsOf(hours, rows, target, i)
      invariant index == IndexParcels(parcels, |parcels|)
    {
      var hourEvents := Sort(TsLe, byHour[hours[i]]);
      var packed := PacketizeHourEvents(hours[i], hourEvents, target);
      index := InsertAll(index, parcels, packed);
      parcels := parcels + packed;
    }
  }

  method InsertAll(start: map<PacketId, seq<Event>>, ghost before: seq<Parcel>, packed: seq<Parcel>)
    returns (index: map<PacketId, seq<Event>>)
    requires start == IndexParcels(before, |before|)
    ensures index == IndexParcels(before + packed, |before + packed|)
  {
    index := start;
    IndexConcat(before, packed, |before|);
    for i := 0 to |packed|
      invariant index == IndexParcels(before + packed, |before| + i)
    {
      assert (before + packed)[|before| + i] == packed[i];
      index := index[packed[i].id := packed[i].events];
    }
  }

  /** Everything the materializer reports about a plan's packets. */
  method PlanIssues(calendar: Calendar, events: seq<Event>, target: nat, selected: seq<Packet>)
    returns (issues: seq<Issue>)
    ensures issues == UnreadableIssues(calendar, events)
                      + PacketIssues(EventIndex(calendar, events, target), selected, |selected|)
  {
    hide EventIndex, PacketReport;
    issues := UnreadableIssues(calendar, events);
    ghost var start := issues;
    var index := PacketEventIndex(calendar, events, target);
    for i := 0 to |selected|
      invariant issues == start + PacketIssues(index, selected, i)
    {
      issues := issues + PacketReport(index, selected[i]);
    }
  }

  function UnreadableIssues(calendar: Calendar, events: seq<Event>): (issues: seq<Issue>) {
    var readable := Filter(Keyed(HourOf(calendar)), events);
    if |readable| == |events| then [] else [UnreadableTimestamps(|events| - |readable|)]
  }

  function PacketIssues(index: map<PacketId, seq<Event>>, selected: seq<Packet>, n: nat): (issues: seq<Issue>)
    requires n <= |selected|
  {
    if n == 0 then []
    else PacketIssues(index, selected, n - 1) + PacketReport(index, selected[n - 1])
  }

  /** What is reported of one packet, given the events rebuilt for it, if any. */
  function PacketReport(index: map<PacketId, seq<Event>>, packet: Packet): (issues: seq<Issue>) {
    var rebuilt := if packet.id in index then index[packet.id] else [];
    MetadataIssues(packet, rebuilt)
    + (if rebuilt == [] && packet.eventCount > 0 then [NothingRebuilt(packet.id, packet.eventCount)] else [])
  }

  // ----- the two packers agree

  /** Ordering everything and then grouping gives the same hours as grouping and then ordering. */
  lemma {:induction false} HoursAgree(calendar: Calendar, events: seq<Event>)
    ensures PlannedHours(calendar, events) == MaterializedHours(calendar, events)
  {
    hide Groups, Sort, Filter;
    var key := HourOf(calendar);
    TsLePreorder();
    KeysKept(TsLe, key, events);
    GroupKeys(key, events);
    GroupKeys(key, Sort(TsLe, Filter(Keyed(key), events)));
    forall hour | hour in KeysOf(key, events)
      ensures PlannedHours(calendar, events)[hour] == MaterializedHours(calendar, events)[hour]
    {
      SortThenGroup(TsLe, key, events, hour);
    }
  }

  lemma {:induction false} GroupKeys(key: Event -> Option<Hour>, events: seq<Event>)
    ensures Groups(key, events).Keys == KeysOf(key, events)
  {
  }

  ghost predicate DistinctIds(parcels: seq<Parcel>) {
    forall i, j | 0 <= i < j < |parcels| :: parcels[i].id != parcels[j].id
  }

  ghost predicate InHours(parcels: seq<Parcel>, hours: seq<Hour>) {
    forall i | 0 <= i < |parcels| :: parcels[i].id.hour in hours
  }

  lemma {:induction false} HourIdsDistinct(hour: Hour, events: seq<Event>, target: nat)
    ensures DistinctIds(HourParcels(hour, events, target))
    ensures forall i | 0 <= i < |HourParcels(hour, events, target)| ::
            HourParcels(hour, events, target)[i].id.hour == hour
  {
    hide EstimateTokens, SessionChunks;
  }

  lemma {:induction false} IdsDistinct(hours: seq<Hour>, rows: seq<seq<Event>>, target: nat, n: nat)
    requires n <= |hours| && |rows| == |hours| && Distinct(hours)
    ensures DistinctIds(ParcelsOf(hours, rows, target, n)) && InHours(ParcelsOf(hours, rows, target, n), hours[..n])
  {
    hide HourParcels, DistinctIds, InHours;
    if n > 0 {
      IdsDistinct(hours, rows, target, n - 1);
      HourIdsDistinct(hours[n - 1], rows[n - 1], target);
      DistinctJoin(ParcelsOf(hours, rows, target, n - 1), HourParcels(hours[n - 1], rows[n - 1], target),
        hours[..n - 1], hours[n - 1]);
      assert hours[..n] == hours[..n - 1] + [hours[n - 1]];
    } else {
      NoParcels();
    }
  }

  lemma {:induction false} NoParcels()
    ensures DistinctIds([]) && InHours([], [])
  {
  }

  lemma {:induction false} DistinctJoin(a: seq<Parcel>, b: seq<Parcel>, hours: seq<Hour>, hour: Hour)
    requires hour !in hours && DistinctIds(a) && InHours(a, hours)
    requires DistinctIds(b) && forall i | 0 <= i < |b| :: b[i].id.hour == hour
    ensures DistinctIds(a + b) && InHours(a + b, hours + [hour])
  {
    forall i, j | 0 <= i < j < |a + b| ensures (a + b)[i].id != (a + b)[j].id {
      if j < |a| {
        assert a[i].id != a[j].id;
      } else if i < |a| {
        assert a[i].id.hour in hours && b[j - |a|].id.hour == hour;
      } else {
        assert b[i - |a|].id != b[j - |a|].id;
      }
    }
  }

  lemma {:induction false} IndexFinds(parcels: seq<Parcel>, n: nat)
    requires n <= |parcels| && DistinctIds(parcels)
    ensures forall i | 0 <= i < n ::
              parcels[i].id in IndexParcels(parcels, n) && IndexParcels(parcels, n)[parcels[i].id] == parcels[i].events
    ensures forall id | id in IndexParcels(parcels, n) :: exists i | 0 <= i < n :: parcels[i].id == id
  {
    if n > 0 {
      IndexFinds(parcels, n - 1);
      forall id | id in IndexParcels(parcels, n) ensures exists i | 0 <= i < n :: parcels[i].id == id {
        if id != parcels[n - 1].id {
          var i :| 0 <= i < n - 1 && parcels[i].id == id;
        }
      }
    }
  }

  /** The parcels behind the planner's packets. */
  function PlannedParcels(calendar: Calendar, events: seq<Event>, target: nat): (parcels: seq<Parcel>) {
    Parcels(PlannedHours(calendar, events), target)
  }

  lemma {:induction false} PlannedIdsDistinct(calendar: Calendar, events: seq<Event>, target: nat)
    ensures DistinctIds(PlannedParcels(calendar, events, target))
  {
    hide PlannedHours, DistinctIds, HoursInOrder;
    var groups := PlannedHours(calendar, events);
    var hours := HoursInOrder(groups.Keys);
    IdsDistinct(hours, Listed(groups, hours, |hours|), target, |hours|);
  }

  /** The materializer's index holds the planner's packets and nothing else: the same ids, and
      under each id the very events the planner packed, in the same order. */
  lemma {:induction false} IndexIsPlan(calendar: Calendar, events: seq<Event>, target: nat, cached: set<PacketId>)
    ensures var packets, parcels := Plan(calendar, events, target, cached), PlannedParcels(calendar, events, target);
      var index := EventIndex(calendar, events, target);
      && |packets| == |parcels|
      && (forall i | 0 <= i < |packets| :: packets[i].id in index && index[packets[i].id] == parcels[i].events
            && packets[i] == Describe(parcels[i], cached))
      && (forall id | id in index :: exists i | 0 <= i < |packets| :: packets[i].id == id)
  {
    hide MaterializedHours, PlannedHours, Parcels, DistinctIds, IndexParcels, EstimateTokens, SessionIds, CharCount;
    HoursAgree(calendar, events);
    PlannedIdsDistinct(calendar, events, target);
    var parcels := PlannedParcels(calendar, events, target);
    IndexFinds(parcels, |parcels|);
    forall id | id in EventIndex(calendar, events, target)
      ensures exists i | 0 <= i < |parcels| :: Plan(calendar, events, target, cached)[i].id == id
    {
      var i :| 0 <= i < |parcels| && parcels[i].id == id;
      assert Plan(calendar, events, target, cached)[i].id == id;
    }
  }

  ghost predicate FromPlan(selected: seq<Packet>, packets: seq<Packet>) {
    forall i | 0 <= i < |selected| :: selected[i] in packets
  }

  lemma {:induction false} NoSelection(index: map<PacketId, seq<Event>>, selected: seq<Packet>)
    ensures PacketIssues(index, selected, 0) == []
  {
  }

  lemma {:induction false} NoIssueOf(index: map<PacketId, seq<Event>>, selected: seq<Packet>, n: nat)
    requires n < |selected| && selected[n].id in index && selected[n].eventCount == |index[selected[n].id]|
    requires MetadataIssues(selected[n], index[selected[n].id]) == []
    ensures PacketIssues(index, selected, n + 1) == PacketIssues(index, selected, n)
  {
    hide MetadataIssues;
  }

  lemma {:induction false} NoPacketIssues(calendar: Calendar, events: seq<Event>, target: nat, cached: set<PacketId>,
                                          selected: seq<Packet>, n: nat)
    requires n <= |selected| && FromPlan(selected, Plan(calendar, events, target, cached))
    ensures PacketIssues(EventIndex(calendar, events, target), selected, n) == []
  {
    hide EventIndex, Plan, MetadataIssues, PacketIssues;
    if n > 0 {
      NoPacketIssues(calendar, events, target, cached, selected, n - 1);
      assert selected[n - 1] in Plan(calendar, events, target, cached);
      PacketMatches(calendar, events, target, cached, selected[n - 1]);
      NoIssueOf(EventIndex(calendar, events, target), selected, n - 1);
    } else {
      NoSelection(EventIndex(calendar, events, target), selected);
    }
  }

  lemma {:induction false} PacketMatches(calendar: Calendar, events: seq<Event>, target: nat, cached: set<PacketId>,
                                         packet: Packet)
    requires packet in Plan(calendar, events, target, cached)
    ensures packet.id in EventIndex(calendar, events, target)
    ensures var rebuilt := EventIndex(calendar, events, target)[packet.id];
      MetadataIssues(packet, rebuilt) == [] && packet.eventCount == |rebuilt|
  {
    hide EventIndex, Plan, EstimateTokens, CharCount, SessionIds;
    IndexIsPlan(calendar, events, target, cached);
  }

  /** Materializing any selection of a plan built from the same events reports no mismatch: the only
      possible finding is that some timestamps could not be read. */
  lemma {:induction false} MaterializerFindsNoMismatch(calendar: Calendar, events: seq<Event>, target: nat,
                                                       cached: set<PacketId>, selected: seq<Packet>)
    requires FromPlan(selected, Plan(calendar, events, target, cached))
    ensures UnreadableIssues(calendar, events)
            + PacketIssues(EventIndex(calendar, events, target), selected, |selected|)
            == UnreadableIssues(calendar, events)
    ensures UnreadableIssues(calendar, events) == [] <==> forall i | 0 <= i < |events| :: calendar(events[i].ts).Some?
  {
    hide EventIndex, Plan;
    NoPacketIssues(calendar, events, target, cached, selected, |selected|);
    KeptAll(Keyed(HourOf(calendar)), events);
    forall i | 0 <= i < |events| ensures Keyed(HourOf(calendar))(events[i]) <==> calendar(events[i].ts).Some? {
    }
  }

  lemma {:induction false} KeptAll(p: Event -> bool, events: seq<Event>)
    ensures |Filter(p, events)| == |events| <==> forall i | 0 <= i < |events| :: p(events[i])
  {
    if events != [] {
      KeptAll(p, events[1..]);
      assert events == [events[0]] + events[1..];
    }
  }
}
