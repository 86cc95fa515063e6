/** The wiki memory packet planner: events are ordered, grouped by hour, and packed hour by hour
    under a token target; a run then selects some of the packets. */
module PacketPlanner {
  import opened Orders
  import opened Grouping
  import opened PacketRows

  /** Date and hour, as the formatted UTC timestamp gives them. */
  type Hour = (string, string)

  /** How a timestamp is read; `None` when it does not parse. */
  type Calendar = string -> Option<Hour>

  datatype Kind = WholeHour | HourPart

  /** The packet id is formatted from exactly these parts; `shard` counts from 1. */
  datatype PacketId = PacketId(hour: Hour, shard: nat, shardCount: nat, kind: Kind)

  datatype Packet = Packet(id: PacketId, sessionIds: seq<string>, eventCount: nat, charCount: nat,
                           estimatedTokens: nat, cached: bool)

  predicate TsLe(a: Event, b: Event) { StringLe(a.ts, b.ts) }

  predicate HourLe(a: Hour, b: Hour) {
    if a.0 == b.0 then StringLe(a.1, b.1) else StringLe(a.0, b.0)
  }

  lemma {:induction false} TsLePreorder()
    ensures TotalPreorder(TsLe)
  {
    StringLeTotalOrder();
  }

  lemma {:induction false} HourLeTotalOrder()
    ensures TotalOrder(HourLe)
  {
    StringLeTotalOrder();
    forall a: Hour, b: Hour ensures HourLe(a, b) || HourLe(b, a) {
    }
    forall a: Hour, b: Hour, c: Hour | HourLe(a, b) && HourLe(b, c) ensures HourLe(a, c) {
    }
    forall a: Hour, b: Hour | HourLe(a, b) && HourLe(b, a) ensures a == b {
    }
  }

  function NamesInOrder(names: set<string>): (r: seq<string>)
    ensures (forall x | x in names :: x in r) && (forall x | x in r :: x in names)
    ensures SortedBy(StringLe, r) && Distinct(r) && |r| == |names|
  {
    StringLeTotalOrder();
    Ascending(StringLe, names)
  }

  function HoursInOrder(hours: set<Hour>): (r: seq<Hour>)
    ensures (forall x | x in hours :: x in r) && (forall x | x in r :: x in hours)
    ensures SortedBy(HourLe, r) && Distinct(r) && |r| == |hours|
  {
    HourLeTotalOrder();
    Ascending(HourLe, hours)
  }

  // ----- one hour's packets

  function SessionOf(e: Event): Option<string> { Some(if e.sessionId == "" then "unknown" else e.sessionId) }

  /** A session's rows are one chunk when they fit the target and are split otherwise. */
  function PackRows(rows: seq<Event>, target: nat): (chunks: seq<seq<Event>>) {
    if EstimateTokens(rows) <= target then [rows] else Chunks(rows, target)
  }

  /** The chunks of the first `n` sessions. */
  function PackSessions(sessions: seq<seq<Event>>, target: nat, n: nat): (chunks: seq<seq<Event>>)
    requires n <= |sessions|
  {
    if n == 0 then []
    else PackSessions(sessions, target, n - 1) + PackRows(Sort(TsLe, sessions[n - 1]), target)
  }

  /** An hour's sessions in the order of their names. */
  function Sessions(events: seq<Event>): (sessions: seq<seq<Event>>) {
    var groups := Groups(SessionOf, events);
    var names := NamesInOrder(groups.Keys);
    Listed(groups, names, |names|)
  }

  function SessionChunks(events: seq<Event>, target: nat): (chunks: seq<seq<Event>>) {
    PackSessions(Sessions(events), target, |Sessions(events)|)
  }

  /** A packet id with the events packed under it. */
  datatype Parcel = Parcel(id: PacketId, events: seq<Event>)

  /** The chunks of an hour, numbered from 1. */
  function Numbered(hour: Hour, chunks: seq<seq<Event>>): (parcels: seq<Parcel>)
    ensures |parcels| == |chunks|
    ensures forall i | 0 <= i < |chunks| ::
              parcels[i] == Parcel(PacketId(hour, i + 1, Max(|chunks|, 1), HourPart), chunks[i])
  {
    seq(|chunks|, i requires 0 <= i < |chunks| =>
      Parcel(PacketId(hour, i + 1, Max(|chunks|, 1), HourPart), chunks[i]))
  }

  function HourParcels(hour: Hour, events: seq<Event>, target: nat): (parcels: seq<Parcel>) {
    if EstimateTokens(events) <= target
    then [Parcel(PacketId(hour, 1, 1, WholeHour), events)]
    else Numbered(hour, SessionChunks(events, target))
  }

  /** The parcels of the first `n` hours. */
  function ParcelsOf(hours: seq<Hour>, rows: seq<seq<Event>>, target: nat, n: nat): (parcels: seq<Parcel>)
    requires n <= |hours| && |rows| == |hours|
  {
    if n == 0 then []
    else ParcelsOf(hours, rows, target, n - 1) + HourParcels(hours[n - 1], rows[n - 1], target)
  }

  function Parcels(groups: map<Hour, seq<Event>>, target: nat): (parcels: seq<Parcel>) {
    var hours := HoursInOrder(groups.Keys);
    ParcelsOf(hours, Listed(groups, hours, |hours|), target, |hours|)
  }

  // ----- the planner

  function HourOf(calendar: Calendar): Event -> Option<Hour> { (e: Event) => calendar(e.ts) }

  /** The planner orders all readable events first and groups them afterwards. */
  function PlannedHours(calendar: Calendar, events: seq<Event>): (groups: map<Hour, seq<Event>>) {
    Groups(HourOf(calendar), Sort(TsLe, Filter(Keyed(HourOf(calendar)), events)))
  }

  function SessionIds(events: seq<Event>): (ids: seq<string>) {
    NamesInOrder(set e: Event | e in events && e.sessionId != "" :: e.sessionId)
  }

  function Describe(parcel: Parcel, cached: set<PacketId>): Packet {
    Packet(parcel.id, SessionIds(parcel.events), |parcel.events|, CharCount(parcel.events),
           EstimateTokens(parcel.events), parcel.id in cached)
  }

  function Described(parcels: seq<Parcel>, cached: set<PacketId>): (packets: seq<Packet>)
    ensures |packets| == |parcels|
    ensures forall i | 0 <= i < |parcels| :: packets[i] == Describe(parcels[i], cached)
  {
    seq(|parcels|, i requires 0 <= i < |parcels| => Describe(parcels[i], cached))
  }

  function Plan(calendar: Calendar, events: seq<Event>, target: nat, cached: set<PacketId>): (packets: seq<Packet>) {
    Described(Parcels(PlannedHours(calendar, events), target), cached)
  }

  /** The rows of one hour grouped by session, as both packers do it. */
  method GroupBySession(events: seq<Event>) returns (sessions: map<string, seq<Event>>)
    ensures sessions == Groups(SessionOf, events)
  {
    hide Groups;
    sessions := map[];
    assert sessions == Groups(SessionOf, []) by {
      NoGroups(SessionOf);
    }
    for i := 0 to |events|
      invariant sessions == Groups(SessionOf, events[..i])
    {
      var event := events[i];
      var name := if event.sessionId == "" then "unknown" else event.sessionId;
      GroupsSnoc(SessionOf, events[..i], event);
      assert events[..i + 1] == events[..i] + [event];
      sessions := sessions[name := (if name in sessions then sessions[name] else []) + [event]];
    }
    assert events[..|events|] == events;
  }

  lemma {:induction false} NoGroups<K>(key: Event -> Option<K>)
    ensures Groups(key, []) == map[]
  {
  }

  method PackSession(rows: seq<Event>, target: nat) returns (chunks: seq<seq<Event>>)
    ensures chunks == PackRows(rows, target)
  {
    if EstimateTokens(rows) <= target {
      chunks := [rows];
    } else {
      chunks := SplitEventRows(rows, target);
    }
  }

  method PackHour(events: seq<Event>, target: nat) returns (chunks: seq<seq<Event>>)
    ensures chunks == SessionChunks(events, target)
  {
    hide Groups, NamesInOrder, Sort, PackRows;
    var sessions := GroupBySession(events);
    var names := NamesInOrder(sessions.Keys);
    ghost var listed: seq<seq<Event>> := Listed(sessions, names, |names|);
    chunks := [];
    for i := 0 to |names|
      invariant chunks == PackSessions(listed, target, i)
    {
      var rows := Sort(TsLe, sessions[names[i]]);
      assert rows == Sort(TsLe, listed[i]);
      var packed := PackSession(rows, target);
      chunks := chunks + packed;
    }
  }

  // Events are sorted while paired with their hour.

  predicate PairTsLe(a: (Hour, Event), b: (Hour, Event)) { TsLe(a.1, b.1) }

  function EventsIn(pairs: seq<(Hour, Event)>): (events: seq<Event>)
    ensures |events| == |pairs| && forall i | 0 <= i < |pairs| :: events[i] == pairs[i].1
  {
    seq(|pairs|, i requires 0 <= i < |pairs| => pairs[i].1)
  }

  ghost predicate Stamped(calendar: Calendar, pairs: seq<(Hour, Event)>) {
    forall p | p in pairs :: HourOf(calendar)(p.1) == Some(p.0)
  }

  lemma {:induction false} InsertEventsIn(x: (Hour, Event), pairs: seq<(Hour, Event)>)
    ensures EventsIn(Insert(PairTsLe, x, pairs)) == Insert(TsLe, x.1, EventsIn(pairs))
  {
    if pairs != [] && !PairTsLe(x, pairs[0]) {
      InsertEventsIn(x, pairs[1..]);
      assert EventsIn(pairs)[1..] == EventsIn(pairs[1..]);
    }
  }

  lemma {:induction false} SortEventsIn(pairs: seq<(Hour, Event)>)
    ensures EventsIn(Sort(PairTsLe, pairs)) == Sort(TsLe, EventsIn(pairs))
  {
    if pairs != [] {
      SortEventsIn(pairs[1..]);
      InsertEventsIn(pairs[0], Sort(PairTsLe, pairs[1..]));
      assert EventsIn(pairs)[1..] == EventsIn(pairs[1..]);
    }
  }

  method ResolveEvents(calendar: Calendar, events: seq<Event>) returns (resolved: seq<(Hour, Event)>)
    ensures Stamped(calendar, resolved)
    ensures EventsIn(resolved) == Filter(Keyed(HourOf(calendar)), events)
  {
    resolved := [];
    for i := 0 to |events|
      invariant Stamped(calendar, resolved)
      invariant EventsIn(resolved) == Filter(Keyed(HourOf(calendar)), events[..i])
    {
      FilterSnoc(Keyed(HourOf(calendar)), events[..i], events[i]);
      assert events[..i + 1] == events[..i] + [events[i]];
      match calendar(events[i].ts)
      case Some(hour) =>
        assert EventsIn(resolved + [(hour, events[i])]) == EventsIn(resolved) + [events[i]];
        resolved := resolved + [(hour, events[i])];
      case None =>
    }
    assert events[..|events|] == events;
  }

  method GroupByHour(calendar: Calendar, pairs: seq<(Hour, Event)>) returns (byHour: map<Hour, seq<Event>>)
    requires Stamped(calendar, pairs)
    ensures byHour == Groups(HourOf(calendar), EventsIn(pairs))
  {
    hide Groups;
    var key := HourOf(calendar);
    var rows := EventsIn(pairs);
    byHour := map[];
    assert byHour == Groups(key, []) by {
      NoGroups(key);
    }
    for i := 0 to |pairs|
      invariant byHour == Groups(key, rows[..i])
    {
      var (hour, event) := pairs[i];
      assert key(event) == Some(hour) by {
        assert pairs[i] in pairs;
      }
      GroupsSnoc(key, rows[..i], event);
      assert rows[..i + 1] == rows[..i] + [event];
      byHour := byHour[hour := (if hour in byHour then byHour[hour] else []) + [event]];
    }
    assert rows[..|pairs|] == rows;
  }

  method PacketizeHour(hour: Hour, events: seq<Event>, target: nat, cached: set<PacketId>)
    returns (packets: seq<Packet>)
    ensures packets == Described(HourParcels(hour, events, target), cached)
  {
    hide EstimateTokens, Describe, SessionChunks;
    if EstimateTokens(events) <= target {
      packets := [Describe(Parcel(PacketId(hour, 1, 1, WholeHour), events), cached)];
    } else {
      var chunks := PackHour(events, target);
      packets := Described(Numbered(hour, chunks), cached);
    }
  }

  lemma {:induction false} DescribedConcat(a: seq<Parcel>, b: seq<Parcel>, cached: set<PacketId>)
    ensures Described(a + b, cached) == Described(a, cached) + Described(b, cached)
  {
    hide Describe;
  }

  /** The planner's packets, hour by hour. */
  method PlanPackets(calendar: Calendar, events: seq<Event>, target: nat, cached: set<PacketId>)
    returns (packets: seq<Packet>)
    ensures packets == Plan(calendar, events, target, cached)
  {
    hide Groups, Sort, Keyed, HoursInOrder, HourParcels, Filter, Described;
    assert Described([], cached) == [];
    var resolved := ResolveEvents(calendar, events);
    var sorted := Sort(PairTsLe, resolved);
    SortEventsIn(resolved);
    SortMembers(PairTsLe, resolved);
    var byHour := GroupByHour(calendar, sorted);
    var hours := HoursInOrder(byHour.Keys);
    ghost var rows: seq<seq<Event>> := Listed(byHour, hours, |hours|);
    packets := [];
    for i := 0 to |hours|
      invariant packets == Described(ParcelsOf(hours, rows, target, i), cached)
    {
      var more := PacketizeHour(hours[i], byHour[hours[i]], target, cached);
      assert rows[i] == byHour[hours[i]];
      DescribedConcat(ParcelsOf(hours, rows, target, i), HourParcels(hours[i], rows[i], target), cached);
      packets := packets + more;
    }
  }
}
