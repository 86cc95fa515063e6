/** How far planned packets can exceed the token target, and for which targets they cannot. */
module PacketBounds {
  import opened Orders
  import opened Grouping
  import opened PacketRows
  import opened PacketPlanner
  import opened SourcePackets
  import opened PacketConservation

  // ----- what holds of every packet

  lemma {:induction false} SessionsNonEmpty(events: seq<Event>)
    ensures NonEmptyChunks(Sessions(events))
  {
    hide Filter, KeysOf;
    var groups := Groups(SessionOf, events);
    assert groups.Keys == KeysOf(SessionOf, events);
    var names := NamesInOrder(groups.Keys);
    forall i | 0 <= i < |names| ensures groups[names[i]] != [] {
      GroupNotEmpty(SessionOf, events, names[i]);
    }
  }

  lemma {:induction false} HoursNonEmpty(calendar: Calendar, events: seq<Event>, hours: seq<Hour>)
    requires forall i | 0 <= i < |hours| :: hours[i] in PlannedHours(calendar, events)
    ensures NonEmptyChunks(Listed(PlannedHours(calendar, events), hours, |hours|))
  {
    hide Filter, Sort;
    var sorted := Sort(TsLe, Filter(Keyed(HourOf(calendar)), events));
    forall i | 0 <= i < |hours| ensures PlannedHours(calendar, events)[hours[i]] != [] {
      GroupNotEmpty(HourOf(calendar), sorted, hours[i]);
    }
  }

  /** Never empty, a whole hour only within the target, and a lone event at its own cost. */
  ghost predicate SoundParcel(parcel: Parcel, target: nat) {
    && parcel.events != []
    && (parcel.id.kind == WholeHour ==> EstimateTokens(parcel.events) <= target)
    && (|parcel.events| == 1 ==> EstimateTokens(parcel.events) == parcel.events[0].Tokens())
  }

  ghost predicate SoundParcels(parcels: seq<Parcel>, target: nat) {
    forall i | 0 <= i < |parcels| :: SoundParcel(parcels[i], target)
  }

  lemma {:induction false} PackRowsNonEmpty(rows: seq<Event>, target: nat)
    requires rows != []
    ensures NonEmptyChunks(PackRows(rows, target))
  {
    hide EstimateTokens, Chunks;
    ChunksPartition(rows, target);
  }

  lemma {:induction false} PackSessionsNonEmpty(sessions: seq<seq<Event>>, target: nat, n: nat)
    requires n <= |sessions| && NonEmptyChunks(sessions)
    ensures NonEmptyChunks(PackSessions(sessions, target, n))
  {
    hide PackRows;
    if n > 0 {
      PackSessionsNonEmpty(sessions, target, n - 1);
      PackRowsNonEmpty(Sort(TsLe, sessions[n - 1]), target);
    }
  }

  lemma {:induction false} LoneEstimate(events: seq<Event>)
    ensures |events| == 1 ==> EstimateTokens(events) == events[0].Tokens()
  {
    hide EstimateTokens, Event.Tokens;
    if |events| == 1 {
      assert events == [events[0]];
      EstimateOfOne(events[0]);
    }
  }

  lemma {:induction false} HourSound(hour: Hour, events: seq<Event>, target: nat)
    requires events != []
    ensures SoundParcels(HourParcels(hour, events, target), target)
  {
    hide EstimateTokens, Event.Tokens, Sessions;
    SessionsNonEmpty(events);
    PackSessionsNonEmpty(Sessions(events), target, |Sessions(events)|);
    var parcels := HourParcels(hour, events, target);
    forall i | 0 <= i < |parcels| ensures SoundParcel(parcels[i], target) {
      LoneEstimate(parcels[i].events);
    }
  }

  lemma {:induction false} ParcelsSound(hours: seq<Hour>, rows: seq<seq<Event>>, target: nat, n: nat)
    requires n <= |hours| && |rows| == |hours| && NonEmptyChunks(rows)
    ensures SoundParcels(ParcelsOf(hours, rows, target, n), target)
  {
    hide HourParcels, SoundParcel;
    if n > 0 {
      ParcelsSound(hours, rows, target, n - 1);
      HourSound(hours[n - 1], rows[n - 1], target);
    }
  }

  /** For every input and target: no planned packet is empty, a packet for a whole hour is within the
      target, and one for a lone event costs no more than an event can. */
  lemma {:induction false} EveryPacketSound(calendar: Calendar, events: seq<Event>, target: nat, cached: set<PacketId>)
    ensures var packets := Plan(calendar, events, target, cached);
      forall i | 0 <= i < |packets| ::
        && packets[i].eventCount >= 1
        && (packets[i].id.kind == WholeHour ==> packets[i].estimatedTokens <= target)
        && (packets[i].eventCount == 1 ==> packets[i].estimatedTokens <= MAX_ROW_TOKENS)
  {
    hide PlannedHours, HoursInOrder, ParcelsOf, EstimateTokens, SessionIds;
    var groups := PlannedHours(calendar, events);
    var hours := HoursInOrder(groups.Keys);
    HoursNonEmpty(calendar, events, hours);
    ParcelsSound(hours, Listed(groups, hours, |hours|), target, |hours|);
  }

  // ----- the bound for several events

  /** Over the target by rounding alone: three quarters of a token an event, and three sixty-fourths of
      the target. */
  ghost predicate WithinRounding(count: nat, estimate: nat, target: nat) {
    count >= 2 ==> estimate <= target + 3 * count / 4 && estimate <= target + 3 * target / 64
  }

  ghost predicate AllWithinRounding(chunks: seq<seq<Event>>, target: nat) {
    forall i | 0 <= i < |chunks| :: WithinRounding(|chunks[i]|, EstimateTokens(chunks[i]), target)
  }

  /** The most by which estimates can exceed a target that lets running costs overflow. */
  const OVERFLOW_SLACK: nat := 150_994_944

  /** From here on no 32-bit estimate is out of bounds. */
  const HIGH_TARGET: nat := U32 - 1 - OVERFLOW_SLACK

  /** The target leaves room for one more row below 2^32, or all rows together cost less than that, or
      the target is so high that no estimate can exceed the bound. */
  ghost predicate Safe(total: nat, target: nat) {
    target + MAX_ROW_TOKENS < U32 || total < U32 || target >= HIGH_TARGET
  }

  lemma {:induction false} ShortEstimate(n: nat)
    requires 2 <= n < 0xC00_0000
    ensures 0x3FFF_FFFF + 16 * n <= HIGH_TARGET + 3 * n / 4
  {
  }

  /** High targets bound every estimate, whatever the events. */
  lemma {:induction false} HighTargetBounds(events: seq<Event>, target: nat)
    requires target >= HIGH_TARGET
    ensures WithinRounding(|events|, EstimateTokens(events), target)
  {
    var n := |events|;
    assert EstimateTokens(events) < U32;
    assert EstimateTokens(events) <= Max(CharCount(events) / 4 + 16 * n, 1);
    if 2 <= n < 0xC00_0000 {
      ShortEstimate(n);
    }
  }

  lemma {:induction false} BudgetBounds(chunk: seq<Event>, target: nat)
    requires chunk != [] && WithinBudget(chunk, target)
    ensures WithinRounding(|chunk|, EstimateTokens(chunk), target)
  {
    hide EstimateTokens, TotalTokens;
    EstimateNearTotal(chunk);
  }

  lemma {:induction false} PackRowsBound(rows: seq<Event>, target: nat)
    requires rows != [] && Safe(TotalTokens(rows), target)
    ensures AllWithinRounding(PackRows(rows, target), target)
  {
    hide EstimateTokens, TotalTokens, Chunks, WithinBudget;
    if EstimateTokens(rows) > target {
      ChunksPartition(rows, target);
      var chunks := Chunks(rows, target);
      if target < HIGH_TARGET {
        ChunksWithinBudget(rows, target);
      }
      forall i | 0 <= i < |chunks| ensures WithinRounding(|chunks[i]|, EstimateTokens(chunks[i]), target) {
        if target < HIGH_TARGET {
          BudgetBounds(chunks[i], target);
        } else {
          HighTargetBounds(chunks[i], target);
        }
      }
    }
  }

  ghost predicate AllSafe(groups: seq<seq<Event>>, target: nat) {
    forall i | 0 <= i < |groups| :: groups[i] != [] && Safe(TotalTokens(groups[i]), target)
  }

  lemma {:induction false} SortTotals(events: seq<Event>)
    ensures TotalTokens(Sort(TsLe, events)) == TotalTokens(events)
  {
    SortPermutes(TsLe, events);
    TotalsOfPermutation(Sort(TsLe, events), events);
  }

  lemma {:induction false} PackSessionsBound(sessions: seq<seq<Event>>, target: nat, n: nat)
    requires n <= |sessions| && AllSafe(sessions, target)
    ensures AllWithinRounding(PackSessions(sessions, target, n), target)
  {
    hide PackRows, WithinRounding, Safe, TotalTokens, EstimateTokens;
    if n > 0 {
      PackSessionsBound(sessions, target, n - 1);
      SortTotals(sessions[n - 1]);
      PackRowsBound(Sort(TsLe, sessions[n - 1]), target);
    }
  }

  lemma {:induction false} FilterTotal(p: Event -> bool, events: seq<Event>)
    ensures TotalTokens(Filter(p, events)) <= TotalTokens(events)
  {
    if events != [] {
      var n := |events| - 1;
      FilterTotal(p, events[..n]);
      FilterSnoc(p, events[..n], events[n]);
      assert events == events[..n] + [events[n]];
      TotalsSnoc(events[..n], events[n]);
      TotalsSnoc(Filter(p, events[..n]), events[n]);
    }
  }

  /** The groups of safe rows are safe. */
  lemma {:induction false} GroupsSafe<K>(key: Event -> Option<K>, events: seq<Event>, keys: seq<K>, target: nat)
    requires Safe(TotalTokens(events), target) && forall i | 0 <= i < |keys| :: keys[i] in KeysOf(key, events)
    ensures AllSafe(Listed(Groups(key, events), keys, |keys|), target)
  {
    hide KeysOf, TotalTokens, Filter;
    forall i | 0 <= i < |keys|
      ensures Groups(key, events)[keys[i]] != [] && Safe(TotalTokens(Groups(key, events)[keys[i]]), target)
    {
      GroupNotEmpty(key, events, keys[i]);
      FilterTotal(Having(key, keys[i]), events);
    }
  }

  lemma {:induction false} SessionsSafe(events: seq<Event>, target: nat)
    requires Safe(TotalTokens(events), target)
    ensures AllSafe(Sessions(events), target)
  {
    hide KeysOf, TotalTokens, Safe;
    var groups := Groups(SessionOf, events);
    assert groups.Keys == KeysOf(SessionOf, events);
    GroupsSafe(SessionOf, events, NamesInOrder(groups.Keys), target);
  }

  ghost predicate ParcelsWithinRounding(parcels: seq<Parcel>, target: nat) {
    forall i | 0 <= i < |parcels| :: WithinRounding(|parcels[i].events|, EstimateTokens(parcels[i].events), target)
  }

  lemma {:induction false} HourBound(hour: Hour, events: seq<Event>, target: nat)
    requires Safe(TotalTokens(events), target)
    ensures ParcelsWithinRounding(HourParcels(hour, events, target), target)
  {
    hide EstimateTokens, Sessions, Safe, TotalTokens;
    SessionsSafe(events, target);
    PackSessionsBound(Sessions(events), target, |Sessions(events)|);
  }

  lemma {:induction false} ParcelsBound(hours: seq<Hour>, rows: seq<seq<Event>>, target: nat, n: nat)
    requires n <= |hours| && |rows| == |hours| && AllSafe(rows, target)
    ensures ParcelsWithinRounding(ParcelsOf(hours, rows, target, n), target)
  {
    hide HourParcels, WithinRounding, Safe, TotalTokens, EstimateTokens;
    if n > 0 {
      ParcelsBound(hours, rows, target, n - 1);
      HourBound(hours[n - 1], rows[n - 1], target);
    }
  }

  ghost predicate PacketsWithinRounding(packets: seq<Packet>, target: nat) {
    forall i | 0 <= i < |packets| :: WithinRounding(packets[i].eventCount, packets[i].estimatedTokens, target)
  }

  /** A packet with several events exceeds the target by rounding alone, for every target that leaves
      room for one more row below 2^32, every high target, and every input costing less than 2^32. */
  lemma {:induction false} TokenBound(calendar: Calendar, events: seq<Event>, target: nat, cached: set<PacketId>)
    requires Safe(TotalTokens(Readable(calendar, events)), target)
    ensures PacketsWithinRounding(Plan(calendar, events, target, cached), target)
  {
    hide HoursInOrder, ParcelsOf, EstimateTokens, SessionIds, TotalTokens, WithinRounding, Safe, KeysOf, Filter;
    var sorted := Sort(TsLe, Readable(calendar, events));
    var groups := PlannedHours(calendar, events);
    var hours := HoursInOrder(groups.Keys);
    SortTotals(Readable(calendar, events));
    GroupKeys(HourOf(calendar), sorted);
    GroupsSafe(HourOf(calendar), sorted, hours, target);
    ParcelsBound(hours, Listed(groups, hours, |hours|), target, |hours|);
  }

  // ----- targets for which the bound fails

  function Repeat(e: Event, n: nat): (events: seq<Event>)
    ensures |events| == n && forall i | 0 <= i < n :: events[i] == e
  {
    seq(n, i => e)
  }

  lemma {:induction false} RepeatTotals(e: Event, n: nat)
    ensures TotalChars(Repeat(e, n)) == n * e.Chars() && TotalTokens(Repeat(e, n)) == n * e.Tokens()
  {
    hide Event.Chars, Event.Tokens, TotalChars, TotalTokens;
    if n == 0 {
      NoTotals();
    } else {
      RepeatTotals(e, n - 1);
      TotalsSnoc(Repeat(e, n - 1), e);
      assert Repeat(e, n) == Repeat(e, n - 1) + [e];
    }
  }

  lemma {:induction false} NoTotals()
    ensures TotalChars([]) == 0 && TotalTokens([]) == 0
  {
  }

  /** So many of the cheapest events that one more token fills the lowest unsafe target. */
  const CHEAP_ROWS: nat := 0xBFF_FFFE

  /** A row of 17 tokens, the cheap rows, the dearest row, whose cost overflows, and one that makes the
      32-bit estimate as large as it can be. */
  function CrowdedRows(cheap: nat): (rows: seq<Event>)
    ensures |rows| == cheap + 3
  {
    [Costing(17)] + Repeat(Costing(16), cheap) + [Costing(MAX_ROW_TOKENS), Costing(0x3FFF_FFFF)]
  }

  /** While only cheap rows were taken, all of them are in the open chunk. */
  lemma {:induction false} CheapRowsFit(cheap: nat, target: nat, k: nat)
    requires k <= cheap && 17 + 16 * cheap <= target < U32
    ensures SplitUpTo(CrowdedRows(cheap), target, k + 1) ==
            SplitState([], CrowdedRows(cheap)[..k + 1], 17 + 16 * k)
  {
    var rows := CrowdedRows(cheap);
    if k == 0 {
      assert SplitUpTo(rows, target, 0) == SplitState([], [], 0);
      assert [] + [rows[0]] == rows[..1];
    } else {
      CheapRowsFit(cheap, target, k - 1);
      assert rows[k] == Costing(16);
      assert rows[..k + 1] == rows[..k] + [rows[k]];
    }
  }

  /** The dearest row makes the running cost overflow to nothing, so no chunk is ever closed. */
  lemma {:induction false} CrowdedRowsStayTogether(cheap: nat, target: nat)
    requires 17 + 16 * cheap <= target < U32 && 17 + 16 * cheap + MAX_ROW_TOKENS == U32
    ensures Chunks(CrowdedRows(cheap), target) == [CrowdedRows(cheap)]
  {
    var rows := CrowdedRows(cheap);
    CheapRowsFit(cheap, target, cheap);
    assert rows[cheap + 1] == Costing(MAX_ROW_TOKENS) && rows[cheap + 2] == Costing(0x3FFF_FFFF);
    assert SplitUpTo(rows, target, cheap + 2) == SplitState([], rows[..cheap + 2], 0) by {
      assert rows[..cheap + 2] == rows[..cheap + 1] + [rows[cheap + 1]];
    }
    assert SplitUpTo(rows, target, cheap + 3) == SplitState([], rows, 0x3FFF_FFFF) by {
      assert rows == rows[..cheap + 2] + [rows[cheap + 2]];
    }
  }

  lemma {:induction false} CrowdedChars(cheap: nat)
    ensures TotalChars(CrowdedRows(cheap)) == 2 * U32 - 68
  {
    var first, dear, last := Costing(17), Costing(MAX_ROW_TOKENS), Costing(0x3FFF_FFFF);
    var some := [first] + Repeat(Costing(16), cheap);
    RepeatTotals(Costing(16), cheap);
    TotalsSnoc([], first);
    assert [] + [first] == [first];
    TotalsConcat([first], Repeat(Costing(16), cheap));
    TotalsSnoc(some, dear);
    TotalsSnoc(some + [dear], last);
    assert CrowdedRows(cheap) == (some + [dear]) + [last];
  }

  lemma {:induction false} CrowdedEstimate(cheap: nat)
    requires cheap == CHEAP_ROWS
    ensures EstimateTokens(CrowdedRows(cheap)) == U32 - 1
  {
    CrowdedChars(cheap);
    assert Wrap(2 * U32 - 68) == U32 - 68;
  }

  // ----- one hour and one session

  lemma {:induction false} OneGroup<K>(key: Event -> Option<K>, events: seq<Event>, k: K)
    requires events != [] && forall i | 0 <= i < |events| :: key(events[i]) == Some(k)
    ensures Groups(key, events) == map[k := events] && Filter(Keyed(key), events) == events
  {
    forall i | 0 <= i < |events| ensures Having(key, k)(events[i]) && Keyed(key)(events[i]) {
      assert key(events[i]) == Some(k);
    }
    FilterAll(Having(key, k), events);
    FilterAll(Keyed(key), events);
    assert events[0] in events;
    assert KeysOf(key, events) == {k};
  }

  lemma {:induction false} OneListed<K>(listed: seq<K>, k: K)
    requires |listed| == 1 && k in listed
    ensures listed == [k]
  {
  }

  ghost predicate Alike(events: seq<Event>) {
    events != [] && forall i | 0 <= i < |events| ::
      events[i].ts == events[0].ts && events[i].sessionId == events[0].sessionId
  }

  lemma {:induction false} AlikeSorted(events: seq<Event>)
    requires Alike(events)
    ensures Sort(TsLe, events) == events
  {
    StringLeTotalOrder();
    SortOfSorted(TsLe, events);
  }

  lemma {:induction false} AlikeSession(events: seq<Event>, target: nat)
    requires Alike(events) && EstimateTokens(events) > target
    ensures SessionChunks(events, target) == Chunks(events, target)
  {
    hide EstimateTokens, Chunks, KeysOf, Filter, Sort;
    var name := SessionOf(events[0]).value;
    OneGroup(SessionOf, events, name);
    var names := NamesInOrder({name});
    OneListed(names, name);
    assert Sessions(events) == [events];
    AlikeSorted(events);
    assert PackSessions([events], target, 0) == [];
    assert [] + PackRows(events, target) == PackRows(events, target);
  }

  /** Events of one hour and session, too many for the target, are packed as their chunks. */
  lemma {:induction false} AlikePlan(calendar: Calendar, hour: Hour, events: seq<Event>, target: nat)
    requires Alike(events) && EstimateTokens(events) > target && forall ts :: calendar(ts) == Some(hour)
    ensures PlannedParcels(calendar, events, target) == Numbered(hour, Chunks(events, target))
  {
    hide EstimateTokens, Chunks, KeysOf, Filter, Sort, SessionChunks, Numbered;
    OneGroup(HourOf(calendar), events, hour);
    AlikeSorted(events);
    assert PlannedHours(calendar, events) == map[hour := events];
    var hours := HoursInOrder({hour});
    OneListed(hours, hour);
    assert Listed(map[hour := events], hours, 1) == [events];
    AlikeSession(events, target);
    assert ParcelsOf(hours, [events], target, 0) == [];
    assert [] + HourParcels(hour, events, target) == HourParcels(hour, events, target);
  }

  /** For a target that is neither safe nor high, the crowded rows become one packet out of bounds. */
  lemma {:induction false} BoundFails(calendar: Calendar, hour: Hour, target: nat, cheap: nat)
    requires target < U32 <= target + MAX_ROW_TOKENS && target < HIGH_TARGET && cheap == CHEAP_ROWS
    requires forall ts :: calendar(ts) == Some(hour)
    ensures !PacketsWithinRounding(Plan(calendar, CrowdedRows(cheap), target, {}), target)
  {
    hide EstimateTokens, Chunks, PlannedHours, Parcels, SessionIds, CharCount;
    var rows := CrowdedRows(cheap);
    CrowdedEstimate(cheap);
    CrowdedRowsStayTogether(cheap, target);
    AlikePlan(calendar, hour, rows, target);
    var packet := Plan(calendar, rows, target, {})[0];
    assert packet.eventCount == cheap + 3 && packet.estimatedTokens == U32 - 1;
  }

  /** Exactly which targets bound every packet of several events, whatever the input. */
  lemma {:induction false} TokenBoundIff(target: nat)
    requires target < U32
    ensures (forall calendar, events, cached ::
            PacketsWithinRounding(Plan(calendar, events, target, cached), target)) <==>
            target + MAX_ROW_TOKENS < U32 || target >= HIGH_TARGET
  {
    hide Plan, PacketsWithinRounding, Readable, TotalTokens;
    if target + MAX_ROW_TOKENS < U32 || target >= HIGH_TARGET {
      forall calendar, events, cached ensures PacketsWithinRounding(Plan(calendar, events, target, cached), target) {
        TokenBound(calendar, events, target, cached);
      }
    } else {
      var calendar: Calendar := ts => Some(("", ""));
      BoundFails(calendar, ("", ""), target, CHEAP_ROWS);
    }
  }
}
