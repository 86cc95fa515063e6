/** What packing keeps: every readable event ends up in exactly one packet, and counts add up. */
module PacketConservation {
  import opened Orders
  import opened Grouping
  import opened PacketRows
  import opened PacketPlanner
  import opened SourcePackets

  function Contents(parcels: seq<Parcel>): (ss: seq<seq<Event>>)
    ensures |ss| == |parcels| && forall i | 0 <= i < |parcels| :: ss[i] == parcels[i].events
  {
    seq(|parcels|, i requires 0 <= i < |parcels| => parcels[i].events)
  }

  function Packed(parcels: seq<Parcel>): (events: seq<Event>) { Flatten(Contents(parcels)) }

  lemma {:induction false} PackedConcat(a: seq<Parcel>, b: seq<Parcel>)
    ensures Packed(a + b) == Packed(a) + Packed(b)
  {
    assert Contents(a + b) == Contents(a) + Contents(b);
    FlattenConcat(Contents(a), Contents(b));
  }

  lemma {:induction false} PackRowsConserves(rows: seq<Event>, target: nat)
    ensures Flatten(PackRows(rows, target)) == rows
  {
    hide EstimateTokens, Chunks;
    ChunksPartition(rows, target);
    FlattenSnoc([], rows);
    assert [] + [rows] == [rows] && [] + rows == rows;
  }

  lemma {:induction false} PackSessionConserves(packed: seq<seq<Event>>, rows: seq<Event>, target: nat)
    ensures multiset(Flatten(packed + PackRows(Sort(TsLe, rows), target))) == multiset(Flatten(packed)) + multiset(rows)
  {
    hide PackRows;
    var sorted := Sort(TsLe, rows);
    PackRowsConserves(sorted, target);
    FlattenConcat(packed, PackRows(sorted, target));
    SortPermutes(TsLe, rows);
  }

  lemma {:induction false} PackSessionsConserves(sessions: seq<seq<Event>>, target: nat, n: nat)
    requires n <= |sessions|
    ensures multiset(Flatten(PackSessions(sessions, target, n))) == multiset(Flatten(sessions[..n]))
  {
    hide PackRows, Flatten, Sort;
    if n > 0 {
      PackSessionsConserves(sessions, target, n - 1);
      PackSessionConserves(PackSessions(sessions, target, n - 1), sessions[n - 1], target);
      FlattenSnoc(sessions[..n - 1], sessions[n - 1]);
      assert sessions[..n] == sessions[..n - 1] + [sessions[n - 1]];
    }
  }

  lemma {:induction false} SessionChunksConserve(events: seq<Event>, target: nat)
    ensures multiset(Flatten(SessionChunks(events, target))) == multiset(events)
  {
    hide NamesInOrder, PackSessions, Filter, SessionOf;
    var names := NamesInOrder(Groups(SessionOf, events).Keys);
    assert Groups(SessionOf, events).Keys == KeysOf(SessionOf, events);
    GroupsConserve(SessionOf, events, names);
    AllHaveSession(events);
    var sessions := Sessions(events);
    PackSessionsConserves(sessions, target, |sessions|);
    assert sessions[..|sessions|] == sessions;
  }

  lemma {:induction false} AllHaveSession(events: seq<Event>)
    ensures Filter(Keyed(SessionOf), events) == events
  {
    forall i | 0 <= i < |events| ensures Keyed(SessionOf)(events[i]) {
      assert SessionOf(events[i]).Some?;
    }
    FilterAll(Keyed(SessionOf), events);
  }

  lemma {:induction false} HourConserves(hour: Hour, events: seq<Event>, target: nat)
    ensures multiset(Packed(HourParcels(hour, events, target))) == multiset(events)
  {
    hide EstimateTokens, SessionChunks;
    SessionChunksConserve(events, target);
    var chunks := SessionChunks(events, target);
    assert Contents(Numbered(hour, chunks)) == chunks;
    var whole := Parcel(PacketId(hour, 1, 1, WholeHour), events);
    assert Contents([whole]) == [] + [events];
    FlattenSnoc([], events);
    assert [] + events == events;
  }

  lemma {:induction false} HoursConserve(hours: seq<Hour>, rows: seq<seq<Event>>, target: nat, n: nat)
    requires n <= |hours| && |rows| == |hours|
    ensures multiset(Packed(ParcelsOf(hours, rows, target, n))) == multiset(Flatten(rows[..n]))
  {
    hide HourParcels, Packed;
    if n > 0 {
      HoursConserve(hours, rows, target, n - 1);
      HourConserves(hours[n - 1], rows[n - 1], target);
      PackedConcat(ParcelsOf(hours, rows, target, n - 1), HourParcels(hours[n - 1], rows[n - 1], target));
      FlattenSnoc(rows[..n - 1], rows[n - 1]);
      assert rows[..n] == rows[..n - 1] + [rows[n - 1]];
    } else {
      assert Packed([]) == [] by {
        NothingPacked();
      }
    }
  }

  lemma {:induction false} NothingPacked()
    ensures Packed([]) == []
  {
  }

  function Readable(calendar: Calendar, events: seq<Event>): (r: seq<Event>) {
    Filter(Keyed(HourOf(calendar)), events)
  }

  /** Every event with a readable timestamp is packed exactly as often as it occurs. */
  lemma {:induction false} EveryEventPackedOnce(calendar: Calendar, events: seq<Event>, target: nat)
    ensures multiset(Packed(PlannedParcels(calendar, events, target))) == multiset(Readable(calendar, events))
  {
    hide HoursInOrder, Packed, KeysOf, ParcelsOf, Filter;
    var key := HourOf(calendar);
    var sorted := Sort(TsLe, Readable(calendar, events));
    var groups := PlannedHours(calendar, events);
    var hours := HoursInOrder(groups.Keys);
    GroupKeys(key, sorted);
    GroupsConserve(key, sorted, hours);
    var rows := Listed(groups, hours, |hours|);
    HoursConserve(hours, rows, target, |hours|);
    assert rows[..|hours|] == rows;
    AllReadable(calendar, events);
    SortPermutes(TsLe, Readable(calendar, events));
  }

  lemma {:induction false} AllReadable(calendar: Calendar, events: seq<Event>)
    ensures var sorted := Sort(TsLe, Readable(calendar, events));
      Filter(Keyed(HourOf(calendar)), sorted) == sorted
  {
    var key := HourOf(calendar);
    var sorted := Sort(TsLe, Readable(calendar, events));
    SortMembers(TsLe, Readable(calendar, events));
    FilterMembers(Keyed(key), events);
    forall i | 0 <= i < |sorted| ensures Keyed(key)(sorted[i]) {
      assert sorted[i] in sorted;
    }
    FilterAll(Keyed(key), sorted);
  }

  // ----- counts

  function EventCounts(packets: seq<Packet>, n: nat): (total: nat)
    requires n <= |packets|
  {
    if n == 0 then 0 else EventCounts(packets, n - 1) + packets[n - 1].eventCount
  }

  function CharCounts(packets: seq<Packet>, n: nat): (total: nat)
    requires n <= |packets|
  {
    if n == 0 then 0 else CharCounts(packets, n - 1) + packets[n - 1].charCount
  }

  lemma {:induction false} WrapSum(a: nat, b: nat)
    ensures Wrap(a + b) == Wrap(Wrap(a) + Wrap(b))
  {
  }

  lemma {:induction false} CountsAdd(parcels: seq<Parcel>, cached: set<PacketId>, n: nat)
    requires n <= |parcels|
    ensures var packets := Described(parcels, cached);
      && EventCounts(packets, n) == |Packed(parcels[..n])|
      && Wrap(CharCounts(packets, n)) == CharCount(Packed(parcels[..n]))
      && CharCounts(packets, n) <= TotalChars(Packed(parcels[..n]))
      && (TotalChars(Packed(parcels[..n])) < U32 ==> CharCounts(packets, n) == TotalChars(Packed(parcels[..n])))
  {
    hide Packed, Wrap, TotalChars, EstimateTokens, SessionIds;
    if n == 0 {
      NothingPacked();
      NoChars();
    } else {
      var last := parcels[n - 1];
      CountsAdd(parcels, cached, n - 1);
      assert parcels[..n] == parcels[..n - 1] + [last];
      PackedConcat(parcels[..n - 1], [last]);
      PackedOne(last);
      TotalsConcat(Packed(parcels[..n - 1]), last.events);
      WrapSum(TotalChars(Packed(parcels[..n - 1])), TotalChars(last.events));
      WrapSum(CharCounts(Described(parcels, cached), n - 1), CharCount(last.events));
      WrapWrap(TotalChars(last.events));
    }
  }

  lemma {:induction false} WrapWrap(n: nat)
    ensures Wrap(Wrap(n)) == Wrap(n)
  {
  }

  lemma {:induction false} NoChars()
    ensures TotalChars([]) == 0 && Wrap(0) == 0
  {
  }

  lemma {:induction false} PackedOne(parcel: Parcel)
    ensures Packed([parcel]) == parcel.events
  {
    assert Contents([parcel]) == [] + [parcel.events];
    FlattenSnoc([], parcel.events);
    assert [] + parcel.events == parcel.events;
  }

  lemma {:induction false} TotalsOfPermutation(a: seq<Event>, b: seq<Event>)
    requires multiset(a) == multiset(b)
    ensures TotalChars(a) == TotalChars(b) && TotalTokens(a) == TotalTokens(b) && |a| == |b|
  {
    assert |multiset(a)| == |multiset(b)|;
    hide TotalChars, TotalTokens, Event.Chars, Event.Tokens;
    if a != [] {
      var n := |a| - 1;
      assert a == a[..n] + [a[n]];
      assert a[n] in multiset(b);
      var i: nat :| i < |b| && b[i] == a[n];
      WithoutAt(b, i);
      Cancel(a, b, a[..n], b[..i] + b[i + 1..], a[n]);
      TotalsOfPermutation(a[..n], b[..i] + b[i + 1..]);
      TotalsSnoc(a[..n], a[n]);
    }
  }

  lemma {:induction false} Cancel(a: seq<Event>, b: seq<Event>, a': seq<Event>, b': seq<Event>, x: Event)
    requires multiset(a) == multiset(b) && a == a' + [x] && multiset(b) == multiset(b') + multiset{x}
    ensures multiset(a') == multiset(b')
  {
    assert multiset(a') == multiset(a) - multiset{x};
    assert multiset(b') == multiset(b) - multiset{x};
  }

  lemma {:induction false} WithoutAt(b: seq<Event>, i: nat)
    requires i < |b|
    ensures multiset(b) == multiset(b[..i] + b[i + 1..]) + multiset{b[i]}
    ensures TotalChars(b) == TotalChars(b[..i] + b[i + 1..]) + b[i].Chars()
    ensures TotalTokens(b) == TotalTokens(b[..i] + b[i + 1..]) + b[i].Tokens()
  {
    hide TotalChars, TotalTokens, Event.Chars, Event.Tokens;
    assert b == (b[..i] + [b[i]]) + b[i + 1..];
    TotalsConcat(b[..i], b[i + 1..]);
    TotalsConcat(b[..i] + [b[i]], b[i + 1..]);
    TotalsSnoc(b[..i], b[i]);
  }

  /** The packets' event and character counts add up to those of the readable events; character
      counts are 32-bit, so their sum is exact whenever the true total fits in 32 bits. */
  lemma {:induction false} PlanConservesCounts(calendar: Calendar, events: seq<Event>, target: nat,
                                               cached: set<PacketId>)
    ensures var packets, readable := Plan(calendar, events, target, cached), Readable(calendar, events);
      && EventCounts(packets, |packets|) == |readable|
      && Wrap(CharCounts(packets, |packets|)) == CharCount(readable)
      && (TotalChars(readable) < U32 ==> CharCounts(packets, |packets|) == TotalChars(readable))
  {
    hide PlannedHours, Parcels, Packed, Readable, TotalChars, TotalTokens, Described;
    var parcels := PlannedParcels(calendar, events, target);
    EveryEventPackedOnce(calendar, events, target);
    TotalsOfPermutation(Packed(parcels), Readable(calendar, events));
    CountsAdd(parcels, cached, |parcels|);
    assert parcels[..|parcels|] == parcels;
  }
}
