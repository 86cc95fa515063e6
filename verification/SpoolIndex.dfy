/** The sidecar time index of a `.windows.jsonl` spool file: rebuilding it, checking its shape,
    binary search over its sorted entries and coalescing selected entries into byte ranges. */
module SpoolIndex {
  import opened Orders
  import opened SpoolLines

  const INDEX_SCHEMA_VERSION: nat := 1

  /** How a line's bytes (without newline) give its primary time by scanning the JSON prefix. */
  type PrefixTime = Bytes -> Option<int>

  datatype Fingerprint = Fingerprint(byteCount: nat, modified: Option<int>)

  datatype Entry = Entry(time: int, line: nat, start: nat, end: nat)

  datatype Unindexed = Unindexed(line: nat, start: nat, end: nat)

  datatype Index = Index(
    schema: nat,
    source: Fingerprint,
    totalLines: nat,
    indexedLines: nat,
    emptyLines: nat,
    unindexed: seq<Unindexed>,
    entries: seq<Entry>)
  {
    predicate IsComplete() { unindexed == [] }
  }

  datatype Range = Range(byteStart: nat, byteEnd: nat, lineStart: nat, lineEnd: nat, entryCount: nat)

  datatype RangeLookup = RangeLookup(
    byteCount: nat,
    totalLines: nat,
    selectedEntryCount: nat,
    indexedEntryCount: nat,
    ranges: seq<Range>)

  datatype ShapeError = EntryCountMismatch | LineCountMismatch | EmptyByteRange(line: nat) | Unsorted

  // ----- what an index of given lines is

  predicate Blank(l: Line) { TrimNewline(l.bytes) == [] }

  predicate Timed(pt: PrefixTime, l: Line) { !Blank(l) && pt(TrimNewline(l.bytes)).Some? }

  predicate Untimed(pt: PrefixTime, l: Line) { !Blank(l) && pt(TrimNewline(l.bytes)).None? }

  predicate TimedIn(pt: PrefixTime, from: int, to: int, l: Line) {
    Timed(pt, l) && from <= pt(TrimNewline(l.bytes)).value <= to
  }

  function IsBlank(): Line -> bool { l => Blank(l) }
  function IsTimed(pt: PrefixTime): Line -> bool { l => Timed(pt, l) }
  function IsUntimed(pt: PrefixTime): Line -> bool { l => Untimed(pt, l) }
  function IsTimedIn(pt: PrefixTime, from: int, to: int): Line -> bool {
    l => TimedIn(pt, from, to, l)
  }
  function InWindow(from: int, to: int): Entry -> bool { (e: Entry) => from <= e.time <= to }

  function TimeOf(pt: PrefixTime, l: Line): int {
    match pt(TrimNewline(l.bytes)) case Some(t) => t case None => 0
  }

  function EntryAt(pt: PrefixTime, l: Line): Entry {
    Entry(TimeOf(pt, l), l.number, l.start, l.End())
  }

  function EntryOf(pt: PrefixTime): Line -> Entry { l => EntryAt(pt, l) }

  function UnindexedAt(l: Line): Unindexed { Unindexed(l.number, l.start, l.End()) }

  function UnindexedOf(): Line -> Unindexed { l => UnindexedAt(l) }

  predicate EntryLe(a: Entry, b: Entry) {
    a.time < b.time || (a.time == b.time &&
    (a.line < b.line || (a.line == b.line && a.start <= b.start)))
  }

  predicate StartLe(a: Entry, b: Entry) {
    a.start < b.start || (a.start == b.start && a.line <= b.line)
  }

  ghost predicate SortedByTime(entries: seq<Entry>) {
    forall i, j | 0 <= i < j < |entries| :: entries[i].time <= entries[j].time
  }

  function FileEntries(pt: PrefixTime, lines: seq<Line>): (es: seq<Entry>) {
    Map(EntryOf(pt), Filter(IsTimed(pt), lines))
  }

  /** The index of a file read as `lines`, with the fingerprint taken before reading. */
  function IndexOf(pt: PrefixTime, source: Fingerprint, lines: seq<Line>): (index: Index) {
    Index(
      INDEX_SCHEMA_VERSION,
      source,
      |lines|,
      |Filter(IsTimed(pt), lines)|,
      |Filter(IsBlank(), lines)|,
      Map(UnindexedOf(), Filter(IsUntimed(pt), lines)),
      Sort(EntryLe, FileEntries(pt, lines)))
  }

  /** An index under construction describes the lines read so far, its entries in file order. */
  ghost predicate Describes(pt: PrefixTime, index: Index, done: seq<Line>) {
    && index.schema == INDEX_SCHEMA_VERSION
    && index.totalLines == |done|
    && index.indexedLines == |Filter(IsTimed(pt), done)|
    && index.emptyLines == |Filter(IsBlank(), done)|
    && index.unindexed == Map(UnindexedOf(), Filter(IsUntimed(pt), done))
    && index.entries == FileEntries(pt, done)
  }

  lemma {:induction false} DescribesNext(pt: PrefixTime, index: Index, done: seq<Line>, l: Line)
    requires Describes(pt, index, done)
    ensures var total := index.totalLines + 1;
      Describes(pt,
        if Blank(l) then index.(totalLines := total, emptyLines := index.emptyLines + 1)
        else if Timed(pt, l) then
          index.(totalLines := total, indexedLines := index.indexedLines + 1,
                 entries := index.entries + [EntryAt(pt, l)])
        else index.(totalLines := total, unindexed := index.unindexed + [UnindexedAt(l)]),
        done + [l])
  {
    FilterSnoc(IsTimed(pt), done, l);
    FilterSnoc(IsBlank(), done, l);
    FilterSnoc(IsUntimed(pt), done, l);
    MapSnoc(EntryOf(pt), Filter(IsTimed(pt), done), l);
    MapSnoc(UnindexedOf(), Filter(IsUntimed(pt), done), l);
  }

  lemma {:induction false} NothingDescribed(pt: PrefixTime, source: Fingerprint)
    ensures Describes(pt, Index(INDEX_SCHEMA_VERSION, source, 0, 0, 0, [], []), [])
  {
  }

  lemma {:induction false} SortedDescription(pt: PrefixTime, index: Index, lines: seq<Line>)
    requires Describes(pt, index, lines)
    ensures index.(entries := Sort(EntryLe, index.entries)) == IndexOf(pt, index.source, lines)
  {
  }

  /** The loop of a rebuild over the lines of the file, then the sort of its entries. */
  method RebuildIndex(pt: PrefixTime, source: Fingerprint, data: Bytes) returns (index: Index)
    ensures index == IndexOf(pt, source, Lines(data))
  {
    hide Describes, IndexOf, TrimNewline;
    var lines := ReadLines(data, 0, 0);
    index := Index(INDEX_SCHEMA_VERSION, source, 0, 0, 0, [], []);
    NothingDescribed(pt, source);
    for k := 0 to |lines|
      invariant Describes(pt, index, lines[..k]) && index.source == source
    {
      var line := lines[k];
      DescribesNext(pt, index, lines[..k], line);
      assert lines[..k + 1] == lines[..k] + [line];
      index := index.(totalLines := index.totalLines + 1);
      var trimmed := TrimNewline(line.bytes);
      if trimmed == [] {
        index := index.(emptyLines := index.emptyLines + 1);
      } else if pt(trimmed).Some? {
        index := index.(indexedLines := index.indexedLines + 1,
                        entries := index.entries + [Entry(pt(trimmed).value, line.number, line.start, line.End())]);
      } else {
        index := index.(unindexed := index.unindexed + [Unindexed(line.number, line.start, line.End())]);
      }
    }
    assert lines[..|lines|] == lines;
    SortedDescription(pt, index, lines);
    index := index.(entries := Sort(EntryLe, index.entries));
  }

  // ----- shape check

  ghost predicate ShapeOk(index: Index) {
    && index.indexedLines == |index.entries|
    && index.indexedLines + index.emptyLines + |index.unindexed| == index.totalLines
    && (forall i | 0 <= i < |index.entries| :: index.entries[i].start < index.entries[i].end)
    && SortedByTime(index.entries)
  }

  method IndexShapeError(index: Index) returns (error: Option<ShapeError>)
    ensures error.None? <==> ShapeOk(index)
  {
    if index.indexedLines != |index.entries| {
      return Some(EntryCountMismatch);
    }
    var accounted := index.indexedLines + index.emptyLines + |index.unindexed|;
    if accounted != index.totalLines {
      return Some(LineCountMismatch);
    }
    var previous: Option<int> := None;
    for i := 0 to |index.entries|
      invariant forall j | 0 <= j < i :: index.entries[j].start < index.entries[j].end
      invariant SortedByTime(index.entries[..i])
      invariant previous == if i == 0 then None else Some(index.entries[i - 1].time)
    {
      var entry := index.entries[i];
      if entry.start >= entry.end {
        return Some(EmptyByteRange(entry.line));
      }
      if previous.Some? && entry.time < previous.value {
        return Some(Unsorted);
      }
      previous := Some(entry.time);
    }
    assert index.entries[..|index.entries|] == index.entries;
    return None;
  }

  lemma {:induction false} EntryLeOrder()
    ensures TotalPreorder(EntryLe)
  {
  }

  lemma {:induction false} EntryLeTime(entries: seq<Entry>)
    requires SortedBy(EntryLe, entries)
    ensures SortedByTime(entries)
  {
    forall i, j | 0 <= i < j < |entries| ensures entries[i].time <= entries[j].time {
      assert EntryLe(entries[i], entries[j]);
    }
  }

  lemma {:induction false} KindsPartition(pt: PrefixTime, lines: seq<Line>)
    ensures |Filter(IsTimed(pt), lines)| + |Filter(IsBlank(), lines)| + |Filter(IsUntimed(pt), lines)| == |lines|
  {
    if lines != [] {
      KindsPartition(pt, lines[1..]);
    }
  }

  /** Every index built from non-empty lines passes the shape check, whatever the file holds. */
  lemma {:induction false} RebuiltIndexPassesShape(pt: PrefixTime, source: Fingerprint, lines: seq<Line>)
    requires forall l | l in lines :: l.bytes != []
    ensures ShapeOk(IndexOf(pt, source, lines))
  {
    var index := IndexOf(pt, source, lines);
    KindsPartition(pt, lines);
    EntryLeOrder();
    SortSorted(EntryLe, FileEntries(pt, lines));
    EntryLeTime(index.entries);
    SortMembers(EntryLe, FileEntries(pt, lines));
    forall i | 0 <= i < |index.entries| ensures index.entries[i].start < index.entries[i].end {
      assert index.entries[i] in FileEntries(pt, lines);
      var k :| 0 <= k < |FileEntries(pt, lines)| && FileEntries(pt, lines)[k] == index.entries[i];
      FilterMember(IsTimed(pt), lines, Filter(IsTimed(pt), lines)[k]);
    }
  }

  // ----- binary searches

  method LowerBoundTime(entries: seq<Entry>, time: int) returns (left: nat)
    requires SortedByTime(entries)
    ensures left <= |entries|
    ensures forall i | 0 <= i < left :: entries[i].time < time
    ensures forall i | left <= i < |entries| :: time <= entries[i].time
  {
    left := 0;
    var right := |entries|;
    while left < right
      invariant left <= right <= |entries|
      invariant forall i | 0 <= i < left :: entries[i].time < time
      invariant forall i | right <= i < |entries| :: time <= entries[i].time
    {
      var mid := left + (right - left) / 2;
      if entries[mid].time < time {
        left := mid + 1;
      } else {
        right := mid;
      }
    }
  }

  method UpperBoundTime(entries: seq<Entry>, time: int) returns (left: nat)
    requires SortedByTime(entries)
    ensures left <= |entries|
    ensures forall i | 0 <= i < left :: entries[i].time <= time
    ensures forall i | left <= i < |entries| :: time < entries[i].time
  {
    left := 0;
    var right := |entries|;
    while left < right
      invariant left <= right <= |entries|
      invariant forall i | 0 <= i < left :: entries[i].time <= time
      invariant forall i | right <= i < |entries| :: time < entries[i].time
    {
      var mid := left + (right - left) / 2;
      if entries[mid].time <= time {
        left := mid + 1;
      } else {
        right := mid;
      }
    }
  }

  lemma {:induction false} WindowSlice(entries: seq<Entry>, from: int, to: int, lo: nat, hi: nat)
    requires lo <= hi <= |entries|
    requires forall i | 0 <= i < lo :: entries[i].time < from
    requires forall i | lo <= i < |entries| :: from <= entries[i].time
    requires forall i | 0 <= i < hi :: entries[i].time <= to
    requires forall i | hi <= i < |entries| :: to < entries[i].time
    ensures entries[lo..hi] == Filter(InWindow(from, to), entries)
  {
    ThreeParts(InWindow(from, to), entries[..lo], entries[lo..hi], entries[hi..]);
    assert entries == entries[..lo] + entries[lo..hi] + entries[hi..];
  }

  lemma {:induction false} ThreeParts(p: Entry -> bool, a: seq<Entry>, b: seq<Entry>, c: seq<Entry>)
    requires forall i | 0 <= i < |a| :: !p(a[i])
    requires forall i | 0 <= i < |b| :: p(b[i])
    requires forall i | 0 <= i < |c| :: !p(c[i])
    ensures Filter(p, a + b + c) == b
  {
    FilterConcat(p, a + b, c);
    FilterConcat(p, a, b);
    FilterNone(p, a);
    FilterAll(p, b);
    FilterNone(p, c);
  }

  lemma {:induction false} BoundsMeet(entries: seq<Entry>, from: int, to: int, lo: nat, hi: nat)
    requires from <= to && lo <= |entries| && hi <= |entries|
    requires forall i | 0 <= i < lo :: entries[i].time < from
    requires forall i | hi <= i < |entries| :: to < entries[i].time
    ensures lo <= hi
  {
    assert hi < |entries| ==> to < entries[hi].time;
  }

  // ----- coalescing

  /** What `coalesce_ranges` does with one more entry. */
  function Absorb(ranges: seq<Range>, e: Entry): (r: seq<Range>) {
    if ranges != [] && ranges[|ranges| - 1].byteEnd == e.start
       && ranges[|ranges| - 1].lineEnd + 1 == e.line then
      var last := ranges[|ranges| - 1];
      ranges[..|ranges| - 1] +
      [last.(byteEnd := e.end, lineEnd := e.line, entryCount := last.entryCount + 1)]
    else
      ranges + [Range(e.start, e.end, e.line, e.line, 1)]
  }

  function Coalesce(entries: seq<Entry>): (ranges: seq<Range>) {
    if entries == [] then []
    else Absorb(Coalesce(entries[..|entries| - 1]), entries[|entries| - 1])
  }

  method CoalesceRanges(entries: seq<Entry>) returns (ranges: seq<Range>)
    ensures ranges == Coalesce(entries)
  {
    ranges := [];
    for i := 0 to |entries|
      invariant ranges == Coalesce(entries[..i])
    {
      var entry := entries[i];
      assert entries[..i + 1][..i] == entries[..i];
      if ranges != [] && ranges[|ranges| - 1].byteEnd == entry.start
         && ranges[|ranges| - 1].lineEnd + 1 == entry.line {
        var range := ranges[|ranges| - 1];
        ranges := ranges[|ranges| - 1 :=
          range.(byteEnd := entry.end, lineEnd := entry.line, entryCount := range.entryCount + 1)];
      } else {
        ranges := ranges + [Range(entry.start, entry.end, entry.line, entry.line, 1)];
      }
    }
    assert entries[..|entries|] == entries;
  }

  /** A range lies exactly on whole lines and counts them. */
  ghost predicate Aligned(lines: seq<Line>, r: Range) {
    && 1 <= r.lineStart <= r.lineEnd <= |lines|
    && r.byteStart == lines[r.lineStart - 1].start
    && r.byteEnd == lines[r.lineEnd - 1].End()
    && r.entryCount == r.lineEnd - r.lineStart + 1
  }

  ghost predicate AllAligned(lines: seq<Line>, ranges: seq<Range>) {
    forall i | 0 <= i < |ranges| :: Aligned(lines, ranges[i])
  }

  /** Between two ranges there is at least one line, so no two of them could be one. */
  ghost predicate Separated(ranges: seq<Range>) {
    forall i | 0 < i < |ranges| :: ranges[i - 1].lineEnd + 1 < ranges[i].lineStart
  }

  function Span(lines: seq<Line>, r: Range): (s: seq<Line>) {
    if 1 <= r.lineStart <= r.lineEnd <= |lines| then Sub(lines, r.lineStart - 1, r.lineEnd) else []
  }

  /** The lines that the first `n` ranges span, in order. */
  function Covered(lines: seq<Line>, ranges: seq<Range>, n: nat): (r: seq<Line>)
    requires n <= |ranges|
  {
    if n == 0 then [] else Covered(lines, ranges, n - 1) + Span(lines, ranges[n - 1])
  }

  lemma {:induction false} CoveredPrefix(lines: seq<Line>, a: seq<Range>, b: seq<Range>, n: nat)
    requires n <= |a| && n <= |b| && forall i | 0 <= i < n :: a[i] == b[i]
    ensures Covered(lines, a, n) == Covered(lines, b, n)
  {
    if n > 0 {
      CoveredPrefix(lines, a, b, n - 1);
    }
  }

  lemma {:induction false} SpanGrows(lines: seq<Line>, last: Range, grown: Range)
    requires 1 <= last.lineStart <= last.lineEnd < |lines|
    requires grown.lineStart == last.lineStart && grown.lineEnd == last.lineEnd + 1
    ensures Span(lines, grown) == Span(lines, last) + [lines[last.lineEnd]]
  {
    SubSnoc(lines, last.lineStart - 1, last.lineEnd);
  }

  lemma {:induction false} AbsorbAdjacent(lines: seq<Line>, ranges: seq<Range>, e: Entry, k: nat)
    requires k < |lines| && e.line == k + 1 && e.start == lines[k].start && e.end == lines[k].End()
    requires AllAligned(lines, ranges) && Separated(ranges)
    requires ranges != [] && ranges[|ranges| - 1].lineEnd == k && lines[k - 1].End() == lines[k].start
    ensures CoversThrough(lines, k + 1, Absorb(ranges, e), Covered(lines, ranges, |ranges|) + [lines[k]])
  {
    hide Span;
    var m, r := |ranges| - 1, Absorb(ranges, e);
    assert |r| == m + 1 && forall i | 0 <= i < m :: r[i] == ranges[i];
    CoveredPrefix(lines, r, ranges, m);
    SpanGrows(lines, ranges[m], r[m]);
    ConcatAssoc(Covered(lines, ranges, m), Span(lines, ranges[m]), [lines[k]]);
  }

  lemma {:induction false} AbsorbApart(lines: seq<Line>, ranges: seq<Range>, e: Entry, k: nat)
    requires k < |lines| && e.line == k + 1 && e.start == lines[k].start && e.end == lines[k].End()
    requires AllAligned(lines, ranges) && Separated(ranges)
    requires ranges != [] ==> ranges[|ranges| - 1].lineEnd < k
    ensures CoversThrough(lines, k + 1, Absorb(ranges, e), Covered(lines, ranges, |ranges|) + [lines[k]])
  {
    var m, r := |ranges|, Absorb(ranges, e);
    assert |r| == m + 1 && forall i | 0 <= i < m :: r[i] == ranges[i];
    CoveredPrefix(lines, r, ranges, m);
    assert Span(lines, r[m]) == [lines[k]];
  }

  /** Whole-line ranges over the first `k` lines that cover exactly `chosen`, with as few ranges as
      possible. */
  ghost predicate CoversThrough(lines: seq<Line>, k: nat, ranges: seq<Range>, chosen: seq<Line>) {
    && AllAligned(lines, ranges) && Separated(ranges)
    && (ranges != [] ==> ranges[|ranges| - 1].lineEnd <= k)
    && Covered(lines, ranges, |ranges|) == chosen
  }

  /** Absorbing the entry of line `k` into ranges over earlier lines covers line `k` as well. */
  lemma {:induction false} AbsorbLine(lines: seq<Line>, ranges: seq<Range>, e: Entry, k: nat, chosen: seq<Line>)
    requires Tiled(lines) && k < |lines|
    requires e.line == k + 1 && e.start == lines[k].start && e.end == lines[k].End()
    requires CoversThrough(lines, k, ranges, chosen)
    ensures CoversThrough(lines, k + 1, Absorb(ranges, e), chosen + [lines[k]])
  {
    if ranges != [] && ranges[|ranges| - 1].lineEnd == k {
      AbsorbAdjacent(lines, ranges, e, k);
    } else {
      AbsorbApart(lines, ranges, e, k);
    }
  }

  lemma {:induction false} CoalesceSnoc(entries: seq<Entry>, e: Entry)
    ensures Coalesce(entries + [e]) == Absorb(Coalesce(entries), e)
  {
    assert (entries + [e])[..|entries|] == entries;
  }

  lemma {:induction false} CoversNext(lines: seq<Line>, p: Line -> bool, k: nat, ranges: seq<Range>, e: Entry)
    requires Tiled(lines) && k < |lines| && CoversThrough(lines, k, ranges, Filter(p, lines[..k]))
    requires e.line == k + 1 && e.start == lines[k].start && e.end == lines[k].End()
    ensures CoversThrough(lines, k + 1, if p(lines[k]) then Absorb(ranges, e) else ranges, Filter(p, lines[..k + 1]))
  {
    hide Covered, Absorb, Tiled;
    assert lines[..k + 1] == lines[..k] + [lines[k]];
    FilterSnoc(p, lines[..k], lines[k]);
    if p(lines[k]) {
      AbsorbLine(lines, ranges, e, k, Filter(p, lines[..k]));
    }
  }

  lemma {:induction false} CoalesceNext(pt: PrefixTime, lines: seq<Line>, p: Line -> bool, k: nat)
    requires k < |lines|
    ensures Coalesce(Map(EntryOf(pt), Filter(p, lines[..k + 1])))
         == if p(lines[k]) then Absorb(Coalesce(Map(EntryOf(pt), Filter(p, lines[..k]))), EntryAt(pt, lines[k]))
            else Coalesce(Map(EntryOf(pt), Filter(p, lines[..k])))
  {
    assert lines[..k + 1] == lines[..k] + [lines[k]];
    FilterSnoc(p, lines[..k], lines[k]);
    MapSnoc(EntryOf(pt), Filter(p, lines[..k]), lines[k]);
    CoalesceSnoc(Map(EntryOf(pt), Filter(p, lines[..k])), EntryAt(pt, lines[k]));
  }

  /** Coalescing the entries of any selection of lines gives ranges of whole lines that cover
      exactly the selected lines in file order, each range counting its lines. */
  lemma {:induction false} CoalesceExact(pt: PrefixTime, lines: seq<Line>, p: Line -> bool, k: nat)
    requires Tiled(lines) && k <= |lines|
    ensures CoversThrough(lines, k, Coalesce(Map(EntryOf(pt), Filter(p, lines[..k]))), Filter(p, lines[..k]))
  {
    if k > 0 {
      CoalesceExact(pt, lines, p, k - 1);
      CoalesceNext(pt, lines, p, k - 1);
      CoversNext(lines, p, k - 1, Coalesce(Map(EntryOf(pt), Filter(p, lines[..k - 1]))),
                 EntryAt(pt, lines[k - 1]));
    }
  }

  // ----- query

  /** `WindowsJsonlTimeIndex::query`: two binary searches, a re-sort by offset, coalescing. */
  method Query(index: Index, from: int, to: int) returns (lookup: RangeLookup)
    requires from <= to && SortedByTime(index.entries)
    ensures var selected := Sort(StartLe, Filter(InWindow(from, to), index.entries));
            lookup == RangeLookup(index.source.byteCount, index.totalLines, |selected|,
                                  |index.entries|, Coalesce(selected))
  {
    var start := LowerBoundTime(index.entries, from);
    var end := UpperBoundTime(index.entries, to);
    BoundsMeet(index.entries, from, to, start, end);
    WindowSlice(index.entries, from, to, start, end);
    var selected := Sort(StartLe, index.entries[start..end]);
    var ranges := CoalesceRanges(selected);
    lookup := RangeLookup(index.source.byteCount, index.totalLines, |selected|, |index.entries|, ranges);
  }

  lemma {:induction false} MapFilter(pt: PrefixTime, from: int, to: int, lines: seq<Line>)
    ensures Filter(InWindow(from, to), FileEntries(pt, lines))
         == Map(EntryOf(pt), Filter(IsTimedIn(pt, from, to), lines))
  {
    if lines != [] {
      var n := |lines| - 1;
      MapFilter(pt, from, to, lines[..n]);
      assert lines == lines[..n] + [lines[n]];
      FilterSnoc(IsTimed(pt), lines[..n], lines[n]);
      FilterSnoc(IsTimedIn(pt, from, to), lines[..n], lines[n]);
      MapSnoc(EntryOf(pt), Filter(IsTimed(pt), lines[..n]), lines[n]);
      FilterSnoc(InWindow(from, to), FileEntries(pt, lines[..n]), EntryAt(pt, lines[n]));
      MapSnoc(EntryOf(pt), Filter(IsTimedIn(pt, from, to), lines[..n]), lines[n]);
    }
  }

  predicate LineBefore(a: Line, b: Line) { a.start < b.start && a.number < b.number }

  lemma {:induction false} LinesAscend(lines: seq<Line>)
    requires Tiled(lines)
    ensures SortedBy(LineBefore, lines)
  {
    forall i, j | 0 <= i < j < |lines| ensures LineBefore(lines[i], lines[j]) {
      TiledOrdered(lines, i, j);
    }
  }

  lemma {:induction false} StartLeOrder()
    ensures TotalPreorder(StartLe)
  {
  }

  /** Sorting the time-ordered selection by offset restores file order: the selected entries are
      exactly those of the lines timed in the window. */
  lemma {:induction false} SelectedInFileOrder(pt: PrefixTime, lines: seq<Line>, from: int, to: int)
    requires Tiled(lines)
    ensures Sort(StartLe, Filter(InWindow(from, to), Sort(EntryLe, FileEntries(pt, lines))))
         == Map(EntryOf(pt), Filter(IsTimedIn(pt, from, to), lines))
  {
    var inFile := Map(EntryOf(pt), Filter(IsTimedIn(pt, from, to), lines));
    EntryLeOrder();
    SortFilter(EntryLe, InWindow(from, to), FileEntries(pt, lines));
    MapFilter(pt, from, to, lines);
    SortPermutes(EntryLe, inFile);
    SortPermutes(StartLe, Sort(EntryLe, inFile));
    StartLeOrder();
    SortSorted(StartLe, Sort(EntryLe, inFile));
    StrictlyAscending(pt, lines, from, to);
    SortedUnique(StartLe, inFile, Sort(StartLe, Sort(EntryLe, inFile)));
  }

  lemma {:induction false} StrictlyAscending(pt: PrefixTime, lines: seq<Line>, from: int, to: int)
    requires Tiled(lines)
    ensures var inFile := Map(EntryOf(pt), Filter(IsTimedIn(pt, from, to), lines));
            && SortedBy(StartLe, inFile)
            && forall x, y | x in inFile && y in inFile && StartLe(x, y) && StartLe(y, x) :: x == y
  {
    hide Filter, IsTimedIn;
    var chosen := Filter(IsTimedIn(pt, from, to), lines);
    var inFile := Map(EntryOf(pt), chosen);
    LinesAscend(lines);
    FilterSorted(LineBefore, IsTimedIn(pt, from, to), lines);
    forall i, j | 0 <= i < j < |inFile| ensures inFile[i].start < inFile[j].start {
      assert LineBefore(chosen[i], chosen[j]);
    }
    StartsSeparate(inFile);
  }

  lemma {:induction false} StartsSeparate(entries: seq<Entry>)
    requires forall i, j | 0 <= i < j < |entries| :: entries[i].start < entries[j].start
    ensures SortedBy(StartLe, entries)
    ensures forall x, y | x in entries && y in entries && StartLe(x, y) && StartLe(y, x) :: x == y
  {
  }
}
