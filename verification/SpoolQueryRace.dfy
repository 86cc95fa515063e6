/** The query in its two steps: it takes the file's fingerprint and reads the sidecar afterwards, and
    appends and rebuilds may come between. What the index it accepts describes is told by how far the
    rebuild had read that published it. */
module SpoolQueryRace {
  import opened Orders
  import opened SpoolLines
  import opened SpoolIndex
  import opened SpoolReader
  import opened SpoolFile
  import opened SpoolCoherence

  function Taken(s: System): Fingerprint { Fingerprint(|s.data|, s.modified) }

  /** How many bytes the rebuild had read that published last. */
  function StoredLength(pt: PrefixTime, s: System, steps: seq<Step>): (n: nat) {
    if steps == [] then 0
    else
      var last, before := steps[|steps| - 1], steps[..|steps| - 1];
      var scans := Run(pt, s, before).scans;
      if last.Publish? && last.id in scans && scans[last.id].ended then scans[last.id].pos
      else StoredLength(pt, s, before)
  }

  lemma {:induction false} RunSnoc(pt: PrefixTime, s: System, steps: seq<Step>, step: Step)
    ensures Run(pt, s, steps + [step]) == Apply(pt, Run(pt, s, steps), step)
  {
    hide Apply;
    assert (steps + [step])[..|steps|] == steps;
  }

  lemma {:induction false} RunConcat(pt: PrefixTime, s: System, a: seq<Step>, b: seq<Step>)
    ensures Run(pt, s, a + b) == Run(pt, Run(pt, s, a), b)
  {
    hide Apply;
    if b == [] {
      assert a + b == a;
    } else {
      var n := |b| - 1;
      RunConcat(pt, s, a, b[..n]);
      RunSnoc(pt, s, a + b[..n], b[n]);
      assert a + b == (a + b[..n]) + [b[n]];
    }
  }

  // ----- rebuilds that read no further than the size they took

  /** A rebuild that saw the end had read at least what was there when it began, and if no more, exactly
      that. */
  ghost predicate EndKnown(data: Bytes, scan: RebuildScan) {
    scan.ended ==>
      && scan.source.byteCount <= scan.pos <= |data|
      && (scan.pos == scan.source.byteCount ==> scan.done == Lines(data[..scan.pos]))
  }

  ghost predicate StoredKnown(pt: PrefixTime, data: Bytes, sidecar: Sidecar, length: nat) {
    sidecar.Stored? ==>
      && sidecar.index.source.byteCount <= length <= |data|
      && (length == sidecar.index.source.byteCount ==>
            sidecar.index == IndexOf(pt, sidecar.index.source, Lines(data[..length])))
  }

  ghost predicate Known(pt: PrefixTime, s: System, length: nat) {
    (forall id | id in s.scans :: EndKnown(s.data, s.scans[id])) && StoredKnown(pt, s.data, s.sidecar, length)
  }

  lemma {:induction false} PrefixKept(data: Bytes, bytes: Bytes, n: nat)
    requires n <= |data|
    ensures (data + bytes)[..n] == data[..n]
  {
  }

  lemma {:induction false} AppendKeepsKnown(pt: PrefixTime, s: System, bytes: Bytes, modified: Option<int>, length: nat)
    requires Known(pt, s, length)
    ensures Known(pt, s.(data := s.data + bytes, modified := modified), length)
  {
    hide Lines, IndexOf;
    forall id | id in s.scans ensures EndKnown(s.data + bytes, s.scans[id]) {
      if s.scans[id].ended {
        PrefixKept(s.data, bytes, s.scans[id].pos);
      }
    }
    if s.sidecar.Stored? {
      PrefixKept(s.data, bytes, length);
    }
  }

  lemma {:induction false} EndIsKnown(data: Bytes, scan: RebuildScan)
    requires ScanOk(data, scan) && scan.pos == |data|
    ensures EndKnown(data, scan.(ended := true))
  {
    EndKeepsScan(data, scan);
    assert data[..|data|] == data;
  }

  lemma {:induction false} ApplyKeepsKnown(pt: PrefixTime, s: System, step: Step, length: nat)
    requires Inv(pt, s) && Known(pt, s, length)
    ensures var published := step.Publish? && step.id in s.scans && s.scans[step.id].ended;
      Known(pt, Apply(pt, s, step), if published then s.scans[step.id].pos else length)
  {
    hide ScanOk, SidecarOk, NextLine, IndexOf, Lines, EndKnown, StoredKnown;
    match step {
      case Append(bytes, modified) =>
        AppendKeepsKnown(pt, s, bytes, modified, length);
      case StartRebuild(id) =>
        NotEnded(s.data, RebuildScan(Fingerprint(|s.data|, s.modified), [], 0, false));
      case ReadLine(id) =>
        if id in s.scans && !s.scans[id].ended && s.scans[id].pos < |s.data| {
          var l := NextLine(s.data, s.scans[id]);
          NotEnded(s.data, s.scans[id].(done := s.scans[id].done + [l], pos := l.End()));
        }
      case SeeEnd(id) =>
        if id in s.scans && s.scans[id].pos == |s.data| {
          EndIsKnown(s.data, s.scans[id]);
        }
      case Publish(id) =>
        if id in s.scans && s.scans[id].ended {
          PublishKnown(pt, s.data, s.scans[id]);
        }
      case Abandon(id) =>
      case LoseSidecar(left) =>
        NothingStored(pt, s.data, if left then Corrupt else Missing, length);
    }
  }

  lemma {:induction false} NotEnded(data: Bytes, scan: RebuildScan)
    requires !scan.ended
    ensures EndKnown(data, scan)
  {
  }

  lemma {:induction false} PublishKnown(pt: PrefixTime, data: Bytes, scan: RebuildScan)
    requires EndKnown(data, scan) && scan.ended
    ensures StoredKnown(pt, data, Stored(IndexOf(pt, scan.source, scan.done)), scan.pos)
  {
  }

  lemma {:induction false} NothingStored(pt: PrefixTime, data: Bytes, sidecar: Sidecar, length: nat)
    requires !sidecar.Stored?
    ensures StoredKnown(pt, data, sidecar, length)
  {
  }

  lemma {:induction false} RunKeepsKnown(pt: PrefixTime, s0: System, steps: seq<Step>)
    requires Initial(s0)
    ensures Inv(pt, Run(pt, s0, steps)) && Known(pt, Run(pt, s0, steps), StoredLength(pt, s0, steps))
  {
    hide Inv, Known, Apply;
    if steps == [] {
      StartKnown(pt, s0);
    } else {
      var n := |steps| - 1;
      RunKeepsKnown(pt, s0, steps[..n]);
      ApplyKeepsInv(pt, Run(pt, s0, steps[..n]), steps[n]);
      ApplyKeepsKnown(pt, Run(pt, s0, steps[..n]), steps[n], StoredLength(pt, s0, steps[..n]));
    }
  }

  lemma {:induction false} StartKnown(pt: PrefixTime, s0: System)
    requires Initial(s0)
    ensures Inv(pt, s0) && Known(pt, s0, 0)
  {
    NoSidecar(pt, s0.data, s0.sidecar);
  }

  // ----- appends that end at a line boundary

  ghost predicate WholeLines(s0: System, steps: seq<Step>) {
    AtBoundary(s0.data) && forall i | 0 <= i < |steps| && steps[i].Append? :: AtBoundary(steps[i].bytes)
  }

  ghost predicate ScanWhole(data: Bytes, scan: RebuildScan) {
    scan.pos <= |data| && AtBoundary(data[..scan.pos]) && scan.done == Lines(data[..scan.pos])
  }

  ghost predicate StoredWhole(pt: PrefixTime, data: Bytes, sidecar: Sidecar, length: nat) {
    sidecar.Stored? ==> length <= |data| && sidecar.index == IndexOf(pt, sidecar.index.source, Lines(data[..length]))
  }

  ghost predicate Whole(pt: PrefixTime, s: System, length: nat) {
    && AtBoundary(s.data)
    && (forall id | id in s.scans :: ScanWhole(s.data, s.scans[id]))
    && StoredWhole(pt, s.data, s.sidecar, length)
  }

  lemma {:induction false} BoundaryJoined(a: Bytes, b: Bytes)
    requires AtBoundary(a) && AtBoundary(b)
    ensures AtBoundary(a + b)
  {
  }

  lemma {:induction false} AppendKeepsWhole(pt: PrefixTime, s: System, bytes: Bytes, modified: Option<int>, length: nat)
    requires Whole(pt, s, length) && AtBoundary(bytes)
    ensures Whole(pt, s.(data := s.data + bytes, modified := modified), length)
  {
    hide Lines, IndexOf, AtBoundary;
    BoundaryJoined(s.data, bytes);
    forall id | id in s.scans ensures ScanWhole(s.data + bytes, s.scans[id]) {
      PrefixKept(s.data, bytes, s.scans[id].pos);
    }
    if s.sidecar.Stored? {
      PrefixKept(s.data, bytes, length);
    }
  }

  lemma {:induction false} NothingReadYet(data: Bytes, source: Fingerprint)
    ensures ScanWhole(data, RebuildScan(source, [], 0, false))
  {
    assert data[..0] == [];
  }

  /** The next line of a file that ends at a line boundary ends at one. */
  lemma {:induction false} NextPiece(data: Bytes, pos: nat)
    requires AtBoundary(data) && pos < |data|
    ensures var n := LineLength(data[pos..]);
      && 0 < n && pos + n <= |data| && IsLine(data[pos..][..n]) && data[..pos + n] == data[..pos] + data[pos..][..n]
      && AtBoundary(data[..pos + n])
  {
    var rest := data[pos..];
    var n := LineLength(rest);
    FirstLine(rest);
    hide IsLine, LineLength;
    assert rest[|rest| - 1] == data[|data| - 1];
    assert rest[..n][n - 1] == rest[n - 1] == data[pos + n - 1];
  }

  lemma {:induction false} ReadKeepsWhole(data: Bytes, scan: RebuildScan)
    requires AtBoundary(data) && ScanWhole(data, scan) && scan.pos < |data|
    ensures var l := NextLine(data, scan);
      ScanWhole(data, scan.(done := scan.done + [l], pos := l.End()))
  {
    hide Lines, IsLine, LineLength, AtBoundary;
    NextPiece(data, scan.pos);
    LinesSnoc(data[..scan.pos], data[scan.pos..][..LineLength(data[scan.pos..])]);
  }

  lemma {:induction false} ApplyKeepsWhole(pt: PrefixTime, s: System, step: Step, length: nat)
    requires Whole(pt, s, length) && (step.Append? ==> AtBoundary(step.bytes))
    ensures var published := step.Publish? && step.id in s.scans && s.scans[step.id].ended;
      Whole(pt, Apply(pt, s, step), if published then s.scans[step.id].pos else length)
  {
    hide NextLine, IndexOf, Lines, ScanWhole, StoredWhole, AtBoundary;
    match step {
      case Append(bytes, modified) =>
        AppendKeepsWhole(pt, s, bytes, modified, length);
      case StartRebuild(id) =>
        NothingReadYet(s.data, Fingerprint(|s.data|, s.modified));
      case ReadLine(id) =>
        if id in s.scans && !s.scans[id].ended && s.scans[id].pos < |s.data| {
          ReadKeepsWhole(s.data, s.scans[id]);
        }
      case SeeEnd(id) =>
        if id in s.scans && s.scans[id].pos == |s.data| {
          EndKeepsWhole(s.data, s.scans[id]);
        }
      case Publish(id) =>
        if id in s.scans && s.scans[id].ended {
          PublishWhole(pt, s.data, s.scans[id]);
        }
      case Abandon(id) =>
      case LoseSidecar(left) =>
        NoneWhole(pt, s.data, if left then Corrupt else Missing, length);
    }
  }

  lemma {:induction false} EndKeepsWhole(data: Bytes, scan: RebuildScan)
    requires ScanWhole(data, scan)
    ensures ScanWhole(data, scan.(ended := true))
  {
  }

  lemma {:induction false} PublishWhole(pt: PrefixTime, data: Bytes, scan: RebuildScan)
    requires ScanWhole(data, scan)
    ensures StoredWhole(pt, data, Stored(IndexOf(pt, scan.source, scan.done)), scan.pos)
  {
  }

  lemma {:induction false} NoneWhole(pt: PrefixTime, data: Bytes, sidecar: Sidecar, length: nat)
    requires !sidecar.Stored?
    ensures StoredWhole(pt, data, sidecar, length)
  {
  }

  lemma {:induction false} RunKeepsWhole(pt: PrefixTime, s0: System, steps: seq<Step>)
    requires Initial(s0) && WholeLines(s0, steps)
    ensures Whole(pt, Run(pt, s0, steps), StoredLength(pt, s0, steps))
  {
    hide Apply, AtBoundary, ScanWhole, StoredWhole;
    if steps == [] {
      NoneWhole(pt, s0.data, s0.sidecar, 0);
    } else {
      var n := |steps| - 1;
      RunKeepsWhole(pt, s0, steps[..n]);
      ApplyKeepsWhole(pt, Run(pt, s0, steps[..n]), steps[n], StoredLength(pt, s0, steps[..n]));
    }
  }

  // ----- what an accepted index describes

  /** Whatever happens between taking the fingerprint and reading the sidecar: when the rebuild that
      published last had read no further than the fingerprinted size, or when all appends end at a line
      boundary, an accepted index describes exactly the content that this rebuild had read, which is
      the fingerprinted content and perhaps some of what came later. */
  lemma {:induction false} AcceptedIndexDescribes(pt: PrefixTime, s0: System, before: seq<Step>, between: seq<Step>)
    requires Initial(s0)
    requires var n := StoredLength(pt, s0, before + between);
      WholeLines(s0, before + between) || n <= |Run(pt, s0, before).data|
    ensures var s1 := Run(pt, s0, before);
            var s2 := Run(pt, s1, between);
            var n := StoredLength(pt, s0, before + between);
      Refusal(s2.sidecar, Taken(s1)) == None ==>
        && |s1.data| <= n <= |s2.data| && s1.data <= s2.data[..n]
        && s2.sidecar == Stored(IndexOf(pt, Taken(s1), Lines(s2.data[..n])))
  {
    hide Run, StoredLength, IndexOf, Lines, Inv, ShapeOk;
    var steps := before + between;
    var s1 := Run(pt, s0, before);
    var s2 := Run(pt, s1, between);
    RunConcat(pt, s0, before, between);
    RunOnlyGrows(pt, s1, between);
    RunKeepsKnown(pt, s0, steps);
    if WholeLines(s0, steps) {
      RunKeepsWhole(pt, s0, steps);
    }
  }

  /** Exactly when an accepted index is the index of the fingerprinted content, when all appends end at a
      line boundary: when the rebuild that published it had read no further. */
  lemma {:induction false} AcceptedIndexIsCurrentIff(pt: PrefixTime, s0: System, before: seq<Step>, between: seq<Step>)
    requires Initial(s0) && WholeLines(s0, before + between)
    ensures var s1 := Run(pt, s0, before);
            var s2 := Run(pt, s1, between);
      Refusal(s2.sidecar, Taken(s1)) == None ==>
        (s2.sidecar == Stored(IndexOf(pt, Taken(s1), Lines(s1.data))) <==>
         StoredLength(pt, s0, before + between) <= |s1.data|)
  {
    hide Run, StoredLength, IndexOf, Lines, Refusal;
    var s1 := Run(pt, s0, before);
    var s2 := Run(pt, s1, between);
    var n := StoredLength(pt, s0, before + between);
    AcceptedIndexDescribes(pt, s0, before, between);
    WholeRunAtBoundary(pt, s0, before, between);
    if Refusal(s2.sidecar, Taken(s1)) == None {
      if n > |s1.data| {
        MoreLines(s1.data, s2.data[|s1.data|..n]);
        assert s2.data[..n] == s1.data + s2.data[|s1.data|..n];
        IndexTellsLines(pt, Taken(s1), Lines(s1.data), Lines(s2.data[..n]));
      } else {
        assert s2.data[..n] == s1.data;
      }
    }
  }

  lemma {:induction false} WholeRunAtBoundary(pt: PrefixTime, s0: System, before: seq<Step>, between: seq<Step>)
    requires Initial(s0) && WholeLines(s0, before + between)
    ensures AtBoundary(Run(pt, s0, before).data)
  {
    hide Run, AtBoundary, StoredWhole, ScanWhole;
    forall i | 0 <= i < |before| && before[i].Append? ensures AtBoundary(before[i].bytes) {
      assert (before + between)[i] == before[i];
    }
    RunKeepsWhole(pt, s0, before);
  }

  lemma {:induction false} IndexTellsLines(pt: PrefixTime, source: Fingerprint, a: seq<Line>, b: seq<Line>)
    requires |a| != |b|
    ensures IndexOf(pt, source, a) != IndexOf(pt, source, b)
  {
  }

  // ----- rebuilds published after a later append

  /** A rebuild that took this fingerprint is published once the file has grown. */
  ghost predicate PublishedLate(pt: PrefixTime, s1: System, between: seq<Step>) {
    exists m | 0 <= m < |between| ::
      && between[m].Publish? && between[m].id in Run(pt, s1, between[..m]).scans
      && Run(pt, s1, between[..m]).scans[between[m].id].source == Taken(s1)
      && |Run(pt, s1, between[..m]).data| > |s1.data|
  }

  lemma {:induction false} LateOnward(pt: PrefixTime, s1: System, between: seq<Step>, n: nat)
    requires n <= |between| && PublishedLate(pt, s1, between[..n])
    ensures PublishedLate(pt, s1, between)
  {
    hide Run;
    var short := between[..n];
    var m :| 0 <= m < |short| && short[m].Publish? && short[m].id in Run(pt, s1, short[..m]).scans
             && Run(pt, s1, short[..m]).scans[short[m].id].source == Taken(s1)
             && |Run(pt, s1, short[..m]).data| > |s1.data|;
    assert short[..m] == between[..m];
  }

  /** If no rebuild that took the fingerprint is published after a later append, the accepted index was
      published by one that had read no further. */
  lemma {:induction false} ReadNoFurther(pt: PrefixTime, s0: System, before: seq<Step>, between: seq<Step>)
    requires Initial(s0) && !PublishedLate(pt, Run(pt, s0, before), between)
    ensures var s1 := Run(pt, s0, before);
            var s2 := Run(pt, s1, between);
      s2.sidecar.Stored? && s2.sidecar.index.source == Taken(s1) ==>
        StoredLength(pt, s0, before + between) <= |s1.data|
    decreases |between|
  {
    hide Inv, IndexOf, Run, Apply, StoredKnown;
    var s1 := Run(pt, s0, before);
    if between == [] {
      assert before + between == before && Run(pt, s1, between) == s1 by {
        NoSteps(pt, s1);
      }
      RunKeepsKnown(pt, s0, before);
      if s1.sidecar.Stored? {
        StoredWithin(pt, s1, StoredLength(pt, s0, before));
      }
    } else {
      var n := |between| - 1;
      var u, step := Run(pt, s1, between[..n]), between[n];
      assert between == between[..n] + [step];
      RunSnoc(pt, s1, between[..n], step);
      if PublishedLate(pt, s1, between[..n]) {
        LateOnward(pt, s1, between, n);
      }
      ReadNoFurther(pt, s0, before, between[..n]);
      assert (before + between)[..|before + between| - 1] == before + between[..n];
      RunConcat(pt, s0, before, between[..n]);
      RunKeepsKnown(pt, s0, before + between[..n]);
      SidecarAfter(pt, u, step);
      if step.Publish? && step.id in u.scans && u.scans[step.id].ended && u.scans[step.id].source == Taken(s1) {
        assert |u.data| <= |s1.data|;
        assert EndKnown(u.data, u.scans[step.id]);
      }
    }
  }

  lemma {:induction false} NoSteps(pt: PrefixTime, s: System)
    ensures Run(pt, s, []) == s
  {
  }

  lemma {:induction false} StoredWithin(pt: PrefixTime, s: System, length: nat)
    requires Known(pt, s, length) && s.sidecar.Stored?
    ensures length <= |s.data|
  {
    hide IndexOf, Lines;
  }

  /** Only publishing puts an index in place. */
  lemma {:induction false} SidecarAfter(pt: PrefixTime, s: System, step: Step)
    ensures var published := step.Publish? && step.id in s.scans && s.scans[step.id].ended;
            var after := Apply(pt, s, step).sidecar;
      if published then after.Stored? && after.index.source == s.scans[step.id].source
      else after == s.sidecar || !after.Stored?
  {
    hide NextLine, Lines;
  }

  /** Without such a publication an accepted index is that of the fingerprinted content, for any appends. */
  lemma {:induction false} AcceptedIndexIsCurrent(pt: PrefixTime, s0: System, before: seq<Step>, between: seq<Step>)
    requires Initial(s0) && !PublishedLate(pt, Run(pt, s0, before), between)
    ensures var s1 := Run(pt, s0, before);
            var s2 := Run(pt, s1, between);
      Refusal(s2.sidecar, Taken(s1)) == None ==> s2.sidecar == Stored(IndexOf(pt, Taken(s1), Lines(s1.data)))
  {
    hide Run, StoredLength, IndexOf, Lines, ShapeOk, PublishedLate;
    var s1 := Run(pt, s0, before);
    var s2 := Run(pt, s1, between);
    ReadNoFurther(pt, s0, before, between);
    if Refusal(s2.sidecar, Taken(s1)) == None {
      AcceptedIndexDescribes(pt, s0, before, between);
      assert s2.data[..|s1.data|] == s1.data;
    }
  }

  // ----- reading through an accepted index

  /** The ranges that the query takes from an index. */
  function QueryRanges(index: Index, w: Window): (ranges: seq<Range>) {
    Coalesce(Sort(StartLe, Filter(InWindow(w.from, w.to), index.entries)))
  }

  lemma {:induction false} QueryRangesAre(pt: PrefixTime, source: Fingerprint, data: Bytes, w: Window)
    ensures QueryRanges(IndexOf(pt, source, Lines(data)), w) == ExactLookup(pt, Lines(data), |data|, w).ranges
  {
    LinesTiled(data);
    SelectedInFileOrder(pt, Lines(data), w.from, w.to);
  }

  /** End to end: the fingerprint is taken in one state, the sidecar is read and accepted in a later one,
      and the ranges are read in a still later one. The read reports the records and malformed lines of
      a full scan of what the publishing rebuild had read. */
  lemma {:induction false} ReadThroughSidecarIsFullScan(
      dec: Decoder, w: Window, s0: System, before: seq<Step>, between: seq<Step>, after: seq<Step>)
    requires Initial(s0)
    requires var n := StoredLength(dec.prefixTime, s0, before + between);
      WholeLines(s0, before + between) || n <= |Run(dec.prefixTime, s0, before).data|
    ensures var s1 := Run(dec.prefixTime, s0, before);
            var s2 := Run(dec.prefixTime, s1, between);
            var later := Run(dec.prefixTime, s2, after).data;
            var n := StoredLength(dec.prefixTime, s0, before + between);
      Refusal(s2.sidecar, Taken(s1)) == None ==>
        var ranges := QueryRanges(s2.sidecar.index, w);
        && |s1.data| <= n <= |s2.data| && s1.data <= s2.data[..n]
        && AllFit(later, ranges)
        && SameFindings(TallyOf(Scan(dec, w, Tolerant, true), Lines(s2.data[..n])),
                        TallyOf(Indexed(dec), LinesOfRanges(later, ranges, |ranges|)))
  {
    hide Run, IndexOf, ExactLookup, StoredLength, Lines, QueryRanges, ShapeOk, WholeLines;
    var pt := dec.prefixTime;
    var s1 := Run(pt, s0, before);
    var s2 := Run(pt, s1, between);
    var n := StoredLength(pt, s0, before + between);
    AcceptedIndexDescribes(pt, s0, before, between);
    if Refusal(s2.sidecar, Taken(s1)) == None {
      var d := s2.data[..n];
      CompleteMeansTimed(pt, Taken(s1), Lines(d));
      RunOnlyGrows(pt, s2, after);
      QueryRangesAre(pt, Taken(s1), d, w);
      IndexedReadIsFullScan(dec, w, d, Run(pt, s2, after).data);
    }
  }

  // ----- a line torn by two appends

  const LETTER_A: Byte := 97
  const LETTER_B: Byte := 98

  function TornStart(): (s: System) { System([], None, map[], Missing) }

  function TornBefore(): (steps: seq<Step>) { [StartRebuild(0)] }

  /** The rebuild reads the halves of one line as two lines, as each is appended. */
  function TornBetween(): (steps: seq<Step>) {
    [Append([LETTER_A], None), ReadLine(0), Append([LETTER_B], None), ReadLine(0), SeeEnd(0), Publish(0)]
  }

  function TornLines(): (lines: seq<Line>) { [Line(1, 0, [LETTER_A]), Line(2, 1, [LETTER_B])] }

  lemma {:induction false} OneByteLine(c: Byte)
    requires c != LF && c != CR
    ensures LineLength([c]) == 1 && TrimNewline([c]) == [c]
  {
  }

  lemma {:induction false} TornEnds(pt: PrefixTime)
    ensures Run(pt, TornStart(), TornBefore()) ==
            TornStart().(scans := map[0 := RebuildScan(Fingerprint(0, None), [], 0, false)])
    ensures var s2 := Run(pt, Run(pt, TornStart(), TornBefore()), TornBetween());
      && s2.data == [LETTER_A, LETTER_B]
      && s2.sidecar == Stored(IndexOf(pt, Fingerprint(0, None), TornLines()))
  {
    hide IndexOf;
    var fp := Fingerprint(0, None);
    var s0, steps := TornStart(), TornBetween();
    var s1 := Run(pt, s0, TornBefore());
    assert TornBefore()[..0] == [] && Run(pt, s0, []) == s0;
    assert s1 == System([], None, map[0 := RebuildScan(fp, [], 0, false)], Missing);
    OneByteLine(LETTER_A);
    OneByteLine(LETTER_B);
    var first, second := Line(1, 0, [LETTER_A]), Line(2, 1, [LETTER_B]);
    var a := System([LETTER_A], None, map[0 := RebuildScan(fp, [], 0, false)], Missing);
    var b := System([LETTER_A], None, map[0 := RebuildScan(fp, [first], 1, false)], Missing);
    var c := System([LETTER_A, LETTER_B], None, map[0 := RebuildScan(fp, [first], 1, false)], Missing);
    var d := System([LETTER_A, LETTER_B], None, map[0 := RebuildScan(fp, TornLines(), 2, false)], Missing);
    var e := System([LETTER_A, LETTER_B], None, map[0 := RebuildScan(fp, TornLines(), 2, true)], Missing);
    assert Apply(pt, s1, steps[0]) == a by { assert [] + [LETTER_A] == [LETTER_A]; }
    assert Apply(pt, a, steps[1]) == b by {
      assert a.data[0..] == [LETTER_A] && [] + [first] == [first] && [LETTER_A][..1] == [LETTER_A];
    }
    assert Apply(pt, b, steps[2]) == c by { assert [LETTER_A] + [LETTER_B] == [LETTER_A, LETTER_B]; }
    assert Apply(pt, c, steps[3]) == d by {
      assert c.data[1..] == [LETTER_B] && [first] + [second] == TornLines() && [LETTER_B][..1] == [LETTER_B];
    }
    assert Apply(pt, d, steps[4]) == e;
    hide Apply;
    assert Run(pt, s1, []) == s1;
    SixSteps(pt, s1, steps[0], steps[1], steps[2], steps[3], steps[4], steps[5]);
    PublishTorn(pt, e);
  }

  lemma {:induction false} PublishTorn(pt: PrefixTime, s: System)
    requires 0 in s.scans && s.scans[0].ended
    ensures Apply(pt, s, Publish(0)) ==
            s.(scans := s.scans - {0}, sidecar := Stored(IndexOf(pt, s.scans[0].source, s.scans[0].done)))
  {
  }

  lemma {:induction false} SixSteps(pt: PrefixTime, s: System, a: Step, b: Step, c: Step, d: Step, e: Step, f: Step)
    ensures Run(pt, s, [a, b, c, d, e, f]) ==
            Apply(pt, Apply(pt, Apply(pt, Apply(pt, Apply(pt, Apply(pt, s, a), b), c), d), e), f)
  {
    hide Apply;
    RunSnoc(pt, s, [], a);
    RunSnoc(pt, s, [a], b);
    RunSnoc(pt, s, [a, b], c);
    RunSnoc(pt, s, [a, b, c], d);
    RunSnoc(pt, s, [a, b, c, d], e);
    RunSnoc(pt, s, [a, b, c, d, e], f);
    assert [] + [a] == [a] && [a] + [b] == [a, b] && [a, b] + [c] == [a, b, c] && [a, b, c] + [d] == [a, b, c, d];
    assert [a, b, c, d] + [e] == [a, b, c, d, e] && [a, b, c, d, e] + [f] == [a, b, c, d, e, f];
  }

  lemma {:induction false} OnePiece(data: Bytes)
    requires data != [] && LineLength(data) == |data|
    ensures Split(data) == [data] && Lines(data) == [Line(1, 0, data)]
  {
    assert data[..|data|] == data && data[|data|..] == [];
  }

  lemma {:induction false} LinesWithin(data: Bytes)
    requires data <= [LETTER_A, LETTER_B]
    ensures |Lines(data)| <= 1
  {
    OneByteLine(LETTER_A);
    OneByteLine(LETTER_B);
    assert [LETTER_A, LETTER_B][1..] == [LETTER_B];
    if |data| == 2 {
      assert data == [LETTER_A, LETTER_B];
      OnePiece(data);
    } else if |data| == 1 {
      assert data == [LETTER_A];
      OnePiece(data);
    }
  }

  lemma {:induction false} TornEntries(pt: PrefixTime)
    requires pt([LETTER_A]) == Some(0) && pt([LETTER_B]) == Some(5)
    ensures FileEntries(pt, TornLines()) == [Entry(0, 1, 0, 1), Entry(5, 2, 1, 2)]
    ensures Filter(IsBlank(), TornLines()) == [] && Filter(IsUntimed(pt), TornLines()) == []
  {
    var lines := TornLines();
    OneByteLine(LETTER_A);
    OneByteLine(LETTER_B);
    assert Timed(pt, lines[0]) && Timed(pt, lines[1]) && !Blank(lines[0]) && !Blank(lines[1]);
    FilterAll(IsTimed(pt), lines);
    FilterNone(IsBlank(), lines);
    FilterNone(IsUntimed(pt), lines);
  }

  /** A rebuild overtaken by two appends that make up one line can be accepted by a query that took its
      fingerprint before them, although its index describes no content the file ever had. */
  lemma {:induction false} TornIndexAccepted(pt: PrefixTime)
    requires pt([LETTER_A]) == Some(0) && pt([LETTER_B]) == Some(5)
    ensures Initial(TornStart())
    ensures var s1 := Run(pt, TornStart(), TornBefore());
            var s2 := Run(pt, s1, TornBetween());
      && Refusal(s2.sidecar, Taken(s1)) == None
      && s2.sidecar.index == IndexOf(pt, Taken(s1), TornLines())
      && s2.data == [LETTER_A, LETTER_B]
      && forall d | d <= s2.data :: s2.sidecar.index != IndexOf(pt, Taken(s1), Lines(d))
  {
    hide Run, Lines, Apply;
    var s1 := Run(pt, TornStart(), TornBefore());
    var s2 := Run(pt, s1, TornBetween());
    TornEnds(pt);
    TornShape(pt, Taken(s1));
    forall d | d <= s2.data ensures s2.sidecar.index != IndexOf(pt, Taken(s1), Lines(d)) {
      LinesWithin(d);
      IndexTellsLines(pt, Taken(s1), TornLines(), Lines(d));
    }
  }

  lemma {:induction false} TornShape(pt: PrefixTime, source: Fingerprint)
    requires pt([LETTER_A]) == Some(0) && pt([LETTER_B]) == Some(5)
    ensures var index := IndexOf(pt, source, TornLines());
      Refusal(Stored(index), source) == None
  {
    TornEntries(pt);
    RebuiltIndexPassesShape(pt, source, TornLines());
    hide ShapeOk, FileEntries;
  }

  /** Read through it, a window finds a record that no scan of the file finds. */
  lemma {:induction false} TornReadDiffers(dec: Decoder, w: Window, envelope: Envelope)
    requires dec.prefixTime([LETTER_A]) == Some(0) && dec.prefixTime([LETTER_B]) == Some(5)
    requires dec.prefixTime([LETTER_A, LETTER_B]) == Some(0) && dec.envelope([LETTER_B]) == Ok(envelope)
    requires w.from == 5 && w.to == 5
    ensures var s1 := Run(dec.prefixTime, TornStart(), TornBefore());
            var s2 := Run(dec.prefixTime, s1, TornBetween());
      && Refusal(s2.sidecar, Taken(s1)) == None
      && TallyOf(Scan(dec, w, Tolerant, true), Lines(s2.data)).records == []
      && var ranges := QueryRanges(s2.sidecar.index, w);
         TallyOf(Indexed(dec), LinesOfRanges(s2.data, ranges, |ranges|)).records == [Record(2, 1, [LETTER_B], envelope)]
  {
    hide Run, Apply, QueryRanges;
    TornIndexAccepted(dec.prefixTime);
    var s2 := Run(dec.prefixTime, Run(dec.prefixTime, TornStart(), TornBefore()), TornBetween());
    TornRanges(dec.prefixTime, Taken(Run(dec.prefixTime, TornStart(), TornBefore())), w);
    TornRangeReads(dec, envelope);
    TornScan(dec, w);
  }

  lemma {:induction false} TornRanges(pt: PrefixTime, source: Fingerprint, w: Window)
    requires pt([LETTER_A]) == Some(0) && pt([LETTER_B]) == Some(5) && w.from == 5 && w.to == 5
    ensures QueryRanges(IndexOf(pt, source, TornLines()), w) == [Range(1, 2, 2, 2, 1)]
  {
    TornEntries(pt);
    var first, second := Entry(0, 1, 0, 1), Entry(5, 2, 1, 2);
    SortCons(EntryLe, first, [second]);
    SortCons(EntryLe, second, []);
    assert [first, second] == [first] + [second] && [second] == [second] + [];
    FilterCons(InWindow(5, 5), first, [second]);
    FilterCons(InWindow(5, 5), second, []);
    SortCons(StartLe, second, []);
    CoalesceSnoc([], second);
    assert [] + [second] == [second];
  }

  lemma {:induction false} TornRangeReads(dec: Decoder, envelope: Envelope)
    requires dec.envelope([LETTER_B]) == Ok(envelope)
    ensures var ranges := [Range(1, 2, 2, 2, 1)];
      TallyOf(Indexed(dec), LinesOfRanges([LETTER_A, LETTER_B], ranges, 1)).records ==
        [Record(2, 1, [LETTER_B], envelope)]
  {
    var data: Bytes := [LETTER_A, LETTER_B];
    var r := Range(1, 2, 2, 2, 1);
    OneByteLine(LETTER_B);
    assert Sub(data, 1, 2) == [LETTER_B];
    assert [LETTER_B][..1] == [LETTER_B] && [LETTER_B][1..] == [];
    assert Split([LETTER_B]) == [[LETTER_B]];
    assert LinesOfRange(data, r) == [Line(2, 1, [LETTER_B])];
    assert LinesOfRanges(data, [r], 0) == [];
    assert LinesOfRanges(data, [r], 1) == [Line(2, 1, [LETTER_B])];
    TallySnoc(Indexed(dec), [], Line(2, 1, [LETTER_B]));
    NothingJudged(dec);
    assert [] + [Line(2, 1, [LETTER_B])] == [Line(2, 1, [LETTER_B])];
  }

  lemma {:induction false} TornScan(dec: Decoder, w: Window)
    requires dec.prefixTime([LETTER_A, LETTER_B]) == Some(0) && w.from == 5 && w.to == 5
    ensures TallyOf(Scan(dec, w, Tolerant, true), Lines([LETTER_A, LETTER_B])).records == []
  {
    var data: Bytes := [LETTER_A, LETTER_B];
    assert data[1..] == [LETTER_B];
    OneByteLine(LETTER_B);
    assert LineLength(data) == 2 && data[..2] == data && data[2..] == [];
    assert Split(data) == [data];
    var line := Line(1, 0, data);
    assert Lines(data) == [line];
    assert TrimNewline(data) == data;
    TallySnoc(Scan(dec, w, Tolerant, true), [], line);
    assert [] + [line] == [line];
  }
}
