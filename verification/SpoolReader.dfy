/** Reading a capture window from one spool file: the full scan, the indexed read that replaces it
    for `.windows.jsonl` files, and their agreement. */
module SpoolReader {
  import opened Orders
  import opened SpoolLines
  import opened SpoolIndex

  datatype Mode = Tolerant | Strict

  datatype Window = Window(from: int, to: int)

  /** A parsed envelope, kept abstract as the text a parser makes of it. */
  type Envelope = string

  /** The parsers a reader calls on a line without its newline: the prefix time scan, the small
      filter struct and the full envelope. */
  datatype Decoder = Decoder(
    prefixTime: PrefixTime,
    filter: Bytes -> Result<Option<int>, string>,
    envelope: Bytes -> Result<Envelope, string>)

  datatype Record = Record(line: nat, offset: nat, raw: Bytes, envelope: Envelope)

  datatype MalformedLine = MalformedLine(line: nat, offset: nat, raw: Bytes, error: string)

  datatype ReadError = InvalidTimeRange | Json(line: nat, error: string) | UnexpectedEof

  datatype Outcome =
    | Skipped(parsed: bool)
    | Selected(record: Record)
    | Malformed(bad: MalformedLine, parsed: bool)
    | Aborted(line: nat, error: string)

  datatype FileStats = FileStats(
    totalLines: nat,
    parsedLines: nat,
    fullRecordParses: nat,
    selectedRecords: nat,
    malformedLines: nat,
    byteCount: nat,
    indexUsed: bool)

  // ----- what happens to one line

  /** Parses a line whose time is known to be in the window. */
  function ParseSelected(dec: Decoder, l: Line): (o: Outcome) {
    var raw := TrimNewline(l.bytes);
    match dec.envelope(raw)
    case Ok(envelope) => Selected(Record(l.number, l.start, raw, envelope))
    case Err(error) => Malformed(MalformedLine(l.number, l.start, raw, error), true)
  }

  /** The full scan's treatment of one line; `fast` says the file is a `.windows.jsonl`. */
  function ScanLine(dec: Decoder, w: Window, mode: Mode, fast: bool, l: Line): (o: Outcome) {
    var raw := TrimNewline(l.bytes);
    if raw == [] then Skipped(false)
    else if mode.Tolerant? && fast && dec.prefixTime(raw).Some? then
      if w.from <= dec.prefixTime(raw).value <= w.to then ParseSelected(dec, l) else Skipped(true)
    else
      match dec.filter(raw)
      case Ok(time) =>
        if time.Some? && w.from <= time.value <= w.to then
          match dec.envelope(raw)
          case Ok(envelope) => Selected(Record(l.number, l.start, raw, envelope))
          case Err(error) => Aborted(l.number, error)
        else Skipped(true)
      case Err(error) =>
        if mode.Tolerant? then Malformed(MalformedLine(l.number, l.start, raw, error), false)
        else Aborted(l.number, error)
  }

  /** The indexed read's treatment of one line: no time is looked at any more. */
  function IndexedLine(dec: Decoder, l: Line): (o: Outcome) {
    if TrimNewline(l.bytes) == [] then Skipped(false) else ParseSelected(dec, l)
  }

  function Scan(dec: Decoder, w: Window, mode: Mode, fast: bool): Line -> Outcome {
    l => ScanLine(dec, w, mode, fast, l)
  }

  function Indexed(dec: Decoder): Line -> Outcome { l => IndexedLine(dec, l) }

  // ----- what a reader accumulates over lines

  /** Findings and counters over the lines read; an abort is final. */
  datatype Tally = Tally(
    records: seq<Record>,
    malformed: seq<MalformedLine>,
    parsedLines: nat,
    fullRecordParses: nat,
    aborted: Option<ReadError>)
  {
    function Add(o: Outcome): Tally {
      if aborted.Some? then this
      else
        match o
        case Skipped(parsed) => this.(parsedLines := parsedLines + (if parsed then 1 else 0))
        case Selected(record) =>
          this.(records := records + [record], parsedLines := parsedLines + 1,
                fullRecordParses := fullRecordParses + 1)
        case Malformed(bad, parsed) =>
          this.(malformed := malformed + [bad], parsedLines := parsedLines + (if parsed then 1 else 0))
        case Aborted(line, error) => this.(aborted := Some(Json(line, error)))
    }

    function Stats(totalLines: nat, byteCount: nat, indexUsed: bool): FileStats {
      FileStats(totalLines, parsedLines, fullRecordParses, |records|, |malformed|, byteCount, indexUsed)
    }
  }

  /** The tally after the first `k` lines, starting from `t`. */
  function Fold(c: Line -> Outcome, t: Tally, lines: seq<Line>, k: nat): (r: Tally)
    requires k <= |lines|
  {
    if k == 0 then t else Fold(c, t, lines, k - 1).Add(c(lines[k - 1]))
  }

  const NOTHING := Tally([], [], 0, 0, None)

  function TallyOf(c: Line -> Outcome, lines: seq<Line>): (t: Tally) {
    Fold(c, NOTHING, lines, |lines|)
  }

  lemma {:induction false} FoldPrefix(c: Line -> Outcome, t: Tally, a: seq<Line>, b: seq<Line>, k: nat)
    requires k <= |a| && a <= b
    ensures Fold(c, t, a, k) == Fold(c, t, b, k)
  {
    if k > 0 {
      FoldPrefix(c, t, a, b, k - 1);
    }
  }

  lemma {:induction false} TallySnoc(c: Line -> Outcome, lines: seq<Line>, l: Line)
    ensures TallyOf(c, lines + [l]) == TallyOf(c, lines).Add(c(l))
  {
    FoldPrefix(c, NOTHING, lines, lines + [l], |lines|);
  }

  lemma {:induction false} TallyConcat(c: Line -> Outcome, a: seq<Line>, b: seq<Line>, k: nat)
    requires k <= |b|
    ensures Fold(c, TallyOf(c, a), b, k) == TallyOf(c, a + b[..k])
  {
    if k == 0 {
      assert a + b[..0] == a;
    } else {
      TallyConcat(c, a, b, k - 1);
      TallySnoc(c, a + b[..k - 1], b[k - 1]);
      assert a + b[..k] == (a + b[..k - 1]) + [b[k - 1]];
    }
  }

  lemma {:induction false} AbortIsFinal(c: Line -> Outcome, t: Tally, lines: seq<Line>, k: nat, n: nat)
    requires k <= n <= |lines| && Fold(c, t, lines, k).aborted.Some?
    ensures Fold(c, t, lines, n) == Fold(c, t, lines, k)
    decreases n
  {
    if k < n {
      AbortIsFinal(c, t, lines, k, n - 1);
    }
  }

  /** The report a whole read accumulates into, file after file. */
  class SpoolReadReport {
    var records: seq<Record>
    var malformed: seq<MalformedLine>
    var files: seq<FileStats>

    constructor ()
      ensures records == [] && malformed == [] && files == []
    {
      records, malformed, files := [], [], [];
    }

    /** What was there before, extended by what some lines gave. */
    ghost predicate Extends(records0: seq<Record>, malformed0: seq<MalformedLine>, t: Tally)
      reads this`records, this`malformed
    {
      records == records0 + t.records && malformed == malformed0 + t.malformed
    }

    /** The body of a read loop once a line has been judged. */
    method Push(o: Outcome, stats: FileStats, ghost t: Tally, ghost records0: seq<Record>,
                ghost malformed0: seq<MalformedLine>)
      returns (s: FileStats)
      requires !o.Aborted? && t.aborted.None? && Extends(records0, malformed0, t)
      requires stats == t.Stats(stats.totalLines, stats.byteCount, stats.indexUsed)
      modifies this`records, this`malformed
      ensures Extends(records0, malformed0, t.Add(o))
      ensures s == t.Add(o).Stats(stats.totalLines, stats.byteCount, stats.indexUsed)
    {
      s := stats;
      match o {
        case Skipped(parsed) =>
          if parsed {
            s := s.(parsedLines := s.parsedLines + 1);
          }
        case Selected(record) =>
          s := s.(parsedLines := s.parsedLines + 1, fullRecordParses := s.fullRecordParses + 1,
                  selectedRecords := s.selectedRecords + 1);
          records := records + [record];
        case Malformed(bad, parsed) =>
          if parsed {
            s := s.(parsedLines := s.parsedLines + 1);
          }
          s := s.(malformedLines := s.malformedLines + 1);
          malformed := malformed + [bad];
      }
    }
  }

  function BytesUpTo(lines: seq<Line>, k: nat): (n: nat)
    requires k <= |lines|
  {
    if k == 0 then 0 else BytesUpTo(lines, k - 1) + |lines[k - 1].bytes|
  }

  lemma {:induction false} BytesOfLines(data: Bytes, k: nat)
    requires k <= |Lines(data)|
    ensures BytesUpTo(Lines(data), k) == |Flatten(Split(data)[..k])|
    ensures k == |Lines(data)| ==> BytesUpTo(Lines(data), k) == |data|
  {
    if k > 0 {
      BytesOfLines(data, k - 1);
      LineAt(data, k - 1);
    }
    if k == |Lines(data)| {
      JoinSplit(data);
      assert Split(data)[..k] == Split(data);
    }
  }

  // ----- the full scan

  /** The loop both readers run over their lines: each line is judged by `judge`, findings are
      pushed into the report and counted, and the first abort ends it. */
  method JudgeLines(judge: Line -> Outcome, lines: seq<Line>, report: SpoolReadReport, stats0: FileStats,
                    ghost records0: seq<Record>, ghost malformed0: seq<MalformedLine>, ghost t0: Tally)
    returns (r: Result<FileStats, ReadError>, ghost t: Tally)
    requires t0.aborted.None? && report.Extends(records0, malformed0, t0)
    requires stats0 == t0.Stats(stats0.totalLines, stats0.byteCount, stats0.indexUsed)
    modifies report`records, report`malformed
    ensures t == Fold(judge, t0, lines, |lines|) && report.Extends(records0, malformed0, t)
    ensures r == if t.aborted.Some? then Err(t.aborted.value)
                 else Ok(t.Stats(stats0.totalLines, stats0.byteCount, stats0.indexUsed))
  {
    var stats := stats0;
    t := t0;
    for k := 0 to |lines|
      invariant t == Fold(judge, t0, lines, k) && t.aborted.None?
      invariant report.Extends(records0, malformed0, t)
      invariant stats == t.Stats(stats0.totalLines, stats0.byteCount, stats0.indexUsed)
    {
      var outcome := judge(lines[k]);
      if outcome.Aborted? {
        t := t.Add(outcome);
        AbortIsFinal(judge, t0, lines, k + 1, |lines|);
        return Err(Json(outcome.line, outcome.error)), t;
      }
      stats := report.Push(outcome, stats, t, records0, malformed0);
      t := t.Add(outcome);
    }
    return Ok(stats), t;
  }

  /** The report has gained what scanning the whole file gives: records and malformed lines in file
      order, the scan's error if it aborts, and otherwise one entry of file statistics. */
  ghost predicate FullScanFindings(t: Tally, totalLines: nat, byteCount: nat, r: Result<(), ReadError>,
                                   report: SpoolReadReport, records0: seq<Record>,
                                   malformed0: seq<MalformedLine>, files0: seq<FileStats>)
    reads report
  {
    && report.Extends(records0, malformed0, t)
    && r == (if t.aborted.Some? then Err(t.aborted.value) else Ok(()))
    && (r.Err? ==> report.files == files0)
    && (r.Ok? ==>
          && |report.files| == |files0| + 1 && report.files[..|files0|] == files0
          && SameCounts(report.files[|files0|], t.Stats(totalLines, byteCount, false)))
  }

  /** File statistics that differ at most in how many lines were looked at and by which reader. */
  predicate SameCounts(a: FileStats, b: FileStats) {
    && a.totalLines == b.totalLines && a.byteCount == b.byteCount
    && a.fullRecordParses == b.fullRecordParses
    && a.selectedRecords == b.selectedRecords && a.malformedLines == b.malformedLines
  }

  method ReadFullScan(dec: Decoder, w: Window, mode: Mode, fast: bool, data: Bytes, report: SpoolReadReport)
    returns (r: Result<(), ReadError>)
    modifies report
    ensures FullScanFindings(TallyOf(Scan(dec, w, mode, fast), Lines(data)), |Lines(data)|, |data|, r, report,
                             old(report.records), old(report.malformed), old(report.files))
  {
    var lines := ReadLines(data, 0, 0);
    var stats := FileStats(|lines|, 0, 0, 0, 0, BytesUpTo(lines, |lines|), false);
    BytesOfLines(data, |lines|);
    var scanned, _ :=
      JudgeLines(Scan(dec, w, mode, fast), lines, report, stats, report.records, report.malformed, NOTHING);
    match scanned {
      case Ok(stats) =>
        report.files := report.files + [stats];
        return Ok(());
      case Err(error) =>
        return Err(error);
    }
  }

  // ----- the indexed read

  predicate RangeFits(data: Bytes, r: Range) { r.byteStart <= r.byteEnd <= |data| }

  ghost predicate AllFit(data: Bytes, ranges: seq<Range>) {
    forall i | 0 <= i < |ranges| :: RangeFits(data, ranges[i])
  }

  /** The lines found by seeking to a range and splitting its bytes. */
  function LinesOfRange(data: Bytes, r: Range): (lines: seq<Line>) {
    if RangeFits(data, r) then
      LinesAt(Sub(data, r.byteStart, r.byteEnd), r.byteStart, if r.lineStart == 0 then 0 else r.lineStart - 1)
    else []
  }

  /** The lines found by reading the first `n` ranges one after the other. */
  function LinesOfRanges(data: Bytes, ranges: seq<Range>, n: nat): (lines: seq<Line>)
    requires n <= |ranges|
  {
    if n == 0 then [] else LinesOfRanges(data, ranges, n - 1) + LinesOfRange(data, ranges[n - 1])
  }

  lemma {:induction false} AlignedRangeReads(data: Bytes, later: Bytes, r: Range)
    requires Aligned(Lines(data), r) && data <= later
    ensures RangeFits(later, r)
    ensures LinesOfRange(later, r) == Span(Lines(data), r)
  {
    RangeLines(data, r.lineStart - 1, r.lineEnd);
    SubIsSlice(Lines(data), r.lineStart - 1, r.lineEnd);
    SubIsSlice(data, r.byteStart, r.byteEnd);
    assert Sub(later, r.byteStart, r.byteEnd) == Sub(data, r.byteStart, r.byteEnd);
  }

  /** Aligned ranges read back exactly the whole lines they cover, also after later appends. */
  lemma {:induction false} AlignedRangesRead(data: Bytes, later: Bytes, ranges: seq<Range>, n: nat)
    requires AllAligned(Lines(data), ranges) && data <= later && n <= |ranges|
    ensures forall i | 0 <= i < n :: RangeFits(later, ranges[i])
    ensures LinesOfRanges(later, ranges, n) == Covered(Lines(data), ranges, n)
  {
    hide Lines, LinesOfRange, Span;
    if n > 0 {
      AlignedRangesRead(data, later, ranges, n - 1);
      AlignedRangeReads(data, later, ranges[n - 1]);
    }
  }

  lemma {:induction false} IndexedNeverAborts(dec: Decoder, lines: seq<Line>, k: nat)
    requires k <= |lines|
    ensures Fold(Indexed(dec), NOTHING, lines, k).aborted.None?
  {
    if k > 0 {
      IndexedNeverAborts(dec, lines, k - 1);
    }
  }

  method ReadRange(data: Bytes, range: Range) returns (lines: seq<Line>)
    requires RangeFits(data, range)
    ensures lines == LinesOfRange(data, range)
  {
    var lineStart: nat := if range.lineStart == 0 then 0 else range.lineStart - 1;
    lines := ReadLines(Sub(data, range.byteStart, range.byteEnd), range.byteStart, lineStart);
  }

  /** How many ranges, from the `k`-th on, fit the file before the first that does not. */
  function FirstMisfit(data: Bytes, ranges: seq<Range>, k: nat): (n: nat)
    requires k <= |ranges|
    ensures k <= n <= |ranges| && (forall i | k <= i < n :: RangeFits(data, ranges[i]))
    ensures n < |ranges| ==> !RangeFits(data, ranges[n])
    decreases |ranges| - k
  {
    if k == |ranges| || !RangeFits(data, ranges[k]) then k else FirstMisfit(data, ranges, k + 1)
  }

  /** Judging one more range adds its lines to the tally. */
  lemma {:induction false} NextRange(dec: Decoder, data: Bytes, ranges: seq<Range>, i: nat)
    requires i < |ranges|
    ensures var t := TallyOf(Indexed(dec), LinesOfRanges(data, ranges, i));
      var lines := LinesOfRange(data, ranges[i]);
      && Fold(Indexed(dec), t, lines, |lines|) == TallyOf(Indexed(dec), LinesOfRanges(data, ranges, i + 1))
      && Fold(Indexed(dec), t, lines, |lines|).aborted.None?
  {
    hide LinesOfRange, TallyOf;
    var lines := LinesOfRange(data, ranges[i]);
    TallyConcat(Indexed(dec), LinesOfRanges(data, ranges, i), lines, |lines|);
    assert lines[..|lines|] == lines;
    TallyNeverAborts(dec, LinesOfRanges(data, ranges, i + 1));
  }

  lemma {:induction false} TallyNeverAborts(dec: Decoder, lines: seq<Line>)
    ensures TallyOf(Indexed(dec), lines).aborted.None?
  {
    IndexedNeverAborts(dec, lines, |lines|);
  }

  /** `read_indexed_windows_jsonl_file` after the lookup: each range in turn is read and its lines are
      judged, and no time is looked at any more. A range that does not fit the file ends the read, and
      what earlier ranges gave stays in the report. */
  method ReadRanges(dec: Decoder, data: Bytes, lookup: RangeLookup, report: SpoolReadReport)
    returns (r: Result<(), ReadError>)
    modifies report
    ensures r == if AllFit(data, lookup.ranges) then Ok(()) else Err(UnexpectedEof)
    ensures var t := TallyOf(Indexed(dec), LinesOfRanges(data, lookup.ranges, FirstMisfit(data, lookup.ranges, 0)));
      && report.Extends(old(report.records), old(report.malformed), t)
      && report.files ==
         old(report.files) + if r.Ok? then [t.Stats(lookup.totalLines, lookup.byteCount, true)] else []
  {
    hide LinesOfRange, TallyOf, Fold, Indexed;
    var ranges := lookup.ranges;
    var stats := FileStats(lookup.totalLines, 0, 0, 0, 0, lookup.byteCount, true);
    ghost var records0, malformed0, t := report.records, report.malformed, NOTHING;
    NothingJudged(dec);
    for i := 0 to |ranges|
      invariant FirstMisfit(data, ranges, 0) == FirstMisfit(data, ranges, i)
      invariant forall k | 0 <= k < i :: RangeFits(data, ranges[k])
      invariant t == TallyOf(Indexed(dec), LinesOfRanges(data, ranges, i)) && t.aborted.None?
      invariant report.Extends(records0, malformed0, t) && report.files == old(report.files)
      invariant stats == t.Stats(lookup.totalLines, lookup.byteCount, true)
    {
      if !RangeFits(data, ranges[i]) {
        return Err(UnexpectedEof);
      }
      var lines := ReadRange(data, ranges[i]);
      NextRange(dec, data, ranges, i);
      var judged;
      judged, t := JudgeLines(Indexed(dec), lines, report, stats, records0, malformed0, t);
      stats := judged.value;
    }
    report.files := report.files + [stats];
    return Ok(());
  }

  lemma {:induction false} NothingJudged(dec: Decoder)
    ensures TallyOf(Indexed(dec), []) == NOTHING
  {
  }

  // ----- agreement of the two readers

  lemma {:induction false} OutcomesAgree(dec: Decoder, w: Window, l: Line)
    requires !Untimed(dec.prefixTime, l)
    ensures TimedIn(dec.prefixTime, w.from, w.to, l) ==>
      ScanLine(dec, w, Tolerant, true, l) == IndexedLine(dec, l)
    ensures !TimedIn(dec.prefixTime, w.from, w.to, l) ==> ScanLine(dec, w, Tolerant, true, l).Skipped?
  {
  }

  ghost predicate SameFindings(a: Tally, b: Tally) {
    && a.records == b.records && a.malformed == b.malformed
    && a.fullRecordParses == b.fullRecordParses && a.aborted == b.aborted
  }

  lemma {:induction false} AgreeOnward(a: Tally, b: Tally, scanned: Outcome, indexed: Outcome, timed: bool)
    requires SameFindings(a, b) && a.aborted.None? && !indexed.Aborted?
    requires if timed then scanned == indexed else scanned.Skipped?
    ensures SameFindings(a.Add(scanned), if timed then b.Add(indexed) else b) && a.Add(scanned).aborted.None?
  {
  }

  lemma {:induction false} IndexedLineReads(dec: Decoder, l: Line)
    ensures !IndexedLine(dec, l).Aborted?
  {
  }

  /** Over lines that all carry an indexable time, the scan never aborts and gives the same
      records, malformed lines and parse counts as reading only the lines in the window. */
  lemma {:induction false} IndexedAgreesWithScan(dec: Decoder, w: Window, lines: seq<Line>)
    requires forall i | 0 <= i < |lines| :: !Untimed(dec.prefixTime, lines[i])
    ensures TallyOf(Scan(dec, w, Tolerant, true), lines).aborted.None?
    ensures SameFindings(TallyOf(Scan(dec, w, Tolerant, true), lines),
                         TallyOf(Indexed(dec), Filter(IsTimedIn(dec.prefixTime, w.from, w.to), lines)))
  {
    hide ScanLine, IndexedLine, Untimed, TimedIn, SameFindings;
    if lines == [] {
      NothingAgrees(dec, w);
    } else {
      var n := |lines| - 1;
      var before, l := lines[..n], lines[n];
      var kept := Filter(IsTimedIn(dec.prefixTime, w.from, w.to), before);
      IndexedAgreesWithScan(dec, w, before);
      assert lines == before + [l];
      OutcomesAgree(dec, w, l);
      IndexedLineReads(dec, l);
      FilterSnoc(IsTimedIn(dec.prefixTime, w.from, w.to), before, l);
      TallySnoc(Scan(dec, w, Tolerant, true), before, l);
      TallySnoc(Indexed(dec), kept, l);
      AgreeOnward(TallyOf(Scan(dec, w, Tolerant, true), before), TallyOf(Indexed(dec), kept),
                  ScanLine(dec, w, Tolerant, true, l), IndexedLine(dec, l), TimedIn(dec.prefixTime, w.from, w.to, l));
    }
  }

  lemma {:induction false} NothingAgrees(dec: Decoder, w: Window)
    ensures var scan, indexed := TallyOf(Scan(dec, w, Tolerant, true), []), TallyOf(Indexed(dec), []);
      scan.aborted.None? && SameFindings(scan, indexed)
  {
  }

  // ----- inverted windows

  /** A line that is not blank, has no prefix time the scan would use, and fails the filter parse. */
  predicate Unparsable(dec: Decoder, fast: bool, l: Line) {
    var raw := TrimNewline(l.bytes);
    raw != [] && !(fast && dec.prefixTime(raw).Some?) && dec.filter(raw).Err?
  }

  /** With an inverted window a tolerant scan selects nothing and never aborts, but it still reports
      every line that it cannot parse. */
  lemma {:induction false} InvertedScan(dec: Decoder, w: Window, fast: bool, lines: seq<Line>)
    requires w.from > w.to
    ensures var t := TallyOf(Scan(dec, w, Tolerant, fast), lines);
      && t.records == [] && t.aborted.None?
      && (t.malformed == [] <==> forall i | 0 <= i < |lines| :: !Unparsable(dec, fast, lines[i]))
  {
    hide ScanLine, Unparsable;
    if lines != [] {
      var n := |lines| - 1;
      InvertedScan(dec, w, fast, lines[..n]);
      InvertedLine(dec, w, fast, lines[n]);
      TallySnoc(Scan(dec, w, Tolerant, fast), lines[..n], lines[n]);
      assert lines == lines[..n] + [lines[n]];
    }
  }

  lemma {:induction false} InvertedLine(dec: Decoder, w: Window, fast: bool, l: Line)
    requires w.from > w.to
    ensures if Unparsable(dec, fast, l) then ScanLine(dec, w, Tolerant, fast, l).Malformed?
            else ScanLine(dec, w, Tolerant, fast, l).Skipped?
  {
  }
}
