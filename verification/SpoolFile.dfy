/** One spool file with its sidecar index: the query with its fallbacks, building or refreshing the
    index, and the read of a capture window that uses it. */
module SpoolFile {
  import opened Orders
  import opened SpoolLines
  import opened SpoolIndex
  import opened SpoolReader

  datatype Sidecar = Missing | Corrupt | Stored(index: Index)

  datatype FallbackReason =
    | UnsupportedSourceFile
    | MissingSidecar
    | CorruptSidecar
    | StaleSidecar
    | IncompleteSidecar

  datatype IndexLookup = IndexedLookup(lookup: RangeLookup) | Fallback(reason: FallbackReason)

  /** The lookup that a full scan of `lines` would justify for a window. */
  ghost function ExactLookup(pt: PrefixTime, lines: seq<Line>, byteCount: nat, w: Window): (r: RangeLookup) {
    var chosen := Map(EntryOf(pt), Filter(IsTimedIn(pt, w.from, w.to), lines));
    RangeLookup(byteCount, |lines|, |chosen|, |Filter(IsTimed(pt), lines)|, Coalesce(chosen))
  }

  /** Why a sidecar is not used, in the order of the checks. */
  ghost function Refusal(sidecar: Sidecar, current: Fingerprint): (r: Option<FallbackReason>) {
    match sidecar
    case Missing => Some(MissingSidecar)
    case Corrupt => Some(CorruptSidecar)
    case Stored(index) =>
      if index.schema != INDEX_SCHEMA_VERSION then Some(CorruptSidecar)
      else if index.source != current then Some(StaleSidecar)
      else if !ShapeOk(index) then Some(CorruptSidecar)
      else if !index.IsComplete() then Some(IncompleteSidecar)
      else None
  }

  class SpoolFile {
    const windowsJsonl: bool
    var data: Bytes
    var modified: Option<int>
    var sidecar: Sidecar

    constructor (windowsJsonl: bool, data: Bytes, modified: Option<int>)
      ensures this.windowsJsonl == windowsJsonl && this.data == data && this.modified == modified
      ensures sidecar == Missing
    {
      this.windowsJsonl, this.data, this.modified := windowsJsonl, data, modified;
      sidecar := Missing;
    }

    function SourceFingerprint(): Fingerprint
      reads this
    {
      Fingerprint(|data|, modified)
    }

    /** A stored index with the file's current fingerprint was built from the current content. */
    ghost predicate Coherent(pt: PrefixTime)
      reads this
    {
      sidecar.Stored? && sidecar.index.source == SourceFingerprint() ==>
        sidecar.index == IndexOf(pt, SourceFingerprint(), Lines(data))
    }

    method WriteIndex(pt: PrefixTime)
      modifies this`sidecar
      ensures sidecar == Stored(IndexOf(pt, SourceFingerprint(), Lines(data)))
      ensures Coherent(pt)
    {
      var index := RebuildIndex(pt, SourceFingerprint(), data);
      sidecar := Stored(index);
    }

    /** `query_windows_jsonl_time_index`. */
    method QueryIndex(pt: PrefixTime, w: Window) returns (r: Result<IndexLookup, ReadError>)
      requires Coherent(pt)
      ensures r.Err? <==> w.from > w.to
      ensures r.Err? ==> r.error == InvalidTimeRange
      ensures r.Ok? && !windowsJsonl ==> r.value == Fallback(UnsupportedSourceFile)
      ensures r.Ok? && windowsJsonl ==>
        match Refusal(sidecar, SourceFingerprint())
        case Some(reason) => r.value == Fallback(reason)
        case None => r.value == IndexedLookup(ExactLookup(pt, Lines(data), |data|, w))
    {
      if w.from > w.to {
        return Err(InvalidTimeRange);
      }
      if !windowsJsonl {
        return Ok(Fallback(UnsupportedSourceFile));
      }
      var current := SourceFingerprint();
      match sidecar {
        case Missing => return Ok(Fallback(MissingSidecar));
        case Corrupt => return Ok(Fallback(CorruptSidecar));
        case Stored(index) =>
          if index.schema != INDEX_SCHEMA_VERSION {
            return Ok(Fallback(CorruptSidecar));
          }
          if index.source != current {
            return Ok(Fallback(StaleSidecar));
          }
          var shape := IndexShapeError(index);
          if shape.Some? {
            return Ok(Fallback(CorruptSidecar));
          }
          if !index.IsComplete() {
            return Ok(Fallback(IncompleteSidecar));
          }
          LookupIsExact(pt, data, modified, w);
          var lookup := Query(index, w.from, w.to);
          return Ok(IndexedLookup(lookup));
      }
    }

    /** `load_or_refresh_windows_time_range`: builds a missing index and refreshes a stale one.
        A lookup comes back exactly when the file can be indexed and its sidecar is not corrupt. */
    method LoadOrRefresh(pt: PrefixTime, w: Window) returns (r: Result<Option<RangeLookup>, ReadError>)
      requires Coherent(pt)
      modifies this`sidecar
      ensures Coherent(pt)
      ensures r.Err? <==> w.from > w.to
      ensures r.Err? ==> r.error == InvalidTimeRange
      ensures r.Ok? ==>
        (r.value.Some? <==>
           && windowsJsonl
           && Refusal(old(sidecar), SourceFingerprint()) != Some(CorruptSidecar)
           && AllTimed(pt, Lines(data)))
      ensures r.Ok? && r.value.Some? ==> r.value.value == ExactLookup(pt, Lines(data), |data|, w)
      ensures sidecar == old(sidecar) || sidecar == Stored(IndexOf(pt, SourceFingerprint(), Lines(data)))
    {
      hide IndexOf, ExactLookup, ShapeOk, Lines, AllTimed;
      FreshRefusal(pt, SourceFingerprint(), data);
      var first := QueryIndex(pt, w);
      match first {
        case Err(error) => return Err(error);
        case Ok(IndexedLookup(lookup)) => return Ok(Some(lookup));
        case Ok(Fallback(reason)) =>
          match reason {
            case MissingSidecar => WriteIndex(pt);
            case StaleSidecar => WriteIndex(pt);
            case _ => return Ok(None);
          }
      }
      var second := QueryIndex(pt, w);
      match second {
        case Err(error) => return Err(error);
        case Ok(IndexedLookup(lookup)) => return Ok(Some(lookup));
        case Ok(Fallback(_)) => return Ok(None);
      }
    }

    /** The indexed read once a lookup is at hand. */
    method ReadLookup(dec: Decoder, w: Window, lookup: RangeLookup, report: SpoolReadReport)
      returns (r: Result<(), ReadError>)
      requires AllTimed(dec.prefixTime, Lines(data))
      requires lookup == ExactLookup(dec.prefixTime, Lines(data), |data|, w)
      modifies report
      ensures FullScanFindings(TallyOf(Scan(dec, w, Tolerant, true), Lines(data)), |Lines(data)|, |data|, r, report,
                               old(report.records), old(report.malformed), old(report.files))
    {
      IndexedReadIsFullScan(dec, w, data, data);
      ghost var records0, malformed0, files0 := report.records, report.malformed, report.files;
      r := ReadRanges(dec, data, lookup, report);
      FindingsTransfer(TallyOf(Scan(dec, w, Tolerant, true), Lines(data)),
                       TallyOf(Indexed(dec), LinesOfRanges(data, lookup.ranges, |lookup.ranges|)),
                       |Lines(data)|, |data|, report, records0, malformed0, files0);
    }

    /** `read_indexed_windows_jsonl_file`: whatever the sidecar, the outcome is that of the full scan if
        and only if the window is not inverted. */
    method ReadIndexed(dec: Decoder, w: Window, report: SpoolReadReport) returns (r: Result<(), ReadError>)
      requires Coherent(dec.prefixTime) && windowsJsonl
      modifies this`sidecar, report
      ensures Coherent(dec.prefixTime)
      ensures w.from > w.to ==>
        && r == Err(InvalidTimeRange)
        && report.records == old(report.records) && report.malformed == old(report.malformed)
        && report.files == old(report.files)
      ensures w.from <= w.to <==>
        FullScanFindings(TallyOf(Scan(dec, w, Tolerant, true), Lines(data)), |Lines(data)|, |data|, r, report,
                         old(report.records), old(report.malformed), old(report.files))
    {
      if w.from > w.to {
        InvertedScan(dec, w, true, Lines(data));
      }
      var loaded := LoadOrRefresh(dec.prefixTime, w);
      match loaded {
        case Err(error) => return Err(error);
        case Ok(None) => r := ReadFullScan(dec, w, Tolerant, true, data, report);
        case Ok(Some(lookup)) => r := ReadLookup(dec, w, lookup, report);
      }
    }

    /** `read_jsonl_file`: the tolerant read of a `.windows.jsonl` file goes through the index. */
    method ReadFile(dec: Decoder, w: Window, mode: Mode, report: SpoolReadReport)
      returns (r: Result<(), ReadError>)
      requires Coherent(dec.prefixTime)
      modifies this`sidecar, report
      ensures Coherent(dec.prefixTime)
      ensures mode.Tolerant? && windowsJsonl && w.from > w.to ==> r == Err(InvalidTimeRange)
      ensures !(mode.Tolerant? && windowsJsonl && w.from > w.to) ==>
        FullScanFindings(TallyOf(Scan(dec, w, mode, windowsJsonl), Lines(data)), |Lines(data)|, |data|, r, report,
                         old(report.records), old(report.malformed), old(report.files))
    {
      if mode.Tolerant? && windowsJsonl {
        r := ReadIndexed(dec, w, report);
      } else {
        r := ReadFullScan(dec, w, mode, windowsJsonl, data, report);
      }
    }
  }

  ghost predicate AllTimed(pt: PrefixTime, lines: seq<Line>) {
    forall i | 0 <= i < |lines| :: !Untimed(pt, lines[i])
  }

  lemma {:induction false} FindingsTransfer(scan: Tally, read: Tally, total: nat, bytes: nat, report: SpoolReadReport,
                         records0: seq<Record>, malformed0: seq<MalformedLine>, files0: seq<FileStats>)
    requires SameFindings(scan, read) && scan.aborted.None?
    requires report.Extends(records0, malformed0, read)
    requires report.files == files0 + [read.Stats(total, bytes, true)]
    ensures FullScanFindings(scan, total, bytes, Ok(()), report, records0, malformed0, files0)
  {
  }

  lemma {:induction false} RebuiltShape(pt: PrefixTime, source: Fingerprint, data: Bytes)
    ensures ShapeOk(IndexOf(pt, source, Lines(data)))
  {
    LinesTiled(data);
    RebuiltIndexPassesShape(pt, source, Lines(data));
  }

  /** An index of the current content is refused only for being incomplete. */
  lemma {:induction false} FreshRefusal(pt: PrefixTime, source: Fingerprint, data: Bytes)
    ensures var index := IndexOf(pt, source, Lines(data));
      && index.source == source
      && Refusal(Stored(index), source) == if AllTimed(pt, Lines(data)) then None else Some(IncompleteSidecar)
  {
    hide Lines, AllTimed, ShapeOk;
    CompleteMeansTimed(pt, source, Lines(data));
    RebuiltShape(pt, source, data);
  }

  /** Reading only the looked-up ranges gives the findings of the full scan, for every file whose
      lines all carry an indexable time and every window, even when the file has grown since. */
  lemma {:induction false} IndexedReadIsFullScan(dec: Decoder, w: Window, data: Bytes, later: Bytes)
    requires AllTimed(dec.prefixTime, Lines(data)) && data <= later
    ensures TallyOf(Scan(dec, w, Tolerant, true), Lines(data)).aborted.None?
    ensures var ranges := ExactLookup(dec.prefixTime, Lines(data), |data|, w).ranges;
      && AllFit(later, ranges)
      && LinesOfRanges(later, ranges, |ranges|) == Filter(IsTimedIn(dec.prefixTime, w.from, w.to), Lines(data))
      && SameFindings(TallyOf(Scan(dec, w, Tolerant, true), Lines(data)),
                      TallyOf(Indexed(dec), LinesOfRanges(later, ranges, |ranges|)))
  {
    var lines := Lines(data);
    var p := IsTimedIn(dec.prefixTime, w.from, w.to);
    var ranges := ExactLookup(dec.prefixTime, lines, |data|, w).ranges;
    LinesTiled(data);
    CoalesceExact(dec.prefixTime, lines, p, |lines|);
    assert lines[..|lines|] == lines;
    AlignedRangesRead(data, later, ranges, |ranges|);
    IndexedAgreesWithScan(dec, w, lines);
  }

  lemma {:induction false} LookupIsExact(pt: PrefixTime, data: Bytes, modified: Option<int>, w: Window)
    ensures var index := IndexOf(pt, Fingerprint(|data|, modified), Lines(data));
            var selected := Sort(StartLe, Filter(InWindow(w.from, w.to), index.entries));
            RangeLookup(index.source.byteCount, index.totalLines, |selected|, |index.entries|,
                        Coalesce(selected)) == ExactLookup(pt, Lines(data), |data|, w)
  {
    LinesTiled(data);
    SelectedInFileOrder(pt, Lines(data), w.from, w.to);
  }

  lemma {:induction false} CompleteMeansTimed(pt: PrefixTime, source: Fingerprint, lines: seq<Line>)
    ensures IndexOf(pt, source, lines).IsComplete() <==> AllTimed(pt, lines)
  {
    forall i | 0 <= i < |lines| ensures lines[i] in Filter(IsUntimed(pt), lines) <==> Untimed(pt, lines[i]) {
      FilterMember(IsUntimed(pt), lines, lines[i]);
    }
    if Filter(IsUntimed(pt), lines) != [] {
      FilterMember(IsUntimed(pt), lines, Filter(IsUntimed(pt), lines)[0]);
    }
  }
}
