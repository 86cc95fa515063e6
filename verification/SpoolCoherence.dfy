/** The sidecar under concurrency: writers append to a spool file while any number of rebuild scans
    read it line by line, publish their index by rename, and readers query it. */
module SpoolCoherence {
  import opened Orders
  import opened SpoolLines
  import opened SpoolIndex
  import opened SpoolReader
  import opened SpoolFile

  /** A rebuild in progress: the fingerprint it took first, the lines it has read, its position, and
      whether it has seen the end of the file. */
  datatype RebuildScan = RebuildScan(source: Fingerprint, done: seq<Line>, pos: nat, ended: bool)

  datatype System = System(data: Bytes, modified: Option<int>, scans: map<nat, RebuildScan>, sidecar: Sidecar)

  datatype Step =
    | Append(bytes: Bytes, modified: Option<int>)
    | StartRebuild(id: nat)
    | ReadLine(id: nat)
    | SeeEnd(id: nat)
    | Publish(id: nat)
    | Abandon(id: nat)
    | LoseSidecar(left: bool)

  /** The line a scan at `pos` reads from the current content: it may be cut off by the current end
      of the file and continued by a later append. */
  function NextLine(data: Bytes, scan: RebuildScan): (l: Line)
    requires scan.pos <= |data|
  {
    Line(|scan.done| + 1, scan.pos, data[scan.pos..][..LineLength(data[scan.pos..])])
  }

  /** One step; a step that is not enabled changes nothing. */
  function Apply(pt: PrefixTime, s: System, step: Step): (s': System) {
    match step
    case Append(bytes, modified) => s.(data := s.data + bytes, modified := modified)
    case StartRebuild(id) =>
      s.(scans := s.scans[id := RebuildScan(Fingerprint(|s.data|, s.modified), [], 0, false)])
    case ReadLine(id) =>
      if id in s.scans && !s.scans[id].ended && s.scans[id].pos < |s.data| then
        var l := NextLine(s.data, s.scans[id]);
        s.(scans := s.scans[id := s.scans[id].(done := s.scans[id].done + [l], pos := l.End())])
      else s
    case SeeEnd(id) =>
      if id in s.scans && s.scans[id].pos == |s.data| then
        s.(scans := s.scans[id := s.scans[id].(ended := true)])
      else s
    case Publish(id) =>
      if id in s.scans && s.scans[id].ended then
        s.(scans := s.scans - {id}, sidecar := Stored(IndexOf(pt, s.scans[id].source, s.scans[id].done)))
      else s
    case Abandon(id) => s.(scans := s.scans - {id})
    case LoseSidecar(left) => s.(sidecar := if left then Corrupt else Missing)
  }

  function Run(pt: PrefixTime, s: System, steps: seq<Step>): (s': System) {
    if steps == [] then s else Apply(pt, Run(pt, s, steps[..|steps| - 1]), steps[|steps| - 1])
  }

  predicate Initial(s: System) { s.scans == map[] && !s.sidecar.Stored? }

  // ----- the invariant

  /** The lines read so far and those still ahead are the lines of the file. */
  ghost predicate OnTrack(data: Bytes, scan: RebuildScan) {
    scan.pos <= |data| && scan.done + LinesAt(data[scan.pos..], scan.pos, |scan.done|) == Lines(data)
  }

  /** A scan is right about the file unless the file has outgrown the fingerprint it took. */
  ghost predicate ScanOk(data: Bytes, scan: RebuildScan) {
    && scan.source.byteCount <= |data| && scan.pos <= |data|
    && (forall i | 0 <= i < |scan.done| :: scan.done[i].bytes != [])
    && (scan.source.byteCount == |data| ==> OnTrack(data, scan))
    && (scan.source.byteCount == |data| && scan.ended ==> scan.done == Lines(data))
  }

  /** A stored index is well shaped, and describes the file unless the file has outgrown it. */
  ghost predicate SidecarOk(pt: PrefixTime, data: Bytes, sidecar: Sidecar) {
    sidecar.Stored? ==>
      && ShapeOk(sidecar.index)
      && sidecar.index.source.byteCount <= |data|
      && (sidecar.index.source.byteCount == |data| ==>
            sidecar.index == IndexOf(pt, sidecar.index.source, Lines(data)))
  }

  ghost predicate Inv(pt: PrefixTime, s: System) {
    && (forall id | id in s.scans :: ScanOk(s.data, s.scans[id]))
    && SidecarOk(pt, s.data, s.sidecar)
  }

  lemma {:induction false} AppendKeepsScan(data: Bytes, bytes: Bytes, scan: RebuildScan)
    requires ScanOk(data, scan)
    ensures ScanOk(data + bytes, scan)
  {
    hide OnTrack, Lines;
    if bytes == [] {
      assert data + bytes == data;
    }
  }

  lemma {:induction false} AppendKeepsSidecar(pt: PrefixTime, data: Bytes, bytes: Bytes, sidecar: Sidecar)
    requires SidecarOk(pt, data, sidecar)
    ensures SidecarOk(pt, data + bytes, sidecar)
  {
    hide IndexOf, Lines, ShapeOk;
    if bytes == [] {
      assert data + bytes == data;
    }
  }

  lemma {:induction false} StartOnTrack(data: Bytes, modified: Option<int>)
    ensures ScanOk(data, RebuildScan(Fingerprint(|data|, modified), [], 0, false))
  {
    assert data[0..] == data;
    assert [] + Lines(data) == Lines(data);
  }

  lemma {:induction false} LinesAhead(data: Bytes, scan: RebuildScan)
    requires scan.pos < |data|
    ensures var l := NextLine(data, scan);
      && l.bytes != [] && l.End() <= |data|
      && LinesAt(data[scan.pos..], scan.pos, |scan.done|)
           == [l] + LinesAt(data[l.End()..], l.End(), |scan.done| + 1)
  {
    var rest := data[scan.pos..];
    var n := LineLength(rest);
    NumberCons(rest[..n], Split(rest[n..]), scan.pos, |scan.done|);
    DropDrop(data, scan.pos, n);
  }

  lemma {:induction false} ReadKeepsScan(data: Bytes, scan: RebuildScan)
    requires ScanOk(data, scan) && scan.pos < |data| && !scan.ended
    ensures var l := NextLine(data, scan);
      ScanOk(data, scan.(done := scan.done + [l], pos := l.End()))
  {
    hide LinesAt, Lines, NextLine;
    var l := NextLine(data, scan);
    LinesAhead(data, scan);
    if scan.source.byteCount == |data| {
      ConcatAssoc(scan.done, [l], LinesAt(data[l.End()..], l.End(), |scan.done| + 1));
    }
  }

  lemma {:induction false} EndKeepsScan(data: Bytes, scan: RebuildScan)
    requires ScanOk(data, scan) && scan.pos == |data|
    ensures ScanOk(data, scan.(ended := true))
  {
    assert LinesAt(data[|data|..], |data|, |scan.done|) == [];
    assert scan.done + [] == scan.done;
  }

  lemma {:induction false} PublishKeepsSidecar(pt: PrefixTime, data: Bytes, scan: RebuildScan)
    requires ScanOk(data, scan) && scan.ended
    ensures SidecarOk(pt, data, Stored(IndexOf(pt, scan.source, scan.done)))
  {
    hide OnTrack, Lines;
    RebuiltIndexPassesShape(pt, scan.source, scan.done);
  }

  /** Every step keeps the invariant. */
  lemma {:induction false} ApplyKeepsInv(pt: PrefixTime, s: System, step: Step)
    requires Inv(pt, s)
    ensures Inv(pt, Apply(pt, s, step))
  {
    hide ScanOk, SidecarOk, NextLine;
    match step {
      case Append(bytes, modified) =>
        forall id | id in s.scans ensures ScanOk(s.data + bytes, s.scans[id]) {
          AppendKeepsScan(s.data, bytes, s.scans[id]);
        }
        AppendKeepsSidecar(pt, s.data, bytes, s.sidecar);
      case StartRebuild(id) =>
        StartOnTrack(s.data, s.modified);
      case ReadLine(id) =>
        if id in s.scans && !s.scans[id].ended && s.scans[id].pos < |s.data| {
          ReadKeepsScan(s.data, s.scans[id]);
        }
      case SeeEnd(id) =>
        if id in s.scans && s.scans[id].pos == |s.data| {
          EndKeepsScan(s.data, s.scans[id]);
        }
      case Publish(id) =>
        if id in s.scans && s.scans[id].ended {
          PublishKeepsSidecar(pt, s.data, s.scans[id]);
        }
      case Abandon(id) =>
      case LoseSidecar(left) =>
        NoSidecar(pt, s.data, if left then Corrupt else Missing);
    }
  }

  lemma {:induction false} NoSidecar(pt: PrefixTime, data: Bytes, sidecar: Sidecar)
    requires !sidecar.Stored?
    ensures SidecarOk(pt, data, sidecar)
  {
  }

  lemma {:induction false} RunKeepsInv(pt: PrefixTime, s: System, steps: seq<Step>)
    requires Inv(pt, s)
    ensures Inv(pt, Run(pt, s, steps))
  {
    hide Inv, Apply;
    if steps != [] {
      RunKeepsInv(pt, s, steps[..|steps| - 1]);
      ApplyKeepsInv(pt, Run(pt, s, steps[..|steps| - 1]), steps[|steps| - 1]);
    }
  }

  // ----- what readers rely on

  /** A published index is never refused for its shape, torn or not. */
  lemma {:induction false} PublishedIndexIsWellShaped(pt: PrefixTime, s0: System, steps: seq<Step>)
    requires Initial(s0)
    ensures var s := Run(pt, s0, steps); s.sidecar.Stored? ==> ShapeOk(s.sidecar.index)
  {
    hide Run;
    NoSidecar(pt, s0.data, s0.sidecar);
    RunKeepsInv(pt, s0, steps);
  }

  lemma {:induction false} RunOnlyGrows(pt: PrefixTime, s: System, steps: seq<Step>)
    ensures s.data <= Run(pt, s, steps).data
  {
    if steps != [] {
      RunOnlyGrows(pt, s, steps[..|steps| - 1]);
    }
  }
}
