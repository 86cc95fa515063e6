/** Lines of a JSONL spool file: `read_until` line splitting, numbering and byte offsets, and
    when splitting part of a file gives a part of its lines. */
module SpoolLines {
  import opened Orders

  newtype Byte = b: int | 0 <= b < 256
  type Bytes = seq<Byte>

  const LF: Byte := 10
  const CR: Byte := 13

  /** A line as read: 1-based number, offset of its first byte, bytes with the terminator. */
  datatype Line = Line(number: nat, start: nat, bytes: Bytes) {
    function End(): nat { start + |bytes| }
  }

  /** How many bytes `read_until(b'\n')` consumes: through the first LF, or to the end. */
  function LineLength(data: Bytes): (n: nat)
    ensures n <= |data| && (n == 0 <==> data == [])
  {
    if data == [] then 0
    else if data[0] == LF then 1
    else 1 + LineLength(data[1..])
  }

  /** What repeated `read_until` calls return until the end of the data. */
  function Split(data: Bytes): (pieces: seq<Bytes>)
    decreases |data|
  {
    if data == [] then [] else [data[..LineLength(data)]] + Split(data[LineLength(data)..])
  }

  /** The lines of a read loop that starts at byte `start` after `number` lines. */
  function Number(pieces: seq<Bytes>, start: nat, number: nat): (lines: seq<Line>)
    ensures |lines| == |pieces|
  {
    if pieces == [] then []
    else [Line(number + 1, start, pieces[0])] + Number(pieces[1..], start + |pieces[0]|, number + 1)
  }

  function LinesAt(data: Bytes, start: nat, number: nat): (lines: seq<Line>) {
    Number(Split(data), start, number)
  }

  function Lines(data: Bytes): (lines: seq<Line>) { LinesAt(data, 0, 0) }

  lemma {:induction false} NumberCons(p: Bytes, pieces: seq<Bytes>, start: nat, number: nat)
    ensures Number([p] + pieces, start, number)
         == [Line(number + 1, start, p)] + Number(pieces, start + |p|, number + 1)
  {
    assert ([p] + pieces)[1..] == pieces;
  }

  /** The read loop every reader shares: repeated `read_until(b'\n')` with a running line number
      and byte offset. */
  method ReadLines(data: Bytes, start: nat, number: nat) returns (lines: seq<Line>)
    ensures lines == LinesAt(data, start, number)
  {
    lines := [];
    var rest, byteOffset: nat, lineNumber: nat := data, start, number;
    ghost var ahead := LinesAt(data, start, number);
    while rest != []
      invariant ahead == LinesAt(rest, byteOffset, lineNumber)
      invariant lines + ahead == LinesAt(data, start, number)
      decreases |rest|
    {
      var bytes := LineLength(rest);
      var line := Line(lineNumber + 1, byteOffset, rest[..bytes]);
      NumberCons(line.bytes, Split(rest[bytes..]), byteOffset, lineNumber);
      ghost var later := LinesAt(rest[bytes..], byteOffset + bytes, lineNumber + 1);
      assert ahead == [line] + later;
      ConcatAssoc(lines, [line], later);
      lines, ahead := lines + [line], later;
      rest, byteOffset, lineNumber := rest[bytes..], byteOffset + bytes, lineNumber + 1;
    }
    assert lines + [] == lines;
  }

  /** Strips one LF and then one CR from the end. */
  function TrimNewline(line: Bytes): (t: Bytes)
    ensures t <= line
  {
    var withoutLf := if line != [] && line[|line| - 1] == LF then line[..|line| - 1] else line;
    if withoutLf != [] && withoutLf[|withoutLf| - 1] == CR
    then withoutLf[..|withoutLf| - 1] else withoutLf
  }

  // ----- pieces of a split

  predicate IsLine(p: Bytes) { p != [] && LineLength(p) == |p| }

  predicate Terminated(p: Bytes) { p != [] && p[|p| - 1] == LF }

  /** Non-empty lines, all but perhaps the last ended by their only LF. */
  predicate WellSplit(pieces: seq<Bytes>) {
    pieces == [] ||
    (IsLine(pieces[0]) && (|pieces| > 1 ==> Terminated(pieces[0])) && WellSplit(pieces[1..]))
  }

  lemma {:induction false} FirstLine(data: Bytes)
    requires data != []
    ensures IsLine(data[..LineLength(data)])
    ensures LineLength(data) < |data| ==> Terminated(data[..LineLength(data)])
  {
    if data[0] != LF && data[1..] != [] {
      FirstLine(data[1..]);
      assert data[..LineLength(data)][1..] == data[1..][..LineLength(data[1..])];
    }
  }

  lemma {:induction false} LineThenMore(p: Bytes, rest: Bytes)
    requires IsLine(p) && Terminated(p)
    ensures LineLength(p + rest) == |p|
  {
    if p[0] != LF {
      assert (p + rest)[1..] == p[1..] + rest;
      LineThenMore(p[1..], rest);
    }
  }

  lemma {:induction false} SplitWellSplit(data: Bytes)
    ensures WellSplit(Split(data))
    decreases |data|
  {
    if data != [] {
      FirstLine(data);
      SplitWellSplit(data[LineLength(data)..]);
    }
  }

  lemma {:induction false} JoinSplit(data: Bytes)
    ensures Flatten(Split(data)) == data
    decreases |data|
  {
    if data != [] {
      JoinSplit(data[LineLength(data)..]);
    }
  }

  lemma {:induction false} SplitJoin(pieces: seq<Bytes>)
    requires WellSplit(pieces)
    ensures Split(Flatten(pieces)) == pieces
  {
    if pieces != [] {
      var p, rest := pieces[0], Flatten(pieces[1..]);
      SplitJoin(pieces[1..]);
      if |pieces| > 1 {
        LineThenMore(p, rest);
      } else {
        assert p + rest == p;
      }
      assert (p + rest)[..|p|] == p && (p + rest)[|p|..] == rest;
    }
  }

  lemma {:induction false} WellSplitSlice(pieces: seq<Bytes>, i: nat, j: nat)
    requires WellSplit(pieces) && i <= j <= |pieces|
    ensures WellSplit(pieces[i..j])
  {
    if i > 0 {
      WellSplitSlice(pieces[1..], i - 1, j - 1);
      assert pieces[i..j] == pieces[1..][i - 1..j - 1];
    } else if j > 0 {
      WellSplitSlice(pieces[1..], 0, j - 1);
      assert pieces[0..j][1..] == pieces[1..][0..j - 1];
    }
  }

  lemma {:induction false} NumberDrop(pieces: seq<Bytes>, start: nat, number: nat, i: nat)
    requires i <= |pieces|
    ensures Number(pieces, start, number)[i..]
         == Number(pieces[i..], start + |Flatten(pieces[..i])|, number + i)
  {
    if i > 0 {
      NumberDrop(pieces[1..], start + |pieces[0]|, number + 1, i - 1);
      assert pieces[..i][1..] == pieces[1..][..i - 1];
      DropDrop(pieces, 1, i - 1);
    }
  }

  lemma {:induction false} NumberTake(pieces: seq<Bytes>, start: nat, number: nat, j: nat)
    requires j <= |pieces|
    ensures Number(pieces, start, number)[..j] == Number(pieces[..j], start, number)
  {
    if j > 0 {
      NumberTake(pieces[1..], start + |pieces[0]|, number + 1, j - 1);
      assert pieces[..j][1..] == pieces[1..][..j - 1];
    }
  }

  /** Lines are numbered consecutively, laid end to end, and carry their pieces. */
  lemma {:induction false} NumberAt(pieces: seq<Bytes>, start: nat, number: nat, i: nat)
    requires i < |pieces|
    ensures Number(pieces, start, number)[i]
         == Line(number + i + 1, start + |Flatten(pieces[..i])|, pieces[i])
  {
    if i > 0 {
      NumberAt(pieces[1..], start + |pieces[0]|, number + 1, i - 1);
      assert pieces[..i][1..] == pieces[1..][..i - 1];
    }
  }

  lemma {:induction false} FlattenTakeSnoc(pieces: seq<Bytes>, i: nat)
    requires i < |pieces|
    ensures Flatten(pieces[..i + 1]) == Flatten(pieces[..i]) + pieces[i]
  {
    assert pieces[..i + 1] == pieces[..i] + [pieces[i]];
    FlattenSnoc(pieces[..i], pieces[i]);
  }

  lemma {:induction false} WellSplitAt(pieces: seq<Bytes>, i: nat)
    requires WellSplit(pieces) && i < |pieces|
    ensures IsLine(pieces[i])
  {
    if i > 0 {
      WellSplitAt(pieces[1..], i - 1);
    }
  }

  /** Line `i` of a file: its number, non-emptiness, and where it lies. */
  lemma {:induction false} LineAt(data: Bytes, i: nat)
    requires i < |Lines(data)|
    ensures Lines(data)[i].number == i + 1 && Lines(data)[i].bytes != []
    ensures Lines(data)[i].start == |Flatten(Split(data)[..i])|
    ensures Lines(data)[i].End() == |Flatten(Split(data)[..i + 1])|
  {
    NumberAt(Split(data), 0, 0, i);
    FlattenTakeSnoc(Split(data), i);
    SplitWellSplit(data);
    WellSplitAt(Split(data), i);
  }

  /** Consecutively numbered non-empty lines laid end to end from the start of a file. */
  ghost predicate Tiled(lines: seq<Line>) {
    && (forall i | 0 <= i < |lines| :: lines[i].number == i + 1 && lines[i].bytes != [])
    && (forall i | 0 < i < |lines| :: lines[i - 1].End() == lines[i].start)
  }

  lemma {:induction false} LinesTiled(data: Bytes)
    ensures Tiled(Lines(data))
  {
    forall i | 0 <= i < |Lines(data)|
      ensures Lines(data)[i].number == i + 1 && Lines(data)[i].bytes != []
    {
      LineAt(data, i);
    }
    forall i | 0 < i < |Lines(data)| ensures Lines(data)[i - 1].End() == Lines(data)[i].start {
      LineAt(data, i - 1);
      LineAt(data, i);
    }
  }

  lemma {:induction false} TiledOrdered(lines: seq<Line>, i: nat, j: nat)
    requires Tiled(lines) && i < j < |lines|
    ensures lines[i].End() <= lines[j].start
    decreases j
  {
    assert lines[j - 1].End() == lines[j].start;
    if i < j - 1 {
      TiledOrdered(lines, i, j - 1);
    }
  }

  lemma {:induction false} FlattenSlice(pieces: seq<Bytes>, i: nat, j: nat)
    requires i <= j <= |pieces|
    ensures |Flatten(pieces[..i])| <= |Flatten(pieces[..j])| <= |Flatten(pieces)|
    ensures Flatten(pieces)[|Flatten(pieces[..i])|..|Flatten(pieces[..j])|] == Flatten(pieces[i..j])
  {
    var a, b, c := pieces[..i], pieces[i..j], pieces[j..];
    FlattenConcat(a, b);
    FlattenConcat(a + b, c);
    assert a + b == pieces[..j];
    assert a + b + c == pieces;
  }

  lemma {:induction false} NumberSlice(pieces: seq<Bytes>, i: nat, j: nat)
    requires i <= j <= |pieces|
    ensures Number(pieces[i..j], |Flatten(pieces[..i])|, i) == Number(pieces, 0, 0)[i..j]
  {
    NumberTake(pieces, 0, 0, j);
    NumberDrop(pieces[..j], 0, 0, i);
    DropTake(pieces, i, j - i);
    DropTake(Number(pieces, 0, 0), i, j - i);
  }

  lemma {:induction false} SplitSlice(data: Bytes, i: nat, j: nat)
    requires i <= j <= |Split(data)|
    ensures |Flatten(Split(data)[..i])| <= |Flatten(Split(data)[..j])| <= |data|
    ensures Split(data[|Flatten(Split(data)[..i])|..|Flatten(Split(data)[..j])|]) == Split(data)[i..j]
  {
    var pieces := Split(data);
    JoinSplit(data);
    FlattenSlice(pieces, i, j);
    SplitWellSplit(data);
    WellSplitSlice(pieces, i, j);
    SplitJoin(pieces[i..j]);
  }

  lemma {:induction false} LineSpan(data: Bytes, i: nat, j: nat)
    requires i < j <= |Lines(data)|
    ensures Lines(data)[i].start == |Flatten(Split(data)[..i])|
    ensures Lines(data)[j - 1].End() == |Flatten(Split(data)[..j])|
    ensures Lines(data)[i].start < Lines(data)[j - 1].End()
  {
    LineAt(data, i);
    LineAt(data, j - 1);
    if i < j - 1 {
      LinesTiled(data);
      TiledOrdered(Lines(data), i, j - 1);
    }
  }

  /** Reading the byte range of lines `i` up to `j` on its own yields exactly those lines of the
      whole file, with the same numbers, offsets and bytes. */
  lemma {:induction false} RangeLines(data: Bytes, i: nat, j: nat)
    requires i < j <= |Lines(data)|
    ensures Lines(data)[i].start < Lines(data)[j - 1].End() <= |data|
    ensures LinesAt(data[Lines(data)[i].start..Lines(data)[j - 1].End()], Lines(data)[i].start, i)
         == Lines(data)[i..j]
  {
    LineSpan(data, i, j);
    SplitSlice(data, i, j);
    NumberSlice(Split(data), i, j);
  }

  // ----- files that end at a line boundary

  predicate AtBoundary(data: Bytes) { data == [] || data[|data| - 1] == LF }

  lemma {:induction false} WellSplitSnoc(pieces: seq<Bytes>, p: Bytes)
    requires WellSplit(pieces) && IsLine(p) && (pieces != [] ==> Terminated(pieces[|pieces| - 1]))
    ensures WellSplit(pieces + [p])
  {
    if pieces != [] {
      WellSplitSnoc(pieces[1..], p);
      assert (pieces + [p])[1..] == pieces[1..] + [p];
    }
  }

  lemma {:induction false} LastPieceTerminated(data: Bytes)
    requires data != [] && AtBoundary(data)
    ensures Split(data) != [] && Terminated(Split(data)[|Split(data)| - 1])
  {
    var pieces := Split(data);
    var n := |pieces| - 1;
    JoinSplit(data);
    SplitWellSplit(data);
    WellSplitAt(pieces, n);
    FlattenTakeSnoc(pieces, n);
    assert pieces[..n + 1] == pieces;
  }

  /** A line appended to a file that ends at a line boundary becomes its next line. */
  lemma {:induction false} LinesSnoc(data: Bytes, p: Bytes)
    requires AtBoundary(data) && IsLine(p)
    ensures Lines(data + p) == Lines(data) + [Line(|Lines(data)| + 1, |data|, p)]
  {
    hide IsLine, WellSplit, Terminated, Number, Flatten, AtBoundary;
    var pieces := Split(data);
    JoinSplit(data);
    SplitWellSplit(data);
    if data != [] {
      LastPieceTerminated(data);
    }
    WellSplitSnoc(pieces, p);
    FlattenSnoc(pieces, p);
    SplitJoin(pieces + [p]);
    NumberSnoc(pieces, p, 0, 0);
  }

  lemma {:induction false} NumberSnoc(pieces: seq<Bytes>, p: Bytes, start: nat, number: nat)
    ensures Number(pieces + [p], start, number) ==
            Number(pieces, start, number) + [Line(number + |pieces| + 1, start + |Flatten(pieces)|, p)]
  {
    if pieces == [] {
      assert [] + [p] == [p];
    } else {
      var first, rest := Line(number + 1, start, pieces[0]), Number(pieces[1..], start + |pieces[0]|, number + 1);
      var l := Line(number + |pieces| + 1, start + |Flatten(pieces)|, p);
      NumberSnoc(pieces[1..], p, start + |pieces[0]|, number + 1);
      assert (pieces + [p])[1..] == pieces[1..] + [p];
      assert ([first] + rest) + [l] == [first] + (rest + [l]);
    }
  }

  /** More bytes after a line boundary are more lines. */
  lemma {:induction false} MoreLines(data: Bytes, more: Bytes)
    requires AtBoundary(data) && more != []
    ensures |Lines(data + more)| > |Lines(data)|
    decreases |more|
  {
    var n := LineLength(more);
    FirstLine(more);
    LinesSnoc(data, more[..n]);
    assert more == more[..n] + more[n..];
    if n < |more| {
      assert data + more == (data + more[..n]) + more[n..];
      MoreLines(data + more[..n], more[n..]);
    } else {
      assert data + more == data + more[..n];
    }
  }
}
