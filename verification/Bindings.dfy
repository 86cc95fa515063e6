/** Binding expressions: lists split at top-level commas, parsed into references and resolved to
    values. */
module Bindings {
  import opened Orders

  // ----- text

  /** Unicode white space. */
  predicate IsSpace(c: char) {
    '\t' <= c <= '\r' || c == ' ' || c == '\U{0085}' || c == '\U{00A0}' || c == '\U{1680}'
      || '\U{2000}' <= c <= '\U{200A}'
    || c == '\U{2028}' || c == '\U{2029}' || c == '\U{202F}' || c == '\U{205F}' || c == '\U{3000}'
  }

  function TrimStart(s: string): (r: string)
    ensures |r| <= |s| && (r != [] ==> !IsSpace(r[0]))
  {
    if s != [] && IsSpace(s[0]) then TrimStart(s[1..]) else s
  }

  function TrimEnd(s: string): (r: string)
    ensures |r| <= |s| && r <= s && (r != [] ==> !IsSpace(r[|r| - 1]))
  {
    if s != [] && IsSpace(s[|s| - 1]) then TrimEnd(s[..|s| - 1]) else s
  }

  function Trim(s: string): (r: string)
    ensures |r| <= |s|
  {
    TrimEnd(TrimStart(s))
  }

  lemma {:induction false} TrimmedTwice(s: string)
    ensures Trim(Trim(s)) == Trim(s)
  {
    var start := TrimStart(s);
    var t := TrimEnd(start);
    assert t != [] ==> t[0] == start[0];
    assert TrimStart(t) == t;
    assert TrimEnd(t) == t;
  }

  /** The first place of `c` in `s` from the `k`-th character on. */
  function Find(s: string, c: char, k: nat): (i: Option<nat>)
    requires k <= |s|
    ensures i.Some? ==> k <= i.value < |s| && s[i.value] == c
    decreases |s| - k
  {
    if k == |s| then None else if s[k] == c then Some(k) else Find(s, c, k + 1)
  }

  /** The last place of `c` among the first `k` characters of `s`. */
  function FindLast(s: string, c: char, k: nat): (i: Option<nat>)
    requires k <= |s|
    ensures i.Some? ==> i.value < k && s[i.value] == c
  {
    if k == 0 then None else if s[k - 1] == c then Some(k - 1) else FindLast(s, c, k - 1)
  }

  function StripPrefix(s: string, prefix: string): (r: Option<string>)
    ensures r.Some? ==> |r.value| + |prefix| == |s|
  {
    if prefix <= s then Some(s[|prefix|..]) else None
  }

  function StripQuotes(s: string): (r: string)
    ensures |r| <= |s|
  {
    if |s| >= 2 && s[0] == s[|s| - 1] && s[0] in {'\'', '\"'} then s[1..|s| - 1] else s
  }

  predicate IsIdentifierish(s: string) {
    s != [] && forall i | 0 <= i < |s| ::
      'a' <= s[i] <= 'z' || 'A' <= s[i] <= 'Z' || '0' <= s[i] <= '9' || s[i] in {'_', '-'}
  }

  // ----- splitting at top-level commas

  /** Where a scan stands: how many parentheses are open, and inside which quote. */
  datatype ScanState = ScanState(depth: nat, quote: Option<char>) {
    predicate Cuts(c: char) { quote == None && depth == 0 && c == ',' }

    function Step(c: char): ScanState {
      if quote.Some? then (if c == quote.value then ScanState(depth, None) else this)
      else if c == '\'' || c == '\"' then ScanState(depth, Some(c))
      else if c == '(' then ScanState(depth + 1, None)
      else if c == ')' && depth > 0 then ScanState(depth - 1, None)
      else this
    }
  }

  const CLEAN: ScanState := ScanState(0, None)

  function EndOf(s: string, start: ScanState): (end: ScanState) {
    if s == [] then start else EndOf(s[..|s| - 1], start).Step(s[|s| - 1])
  }

  /** Lengthens the open, last piece. */
  function Grow(pieces: seq<string>, c: char): (r: seq<string>)
    requires pieces != []
    ensures |r| == |pieces|
  {
    pieces[..|pieces| - 1] + [pieces[|pieces| - 1] + [c]]
  }

  /** The pieces of the first `k` characters; the last one is still open. */
  function Pieces(s: string, k: nat): (pieces: seq<string>)
    requires k <= |s|
    ensures pieces != []
  {
    if k == 0 then [[]]
    else if EndOf(s[..k - 1], CLEAN).Cuts(s[k - 1]) then Pieces(s, k - 1) + [[]]
    else Grow(Pieces(s, k - 1), s[k - 1])
  }

  lemma {:induction false} GrowLast(pieces: seq<string>, last: string, c: char)
    ensures Grow(pieces + [last], c) == pieces + [last + [c]]
  {
  }

  function NonEmptyParts(pieces: seq<string>, n: nat): (parts: seq<string>)
    requires n <= |pieces|
  {
    if n == 0 then [] else NonEmptyParts(pieces, n - 1) + if Trim(pieces[n - 1]) != []
      then [Trim(pieces[n - 1])] else []
  }

  function Split(s: string): (parts: seq<string>) {
    NonEmptyParts(Pieces(s, |s|), |Pieces(s, |s|)|)
  }

  method SplitTopLevelCommas(raw: string) returns (parts: seq<string>)
    ensures parts == Split(raw)
  {
    hide Trim, NonEmptyParts, Grow;
    var pieces: seq<string>, start: nat, state := [], 0, CLEAN;
    for k := 0 to |raw|
      invariant start <= k && state == EndOf(raw[..k], CLEAN)
      invariant pieces + [raw[start..k]] == Pieces(raw, k)
    {
      var c := raw[k];
      GrowLast(pieces, raw[start..k], c);
      assert raw[..k + 1][..k] == raw[..k];
      assert raw[start..k + 1] == raw[start..k] + [c];
      if state.Cuts(c) {
        pieces := pieces + [raw[start..k]];
        start := k + 1;
        assert raw[start..k + 1] == [];
      }
      state := state.Step(c);
    }
    assert raw[..|raw|] == raw;
    pieces := pieces + [raw[start..|raw|]];
    parts := DropEmpty(pieces);
  }

  method DropEmpty(pieces: seq<string>) returns (parts: seq<string>)
    ensures parts == NonEmptyParts(pieces, |pieces|)
  {
    parts := [];
    for i := 0 to |pieces|
      invariant parts == NonEmptyParts(pieces, i)
    {
      if Trim(pieces[i]) != [] {
        parts := parts + [Trim(pieces[i])];
      }
    }
  }

  // ----- pieces do not split again

  /** Scanned from a clean start, the text has no top-level comma. */
  ghost predicate Whole(s: string) {
    forall k | 0 <= k < |s| :: !EndOf(s[..k], CLEAN).Cuts(s[k])
  }

  /** Scanned from a clean start, the text also leaves nothing open. */
  ghost predicate Closed(s: string) { Whole(s) && EndOf(s, CLEAN) == CLEAN }

  lemma {:induction false} EndOfConcat(a: string, b: string, start: ScanState)
    ensures EndOf(a + b, start) == EndOf(b, EndOf(a, start))
  {
    if b == [] {
      assert a + b == a;
    } else {
      EndOfConcat(a, b[..|b| - 1], start);
      assert (a + b)[..|a + b| - 1] == a + b[..|b| - 1];
    }
  }

  lemma {:induction false} WholeSnoc(s: string, c: char)
    requires Whole(s) && !EndOf(s, CLEAN).Cuts(c)
    ensures Whole(s + [c])
  {
    forall k | 0 <= k < |s| + 1 ensures !EndOf((s + [c])[..k], CLEAN).Cuts((s + [c])[k]) {
      assert (s + [c])[..k] == s[..k];
      assert s[..|s|] == s;
    }
  }

  /** All pieces but the open one are closed, the open one is whole, and the scan stands where scanning
      the open piece alone would. */
  ghost predicate PiecesWhole(pieces: seq<string>, end: ScanState) {
    && pieces != []
    && (forall i | 0 <= i < |pieces| - 1 :: Closed(pieces[i]))
    && Whole(pieces[|pieces| - 1])
    && EndOf(pieces[|pieces| - 1], CLEAN) == end
  }

  lemma {:induction false} PiecesAreWhole(s: string, k: nat)
    requires k <= |s|
    ensures PiecesWhole(Pieces(s, k), EndOf(s[..k], CLEAN))
  {
    hide PiecesWhole, Grow;
    if k == 0 {
      FirstPieceWhole();
      assert s[..0] == [];
    } else {
      var state, c := EndOf(s[..k - 1], CLEAN), s[k - 1];
      PiecesAreWhole(s, k - 1);
      assert s[..k][..k - 1] == s[..k - 1];
      NextPieceWhole(Pieces(s, k - 1), state, c);
    }
  }

  lemma {:induction false} FirstPieceWhole()
    ensures PiecesWhole([[]], EndOf([], CLEAN))
  {
  }

  lemma {:induction false} NextPieceWhole(pieces: seq<string>, state: ScanState, c: char)
    requires PiecesWhole(pieces, state)
    ensures state.Cuts(c) ==> PiecesWhole(pieces + [[]], state.Step(c))
    ensures !state.Cuts(c) ==> PiecesWhole(Grow(pieces, c), state.Step(c))
  {
    var open := pieces[|pieces| - 1];
    NothingIsWhole();
    hide Whole;
    if !state.Cuts(c) {
      WholeSnoc(open, c);
      assert (open + [c])[..|open|] == open;
    }
  }

  lemma {:induction false} NothingIsWhole()
    ensures Whole([])
  {
  }

  lemma {:induction false} SpaceChangesNothing(state: ScanState, c: char)
    requires IsSpace(c) && (state.quote.Some? ==> state.quote.value in {'\'', '\"'})
    ensures state.Step(c) == state && !state.Cuts(c)
  {
  }

  lemma {:induction false} QuoteIsQuote(s: string, start: ScanState)
    requires start.quote.Some? ==> start.quote.value in {'\'', '\"'}
    ensures EndOf(s, start).quote.Some? ==> EndOf(s, start).quote.value in {'\'', '\"'}
  {
    if s != [] {
      QuoteIsQuote(s[..|s| - 1], start);
    }
  }

  lemma {:induction false} DropLeadingSpace(s: string)
    requires s != [] && IsSpace(s[0])
    ensures Whole(s) ==> Whole(s[1..])
    ensures EndOf(s[1..], CLEAN) == EndOf(s, CLEAN)
  {
    var rest := s[1..];
    assert s == [s[0]] + rest;
    SpaceChangesNothing(CLEAN, s[0]);
    assert EndOf([s[0]], CLEAN) == CLEAN by {
      assert [s[0]][..0] == [];
    }
    EndOfConcat([s[0]], rest, CLEAN);
    if Whole(s) {
      forall k | 0 <= k < |rest| ensures !EndOf(rest[..k], CLEAN).Cuts(rest[k]) {
        EndOfConcat([s[0]], rest[..k], CLEAN);
        assert s[..k + 1] == [s[0]] + rest[..k];
        assert !EndOf(s[..k + 1], CLEAN).Cuts(s[k + 1]);
      }
    }
  }

  lemma {:induction false} DropTrailingSpace(s: string)
    requires s != [] && IsSpace(s[|s| - 1])
    ensures Whole(s) ==> Whole(s[..|s| - 1])
    ensures EndOf(s[..|s| - 1], CLEAN) == EndOf(s, CLEAN)
  {
    var init := s[..|s| - 1];
    QuoteIsQuote(init, CLEAN);
    SpaceChangesNothing(EndOf(init, CLEAN), s[|s| - 1]);
    if Whole(s) {
      forall k | 0 <= k < |init| ensures !EndOf(init[..k], CLEAN).Cuts(init[k]) {
        assert init[..k] == s[..k];
        assert !EndOf(s[..k], CLEAN).Cuts(s[k]);
      }
    }
  }

  lemma {:induction false} TrimStartKeeps(s: string)
    ensures (Whole(s) ==> Whole(TrimStart(s))) && EndOf(TrimStart(s), CLEAN) == EndOf(s, CLEAN)
  {
    hide Whole;
    if s != [] && IsSpace(s[0]) {
      DropLeadingSpace(s);
      TrimStartKeeps(s[1..]);
    }
  }

  lemma {:induction false} TrimEndKeeps(s: string)
    ensures (Whole(s) ==> Whole(TrimEnd(s))) && EndOf(TrimEnd(s), CLEAN) == EndOf(s, CLEAN)
  {
    hide Whole;
    if s != [] && IsSpace(s[|s| - 1]) {
      DropTrailingSpace(s);
      TrimEndKeeps(s[..|s| - 1]);
    }
  }

  /** White space around a text matters to no scan. */
  lemma {:induction false} TrimKeeps(s: string)
    ensures (Whole(s) ==> Whole(Trim(s))) && EndOf(Trim(s), CLEAN) == EndOf(s, CLEAN)
  {
    hide Whole;
    TrimStartKeeps(s);
    TrimEndKeeps(TrimStart(s));
  }

  /** The parts of a list, as a list may be written: trimmed, not empty, closed but for the last. */
  ghost predicate GoodParts(parts: seq<string>) {
    && (forall i | 0 <= i < |parts| :: parts[i] != [] && Trim(parts[i]) == parts[i] && Whole(parts[i]))
    && (forall i | 0 <= i < |parts| - 1 :: Closed(parts[i]))
  }

  lemma {:induction false} NonEmptyPartsGood(pieces: seq<string>, n: nat, end: ScanState)
    requires n <= |pieces| && PiecesWhole(pieces, end)
    ensures GoodParts(NonEmptyParts(pieces, n))
    ensures n < |pieces| ==> forall i | 0 <= i < |NonEmptyParts(pieces, n)| :: Closed(NonEmptyParts(pieces, n)[i])
  {
    hide Trim, Whole, EndOf;
    if n > 0 {
      NonEmptyPartsGood(pieces, n - 1, end);
      TrimmedTwice(pieces[n - 1]);
      TrimKeeps(pieces[n - 1]);
      assert n < |pieces| ==> Closed(pieces[n - 1]);
      assert n == |pieces| ==> Whole(pieces[n - 1]);
    }
  }

  /** Every part of a split could stand in a list again. */
  lemma {:induction false} SplitIsGood(s: string)
    ensures GoodParts(Split(s))
  {
    hide GoodParts, PiecesWhole;
    PiecesAreWhole(s, |s|);
    NonEmptyPartsGood(Pieces(s, |s|), |Pieces(s, |s|)|, EndOf(s[..|s|], CLEAN));
  }

  // ----- writing a list and splitting it again

  function Join(parts: seq<string>): (s: string) {
    if parts == [] then []
    else if |parts| == 1 then parts[0]
    else Join(parts[..|parts| - 1]) + [','] + parts[|parts| - 1]
  }

  /** Appending a whole text to one that left nothing open only lengthens the open piece. */
  lemma {:induction false} PiecesOfWhole(a: string, b: string, k: nat, closed: seq<string>)
    requires k <= |b| && EndOf(a, CLEAN) == CLEAN && Whole(b) && Pieces(a, |a|) == closed + [[]]
    ensures Pieces(a + b, |a| + k) == closed + [b[..k]]
  {
    hide Grow, Whole;
    if k == 0 {
      PiecesPrefix(a, b, |a|);
      assert b[..0] == [];
    } else {
      PiecesOfWhole(a, b, k - 1, closed);
      EndOfConcat(a, b[..k - 1], CLEAN);
      assert (a + b)[..|a| + k - 1] == a + b[..k - 1];
      WholeAt(b, k - 1);
      GrowLast(closed, b[..k - 1], b[k - 1]);
      assert b[..k] == b[..k - 1] + [b[k - 1]];
    }
  }

  lemma {:induction false} WholeAt(s: string, k: nat)
    requires Whole(s) && k < |s|
    ensures !EndOf(s[..k], CLEAN).Cuts(s[k])
  {
  }

  lemma {:induction false} PiecesPrefix(a: string, b: string, k: nat)
    requires k <= |a|
    ensures Pieces(a + b, k) == Pieces(a, k)
  {
    if k > 0 {
      PiecesPrefix(a, b, k - 1);
      assert (a + b)[..k - 1] == a[..k - 1];
    }
  }

  lemma {:induction false} PiecesOfOne(b: string)
    requires Whole(b)
    ensures Pieces(b, |b|) == [b]
  {
    hide Whole;
    assert Pieces([], 0) == [] + [[]];
    PiecesOfWhole([], b, |b|, []);
    assert [] + b == b && b[..|b|] == b && [] + [b] == [b];
  }

  /** After a comma at top level a new, empty piece is open. */
  lemma {:induction false} PiecesAfterComma(s: string)
    requires EndOf(s, CLEAN) == CLEAN
    ensures Pieces(s + [','], |s| + 1) == Pieces(s, |s|) + [[]] && EndOf(s + [','], CLEAN) == CLEAN
  {
    PiecesPrefix(s, [','], |s|);
    assert (s + [','])[..|s|] == s;
  }

  lemma {:induction false} PiecesOfMore(s: string, closed: seq<string>, last: string)
    requires EndOf(s, CLEAN) == CLEAN && Pieces(s, |s|) == closed && Whole(last)
    ensures var longer := s + [','] + last;
      Pieces(longer, |longer|) == closed + [last] && EndOf(longer, CLEAN) == EndOf(last, CLEAN)
  {
    hide Whole;
    PiecesAfterComma(s);
    PiecesOfWhole(s + [','], last, |last|, closed);
    EndOfConcat(s + [','], last, CLEAN);
    assert last[..|last|] == last;
  }

  lemma {:induction false} PiecesOfJoin(parts: seq<string>)
    requires GoodParts(parts) && parts != []
    ensures Pieces(Join(parts), |Join(parts)|) == parts
    ensures EndOf(Join(parts), CLEAN) == EndOf(parts[|parts| - 1], CLEAN)
  {
    hide Whole, EndOf, Pieces, Trim;
    var n := |parts| - 1;
    if n == 0 {
      PiecesOfOne(parts[0]);
    } else {
      var init, last := parts[..n], parts[n];
      PiecesOfJoin(init);
      assert init[n - 1] == parts[n - 1] && Closed(parts[n - 1]);
      PiecesOfMore(Join(init), init, last);
      assert parts == init + [last];
    }
  }

  lemma {:induction false} AllPartsStay(parts: seq<string>, n: nat)
    requires n <= |parts| && GoodParts(parts)
    ensures NonEmptyParts(parts, n) == parts[..n]
  {
    hide Trim, Whole;
    if n > 0 {
      AllPartsStay(parts, n - 1);
      assert parts[..n] == parts[..n - 1] + [parts[n - 1]];
    }
  }

  /** Round trip: parts that may stand in a list, written as one, are split into just those parts. */
  lemma {:induction false} SplitOfJoin(parts: seq<string>)
    requires GoodParts(parts)
    ensures Split(Join(parts)) == parts
  {
    if parts == [] {
      assert Pieces([], 0) == [[]];
      assert NonEmptyParts([[]], 1) == [] by {
        assert Trim([]) == [];
        assert NonEmptyParts([[]], 0) == [];
      }
    } else {
      PiecesOfJoin(parts);
      AllPartsStay(parts, |parts|);
      assert parts[..|parts|] == parts;
    }
  }

  /** For every text, joining the parts it splits into and splitting again changes nothing. */
  lemma {:induction false} SplitIsStable(s: string)
    ensures Split(Join(Split(s))) == Split(s)
  {
    SplitIsGood(s);
    SplitOfJoin(Split(s));
  }

  /** A part of a split is itself a single part. */
  lemma {:induction false} PartsDoNotSplit(s: string, i: nat)
    requires i < |Split(s)|
    ensures Split(Split(s)[i]) == [Split(s)[i]]
  {
    hide Split;
    SplitIsGood(s);
    var part := Split(s)[i];
    assert GoodParts([part]);
    SplitOfJoin([part]);
  }
}
