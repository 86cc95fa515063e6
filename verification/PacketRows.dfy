/** Token estimates in 32-bit arithmetic and the greedy split of event rows under a token budget,
    which the packet planner and the source packet materializer both carry. */
module PacketRows {
  import opened Orders

  const U32: nat := 0x1_0000_0000

  /** What is kept of an unsigned 32-bit sum or product when overflow is not trapped. */
  function Wrap(n: nat): (r: nat)
    ensures r < U32 && r <= n && (n < U32 ==> r == n)
  {
    n % U32
  }

  /** A source event; `text` holds one character per byte. */
  datatype Event = Event(ts: string, sessionId: string, kind: string, text: string, charCount: Option<nat>) {
    /** The event's share of the character count. */
    function Chars(): (n: nat)
      ensures n < U32
    {
      match charCount case Some(n) => Wrap(n) case None => Wrap(|text|)
    }

    /** What one event costs on its own. */
    function Tokens(): (n: nat)
      ensures 16 <= n <= MAX_ROW_TOKENS
    {
      Chars() / 4 + 16
    }
  }

  /** The dearest possible single event. */
  const MAX_ROW_TOKENS: nat := 0x4000_000F

  function TotalChars(events: seq<Event>): (n: nat) {
    if events == [] then 0 else TotalChars(events[..|events| - 1]) + events[|events| - 1].Chars()
  }

  function TotalTokens(events: seq<Event>): (n: nat) {
    if events == [] then 0 else TotalTokens(events[..|events| - 1]) + events[|events| - 1].Tokens()
  }

  function CharCount(events: seq<Event>): (n: nat) { Wrap(TotalChars(events)) }

  function Max(a: nat, b: nat): nat { if a < b then b else a }

  function EstimateTokens(events: seq<Event>): (n: nat) {
    Max(Wrap(CharCount(events) / 4 + Wrap(Wrap(|events|) * 16)), 1)
  }

  lemma {:induction false} TotalsSnoc(events: seq<Event>, e: Event)
    ensures TotalChars(events + [e]) == TotalChars(events) + e.Chars()
    ensures TotalTokens(events + [e]) == TotalTokens(events) + e.Tokens()
  {
    assert (events + [e])[..|events|] == events;
  }

  lemma {:induction false} TotalsConcat(a: seq<Event>, b: seq<Event>)
    ensures TotalChars(a + b) == TotalChars(a) + TotalChars(b)
    ensures TotalTokens(a + b) == TotalTokens(a) + TotalTokens(b)
  {
    if b == [] {
      assert a + b == a;
    } else {
      var n := |b| - 1;
      TotalsConcat(a, b[..n]);
      TotalsSnoc(a + b[..n], b[n]);
      TotalsSnoc(b[..n], b[n]);
      assert b == b[..n] + [b[n]];
      ConcatAssoc(a, b[..n], [b[n]]);
    }
  }

  /** A single event's estimate is its own cost. */
  lemma {:induction false} EstimateOfOne(e: Event)
    ensures EstimateTokens([e]) == e.Tokens()
  {
    assert [e][..0] == [];
    assert TotalChars([e]) == e.Chars();
  }

  /** Rounding: a packet's estimate exceeds the sum of its events' costs by at most three quarters
      of a token an event; overflow could only lower it. */
  lemma {:induction false} EstimateNearTotal(events: seq<Event>)
    requires events != []
    ensures EstimateTokens(events) <= TotalTokens(events) + 3 * |events| / 4
    ensures 16 * |events| <= TotalTokens(events)
  {
    RemaindersBound(events);
    assert EstimateTokens(events) <= Max(TotalChars(events) / 4 + |events| * 16, 1);
  }

  lemma {:induction false} RemaindersBound(events: seq<Event>)
    ensures TotalChars(events) <= 4 * (TotalTokens(events) - 16 * |events|) + 3 * |events|
    ensures 16 * |events| <= TotalTokens(events)
  {
    if events != [] {
      RemaindersBound(events[..|events| - 1]);
    }
  }

  // ----- splitting

  /** The state of the split loop: closed chunks, the open chunk and its running cost. */
  datatype SplitState = SplitState(chunks: seq<seq<Event>>, current: seq<Event>, tokens: nat) {
    function Take(row: Event, target: nat): SplitState {
      if current != [] && Wrap(tokens + row.Tokens()) > target
      then SplitState(chunks + [current], [row], row.Tokens())
      else SplitState(chunks, current + [row], Wrap(tokens + row.Tokens()))
    }

    function Close(): seq<seq<Event>> {
      if current != [] then chunks + [current] else chunks
    }
  }

  function SplitUpTo(rows: seq<Event>, target: nat, k: nat): (s: SplitState)
    requires k <= |rows|
  {
    if k == 0 then SplitState([], [], 0) else SplitUpTo(rows, target, k - 1).Take(rows[k - 1], target)
  }

  function Chunks(rows: seq<Event>, target: nat): (chunks: seq<seq<Event>>) {
    SplitUpTo(rows, target, |rows|).Close()
  }

  method SplitEventRows(rows: seq<Event>, target: nat) returns (chunks: seq<seq<Event>>)
    ensures chunks == Chunks(rows, target)
  {
    hide EstimateTokens, Event.Tokens, Wrap;
    chunks := [];
    var current: seq<Event>, currentTokens: nat := [], 0;
    for k := 0 to |rows|
      invariant SplitState(chunks, current, currentTokens) == SplitUpTo(rows, target, k)
    {
      var row := rows[k];
      EstimateOfOne(row);
      var rowTokens := EstimateTokens([row]);
      if current != [] && Wrap(currentTokens + rowTokens) > target {
        chunks := chunks + [current];
        current := [];
        currentTokens := 0;
      }
      current := current + [row];
      currentTokens := Wrap(currentTokens + rowTokens);
    }
    if current != [] {
      chunks := chunks + [current];
    }
  }

  ghost predicate NonEmptyChunks(chunks: seq<seq<Event>>) {
    forall i | 0 <= i < |chunks| :: chunks[i] != []
  }

  /** A chunk may be a single row of any cost; otherwise its rows together fit the budget. */
  ghost predicate WithinBudget(chunk: seq<Event>, target: nat) {
    |chunk| == 1 || TotalTokens(chunk) <= target
  }

  ghost predicate AllWithinBudget(chunks: seq<seq<Event>>, target: nat) {
    forall i | 0 <= i < |chunks| :: WithinBudget(chunks[i], target)
  }

  /** No chunk could have taken the row that opens the next one. */
  ghost predicate Greedy(chunks: seq<seq<Event>>, target: nat) {
    forall i | 0 < i < |chunks| ::
      chunks[i] != [] && TotalTokens(chunks[i - 1]) + chunks[i][0].Tokens() > target
  }

  /** Whatever the budget, splitting loses, repeats and reorders nothing, and no chunk is empty. */
  lemma {:induction false} SplitKeepsRows(rows: seq<Event>, target: nat, k: nat)
    requires k <= |rows|
    ensures var s := SplitUpTo(rows, target, k);
      && Flatten(s.chunks) + s.current == rows[..k]
      && NonEmptyChunks(s.chunks)
      && (k > 0 ==> s.current != [])
  {
    if k > 0 {
      SplitKeepsRows(rows, target, k - 1);
      var s, row := SplitUpTo(rows, target, k - 1), rows[k - 1];
      assert rows[..k] == rows[..k - 1] + [row];
      FlattenSnoc(s.chunks, s.current);
      ConcatAssoc(Flatten(s.chunks), s.current, [row]);
    }
  }

  lemma {:induction false} ChunksPartition(rows: seq<Event>, target: nat)
    ensures Flatten(Chunks(rows, target)) == rows && NonEmptyChunks(Chunks(rows, target))
  {
    var s := SplitUpTo(rows, target, |rows|);
    SplitKeepsRows(rows, target, |rows|);
    FlattenSnoc(s.chunks, s.current);
    assert rows[..|rows|] == rows;
    assert Flatten(s.chunks) + [] == Flatten(s.chunks);
  }

  /** Overflow can only lower the running cost, so no chunk is closed before it has to be. */
  ghost predicate NeverEarly(s: SplitState, target: nat) {
    && s.tokens <= TotalTokens(s.current)
    && (s.current == [] ==> s.chunks == [])
    && Greedy(s.Close(), target)
  }

  /** While the running cost cannot overflow it is exact and closed chunks are within budget. */
  ghost predicate SplitInv(s: SplitState, target: nat) {
    && s.tokens == TotalTokens(s.current)
    && (s.current != [] ==> WithinBudget(s.current, target))
    && AllWithinBudget(s.chunks, target)
  }

  lemma {:induction false} CloseChunk(chunks: seq<seq<Event>>, current: seq<Event>, row: Event, target: nat)
    requires Greedy(chunks + [current], target) && TotalTokens(current) + row.Tokens() > target
    ensures Greedy(chunks + [current] + [[row]], target)
  {
    hide TotalTokens;
    var before: seq<seq<Event>>, after: seq<seq<Event>> := chunks + [current], chunks + [current] + [[row]];
    forall i | 0 < i < |after|
      ensures after[i] != [] && TotalTokens(after[i - 1]) + after[i][0].Tokens() > target
    {
      if i < |before| {
        assert after[i] == before[i] && after[i - 1] == before[i - 1];
      }
    }
  }

  lemma {:induction false} GrowChunk(chunks: seq<seq<Event>>, current: seq<Event>, row: Event, target: nat)
    requires current != [] && Greedy(chunks + [current], target)
    ensures Greedy(chunks + [current + [row]], target)
  {
    hide TotalTokens;
    var before: seq<seq<Event>>, after: seq<seq<Event>> := chunks + [current], chunks + [current + [row]];
    forall i | 0 < i < |after|
      ensures after[i] != [] && TotalTokens(after[i - 1]) + after[i][0].Tokens() > target
    {
      assert after[i - 1] == before[i - 1] && after[i][0] == before[i][0];
    }
  }

  lemma {:induction false} OneChunkGreedy(row: Event, target: nat)
    ensures Greedy([[row]], target)
  {
  }

  lemma {:induction false} TakeNeverEarly(s: SplitState, row: Event, target: nat)
    requires NeverEarly(s, target)
    ensures NeverEarly(s.Take(row, target), target)
  {
    hide Greedy;
    TotalsSnoc(s.current, row);
    TotalsSnoc([], row);
    assert [] + [row] == [row];
    if s.current == [] {
      OneChunkGreedy(row, target);
      assert s.Take(row, target).Close() == [[row]];
    } else if Wrap(s.tokens + row.Tokens()) > target {
      CloseChunk(s.chunks, s.current, row, target);
    } else {
      GrowChunk(s.chunks, s.current, row, target);
    }
  }

  lemma {:induction false} SplitNeverEarly(rows: seq<Event>, target: nat, k: nat)
    requires k <= |rows|
    ensures NeverEarly(SplitUpTo(rows, target, k), target)
  {
    hide NeverEarly;
    if k == 0 {
      NothingEarly(target);
    } else {
      SplitNeverEarly(rows, target, k - 1);
      TakeNeverEarly(SplitUpTo(rows, target, k - 1), rows[k - 1], target);
    }
  }

  lemma {:induction false} NothingEarly(target: nat)
    ensures NeverEarly(SplitState([], [], 0), target)
  {
  }

  /** For every budget, no chunk could have taken the row that opens the next one. */
  lemma {:induction false} ChunksGreedy(rows: seq<Event>, target: nat)
    ensures Greedy(Chunks(rows, target), target)
  {
    hide Greedy, TotalTokens, Event.Tokens;
    SplitNeverEarly(rows, target, |rows|);
  }

  /** What no running cost of the split can exceed before it is compared with the budget. */
  ghost predicate CannotOverflow(rows: seq<Event>, target: nat) {
    target + MAX_ROW_TOKENS < U32 || TotalTokens(rows) < U32
  }

  lemma {:induction false} TakeKeepsInv(s: SplitState, row: Event, target: nat)
    requires SplitInv(s, target) && Wrap(s.tokens + row.Tokens()) == s.tokens + row.Tokens()
    ensures SplitInv(s.Take(row, target), target)
  {
    TotalsSnoc(s.current, row);
    TotalsSnoc([], row);
    assert [] + [row] == [row];
  }

  lemma {:induction false} TotalOfPrefix(rows: seq<Event>, k: nat)
    requires k <= |rows|
    ensures TotalTokens(rows[..k]) <= TotalTokens(rows)
  {
    assert rows == rows[..k] + rows[k..];
    TotalsConcat(rows[..k], rows[k..]);
  }

  lemma {:induction false} TailCosts(rows: seq<Event>, k: nat, before: seq<Event>, open: seq<Event>)
    requires k < |rows| && before + open == rows[..k]
    ensures TotalTokens(open) + rows[k].Tokens() <= TotalTokens(rows)
  {
    hide TotalTokens, Event.Tokens;
    TotalsConcat(before, open);
    TotalsSnoc(rows[..k], rows[k]);
    assert rows[..k + 1] == rows[..k] + [rows[k]];
    TotalOfPrefix(rows, k + 1);
  }

  /** The open chunk and the row after it are part of the rows. */
  lemma {:induction false} OpenChunkCosts(rows: seq<Event>, target: nat, k: nat)
    requires k < |rows|
    ensures TotalTokens(SplitUpTo(rows, target, k).current) + rows[k].Tokens() <= TotalTokens(rows)
  {
    hide TotalTokens, Event.Tokens, SplitUpTo;
    var s := SplitUpTo(rows, target, k);
    SplitKeepsRows(rows, target, k);
    TailCosts(rows, k, Flatten(s.chunks), s.current);
  }

  /** The next running cost does not overflow. */
  lemma {:induction false} CostFits(rows: seq<Event>, target: nat, k: nat)
    requires k < |rows| && CannotOverflow(rows, target) && SplitInv(SplitUpTo(rows, target, k), target)
    ensures var s := SplitUpTo(rows, target, k);
      Wrap(s.tokens + rows[k].Tokens()) == s.tokens + rows[k].Tokens()
  {
    hide TotalTokens, SplitUpTo, AllWithinBudget;
    OpenChunkCosts(rows, target, k);
    OneRowTotal(SplitUpTo(rows, target, k).current);
  }

  lemma {:induction false} OneRowTotal(chunk: seq<Event>)
    ensures |chunk| == 1 ==> TotalTokens(chunk) <= MAX_ROW_TOKENS
    ensures |chunk| == 0 ==> TotalTokens(chunk) == 0
  {
    if |chunk| == 1 {
      TotalsSnoc([], chunk[0]);
      assert [] + [chunk[0]] == chunk;
    }
  }

  lemma {:induction false} SplitUpToInv(rows: seq<Event>, target: nat, k: nat)
    requires CannotOverflow(rows, target) && k <= |rows|
    ensures SplitInv(SplitUpTo(rows, target, k), target)
  {
    hide SplitInv, CannotOverflow;
    if k == 0 {
      EmptyInv(target);
    } else {
      SplitUpToInv(rows, target, k - 1);
      CostFits(rows, target, k - 1);
      TakeKeepsInv(SplitUpTo(rows, target, k - 1), rows[k - 1], target);
    }
  }

  lemma {:induction false} EmptyInv(target: nat)
    ensures SplitInv(SplitState([], [], 0), target)
  {
  }

  /** Every chunk is a single row or within budget, when either the target leaves room for one more row
      below 2^32 or the rows together cost less than that. */
  lemma {:induction false} ChunksWithinBudget(rows: seq<Event>, target: nat)
    requires CannotOverflow(rows, target)
    ensures AllWithinBudget(Chunks(rows, target), target)
  {
    hide WithinBudget, TotalTokens, Event.Tokens, CannotOverflow;
    SplitUpToInv(rows, target, |rows|);
  }

  // ----- optimality

  lemma {:induction false} FlattenUncons(ss: seq<seq<Event>>)
    requires ss != []
    ensures Flatten(ss) == ss[0] + Flatten(ss[1..])
  {
  }

  /** If `p` ends after `pre + c` does, it holds `pre + c` and the row after it. */
  lemma {:induction false} OverlapExceeds(pre: seq<Event>, c: seq<Event>, x: Event, rest: seq<Event>,
                                          p: seq<Event>, tail: seq<Event>, target: nat)
    requires pre + c + [x] + rest == p + tail && |pre + c| < |p| && c != []
    requires TotalTokens(c) + x.Tokens() > target
    ensures !WithinBudget(p, target)
  {
    hide Event.Tokens;
    var whole := pre + c + [x] + rest;
    var z := p[|pre| + |c| + 1..];
    assert p == whole[..|p|];
    assert p == (pre + (c + [x])) + z;
    TotalsConcat(pre + (c + [x]), z);
    TotalsConcat(pre, c + [x]);
    TotalsSnoc(c, x);
  }

  lemma {:induction false} DropPrefix<T>(a: seq<T>, b: seq<T>, p: seq<T>, tail: seq<T>)
    requires a + b == p + tail && |p| <= |a|
    ensures a[|p|..] + b == tail
  {
    assert tail == (a + b)[|p|..];
  }

  /** Greedy chunks starting no earlier than another partition within budget are no more. */
  lemma {:induction false} GreedyStaysAhead(pre: seq<Event>, greedy: seq<seq<Event>>, other: seq<seq<Event>>,
                                            target: nat)
    requires pre + Flatten(greedy) == Flatten(other)
    requires NonEmptyChunks(greedy) && Greedy(greedy, target)
    requires AllWithinBudget(other, target)
    ensures |greedy| <= |other|
    decreases |other|
  {
    hide TotalTokens, Event.Tokens;
    if greedy != [] {
      FlattenUncons(greedy);
      var c, later := greedy[0], greedy[1..];
      assert |c| > 0;
      assert |Flatten(greedy)| == |c| + |Flatten(later)|;
      assert |Flatten(other)| > 0;
      assert other != [];
      FlattenUncons(other);
      var p, tail := other[0], Flatten(other[1..]);
      if |greedy| > 1 {
        FlattenUncons(later);
        var x := later[0][0];
        var rest := later[0][1..] + Flatten(later[1..]);
        assert Flatten(later) == [x] + rest;
        assert pre + c + [x] + rest == p + tail;
        if |pre + c| < |p| {
          OverlapExceeds(pre, c, x, rest, p, tail, target);
          assert false;
        }
        ConcatAssoc(pre, c, Flatten(later));
        DropPrefix(pre + c, Flatten(later), p, tail);
        GreedyStaysAhead((pre + c)[|p|..], later, other[1..], target);
      }
    }
  }

  /** For every budget, no contiguous partition that meets the chunk rule has fewer chunks than the
      greedy split. */
  lemma {:induction false} SplitIsOptimal(rows: seq<Event>, target: nat, other: seq<seq<Event>>)
    requires Flatten(other) == rows && AllWithinBudget(other, target)
    ensures |Chunks(rows, target)| <= |other|
  {
    hide TotalTokens, Chunks;
    ChunksPartition(rows, target);
    ChunksGreedy(rows, target);
    GreedyStaysAhead([], Chunks(rows, target), other, target);
  }

  // ----- where 32-bit arithmetic matters

  function Costing(tokens: nat): (e: Event)
    requires 16 <= tokens <= MAX_ROW_TOKENS
    ensures e.Tokens() == tokens
  {
    Event("", "", "", "", Some(4 * (tokens - 16)))
  }

  /** Four rows whose costs add up to exactly 2^32. */
  function OverflowingRows(): (rows: seq<Event>) {
    var dear := Costing(MAX_ROW_TOKENS);
    [dear, dear, Costing(U32 - 3 * MAX_ROW_TOKENS), dear]
  }

  lemma {:induction false} OverflowingRowsTotal()
    ensures TotalTokens(OverflowingRows()) == U32
  {
    var r := OverflowingRows();
    TotalsSnoc([], r[0]);
    TotalsSnoc([r[0]], r[1]);
    TotalsSnoc([r[0], r[1]], r[2]);
    TotalsSnoc([r[0], r[1], r[2]], r[3]);
    assert r == [r[0], r[1], r[2]] + [r[3]] && [r[0], r[1], r[2]] == [r[0], r[1]] + [r[2]];
    assert [r[0], r[1]] == [r[0]] + [r[1]] && [r[0]] == [] + [r[0]];
  }

  lemma {:induction false} OverflowingRowsStayTogether(target: nat)
    requires target < U32 <= target + MAX_ROW_TOKENS
    ensures Chunks(OverflowingRows(), target) == [OverflowingRows()]
  {
    var r := OverflowingRows();
    assert SplitUpTo(r, target, 1) == SplitState([], [r[0]], MAX_ROW_TOKENS);
    assert SplitUpTo(r, target, 2) == SplitState([], [r[0], r[1]], 2 * MAX_ROW_TOKENS);
    assert SplitUpTo(r, target, 3) == SplitState([], [r[0], r[1], r[2]], U32 - MAX_ROW_TOKENS);
    assert SplitUpTo(r, target, 4) == SplitState([], [r[0], r[1], r[2], r[3]], 0);
  }

  /** The budget rule holds for every input exactly when the target leaves room for one more row
      below 2^32; above that, the running cost can wrap and an oversized chunk goes unnoticed. */
  lemma {:induction false} BudgetRuleIffTargetLeavesRoom(target: nat)
    requires target < U32
    ensures (forall rows :: AllWithinBudget(Chunks(rows, target), target)) <==> target + MAX_ROW_TOKENS < U32
  {
    hide TotalTokens, Chunks, OverflowingRows;
    if target + MAX_ROW_TOKENS < U32 {
      forall rows ensures AllWithinBudget(Chunks(rows, target), target) {
        ChunksWithinBudget(rows, target);
      }
    } else {
      OverflowingRowsStayTogether(target);
      OverflowingRowsTotal();
      assert Chunks(OverflowingRows(), target)[0] == OverflowingRows();
      assert |OverflowingRows()| == 4 by {
        FourRows();
      }
      assert !AllWithinBudget(Chunks(OverflowingRows(), target), target);
    }
  }

  lemma {:induction false} FourRows()
    ensures |OverflowingRows()| == 4
  {
  }
}
