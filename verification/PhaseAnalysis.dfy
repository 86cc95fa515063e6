/** The analysis itself: counting open dependencies, draining a priority queue, spreading invalidity
    to a fixpoint and collecting what is left. */
module PhaseAnalysis {
  import opened Orders
  import opened PhaseGraph

  /** A dependent phase and what it depends on. */
  type Edge = (string, string)

  /** How many edges of `c` among the first `n` lead to something not done. */
  function Pending(edges: seq<Edge>, done: seq<string>, c: string, n: nat): (count: nat)
    requires n <= |edges|
  {
    if n == 0 then 0
    else Pending(edges, done, c, n - 1) + if edges[n - 1].0 == c && edges[n - 1].1 !in done then 1 else 0
  }

  function Children(edges: seq<Edge>, d: string, n: nat): (children: seq<string>)
    requires n <= |edges|
  {
    if n == 0 then []
    else Children(edges, d, n - 1) + if edges[n - 1].1 == d then [edges[n - 1].0] else []
  }

  lemma {:induction false} PendingZero(edges: seq<Edge>, done: seq<string>, c: string, n: nat)
    requires n <= |edges|
    ensures Pending(edges, done, c, n) == 0 <==> forall i | 0 <= i < n && edges[i].0 == c :: edges[i].1 in done
  {
    if n > 0 {
      PendingZero(edges, done, c, n - 1);
    }
  }

  /** Doing `d` clears exactly the edges its children were listed for. */
  lemma {:induction false} PendingAfter(edges: seq<Edge>, done: seq<string>, d: string, c: string, n: nat)
    requires n <= |edges| && d !in done
    ensures Pending(edges, done, c, n) == Pending(edges, done + [d], c, n) + multiset(Children(edges, d, n))[c]
  {
    if n > 0 {
      PendingAfter(edges, done, d, c, n - 1);
      assert edges[n - 1].1 in done + [d] <==> edges[n - 1].1 in done || edges[n - 1].1 == d;
    }
  }

  lemma {:induction false} PendingSnoc(edges: seq<Edge>, e: Edge, done: seq<string>, c: string, n: nat)
    requires n <= |edges|
    ensures Pending(edges + [e], done, c, n) == Pending(edges, done, c, n)
  {
    if n > 0 {
      PendingSnoc(edges, e, done, c, n - 1);
    }
  }

  lemma {:induction false} ChildrenSnoc(edges: seq<Edge>, e: Edge, d: string, n: nat)
    requires n <= |edges|
    ensures Children(edges + [e], d, n) == Children(edges, d, n)
  {
    if n > 0 {
      ChildrenSnoc(edges, e, d, n - 1);
    }
  }

  // ----- reading the declarations

  function EntriesUnder<T>(m: map<string, seq<T>>, key: string): seq<T> { if key in m then m[key] else [] }

  datatype Tables = Tables(counts: map<string, nat>, dependents: map<string, seq<string>>,
                           missing: map<string, seq<string>>, issues: seq<Issue>) {
    function Known(a: string, b: string): Tables {
      Tables(counts[a := (if a in counts then counts[a] else 0) + 1],
             dependents[b := EntriesUnder(dependents, b) + [a]], missing, issues)
    }

    function Missing(a: string, b: string): Tables {
      Tables(counts, dependents, missing[a := EntriesUnder(missing, a) + [b]], issues + [MissingDependency(a, b)])
    }
  }

  /** The counters and child lists say exactly what `edges` says. */
  ghost predicate Counted(ids: set<string>, edges: seq<Edge>, t: Tables) {
    && t.counts.Keys == ids
    && (forall c | c in ids :: t.counts[c] == Pending(edges, [], c, |edges|))
    && (forall d :: EntriesUnder(t.dependents, d) == Children(edges, d, |edges|))
  }

  ghost predicate Noted(ids: set<string>, declared: set<Edge>, t: Tables) {
    && (forall a, b :: b in EntriesUnder(t.missing, a) <==> (a, b) in declared && b !in ids)
    && (forall a | a in t.missing :: t.missing[a] != [])
    && (forall a, b :: MissingDependency(a, b) in t.issues <==> (a, b) in declared && b !in ids)
    && (forall a :: BlockedByInvalid(a) !in t.issues && InCycle(a) !in t.issues)
  }

  ghost predicate EdgesOf(ids: set<string>, declared: set<Edge>, edges: seq<Edge>) {
    forall e :: e in edges <==> e in declared && e.1 in ids
  }

  ghost predicate TablesFor(ids: set<string>, declared: set<Edge>, edges: seq<Edge>, t: Tables) {
    Counted(ids, edges, t) && Noted(ids, declared, t) && EdgesOf(ids, declared, edges)
  }

  lemma {:induction false} KnownCounted(ids: set<string>, edges: seq<Edge>, t: Tables, a: string, b: string)
    requires Counted(ids, edges, t) && a in ids
    ensures Counted(ids, edges + [(a, b)], t.Known(a, b))
  {
    forall c | c in ids ensures t.Known(a, b).counts[c] == Pending(edges + [(a, b)], [], c, |edges| + 1) {
      PendingSnoc(edges, (a, b), [], c, |edges|);
    }
    forall d ensures EntriesUnder(t.Known(a, b).dependents, d) == Children(edges + [(a, b)], d, |edges| + 1) {
      ChildrenSnoc(edges, (a, b), d, |edges|);
    }
  }

  lemma {:induction false} KnownNoted(ids: set<string>, declared: set<Edge>, t: Tables, a: string, b: string)
    requires Noted(ids, declared, t) && b in ids
    ensures Noted(ids, declared + {(a, b)}, t.Known(a, b))
  {
    var more := declared + {(a, b)};
    forall x, y ensures (x, y) in more && y !in ids <==> (x, y) in declared && y !in ids {
    }
  }

  lemma {:induction false} KnownEdges(ids: set<string>, declared: set<Edge>, edges: seq<Edge>, a: string, b: string)
    requires EdgesOf(ids, declared, edges) && b in ids
    ensures EdgesOf(ids, declared + {(a, b)}, edges + [(a, b)])
  {
  }

  lemma {:induction false} KnownKept(ids: set<string>, declared: set<Edge>, edges: seq<Edge>, t: Tables, a: string,
                                     b: string)
    requires TablesFor(ids, declared, edges, t) && a in ids && b in ids
    ensures TablesFor(ids, declared + {(a, b)}, edges + [(a, b)], t.Known(a, b))
  {
    hide Counted, Noted, EdgesOf;
    KnownCounted(ids, edges, t, a, b);
    KnownNoted(ids, declared, t, a, b);
    KnownEdges(ids, declared, edges, a, b);
  }

  lemma {:induction false} MissingKept(ids: set<string>, declared: set<Edge>, edges: seq<Edge>, t: Tables, a: string,
                                       b: string)
    requires TablesFor(ids, declared, edges, t) && b !in ids
    ensures TablesFor(ids, declared + {(a, b)}, edges, t.Missing(a, b))
  {
    hide Noted, EdgesOf;
    assert Counted(ids, edges, t.Missing(a, b));
    hide Counted;
    MissingNoted(ids, declared, t, a, b);
    MissingEdges(ids, declared, edges, a, b);
  }

  lemma {:induction false} MissingEdges(ids: set<string>, declared: set<Edge>, edges: seq<Edge>, a: string, b: string)
    requires EdgesOf(ids, declared, edges) && b !in ids
    ensures EdgesOf(ids, declared + {(a, b)}, edges)
  {
  }

  lemma {:induction false} MissingNoted(ids: set<string>, declared: set<Edge>, t: Tables, a: string, b: string)
    requires Noted(ids, declared, t) && b !in ids
    ensures Noted(ids, declared + {(a, b)}, t.Missing(a, b))
  {
    var after, more := t.Missing(a, b), declared + {(a, b)};
    forall x, y ensures y in EntriesUnder(after.missing, x) <==> (x, y) in more && y !in ids {
      assert EntriesUnder(after.missing, x) == if x == a
        then EntriesUnder(t.missing, a) + [b] else EntriesUnder(t.missing, x);
      assert y in EntriesUnder(t.missing, x) <==> (x, y) in declared && y !in ids;
    }
    forall x, y ensures MissingDependency(x, y) in after.issues <==> (x, y) in more && y !in ids {
      assert MissingDependency(x, y) in t.issues <==> (x, y) in declared && y !in ids;
      assert after.issues == t.issues + [MissingDependency(a, b)];
    }
    forall x | x in after.missing ensures after.missing[x] != [] {
      assert x != a ==> after.missing[x] == t.missing[x];
    }
    forall x ensures BlockedByInvalid(x) !in after.issues && InCycle(x) !in after.issues {
      assert BlockedByInvalid(x) !in t.issues && InCycle(x) !in t.issues;
    }
  }

  /** The dependencies declared by the first `n` phases. */
  function Declared(phases: seq<Phase>, n: nat): (declared: set<Edge>)
    requires n <= |phases|
  {
    if n == 0 then {} else Declared(phases, n - 1) + DeclaredBy(phases[n - 1])
  }

  function DeclaredBy(phase: Phase): set<Edge> { set b | b in phase.dependsOn :: (phase.id, b) }

  lemma {:induction false} DeclaredIs(phases: seq<Phase>, n: nat, a: string, b: string)
    requires n <= |phases|
    ensures (a, b) in Declared(phases, n) <==> exists i | 0 <= i < n :: phases[i].id == a && b in phases[i].dependsOn
  {
    if n > 0 {
      DeclaredIs(phases, n - 1, a, b);
    }
  }

  lemma {:induction false} DeclaredAll(phases: seq<Phase>)
    ensures forall a, b :: (a, b) in Declared(phases, |phases|) <==> DependsOn(phases, a, b)
  {
    forall a, b ensures (a, b) in Declared(phases, |phases|) <==> DependsOn(phases, a, b) {
      DeclaredIs(phases, |phases|, a, b);
    }
  }

  method ScanPhase(phase: Phase, ids: set<string>, before: Tables, ghost declared: set<Edge>, ghost start: seq<Edge>)
    returns (t: Tables, ghost edges: seq<Edge>)
    requires TablesFor(ids, declared, start, before) && phase.id in ids
    ensures TablesFor(ids, declared + DeclaredBy(phase), edges, t)
  {
    hide TablesFor;
    t, edges := before, start;
    var seen: set<string> := {};
    ghost var now := declared;
    for j := 0 to |phase.dependsOn|
      invariant TablesFor(ids, now, edges, t)
      invariant seen == set b | b in phase.dependsOn[..j]
      invariant now == declared + set b | b in seen :: (phase.id, b)
    {
      var dependency := phase.dependsOn[j];
      if dependency !in seen {
        seen := seen + {dependency};
        if dependency in ids {
          KnownKept(ids, now, edges, t, phase.id, dependency);
          edges := edges + [(phase.id, dependency)];
          t := t.Known(phase.id, dependency);
        } else {
          MissingKept(ids, now, edges, t, phase.id, dependency);
          t := t.Missing(phase.id, dependency);
        }
        now := now + {(phase.id, dependency)};
      }
    }
    assert phase.dependsOn[..|phase.dependsOn|] == phase.dependsOn;
    assert now == declared + DeclaredBy(phase);
  }

  lemma {:induction false} NothingDeclared(ids: set<string>, t: Tables)
    requires t == Tables(map id | id in ids :: 0, map[], map[], [])
    ensures TablesFor(ids, {}, [], t)
  {
  }

  method ScanDependencies(phases: seq<Phase>) returns (t: Tables)
    ensures exists edges :: TablesFor(Ids(phases), Declared(phases, |phases|), edges, t)
  {
    hide TablesFor;
    var ids := Ids(phases);
    t := Tables(map id | id in ids :: 0, map[], map[], []);
    ghost var edges: seq<Edge> := [];
    NothingDeclared(ids, t);
    for i := 0 to |phases|
      invariant TablesFor(ids, Declared(phases, i), edges, t)
    {
      t, edges := ScanPhase(phases[i], ids, t, Declared(phases, i), edges);
    }
  }

  // ----- ordering

  /** The queue's sort key; ids without a position sort first. */
  function PositionLe(positions: map<string, nat>): (string, string) -> bool {
    (a, b) => a !in positions || (b in positions && positions[a] <= positions[b])
  }

  lemma {:induction false} PositionLePreorder(positions: map<string, nat>)
    ensures TotalPreorder(PositionLe(positions))
  {
  }

  /** How far the draining of the queue has come. */
  ghost predicate Draining(ids: set<string>, missing: map<string, seq<string>>, counts: map<string, nat>,
                           order: seq<string>,
                           queue: seq<string>)
  {
    && counts.Keys == ids
    && (forall q | q in queue :: Open(counts, missing, q))
    && (forall x | Open(counts, missing, x) && x !in order :: x in queue)
  }

  predicate Open(counts: map<string, nat>, missing: map<string, seq<string>>, x: string) {
    x in counts && counts[x] == 0 && x !in missing
  }

  ghost predicate CountsPending(edges: seq<Edge>, done: seq<string>, counts: map<string, nat>) {
    forall c | c in counts :: counts[c] == Pending(edges, done, c, |edges|)
  }

  /** Facts about the tables that stay fixed while the queue drains. */
  ghost predicate Fixed(phases: seq<Phase>, edges: seq<Edge>, missing: map<string, seq<string>>) {
    && (forall a, b :: (a, b) in edges <==> DependsOn(phases, a, b) && b in Ids(phases))
    && (forall a :: a in missing <==> HasMissing(phases, a))
  }

  lemma {:induction false} OpenIffFree(phases: seq<Phase>, edges: seq<Edge>, missing: map<string, seq<string>>,
                                       counts: map<string, nat>, done: seq<string>, x: string)
    requires Fixed(phases, edges, missing) && counts.Keys == Ids(phases) && CountsPending(edges, done, counts)
    requires forall d | d in done :: d in Ids(phases)
    ensures Open(counts, missing, x) && x !in done <==> Free(phases, done, x)
  {
    hide DependsOn, Ids;
    if x in Ids(phases) {
      PendingZero(edges, done, x, |edges|);
      if Open(counts, missing, x) {
        forall b | DependsOn(phases, x, b) ensures b in done {
          assert b in Ids(phases);
          assert (x, b) in edges;
        }
      }
      if Free(phases, done, x) {
        forall i | 0 <= i < |edges| && edges[i].0 == x ensures edges[i].1 in done {
          assert (x, edges[i].1) in edges;
        }
      }
    }
  }

  /** Takes the done phase off its children's counters and queues those that reach zero. */
  method Release(children: seq<string>, missing: map<string, seq<string>>, start: map<string, nat>,
                 waiting: seq<string>,
                 ghost edges: seq<Edge>, ghost done: seq<string>, ghost current: string)
    returns (counts: map<string, nat>, queue: seq<string>)
    requires Draining(start.Keys, missing, start, done + [current], waiting) && CountsPending(edges, done, start)
    requires current !in done && children == Children(edges, current, |edges|)
    requires forall c | c in children :: c in start
    ensures counts.Keys == start.Keys && CountsPending(edges, done + [current], counts)
    ensures Draining(start.Keys, missing, counts, done + [current], queue)
  {
    hide Draining, Pending, Children;
    counts, queue := start, waiting;
    for j := 0 to |children|
      invariant counts.Keys == start.Keys
      invariant forall c | c in counts :: counts[c] + multiset(children[..j])[c] == start[c]
      invariant Draining(start.Keys, missing, counts, done + [current], queue)
    {
      var child := children[j];
      assert children[..j + 1] == children[..j] + [child];
      ChildCounted(edges, done, current, child, children, j, start);
      assert counts[child] > 0;
      var count := if counts[child] == 0 then 0 else counts[child] - 1;
      ReleaseKeepsDraining(start.Keys, missing, counts, done + [current], queue, child, count);
      counts := counts[child := count];
      if count == 0 && child !in missing {
        queue := queue + [child];
      }
    }
    assert children[..|children|] == children;
    forall c | c in counts ensures counts[c] == Pending(edges, done + [current], c, |edges|) {
      PendingAfter(edges, done, current, c, |edges|);
    }
  }

  lemma {:induction false} ReleaseKeepsDraining(ids: set<string>, missing: map<string, seq<string>>,
                                                counts: map<string, nat>,
                                                order: seq<string>, queue: seq<string>, child: string, count: nat)
    requires Draining(ids, missing, counts, order, queue) && child in ids && count <= counts[child]
    ensures Draining(ids, missing, counts[child := count], order,
                     if count == 0 && child !in missing then queue + [child] else queue)
  {
  }

  lemma {:induction false} ChildCounted(edges: seq<Edge>, done: seq<string>, current: string, child: string,
                                        children: seq<string>, j: nat, start: map<string, nat>)
    requires CountsPending(edges, done, start) && child in start && current !in done
    requires children == Children(edges, current, |edges|) && j < |children| && children[j] == child
    ensures multiset(children[..j])[child] < start[child]
  {
    hide Pending, Children;
    PendingAfter(edges, done, current, child, |edges|);
    assert children == children[..j] + ([child] + children[j + 1..]);
    assert multiset(children) == multiset(children[..j]) + (multiset{child} + multiset(children[j + 1..]));
  }

  lemma {:induction false} ChildDepends(edges: seq<Edge>, d: string, n: nat, c: string)
    requires n <= |edges| && c in Children(edges, d, n)
    ensures (c, d) in edges
  {
    if c in Children(edges, d, n - 1) {
      ChildDepends(edges, d, n - 1, c);
    } else {
      assert edges[n - 1] == (c, d);
    }
  }

  ghost predicate Ordering(phases: seq<Phase>, edges: seq<Edge>, missing: map<string, seq<string>>,
                           counts: map<string, nat>, order: seq<string>, queue: seq<string>)
  {
    && Draining(Ids(phases), missing, counts, order, queue)
    && CountsPending(edges, order, counts)
    && Topological(phases, order)
    && Greedy(phases, order)
  }

  lemma {:induction false} SortQueue(phases: seq<Phase>, missing: map<string, seq<string>>, counts: map<string, nat>,
                                     order: seq<string>, queue: seq<string>)
    requires Draining(Ids(phases), missing, counts, order, queue)
    ensures var sorted := Sort(PositionLe(Positions(phases, |phases|)), queue);
      && Draining(Ids(phases), missing, counts, order, sorted)
      && HeadFirst(phases, sorted)
  {
    hide Open, Ids, Positions, Sort;
    var positions := Positions(phases, |phases|);
    PositionLePreorder(positions);
    SortMembers(PositionLe(positions), queue);
    SortSorted(PositionLe(positions), queue);
    var sorted := Sort(PositionLe(positions), queue);
    forall i | 0 <= i < |sorted| ensures sorted[i] in Ids(phases) {
      assert sorted[i] in sorted;
      QueuedIsPhase(Ids(phases), missing, counts, order, queue, sorted[i]);
    }
    SortedHeadFirst(phases, sorted);
  }

  ghost predicate HeadFirst(phases: seq<Phase>, queue: seq<string>) {
    && (forall i | 0 <= i < |queue| :: queue[i] in Ids(phases))
    && (forall i | 0 <= i < |queue| :: Position(phases, queue[0]) <= Position(phases, queue[i]))
  }

  lemma {:induction false} SortedHeadFirst(phases: seq<Phase>, queue: seq<string>)
    requires SortedBy(PositionLe(Positions(phases, |phases|)), queue)
    requires forall i | 0 <= i < |queue| :: queue[i] in Ids(phases)
    ensures HeadFirst(phases, queue)
  {
    var positions := Positions(phases, |phases|);
    forall i | 0 <= i < |queue| ensures Position(phases, queue[0]) <= Position(phases, queue[i]) {
      assert i == 0 || PositionLe(positions)(queue[0], queue[i]);
    }
  }

  lemma {:induction false} QueuedIsPhase(ids: set<string>, missing: map<string, seq<string>>, counts: map<string, nat>,
                                         order: seq<string>, queue: seq<string>, x: string)
    requires Draining(ids, missing, counts, order, queue) && x in queue
    ensures x in ids
  {
  }

  /** Taking the head of the sorted queue extends the order the way a greedy order must be. */
  lemma {:induction false} TakeHead(phases: seq<Phase>, edges: seq<Edge>, missing: map<string, seq<string>>,
                                    counts: map<string, nat>, order: seq<string>, queue: seq<string>)
    requires Ordering(phases, edges, missing, counts, order, queue) && Fixed(phases, edges, missing)
    requires queue != [] && queue[0] !in order
    requires HeadFirst(phases, queue)
    ensures Topological(phases, order + [queue[0]]) && Greedy(phases, order + [queue[0]])
  {
    hide Open, Position, DependsOn;
    var current := queue[0];
    assert current in queue;
    OpenIffFree(phases, edges, missing, counts, order, current);
    forall x | x in Ids(phases) && Free(phases, order, x) ensures Position(phases, current) <= Position(phases, x) {
      OpenIffFree(phases, edges, missing, counts, order, x);
      assert x in queue;
      var i :| 0 <= i < |queue| && queue[i] == x;
    }
    TopologicalSnoc(phases, order, current);
    GreedySnoc(phases, order, current);
  }

  lemma {:induction false} TopologicalSnoc(phases: seq<Phase>, order: seq<string>, x: string)
    requires Topological(phases, order) && Free(phases, order, x)
    ensures Topological(phases, order + [x])
  {
    hide DependsOn, Ids;
    var more := order + [x];
    assert more[..|order|] == order;
    forall i, b | 0 <= i < |more| && DependsOn(phases, more[i], b) ensures b in more[..i] {
      if i < |order| {
        assert more[..i] == order[..i];
      }
    }
  }

  lemma {:induction false} GreedySnoc(phases: seq<Phase>, order: seq<string>, x: string)
    requires Greedy(phases, order) && x in Ids(phases)
    requires forall y | y in Ids(phases) && Free(phases, order, y) :: Position(phases, x) <= Position(phases, y)
    ensures Greedy(phases, order + [x])
  {
    hide DependsOn, Position, Ids;
    var more := order + [x];
    assert more[..|order|] == order;
    forall i, y | 0 <= i < |more| && Free(phases, more[..i], y)
      ensures Position(phases, more[i]) <= Position(phases, y)
    {
      if i < |order| {
        assert more[..i] == order[..i];
      }
    }
  }

  lemma {:induction false} DropHead(ids: set<string>, missing: map<string, seq<string>>, counts: map<string, nat>,
                                    order: seq<string>, queue: seq<string>)
    requires Draining(ids, missing, counts, order, queue) && queue != []
    ensures queue[0] in order ==> Draining(ids, missing, counts, order, queue[1..])
    ensures Draining(ids, missing, counts, order + [queue[0]], queue[1..])
  {
    hide Open;
    assert queue == [queue[0]] + queue[1..];
    forall x | Open(counts, missing, x) && x !in order && x != queue[0] ensures x in queue[1..] {
      assert x in queue;
    }
  }

  lemma {:induction false} DrainedIsMaximal(phases: seq<Phase>, edges: seq<Edge>, missing: map<string, seq<string>>,
                                            counts: map<string, nat>, order: seq<string>)
    requires Ordering(phases, edges, missing, counts, order, []) && Fixed(phases, edges, missing)
    ensures OrderFound(phases, order)
  {
    hide Open, Greedy;
    forall x ensures !Free(phases, order, x) {
      OpenIffFree(phases, edges, missing, counts, order, x);
    }
  }

  ghost predicate ChildLists(edges: seq<Edge>, dependents: map<string, seq<string>>) {
    forall d :: EntriesUnder(dependents, d) == Children(edges, d, |edges|)
  }

  method OrderPhases(phases: seq<Phase>, t: Tables, ghost edges: seq<Edge>) returns (order: seq<string>)
    requires Fixed(phases, edges, t.missing) && t.counts.Keys == Ids(phases)
    requires CountsPending(edges, [], t.counts) && ChildLists(edges, t.dependents)
    ensures OrderFound(phases, order)
  {
    hide Fixed, Draining, CountsPending, Topological, Greedy, Ids, Positions, ChildLists;
    var positions := Positions(phases, |phases|);
    var counts := t.counts;
    var queue := InitialQueue(phases, t.missing, counts);
    order := [];
    NothingOrdered(phases);
    while queue != []
      invariant Ordering(phases, edges, t.missing, counts, order, queue)
      decreases |Ids(phases)| - |order|, |queue|
    {
      SortQueue(phases, t.missing, counts, order, queue);
      queue := Sort(PositionLe(positions), queue);
      var current := queue[0];
      DropHead(Ids(phases), t.missing, counts, order, queue);
      if current in order {
        queue := queue[1..];
      } else {
        TakeHead(phases, edges, t.missing, counts, order, queue);
        OrderFits(phases, order + [current]);
        ChildrenKnown(phases, edges, t, counts, order, queue, current);
        var children := EntriesUnder(t.dependents, current);
        counts, queue := Release(children, t.missing, counts, queue[1..], edges, order, current);
        order := order + [current];
      }
    }
    DrainedIsMaximal(phases, edges, t.missing, counts, order);
  }

  lemma {:induction false} NothingOrdered(phases: seq<Phase>)
    ensures Topological(phases, []) && Greedy(phases, [])
  {
  }

  lemma {:induction false} ChildrenKnown(phases: seq<Phase>, edges: seq<Edge>, t: Tables, counts: map<string, nat>,
                                         order: seq<string>, queue: seq<string>, current: string)
    requires Fixed(phases, edges, t.missing) && ChildLists(edges, t.dependents)
    requires Draining(Ids(phases), t.missing, counts, order, queue)
    ensures EntriesUnder(t.dependents, current) == Children(edges, current, |edges|)
    ensures counts.Keys == Ids(phases) && forall c | c in EntriesUnder(t.dependents, current) :: c in counts
  {
    forall c | c in Children(edges, current, |edges|) ensures c in Ids(phases) {
      ChildDepends(edges, current, |edges|, c);
      assert DependsOn(phases, c, current);
    }
  }

  lemma {:induction false} OrderFits(phases: seq<Phase>, order: seq<string>)
    requires Topological(phases, order)
    ensures |order| <= |Ids(phases)|
  {
    DistinctFits(order, Ids(phases));
  }

  lemma {:induction false} DistinctFits(s: seq<string>, among: set<string>)
    requires Distinct(s) && forall i | 0 <= i < |s| :: s[i] in among
    ensures |s| <= |among|
  {
    if s != [] {
      var n := |s| - 1;
      DistinctFits(s[..n], among - {s[n]});
    }
  }

  method InitialQueue(phases: seq<Phase>, missing: map<string, seq<string>>, counts: map<string, nat>)
    returns (queue: seq<string>)
    requires counts.Keys == Ids(phases)
    ensures Draining(Ids(phases), missing, counts, [], queue)
  {
    queue := [];
    for i := 0 to |phases|
      invariant forall q | q in queue :: Open(counts, missing, q)
      invariant forall k | 0 <= k < i && Open(counts, missing, phases[k].id) :: phases[k].id in queue
    {
      if counts[phases[i].id] == 0 && phases[i].id !in missing {
        queue := queue + [phases[i].id];
      }
    }
  }

  // ----- spreading invalidity

  ghost predicate Spread(phases: seq<Phase>, missing: map<string, seq<string>>, invalid: set<string>) {
    missing.Keys <= invalid <= Ids(phases) && forall a | a in invalid :: ReachesMissing(phases, a)
  }

  /** The issues named so far: those of the tables, and one for each phase invalid through others. */
  ghost predicate SpreadNoted(t: Tables, invalid: set<string>, issues: seq<Issue>) {
    && (forall a, b :: MissingDependency(a, b) in issues <==> MissingDependency(a, b) in t.issues)
    && (forall a :: BlockedByInvalid(a) in issues <==> a in invalid && a !in t.missing)
    && (forall a :: InCycle(a) !in issues)
  }

  predicate DependsOnInvalid(phase: Phase, invalid: set<string>) {
    exists b | b in phase.dependsOn :: b in invalid
  }

  lemma {:induction false} SpreadTo(phases: seq<Phase>, t: Tables, invalid: set<string>, issues: seq<Issue>, i: nat)
    requires Spread(phases, t.missing, invalid) && SpreadNoted(t, invalid, issues)
    requires i < |phases| && phases[i].id !in invalid && DependsOnInvalid(phases[i], invalid)
    ensures Spread(phases, t.missing, invalid + {phases[i].id})
    ensures SpreadNoted(t, invalid + {phases[i].id}, issues + [BlockedByInvalid(phases[i].id)])
  {
    hide ReachesMissing;
    var b :| b in phases[i].dependsOn && b in invalid;
    assert DependsOn(phases, phases[i].id, b);
    ReachesStep(phases, phases[i].id, b);
  }

  /** Every phase that depends on an invalid one is invalid, as far as the first `n` phases go. */
  ghost predicate ClosedUpTo(phases: seq<Phase>, invalid: set<string>, n: nat)
    requires n <= |phases|
  {
    forall i | 0 <= i < n && DependsOnInvalid(phases[i], invalid) :: phases[i].id in invalid
  }

  /** One pass over the phases. */
  method SpreadOnce(phases: seq<Phase>, t: Tables, start: set<string>, before: seq<Issue>)
    returns (changed: bool, invalid: set<string>, issues: seq<Issue>)
    requires Spread(phases, t.missing, start) && SpreadNoted(t, start, before)
    ensures Spread(phases, t.missing, invalid) && SpreadNoted(t, invalid, issues)
    ensures if changed then |Ids(phases) - invalid| < |Ids(phases) - start|
            else invalid == start && ClosedUpTo(phases, invalid, |phases|)
  {
    hide SpreadNoted, DependsOnInvalid, Spread, Ids;
    changed, invalid, issues := false, start, before;
    for i := 0 to |phases|
      invariant Spread(phases, t.missing, invalid) && SpreadNoted(t, invalid, issues)
      invariant changed ==> |Ids(phases) - invalid| < |Ids(phases) - start|
      invariant !changed ==> invalid == start && ClosedUpTo(phases, invalid, i)
    {
      var id := phases[i].id;
      assert id in Ids(phases);
      if id !in invalid && DependsOnInvalid(phases[i], invalid) {
        SpreadTo(phases, t, invalid, issues, i);
        FewerLeft(Ids(phases), invalid, id);
        invalid := invalid + {id};
        issues := issues + [BlockedByInvalid(id)];
        changed := true;
      }
    }
  }

  method SpreadInvalid(phases: seq<Phase>, t: Tables) returns (invalid: set<string>, issues: seq<Issue>)
    requires Spread(phases, t.missing, t.missing.Keys) && SpreadNoted(t, t.missing.Keys, t.issues)
    ensures Spread(phases, t.missing, invalid) && SpreadNoted(t, invalid, issues)
    ensures ClosedUpTo(phases, invalid, |phases|)
  {
    hide SpreadNoted, DependsOnInvalid, Spread, Ids, ClosedUpTo;
    invalid, issues := t.missing.Keys, t.issues;
    var changed := true;
    while changed
      invariant Spread(phases, t.missing, invalid) && SpreadNoted(t, invalid, issues)
      invariant changed || ClosedUpTo(phases, invalid, |phases|)
      decreases |Ids(phases) - invalid|, changed
    {
      changed, invalid, issues := SpreadOnce(phases, t, invalid, issues);
    }
  }

  lemma {:induction false} FewerLeft(ids: set<string>, invalid: set<string>, id: string)
    requires id in ids && id !in invalid
    ensures |ids - (invalid + {id})| < |ids - invalid|
  {
    assert ids - (invalid + {id}) == (ids - invalid) - {id};
  }

  lemma {:induction false} SpreadIsFixpoint(phases: seq<Phase>, missing: map<string, seq<string>>, invalid: set<string>)
    requires Spread(phases, missing, invalid) && forall a :: a in missing <==> HasMissing(phases, a)
    requires ClosedUpTo(phases, invalid, |phases|)
    ensures InvalidFound(phases, invalid)
  {
    forall a, b | DependsOn(phases, a, b) && (b !in Ids(phases) || b in invalid) ensures a in invalid {
      var i :| 0 <= i < |phases| && phases[i].id == a && b in phases[i].dependsOn;
      if b in invalid {
        assert DependsOnInvalid(phases[i], invalid);
      } else {
        assert HasMissing(phases, a);
      }
    }
    hide DependsOn, DependsOnInvalid;
    forall a | a in Ids(phases) && ReachesMissing(phases, a) ensures a in invalid {
      var path :| IsPath(phases, path) && path[0] == a && path[|path| - 1] !in Ids(phases);
      ClosedHoldsReaching(phases, invalid, path);
    }
  }

  // ----- what is left

  method CollectCycles(phases: seq<Phase>, order: seq<string>, invalid: set<string>, start: seq<Issue>)
    returns (cycle: set<string>, issues: seq<Issue>)
    requires forall a :: InCycle(a) !in start
    ensures CycleFound(phases, order, invalid, cycle)
    ensures forall issue :: issue in issues <==> issue in start || (issue.InCycle? && issue.phaseId in cycle)
  {
    cycle, issues := {}, start;
    for i := 0 to |phases|
      invariant forall a :: a in cycle <==> a !in order && a !in invalid && exists k | 0 <= k < i :: phases[k].id == a
      invariant forall issue :: issue in issues <==> issue in start || (issue.InCycle? && issue.phaseId in cycle)
    {
      var id := phases[i].id;
      if id !in order && id !in invalid {
        cycle := cycle + {id};
        issues := issues + [InCycle(id)];
      }
    }
  }

  // ----- all together

  lemma {:induction false} ScanResult(phases: seq<Phase>, edges: seq<Edge>, t: Tables)
    requires TablesFor(Ids(phases), Declared(phases, |phases|), edges, t)
    ensures Fixed(phases, edges, t.missing) && MissingFound(phases, t.missing)
    ensures t.counts.Keys == Ids(phases) && CountsPending(edges, [], t.counts) && ChildLists(edges, t.dependents)
    ensures Spread(phases, t.missing, t.missing.Keys) && SpreadNoted(t, t.missing.Keys, t.issues)
    ensures forall a, b :: MissingDependency(a, b) in t.issues <==> DependsOn(phases, a, b) && b !in Ids(phases)
  {
    hide DependsOn, ReachesMissing, Pending, Children, Declared, Ids;
    DeclaredAll(phases);
    forall a | a in t.missing ensures HasMissing(phases, a) && a in Ids(phases) && ReachesMissing(phases, a) {
      var b := t.missing[a][0];
      assert b in EntriesUnder(t.missing, a);
      DependentIsPhase(phases, a, b);
      ReachesAtOnce(phases, a, b);
    }
    forall a | HasMissing(phases, a) ensures a in t.missing {
      var b :| DependsOn(phases, a, b) && b !in Ids(phases);
      assert b in EntriesUnder(t.missing, a);
    }
    forall a, b | a in t.missing ensures b in t.missing[a] <==> DependsOn(phases, a, b) && b !in Ids(phases) {
      assert b in EntriesUnder(t.missing, a) <==> b in t.missing[a];
    }
  }

  method AnalyzePhaseGraph(phases: seq<Phase>) returns (g: Analysis)
    ensures Analyzed(phases, g)
  {
    hide TablesFor, Fixed, MissingFound, CountsPending, ChildLists, Spread, OrderFound, InvalidFound, DependsOn,
         ReachesMissing, Ids, Declared, ClosedUpTo;
    var t := ScanDependencies(phases);
    ghost var edges :| TablesFor(Ids(phases), Declared(phases, |phases|), edges, t);
    ScanResult(phases, edges, t);
    var order := OrderPhases(phases, t, edges);
    var invalid, issues := SpreadInvalid(phases, t);
    MissingKnown(phases, t.missing);
    SpreadIsFixpoint(phases, t.missing, invalid);
    var cycle, allIssues := CollectCycles(phases, order, invalid, issues);
    g := Analysis(order, allIssues, t.missing, invalid, cycle);
  }

  lemma {:induction false} MissingKnown(phases: seq<Phase>, missing: map<string, seq<string>>)
    requires MissingFound(phases, missing)
    ensures forall a :: a in missing <==> HasMissing(phases, a)
  {
  }
}
