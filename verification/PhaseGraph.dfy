/** Phase dependency graphs: what an analysis of one must produce, and what follows from that.
    Several declarations of one phase id act as one phase with all their dependencies. */
module PhaseGraph {
  import opened Orders

  datatype Job = Job(phaseId: string, jobId: string, requiredArtifacts: seq<string>, requiredMail: seq<string>,
                     condition: Option<string>)

  datatype Phase = Phase(id: string, dependsOn: seq<string>, jobs: seq<Job>)

  datatype Issue =
    | MissingDependency(phaseId: string, dependencyId: string)
    | BlockedByInvalid(phaseId: string)
    | InCycle(phaseId: string)

  datatype Analysis = Analysis(order: seq<string>, issues: seq<Issue>, missing: map<string, seq<string>>,
                               invalid: set<string>, cycle: set<string>)

  function Ids(phases: seq<Phase>): (ids: set<string>)
    ensures forall i | 0 <= i < |phases| :: phases[i].id in ids
  {
    set p | p in phases :: p.id
  }

  ghost predicate DependsOn(phases: seq<Phase>, a: string, b: string) {
    exists i | 0 <= i < |phases| :: phases[i].id == a && b in phases[i].dependsOn
  }

  lemma {:induction false} DependentIsPhase(phases: seq<Phase>, a: string, b: string)
    requires DependsOn(phases, a, b)
    ensures a in Ids(phases)
  {
  }

  /** Where each id is declared; the last declaration wins. */
  function Positions(phases: seq<Phase>, n: nat): (positions: map<string, nat>)
    requires n <= |phases|
    ensures forall id | id in positions :: positions[id] < n && phases[positions[id]].id == id
    ensures forall i | 0 <= i < n :: phases[i].id in positions && i <= positions[phases[i].id]
  {
    if n == 0 then map[] else Positions(phases, n - 1)[phases[n - 1].id := n - 1]
  }

  function Position(phases: seq<Phase>, id: string): (k: nat)
    requires id in Ids(phases)
    ensures k < |phases| && phases[k].id == id
    ensures forall i | 0 <= i < |phases| && phases[i].id == id :: i <= k
  {
    Positions(phases, |phases|)[id]
  }

  // ----- orders

  ghost predicate Topological(phases: seq<Phase>, order: seq<string>) {
    && Distinct(order)
    && (forall i | 0 <= i < |order| :: order[i] in Ids(phases))
    && (forall i, b | 0 <= i < |order| && DependsOn(phases, order[i], b) :: b in order[..i])
  }

  /** A phase that may come next: not yet done, and everything it depends on is. */
  ghost predicate Free(phases: seq<Phase>, done: seq<string>, x: string) {
    x in Ids(phases) && x !in done && forall b | DependsOn(phases, x, b) :: b in done
  }

  ghost predicate Greedy(phases: seq<Phase>, order: seq<string>) {
    && (forall i | 0 <= i < |order| :: order[i] in Ids(phases))
    && (forall i, x | 0 <= i < |order| && Free(phases, order[..i], x) ::
          Position(phases, order[i]) <= Position(phases, x))
  }

  ghost predicate Maximal(phases: seq<Phase>, order: seq<string>) {
    forall x :: !Free(phases, order, x)
  }

  ghost predicate IsPath(phases: seq<Phase>, path: seq<string>) {
    |path| > 0 && forall i | 0 < i < |path| :: DependsOn(phases, path[i - 1], path[i])
  }

  /** The phase depends, directly or through others, on an id that no phase has. */
  ghost predicate ReachesMissing(phases: seq<Phase>, a: string) {
    exists path :: IsPath(phases, path) && path[0] == a && path[|path| - 1] !in Ids(phases)
  }

  ghost predicate HasMissing(phases: seq<Phase>, a: string) {
    exists b :: DependsOn(phases, a, b) && b !in Ids(phases)
  }

  ghost predicate OrderFound(phases: seq<Phase>, order: seq<string>) {
    Topological(phases, order) && Greedy(phases, order) && Maximal(phases, order)
  }

  ghost predicate InvalidFound(phases: seq<Phase>, invalid: set<string>) {
    forall a :: a in invalid <==> a in Ids(phases) && ReachesMissing(phases, a)
  }

  ghost predicate CycleFound(phases: seq<Phase>, order: seq<string>, invalid: set<string>, cycle: set<string>) {
    forall a :: a in cycle <==> a in Ids(phases) && a !in order && a !in invalid
  }

  ghost predicate MissingFound(phases: seq<Phase>, missing: map<string, seq<string>>) {
    && (forall a :: a in missing <==> HasMissing(phases, a))
    && (forall a, b | a in missing :: b in missing[a] <==> DependsOn(phases, a, b) && b !in Ids(phases))
  }

  ghost predicate IssuesFound(phases: seq<Phase>, g: Analysis) {
    && (forall a, b :: MissingDependency(a, b) in g.issues <==> DependsOn(phases, a, b) && b !in Ids(phases))
    && (forall a :: BlockedByInvalid(a) in g.issues <==> a in g.invalid && a !in g.missing)
    && (forall a :: InCycle(a) in g.issues <==> a in g.cycle)
  }

  /** What the analysis of a phase list produces. */
  ghost predicate Analyzed(phases: seq<Phase>, g: Analysis) {
    && OrderFound(phases, g.order)
    && MissingFound(phases, g.missing)
    && InvalidFound(phases, g.invalid)
    && CycleFound(phases, g.order, g.invalid, g.cycle)
    && IssuesFound(phases, g)
  }

  // ----- consequences

  /** A phase reaches a missing dependency exactly when it has one or depends on a phase that does. */
  lemma {:induction false} ReachesStep(phases: seq<Phase>, a: string, b: string)
    requires DependsOn(phases, a, b) && ReachesMissing(phases, b)
    ensures ReachesMissing(phases, a)
  {
    var path :| IsPath(phases, path) && path[0] == b && path[|path| - 1] !in Ids(phases);
    var longer := [a] + path;
    forall i | 0 < i < |longer| ensures DependsOn(phases, longer[i - 1], longer[i]) {
      if i > 1 {
        assert DependsOn(phases, path[i - 2], path[i - 1]);
      }
    }
    assert IsPath(phases, longer) && longer[|longer| - 1] == path[|path| - 1];
  }

  lemma {:induction false} ReachesAtOnce(phases: seq<Phase>, a: string, b: string)
    requires DependsOn(phases, a, b) && b !in Ids(phases)
    ensures ReachesMissing(phases, a)
  {
    assert IsPath(phases, [b]);
    ReachesStep(phases, a, b);
  }

  /** A set that holds every phase with a missing dependency and every phase depending on a member
      holds every phase that reaches a missing dependency. */
  lemma {:induction false} ClosedHoldsReaching(phases: seq<Phase>, closed: set<string>, path: seq<string>)
    requires IsPath(phases, path) && path[0] in Ids(phases) && path[|path| - 1] !in Ids(phases)
    requires forall a, b | DependsOn(phases, a, b) && (b !in Ids(phases) || b in closed) :: a in closed
    ensures path[0] in closed
    decreases |path|
  {
    var a, b := path[0], path[1];
    assert DependsOn(phases, a, b);
    if b in Ids(phases) {
      var rest := path[1..];
      forall i | 0 < i < |rest| ensures DependsOn(phases, rest[i - 1], rest[i]) {
        assert DependsOn(phases, path[i], path[i + 1]);
      }
      ClosedHoldsReaching(phases, closed, rest);
    }
  }

  /** Following dependencies from an ordered phase never leaves the order. */
  lemma {:induction false} PathStaysOrdered(phases: seq<Phase>, order: seq<string>, path: seq<string>, k: nat)
    requires Topological(phases, order) && IsPath(phases, path) && path[0] in order && k < |path|
    ensures path[k] in order
  {
    if k > 0 {
      PathStaysOrdered(phases, order, path, k - 1);
      assert DependsOn(phases, path[k - 1], path[k]);
      var i :| 0 <= i < |order| && order[i] == path[k - 1];
      assert path[k] in order[..i];
    }
  }

  lemma {:induction false} OrderedReachesNothingMissing(phases: seq<Phase>, order: seq<string>, a: string)
    requires Topological(phases, order) && a in order
    ensures !ReachesMissing(phases, a)
  {
    if ReachesMissing(phases, a) {
      var path :| IsPath(phases, path) && path[0] == a && path[|path| - 1] !in Ids(phases);
      PathStaysOrdered(phases, order, path, |path| - 1);
      assert false;
    }
  }

  /** Every phase is ordered, invalid or in a cycle, and only one of these. */
  lemma {:induction false} PhasesPartitioned(phases: seq<Phase>, g: Analysis, a: string)
    requires Analyzed(phases, g) && a in Ids(phases)
    ensures a in g.order || a in g.invalid || a in g.cycle
    ensures !(a in g.order && a in g.invalid) && !(a in g.order && a in g.cycle) && !(a in g.invalid && a in g.cycle)
  {
    hide Topological, Greedy, Maximal, MissingFound, IssuesFound, ReachesMissing;
    if a in g.order {
      OrderedReachesNothingMissing(phases, g.order, a);
    }
  }

  /** Any other way of running phases only after their dependencies is a beginning of this order, or
      first departs from it by taking a phase declared later. */
  lemma {:induction false} OrderIsFirst(phases: seq<Phase>, order: seq<string>, other: seq<string>, k: nat)
    requires OrderFound(phases, order) && Topological(phases, other)
    requires k <= |order| && k <= |other| && order[..k] == other[..k]
    ensures other == order[..if |other| <= |order| then |other| else |order|] ||
            exists i: nat :: Departs(phases, order, other, i)
    decreases |other| - k
  {
    if k < |other| {
      TopologicalFree(phases, other, k);
      assert order[..|order|] == order;
      if k == |order| {
        assert false;
      }
      if order[k] != other[k] {
        assert Departs(phases, order, other, k);
      } else {
        assert order[..k + 1] == order[..k] + [order[k]] && other[..k + 1] == other[..k] + [other[k]];
        OrderIsFirst(phases, order, other, k + 1);
      }
    } else {
      assert other == other[..k];
    }
  }

  ghost predicate Departs(phases: seq<Phase>, order: seq<string>, other: seq<string>, i: nat) {
    && i < |order| && i < |other| && order[..i] == other[..i]
    && order[i] in Ids(phases) && other[i] in Ids(phases)
    && Position(phases, order[i]) < Position(phases, other[i])
  }

  lemma {:induction false} DepartsOneWay(phases: seq<Phase>, a: seq<string>, b: seq<string>, i: nat)
    requires Departs(phases, a, b, i)
    ensures a != b[..if |a| <= |b| then |a| else |b|]
    ensures forall j: nat :: !Departs(phases, b, a, j)
  {
    assert a[i] != b[i];
    PrefixesEqual(a, b);
  }

  lemma {:induction false} PrefixesEqual(a: seq<string>, b: seq<string>)
    ensures forall n: nat, k: nat | k < n && n <= |a| && n <= |b| && a[..n] == b[..n] :: a[k] == b[k]
  {
    forall n: nat, k: nat | k < n && n <= |a| && n <= |b| && a[..n] == b[..n] ensures a[k] == b[k] {
      assert a[..n][k] == b[..n][k];
    }
  }

  /** A phase list has only one such order. */
  lemma {:induction false} OrderUnique(phases: seq<Phase>, a: seq<string>, b: seq<string>)
    requires OrderFound(phases, a) && OrderFound(phases, b)
    ensures a == b
  {
    hide OrderFound, Departs;
    OrderIsTopological(phases, a);
    OrderIsTopological(phases, b);
    OrderIsFirst(phases, a, b, 0);
    OrderIsFirst(phases, b, a, 0);
    if i: nat :| Departs(phases, a, b, i) {
      DepartsOneWay(phases, a, b, i);
      assert false;
    }
    if i: nat :| Departs(phases, b, a, i) {
      DepartsOneWay(phases, b, a, i);
      assert false;
    }
  }

  lemma {:induction false} OrderIsTopological(phases: seq<Phase>, order: seq<string>)
    requires OrderFound(phases, order)
    ensures Topological(phases, order)
  {
  }

  lemma {:induction false} TopologicalFree(phases: seq<Phase>, order: seq<string>, k: nat)
    requires Topological(phases, order) && k < |order|
    ensures Free(phases, order[..k], order[k])
  {
  }

  /** A phase in the cycle set depends on a phase in the cycle set. */
  lemma {:induction false} CycleHasNext(phases: seq<Phase>, g: Analysis, a: string)
    requires Analyzed(phases, g) && a in g.cycle
    ensures exists b :: b in g.cycle && DependsOn(phases, a, b)
  {
    hide Topological, Greedy, MissingFound, IssuesFound, ReachesMissing, DependsOn;
    assert !Free(phases, g.order, a);
    var b :| DependsOn(phases, a, b) && b !in g.order;
    if b !in Ids(phases) {
      ReachesAtOnce(phases, a, b);
      assert false;
    }
    if b in g.invalid {
      ReachesStep(phases, a, b);
      assert false;
    }
  }

  ghost predicate IsCycle(phases: seq<Phase>, path: seq<string>) {
    IsPath(phases, path) && |path| > 1 && path[0] == path[|path| - 1]
  }

  /** A walk of a given length inside the cycle set. */
  lemma {:induction false} WalkExists(phases: seq<Phase>, g: Analysis, n: nat)
    requires Analyzed(phases, g) && g.cycle != {}
    ensures exists path :: |path| == n + 1 && IsPath(phases, path) && forall i | 0 <= i <= n :: path[i] in g.cycle
  {
    hide Analyzed, DependsOn;
    if n == 0 {
      var a :| a in g.cycle;
      assert IsPath(phases, [a]);
    } else {
      WalkExists(phases, g, n - 1);
      var path :| |path| == n && IsPath(phases, path) && forall i | 0 <= i <= n - 1 :: path[i] in g.cycle;
      CycleHasNext(phases, g, path[n - 1]);
      var b :| b in g.cycle && DependsOn(phases, path[n - 1], b);
      var longer := path + [b];
      assert IsPath(phases, longer);
    }
  }

  lemma {:induction false} Repeats(path: seq<string>, among: set<string>)
    requires (forall i | 0 <= i < |path| :: path[i] in among) && |path| > |among|
    ensures exists i, j :: 0 <= i < j < |path| && path[i] == path[j]
    decreases |path|
  {
    var n := |path| - 1;
    if i :| 0 <= i < n && path[i] == path[n] {
    } else {
      var init := path[..n];
      Repeats(init, among - {path[n]});
      var i, j :| 0 <= i < j < |init| && init[i] == init[j];
      assert path[i] == path[j];
    }
  }

  ghost predicate CycleAmong(phases: seq<Phase>, path: seq<string>, g: Analysis) {
    IsCycle(phases, path) && forall i | 0 <= i < |path| :: path[i] in Ids(phases) && path[i] !in g.invalid
  }

  /** The cycle set is non-empty exactly when phases that reach no missing dependency depend on each
      other in a circle. */
  lemma {:induction false} CycleFoundIffCycle(phases: seq<Phase>, g: Analysis)
    requires Analyzed(phases, g)
    ensures g.cycle != {} <==> exists path :: CycleAmong(phases, path, g)
  {
    hide Analyzed, IsPath, DependsOn;
    if g.cycle != {} {
      WalkExists(phases, g, |g.cycle|);
      var path :| |path| == |g.cycle| + 1 && IsPath(phases, path) && forall i | 0 <= i <= |g.cycle| ::
        path[i] in g.cycle;
      Repeats(path, g.cycle);
      var i, j :| 0 <= i < j < |path| && path[i] == path[j];
      CutCycle(phases, path, i, j);
      CyclePhases(phases, g);
      assert CycleAmong(phases, path[i..j + 1], g);
    }
    if path :| CycleAmong(phases, path, g) {
      CircleInCycle(phases, g, path);
    }
  }

  lemma {:induction false} CyclePhases(phases: seq<Phase>, g: Analysis)
    requires Analyzed(phases, g)
    ensures forall a | a in g.cycle :: a in Ids(phases) && a !in g.invalid
  {
    hide OrderFound, MissingFound, InvalidFound, IssuesFound;
  }

  lemma {:induction false} CutCycle(phases: seq<Phase>, path: seq<string>, i: nat, j: nat)
    requires IsPath(phases, path) && i < j < |path| && path[i] == path[j]
    ensures IsCycle(phases, path[i..j + 1])
  {
    hide DependsOn;
    var cut := path[i..j + 1];
    forall k | 0 < k < |cut| ensures DependsOn(phases, cut[k - 1], cut[k]) {
      assert DependsOn(phases, path[i + k - 1], path[i + k]);
    }
  }

  function IndexIn(order: seq<string>, x: string): (i: nat)
    requires x in order
    ensures i < |order| && order[i] == x
  {
    if order[|order| - 1] == x then |order| - 1 else IndexIn(order[..|order| - 1], x)
  }

  lemma {:induction false} DescendsAlong(phases: seq<Phase>, order: seq<string>, path: seq<string>, k: nat)
    requires Topological(phases, order) && IsPath(phases, path) && path[0] in order && 0 < k < |path|
    ensures path[k] in order && IndexIn(order, path[k]) < IndexIn(order, path[0])
  {
    if k > 1 {
      DescendsAlong(phases, order, path, k - 1);
    }
    var i := IndexIn(order, path[k - 1]);
    assert DependsOn(phases, path[k - 1], path[k]);
    assert path[k] in order[..i];
    var j :| 0 <= j < i && order[j] == path[k];
    assert IndexIn(order, path[k]) == j;
  }

  lemma {:induction false} CircleInCycle(phases: seq<Phase>, g: Analysis, path: seq<string>)
    requires Analyzed(phases, g) && CycleAmong(phases, path, g)
    ensures path[0] in g.cycle
  {
    hide Topological, Greedy, Maximal, MissingFound, InvalidFound, IssuesFound, IsPath;
    if path[0] in g.order {
      DescendsAlong(phases, g.order, path, |path| - 1);
      assert false;
    }
  }

  /** The analysis reports nothing exactly when every phase is ordered. */
  lemma {:induction false} NoIssuesIffAllOrdered(phases: seq<Phase>, g: Analysis)
    requires Analyzed(phases, g)
    ensures g.issues == [] <==> forall a | a in Ids(phases) :: a in g.order
  {
    hide OrderFound, Topological, DependsOn, ReachesMissing;
    if g.issues == [] {
      forall a | a in Ids(phases) ensures a in g.order {
        IssueOfUnordered(phases, g, a);
      }
    } else if forall a | a in Ids(phases) :: a in g.order {
      IssueNamesUnordered(phases, g);
    }
  }

  lemma {:induction false} IssueOfUnordered(phases: seq<Phase>, g: Analysis, a: string)
    requires Analyzed(phases, g) && a in Ids(phases) && g.issues == []
    ensures a in g.order
  {
    hide OrderFound, DependsOn, ReachesMissing;
    assert InCycle(a) !in g.issues && BlockedByInvalid(a) !in g.issues;
    if a in g.missing {
      MissingReported(phases, g, a);
      assert false;
    }
  }

  lemma {:induction false} MissingReported(phases: seq<Phase>, g: Analysis, a: string)
    requires MissingFound(phases, g.missing) && IssuesFound(phases, g) && a in g.missing
    ensures exists b :: MissingDependency(a, b) in g.issues
  {
    hide DependsOn;
    var b :| DependsOn(phases, a, b) && b !in Ids(phases);
    assert MissingDependency(a, b) in g.issues;
  }

  lemma {:induction false} IssueNamesUnordered(phases: seq<Phase>, g: Analysis)
    requires Analyzed(phases, g) && g.issues != []
    ensures exists a :: a in Ids(phases) && a !in g.order
  {
    hide Greedy, Maximal, ReachesMissing;
    var issue := g.issues[0];
    var a := issue.phaseId;
    assert a in Ids(phases);
    assert issue in g.issues;
    match issue
    case MissingDependency(_, b) =>
      ReachesAtOnce(phases, a, b);
      PhasesPartitioned(phases, g, a);
    case BlockedByInvalid(_) =>
      PhasesPartitioned(phases, g, a);
    case InCycle(_) =>
  }
}
