/** Which capture bundles a sweep deletes, moves or keeps, and what applying the plan reports. */
module Retention {
  import opened Orders
  import opened Grouping

  datatype Area = Processing | Live | FailedDir | PinnedDir

  datatype Entry = Entry(path: string, area: Area, ready: bool, pinned: bool, byteCount: nat, fileCount: nat,
                         createdAt: Option<int>, readyAt: Option<int>, expiresAt: Option<int>) {
    /** The time a live bundle is ranked and aged by. */
    function Age(): Option<int> { if readyAt.Some? then readyAt else createdAt }

    predicate Kept() { pinned || area == PinnedDir }
  }

  datatype Policy = Policy(processingStaleAfter: int, liveTtl: int, failedTtl: int, keepLastReady: nat, dryRun: bool)

  datatype Kind = Delete | MoveToFailed | Preserve

  datatype Action = Action(kind: Kind, path: string, destination: Option<string>, byteCount: nat)

  /** Where a stale processing bundle would go; `None` when its path has no last component. */
  type FailedPath = string -> Option<string>

  predicate OlderThan(time: Option<int>, now: int, seconds: int) { time.Some? && now - time.value > seconds }

  predicate TimeLe(a: Option<int>, b: Option<int>) { a.None? || (b.Some? && a.value <= b.value) }

  predicate AgeLe(a: Entry, b: Entry) { TimeLe(a.Age(), b.Age()) }

  predicate IsLiveReady(e: Entry) { e.area == Live && e.ready && !e.pinned }

  function LiveReadyOnly(): Entry -> bool { (e: Entry) => IsLiveReady(e) }

  function Reverse(s: seq<Entry>): (r: seq<Entry>) {
    if s == [] then [] else Reverse(s[1..]) + [s[0]]
  }

  /** The ready, unpinned live bundles, newest first. */
  function LiveReady(entries: seq<Entry>): (r: seq<Entry>) {
    Reverse(Sort(AgeLe, Filter(LiveReadyOnly(), entries)))
  }

  /** The first place of a path in the ranking, from the `k`-th on. */
  function RankOf(ranked: seq<Entry>, path: string, k: nat): (rank: Option<nat>)
    requires k <= |ranked|
    ensures rank.Some? ==> k <= rank.value < |ranked| && ranked[rank.value].path == path
    ensures rank.Some? ==> forall i | k <= i < rank.value :: ranked[i].path != path
    ensures rank.None? ==> forall i | k <= i < |ranked| :: ranked[i].path != path
    decreases |ranked| - k
  {
    if k == |ranked| then None else if ranked[k].path == path then Some(k) else RankOf(ranked, path, k + 1)
  }

  predicate KeptByRank(ranked: seq<Entry>, e: Entry, keep: nat) {
    var rank := RankOf(ranked, e.path, 0);
    rank.Some? && rank.value < keep
  }

  predicate Expired(e: Entry, policy: Policy, now: int) {
    (e.expiresAt.Some? && e.expiresAt.value <= now) || OlderThan(e.Age(), now, policy.liveTtl)
  }

  function KindFor(e: Entry, ranked: seq<Entry>, policy: Policy, now: int): (kind: Kind) {
    if e.Kept() then Preserve
    else
      match e.area
      case Processing =>
        if !OlderThan(e.createdAt, now, policy.processingStaleAfter) then Preserve
        else if e.fileCount == 0 then Delete
        else MoveToFailed
      case Live => if Expired(e, policy, now) && !KeptByRank(ranked, e, policy.keepLastReady) then Delete else Preserve
      case FailedDir => if OlderThan(e.createdAt, now, policy.failedTtl) then Delete else Preserve
      case PinnedDir => Preserve
  }

  function ActionFor(e: Entry, ranked: seq<Entry>, policy: Policy, now: int, failedPath: FailedPath): (a: Action) {
    var stale := !e.Kept() && e.area == Processing && OlderThan(e.createdAt, now, policy.processingStaleAfter);
    Action(KindFor(e, ranked, policy, now), e.path, if stale then failedPath(e.path) else None, e.byteCount)
  }

  /** One action an entry, its own. A pinned bundle is always preserved, only stale processing bundles
      that hold files move, and a live bundle is deleted only when it is expired and not kept by rank. */
  function Plan(entries: seq<Entry>, policy: Policy, now: int, failedPath: FailedPath): (actions: seq<Action>)
    ensures |actions| == |entries|
    ensures forall i | 0 <= i < |entries| ::
            actions[i] == ActionFor(entries[i], LiveReady(entries), policy, now, failedPath)
    ensures forall i | 0 <= i < |entries| ::
              && actions[i].path == entries[i].path && actions[i].byteCount == entries[i].byteCount
              && (entries[i].Kept() ==> actions[i].kind == Preserve)
              && (actions[i].kind == MoveToFailed ==> entries[i].area == Processing && entries[i].fileCount > 0)
              && (actions[i].kind == Delete && entries[i].area == Live ==>
                    Expired(entries[i], policy, now)
                      && !KeptByRank(LiveReady(entries), entries[i], policy.keepLastReady))
  {
    var ranked := LiveReady(entries);
    seq(|entries|, i requires 0 <= i < |entries| => ActionFor(entries[i], ranked, policy, now, failedPath))
  }

  method PlanRetentionSweep(entries: seq<Entry>, policy: Policy, now: int, failedPath: FailedPath)
    returns (actions: seq<Action>)
    ensures actions == Plan(entries, policy, now, failedPath)
  {
    hide LiveReady, RankOf, OlderThan;
    var ranked := LiveReady(entries);
    actions := [];
    for i := 0 to |entries|
      invariant |actions| == i
      invariant forall k | 0 <= k < i :: actions[k] == ActionFor(entries[k], ranked, policy, now, failedPath)
    {
      var e := entries[i];
      var action: Action;
      if e.pinned || e.area == PinnedDir {
        action := Action(Preserve, e.path, None, e.byteCount);
      } else {
        match e.area
        case Processing =>
          if OlderThan(e.createdAt, now, policy.processingStaleAfter) {
            action := Action(if e.fileCount == 0
              then Delete else MoveToFailed, e.path, failedPath(e.path), e.byteCount);
          } else {
            action := Action(Preserve, e.path, None, e.byteCount);
          }
        case Live =>
          var rank := RankOf(ranked, e.path, 0);
          var keptByRank := rank.Some? && rank.value < policy.keepLastReady;
          var expired := (e.expiresAt.Some? && e.expiresAt.value <= now) || OlderThan(e.Age(), now, policy.liveTtl);
          action := Action(if expired && !keptByRank then Delete else Preserve, e.path, None, e.byteCount);
        case FailedDir =>
          action := Action(if OlderThan(e.createdAt, now, policy.failedTtl)
            then Delete else Preserve, e.path, None, e.byteCount);
        case PinnedDir =>
          action := Action(Preserve, e.path, None, e.byteCount);
      }
      actions := actions + [action];
    }
  }

  // ----- what the plan keeps

  lemma {:induction false} ReverseAt(s: seq<Entry>, i: nat)
    requires i < |s|
    ensures |Reverse(s)| == |s| && Reverse(s)[|s| - 1 - i] == s[i]
  {
    if i > 0 {
      ReverseAt(s[1..], i - 1);
    } else {
      ReverseLength(s[1..]);
    }
  }

  lemma {:induction false} ReverseLength(s: seq<Entry>)
    ensures |Reverse(s)| == |s|
  {
    if s != [] {
      ReverseLength(s[1..]);
    }
  }

  lemma {:induction false} AgeLePreorder()
    ensures TotalPreorder(AgeLe)
  {
  }

  /** The ranking holds exactly the ready, unpinned live bundles, as often as the inventory does, and
      none after a newer one. */
  lemma {:induction false} RankingIs(entries: seq<Entry>)
    ensures multiset(LiveReady(entries)) == multiset(Filter(LiveReadyOnly(), entries))
    ensures forall i, j | 0 <= i < j < |LiveReady(entries)| :: AgeLe(LiveReady(entries)[j], LiveReady(entries)[i])
  {
    hide AgeLe;
    var ready := Filter(LiveReadyOnly(), entries);
    var sorted := Sort(AgeLe, ready);
    AgeLePreorder();
    SortSorted(AgeLe, ready);
    SortPermutes(AgeLe, ready);
    ReversePermutes(sorted);
    forall i, j | 0 <= i < j < |Reverse(sorted)| ensures AgeLe(Reverse(sorted)[j], Reverse(sorted)[i]) {
      ReverseLength(sorted);
      ReverseAt(sorted, |sorted| - 1 - i);
      ReverseAt(sorted, |sorted| - 1 - j);
    }
  }

  lemma {:induction false} ReversePermutes(s: seq<Entry>)
    ensures multiset(Reverse(s)) == multiset(s)
  {
    if s != [] {
      ReversePermutes(s[1..]);
      assert s == [s[0]] + s[1..];
    }
  }

  lemma {:induction false} RankedIsReady(entries: seq<Entry>)
    ensures forall e :: e in LiveReady(entries) <==> e in entries && IsLiveReady(e)
  {
    hide LiveReady;
    RankingIs(entries);
    FilterMembers(LiveReadyOnly(), entries);
    SameElements(LiveReady(entries), Filter(LiveReadyOnly(), entries));
  }

  /** The newest ready live bundles are preserved: all of them when no more than `keepLastReady`. */
  lemma {:induction false} NewestPreserved(entries: seq<Entry>, policy: Policy, now: int, k: nat)
    requires k < |LiveReady(entries)| && k < policy.keepLastReady
    ensures KindFor(LiveReady(entries)[k], LiveReady(entries), policy, now) == Preserve
  {
    hide LiveReady, Expired;
    var ranked := LiveReady(entries);
    RankedIsReady(entries);
    assert ranked[k] in ranked && IsLiveReady(ranked[k]);
    assert RankOf(ranked, ranked[k].path, 0).value <= k;
  }

  /** A deleted ready live bundle leaves `keepLastReady` preserved ones behind, each at least as new. */
  lemma {:induction false} DeletedHasNewer(entries: seq<Entry>, policy: Policy, now: int, e: Entry)
    requires e in entries && IsLiveReady(e) && KindFor(e, LiveReady(entries), policy, now) == Delete
    ensures var ranked := LiveReady(entries);
      && policy.keepLastReady < |ranked|
      && (forall k | 0 <= k < policy.keepLastReady ::
            ranked[k] in entries && AgeLe(e, ranked[k]) && KindFor(ranked[k], ranked, policy, now) == Preserve)
  {
    var ranked := LiveReady(entries);
    hide LiveReady, Expired, AgeLe;
    RankedIsReady(entries);
    RankingIs(entries);
    assert e in ranked;
    var i: nat :| i < |ranked| && ranked[i] == e;
    assert policy.keepLastReady <= i;
    forall k | 0 <= k < policy.keepLastReady
      ensures ranked[k] in entries && AgeLe(e, ranked[k]) && KindFor(ranked[k], ranked, policy, now) == Preserve
    {
      NewestPreserved(entries, policy, now, k);
      assert ranked[k] in ranked;
    }
  }

  // ----- planning again

  function LiveOnly(): Entry -> bool { (e: Entry) => e.area == Live }

  function Survives(ranked: seq<Entry>, policy: Policy, now: int): Entry -> bool {
    (e: Entry) => KindFor(e, ranked, policy, now) != Delete
  }

  lemma {:induction false} FilterBoth(p: Entry -> bool, q: Entry -> bool, s: seq<Entry>)
    ensures Filter(p, Filter(q, s)) == Filter(q, Filter(p, s))
  {
    if s != [] {
      FilterBoth(p, q, s[1..]);
      FilterCons(p, s[0], Filter(q, s[1..]));
      FilterCons(q, s[0], Filter(p, s[1..]));
    }
  }

  lemma {:induction false} ReverseFilter(p: Entry -> bool, s: seq<Entry>)
    ensures Filter(p, Reverse(s)) == Reverse(Filter(p, s))
  {
    if s != [] {
      ReverseFilter(p, s[1..]);
      FilterSnoc(p, Reverse(s[1..]), s[0]);
      assert ([s[0]] + Filter(p, s[1..]))[1..] == Filter(p, s[1..]);
    }
  }

  /** What is left of the live bundles after a sweep is ranked as before, with the deleted ones left
      out. */
  lemma {:induction false} RankingAfter(entries: seq<Entry>, after: seq<Entry>, p: Entry -> bool)
    requires Filter(LiveOnly(), after) == Filter(p, Filter(LiveOnly(), entries))
    ensures LiveReady(after) == Filter(p, LiveReady(entries))
  {
    hide AgeLe, Filter, Sort, Reverse;
    var ready := Filter(LiveReadyOnly(), entries);
    FilterFilter(LiveReadyOnly(), LiveOnly(), after);
    FilterFilter(LiveReadyOnly(), LiveOnly(), entries);
    FilterBoth(LiveReadyOnly(), p, Filter(LiveOnly(), entries));
    assert Filter(LiveReadyOnly(), after) == Filter(p, ready);
    AgeLePreorder();
    SortFilter(AgeLe, p, ready);
    ReverseFilter(p, Sort(AgeLe, ready));
  }

  /** Leaving entries out moves no remaining entry down. */
  lemma {:induction false} FilterMovesUp(p: Entry -> bool, s: seq<Entry>, i: nat) returns (j: nat)
    requires i < |s| && p(s[i])
    ensures j <= i && j < |Filter(p, s)| && Filter(p, s)[j] == s[i]
  {
    if i == 0 {
      j := 0;
    } else {
      j := FilterMovesUp(p, s[1..], i - 1);
      if p(s[0]) {
        j := j + 1;
      }
    }
  }

  lemma {:induction false} StillKeptByRank(entries: seq<Entry>, policy: Policy, now: int, e: Entry)
    requires KeptByRank(LiveReady(entries), e, policy.keepLastReady)
    ensures var ranked := LiveReady(entries);
      KeptByRank(Filter(Survives(ranked, policy, now), ranked), e, policy.keepLastReady)
  {
    hide LiveReady, Filter, KindFor;
    var ranked := LiveReady(entries);
    var rank := RankOf(ranked, e.path, 0).value;
    NewestPreserved(entries, policy, now, rank);
    var j := FilterMovesUp(Survives(ranked, policy, now), ranked, rank);
    assert RankOf(Filter(Survives(ranked, policy, now), ranked), e.path, 0).value <= j;
  }

  /** Planning again at the same time, over an inventory whose live bundles are those the first plan
      did not delete, in the same order, deletes no further live bundle. */
  lemma {:induction false} ReplanDeletesNoLive(entries: seq<Entry>, after: seq<Entry>, policy: Policy, now: int,
                                               e: Entry)
    requires Filter(LiveOnly(), after) == Filter(Survives(LiveReady(entries), policy, now), Filter(LiveOnly(), entries))
    requires e in after && e.area == Live
    ensures KindFor(e, LiveReady(after), policy, now) == Preserve
  {
    hide LiveReady, Filter, Expired, KeptByRank;
    var ranked := LiveReady(entries);
    RankingAfter(entries, after, Survives(ranked, policy, now));
    FilterMember(LiveOnly(), after, e);
    FilterMember(Survives(ranked, policy, now), Filter(LiveOnly(), entries), e);
    if KeptByRank(ranked, e, policy.keepLastReady) {
      StillKeptByRank(entries, policy, now, e);
    }
  }

  // ----- applying a plan

  const U64_MAX: nat := 0xFFFF_FFFF_FFFF_FFFF

  function Saturated(n: nat): (r: nat)
    ensures r <= U64_MAX && r <= n
  {
    if n <= U64_MAX then n else U64_MAX
  }

  datatype Report = Report(deleted: seq<string>, moved: seq<string>, preserved: seq<string>, deletedBytes: nat,
                           errors: seq<string>)

  /** What goes wrong on the way: the directory a path lies in, if any, whether that directory cannot be
      made, and whether removing or renaming fails. */
  datatype FileSystem = FileSystem(parent: string -> Option<string>, makeFails: string -> bool,
                                   actFails: Action -> bool)

  /** The path an action's failure is reported under, if it fails. */
  function FailureOf(a: Action, dryRun: bool, fs: FileSystem): (path: Option<string>) {
    if dryRun || a.kind == Preserve || (a.kind == MoveToFailed && a.destination.None?) then None
    else
      var parent := if a.kind == MoveToFailed then fs.parent(a.destination.value) else None;
      if parent.Some? && fs.makeFails(parent.value) then parent
      else if fs.actFails(a) then Some(a.path)
      else None
  }

  predicate Succeeds(a: Action, dryRun: bool, fs: FileSystem) {
    FailureOf(a, dryRun, fs).None? && !(a.kind == MoveToFailed && a.destination.None?)
  }

  /** The paths reported for one kind of action: each action of the kind that succeeded, in plan order; a
      move is reported by where it went. */
  function Done(actions: seq<Action>, kind: Kind, dryRun: bool, fs: FileSystem): (paths: seq<string>) {
    if actions == [] then []
    else
      var n := |actions| - 1;
      Done(actions[..n], kind, dryRun, fs)
      + if actions[n].kind == kind && Succeeds(actions[n], dryRun, fs)
        then [if kind == MoveToFailed then actions[n].destination.value else actions[n].path] else []
  }

  function Failures(actions: seq<Action>, dryRun: bool, fs: FileSystem): (paths: seq<string>) {
    if actions == [] then []
    else
      var n := |actions| - 1;
      var failure := FailureOf(actions[n], dryRun, fs);
      Failures(actions[..n], dryRun, fs) + if failure.Some? then [failure.value] else []
  }

  function BytesDeleted(actions: seq<Action>, dryRun: bool, fs: FileSystem): (n: nat) {
    if actions == [] then 0
    else
      var n := |actions| - 1;
      BytesDeleted(actions[..n], dryRun, fs)
      + if actions[n].kind == Delete && Succeeds(actions[n], dryRun, fs) then actions[n].byteCount else 0
  }

  /** Applies a plan. */
  method ApplyRetentionSweep(actions: seq<Action>, dryRun: bool, fs: FileSystem) returns (report: Report)
    ensures report.deleted == Done(actions, Delete, dryRun, fs)
    ensures report.moved == Done(actions, MoveToFailed, dryRun, fs)
    ensures report.preserved == Done(actions, Preserve, dryRun, fs)
    ensures report.errors == Failures(actions, dryRun, fs)
    ensures report.deletedBytes == Saturated(BytesDeleted(actions, dryRun, fs))
  {
    report := Report([], [], [], 0, []);
    for i := 0 to |actions|
      invariant report.deleted == Done(actions[..i], Delete, dryRun, fs)
      invariant report.moved == Done(actions[..i], MoveToFailed, dryRun, fs)
      invariant report.preserved == Done(actions[..i], Preserve, dryRun, fs)
      invariant report.errors == Failures(actions[..i], dryRun, fs)
      invariant report.deletedBytes == Saturated(BytesDeleted(actions[..i], dryRun, fs))
    {
      assert actions[..i + 1][..i] == actions[..i];
      report := ApplyAction(report, actions[i], dryRun, fs);
    }
    assert actions[..|actions|] == actions;
  }

  method ApplyAction(before: Report, a: Action, dryRun: bool, fs: FileSystem) returns (report: Report)
    ensures var failure, ok := FailureOf(a, dryRun, fs), Succeeds(a, dryRun, fs);
      && report.deleted == before.deleted + (if a.kind == Delete && ok then [a.path] else [])
      && report.moved == before.moved + (if a.kind == MoveToFailed && ok then [a.destination.value] else [])
      && report.preserved == before.preserved + (if a.kind == Preserve then [a.path] else [])
      && report.errors == before.errors + (if failure.Some? then [failure.value] else [])
      && report.deletedBytes == if a.kind == Delete
           && ok then Saturated(before.deletedBytes + a.byteCount) else before.deletedBytes
  {
    report := before;
    match a.kind
    case Preserve =>
      report := report.(preserved := report.preserved + [a.path]);
    case Delete =>
      if !dryRun && fs.actFails(a) {
        report := report.(errors := report.errors + [a.path]);
      } else {
        report := report.(deletedBytes := Saturated(report.deletedBytes + a.byteCount), deleted :=
          report.deleted + [a.path]);
      }
    case MoveToFailed =>
      if a.destination.Some? {
        if !dryRun {
          var parent := fs.parent(a.destination.value);
          if parent.Some? && fs.makeFails(parent.value) {
            return report.(errors := report.errors + [parent.value]);
          }
          if fs.actFails(a) {
            return report.(errors := report.errors + [a.path]);
          }
        }
        report := report.(moved := report.moved + [a.destination.value]);
      }
  }

  function Dropped(actions: seq<Action>): (n: nat) {
    if actions == [] then 0
    else Dropped(actions[..|actions| - 1])
         + if actions[|actions| - 1].kind == MoveToFailed && actions[|actions| - 1].destination.None? then 1 else 0
  }

  /** Every action is reported exactly once, as done or as an error, but for a move that has nowhere to
      go; a dry run reports no errors. */
  lemma {:induction false} ReportAccountsForAll(actions: seq<Action>, dryRun: bool, fs: FileSystem)
    ensures |Done(actions, Delete, dryRun, fs)| + |Done(actions, MoveToFailed, dryRun, fs)|
            + |Done(actions, Preserve, dryRun, fs)| + |Failures(actions, dryRun, fs)| + Dropped(actions) == |actions|
    ensures dryRun ==> Failures(actions, dryRun, fs) == []
  {
    if actions != [] {
      ReportAccountsForAll(actions[..|actions| - 1], dryRun, fs);
    }
  }
}
