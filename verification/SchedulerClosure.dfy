/** Exactly for which plans the completed set of every run is closed under dependencies. A job can break
    that only if its declaration can become ready before something else is completed; what batches can
    complete without certain phases is found by always running every job that names none of them. */
module SchedulerClosure {
  import opened Orders
  import opened PhaseGraph
  import opened PhaseAnalysis
  import opened Scheduler
  import opened SchedulerRun
  import opened SchedulerSafety

  // ----- running everything but

  ghost predicate Ready(phases: seq<Phase>, g: Analysis, completed: set<string>, i: nat) {
    i < |phases| && StatusOf(phases[i], completed, g) == PhaseReady
  }

  /** The phases named by jobs of ready declarations. */
  ghost function Named(phases: seq<Phase>, g: Analysis, completed: set<string>): (ids: set<string>) {
    set i: nat, j: nat | i < |phases| && j < |phases[i].jobs| && Ready(phases, g, completed, i) ::
      phases[i].jobs[j].phaseId
  }

  function AllRequired(phases: seq<Phase>): (names: set<string>) {
    (set phase, job, name | phase in phases && job in phase.jobs && name in job.requiredArtifacts :: name)
    + (set phase, job, name | phase in phases && job in phase.jobs && name in job.requiredMail :: name)
  }

  /** The batch that runs, to the end, every job but those that name an avoided phase. */
  function AvoidingBatch(phases: seq<Phase>, avoid: set<string>): (batch: Batch) {
    Batch(AllRequired(phases), AllRequired(phases), condition => Holds,
          sj => if Avoids(avoid, sj) then [] else ["operation"], {"operation"})
  }

  predicate Avoids(avoid: set<string>, sj: ScheduledJob) { sj.job.phaseId in avoid }

  lemma {:induction false} AvoidingTurns(phases: seq<Phase>, jobs: seq<ScheduledJob>, avoid: set<string>, n: nat)
    requires n <= |jobs|
    ensures var s := ScaffoldOf(jobs, AvoidingBatch(phases, avoid), n);
      && s.conditional == []
      && (forall turn | turn in s.runnable :: turn.operationId == "operation" && turn.phaseId !in avoid)
      && (forall k | 0 <= k < n && jobs[k].missingArtifacts == [] && jobs[k].missingMail == []
           && !Avoids(avoid, jobs[k]) ::
            Turn(jobs[k].job.phaseId, "operation") in s.runnable)
  {
    hide AllRequired;
    if n > 0 {
      AvoidingTurns(phases, jobs, avoid, n - 1);
      var sj, batch := jobs[n - 1], AvoidingBatch(phases, avoid);
      var turns := TurnsOf(sj, batch.fanOut(sj));
      if !Avoids(avoid, sj) {
        assert turns == [Turn(sj.job.phaseId, "operation")];
      } else {
        assert turns == [];
      }
    }
  }

  lemma {:induction false} AllAtHand(phases: seq<Phase>, completed: set<string>, i: nat, j: nat, status: PhaseStatus)
    requires i < |phases| && j < |phases[i].jobs|
    ensures var sj := ScheduleJob(phases[i].jobs[j], status,
            Request(completed, AllRequired(phases), AllRequired(phases)));
      sj.missingArtifacts == [] && sj.missingMail == [] && sj.job == phases[i].jobs[j]
  {
    var job := phases[i].jobs[j];
    assert phases[i] in phases && job in phases[i].jobs;
    FilterNotIn(job.requiredArtifacts, AllRequired(phases));
    FilterNotIn(job.requiredMail, AllRequired(phases));
  }

  lemma {:induction false} NamedHasTurn(phases: seq<Phase>, g: Analysis, completed: set<string>, avoid: set<string>,
                                        i: nat, j: nat)
    requires Ready(phases, g, completed, i) && j < |phases[i].jobs| && phases[i].jobs[j].phaseId !in avoid
    ensures phases[i].jobs[j].phaseId in AfterBatch(phases, g, completed, AvoidingBatch(phases, avoid))
  {
    hide StatusOf, SchedulePhase, ScaffoldOf, ReadyPhaseJobs, ScheduleJob, AllRequired;
    var batch := AvoidingBatch(phases, avoid);
    var request := Request(completed, batch.artifacts, batch.mail);
    var jobs := ReadyPhaseJobs(SchedulePhases(phases, request, g), |phases|);
    ReadyJobIncluded(phases, request, g, i, j, |phases|);
    AllAtHand(phases, completed, i, j, PhaseReady);
    var k :| 0 <= k < |jobs| && jobs[k] == ScheduleJob(phases[i].jobs[j], PhaseReady, request);
    AvoidingTurns(phases, jobs, avoid, |jobs|);
    var s := ScaffoldOf(jobs, batch, |jobs|);
    assert Turn(phases[i].jobs[j].phaseId, "operation") in s.runnable;
    assert Finishes(s, {"operation"}, phases[i].jobs[j].phaseId);
  }

  lemma {:induction false} CompletedIsNamed(phases: seq<Phase>, g: Analysis, completed: set<string>, batch: Batch,
                                            a: string)
    requires Analyzed(phases, g) && a in AfterBatch(phases, g, completed, batch) && a !in completed
    ensures a in Named(phases, g, completed)
  {
    hide Analyzed, BatchScaffold, Finishes, StatusOf, AllIn;
    FinishedWasReady(phases, g, completed, batch, a);
    var i: nat :| ServedBy(phases, g, completed, a, i);
    var j: nat :| j < |phases[i].jobs| && phases[i].jobs[j].phaseId == a;
    ReadyIff(phases, g, completed, i);
    assert Ready(phases, g, completed, i);
  }

  lemma {:induction false} AvoidedStaysOpen(phases: seq<Phase>, g: Analysis, completed: set<string>,
                                            avoid: set<string>, a: string)
    requires a in avoid && a !in completed
    ensures a !in AfterBatch(phases, g, completed, AvoidingBatch(phases, avoid))
  {
    hide SchedulePhases, ReadyPhaseJobs, ScaffoldOf, AllRequired;
    var batch := AvoidingBatch(phases, avoid);
    var jobs := ReadyPhaseJobs(SchedulePhases(phases, Request(completed, batch.artifacts, batch.mail), g), |phases|);
    AvoidingTurns(phases, jobs, avoid, |jobs|);
  }

  lemma {:induction false} AvoidingCompletes(phases: seq<Phase>, g: Analysis, completed: set<string>,
                                             avoid: set<string>)
    requires Analyzed(phases, g)
    ensures AfterBatch(phases, g, completed, AvoidingBatch(phases, avoid)) ==
            completed + (Named(phases, g, completed) - avoid)
  {
    hide Analyzed, AfterBatch, AvoidingBatch, Ready;
    var after := AfterBatch(phases, g, completed, AvoidingBatch(phases, avoid));
    CompletedKept(phases, g, completed, AvoidingBatch(phases, avoid));
    forall a | a in after && a !in completed ensures a in Named(phases, g, completed) && a !in avoid {
      CompletedIsNamed(phases, g, completed, AvoidingBatch(phases, avoid), a);
      if a in avoid {
        AvoidedStaysOpen(phases, g, completed, avoid, a);
      }
    }
    forall a | a in Named(phases, g, completed) && a !in avoid ensures a in after {
      var i: nat, j: nat :| i < |phases| && j < |phases[i].jobs| && Ready(phases, g, completed, i)
        && phases[i].jobs[j].phaseId == a;
      NamedHasTurn(phases, g, completed, avoid, i, j);
    }
  }

  lemma {:induction false} CompletedKept(phases: seq<Phase>, g: Analysis, completed: set<string>, batch: Batch)
    ensures completed <= AfterBatch(phases, g, completed, batch)
  {
    hide BatchCompletes, BatchScaffold;
  }

  /** What `n` batches complete that avoid certain phases and otherwise run everything. */
  ghost function Greedily(phases: seq<Phase>, g: Analysis, seeds: set<string>, avoid: set<string>, n: nat)
    : (ids: set<string>)
  {
    if n == 0 then seeds
    else
      var before := Greedily(phases, g, seeds, avoid, n - 1);
      before + (Named(phases, g, before) - avoid)
  }

  lemma {:induction false} GreedilyGrows(phases: seq<Phase>, g: Analysis, seeds: set<string>, avoid: set<string>,
                                         m: nat, n: nat)
    requires m <= n
    ensures seeds <= Greedily(phases, g, seeds, avoid, m) <= Greedily(phases, g, seeds, avoid, n)
    ensures seeds !! avoid ==> Greedily(phases, g, seeds, avoid, n) !! avoid
    decreases n
  {
    hide Named;
    if n > 0 {
      GreedilyGrows(phases, g, seeds, avoid, 0, n - 1);
      if m < n {
        GreedilyGrows(phases, g, seeds, avoid, m, n - 1);
      }
    }
  }

  function Repeated(batch: Batch, n: nat): (batches: seq<Batch>)
    ensures |batches| == n
  {
    seq(n, k => batch)
  }

  lemma {:induction false} GreedilyIsRun(phases: seq<Phase>, g: Analysis, seeds: set<string>, avoid: set<string>,
                                         n: nat, k: nat)
    requires Analyzed(phases, g) && k <= n
    ensures Run(phases, g, seeds, Repeated(AvoidingBatch(phases, avoid), n), k) == Greedily(phases, g, seeds, avoid, k)
  {
    hide Analyzed, AfterBatch, AvoidingBatch, Named;
    if k > 0 {
      GreedilyIsRun(phases, g, seeds, avoid, n, k - 1);
      AvoidingCompletes(phases, g, Greedily(phases, g, seeds, avoid, k - 1), avoid);
    }
  }

  // ----- after how many batches nothing is added

  function AllNames(phases: seq<Phase>): (ids: set<string>) {
    set phase, job | phase in phases && job in phase.jobs :: job.phaseId
  }

  function Rounds(phases: seq<Phase>): nat { |AllNames(phases)| }

  lemma {:induction false} NamedAmongAll(phases: seq<Phase>, g: Analysis, completed: set<string>)
    ensures Named(phases, g, completed) <= AllNames(phases)
  {
    hide Ready;
    forall a | a in Named(phases, g, completed) ensures a in AllNames(phases) {
      var i: nat, j: nat :| i < |phases| && j < |phases[i].jobs| && phases[i].jobs[j].phaseId == a;
      assert phases[i] in phases && phases[i].jobs[j] in phases[i].jobs;
    }
  }

  lemma {:induction false} GreedilyAmong(phases: seq<Phase>, g: Analysis, seeds: set<string>, avoid: set<string>,
                                         n: nat)
    ensures Greedily(phases, g, seeds, avoid, n) - seeds <= AllNames(phases)
  {
    hide Named, AllNames;
    if n > 0 {
      GreedilyAmong(phases, g, seeds, avoid, n - 1);
      NamedAmongAll(phases, g, Greedily(phases, g, seeds, avoid, n - 1));
    }
  }

  lemma {:induction false} SizeWithin(a: set<string>, b: set<string>)
    requires a <= b
    ensures |a| <= |b| && (|a| == |b| ==> a == b)
  {
    if a != {} {
      var x :| x in a;
      SizeWithin(a - {x}, b - {x});
    }
  }

  lemma {:induction false} MoreAdded(seeds: set<string>, now: set<string>, next: set<string>)
    requires seeds <= now < next
    ensures |next - seeds| > |now - seeds|
  {
    SizeWithin(now - seeds, next - seeds);
    var x :| x in next && x !in now;
    assert x in next - seeds && x !in now - seeds;
  }

  /** Either nothing is added any more, or each batch so far added something. */
  lemma {:induction false} AddsOrStops(phases: seq<Phase>, g: Analysis, seeds: set<string>, avoid: set<string>, n: nat)
    ensures Greedily(phases, g, seeds, avoid, n + 1) == Greedily(phases, g, seeds, avoid, n)
            || |Greedily(phases, g, seeds, avoid, n + 1) - seeds| > n
  {
    hide Named;
    var now, next := Greedily(phases, g, seeds, avoid, n), Greedily(phases, g, seeds, avoid, n + 1);
    GreedilyGrows(phases, g, seeds, avoid, n, n + 1);
    GreedilyGrows(phases, g, seeds, avoid, 0, n);
    if next != now {
      MoreAdded(seeds, now, next);
      if n > 0 {
        AddsOrStops(phases, g, seeds, avoid, n - 1);
      }
    }
  }

  lemma {:induction false} Stopped(phases: seq<Phase>, g: Analysis, seeds: set<string>, avoid: set<string>, m: nat,
                                   n: nat)
    requires m <= n && Greedily(phases, g, seeds, avoid, m + 1) == Greedily(phases, g, seeds, avoid, m)
    ensures Greedily(phases, g, seeds, avoid, n) == Greedily(phases, g, seeds, avoid, m)
    decreases n
  {
    hide Named;
    if m < n {
      Stopped(phases, g, seeds, avoid, m, n - 1);
    }
  }

  /** As many batches as there are names suffice. */
  lemma {:induction false} RoundsSuffice(phases: seq<Phase>, g: Analysis, seeds: set<string>, avoid: set<string>,
                                         n: nat)
    ensures Greedily(phases, g, seeds, avoid, n) <= Greedily(phases, g, seeds, avoid, Rounds(phases))
  {
    hide Named, AllNames, Greedily;
    var rounds := Rounds(phases);
    if n <= rounds {
      GreedilyGrows(phases, g, seeds, avoid, n, rounds);
    } else {
      AddsOrStops(phases, g, seeds, avoid, rounds);
      GreedilyAmong(phases, g, seeds, avoid, rounds + 1);
      SizeWithin(Greedily(phases, g, seeds, avoid, rounds + 1) - seeds, AllNames(phases));
      Stopped(phases, g, seeds, avoid, rounds, n);
    }
  }

  // ----- what a run can complete

  /** What batches complete in the end that never complete the avoided phases. */
  ghost function Without(phases: seq<Phase>, g: Analysis, seeds: set<string>, avoid: set<string>): (ids: set<string>) {
    Greedily(phases, g, seeds, avoid, Rounds(phases))
  }

  /** A job whose phase depends on something that is still open when the declaration is ready. */
  ghost predicate TooEarly(phases: seq<Phase>, g: Analysis, completed: set<string>, i: nat, j: nat, b: string) {
    && Ready(phases, g, completed, i) && j < |phases[i].jobs|
    && DependsOn(phases, phases[i].jobs[j].phaseId, b) && b != phases[i].jobs[j].phaseId && b !in completed
  }

  /** Going on greedily, some job could be run too early after `n` batches. */
  ghost predicate EarlyAt(phases: seq<Phase>, g: Analysis, seeds: set<string>, avoid: set<string>, n: nat) {
    exists i: nat, j: nat, b :: TooEarly(phases, g, Greedily(phases, g, seeds, avoid, n), i, j, b)
  }

  lemma {:induction false} EnteredWhenNamed(phases: seq<Phase>, g: Analysis, seeds: set<string>, avoid: set<string>,
                                            n: nat, a: string)
    returns (u: nat)
    requires a in Greedily(phases, g, seeds, avoid, n) && a !in seeds
    ensures u < n && a !in Greedily(phases, g, seeds, avoid, u)
            && a in Named(phases, g, Greedily(phases, g, seeds, avoid, u))
  {
    hide Named;
    if a in Greedily(phases, g, seeds, avoid, n - 1) {
      u := EnteredWhenNamed(phases, g, seeds, avoid, n - 1, a);
    } else {
      u := n - 1;
    }
  }

  lemma {:induction false} OrderedNotOnItself(phases: seq<Phase>, order: seq<string>, a: string)
    requires Topological(phases, order) && a in order
    ensures !DependsOn(phases, a, a)
  {
    var i :| 0 <= i < |order| && order[i] == a;
    if DependsOn(phases, a, a) {
      assert false;
    }
  }

  lemma {:induction false} NotTooEarly(phases: seq<Phase>, g: Analysis, seeds: set<string>, avoid: set<string>, n: nat,
                                       i: nat, j: nat, b: string)
    requires !EarlyAt(phases, g, seeds, avoid, n)
    ensures !TooEarly(phases, g, Greedily(phases, g, seeds, avoid, n), i, j, b)
  {
    hide TooEarly, Greedily;
  }

  /** When a phase came in without any job too early, its declarations were ready then. */
  lemma {:induction false} ReadyOnEntry(phases: seq<Phase>, g: Analysis, seeds: set<string>, avoid: set<string>,
                                        u: nat, k: nat)
    requires Analyzed(phases, g) && k < |phases| && phases[k].id in g.order
    requires phases[k].id in Named(phases, g, Greedily(phases, g, seeds, avoid, u))
    requires phases[k].id !in Greedily(phases, g, seeds, avoid, u) && !EarlyAt(phases, g, seeds, avoid, u)
    ensures Ready(phases, g, Greedily(phases, g, seeds, avoid, u), k)
  {
    hide Greedily, StatusOf, Greedy, Maximal, MissingFound, InvalidFound, IssuesFound, CycleFound;
    var now := Greedily(phases, g, seeds, avoid, u);
    var i: nat, j: nat :| i < |phases| && j < |phases[i].jobs| && Ready(phases, g, now, i)
      && phases[i].jobs[j].phaseId == phases[k].id;
    OrderedNotOnItself(phases, g.order, phases[k].id);
    forall b | b in phases[k].dependsOn ensures b in now {
      assert DependsOn(phases, phases[k].id, b);
      NotTooEarly(phases, g, seeds, avoid, u, i, j, b);
    }
    ReadyIff(phases, g, now, k);
  }

  ghost predicate NeverEarlyBefore(phases: seq<Phase>, g: Analysis, seeds: set<string>, avoid: set<string>, n: nat) {
    forall u: nat | u < n :: !EarlyAt(phases, g, seeds, avoid, u)
  }

  /** A job of a declaration that some smaller set makes ready is run by the greedy batches too, now or
      before. */
  lemma {:induction false} JobRunGreedily(phases: seq<Phase>, g: Analysis, seeds: set<string>, avoid: set<string>,
                                          n: nat, completed: set<string>, k: nat, j: nat)
    requires Analyzed(phases, g) && NeverEarlyBefore(phases, g, seeds, avoid, n)
    requires seeds <= completed <= Greedily(phases, g, seeds, avoid, n)
    requires Ready(phases, g, completed, k) && j < |phases[k].jobs| && phases[k].jobs[j].phaseId !in avoid
    ensures phases[k].jobs[j].phaseId in Greedily(phases, g, seeds, avoid, n + 1)
  {
    hide Analyzed, StatusOf, EarlyAt;
    var now := Greedily(phases, g, seeds, avoid, n);
    ReadyIff(phases, g, completed, k);
    if phases[k].id !in now {
      ReadyIff(phases, g, now, k);
      assert Ready(phases, g, now, k);
    } else {
      var u := EnteredWhenNamed(phases, g, seeds, avoid, n, phases[k].id);
      ReadyOnEntry(phases, g, seeds, avoid, u, k);
      GreedilyGrows(phases, g, seeds, avoid, u + 1, n + 1);
    }
  }

  /** As long as no job comes too early, greedy batches complete whatever any run does that avoids the
      same phases. */
  lemma {:induction false} RunWithinGreedy(phases: seq<Phase>, g: Analysis, seeds: set<string>, batches: seq<Batch>,
                                           n: nat, avoid: set<string>)
    requires Analyzed(phases, g) && n <= |batches| && Run(phases, g, seeds, batches, n) !! avoid
    requires NeverEarlyBefore(phases, g, seeds, avoid, n)
    ensures Run(phases, g, seeds, batches, n) <= Greedily(phases, g, seeds, avoid, n)
  {
    hide Analyzed, AfterBatch, EarlyAt, Ready;
    if n > 0 {
      var before := Run(phases, g, seeds, batches, n - 1);
      CompletedKept(phases, g, before, batches[n - 1]);
      RunWithinGreedy(phases, g, seeds, batches, n - 1, avoid);
      RunHoldsSeeds(phases, g, seeds, batches, n - 1);
      GreedilyGrows(phases, g, seeds, avoid, n - 1, n);
      forall a | a in Run(phases, g, seeds, batches, n) && a !in before
        ensures a in Greedily(phases, g, seeds, avoid, n)
      {
        CompletedIsNamed(phases, g, before, batches[n - 1], a);
        var k: nat, j: nat :| k < |phases| && j < |phases[k].jobs| && Ready(phases, g, before, k)
          && phases[k].jobs[j].phaseId == a;
        JobRunGreedily(phases, g, seeds, avoid, n - 1, before, k, j);
      }
    }
  }

  // ----- the condition

  /** Batches that complete neither `b` nor the declaration's own phase can make the declaration ready,
      although the phase that the job names depends on `b`. */
  ghost predicate Uncovered(phases: seq<Phase>, g: Analysis, seeds: set<string>, i: nat, j: nat, b: string) {
    && i < |phases| && phases[i].id in g.order && phases[i].id !in seeds && j < |phases[i].jobs|
    && DependsOn(phases, phases[i].jobs[j].phaseId, b) && b != phases[i].jobs[j].phaseId && b !in seeds
    && AllIn(phases[i].dependsOn, Without(phases, g, seeds, {b, phases[i].id}))
  }

  ghost predicate NothingUncovered(phases: seq<Phase>, g: Analysis, seeds: set<string>) {
    forall i: nat, j: nat, b :: !Uncovered(phases, g, seeds, i, j, b)
  }

  lemma {:induction false} AllInMore(names: seq<string>, a: set<string>, b: set<string>)
    requires AllIn(names, a) && a <= b
    ensures AllIn(names, b)
  {
  }

  /** Nothing uncovered, no job ever comes too early. */
  lemma {:induction false} NeverEarly(phases: seq<Phase>, g: Analysis, seeds: set<string>, avoid: set<string>, n: nat)
    requires Analyzed(phases, g) && NothingUncovered(phases, g, seeds) && seeds !! avoid
    ensures !EarlyAt(phases, g, seeds, avoid, n)
    decreases n
  {
    hide Analyzed, StatusOf, DependsOn, NeverEarlyBefore, AllIn;
    if EarlyAt(phases, g, seeds, avoid, n) {
      var now := Greedily(phases, g, seeds, avoid, n);
      var i: nat, j: nat, b :| TooEarly(phases, g, now, i, j, b);
      EarlyIsUncovered(phases, g, seeds, avoid, n, i, j, b);
      assert false;
    }
  }

  lemma {:induction false} EarlyIsUncovered(phases: seq<Phase>, g: Analysis, seeds: set<string>, avoid: set<string>,
                                            n: nat, i: nat, j: nat, b: string)
    requires Analyzed(phases, g) && NothingUncovered(phases, g, seeds) && seeds !! avoid
    requires TooEarly(phases, g, Greedily(phases, g, seeds, avoid, n), i, j, b)
    ensures Uncovered(phases, g, seeds, i, j, b)
    decreases n, 1
  {
    hide Analyzed, StatusOf, DependsOn, AllIn, NothingUncovered, Greedily, EarlyAt, Run;
    var now := Greedily(phases, g, seeds, avoid, n);
    var other := {b, phases[i].id};
    ReadyIff(phases, g, now, i);
    GreedilyGrows(phases, g, seeds, avoid, 0, n);
    assert NeverEarlyBefore(phases, g, seeds, other, n) by {
      forall u: nat | u < n ensures !EarlyAt(phases, g, seeds, other, u) {
        NeverEarly(phases, g, seeds, other, u);
      }
    }
    GreedilyIsRun(phases, g, seeds, avoid, n, n);
    RunWithinGreedy(phases, g, seeds, Repeated(AvoidingBatch(phases, avoid), n), n, other);
    RoundsSuffice(phases, g, seeds, other, n);
    AllInMore(phases[i].dependsOn, now, Without(phases, g, seeds, other));
  }

  /** Where a run leads that completes, without the avoided phases, all a declaration depends on, and
      then runs one of its jobs. */
  lemma {:induction false} ReachAndRun(phases: seq<Phase>, g: Analysis, seeds: set<string>, avoid: set<string>, i: nat,
                                       j: nat)
    returns (batches: seq<Batch>)
    requires Analyzed(phases, g) && i < |phases| && j < |phases[i].jobs| && phases[i].id in g.order
    requires phases[i].id in avoid && seeds !! avoid && AllIn(phases[i].dependsOn, Without(phases, g, seeds, avoid))
    ensures Run(phases, g, seeds, batches, |batches|) == Without(phases, g, seeds, avoid) + {phases[i].jobs[j].phaseId}
    ensures Without(phases, g, seeds, avoid) !! avoid
  {
    hide Analyzed, AfterBatch, StatusOf, Greedily, AllIn;
    var rounds := Rounds(phases);
    var first, last := Repeated(AvoidingBatch(phases, avoid), rounds), BatchFor(phases[i].jobs[j]);
    GreedilyGrows(phases, g, seeds, avoid, 0, rounds);
    GreedilyIsRun(phases, g, seeds, avoid, rounds, rounds);
    RunSnoc(phases, g, seeds, first, last, rounds);
    ReadyIff(phases, g, Without(phases, g, seeds, avoid), i);
    OneJobCompletes(phases, g, Without(phases, g, seeds, avoid), i, j);
    batches := first + [last];
  }

  lemma {:induction false} UncoveredFails(phases: seq<Phase>, g: Analysis, seeds: set<string>, i: nat, j: nat,
                                          b: string)
    requires Analyzed(phases, g) && Uncovered(phases, g, seeds, i, j, b)
    ensures exists batches :: !ClosedUnder(phases, Run(phases, g, seeds, batches, |batches|))
  {
    hide Analyzed, Run, Without, DependsOn, AllIn;
    var batches := ReachAndRun(phases, g, seeds, {b, phases[i].id}, i, j);
    var completed := Run(phases, g, seeds, batches, |batches|);
    assert phases[i].jobs[j].phaseId in completed && b !in completed;
    assert !ClosedUnder(phases, completed);
  }

  lemma {:induction false} RunStaysClosed(phases: seq<Phase>, g: Analysis, seeds: set<string>, batches: seq<Batch>,
                                          n: nat)
    requires Analyzed(phases, g) && ClosedUnder(phases, seeds) && NothingUncovered(phases, g, seeds) && n <= |batches|
    ensures ClosedUnder(phases, Run(phases, g, seeds, batches, n))
  {
    hide Analyzed, AfterBatch, Uncovered, DependsOn, StatusOf, Ready, ClosedUnder;
    if n > 0 {
      RunStaysClosed(phases, g, seeds, batches, n - 1);
      var before := Run(phases, g, seeds, batches, n - 1);
      forall a, b | a in Run(phases, g, seeds, batches, n) && DependsOn(phases, a, b)
        ensures b in Run(phases, g, seeds, batches, n)
      {
        DependencyKept(phases, g, seeds, batches, n, a, b);
      }
      IsClosed(phases, Run(phases, g, seeds, batches, n));
    }
  }

  lemma {:induction false} IsClosed(phases: seq<Phase>, completed: set<string>)
    requires forall a, b | a in completed && DependsOn(phases, a, b) :: b in completed
    ensures ClosedUnder(phases, completed)
  {
  }

  lemma {:induction false} DependencyKept(phases: seq<Phase>, g: Analysis, seeds: set<string>, batches: seq<Batch>,
                                          n: nat, a: string, b: string)
    requires Analyzed(phases, g) && NothingUncovered(phases, g, seeds) && 0 < n <= |batches|
    requires ClosedUnder(phases, Run(phases, g, seeds, batches, n - 1))
    requires a in Run(phases, g, seeds, batches, n) && DependsOn(phases, a, b)
    ensures b in Run(phases, g, seeds, batches, n)
  {
    hide Analyzed, AfterBatch, DependsOn, StatusOf, NothingUncovered;
    var before, after := Run(phases, g, seeds, batches, n - 1), Run(phases, g, seeds, batches, n);
    CompletedKept(phases, g, before, batches[n - 1]);
    if a !in before && b !in after {
      CompletedIsNamed(phases, g, before, batches[n - 1], a);
      var i: nat, j: nat :| i < |phases| && j < |phases[i].jobs| && Ready(phases, g, before, i)
        && phases[i].jobs[j].phaseId == a;
      OpenIsUncovered(phases, g, seeds, batches, n - 1, i, j, b);
      CannotBe(phases, g, seeds, i, j, b);
      assert false;
    }
  }

  lemma {:induction false} CannotBe(phases: seq<Phase>, g: Analysis, seeds: set<string>, i: nat, j: nat, b: string)
    requires NothingUncovered(phases, g, seeds)
    ensures !Uncovered(phases, g, seeds, i, j, b)
  {
    hide Uncovered;
  }

  /** A set that a run reaches, and that leaves out certain phases, is within what greedy batches complete
      without them. */
  lemma {:induction false} RunWithin(phases: seq<Phase>, g: Analysis, seeds: set<string>, batches: seq<Batch>, n: nat,
                                     avoid: set<string>)
    requires Analyzed(phases, g) && NothingUncovered(phases, g, seeds) && n <= |batches|
    requires Run(phases, g, seeds, batches, n) !! avoid
    ensures Run(phases, g, seeds, batches, n) <= Without(phases, g, seeds, avoid)
  {
    hide Analyzed, Run, NothingUncovered, EarlyAt, Greedily;
    RunHoldsSeeds(phases, g, seeds, batches, n);
    forall u: nat | u < n ensures !EarlyAt(phases, g, seeds, avoid, u) {
      NeverEarly(phases, g, seeds, avoid, u);
    }
    RunWithinGreedy(phases, g, seeds, batches, n, avoid);
    RoundsSuffice(phases, g, seeds, avoid, n);
  }

  lemma {:induction false} OpenIsUncovered(phases: seq<Phase>, g: Analysis, seeds: set<string>, batches: seq<Batch>,
                                           n: nat, i: nat, j: nat, b: string)
    requires Analyzed(phases, g) && NothingUncovered(phases, g, seeds) && n <= |batches|
    requires TooEarly(phases, g, Run(phases, g, seeds, batches, n), i, j, b)
    ensures Uncovered(phases, g, seeds, i, j, b)
  {
    hide Analyzed, Run, NothingUncovered, Without, DependsOn, StatusOf, AllIn;
    var before := Run(phases, g, seeds, batches, n);
    ReadyIff(phases, g, before, i);
    RunHoldsSeeds(phases, g, seeds, batches, n);
    RunWithin(phases, g, seeds, batches, n, {b, phases[i].id});
    AllInMore(phases[i].dependsOn, before, Without(phases, g, seeds, {b, phases[i].id}));
  }

  /** Exactly for which plans and starts the completed set of every run of batches is closed under
      dependencies. */
  lemma {:induction false} RunIsClosedIff(phases: seq<Phase>, g: Analysis, seeds: set<string>)
    requires Analyzed(phases, g)
    ensures ClosedUnder(phases, seeds) && NothingUncovered(phases, g, seeds) <==>
            forall batches :: ClosedUnder(phases, Run(phases, g, seeds, batches, |batches|))
  {
    hide Analyzed, ClosedUnder, Uncovered;
    if ClosedUnder(phases, seeds) && NothingUncovered(phases, g, seeds) {
      forall batches ensures ClosedUnder(phases, Run(phases, g, seeds, batches, |batches|)) {
        RunStaysClosed(phases, g, seeds, batches, |batches|);
      }
    } else if ClosedUnder(phases, seeds) {
      var i: nat, j: nat, b :| Uncovered(phases, g, seeds, i, j, b);
      UncoveredFails(phases, g, seeds, i, j, b);
    } else {
      var none: seq<Batch> := [];
      assert Run(phases, g, seeds, none, |none|) == seeds;
    }
  }

  // ----- completing a bad phase

  /** A job that names an invalid or cyclic phase, of a declaration that batches can make ready. */
  ghost predicate NamesBad(phases: seq<Phase>, g: Analysis, seeds: set<string>, i: nat, j: nat) {
    && i < |phases| && phases[i].id in g.order && phases[i].id !in seeds && j < |phases[i].jobs|
    && (phases[i].jobs[j].phaseId in g.invalid || phases[i].jobs[j].phaseId in g.cycle)
    && AllIn(phases[i].dependsOn, Without(phases, g, seeds, {phases[i].id}))
  }

  lemma {:induction false} NamesBadFails(phases: seq<Phase>, g: Analysis, seeds: set<string>, i: nat, j: nat)
    requires Analyzed(phases, g) && NamesBad(phases, g, seeds, i, j)
    ensures exists batches :: !NoneBad(g, Run(phases, g, seeds, batches, |batches|))
  {
    hide Analyzed, Run, Without, AllIn;
    var batches := ReachAndRun(phases, g, seeds, {phases[i].id}, i, j);
    assert phases[i].jobs[j].phaseId in Run(phases, g, seeds, batches, |batches|);
    assert !NoneBad(g, Run(phases, g, seeds, batches, |batches|));
  }

  lemma {:induction false} RunStaysGood(phases: seq<Phase>, g: Analysis, seeds: set<string>, batches: seq<Batch>,
                                        n: nat)
    requires Analyzed(phases, g) && NothingUncovered(phases, g, seeds) && NoneBad(g, seeds) && n <= |batches|
    requires forall i: nat, j: nat :: !NamesBad(phases, g, seeds, i, j)
    ensures NoneBad(g, Run(phases, g, seeds, batches, n))
  {
    hide Analyzed, AfterBatch, NothingUncovered, NamesBad, Ready;
    if n > 0 {
      RunStaysGood(phases, g, seeds, batches, n - 1);
      var before := Run(phases, g, seeds, batches, n - 1);
      forall a | a in Run(phases, g, seeds, batches, n) && a !in before ensures a !in g.invalid && a !in g.cycle {
        CompletedIsNamed(phases, g, before, batches[n - 1], a);
        var i: nat, j: nat :| i < |phases| && j < |phases[i].jobs| && Ready(phases, g, before, i)
          && phases[i].jobs[j].phaseId == a;
        ReadyWithin(phases, g, seeds, batches, n - 1, i);
        assert !NamesBad(phases, g, seeds, i, j);
        NotBad(phases, g, seeds, i, j);
      }
    }
  }

  lemma {:induction false} ReadyWithin(phases: seq<Phase>, g: Analysis, seeds: set<string>, batches: seq<Batch>,
                                       n: nat, i: nat)
    requires Analyzed(phases, g) && NothingUncovered(phases, g, seeds) && n <= |batches|
    requires Ready(phases, g, Run(phases, g, seeds, batches, n), i)
    ensures phases[i].id in g.order && phases[i].id !in seeds
    ensures AllIn(phases[i].dependsOn, Without(phases, g, seeds, {phases[i].id}))
  {
    hide Analyzed, Run, NothingUncovered, Without, StatusOf, AllIn;
    ReadyIff(phases, g, Run(phases, g, seeds, batches, n), i);
    RunHoldsSeeds(phases, g, seeds, batches, n);
    RunWithin(phases, g, seeds, batches, n, {phases[i].id});
    AllInMore(phases[i].dependsOn, Run(phases, g, seeds, batches, n), Without(phases, g, seeds, {phases[i].id}));
  }

  lemma {:induction false} NotBad(phases: seq<Phase>, g: Analysis, seeds: set<string>, i: nat, j: nat)
    requires i < |phases| && j < |phases[i].jobs| && phases[i].id in g.order && phases[i].id !in seeds
    requires AllIn(phases[i].dependsOn, Without(phases, g, seeds, {phases[i].id})) && !NamesBad(phases, g, seeds, i, j)
    ensures phases[i].jobs[j].phaseId !in g.invalid && phases[i].jobs[j].phaseId !in g.cycle
  {
    hide AllIn, Without;
  }

  /** Among the plans whose runs stay closed: exactly for which no run completes an invalid or cyclic
      phase. */
  lemma {:induction false} RunIsSoundIff(phases: seq<Phase>, g: Analysis, seeds: set<string>)
    requires Analyzed(phases, g) && NothingUncovered(phases, g, seeds)
    ensures NoneBad(g, seeds) && (forall i: nat, j: nat :: !NamesBad(phases, g, seeds, i, j)) <==>
            forall batches :: NoneBad(g, Run(phases, g, seeds, batches, |batches|))
  {
    hide Analyzed, NothingUncovered, NamesBad, NoneBad;
    if NoneBad(g, seeds) && (forall i: nat, j: nat :: !NamesBad(phases, g, seeds, i, j)) {
      forall batches ensures NoneBad(g, Run(phases, g, seeds, batches, |batches|)) {
        RunStaysGood(phases, g, seeds, batches, |batches|);
      }
    } else if NoneBad(g, seeds) {
      var i: nat, j: nat :| NamesBad(phases, g, seeds, i, j);
      NamesBadFails(phases, g, seeds, i, j);
    } else {
      var none: seq<Batch> := [];
      assert Run(phases, g, seeds, none, |none|) == seeds;
    }
  }
}
