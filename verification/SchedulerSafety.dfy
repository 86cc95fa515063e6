/** What every run of batches guarantees, and for which plans the completed set is closed under
    dependencies. */
module SchedulerSafety {
  import opened Orders
  import opened PhaseGraph
  import opened PhaseAnalysis
  import opened Scheduler
  import opened SchedulerRun

  // ----- turns come from ready phases

  /** The declaration lists a job for the phase; a job names its phase itself. */
  ghost predicate ListsJobFor(phase: Phase, id: string) {
    exists j | 0 <= j < |phase.jobs| :: phase.jobs[j].phaseId == id
  }

  ghost predicate ListedReady(phases: seq<Phase>, completed: set<string>, g: Analysis, id: string) {
    exists i | 0 <= i < |phases| :: ListsJobFor(phases[i], id) && StatusOf(phases[i], completed, g) == PhaseReady
  }

  lemma {:induction false} JobsOfReady(phases: seq<Phase>, request: Request, g: Analysis, i: nat)
    requires i < |phases|
    ensures var phase := SchedulePhase(phases[i], request, g);
      phase.status == PhaseReady ==>
        forall job | job in phase.jobs :: ListedReady(phases, request.completed, g, job.job.phaseId)
  {
    hide StatusOf, BlockedBy;
    var phase := SchedulePhase(phases[i], request, g);
    forall job | job in phase.jobs ensures ListsJobFor(phases[i], job.job.phaseId) {
      var k :| 0 <= k < |phase.jobs| && phase.jobs[k] == job;
      assert phases[i].jobs[k] == job.job;
    }
  }

  lemma {:induction false} ReadyJobsListed(phases: seq<Phase>, request: Request, g: Analysis, n: nat)
    requires n <= |phases|
    ensures forall job | job in ReadyPhaseJobs(SchedulePhases(phases, request, g), n) ::
              ListedReady(phases, request.completed, g, job.job.phaseId)
  {
    hide SchedulePhase, ListedReady;
    if n > 0 {
      ReadyJobsListed(phases, request, g, n - 1);
      JobsOfReady(phases, request, g, n - 1);
    }
  }

  lemma {:induction false} TurnsFromJobs(jobs: seq<ScheduledJob>, batch: Batch, n: nat)
    requires n <= |jobs|
    ensures var s := ScaffoldOf(jobs, batch, n);
      forall turn | turn in s.runnable :: exists job | job in jobs :: job.job.phaseId == turn.phaseId
  {
    if n > 0 {
      TurnsFromJobs(jobs, batch, n - 1);
      var s, before := ScaffoldOf(jobs, batch, n), ScaffoldOf(jobs, batch, n - 1);
      forall turn | turn in s.runnable ensures exists job | job in jobs :: job.job.phaseId == turn.phaseId {
        if turn !in before.runnable {
          assert jobs[n - 1] in jobs && jobs[n - 1].job.phaseId == turn.phaseId;
        }
      }
    }
  }

  /** An open, ordered declaration with all dependencies completed lists a job for the phase. */
  ghost predicate ServedBy(phases: seq<Phase>, g: Analysis, completed: set<string>, id: string, i: nat) {
    && i < |phases| && ListsJobFor(phases[i], id) && phases[i].id !in completed && phases[i].id in g.order
    && AllIn(phases[i].dependsOn, completed)
  }

  /** Safety of one batch, for every plan: a phase it finishes is served by a ready declaration. */
  lemma {:induction false} FinishedWasReady(phases: seq<Phase>, g: Analysis, completed: set<string>, batch: Batch,
                                            id: string)
    requires Analyzed(phases, g)
    requires Finishes(BatchScaffold(phases, g, completed, batch), batch.finished, id)
    ensures exists i: nat :: ServedBy(phases, g, completed, id, i)
  {
    hide Analyzed, StatusOf, SchedulePhases, ScaffoldOf, ReadyPhaseJobs, AllIn, ListsJobFor;
    var request := Request(completed, batch.artifacts, batch.mail);
    var jobs := ReadyPhaseJobs(SchedulePhases(phases, request, g), |phases|);
    ReadyJobsListed(phases, request, g, |phases|);
    TurnsFromJobs(jobs, batch, |jobs|);
    var turn :| turn in ScaffoldOf(jobs, batch, |jobs|).runnable && turn.phaseId == id;
    var job :| job in jobs && job.job.phaseId == turn.phaseId;
    assert ListedReady(phases, completed, g, id);
    var i: nat :| i < |phases| && ListsJobFor(phases[i], id) && StatusOf(phases[i], completed, g) == PhaseReady;
    ReadyIff(phases, g, completed, i);
    assert ServedBy(phases, g, completed, id, i);
  }

  // ----- every run of every plan

  /** An ordered declaration with all dependencies completed lists a job for the phase. */
  ghost predicate ListedByServed(phases: seq<Phase>, g: Analysis, completed: set<string>, a: string) {
    exists i: nat | i < |phases| ::
      ListsJobFor(phases[i], a) && phases[i].id in g.order && AllIn(phases[i].dependsOn, completed)
  }

  ghost predicate Backed(phases: seq<Phase>, g: Analysis, seeds: set<string>, completed: set<string>) {
    forall a | a in completed :: a in seeds || ListedByServed(phases, g, completed, a)
  }

  lemma {:induction false} BackingGrows(phases: seq<Phase>, g: Analysis, completed: set<string>, more: set<string>,
                                        a: string)
    requires completed <= more && ListedByServed(phases, g, completed, a)
    ensures ListedByServed(phases, g, more, a)
  {
    hide ListsJobFor;
    var i: nat :| i < |phases| && ListsJobFor(phases[i], a) && phases[i].id in g.order
      && AllIn(phases[i].dependsOn, completed);
    assert AllIn(phases[i].dependsOn, more);
  }

  lemma {:induction false} ServedIsListed(phases: seq<Phase>, g: Analysis, completed: set<string>, a: string, i: nat)
    requires ServedBy(phases, g, completed, a, i)
    ensures ListedByServed(phases, g, completed, a)
  {
    hide ListsJobFor, AllIn;
  }

  /** For every plan: along every run the completed set only grows, and each phase in it was there from
      the start or is listed by an ordered declaration whose dependencies are completed. */
  lemma {:induction false} RunIsBacked(phases: seq<Phase>, g: Analysis, seeds: set<string>, batches: seq<Batch>, n: nat)
    requires Analyzed(phases, g) && n <= |batches|
    ensures Backed(phases, g, seeds, Run(phases, g, seeds, batches, n))
    ensures forall m | 0 <= m <= n :: Run(phases, g, seeds, batches, m) <= Run(phases, g, seeds, batches, n)
  {
    hide Analyzed, BatchScaffold, BatchCompletes, Finishes, ListedByServed;
    if n > 0 {
      RunIsBacked(phases, g, seeds, batches, n - 1);
      var before, after := Run(phases, g, seeds, batches, n - 1), Run(phases, g, seeds, batches, n);
      forall a | a in after ensures a in seeds || ListedByServed(phases, g, after, a) {
        if a !in before {
          FinishedWasReady(phases, g, before, batches[n - 1], a);
          var i: nat :| ServedBy(phases, g, before, a, i);
          ServedIsListed(phases, g, before, a, i);
          BackingGrows(phases, g, before, after, a);
        } else if a !in seeds {
          BackingGrows(phases, g, before, after, a);
        }
      }
    }
  }

  lemma {:induction false} RunHoldsSeeds(phases: seq<Phase>, g: Analysis, seeds: set<string>, batches: seq<Batch>,
                                         n: nat)
    requires n <= |batches|
    ensures seeds <= Run(phases, g, seeds, batches, n)
  {
    hide BatchScaffold, BatchCompletes;
    if n > 0 {
      RunHoldsSeeds(phases, g, seeds, batches, n - 1);
    }
  }

  // ----- what a declaration depends on

  /** The id is among the listed ones or something they depend on, directly or through others. */
  ghost predicate Reached(phases: seq<Phase>, from: seq<string>, b: string) {
    exists path :: IsPath(phases, path) && path[0] in from && path[|path| - 1] == b
  }

  lemma {:induction false} ReachedAtOnce(phases: seq<Phase>, from: seq<string>, b: string)
    requires b in from
    ensures Reached(phases, from, b)
  {
    assert IsPath(phases, [b]);
  }

  ghost predicate ClosedUnder(phases: seq<Phase>, completed: set<string>) {
    forall a, b | a in completed && DependsOn(phases, a, b) :: b in completed
  }

  /** A closed set that holds the start of a path holds all of it. */
  lemma {:induction false} PathInClosed(phases: seq<Phase>, completed: set<string>, path: seq<string>, k: nat)
    requires ClosedUnder(phases, completed) && IsPath(phases, path) && path[0] in completed && k < |path|
    ensures path[k] in completed
  {
    hide DependsOn;
    if k > 0 {
      PathInClosed(phases, completed, path, k - 1);
      assert DependsOn(phases, path[k - 1], path[k]);
    }
  }

  lemma {:induction false} ReachedInClosed(phases: seq<Phase>, completed: set<string>, from: seq<string>, b: string)
    requires ClosedUnder(phases, completed) && AllIn(from, completed) && Reached(phases, from, b)
    ensures b in completed
  {
    hide DependsOn, ClosedUnder;
    var path :| IsPath(phases, path) && path[0] in from && path[|path| - 1] == b;
    PathInClosed(phases, completed, path, |path| - 1);
  }

  // ----- batches that run chosen jobs

  predicate IsJob(job: Job, sj: ScheduledJob) { sj.job == job }

  /** The batch that runs only this job, with everything it requires at hand. */
  function BatchFor(job: Job): (batch: Batch) {
    Batch(Elements(job.requiredArtifacts), Elements(job.requiredMail), condition => Holds,
          sj => if IsJob(job, sj) then ["operation"] else [], {"operation"})
  }

  lemma {:induction false} OnlyThatJob(jobs: seq<ScheduledJob>, job: Job, n: nat)
    requires n <= |jobs|
    ensures var s := ScaffoldOf(jobs, BatchFor(job), n);
      && s.conditional == []
      && (forall turn | turn in s.runnable :: turn == Turn(job.phaseId, "operation"))
      && ((exists k | 0 <= k < n ::
           jobs[k].job == job && jobs[k].missingArtifacts == [] && jobs[k].missingMail == []) ==>
            s.runnable != [])
  {
    if n > 0 {
      OnlyThatJob(jobs, job, n - 1);
    }
  }

  lemma {:induction false} NothingMissing(job: Job, status: PhaseStatus, completed: set<string>)
    ensures var sj := ScheduleJob(job, status,
            Request(completed, Elements(job.requiredArtifacts), Elements(job.requiredMail)));
      sj.missingArtifacts == [] && sj.missingMail == []
  {
    FilterNotIn(job.requiredArtifacts, Elements(job.requiredArtifacts));
    FilterNotIn(job.requiredMail, Elements(job.requiredMail));
  }

  lemma {:induction false} ReadyJobIncluded(phases: seq<Phase>, request: Request, g: Analysis, i: nat, j: nat, n: nat)
    requires i < n <= |phases| && j < |phases[i].jobs| && StatusOf(phases[i], request.completed, g) == PhaseReady
    ensures ScheduleJob(phases[i].jobs[j], PhaseReady, request) in ReadyPhaseJobs(SchedulePhases(phases, request, g), n)
  {
    hide StatusOf, BlockedBy, ScheduleJob;
    if i < n - 1 {
      ReadyJobIncluded(phases, request, g, i, j, n - 1);
    } else {
      var phase := SchedulePhase(phases[i], request, g);
      assert phase.jobs[j] == ScheduleJob(phases[i].jobs[j], PhaseReady, request);
      assert phase.jobs[j] in phase.jobs;
    }
  }

  lemma {:induction false} ScheduledKeepsJob(job: Job, status: PhaseStatus, request: Request)
    ensures ScheduleJob(job, status, request).job == job
  {
  }

  /** From a state in which a declaration is ready, running one of its jobs completes just the phase
      that the job names. */
  lemma {:induction false} OneJobCompletes(phases: seq<Phase>, g: Analysis, completed: set<string>, i: nat, j: nat)
    requires i < |phases| && j < |phases[i].jobs| && StatusOf(phases[i], completed, g) == PhaseReady
    ensures var job := phases[i].jobs[j];
      AfterBatch(phases, g, completed, BatchFor(job)) == completed + {job.phaseId}
  {
    hide StatusOf, SchedulePhase, ScaffoldOf, ReadyPhaseJobs, ScheduleJob, BatchCompletes;
    var job := phases[i].jobs[j];
    var batch := BatchFor(job);
    var request := Request(completed, batch.artifacts, batch.mail);
    var jobs := ReadyPhaseJobs(SchedulePhases(phases, request, g), |phases|);
    ReadyJobIncluded(phases, request, g, i, j, |phases|);
    NothingMissing(job, PhaseReady, completed);
    ScheduledKeepsJob(job, PhaseReady, request);
    var k :| 0 <= k < |jobs| && jobs[k] == ScheduleJob(job, PhaseReady, request);
    OnlyThatJob(jobs, job, |jobs|);
    var s := ScaffoldOf(jobs, batch, |jobs|);
    assert s.runnable[0] in s.runnable;
    assert BatchCompletes(s, {"operation"}) == {job.phaseId};
  }

  // ----- a condition on the plan alone

  /** Whatever the phase a job names depends on is that phase itself or among what the declaration that
      lists the job depends on. */
  ghost predicate Covered(phases: seq<Phase>, phase: Phase, job: Job) {
    forall b | DependsOn(phases, job.phaseId, b) :: b == job.phaseId || Reached(phases, phase.dependsOn, b)
  }

  ghost predicate JobsCovered(phases: seq<Phase>, g: Analysis) {
    forall i, j | 0 <= i < |phases| && phases[i].id in g.order && 0 <= j < |phases[i].jobs| ::
      Covered(phases, phases[i], phases[i].jobs[j])
  }

  /** Where every job is covered, the completed set of every run that starts closed stays closed. */
  lemma {:induction false} CoveredRunIsClosed(phases: seq<Phase>, g: Analysis, seeds: set<string>, batches: seq<Batch>,
                                              n: nat)
    requires Analyzed(phases, g) && JobsCovered(phases, g) && ClosedUnder(phases, seeds) && n <= |batches|
    ensures ClosedUnder(phases, Run(phases, g, seeds, batches, n))
  {
    hide Analyzed, BatchScaffold, BatchCompletes, Finishes, DependsOn, Reached;
    if n > 0 {
      CoveredRunIsClosed(phases, g, seeds, batches, n - 1);
      var before, after := Run(phases, g, seeds, batches, n - 1), Run(phases, g, seeds, batches, n);
      forall a, b | a in after && DependsOn(phases, a, b) ensures b in after {
        if a !in before {
          FinishedWasReady(phases, g, before, batches[n - 1], a);
          var i: nat :| ServedBy(phases, g, before, a, i);
          var j :| 0 <= j < |phases[i].jobs| && phases[i].jobs[j].phaseId == a;
          assert Covered(phases, phases[i], phases[i].jobs[j]);
          if b != a {
            ReachedInClosed(phases, before, phases[i].dependsOn, b);
          }
        }
      }
    }
  }

  ghost predicate NoneBad(g: Analysis, completed: set<string>) {
    forall a | a in completed :: a !in g.invalid && a !in g.cycle
  }

  ghost predicate JobsNameSound(phases: seq<Phase>, g: Analysis) {
    forall i, j | 0 <= i < |phases| && phases[i].id in g.order && 0 <= j < |phases[i].jobs| ::
      phases[i].jobs[j].phaseId !in g.invalid && phases[i].jobs[j].phaseId !in g.cycle
  }

  /** Where no job of an ordered declaration names a bad phase, no run completes one. */
  lemma {:induction false} SoundNamesNoneBad(phases: seq<Phase>, g: Analysis, seeds: set<string>, batches: seq<Batch>,
                                             n: nat)
    requires Analyzed(phases, g) && JobsNameSound(phases, g) && NoneBad(g, seeds) && n <= |batches|
    ensures NoneBad(g, Run(phases, g, seeds, batches, n))
  {
    hide Analyzed, BatchScaffold, BatchCompletes, Finishes, DependsOn;
    if n > 0 {
      SoundNamesNoneBad(phases, g, seeds, batches, n - 1);
      var before := Run(phases, g, seeds, batches, n - 1);
      forall a | a in Run(phases, g, seeds, batches, n) && a !in before ensures a !in g.invalid && a !in g.cycle {
        FinishedWasReady(phases, g, before, batches[n - 1], a);
        var i: nat :| ServedBy(phases, g, before, a, i);
        var j :| 0 <= j < |phases[i].jobs| && phases[i].jobs[j].phaseId == a;
      }
    }
  }

  // ----- plans whose jobs are listed under the phase they name

  ghost predicate JobsOwned(phases: seq<Phase>) {
    forall i, j | 0 <= i < |phases| && 0 <= j < |phases[i].jobs| :: phases[i].jobs[j].phaseId == phases[i].id
  }

  ghost predicate UniqueIds(phases: seq<Phase>) {
    forall i, j | 0 <= i < j < |phases| :: phases[i].id != phases[j].id
  }

  /** With jobs listed under the phase they name, no run completes a bad phase, and every phase that it
      completes has a declaration whose dependencies are all completed. */
  lemma {:induction false} OwnedRunIsSound(phases: seq<Phase>, g: Analysis, seeds: set<string>, batches: seq<Batch>,
                                           a: string)
    requires Analyzed(phases, g) && JobsOwned(phases) && NoneBad(g, seeds)
    requires a in Run(phases, g, seeds, batches, |batches|)
    ensures a !in g.invalid && a !in g.cycle
    ensures a !in seeds ==>
              exists i | 0 <= i < |phases| ::
                phases[i].id == a && AllIn(phases[i].dependsOn, Run(phases, g, seeds, batches, |batches|))
  {
    hide Analyzed, Run, AllIn;
    OwnedNamesSound(phases, g);
    SoundNamesNoneBad(phases, g, seeds, batches, |batches|);
    RunIsBacked(phases, g, seeds, batches, |batches|);
    if a !in seeds {
      var i: nat :| i < |phases| && ListsJobFor(phases[i], a) && phases[i].id in g.order
                    && AllIn(phases[i].dependsOn, Run(phases, g, seeds, batches, |batches|));
      assert phases[i].id == a;
    }
  }

  lemma {:induction false} OwnedNamesSound(phases: seq<Phase>, g: Analysis)
    requires Analyzed(phases, g) && JobsOwned(phases)
    ensures JobsNameSound(phases, g)
  {
    hide Analyzed;
    forall i, j | 0 <= i < |phases| && phases[i].id in g.order && 0 <= j < |phases[i].jobs|
      ensures phases[i].jobs[j].phaseId !in g.invalid && phases[i].jobs[j].phaseId !in g.cycle
    {
      PhasesPartitioned(phases, g, phases[i].id);
    }
  }

  lemma {:induction false} OwnedAndUniqueCovered(phases: seq<Phase>, g: Analysis)
    requires JobsOwned(phases) && UniqueIds(phases)
    ensures JobsCovered(phases, g)
  {
    hide Reached;
    forall i, j | 0 <= i < |phases| && phases[i].id in g.order && 0 <= j < |phases[i].jobs|
      ensures Covered(phases, phases[i], phases[i].jobs[j])
    {
      forall b | DependsOn(phases, phases[i].id, b) ensures Reached(phases, phases[i].dependsOn, b) {
        ReachedAtOnce(phases, phases[i].dependsOn, b);
      }
    }
  }

  /** With such jobs and one declaration an id, the completed set of every run that starts closed is
      closed. */
  lemma {:induction false} OwnedRunIsClosed(phases: seq<Phase>, g: Analysis, seeds: set<string>, batches: seq<Batch>)
    requires Analyzed(phases, g) && JobsOwned(phases) && UniqueIds(phases) && ClosedUnder(phases, seeds)
    ensures ClosedUnder(phases, Run(phases, g, seeds, batches, |batches|))
  {
    hide Analyzed, JobsOwned, UniqueIds, JobsCovered;
    OwnedAndUniqueCovered(phases, g);
    CoveredRunIsClosed(phases, g, seeds, batches, |batches|);
  }

  // ----- two plans for which it is not

  function PlainJob(id: string): Job { Job(id, "job", [], [], None) }

  /** "a" is declared twice; its job is listed where it depends on nothing. */
  function RepeatedId(): (phases: seq<Phase>) {
    [Phase("a", [], [PlainJob("a")]), Phase("a", ["b"], []), Phase("b", [], [])]
  }

  /** The job that "x" lists names "a". */
  function BorrowedJob(): (phases: seq<Phase>) {
    [Phase("x", [], [PlainJob("a")]), Phase("a", ["b"], []), Phase("b", [], [])]
  }

  lemma {:induction false} FreeIsOrdered(phases: seq<Phase>, g: Analysis, a: string)
    requires Analyzed(phases, g) && a in Ids(phases) && forall b | DependsOn(phases, a, b) :: b in g.order
    ensures a in g.order
  {
    hide Topological, Greedy, MissingFound, InvalidFound, CycleFound, IssuesFound, DependsOn;
    assert !Free(phases, g.order, a);
  }

  /** Running the first declaration's only job from nothing completes the phase it names. */
  lemma {:induction false} FirstJobCompletes(phases: seq<Phase>, g: Analysis)
    requires Analyzed(phases, g) && phases != [] && phases[0].jobs != [] && phases[0].dependsOn == []
    requires phases[0].id in g.order
    ensures Run(phases, g, {}, [BatchFor(phases[0].jobs[0])], 1) == {phases[0].jobs[0].phaseId}
  {
    hide Analyzed, StatusOf, BatchFor, AfterBatch;
    var batches := [BatchFor(phases[0].jobs[0])];
    ReadyIff(phases, g, {}, 0);
    OneJobCompletes(phases, g, {}, 0, 0);
    assert Run(phases, g, {}, batches, 0) == {};
    assert {} + {phases[0].jobs[0].phaseId} == {phases[0].jobs[0].phaseId};
  }

  lemma {:induction false} RepeatedIdFails(g: Analysis)
    requires Analyzed(RepeatedId(), g)
    ensures JobsOwned(RepeatedId()) && DependsOn(RepeatedId(), "a", "b")
    ensures Run(RepeatedId(), g, {}, [BatchFor(PlainJob("a"))], 1) == {"a"}
  {
    hide Analyzed, Run, BatchFor;
    var phases := RepeatedId();
    assert phases[0].id == "a" && phases[1].id == "a" && phases[2].id == "b";
    assert DependsOn(phases, "a", "b");
    FreeIsOrdered(phases, g, "b");
    FreeIsOrdered(phases, g, "a");
    FirstJobCompletes(phases, g);
  }

  lemma {:induction false} BorrowedJobFails(g: Analysis)
    requires Analyzed(BorrowedJob(), g)
    ensures UniqueIds(BorrowedJob()) && DependsOn(BorrowedJob(), "a", "b")
    ensures Run(BorrowedJob(), g, {}, [BatchFor(PlainJob("a"))], 1) == {"a"}
  {
    hide Analyzed, Run, BatchFor;
    var phases := BorrowedJob();
    assert phases[0].id == "x" && phases[1].id == "a" && phases[2].id == "b";
    assert DependsOn(phases, "a", "b");
    FreeIsOrdered(phases, g, "x");
    FirstJobCompletes(phases, g);
  }
}
