/** How runs come to an end: when every job runs and finishes, one batch a phase completes the plan. */
module SchedulerProgress {
  import opened Orders
  import opened PhaseGraph
  import opened PhaseAnalysis
  import opened Scheduler
  import opened SchedulerRun
  import opened SchedulerSafety
  import opened SchedulerClosure

  // ----- batches in which everything runs and finishes

  /** The job has what it requires, its condition holds, and it fans out to operations that finish. */
  ghost predicate Finishing(batch: Batch, job: Job) {
    && AllIn(job.requiredArtifacts, batch.artifacts) && AllIn(job.requiredMail, batch.mail)
    && batch.evaluate(job.condition) == Holds
    && forall status ::
         var operations := batch.fanOut(ScheduledJob(job, status, [], []));
         operations != [] && AllIn(operations, batch.finished)
  }

  ghost predicate Thorough(phases: seq<Phase>, batch: Batch) {
    forall i, j | 0 <= i < |phases| && 0 <= j < |phases[i].jobs| :: Finishing(batch, phases[i].jobs[j])
  }

  lemma {:induction false} FinishingSchedule(batch: Batch, job: Job, status: PhaseStatus, request: Request)
    requires Finishing(batch, job) && request.artifacts == batch.artifacts && request.mail == batch.mail
    ensures var sj := ScheduleJob(job, status, request);
      && sj == ScheduledJob(job, sj.status, [], [])
      && batch.fanOut(sj) != [] && AllIn(batch.fanOut(sj), batch.finished)
  {
    FilterNotIn(job.requiredArtifacts, batch.artifacts);
    FilterNotIn(job.requiredMail, batch.mail);
    var sj := ScheduleJob(job, status, request);
    assert sj == ScheduledJob(job, sj.status, [], []);
  }

  /** A scheduled job that runs all its operations to the end. */
  ghost predicate RunsToEnd(batch: Batch, sj: ScheduledJob) {
    && sj.missingArtifacts == [] && sj.missingMail == [] && batch.evaluate(sj.job.condition) == Holds
    && batch.fanOut(sj) != [] && AllIn(batch.fanOut(sj), batch.finished)
  }

  lemma {:induction false} PhaseRunsToEnd(phases: seq<Phase>, request: Request, g: Analysis, batch: Batch, i: nat)
    requires i < |phases| && Thorough(phases, batch) && request.artifacts == batch.artifacts
            && request.mail == batch.mail
    ensures forall sj | sj in SchedulePhase(phases[i], request, g).jobs :: RunsToEnd(batch, sj)
  {
    hide StatusOf, BlockedBy, ScheduleJob, Finishing;
    var phase := SchedulePhase(phases[i], request, g);
    forall sj | sj in phase.jobs ensures RunsToEnd(batch, sj) {
      var j :| 0 <= j < |phase.jobs| && phase.jobs[j] == sj;
      var job := phases[i].jobs[j];
      assert Finishing(batch, job);
      FinishingSchedule(batch, job, phase.status, request);
      FinishingHolds(batch, job);
    }
  }

  lemma {:induction false} FinishingHolds(batch: Batch, job: Job)
    requires Finishing(batch, job)
    ensures batch.evaluate(job.condition) == Holds
  {
  }

  lemma {:induction false} ReadyRunToEnd(phases: seq<Phase>, request: Request, g: Analysis, batch: Batch, n: nat)
    requires n <= |phases| && Thorough(phases, batch) && request.artifacts == batch.artifacts
            && request.mail == batch.mail
    ensures forall sj | sj in ReadyPhaseJobs(SchedulePhases(phases, request, g), n) :: RunsToEnd(batch, sj)
  {
    hide SchedulePhase, Thorough, RunsToEnd;
    if n > 0 {
      ReadyRunToEnd(phases, request, g, batch, n - 1);
      PhaseRunsToEnd(phases, request, g, batch, n - 1);
    }
  }

  /** When every job runs to the end, every turn finishes, none waits, and every job has one. */
  lemma {:induction false} AllTurnsEnd(jobs: seq<ScheduledJob>, batch: Batch, n: nat)
    requires n <= |jobs| && forall sj | sj in jobs :: RunsToEnd(batch, sj)
    ensures var s := ScaffoldOf(jobs, batch, n);
      && s.conditional == []
      && (forall turn | turn in s.runnable :: turn.operationId in batch.finished)
      && (forall k | 0 <= k < n :: exists turn | turn in s.runnable :: turn.phaseId == jobs[k].job.phaseId)
  {
    if n > 0 {
      AllTurnsEnd(jobs, batch, n - 1);
      var sj := jobs[n - 1];
      assert sj in jobs && RunsToEnd(batch, sj);
      var turns := TurnsOf(sj, batch.fanOut(sj));
      var before, s := ScaffoldOf(jobs, batch, n - 1), ScaffoldOf(jobs, batch, n);
      assert s.runnable == before.runnable + turns && s.conditional == before.conditional;
      forall turn | turn in turns ensures turn.operationId in batch.finished {
        var k :| 0 <= k < |turns| && turns[k] == turn;
        assert batch.fanOut(sj)[k] in batch.fanOut(sj);
      }
      assert turns[0] in s.runnable && turns[0].phaseId == sj.job.phaseId;
      forall k | 0 <= k < n - 1 ensures exists turn | turn in s.runnable :: turn.phaseId == jobs[k].job.phaseId {
        var turn :| turn in before.runnable && turn.phaseId == jobs[k].job.phaseId;
        assert turn in s.runnable;
      }
    }
  }

  /** A thorough batch completes every phase named by a job of a ready declaration. */
  lemma {:induction false} ThoroughCompletes(phases: seq<Phase>, g: Analysis, completed: set<string>, batch: Batch,
                                             i: nat, j: nat)
    requires Thorough(phases, batch) && i < |phases| && j < |phases[i].jobs|
    requires StatusOf(phases[i], completed, g) == PhaseReady
    ensures phases[i].jobs[j].phaseId in AfterBatch(phases, g, completed, batch)
  {
    hide StatusOf, SchedulePhase, ScaffoldOf, ReadyPhaseJobs, ScheduleJob, Thorough, RunsToEnd, AllIn;
    var request := Request(completed, batch.artifacts, batch.mail);
    var jobs := ReadyPhaseJobs(SchedulePhases(phases, request, g), |phases|);
    ReadyRunToEnd(phases, request, g, batch, |phases|);
    AllTurnsEnd(jobs, batch, |jobs|);
    ReadyJobIncluded(phases, request, g, i, j, |phases|);
    ScheduledKeepsJob(phases[i].jobs[j], PhaseReady, request);
    var k :| 0 <= k < |jobs| && jobs[k] == ScheduleJob(phases[i].jobs[j], PhaseReady, request);
    assert Finishes(ScaffoldOf(jobs, batch, |jobs|), batch.finished, phases[i].jobs[j].phaseId);
  }

  // ----- one batch a phase

  /** Some declaration of the phase lists a job that names it. */
  ghost predicate HasOwnJob(phases: seq<Phase>, id: string) {
    exists i | 0 <= i < |phases| :: phases[i].id == id && ListsJobFor(phases[i], id)
  }

  ghost predicate AllThorough(phases: seq<Phase>, batches: seq<Batch>) {
    forall k | 0 <= k < |batches| :: Thorough(phases, batches[k])
  }

  /** The phase is completed from the start or has a job. */
  ghost predicate Completable(phases: seq<Phase>, seeds: set<string>, id: string) {
    id in seeds || HasOwnJob(phases, id)
  }

  /** Everything a declaration of the `k`-th ordered phase depends on is ordered before it. */
  lemma {:induction false} EarlierDependencies(phases: seq<Phase>, order: seq<string>, k: nat, i: nat,
                                               completed: set<string>)
    requires Topological(phases, order) && k < |order| && i < |phases| && phases[i].id == order[k]
    requires forall m | 0 <= m < k :: order[m] in completed
    ensures AllIn(phases[i].dependsOn, completed)
  {
    forall b | b in phases[i].dependsOn ensures b in completed {
      assert DependsOn(phases, order[k], b);
      assert b in order[..k];
    }
  }

  lemma {:induction false} NextCompletes(phases: seq<Phase>, g: Analysis, completed: set<string>, batch: Batch, k: nat)
    requires Analyzed(phases, g) && Thorough(phases, batch) && k < |g.order|
    requires Completable(phases, completed, g.order[k])
    requires forall m | 0 <= m < k :: g.order[m] in completed
    ensures g.order[k] in AfterBatch(phases, g, completed, batch)
  {
    hide Analyzed, Thorough, StatusOf, BatchCompletes, AllIn;
    if g.order[k] !in completed {
      var i: nat :| i < |phases| && phases[i].id == g.order[k] && ListsJobFor(phases[i], g.order[k]);
      var j: nat :| j < |phases[i].jobs| && phases[i].jobs[j].phaseId == g.order[k];
      AnalyzedTopological(phases, g);
      EarlierDependencies(phases, g.order, k, i, completed);
      ReadyIff(phases, g, completed, i);
      ThoroughCompletes(phases, g, completed, batch, i, j);
    }
  }

  lemma {:induction false} AnalyzedTopological(phases: seq<Phase>, g: Analysis)
    requires Analyzed(phases, g)
    ensures Topological(phases, g.order)
  {
  }

  /** After `n` thorough batches the first `n` phases of the order are completed. */
  lemma {:induction false} OrderCompletes(phases: seq<Phase>, g: Analysis, seeds: set<string>, batches: seq<Batch>,
                                          n: nat)
    requires Analyzed(phases, g) && AllThorough(phases, batches) && n <= |batches|
    requires forall k | 0 <= k < |g.order| :: Completable(phases, seeds, g.order[k])
    ensures forall k | 0 <= k < n && k < |g.order| :: g.order[k] in Run(phases, g, seeds, batches, n)
  {
    hide Analyzed, Thorough, HasOwnJob, BatchCompletes, BatchScaffold;
    if n > 0 {
      OrderCompletes(phases, g, seeds, batches, n - 1);
      RunHoldsSeeds(phases, g, seeds, batches, n - 1);
      if n - 1 < |g.order| {
        NextCompletes(phases, g, Run(phases, g, seeds, batches, n - 1), batches[n - 1], n - 1);
      }
    }
  }

  lemma {:induction false} IdsAtMost(phases: seq<Phase>)
    ensures |Ids(phases)| <= |phases|
  {
    if phases != [] {
      var n := |phases| - 1;
      IdsAtMost(phases[..n]);
      assert phases == phases[..n] + [phases[n]];
      assert Ids(phases) == Ids(phases[..n]) + {phases[n].id};
    }
  }

  // ----- phases that no batch completes

  lemma {:induction false} UnlistedStaysOpen(phases: seq<Phase>, g: Analysis, seeds: set<string>, batches: seq<Batch>,
                                             n: nat, id: string)
    requires Analyzed(phases, g) && n <= |batches| && id !in seeds
    requires forall i | 0 <= i < |phases| :: !ListsJobFor(phases[i], id)
    ensures id !in Run(phases, g, seeds, batches, n)
  {
    hide Analyzed, BatchCompletes, BatchScaffold, Finishes, ListsJobFor;
    if n > 0 {
      UnlistedStaysOpen(phases, g, seeds, batches, n - 1, id);
      var before := Run(phases, g, seeds, batches, n - 1);
      if id in Run(phases, g, seeds, batches, n) {
        FinishedWasReady(phases, g, before, batches[n - 1], id);
        assert false;
      }
    }
  }

  function ThoroughBatch(phases: seq<Phase>): (batch: Batch) { AvoidingBatch(phases, {}) }

  lemma {:induction false} ThoroughExists(phases: seq<Phase>)
    ensures Thorough(phases, ThoroughBatch(phases))
  {
    forall i, j | 0 <= i < |phases| && 0 <= j < |phases[i].jobs|
      ensures Finishing(ThoroughBatch(phases), phases[i].jobs[j])
    {
      var phase := phases[i];
      assert phase in phases && phase.jobs[j] in phase.jobs;
    }
  }

  ghost predicate AlwaysCompletes(phases: seq<Phase>, g: Analysis, seeds: set<string>) {
    forall batches | AllThorough(phases, batches) && |batches| == |phases| ::
      AllCompleted(phases, Run(phases, g, seeds, batches, |phases|))
  }

  lemma {:induction false} ThoroughRunCompletes(phases: seq<Phase>, g: Analysis, seeds: set<string>,
                                                batches: seq<Batch>)
    requires Analyzed(phases, g) && g.issues == [] && AllThorough(phases, batches) && |batches| == |phases|
    requires forall i | 0 <= i < |phases| :: Completable(phases, seeds, phases[i].id)
    ensures AllCompleted(phases, Run(phases, g, seeds, batches, |phases|))
  {
    hide Analyzed, AllThorough, HasOwnJob, Run;
    NoIssuesIffAllOrdered(phases, g);
    AnalyzedTopological(phases, g);
    OrderFits(phases, g.order);
    IdsAtMost(phases);
    forall k | 0 <= k < |g.order| ensures Completable(phases, seeds, g.order[k]) {
      OrderedIsDeclared(phases, g.order, k);
    }
    OrderCompletes(phases, g, seeds, batches, |phases|);
    forall i | 0 <= i < |phases| ensures phases[i].id in Run(phases, g, seeds, batches, |phases|) {
      assert phases[i].id in Ids(phases);
      assert g.order[IndexIn(g.order, phases[i].id)] == phases[i].id;
    }
  }

  lemma {:induction false} OrderedIsDeclared(phases: seq<Phase>, order: seq<string>, k: nat)
    requires Topological(phases, order) && k < |order|
    ensures exists i | 0 <= i < |phases| :: phases[i].id == order[k]
  {
    assert phases[Position(phases, order[k])].id == order[k];
  }

  /** For a plan without issues whose jobs are listed under the phase they name: as many batches as there
      are phases, each running every job to the end, always complete the plan if and only if every phase
      is completed from the start or has a job. */
  lemma {:induction false} BatchesCompleteIff(phases: seq<Phase>, g: Analysis, seeds: set<string>)
    requires Analyzed(phases, g) && g.issues == [] && JobsOwned(phases)
    ensures (forall i | 0 <= i < |phases| :: Completable(phases, seeds, phases[i].id)) <==>
            AlwaysCompletes(phases, g, seeds)
  {
    hide Analyzed, AllThorough, HasOwnJob, Run, AllCompleted;
    if forall i | 0 <= i < |phases| :: Completable(phases, seeds, phases[i].id) {
      forall batches | AllThorough(phases, batches) && |batches| == |phases|
        ensures AllCompleted(phases, Run(phases, g, seeds, batches, |phases|)) {
        ThoroughRunCompletes(phases, g, seeds, batches);
      }
    } else {
      var i: nat :| i < |phases| && !Completable(phases, seeds, phases[i].id);
      JoblessFails(phases, g, seeds, i);
    }
  }

  lemma {:induction false} JoblessFails(phases: seq<Phase>, g: Analysis, seeds: set<string>, i: nat)
    requires Analyzed(phases, g) && JobsOwned(phases) && i < |phases| && !Completable(phases, seeds, phases[i].id)
    ensures exists batches :: AllThorough(phases, batches) && |batches| == |phases|
                            && !AllCompleted(phases, Run(phases, g, seeds, batches, |phases|))
  {
    hide Analyzed, Thorough, Run;
    var batches := Repeated(ThoroughBatch(phases), |phases|);
    ThoroughExists(phases);
    forall k | 0 <= k < |phases| ensures !ListsJobFor(phases[k], phases[i].id) {
      assert phases[k].id != phases[i].id ==>
        forall j | 0 <= j < |phases[k].jobs| :: phases[k].jobs[j].phaseId == phases[k].id;
    }
    UnlistedStaysOpen(phases, g, seeds, batches, |phases|, phases[i].id);
    assert AllThorough(phases, batches) && !AllCompleted(phases, Run(phases, g, seeds, batches, |phases|));
  }
}
