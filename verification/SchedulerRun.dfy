/** A run over many batches: the scheduler's ready jobs become turns, finished turns complete their
    phases, and completed phases feed the next schedule. */
module SchedulerRun {
  import opened Orders
  import opened PhaseGraph
  import opened PhaseAnalysis
  import opened Scheduler

  datatype Condition = Holds | Fails | Unknown

  /** A turn of the runtime: the phase it works for and the operation it performs. */
  datatype Turn = Turn(phaseId: string, operationId: string)

  datatype Scaffold = Scaffold(runnable: seq<Turn>, conditional: seq<Turn>)

  /** What one batch meets: how job conditions evaluate, which operations a job fans out to, and
      which operations finished. */
  datatype Batch = Batch(artifacts: set<string>, mail: set<string>, evaluate: Option<string> -> Condition,
                         fanOut: ScheduledJob -> seq<string>, finished: set<string>)

  function ReadyPhaseJobs(phases: seq<ScheduledPhase>, n: nat): (jobs: seq<ScheduledJob>)
    requires n <= |phases|
  {
    if n == 0 then []
    else ReadyPhaseJobs(phases, n - 1) + if phases[n - 1].status == PhaseReady then phases[n - 1].jobs else []
  }

  function TurnsOf(job: ScheduledJob, operations: seq<string>): (turns: seq<Turn>)
    ensures |turns| == |operations|
    ensures forall i | 0 <= i < |operations| :: turns[i] == Turn(job.job.phaseId, operations[i])
  {
    seq(|operations|, i requires 0 <= i < |operations| => Turn(job.job.phaseId, operations[i]))
  }

  function AddJob(s: Scaffold, job: ScheduledJob, batch: Batch): Scaffold {
    if job.missingArtifacts != [] || job.missingMail != [] then s
    else
      match batch.evaluate(job.job.condition)
      case Holds => Scaffold(s.runnable + TurnsOf(job, batch.fanOut(job)), s.conditional)
      case Fails => s
      case Unknown => Scaffold(s.runnable, s.conditional + TurnsOf(job, batch.fanOut(job)))
  }

  function ScaffoldOf(jobs: seq<ScheduledJob>, batch: Batch, n: nat): (s: Scaffold)
    requires n <= |jobs|
  {
    if n == 0 then Scaffold([], []) else AddJob(ScaffoldOf(jobs, batch, n - 1), jobs[n - 1], batch)
  }

  method BuildRuntimeScaffold(plan: RunPlan, batch: Batch) returns (s: Scaffold)
    ensures var jobs := ReadyPhaseJobs(plan.phases, |plan.phases|); s == ScaffoldOf(jobs, batch, |jobs|)
  {
    var jobs := ReadyPhaseJobs(plan.phases, |plan.phases|);
    var runnable: seq<Turn>, conditional: seq<Turn> := [], [];
    for i := 0 to |jobs|
      invariant Scaffold(runnable, conditional) == ScaffoldOf(jobs, batch, i)
    {
      var job := jobs[i];
      if job.missingArtifacts == [] && job.missingMail == [] {
        match batch.evaluate(job.job.condition)
        case Holds => runnable := runnable + TurnsOf(job, batch.fanOut(job));
        case Fails =>
        case Unknown => conditional := conditional + TurnsOf(job, batch.fanOut(job));
      }
    }
    s := Scaffold(runnable, conditional);
  }

  /** A batch finishes a phase when it ran turns for it, all of them finished, and none of the phase's
      turns waits on an undecided condition. */
  ghost predicate Finishes(s: Scaffold, finished: set<string>, phaseId: string) {
    && (exists turn | turn in s.runnable :: turn.phaseId == phaseId)
    && (forall turn | turn in s.runnable && turn.phaseId == phaseId :: turn.operationId in finished)
    && (forall turn | turn in s.conditional :: turn.phaseId != phaseId)
  }

  predicate AllTurnsFinished(turns: seq<Turn>, finished: set<string>, phaseId: string) {
    (exists turn | turn in turns :: turn.phaseId == phaseId) &&
    (forall turn | turn in turns :: turn.phaseId == phaseId ==> turn.operationId in finished)
  }

  predicate HasTurn(turns: seq<Turn>, phaseId: string) { exists turn | turn in turns :: turn.phaseId == phaseId }

  function Elements(s: seq<string>): (r: set<string>) { set x | x in s }

  /** The run's record of completed phases, kept in ascending order. */
  class RunState {
    var completedPhaseIds: seq<string>

    constructor ()
      ensures completedPhaseIds == []
    {
      completedPhaseIds := [];
    }

    function Completed(): (r: set<string>)
      reads this
    {
      Elements(completedPhaseIds)
    }

    method MarkPhaseCompleted(phaseId: string)
      modifies this
      ensures Completed() == old(Completed()) + {phaseId}
      ensures SortedBy(StringLe, completedPhaseIds) && Distinct(completedPhaseIds)
    {
      StringLeTotalOrder();
      completedPhaseIds := Ascending(StringLe, Elements(completedPhaseIds) + {phaseId});
    }

    method MarkFinished(listed: seq<string>, s: Scaffold, finished: set<string>)
      modifies this
      ensures Completed() == old(Completed()) + FinishedAmong(listed, s, finished, |listed|)
      ensures completedPhaseIds == old(completedPhaseIds) ||
              (SortedBy(StringLe, completedPhaseIds) && Distinct(completedPhaseIds))
    {
      hide StringLe, AllTurnsFinished, HasTurn, Elements, SortedBy, Distinct;
      for i := 0 to |listed|
        invariant Completed() == old(Completed()) + FinishedAmong(listed, s, finished, i)
        invariant completedPhaseIds == old(completedPhaseIds) ||
                  (SortedBy(StringLe, completedPhaseIds) && Distinct(completedPhaseIds))
      {
        var phaseId := listed[i];
        if AllTurnsFinished(s.runnable, finished, phaseId) && !HasTurn(s.conditional, phaseId) {
          MarkPhaseCompleted(phaseId);
        }
      }
    }

    method CompleteBatchPhases(s: Scaffold, finished: set<string>)
      modifies this
      ensures Completed() == old(Completed()) + BatchCompletes(s, finished)
      ensures completedPhaseIds == old(completedPhaseIds) ||
              (SortedBy(StringLe, completedPhaseIds) && Distinct(completedPhaseIds))
    {
      hide *;
      if finished == {} {
        NothingCompletes(s);
        return;
      }
      StringLeTotalOrder();
      var candidates := Candidates(s.runnable, finished) - Completed();
      var listed := Ascending(StringLe, candidates);
      BatchMarksFinished(listed, s, finished, Completed());
      MarkFinished(listed, s, finished);
    }
  }

  /** The phases a batch completes. */
  function BatchCompletes(s: Scaffold, finished: set<string>): (r: set<string>)
    ensures forall p :: p in r <==> Finishes(s, finished, p)
  {
    set turn | turn in s.runnable && AllTurnsFinished(s.runnable, finished, turn.phaseId)
      && !HasTurn(s.conditional, turn.phaseId) :: turn.phaseId
  }

  lemma {:induction false} NothingCompletes(s: Scaffold)
    ensures BatchCompletes(s, {}) == {}
  {
  }

  /** Those of the first `n` listed phases that the batch finishes. */
  function FinishedAmong(listed: seq<string>, s: Scaffold, finished: set<string>, n: nat): (r: set<string>)
    requires n <= |listed|
  {
    if n == 0 then {}
    else FinishedAmong(listed, s, finished, n - 1)
         + if AllTurnsFinished(s.runnable, finished, listed[n - 1]) && !HasTurn(s.conditional, listed[n - 1])
           then {listed[n - 1]} else {}
  }

  lemma {:induction false} FinishedAmongAll(listed: seq<string>, s: Scaffold, finished: set<string>, n: nat)
    requires n <= |listed|
    ensures forall p :: p in FinishedAmong(listed, s, finished, n) <==> p in listed[..n] && Finishes(s, finished, p)
  {
    hide Finishes, AllTurnsFinished, HasTurn;
    if n > 0 {
      FinishedAmongAll(listed, s, finished, n - 1);
      FinishesIff(s, finished, listed[n - 1]);
      assert listed[..n] == listed[..n - 1] + [listed[n - 1]];
    }
  }

  lemma {:induction false} BatchMarksFinished(listed: seq<string>, s: Scaffold, finished: set<string>,
                                              before: set<string>)
    requires forall p :: p in listed <==> p in Candidates(s.runnable, finished) - before
    ensures before + FinishedAmong(listed, s, finished, |listed|) == before + BatchCompletes(s, finished)
  {
    hide Finishes, FinishedAmong, Candidates;
    FinishedAmongAll(listed, s, finished, |listed|);
    FinishingAreCandidates(s, finished);
    assert listed[..|listed|] == listed;
  }

  function Candidates(runnable: seq<Turn>, finished: set<string>): (r: set<string>) {
    set turn | turn in runnable && turn.operationId in finished :: turn.phaseId
  }

  lemma {:induction false} FinishingAreCandidates(s: Scaffold, finished: set<string>)
    ensures forall p | Finishes(s, finished, p) :: p in Candidates(s.runnable, finished)
  {
  }

  lemma {:induction false} FinishesIff(s: Scaffold, finished: set<string>, phaseId: string)
    ensures AllTurnsFinished(s.runnable, finished, phaseId) && !HasTurn(s.conditional, phaseId) <==>
            Finishes(s, finished, phaseId)
  {
  }

  // ----- whole runs

  /** The scaffold the run builds for a batch. */
  function BatchScaffold(phases: seq<Phase>, g: Analysis, completed: set<string>, batch: Batch): (s: Scaffold) {
    var plan := Schedule(phases, Request(completed, batch.artifacts, batch.mail), g);
    var jobs := ReadyPhaseJobs(plan.phases, |plan.phases|);
    ScaffoldOf(jobs, batch, |jobs|)
  }

  function AfterBatch(phases: seq<Phase>, g: Analysis, completed: set<string>, batch: Batch): (r: set<string>) {
    completed + BatchCompletes(BatchScaffold(phases, g, completed, batch), batch.finished)
  }

  /** The completed phases after `n` batches; `seeds` are completed before the first. */
  function Run(phases: seq<Phase>, g: Analysis, seeds: set<string>, batches: seq<Batch>, n: nat)
    : (completed: set<string>)
    requires n <= |batches|
  {
    if n == 0 then seeds else AfterBatch(phases, g, Run(phases, g, seeds, batches, n - 1), batches[n - 1])
  }

  lemma {:induction false} RunSnoc(phases: seq<Phase>, g: Analysis, seeds: set<string>, batches: seq<Batch>,
                                   batch: Batch, n: nat)
    requires n <= |batches|
    ensures Run(phases, g, seeds, batches + [batch], n) == Run(phases, g, seeds, batches, n)
  {
    hide AfterBatch;
    if n > 0 {
      RunSnoc(phases, g, seeds, batches, batch, n - 1);
    }
  }

  // ----- importing sources

  const IMPORT: string := "import_perception"
  const PLAN_PACKETS: string := "plan_scribe_packets"

  /** A batch that finds neither packets nor the planning phase completed imports the sources first and
      marks two phases directly. */
  function Imported(completed: set<string>, hasPackets: bool): (r: set<string>) {
    if PLAN_PACKETS !in completed && !hasPackets then completed + {IMPORT, PLAN_PACKETS} else completed
  }

  method ImportSources(state: RunState, hasPackets: bool)
    modifies state
    ensures state.Completed() == Imported(old(state.Completed()), hasPackets)
  {
    if PLAN_PACKETS !in state.Completed() && !hasPackets {
      state.MarkPhaseCompleted(IMPORT);
      state.MarkPhaseCompleted(PLAN_PACKETS);
    }
  }

  /** One call of the run: import if needed, schedule, run the batch, complete phases. */
  method RunBatch(phases: seq<Phase>, state: RunState, batch: Batch, hasPackets: bool) returns (ghost g: Analysis)
    modifies state
    ensures Analyzed(phases, g)
    ensures state.Completed() == AfterBatch(phases, g, Imported(old(state.Completed()), hasPackets), batch)
  {
    hide Analyzed, Finishes, BatchCompletes;
    ImportSources(state, hasPackets);
    var request := Request(state.Completed(), batch.artifacts, batch.mail);
    var plan := BuildSchedulerRunPlan(phases, request);
    g :| Analyzed(phases, g) && plan == Schedule(phases, request, g);
    var s := BuildRuntimeScaffold(plan, batch);
    state.CompleteBatchPhases(s, batch.finished);
  }

  /** The completed phases after `n` calls on a fresh state; `packets[k]` says whether call `k` finds any. */
  function LiveRun(phases: seq<Phase>, g: Analysis, batches: seq<Batch>, packets: seq<bool>, n: nat)
    : (completed: set<string>)
    requires n <= |batches| && |packets| == |batches|
  {
    if n == 0 then {}
    else AfterBatch(phases, g, Imported(LiveRun(phases, g, batches, packets, n - 1), packets[n - 1]), batches[n - 1])
  }

  /** A fresh state has no packets, so its first call marks the two phases, and no later one does: the
      calls are the batches of a run that starts with these two completed. */
  lemma {:induction false} LiveRunIsSeeded(phases: seq<Phase>, g: Analysis, batches: seq<Batch>, packets: seq<bool>,
                                           n: nat)
    requires 0 < n <= |batches| && |packets| == |batches| && !packets[0]
    ensures LiveRun(phases, g, batches, packets, n) == Run(phases, g, {IMPORT, PLAN_PACKETS}, batches, n)
    ensures PLAN_PACKETS in LiveRun(phases, g, batches, packets, n)
  {
    hide BatchCompletes, BatchScaffold;
    if n > 1 {
      LiveRunIsSeeded(phases, g, batches, packets, n - 1);
    } else {
      assert LiveRun(phases, g, batches, packets, 0) == {};
      assert {} + {IMPORT, PLAN_PACKETS} == {IMPORT, PLAN_PACKETS};
    }
  }
}
