/** Which phases and jobs may run, given what is completed and available. */
module Scheduler {
  import opened Orders
  import opened PhaseGraph
  import opened PhaseAnalysis

  datatype PhaseStatus = PhaseCompleted | PhaseReady | PhaseBlocked

  datatype JobStatus =
    | JobPhaseCompleted
    | JobPhaseBlocked
    | WaitingForInputs
    | WaitingForArtifacts
    | WaitingForMail
    | Conditional
    | JobReady

  datatype ScheduledJob = ScheduledJob(job: Job, status: JobStatus, missingArtifacts: seq<string>,
                                       missingMail: seq<string>)

  datatype ScheduledPhase = ScheduledPhase(id: string, blockedBy: seq<string>, topologicalOrder: Option<nat>,
                                           status: PhaseStatus, jobs: seq<ScheduledJob>)

  datatype RunStatus = InvalidGraph | Complete | Blocked | Ready

  datatype Request = Request(completed: set<string>, artifacts: set<string>, mail: set<string>)

  datatype RunPlan = RunPlan(status: RunStatus, phaseOrder: seq<string>, readyPhaseIds: seq<string>,
                             phases: seq<ScheduledPhase>, issues: seq<Issue>)

  function NotIn(s: set<string>): string -> bool { x => x !in s }

  function Dedup(s: seq<string>): (r: seq<string>)
    ensures r == [] <==> s == []
  {
    if |s| <= 1 then s
    else if s[0] == s[1] then Dedup(s[1..])
    else [s[0]] + Dedup(s[1..])
  }

  function Marked(dependencies: seq<string>): (r: seq<string>)
    ensures |r| == |dependencies|
  {
    seq(|dependencies|, i requires 0 <= i < |dependencies| => "missing:" + dependencies[i])
  }

  function Blockers(phase: Phase, completed: set<string>, g: Analysis): (r: seq<string>) {
    Filter(NotIn(completed), phase.dependsOn)
    + (if phase.id in g.missing then Marked(g.missing[phase.id]) else [])
    + (if phase.id in g.invalid then ["invalid_dependency"] else [])
    + (if phase.id in g.cycle then ["cycle"] else [])
  }

  function BlockedBy(phase: Phase, completed: set<string>, g: Analysis): (r: seq<string>) {
    Dedup(Sort(StringLe, Blockers(phase, completed, g)))
  }

  function StatusOf(phase: Phase, completed: set<string>, g: Analysis): PhaseStatus {
    if phase.id in completed then PhaseCompleted
    else if BlockedBy(phase, completed, g) == [] then PhaseReady
    else PhaseBlocked
  }

  function ScheduleJob(job: Job, status: PhaseStatus, request: Request): ScheduledJob {
    var missingArtifacts := Filter(NotIn(request.artifacts), job.requiredArtifacts);
    var missingMail := Filter(NotIn(request.mail), job.requiredMail);
    var jobStatus :=
      if status == PhaseCompleted then JobPhaseCompleted
      else if status == PhaseBlocked then JobPhaseBlocked
      else if missingArtifacts != [] && missingMail != [] then WaitingForInputs
      else if missingArtifacts != [] then WaitingForArtifacts
      else if missingMail != [] then WaitingForMail
      else if job.condition.Some? then Conditional
      else JobReady;
    ScheduledJob(job, jobStatus, missingArtifacts, missingMail)
  }

  function ScheduleJobs(jobs: seq<Job>, status: PhaseStatus, request: Request): (r: seq<ScheduledJob>)
    ensures |r| == |jobs| && forall i | 0 <= i < |jobs| :: r[i] == ScheduleJob(jobs[i], status, request)
  {
    seq(|jobs|, i requires 0 <= i < |jobs| => ScheduleJob(jobs[i], status, request))
  }

  function SchedulePhase(phase: Phase, request: Request, g: Analysis): ScheduledPhase {
    var status := StatusOf(phase, request.completed, g);
    ScheduledPhase(phase.id, BlockedBy(phase, request.completed, g),
                   if phase.id in g.order then Some(IndexIn(g.order, phase.id)) else None,
                   status, ScheduleJobs(phase.jobs, status, request))
  }

  function SchedulePhases(phases: seq<Phase>, request: Request, g: Analysis): (r: seq<ScheduledPhase>)
    ensures |r| == |phases| && forall i | 0 <= i < |phases| :: r[i] == SchedulePhase(phases[i], request, g)
  {
    seq(|phases|, i requires 0 <= i < |phases| => SchedulePhase(phases[i], request, g))
  }

  function ReadyIds(phases: seq<ScheduledPhase>, n: nat): (ids: seq<string>)
    requires n <= |phases|
  {
    if n == 0 then []
    else ReadyIds(phases, n - 1) + if phases[n - 1].status == PhaseReady then [phases[n - 1].id] else []
  }

  predicate AllCompleted(phases: seq<Phase>, completed: set<string>) {
    forall i | 0 <= i < |phases| :: phases[i].id in completed
  }

  function Schedule(phases: seq<Phase>, request: Request, g: Analysis): (plan: RunPlan) {
    var scheduled := SchedulePhases(phases, request, g);
    var ready := ReadyIds(scheduled, |scheduled|);
    var status := if g.issues != [] then InvalidGraph
                  else if AllCompleted(phases, request.completed) then Complete
                  else if ready == [] then Blocked
                  else Ready;
    RunPlan(status, g.order, ready, scheduled, g.issues)
  }

  method BuildSchedulerRunPlan(phases: seq<Phase>, request: Request) returns (plan: RunPlan)
    ensures exists g :: Analyzed(phases, g) && plan == Schedule(phases, request, g)
  {
    hide Analyzed, StatusOf, BlockedBy, ScheduleJobs;
    var graph := AnalyzePhaseGraph(phases);
    ghost var scheduled := SchedulePhases(phases, request, graph);
    var readyPhaseIds: seq<string> := [];
    var out: seq<ScheduledPhase> := [];
    for i := 0 to |phases|
      invariant |out| == i && forall k | 0 <= k < i :: out[k] == scheduled[k]
      invariant readyPhaseIds == ReadyIds(scheduled, i)
    {
      var phase := SchedulePhase(phases[i], request, graph);
      if phase.status == PhaseReady {
        readyPhaseIds := readyPhaseIds + [phase.id];
      }
      out := out + [phase];
    }
    assert out == scheduled;
    var status := if graph.issues != [] then InvalidGraph
                  else if AllCompleted(phases, request.completed) then Complete
                  else if readyPhaseIds == [] then Blocked
                  else Ready;
    plan := RunPlan(status, graph.order, readyPhaseIds, out, graph.issues);
    assert plan == Schedule(phases, request, graph);
  }

  // ----- when a phase is ready

  ghost predicate AllIn(s: seq<string>, among: set<string>) { forall x | x in s :: x in among }

  lemma {:induction false} FilterNotIn(s: seq<string>, among: set<string>)
    ensures Filter(NotIn(among), s) == [] <==> AllIn(s, among)
  {
    FilterMembers(NotIn(among), s);
    if Filter(NotIn(among), s) != [] {
      assert Filter(NotIn(among), s)[0] in Filter(NotIn(among), s);
    }
    if !AllIn(s, among) {
      var x :| x in s && x !in among;
      assert x in Filter(NotIn(among), s);
    }
  }

  lemma {:induction false} MissingNotEmpty(phases: seq<Phase>, g: Analysis, a: string)
    requires Analyzed(phases, g) && a in g.missing
    ensures a in g.invalid
  {
    hide OrderFound, CycleFound, IssuesFound, DependsOn, ReachesMissing;
    var b :| DependsOn(phases, a, b) && b !in Ids(phases);
    DependentIsPhase(phases, a, b);
    ReachesAtOnce(phases, a, b);
  }

  /** A declared phase is ready exactly when it is not completed, is in the order, and everything this
      declaration depends on is completed. */
  lemma {:induction false} ReadyIff(phases: seq<Phase>, g: Analysis, completed: set<string>, i: nat)
    requires Analyzed(phases, g) && i < |phases|
    ensures StatusOf(phases[i], completed, g) == PhaseReady <==>
            phases[i].id !in completed && phases[i].id in g.order && AllIn(phases[i].dependsOn, completed)
  {
    hide Analyzed, Sort, StringLe, Filter, AllIn;
    var phase := phases[i];
    assert phase.id in Ids(phases);
    PhasesPartitioned(phases, g, phase.id);
    FilterNotIn(phase.dependsOn, completed);
    if phase.id in g.missing {
      MissingNotEmpty(phases, g, phase.id);
    }
    var raw := Blockers(phase, completed, g);
    assert |Sort(StringLe, raw)| == |raw|;
  }

  lemma {:induction false} ReadyListed(phases: seq<ScheduledPhase>, n: nat, i: nat)
    requires i < n <= |phases| && phases[i].status == PhaseReady
    ensures ReadyIds(phases, n) != []
  {
    if i < n - 1 {
      ReadyListed(phases, n - 1, i);
    }
  }

  /** The first phase of the order that is not completed. */
  lemma {:induction false} FirstOpen(order: seq<string>, completed: set<string>, n: nat) returns (k: nat)
    requires n <= |order| && exists m | 0 <= m < n :: order[m] !in completed
    ensures k < n && order[k] !in completed && forall j | 0 <= j < k :: order[j] in completed
  {
    if forall j | 0 <= j < n - 1 :: order[j] in completed {
      k := n - 1;
    } else {
      k := FirstOpen(order, completed, n - 1);
    }
  }

  lemma {:induction false} OpenInOrder(phases: seq<Phase>, g: Analysis, completed: set<string>)
    requires Analyzed(phases, g) && g.issues == [] && !AllCompleted(phases, completed)
    ensures exists k | 0 <= k < |g.order| :: g.order[k] !in completed
  {
    hide Analyzed;
    var open :| 0 <= open < |phases| && phases[open].id !in completed;
    NoIssuesIffAllOrdered(phases, g);
    assert phases[open].id in Ids(phases);
    assert g.order[IndexIn(g.order, phases[open].id)] !in completed;
  }

  lemma {:induction false} SomePhaseReady(phases: seq<Phase>, request: Request, g: Analysis)
    requires Analyzed(phases, g) && g.issues == [] && !AllCompleted(phases, request.completed)
    ensures ReadyIds(SchedulePhases(phases, request, g), |phases|) != []
  {
    hide Analyzed, StatusOf, BlockedBy, ScheduleJobs, AllCompleted, ReadyIds;
    OpenInOrder(phases, g, request.completed);
    var k := FirstOpen(g.order, request.completed, |g.order|);
    var i := DeclarationReady(phases, g, request.completed, k);
    ReadyListed(SchedulePhases(phases, request, g), |phases|, i);
  }

  /** Progress: whatever is completed, a run is never blocked. Without issues, as long as some phase
      is open, one is ready; with issues the run is reported invalid instead. */
  lemma {:induction false} NeverBlocked(phases: seq<Phase>, request: Request, g: Analysis)
    requires Analyzed(phases, g)
    ensures Schedule(phases, request, g).status != Blocked
    ensures g.issues == [] && !AllCompleted(phases, request.completed) ==>
            Schedule(phases, request, g).readyPhaseIds != []
  {
    hide Analyzed, SchedulePhase, AllCompleted, ReadyIds;
    if g.issues == [] && !AllCompleted(phases, request.completed) {
      SomePhaseReady(phases, request, g);
    }
  }

  lemma {:induction false} DeclarationReady(phases: seq<Phase>, g: Analysis, completed: set<string>, k: nat)
    returns (i: nat)
    requires Analyzed(phases, g) && k < |g.order| && g.order[k] !in completed
    requires forall j | 0 <= j < k :: g.order[j] in completed
    ensures i < |phases| && StatusOf(phases[i], completed, g) == PhaseReady
  {
    hide Greedy, Maximal, MissingFound, InvalidFound, CycleFound, IssuesFound, StatusOf;
    i := Position(phases, g.order[k]);
    forall b | b in phases[i].dependsOn ensures b in completed {
      assert DependsOn(phases, g.order[k], b);
      assert b in g.order[..k];
    }
    ReadyIff(phases, g, completed, i);
  }
}
