/**
 * The values of pipeline/pipeline_executor.py: stage and run statuses, the
 * six stage records of a run, the effect of one `update_stage` on a stage,
 * what each of the six stages of `run_pipeline` does given the outcome of
 * its external step, the run snapshots kept in the history list and the
 * queries over that list, and how `create_pipeline` derives the displayed
 * repository name, commit and message.
 */
module PipelineModel {
  import opened Text
  import opened Reports
  import opened VulnerabilityAnalysis

  datatype StageStatus = Pending | Running | Success | Failed | Skipped
  {
    function Value(): string {
      match this
      case Pending => "pending"
      case Running => "running"
      case Success => "success"
      case Failed => "failed"
      case Skipped => "skipped"
    }

    /** A stage that has finished, one way or the other. */
    predicate Done() {
      this == StageStatus.Success || this == StageStatus.Failed || this == StageStatus.Skipped
    }
  }

  /** `CANCELLED` is declared by the source but never assigned. */
  datatype PipelineStatus = Queued | Running | Success | Failed | Cancelled
  {
    function Value(): string {
      match this
      case Queued => "queued"
      case Running => "running"
      case Success => "success"
      case Failed => "failed"
      case Cancelled => "cancelled"
    }
  }

  /** The programs `run_pipeline` runs. */
  datatype Tool = GitTool | DockerTool | BanditTool | TrivyTool
  {
    function Command(): string {
      match this
      case GitTool => "git"
      case DockerTool => "docker"
      case BanditTool => "bandit"
      case TrivyTool => "trivy"
    }

    /** The name the not-installed messages use. */
    function Title(): string {
      match this
      case GitTool => "Git"
      case DockerTool => "Docker"
      case BanditTool => "Bandit"
      case TrivyTool => "Trivy"
    }
  }

  /**
   * A text `run_pipeline` writes into a stage's `logs` or `error`; `Text()`
   * is the string itself. `Plain` is a text taken as it comes: the default
   * "", a stderr, an exception's message, or what a caller of
   * `update_stage` passes.
   */
  datatype Message =
    | Plain(text: string)
    | ClonedRepo(url: string)
    | LocalDirectory
    | BuiltImage(image: string)
    | NoDockerfile
    | BanditCompleted
    | TrivyCompleted(target: string)
    | ScoreLine(score: nat)
    | Verdict(deployable: bool)
    | ProgramMissing(tool: Tool)
    | NotInstalled(tool: Tool)
  {
    function Text(): string {
      match this
      case Plain(t) => t
      case ClonedRepo(url) => "Cloned " + url + " successfully"
      case LocalDirectory => "Using local directory"
      case BuiltImage(image) => "Built image: " + image
      case NoDockerfile => "No Dockerfile found, using base image for scan"
      case BanditCompleted => "Bandit scan completed"
      case TrivyCompleted(target) => "Trivy scan completed for " + target
      case ScoreLine(score) => "Security Score: " + NatToString(score) + "/100"
      case Verdict(deployable) =>
        if deployable then "✅ APPROVED for deployment" else "❌ BLOCKED - Security requirements not met"
      case ProgramMissing(tool) => "[Errno 2] No such file or directory: '" + tool.Command() + "'"
      case NotInstalled(tool) => tool.Title() + " not installed"
    }

    /** A falsy text, which `if error:` does not write. */
    predicate Empty() {
      Plain? && text == ""
    }
  }

  /** `Empty()` is exactly "the text is the empty string". */
  lemma EmptyIffNoText(m: Message)
    ensures m.Empty() <==> m.Text() == ""
  {
    match m
    case Plain(_) =>
    case ClonedRepo(url) => assert |m.Text()| == 20 + |url|;
    case BuiltImage(image) => assert |m.Text()| == 13 + |image|;
    case TrivyCompleted(target) => assert |m.Text()| == 25 + |target|;
    case ScoreLine(score) => assert |m.Text()| == 20 + |NatToString(score)|;
    case ProgramMissing(tool) => assert |m.Text()| == 39 + |tool.Command()|;
    case NotInstalled(tool) => assert |m.Text()| == |tool.Title()| + 14;
    case _ =>
  }

  /** The text of the updates that only change the status. */
  const Blank: Message := Plain("")

  /**
   * One entry of a run's `stages` dictionary. The timestamps and the
   * duration are kept only as "is the key present".
   */
  datatype Stage = Stage(
    title: string,
    status: StageStatus,
    logs: Option<Message>,
    error: Option<Message>,
    startedAt: bool,
    finishedAt: bool,
    hasDuration: bool)

  /** The six keys of a run's `stages` dictionary. */
  datatype StageKey = Clone | Build | BanditScan | TrivyScan | PolicyCheck | Decision
  {
    /** The dictionary key. */
    function Name(): string {
      match this
      case Clone => "clone"
      case Build => "build"
      case BanditScan => "bandit_scan"
      case TrivyScan => "trivy_scan"
      case PolicyCheck => "policy_check"
      case Decision => "decision"
    }

    /** The `name` a new run gives the stage. */
    function Title(): string {
      match this
      case Clone => "Clone Repository"
      case Build => "Build Image"
      case BanditScan => "Bandit Security Scan"
      case TrivyScan => "Trivy Container Scan"
      case PolicyCheck => "Policy Evaluation"
      case Decision => "Deployment Decision"
    }
  }

  /** The stage keys in the order the run executes them. */
  const StageKeys: seq<StageKey> := [Clone, Build, BanditScan, TrivyScan, PolicyCheck, Decision]

  /** The key a stage name denotes, if any: `stage_name in pipeline.stages` for a run's dictionary. */
  function StageNamed(name: string): (k: Option<StageKey>)
    ensures k.Some? ==> k.value.Name() == name
  {
    if name == "clone" then Some(Clone)
    else if name == "build" then Some(Build)
    else if name == "bandit_scan" then Some(BanditScan)
    else if name == "trivy_scan" then Some(TrivyScan)
    else if name == "policy_check" then Some(PolicyCheck)
    else if name == "decision" then Some(Decision)
    else None
  }

  /** Every key is found by its own name, so a name denotes at most one key. */
  lemma StageNamedRoundTrip(k: StageKey)
    ensures StageNamed(k.Name()) == Some(k)
  {
  }

  /** A run's `stages` dictionary. */
  type Stages = map<StageKey, Stage>

  function PendingStage(key: StageKey): Stage {
    Stage(key.Title(), StageStatus.Pending, None, None, false, false, false)
  }

  /** The `stages` a new run is created with. */
  function InitialStages(): (st: Stages)
    ensures HasStageKeys(st)
    ensures forall k :: k in st ==> st[k].status == StageStatus.Pending && st[k].title == k.Title()
  {
    map[Clone := PendingStage(Clone), Build := PendingStage(Build), BanditScan := PendingStage(BanditScan),
        TrivyScan := PendingStage(TrivyScan), PolicyCheck := PendingStage(PolicyCheck), Decision := PendingStage(Decision)]
  }

  // ---------------------------------------------------------------------
  // update_stage on one stage

  /**
   * What `update_stage(…, status, logs, error)` writes into one stage. An
   * empty error (`Plain("")`, which stands for both `None` and "") is not
   * written.
   */
  function ApplyUpdate(s: Stage, status: StageStatus, logs: Message, error: Message): Stage {
    var finishing := status == StageStatus.Success || status == StageStatus.Failed;
    s.(status := status,
       logs := Some(logs),
       error := if !error.Empty() then Some(error) else s.error,
       startedAt := s.startedAt || status == StageStatus.Running,
       finishedAt := s.finishedAt || finishing,
       hasDuration := s.hasDuration || (finishing && s.startedAt))
  }

  /**
   * One update sets the status and overwrites the logs, writes the error
   * only when it is non-empty, records a start only for RUNNING and an end
   * only for SUCCESS or FAILED (SKIPPED records neither), and keeps the
   * title.
   */
  lemma ApplyUpdateSpec(s: Stage, status: StageStatus, logs: Message, error: Message)
    ensures var r := ApplyUpdate(s, status, logs, error);
      r.title == s.title && r.status == status && r.logs == Some(logs) &&
      (error.Text() != "" ==> r.error == Some(error)) && (error.Text() == "" ==> r.error == s.error) &&
      (r.startedAt != s.startedAt ==> status == StageStatus.Running) &&
      (r.finishedAt != s.finishedAt ==> status == StageStatus.Success || status == StageStatus.Failed) &&
      (status == StageStatus.Running ==> r.startedAt) &&
      (status == StageStatus.Success || status == StageStatus.Failed ==> r.finishedAt) &&
      (status == StageStatus.Skipped ==> r.startedAt == s.startedAt && r.finishedAt == s.finishedAt)
  {
    EmptyIffNoText(error);
  }

  /** Repeating an update changes nothing more. */
  lemma ApplyUpdateIdempotent(s: Stage, status: StageStatus, logs: Message, error: Message)
    ensures ApplyUpdate(ApplyUpdate(s, status, logs, error), status, logs, error) == ApplyUpdate(s, status, logs, error)
  {
  }

  /** The `stages` dictionary after `update_stage`; an unknown stage name leaves it as it is. */
  function UpdatedStages(st: Stages, name: StageKey, status: StageStatus, logs: Message, error: Message): (r: Stages)
    ensures r.Keys == st.Keys
    ensures forall k :: k in st && k != name ==> r[k] == st[k]
    ensures name in st ==> r[name] == ApplyUpdate(st[name], status, logs, error)
  {
    if name in st then st[name := ApplyUpdate(st[name], status, logs, error)] else st
  }

  // ---------------------------------------------------------------------
  // The external steps of run_pipeline

  /** How a `subprocess.run` call ended. */
  datatype ProcessResult =
    | Exited(code: int, stderr: string)
    | NotFound               // FileNotFoundError: the program is not installed
    | Raised(message: string) // any other exception (a timeout, say), with its text

  /**
   * Everything `run_pipeline` learns from the outside world: each
   * subprocess's outcome, whether the work directory holds a Dockerfile, the
   * two report files as `_analyze_vulnerabilities` reads them, and whether
   * the decision report could be written.
   */
  datatype StepOutcomes = StepOutcomes(
    clone: ProcessResult,
    dockerfile: bool,
    build: ProcessResult,
    bandit: ProcessResult,
    trivy: ProcessResult,
    banditReport: Option<BanditReport>,
    trivyReport: Option<TrivyReport>,
    decisionWritten: bool)

  /** `str(e)` for a failed clone or build: the stderr it raised with, or the exception's own text. */
  function CommandError(r: ProcessResult, tool: Tool): Message {
    match r
    case Exited(_, stderr) => Plain(stderr)
    case NotFound => ProgramMissing(tool)
    case Raised(m) => Plain(m)
  }

  predicate ExitedZero(r: ProcessResult) {
    r.Exited? && r.code == 0
  }

  /** The stage map after one stage, and whether the run goes on. */
  datatype Step = Step(stages: Stages, ok: bool)

  /** Stage 1: clone when a URL is given, otherwise skip. */
  function CloneStep(st: Stages, repoUrl: string, r: ProcessResult): Step {
    if repoUrl != "" then
      var running := UpdatedStages(st, Clone, StageStatus.Running, Blank, Blank);
      if ExitedZero(r) then Step(UpdatedStages(running, Clone, StageStatus.Success, ClonedRepo(repoUrl), Blank), true)
      else Step(UpdatedStages(running, Clone, StageStatus.Failed, Blank, CommandError(r, GitTool)), false)
    else Step(UpdatedStages(st, Clone, StageStatus.Skipped, LocalDirectory, Blank), true)
  }

  /** The image a build tags: the given name, or one derived from the run id. */
  function BuildImage(id: string, imageName: string): string {
    if imageName != "" then imageName else "sentinelops-scan-" + id
  }

  /** Stage 2: build when the work directory has a Dockerfile, otherwise skip. */
  function BuildStep(st: Stages, id: string, imageName: string, dockerfile: bool, r: ProcessResult): Step {
    var running := UpdatedStages(st, Build, StageStatus.Running, Blank, Blank);
    if dockerfile then
      if ExitedZero(r) then Step(UpdatedStages(running, Build, StageStatus.Success, BuiltImage(BuildImage(id, imageName)), Blank), true)
      else Step(UpdatedStages(running, Build, StageStatus.Failed, Blank, CommandError(r, DockerTool)), false)
    else Step(UpdatedStages(running, Build, StageStatus.Skipped, NoDockerfile, Blank), true)
  }

  /** The error a failed scan records: the stderr, the not-installed text, or the exception's text. */
  function ScanError(r: ProcessResult, tool: Tool): Message {
    match r
    case Exited(_, stderr) => Plain(stderr)
    case NotFound => NotInstalled(tool)
    case Raised(m) => Plain(m)
  }

  /** Bandit exits with 1 when it found issues, which is not a failure. */
  predicate BanditSucceeded(r: ProcessResult) {
    r.Exited? && (r.code == 0 || r.code == 1)
  }

  /** Stage 3. */
  function BanditStep(st: Stages, r: ProcessResult): Step {
    var running := UpdatedStages(st, BanditScan, StageStatus.Running, Blank, Blank);
    if BanditSucceeded(r) then Step(UpdatedStages(running, BanditScan, StageStatus.Success, BanditCompleted, Blank), true)
    else Step(UpdatedStages(running, BanditScan, StageStatus.Failed, Blank, ScanError(r, BanditTool)), false)
  }

  /** The image Trivy scans: with no image given and no Dockerfile, the base image. */
  function ScanTarget(id: string, imageName: string, dockerfile: bool): string {
    var name := if !dockerfile && imageName == "" then "python:3.11-slim" else imageName;
    if name != "" then name else "sentinelops-scan-" + id
  }

  /** A missing image is not a failure of the scan. */
  const MissingImage: string := "No such image"

  predicate TrivySucceeded(r: ProcessResult) {
    r.Exited? && (r.code == 0 || Contains(r.stderr, MissingImage))
  }

  /** Stage 4. */
  function TrivyStep(st: Stages, target: string, r: ProcessResult): Step {
    var running := UpdatedStages(st, TrivyScan, StageStatus.Running, Blank, Blank);
    if TrivySucceeded(r) then Step(UpdatedStages(running, TrivyScan, StageStatus.Success, TrivyCompleted(target), Blank), true)
    else Step(UpdatedStages(running, TrivyScan, StageStatus.Failed, Blank, ScanError(r, TrivyTool)), false)
  }

  /** Stage 5: the analysis catches every exception of its own, so this stage cannot fail. */
  function PolicyStep(st: Stages, score: nat): Stages {
    var running := UpdatedStages(st, PolicyCheck, StageStatus.Running, Blank, Blank);
    UpdatedStages(running, PolicyCheck, StageStatus.Success, ScoreLine(score), Blank)
  }

  /** Stage 6: the stage succeeds whatever the verdict. */
  function DecisionStep(st: Stages, deployable: bool): Stages {
    var running := UpdatedStages(st, Decision, StageStatus.Running, Blank, Blank);
    UpdatedStages(running, Decision, StageStatus.Success, Verdict(deployable), Blank)
  }

  /** The content of security_decision.json. */
  datatype DecisionReport = DecisionReport(
    pipelineId: string,
    repository: string,
    branch: string,
    commit: string,
    securityScore: nat,
    isDeployable: bool,
    summary: Summary,
    decision: string,
    reasons: seq<DecisionReason>)

  function MakeDecisionReport(id: string, repoName: string, branch: string, commitSha: string, s: Summary, deployable: bool): DecisionReport {
    DecisionReport(id, repoName, branch, commitSha, s.securityScore, deployable, s,
                   if deployable then "APPROVED" else "BLOCKED",
                   DecisionReasons(s.securityScore, s, deployable))
  }

  // ---------------------------------------------------------------------
  // The whole run

  /** Where a run ends. `ok` is false when a stage failed or the decision report could not be written. */
  datatype RunOutcome = RunOutcome(
    stages: Stages,
    ok: bool,
    summary: Option<Summary>,
    deployable: Option<bool>,
    report: Option<DecisionReport>)

  /** The identity fields of a run that the decision report repeats. */
  datatype RunInfo = RunInfo(id: string, repoName: string, branch: string, commitSha: string)

  /** A run that ended at a failed stage. */
  function Stopped(st: Stages): RunOutcome {
    RunOutcome(st, false, None, None, None)
  }

  /** The `try` block of `run_pipeline`: the six stages in order, the first failure ending the run. */
  function Execute(st: Stages, info: RunInfo, repoUrl: string, imageName: string, o: StepOutcomes): RunOutcome {
    var clone := CloneStep(st, repoUrl, o.clone);
    if clone.ok then RunFromBuild(clone.stages, info, imageName, o) else Stopped(clone.stages)
  }

  /** The run from stage 2 on. */
  function RunFromBuild(st: Stages, info: RunInfo, imageName: string, o: StepOutcomes): RunOutcome {
    var build := BuildStep(st, info.id, imageName, o.dockerfile, o.build);
    if build.ok then RunFromBandit(build.stages, info, ScanTarget(info.id, imageName, o.dockerfile), o) else Stopped(build.stages)
  }

  /** The run from stage 3 on; `target` is the image stage 4 scans. */
  function RunFromBandit(st: Stages, info: RunInfo, target: string, o: StepOutcomes): RunOutcome {
    var bandit := BanditStep(st, o.bandit);
    if bandit.ok then RunFromTrivy(bandit.stages, info, target, o) else Stopped(bandit.stages)
  }

  /** The run from stage 4 on. */
  function RunFromTrivy(st: Stages, info: RunInfo, target: string, o: StepOutcomes): RunOutcome {
    var trivy := TrivyStep(st, target, o.trivy);
    if trivy.ok then Conclude(trivy.stages, info, o) else Stopped(trivy.stages)
  }

  /**
   * Stages 5 and 6 and the decision report: the analysis, the policy stage,
   * the verdict and the report file. The run fails only when the report
   * cannot be written.
   */
  function Conclude(st: Stages, info: RunInfo, o: StepOutcomes): RunOutcome {
    var s := Analyze(o.banditReport, o.trivyReport);
    var policy := PolicyStep(st, s.securityScore);
    var deployable := EvaluateDeployment(s.securityScore, s);
    var decision := DecisionStep(policy, deployable);
    RunOutcome(decision, o.decisionWritten, Some(s), Some(deployable),
               if o.decisionWritten then Some(MakeDecisionReport(info.id, info.repoName, info.branch, info.commitSha, s, deployable)) else None)
  }

  /** The index in `StageKeys` of the stage that fails, or 6 when none does. */
  function FailingStage(repoUrl: string, o: StepOutcomes): nat {
    if repoUrl != "" && !ExitedZero(o.clone) then 0
    else if o.dockerfile && !ExitedZero(o.build) then 1
    else if !BanditSucceeded(o.bandit) then 2
    else if !TrivySucceeded(o.trivy) then 3
    else 6
  }

  /** The stage rules: each step's success condition. */
  lemma StepRules(st: Stages, id: string, repoUrl: string, imageName: string, o: StepOutcomes)
    ensures CloneStep(st, repoUrl, o.clone).ok <==> repoUrl == "" || ExitedZero(o.clone)
    ensures BuildStep(st, id, imageName, o.dockerfile, o.build).ok <==> !o.dockerfile || ExitedZero(o.build)
    ensures BanditStep(st, o.bandit).ok <==> o.bandit.Exited? && (o.bandit.code == 0 || o.bandit.code == 1)
    ensures TrivyStep(st, ScanTarget(id, imageName, o.dockerfile), o.trivy).ok <==>
              o.trivy.Exited? && (o.trivy.code == 0 || Contains(o.trivy.stderr, "No such image"))
    ensures !o.dockerfile && imageName == "" ==> ScanTarget(id, imageName, o.dockerfile) == "python:3.11-slim"
    ensures imageName != "" ==> ScanTarget(id, imageName, o.dockerfile) == imageName
  {
  }

  predicate HasStageKeys(st: Stages) {
    Clone in st && Build in st && BanditScan in st && TrivyScan in st && PolicyCheck in st && Decision in st
  }

  /** The six stage statuses, in execution order. */
  datatype StatusRow = StatusRow(clone: StageStatus, build: StageStatus, bandit: StageStatus,
                                 trivy: StageStatus, policy: StageStatus, decision: StageStatus)
  {
    /** The status of the stage at position `i` of `StageKeys`. */
    function At(i: nat): StageStatus
      requires i < 6
    {
      if i == 0 then clone else if i == 1 then build else if i == 2 then bandit
      else if i == 3 then trivy else if i == 4 then policy else decision
    }

    /** The row with the status of stage `k` replaced. */
    function With(k: StageKey, s: StageStatus): StatusRow {
      match k
      case Clone => this.(clone := s)
      case Build => this.(build := s)
      case BanditScan => this.(bandit := s)
      case TrivyScan => this.(trivy := s)
      case PolicyCheck => this.(policy := s)
      case Decision => this.(decision := s)
    }
  }

  function Statuses(st: Stages): StatusRow
    requires HasStageKeys(st)
  {
    StatusRow(st[Clone].status, st[Build].status, st[BanditScan].status,
              st[TrivyScan].status, st[PolicyCheck].status, st[Decision].status)
  }

  /** An update of the stage at position `i` changes that status and no other. */
  lemma UpdatedStatuses(st: Stages, k: StageKey, status: StageStatus, logs: Message, error: Message)
    requires HasStageKeys(st)
    ensures HasStageKeys(UpdatedStages(st, k, status, logs, error))
    ensures Statuses(UpdatedStages(st, k, status, logs, error)) == Statuses(st).With(k, status)
  {
  }

  lemma CloneStepStatuses(st: Stages, repoUrl: string, r: ProcessResult)
    requires HasStageKeys(st)
    ensures var c := CloneStep(st, repoUrl, r);
      HasStageKeys(c.stages) &&
      Statuses(c.stages) == Statuses(st).With(Clone, if !c.ok then StageStatus.Failed else if repoUrl != "" then StageStatus.Success else StageStatus.Skipped)
  {
    UpdatedStatuses(st, Clone, StageStatus.Running, Blank, Blank);
    var running := UpdatedStages(st, Clone, StageStatus.Running, Blank, Blank);
    UpdatedStatuses(running, Clone, StageStatus.Success, ClonedRepo(repoUrl), Blank);
    UpdatedStatuses(running, Clone, StageStatus.Failed, Blank, CommandError(r, GitTool));
    UpdatedStatuses(st, Clone, StageStatus.Skipped, LocalDirectory, Blank);
  }

  lemma BuildStepStatuses(st: Stages, id: string, imageName: string, dockerfile: bool, r: ProcessResult)
    requires HasStageKeys(st)
    ensures var b := BuildStep(st, id, imageName, dockerfile, r);
      HasStageKeys(b.stages) &&
      Statuses(b.stages) == Statuses(st).With(Build, if !b.ok then StageStatus.Failed else if dockerfile then StageStatus.Success else StageStatus.Skipped)
  {
    UpdatedStatuses(st, Build, StageStatus.Running, Blank, Blank);
    var running := UpdatedStages(st, Build, StageStatus.Running, Blank, Blank);
    UpdatedStatuses(running, Build, StageStatus.Success, BuiltImage(BuildImage(id, imageName)), Blank);
    UpdatedStatuses(running, Build, StageStatus.Failed, Blank, CommandError(r, DockerTool));
    UpdatedStatuses(running, Build, StageStatus.Skipped, NoDockerfile, Blank);
  }

  lemma BanditStepStatuses(st: Stages, r: ProcessResult)
    requires HasStageKeys(st)
    ensures var b := BanditStep(st, r);
      HasStageKeys(b.stages) && b.ok == BanditSucceeded(r) &&
      Statuses(b.stages) == Statuses(st).With(BanditScan, if b.ok then StageStatus.Success else StageStatus.Failed)
  {
    UpdatedStatuses(st, BanditScan, StageStatus.Running, Blank, Blank);
    var running := UpdatedStages(st, BanditScan, StageStatus.Running, Blank, Blank);
    UpdatedStatuses(running, BanditScan, StageStatus.Success, BanditCompleted, Blank);
    UpdatedStatuses(running, BanditScan, StageStatus.Failed, Blank, ScanError(r, BanditTool));
  }

  lemma TrivyStepStatuses(st: Stages, target: string, r: ProcessResult)
    requires HasStageKeys(st)
    ensures var t := TrivyStep(st, target, r);
      HasStageKeys(t.stages) && t.ok == TrivySucceeded(r) &&
      Statuses(t.stages) == Statuses(st).With(TrivyScan, if t.ok then StageStatus.Success else StageStatus.Failed)
  {
    UpdatedStatuses(st, TrivyScan, StageStatus.Running, Blank, Blank);
    var running := UpdatedStages(st, TrivyScan, StageStatus.Running, Blank, Blank);
    UpdatedStatuses(running, TrivyScan, StageStatus.Success, TrivyCompleted(target), Blank);
    UpdatedStatuses(running, TrivyScan, StageStatus.Failed, Blank, ScanError(r, TrivyTool));
  }

  lemma PolicyStepStatuses(st: Stages, score: nat)
    requires HasStageKeys(st)
    ensures HasStageKeys(PolicyStep(st, score))
    ensures Statuses(PolicyStep(st, score)) == Statuses(st).With(PolicyCheck, StageStatus.Success)
  {
    UpdatedStatuses(st, PolicyCheck, StageStatus.Running, Blank, Blank);
    var running := UpdatedStages(st, PolicyCheck, StageStatus.Running, Blank, Blank);
    UpdatedStatuses(running, PolicyCheck, StageStatus.Success, ScoreLine(score), Blank);
  }

  lemma DecisionStepStatuses(st: Stages, deployable: bool)
    requires HasStageKeys(st)
    ensures HasStageKeys(DecisionStep(st, deployable))
    ensures Statuses(DecisionStep(st, deployable)) == Statuses(st).With(Decision, StageStatus.Success)
  {
    UpdatedStatuses(st, Decision, StageStatus.Running, Blank, Blank);
    var running := UpdatedStages(st, Decision, StageStatus.Running, Blank, Blank);
    UpdatedStatuses(running, Decision, StageStatus.Success, Verdict(deployable), Blank);
  }

  /** A new run has all six stages pending. */
  lemma InitialStatuses()
    ensures HasStageKeys(InitialStages())
    ensures Statuses(InitialStages()) == StatusRow(StageStatus.Pending, StageStatus.Pending, StageStatus.Pending, StageStatus.Pending, StageStatus.Pending, StageStatus.Pending)
  {
  }

  /** The statuses a run ends with, from a fresh run, given which stage fails (6: none). */
  function ExpectedStatuses(f: nat, s0: StageStatus, s1: StageStatus): StatusRow {
    var P, F, S := StageStatus.Pending, StageStatus.Failed, StageStatus.Success;
    if f == 0 then StatusRow(F, P, P, P, P, P)
    else if f == 1 then StatusRow(s0, F, P, P, P, P)
    else if f == 2 then StatusRow(s0, s1, F, P, P, P)
    else if f == 3 then StatusRow(s0, s1, S, F, P, P)
    else StatusRow(s0, s1, S, S, S, S)
  }

  lemma ConcludeStatuses(st: Stages, info: RunInfo, o: StepOutcomes)
    requires HasStageKeys(st)
    ensures var out := Conclude(st, info, o);
      HasStageKeys(out.stages) &&
      Statuses(out.stages) == Statuses(st).With(PolicyCheck, StageStatus.Success).With(Decision, StageStatus.Success) &&
      out.ok == o.decisionWritten && out.deployable.Some?
  {
    var s := Analyze(o.banditReport, o.trivyReport);
    PolicyStepStatuses(st, s.securityScore);
    DecisionStepStatuses(PolicyStep(st, s.securityScore), EvaluateDeployment(s.securityScore, s));
  }

  lemma FromTrivyStatuses(st: Stages, info: RunInfo, target: string, o: StepOutcomes, a: StageStatus, b: StageStatus)
    requires HasStageKeys(st) && Statuses(st) == StatusRow(a, b, StageStatus.Success, StageStatus.Pending, StageStatus.Pending, StageStatus.Pending)
    ensures var out := RunFromTrivy(st, info, target, o);
      HasStageKeys(out.stages) &&
      Statuses(out.stages) == ExpectedStatuses(if TrivySucceeded(o.trivy) then 6 else 3, a, b) &&
      (out.ok <==> TrivySucceeded(o.trivy) && o.decisionWritten) &&
      (out.deployable.Some? <==> TrivySucceeded(o.trivy))
  {
    if TrivySucceeded(o.trivy) {
      TrivyPassedStatuses(st, info, target, o);
    } else {
      TrivyStepStatuses(st, target, o.trivy);
    }
  }

  lemma TrivyPassedStatuses(st: Stages, info: RunInfo, target: string, o: StepOutcomes)
    requires HasStageKeys(st) && TrivySucceeded(o.trivy)
    ensures var out := RunFromTrivy(st, info, target, o);
      HasStageKeys(out.stages) &&
      Statuses(out.stages) == Statuses(st).With(TrivyScan, StageStatus.Success).With(PolicyCheck, StageStatus.Success).With(Decision, StageStatus.Success) &&
      out.ok == o.decisionWritten && out.deployable.Some?
  {
    TrivyStepStatuses(st, target, o.trivy);
    ConcludeStatuses(TrivyStep(st, target, o.trivy).stages, info, o);
  }

  lemma FromBanditStatuses(st: Stages, info: RunInfo, target: string, o: StepOutcomes, a: StageStatus, b: StageStatus)
    requires HasStageKeys(st) && Statuses(st) == StatusRow(a, b, StageStatus.Pending, StageStatus.Pending, StageStatus.Pending, StageStatus.Pending)
    ensures var out := RunFromBandit(st, info, target, o);
      var f := if !BanditSucceeded(o.bandit) then 2 else if !TrivySucceeded(o.trivy) then 3 else 6;
      HasStageKeys(out.stages) &&
      Statuses(out.stages) == ExpectedStatuses(f, a, b) &&
      (out.ok <==> f == 6 && o.decisionWritten) &&
      (out.deployable.Some? <==> f == 6)
  {
    BanditStepStatuses(st, o.bandit);
    var bandit := BanditStep(st, o.bandit);
    if bandit.ok {
      FromTrivyStatuses(bandit.stages, info, target, o, a, b);
    }
  }

  lemma FromBuildStatuses(st: Stages, info: RunInfo, imageName: string, o: StepOutcomes, a: StageStatus)
    requires HasStageKeys(st) && Statuses(st) == StatusRow(a, StageStatus.Pending, StageStatus.Pending, StageStatus.Pending, StageStatus.Pending, StageStatus.Pending)
    ensures var out := RunFromBuild(st, info, imageName, o);
      var f := FailingStage("", o);
      HasStageKeys(out.stages) &&
      Statuses(out.stages) == ExpectedStatuses(f, a, if o.dockerfile then StageStatus.Success else StageStatus.Skipped) &&
      (out.ok <==> f == 6 && o.decisionWritten) &&
      (out.deployable.Some? <==> f == 6)
  {
    BuildStepStatuses(st, info.id, imageName, o.dockerfile, o.build);
    var build := BuildStep(st, info.id, imageName, o.dockerfile, o.build);
    if build.ok {
      FromBanditStatuses(build.stages, info, ScanTarget(info.id, imageName, o.dockerfile), o, a,
                         if o.dockerfile then StageStatus.Success else StageStatus.Skipped);
    }
  }

  /** The statuses of a whole run from six pending stages, given which stage fails. */
  lemma ExecuteStatuses(st: Stages, info: RunInfo, repoUrl: string, imageName: string, o: StepOutcomes)
    requires HasStageKeys(st) && Statuses(st) == StatusRow(StageStatus.Pending, StageStatus.Pending, StageStatus.Pending, StageStatus.Pending, StageStatus.Pending, StageStatus.Pending)
    ensures var out := Execute(st, info, repoUrl, imageName, o);
      var f := FailingStage(repoUrl, o);
      HasStageKeys(out.stages) &&
      Statuses(out.stages) == ExpectedStatuses(f, if repoUrl != "" then StageStatus.Success else StageStatus.Skipped,
                                               if o.dockerfile then StageStatus.Success else StageStatus.Skipped) &&
      (out.ok <==> f == 6 && o.decisionWritten) &&
      (out.deployable.Some? <==> f == 6)
  {
    CloneStepStatuses(st, repoUrl, o.clone);
    var clone := CloneStep(st, repoUrl, o.clone);
    if clone.ok {
      FromBuildStatuses(clone.stages, info, imageName, o, if repoUrl != "" then StageStatus.Success else StageStatus.Skipped);
    }
  }

  /**
   * The lifecycle of the stages when stage `f` fails (6: none does): the
   * failing stage is FAILED, every stage before it finished as SUCCESS or
   * SKIPPED and every stage after it is still pending. Without a failing
   * stage clone and build are SUCCESS or SKIPPED and the other four SUCCESS.
   */
  predicate Lifecycle(ss: StatusRow, f: nat) {
    (f < 6 ==>
       ss.At(f) == StageStatus.Failed &&
       (forall i :: 0 <= i < f ==> ss.At(i) == StageStatus.Success || ss.At(i) == StageStatus.Skipped) &&
       (forall j :: f < j < 6 ==> ss.At(j) == StageStatus.Pending)) &&
    (f >= 6 ==>
       (ss.At(0) == StageStatus.Success || ss.At(0) == StageStatus.Skipped) &&
       (ss.At(1) == StageStatus.Success || ss.At(1) == StageStatus.Skipped) &&
       (forall i :: 2 <= i < 6 ==> ss.At(i) == StageStatus.Success))
  }

  /** The stages that have left "pending" form a prefix of the execution order, all of them finished. */
  predicate PendingSuffix(ss: StatusRow) {
    forall i, j :: 0 <= i < j < 6 && ss.At(j) != StageStatus.Pending ==> ss.At(i).Done()
  }

  lemma ExpectedLifecycle(f: nat, s0: StageStatus, s1: StageStatus)
    requires f in {0, 1, 2, 3, 6}
    requires s0 == StageStatus.Success || s0 == StageStatus.Skipped
    requires s1 == StageStatus.Success || s1 == StageStatus.Skipped
    ensures Lifecycle(ExpectedStatuses(f, s0, s1), f)
    ensures PendingSuffix(ExpectedStatuses(f, s0, s1))
  {
  }

  /**
   * A run from a fresh stage map follows the lifecycle of its failing stage,
   * which leaves the pending stages a suffix of the order. A failed stage
   * ends the run with no verdict; without one the verdict is given whatever
   * it is, and the run fails only when the decision report cannot be
   * written.
   */
  lemma ExecuteLifecycle(info: RunInfo, repoUrl: string, imageName: string, o: StepOutcomes)
    ensures var out := Execute(InitialStages(), info, repoUrl, imageName, o);
      var f := FailingStage(repoUrl, o);
      HasStageKeys(out.stages) &&
      Lifecycle(Statuses(out.stages), f) && PendingSuffix(Statuses(out.stages)) &&
      (out.ok <==> f == 6 && o.decisionWritten) &&
      (out.deployable.Some? <==> f == 6)
  {
    InitialStatuses();
    ExecuteStatuses(InitialStages(), info, repoUrl, imageName, o);
    ExpectedLifecycle(FailingStage(repoUrl, o), if repoUrl != "" then StageStatus.Success else StageStatus.Skipped,
                      if o.dockerfile then StageStatus.Success else StageStatus.Skipped);
  }

  /**
   * The decision report, when written, repeats the verdict; a deployable
   * verdict has an empty reason list and a blocked one a non-empty list.
   */
  lemma ConcludeReport(st: Stages, info: RunInfo, o: StepOutcomes)
    ensures var out := Conclude(st, info, o);
      (out.report.Some? <==> o.decisionWritten) &&
      (out.report.Some? ==>
        out.deployable == Some(out.report.value.isDeployable) &&
        out.summary == Some(out.report.value.summary) &&
        (out.report.value.reasons == [] <==> out.report.value.isDeployable) &&
        (out.report.value.decision == "APPROVED" <==> out.report.value.isDeployable))
  {
    var s := Analyze(o.banditReport, o.trivyReport);
    DecisionReasonsSpec(s.securityScore, s);
  }

  // ---------------------------------------------------------------------
  // History

  /** `PipelineRun.to_dict()`: a snapshot of a run, as the history list holds it. */
  datatype RunRecord = RunRecord(
    id: string,
    repoName: string,
    branch: string,
    commitSha: string,
    commitMessage: string,
    author: string,
    status: PipelineStatus,
    started: bool,
    finished: bool,
    stages: Stages,
    securityScore: Option<nat>,
    isDeployable: Option<bool>,
    summary: Option<Summary>)

  /** The position of the first record with id `id`, or -1. */
  function FirstIndex(h: seq<RunRecord>, id: string): (i: int)
    ensures -1 <= i < |h|
    ensures i >= 0 ==> h[i].id == id && forall j :: 0 <= j < i ==> h[j].id != id
    ensures i == -1 ==> forall j :: 0 <= j < |h| ==> h[j].id != id
  {
    if h == [] then -1
    else if h[0].id == id then 0
    else
      var k := FirstIndex(h[1..], id);
      if k == -1 then -1 else k + 1
  }

  /** The `for i, p in enumerate(history): if p['id'] == id: history[i] = …; break` loop. */
  function ReplaceFirst(h: seq<RunRecord>, id: string, r: RunRecord): seq<RunRecord> {
    var i := FirstIndex(h, id);
    if i >= 0 then h[i := r] else h
  }

  /** Replacing with a record of the same id, then again, is replacing once with the last record. */
  lemma ReplaceFirstAbsorbs(h: seq<RunRecord>, id: string, first: RunRecord, second: RunRecord)
    requires first.id == id
    ensures ReplaceFirst(ReplaceFirst(h, id, first), id, second) == ReplaceFirst(h, id, second)
  {
    var i := FirstIndex(h, id);
    if i >= 0 {
      var h' := h[i := first];
      assert h'[i].id == id;
      var k := FirstIndex(h', id);
      assert 0 <= k <= i;
    } else {
      assert FirstIndex(ReplaceFirst(h, id, first), id) == -1;
    }
  }

  /** Replacing keeps the length, every other record and every id. */
  lemma ReplaceFirstShape(h: seq<RunRecord>, id: string, r: RunRecord)
    requires r.id == id
    ensures var h' := ReplaceFirst(h, id, r);
      |h'| == |h| && (forall j :: 0 <= j < |h| ==> h'[j].id == h[j].id) &&
      (forall j :: 0 <= j < |h| && j != FirstIndex(h, id) ==> h'[j] == h[j]) &&
      (FirstIndex(h, id) >= 0 ==> h'[FirstIndex(h, id)] == r)
  {
  }

  /** `h` differs from `h0` at most in the first slot holding `id`. */
  ghost predicate SameSlots(h0: seq<RunRecord>, h: seq<RunRecord>, id: string) {
    forall r :: ReplaceFirst(h, id, r) == ReplaceFirst(h0, id, r)
  }

  lemma SameSlotsAfterReplace(h0: seq<RunRecord>, h: seq<RunRecord>, id: string, x: RunRecord)
    requires SameSlots(h0, h, id) && x.id == id
    ensures SameSlots(h0, ReplaceFirst(h, id, x), id)
  {
    forall r ensures ReplaceFirst(ReplaceFirst(h, id, x), id, r) == ReplaceFirst(h0, id, r) {
      ReplaceFirstAbsorbs(h, id, x, r);
    }
  }

  /** The record `get_pipeline` finds in the history: the first with the id. */
  function FindFirst(h: seq<RunRecord>, id: string): (r: Option<RunRecord>)
    ensures r.None? <==> forall j :: 0 <= j < |h| ==> h[j].id != id
    ensures r.Some? ==> r.value == h[FirstIndex(h, id)] && r.value.id == id
  {
    var i := FirstIndex(h, id);
    if i >= 0 then Some(h[i]) else None
  }

  /** Python's `h[:limit]`: a negative limit counts from the end. */
  function PrefixSlice<T>(h: seq<T>, limit: int): (r: seq<T>)
    ensures |r| <= |h| && r == h[..|r|]
    ensures limit >= 0 ==> |r| == if limit < |h| then limit else |h|
    ensures limit < 0 ==> |r| == if |h| + limit < 0 then 0 else |h| + limit
  {
    var n := if limit >= 0 then limit else |h| + limit;
    if n < 0 then [] else if n < |h| then h[..n] else h
  }

  /** How many runs the history file keeps. */
  const SavedRuns: nat := 50

  /** `history[-50:]`, as `_save_pipelines` writes it. */
  function TailSlice<T>(h: seq<T>): seq<T> {
    if |h| <= SavedRuns then h else h[|h| - SavedRuns..]
  }

  /**
   * The history is newest first (`insert(0, …)`), so `[-50:]` keeps the 50
   * OLDEST runs: with 51 runs the newest one is not saved.
   */
  lemma TailSliceDropsNewest()
    ensures var h := seq(51, i => i);
      TailSlice(h) == h[1..] && h[0] !in TailSlice(h)
  {
    var h := seq(51, i => i);
    assert forall x :: x in h[1..] ==> x >= 1;
  }

  /** The intended "keep the last 50 runs" for a newest-first list: its first 50. */
  function RecentSlice<T>(h: seq<T>): (r: seq<T>)
    ensures |r| == if |h| < SavedRuns then |h| else SavedRuns
    ensures r == h[..|r|]
  {
    if |h| <= SavedRuns then h else h[..SavedRuns]
  }

  /** The saved runs are the newest ones, in the same order, and the newest run is always among them. */
  lemma RecentSliceKeepsNewest<T>(h: seq<T>, x: T)
    ensures RecentSlice([x] + h)[0] == x
    ensures |h| > 0 ==> RecentSlice(h)[0] == h[0]
  {
  }

  /** Once 50 runs are recorded, the as-written slice never saves a newly inserted run. */
  lemma TailSliceNeverSavesNewRun<T>(h: seq<T>, x: T)
    requires |h| >= SavedRuns && x !in h
    ensures x !in TailSlice([x] + h)
  {
    assert TailSlice([x] + h) == h[|h| - SavedRuns..];
  }

  // ---------------------------------------------------------------------
  // Naming in create_pipeline

  /** `s.split('/')[-1]`: what follows the last '/', or all of `s`. */
  function LastSegment(s: string): (r: string)
    ensures '/' !in r
    ensures |r| <= |s| && r == s[|s| - |r|..]
    ensures |r| < |s| ==> s[|s| - |r| - 1] == '/'
  {
    if s == [] then []
    else if s[|s| - 1] == '/' then []
    else
      var p := LastSegment(s[..|s| - 1]);
      assert s[..|s| - 1][|s| - 1 - |p|..] == s[|s| - 1 - |p|..|s| - 1];
      p + [s[|s| - 1]]
  }

  /** `s.replace(pat, '')`: every occurrence, left to right, without overlaps. */
  function RemoveAll(s: string, pat: string): string
    requires pat != []
    decreases |s|
  {
    if s == [] then []
    else if IsPrefix(pat, s) then RemoveAll(s[|pat|..], pat)
    else [s[0]] + RemoveAll(s[1..], pat)
  }

  /** The repository name as written: `repo_url.split('/')[-1].replace('.git', '')`, or 'local'. */
  function RepoNameAsWritten(repoUrl: string): string {
    if repoUrl == "" then "local" else RemoveAll(LastSegment(repoUrl), ".git")
  }

  /** A character that cannot start the pattern is kept. */
  lemma RemoveAllKeeps(c: char, rest: string, pat: string)
    requires pat != [] && c != pat[0]
    ensures RemoveAll([c] + rest, pat) == [c] + RemoveAll(rest, pat)
  {
    assert ([c] + rest)[1..] == rest;
  }

  /** An occurrence at the front is dropped. */
  lemma RemoveAllDrops(pat: string, rest: string)
    requires pat != []
    ensures RemoveAll(pat + rest, pat) == RemoveAll(rest, pat)
  {
    assert (pat + rest)[..|pat|] == pat;
    assert (pat + rest)[|pat|..] == rest;
  }

  /** A string shorter than the pattern is kept whole. */
  lemma {:induction false} RemoveAllShort(s: string, pat: string)
    requires pat != [] && |s| < |pat|
    ensures RemoveAll(s, pat) == s
    decreases |s|
  {
    if s != [] {
      RemoveAllShort(s[1..], pat);
      assert s == [s[0]] + s[1..];
    }
  }

  /** A front part without the pattern's first character is kept as it is. */
  lemma {:induction false} RemoveAllFree(a: string, x: string, pat: string)
    requires pat != [] && pat[0] !in a
    ensures RemoveAll(a + x, pat) == a + RemoveAll(x, pat)
    decreases |a|
  {
    if a != [] {
      assert a == [a[0]] + a[1..] && a + x == [a[0]] + (a[1..] + x);
      RemoveAllKeeps(a[0], a[1..] + x, pat);
      RemoveAllFree(a[1..], x, pat);
    } else {
      assert a + x == x;
    }
  }

  /** ".git" is removed from the middle of a name too: "user.github.io" becomes "userhub.io". */
  lemma RemoveGitInside(user: string)
    requires '.' !in user
    ensures RemoveAll(user + ".github.io", ".git") == user + "hub.io"
  {
    var git, hub, io := ".git", "hub", ".io";
    assert user + ".github.io" == user + (git + (hub + io));
    RemoveAllFree(user, git + (hub + io), git);
    RemoveAllDrops(git, hub + io);
    RemoveAllFree(hub, io, git);
    RemoveAllShort(io, git);
    assert hub + io == "hub.io";
  }

  /**
   * `.replace('.git', '')` also deletes ".git" inside a name: the GitHub
   * Pages repository ".../user.github.io" is named "userhub.io".
   */
  lemma RepoNameAsWrittenMangles(prefix: string, user: string)
    requires '/' !in user && '.' !in user
    ensures RepoNameAsWritten(prefix + "/" + user + ".github.io") == user + "hub.io"
  {
    assert prefix + "/" + user + ".github.io" == prefix + "/" + (user + ".github.io");
    LastSegmentOfJoin(prefix, user + ".github.io");
    RemoveGitInside(user);
  }

  /** The intended repository name: the last path segment with a trailing ".git" removed. */
  function RepoName(repoUrl: string): (name: string)
    ensures '/' !in name
  {
    if repoUrl == "" then "local"
    else
      var seg := LastSegment(repoUrl);
      if |seg| >= 4 && seg[|seg| - 4..] == ".git" then seg[..|seg| - 4] else seg
  }

  /** For a URL `…/name.git` or `…/name` the repository name is `name`. */
  lemma RepoNameRoundTrip(prefix: string, name: string)
    requires name != "" && '/' !in name
    requires !(|name| >= 4 && name[|name| - 4..] == ".git")
    ensures RepoName(prefix + "/" + name + ".git") == name
    ensures RepoName(prefix + "/" + name) == name
  {
    var u := prefix + "/" + name;
    var g := u + ".git";
    LastSegmentOfJoin(prefix, name);
    LastSegmentOfJoin(prefix, name + ".git");
    assert g == prefix + "/" + (name + ".git");
  }

  lemma LastSegmentOfJoin(prefix: string, name: string)
    requires '/' !in name
    ensures LastSegment(prefix + "/" + name) == name
  {
    var s := prefix + "/" + name;
    assert s[|s| - |name| - 1] == '/';
    assert s[|s| - |name|..] == name;
  }

  /** `commit_sha[:7] if commit_sha else 'local'`. */
  function ShortSha(sha: string): (r: string)
    ensures sha == "" ==> r == "local"
    ensures sha != "" ==> |r| == (if |sha| < 7 then |sha| else 7) && r == sha[..|r|]
  {
    if sha == "" then "local" else if |sha| <= 7 then sha else sha[..7]
  }

  /** `commit_message[:100] if commit_message else 'Manual trigger'`. */
  function CommitTitle(msg: string): (r: string)
    ensures msg == "" ==> r == "Manual trigger"
    ensures msg != "" ==> |r| == (if |msg| < 100 then |msg| else 100) && r == msg[..|r|]
  {
    if msg == "" then "Manual trigger" else if |msg| <= 100 then msg else msg[..100]
  }
}
