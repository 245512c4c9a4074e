/**
 * `PipelineRun` and `PipelineExecutor` of pipeline/pipeline_executor.py as
 * objects: a run whose status, stages and results the executor updates in
 * place, and the executor's table of current runs, its newest-first
 * history list and the part of that list last written to the history file.
 *
 * The outside world (clock, uuid, subprocesses, files) enters as
 * parameters: the run id, the `StepOutcomes` of a run and the two parsed
 * report files.
 */
module PipelineExecutor {
  import opened Text
  import opened Reports
  import opened VulnerabilityAnalysis
  import opened PipelineModel

  /** One pipeline run; `to_dict()` is `Record()`. */
  class PipelineRun {
    const id: string
    const repoName: string
    const branch: string
    const commitSha: string
    const commitMessage: string
    const author: string
    var status: PipelineStatus
    var started: bool
    var finished: bool
    var stages: Stages
    var securityScore: Option<nat>
    var isDeployable: Option<bool>
    var summary: Option<Summary>

    constructor(id: string, repoName: string, branch: string, commitSha: string, commitMessage: string,
                author: string, stages: Stages)
      ensures this.id == id && this.repoName == repoName && this.branch == branch
      ensures this.commitSha == commitSha && this.commitMessage == commitMessage && this.author == author
      ensures status == PipelineStatus.Queued && !started && !finished && this.stages == stages
      ensures securityScore.None? && isDeployable.None? && summary.None?
    {
      this.id, this.repoName, this.branch := id, repoName, branch;
      this.commitSha, this.commitMessage, this.author := commitSha, commitMessage, author;
      status, started, finished := PipelineStatus.Queued, false, false;
      this.stages := stages;
      securityScore, isDeployable, summary := None, None, None;
    }

    /** The snapshot `to_dict()` returns. */
    function Record(): (r: RunRecord)
      reads this
      ensures r.id == id && r.status == status && r.stages == stages
    {
      RunRecord(id, repoName, branch, commitSha, commitMessage, author, status, started, finished,
                stages, securityScore, isDeployable, summary)
    }

    /** The identity fields the decision report repeats. */
    function Info(): RunInfo {
      RunInfo(id, repoName, branch, commitSha)
    }
  }

  class Executor {
    var currentRuns: map<string, PipelineRun>
    /** `pipeline_history`, newest first. */
    var history: seq<RunRecord>
    /** The `pipelines` list of the history file as last written. */
    var saved: seq<RunRecord>
    /** The last security_decision.json written. */
    var decisionReport: Option<DecisionReport>

    /** Every current run is filed under its own id. */
    predicate Valid()
      reads this`currentRuns
    {
      forall k :: k in currentRuns ==> currentRuns[k].id == k
    }

    /** The current run filed under `id`, as a set: empty when there is none. */
    function Registered(id: string): set<PipelineRun>
      reads this`currentRuns
    {
      if id in currentRuns then {currentRuns[id]} else {}
    }

    /** `__init__` with the history `_load_pipelines` read (empty when the file is missing or unreadable). */
    constructor(loaded: seq<RunRecord>)
      ensures Valid()
      ensures currentRuns == map[] && history == loaded && saved == loaded && decisionReport.None?
    {
      currentRuns := map[];
      history := loaded;
      saved := loaded;
      decisionReport := None;
    }

    /** `_save_pipelines`, keeping the newest runs (see `RecentSlice`). */
    method Save()
      modifies this`saved
      ensures saved == RecentSlice(history)
    {
      saved := RecentSlice(history);
    }

    /** The history loop of `update_stage` and of `run_pipeline`'s `finally`: replace the first record with the id. */
    method ReplaceInHistory(id: string, r: RunRecord)
      modifies this`history
      ensures history == ReplaceFirst(old(history), id, r)
    {
      var i := 0;
      while i < |history|
        invariant 0 <= i <= |history| && history == old(history)
        invariant forall j :: 0 <= j < i ==> history[j].id != id
      {
        if history[i].id == id {
          history := history[i := r];
          return;
        }
        i := i + 1;
      }
    }

    /**
     * `create_pipeline`, with the run id (the first 8 characters of a uuid
     * in the source) given. The run is filed, put first in the history, and
     * the history is saved.
     */
    method CreatePipeline(id: string, repoUrl: string, branch: string, commitSha: string,
                          commitMessage: string, author: string) returns (p: PipelineRun)
      requires Valid()
      modifies this`currentRuns, this`history, this`saved
      ensures Valid()
      ensures fresh(p) && p.id == id && p.branch == branch && p.author == author
      ensures p.repoName == RepoName(repoUrl) && p.commitSha == ShortSha(commitSha) && p.commitMessage == CommitTitle(commitMessage)
      ensures p.status == PipelineStatus.Queued && p.stages == InitialStages()
      ensures p.securityScore.None? && p.isDeployable.None? && p.summary.None?
      ensures currentRuns == old(currentRuns)[id := p]
      ensures history == [p.Record()] + old(history)
      ensures LatestPipeline() == Some(p.Record())
      ensures saved == RecentSlice(history) && saved[0] == p.Record()
    {
      p := new PipelineRun(id, RepoName(repoUrl), branch, ShortSha(commitSha), CommitTitle(commitMessage), author, InitialStages());
      currentRuns := currentRuns[id := p];
      history := [p.Record()] + history;
      Save();
      RecentSliceKeepsNewest(old(history), p.Record());
    }

    /** Write the snapshot of the current run `id` over its history record, then save. */
    method Snapshot(id: string)
      requires Valid() && id in currentRuns
      modifies this`history, this`saved
      ensures history == ReplaceFirst(old(history), id, currentRuns[id].Record())
      ensures saved == RecentSlice(history)
      ensures SameSlots(old(history), history, id)
    {
      ReplaceInHistory(id, currentRuns[id].Record());
      Save();
      SameSlotsAfterReplace(old(history), old(history), id, currentRuns[id].Record());
    }

    /**
     * `update_stage`: for a current run, update the named stage when the run
     * has it, then write the run's snapshot over its history record and save;
     * for an unknown run, nothing. An `error` of "" stands for `None`: a
     * falsy error is not written.
     */
    method UpdateStage(id: string, name: string, status: StageStatus, logs: string, error: string)
      requires Valid()
      modifies this`history, this`saved, Registered(id)`stages
      ensures id in currentRuns ==>
        currentRuns[id].stages ==
          (if StageNamed(name).Some? then UpdatedStages(old(currentRuns[id].stages), StageNamed(name).value, status, Plain(logs), Plain(error))
           else old(currentRuns[id].stages)) &&
        history == ReplaceFirst(old(history), id, currentRuns[id].Record()) &&
        saved == RecentSlice(history)
      ensures id !in currentRuns ==> history == old(history) && saved == old(saved)
      ensures SameSlots(old(history), history, id)
    {
      var key := StageNamed(name);
      if key.Some? {
        UpdateStageKey(id, key.value, status, Plain(logs), Plain(error));
      } else if id in currentRuns {
        Snapshot(id);
      }
    }

    /** `update_stage` with one of the six stage names and one of the texts `run_pipeline` writes. */
    method UpdateStageKey(id: string, key: StageKey, status: StageStatus, logs: Message, error: Message)
      requires Valid()
      modifies this`history, this`saved, Registered(id)`stages
      ensures id in currentRuns ==>
        currentRuns[id].stages == UpdatedStages(old(currentRuns[id].stages), key, status, logs, error) &&
        history == ReplaceFirst(old(history), id, currentRuns[id].Record()) &&
        saved == RecentSlice(history)
      ensures id !in currentRuns ==> history == old(history) && saved == old(saved)
      ensures SameSlots(old(history), history, id)
    {
      if id in currentRuns {
        var run := currentRuns[id];
        run.stages := UpdatedStages(run.stages, key, status, logs, error);
        Snapshot(id);
      }
    }

    /** Stage 1, clone or skip. */
    method CloneStage(p: PipelineRun, repoUrl: string, r: ProcessResult) returns (ok: bool)
      requires Valid()
      modifies this`history, this`saved, Registered(p.id)`stages
      ensures ok == (repoUrl == "" || ExitedZero(r))
      ensures p.id in currentRuns ==> currentRuns[p.id].stages == CloneStep(old(currentRuns[p.id].stages), repoUrl, r).stages
      ensures SameSlots(old(history), history, p.id)
      ensures old(saved) == RecentSlice(old(history)) ==> saved == RecentSlice(history)
    {
      if repoUrl != "" {
        UpdateStageKey(p.id, Clone, StageStatus.Running, Blank, Blank);
        ghost var h1 := history;
        if ExitedZero(r) {
          UpdateStageKey(p.id, Clone, StageStatus.Success, ClonedRepo(repoUrl), Blank);
          ok := true;
        } else {
          UpdateStageKey(p.id, Clone, StageStatus.Failed, Blank, CommandError(r, GitTool));
          ok := false;
        }
        SameSlotsTrans(old(history), h1, history, p.id);
      } else {
        UpdateStageKey(p.id, Clone, StageStatus.Skipped, LocalDirectory, Blank);
        ok := true;
      }
    }

    /** Stage 2, build when the work directory has a Dockerfile, otherwise skip. */
    method BuildStage(p: PipelineRun, imageName: string, dockerfile: bool, r: ProcessResult) returns (ok: bool)
      requires Valid()
      modifies this`history, this`saved, Registered(p.id)`stages
      ensures ok == (!dockerfile || ExitedZero(r))
      ensures p.id in currentRuns ==> currentRuns[p.id].stages == BuildStep(old(currentRuns[p.id].stages), p.id, imageName, dockerfile, r).stages
      ensures SameSlots(old(history), history, p.id)
      ensures old(saved) == RecentSlice(old(history)) ==> saved == RecentSlice(history)
    {
      UpdateStageKey(p.id, Build, StageStatus.Running, Blank, Blank);
      ghost var h1 := history;
      if dockerfile {
        if ExitedZero(r) {
          UpdateStageKey(p.id, Build, StageStatus.Success, BuiltImage(BuildImage(p.id, imageName)), Blank);
          ok := true;
        } else {
          UpdateStageKey(p.id, Build, StageStatus.Failed, Blank, CommandError(r, DockerTool));
          ok := false;
        }
      } else {
        UpdateStageKey(p.id, Build, StageStatus.Skipped, NoDockerfile, Blank);
        ok := true;
      }
      SameSlotsTrans(old(history), h1, history, p.id);
    }

    /** Stage 3, the Bandit scan. */
    method BanditStage(p: PipelineRun, r: ProcessResult) returns (ok: bool)
      requires Valid()
      modifies this`history, this`saved, Registered(p.id)`stages
      ensures ok == BanditSucceeded(r)
      ensures p.id in currentRuns ==> currentRuns[p.id].stages == BanditStep(old(currentRuns[p.id].stages), r).stages
      ensures SameSlots(old(history), history, p.id)
      ensures old(saved) == RecentSlice(old(history)) ==> saved == RecentSlice(history)
    {
      UpdateStageKey(p.id, BanditScan, StageStatus.Running, Blank, Blank);
      ghost var h1 := history;
      if BanditSucceeded(r) {
        UpdateStageKey(p.id, BanditScan, StageStatus.Success, BanditCompleted, Blank);
        ok := true;
      } else {
        UpdateStageKey(p.id, BanditScan, StageStatus.Failed, Blank, ScanError(r, BanditTool));
        ok := false;
      }
      SameSlotsTrans(old(history), h1, history, p.id);
    }

    /** Stage 4, the Trivy scan of `target`. */
    method TrivyStage(p: PipelineRun, target: string, r: ProcessResult) returns (ok: bool)
      requires Valid()
      modifies this`history, this`saved, Registered(p.id)`stages
      ensures ok == TrivySucceeded(r)
      ensures p.id in currentRuns ==> currentRuns[p.id].stages == TrivyStep(old(currentRuns[p.id].stages), target, r).stages
      ensures SameSlots(old(history), history, p.id)
      ensures old(saved) == RecentSlice(old(history)) ==> saved == RecentSlice(history)
    {
      UpdateStageKey(p.id, TrivyScan, StageStatus.Running, Blank, Blank);
      ghost var h1 := history;
      if TrivySucceeded(r) {
        UpdateStageKey(p.id, TrivyScan, StageStatus.Success, TrivyCompleted(target), Blank);
        ok := true;
      } else {
        UpdateStageKey(p.id, TrivyScan, StageStatus.Failed, Blank, ScanError(r, TrivyTool));
        ok := false;
      }
      SameSlotsTrans(old(history), h1, history, p.id);
    }

    /** Stage 5: the analysis runs while the stage is RUNNING; its summary and score go on the run. */
    method PolicyStage(p: PipelineRun, o: StepOutcomes) returns (s: Summary)
      requires Valid()
      modifies this`history, this`saved, p`summary, p`securityScore, Registered(p.id)`stages
      ensures s == Analyze(o.banditReport, o.trivyReport)
      ensures p.summary == Some(s) && p.securityScore == Some(s.securityScore)
      ensures p.id in currentRuns ==> currentRuns[p.id].stages == PolicyStep(old(currentRuns[p.id].stages), s.securityScore)
      ensures SameSlots(old(history), history, p.id)
      ensures old(saved) == RecentSlice(old(history)) ==> saved == RecentSlice(history)
    {
      UpdateStageKey(p.id, PolicyCheck, StageStatus.Running, Blank, Blank);
      ghost var h1 := history;
      s := AnalyzeVulnerabilities(o.banditReport, o.trivyReport);
      p.summary := Some(s);
      p.securityScore := Some(s.securityScore);
      UpdateStageKey(p.id, PolicyCheck, StageStatus.Success, ScoreLine(s.securityScore), Blank);
      SameSlotsTrans(old(history), h1, history, p.id);
    }

    /** Stage 6: the verdict goes on the run and the stage succeeds with its message. */
    method DecisionStage(p: PipelineRun, s: Summary) returns (deployable: bool)
      requires Valid()
      modifies this`history, this`saved, p`isDeployable, Registered(p.id)`stages
      ensures deployable == EvaluateDeployment(s.securityScore, s) && p.isDeployable == Some(deployable)
      ensures p.id in currentRuns ==> currentRuns[p.id].stages == DecisionStep(old(currentRuns[p.id].stages), deployable)
      ensures SameSlots(old(history), history, p.id)
      ensures old(saved) == RecentSlice(old(history)) ==> saved == RecentSlice(history)
    {
      UpdateStageKey(p.id, Decision, StageStatus.Running, Blank, Blank);
      ghost var h1 := history;
      deployable := EvaluateDeployment(s.securityScore, s);
      p.isDeployable := Some(deployable);
      UpdateStageKey(p.id, Decision, StageStatus.Success, Verdict(deployable), Blank);
      SameSlotsTrans(old(history), h1, history, p.id);
    }

    /** The stages of the current run `id`; none when it is not current. */
    function StagesOf(id: string): Stages
      reads this`currentRuns, Registered(id)`stages
    {
      if id in currentRuns then currentRuns[id].stages else map[]
    }

    /** What a run leaves besides its stages: its summary, score and verdict, and the last decision report. */
    function Results(p: PipelineRun): RunResults
      reads this`decisionReport, p`summary, p`securityScore, p`isDeployable
    {
      RunResults(p.summary, p.securityScore, p.isDeployable, decisionReport)
    }

    /** Stages 5 and 6 and the decision report; `ok` is whether the report was written. */
    method ConcludeRun(p: PipelineRun, ghost st: Stages, o: StepOutcomes) returns (ok: bool)
      requires Valid() && (p.id in currentRuns ==> currentRuns[p.id].stages == st)
      modifies this`history, this`saved, this`decisionReport, p`summary, p`securityScore, p`isDeployable, Registered(p.id)`stages
      ensures var out := Conclude(st, p.Info(), o);
        ok == out.ok && (p.id in currentRuns ==> currentRuns[p.id].stages == out.stages) && Results(p) == After(old(Results(p)), out)
      ensures SameSlots(old(history), history, p.id)
      ensures old(saved) == RecentSlice(old(history)) ==> saved == RecentSlice(history)
    {
      ghost var out := Conclude(st, p.Info(), o);
      var s := PolicyStage(p, o);
      ghost var h1 := history;
      var deployable := DecisionStage(p, s);
      SameSlotsTrans(old(history), h1, history, p.id);
      ok := o.decisionWritten;
      if ok {
        decisionReport := Some(MakeDecisionReport(p.id, p.repoName, p.branch, p.commitSha, s, deployable));
      }
      assert out.summary == Some(s) && out.deployable == Some(deployable);
      assert Results(p) == RunResults(Some(s), Some(s.securityScore), Some(deployable), if ok then out.report else old(decisionReport));
    }

    /** Stage 4 and on. */
    method ResumeAtTrivy(p: PipelineRun, ghost st: Stages, target: string, o: StepOutcomes) returns (ok: bool)
      requires Valid() && (p.id in currentRuns ==> currentRuns[p.id].stages == st)
      modifies this`history, this`saved, this`decisionReport, p`summary, p`securityScore, p`isDeployable, Registered(p.id)`stages
      ensures var out := RunFromTrivy(st, p.Info(), target, o);
        ok == out.ok && (p.id in currentRuns ==> currentRuns[p.id].stages == out.stages) && Results(p) == After(old(Results(p)), out)
      ensures SameSlots(old(history), history, p.id)
      ensures old(saved) == RecentSlice(old(history)) ==> saved == RecentSlice(history)
    {
      ok := TrivyStage(p, target, o.trivy);
      if ok {
        ghost var h1 := history;
        ok := ConcludeRun(p, TrivyStep(st, target, o.trivy).stages, o);
        SameSlotsTrans(old(history), h1, history, p.id);
      }
    }

    /** Stage 3 and on. */
    method ResumeAtBandit(p: PipelineRun, ghost st: Stages, target: string, o: StepOutcomes) returns (ok: bool)
      requires Valid() && (p.id in currentRuns ==> currentRuns[p.id].stages == st)
      modifies this`history, this`saved, this`decisionReport, p`summary, p`securityScore, p`isDeployable, Registered(p.id)`stages
      ensures var out := RunFromBandit(st, p.Info(), target, o);
        ok == out.ok && (p.id in currentRuns ==> currentRuns[p.id].stages == out.stages) && Results(p) == After(old(Results(p)), out)
      ensures SameSlots(old(history), history, p.id)
      ensures old(saved) == RecentSlice(old(history)) ==> saved == RecentSlice(history)
    {
      ok := BanditStage(p, o.bandit);
      if ok {
        ghost var h1 := history;
        ok := ResumeAtTrivy(p, BanditStep(st, o.bandit).stages, target, o);
        SameSlotsTrans(old(history), h1, history, p.id);
      }
    }

    /** Stage 2 and on; with no Dockerfile and no image given, the base image is scanned. */
    method ResumeAtBuild(p: PipelineRun, ghost st: Stages, imageName: string, o: StepOutcomes) returns (ok: bool)
      requires Valid() && (p.id in currentRuns ==> currentRuns[p.id].stages == st)
      modifies this`history, this`saved, this`decisionReport, p`summary, p`securityScore, p`isDeployable, Registered(p.id)`stages
      ensures var out := RunFromBuild(st, p.Info(), imageName, o);
        ok == out.ok && (p.id in currentRuns ==> currentRuns[p.id].stages == out.stages) && Results(p) == After(old(Results(p)), out)
      ensures SameSlots(old(history), history, p.id)
      ensures old(saved) == RecentSlice(old(history)) ==> saved == RecentSlice(history)
    {
      ok := BuildStage(p, imageName, o.dockerfile, o.build);
      if ok {
        ghost var h1 := history;
        ok := ResumeAtBandit(p, BuildStep(st, p.id, imageName, o.dockerfile, o.build).stages, ScanTarget(p.id, imageName, o.dockerfile), o);
        SameSlotsTrans(old(history), h1, history, p.id);
      }
    }

    /**
     * `run_pipeline`: the run goes RUNNING and the history is saved; the six
     * stages run in order until one fails (`Execute`). The run ends SUCCESS
     * exactly when `Execute` gets through, FAILED otherwise, and its final
     * snapshot replaces its history record, which is saved.
     */
    method RunPipeline(p: PipelineRun, repoUrl: string, imageName: string, o: StepOutcomes)
      requires Valid()
      modifies this`history, this`saved, this`decisionReport
      modifies p`status, p`started, p`finished, p`summary, p`securityScore, p`isDeployable, Registered(p.id)`stages
      ensures var out := Execute(old(StagesOf(p.id)), p.Info(), repoUrl, imageName, o);
        (p.id in currentRuns ==> currentRuns[p.id].stages == out.stages) && Results(p) == After(old(Results(p)), out) &&
        p.status == (if out.ok then PipelineStatus.Success else PipelineStatus.Failed) && p.started && p.finished
      ensures history == ReplaceFirst(old(history), p.id, p.Record())
      ensures saved == RecentSlice(history)
    {
      Start(p);
      var ok := ResumeAtClone(p, StagesOf(p.id), repoUrl, imageName, o);
      Finish(p, ok);
    }

    /** The run goes RUNNING and the history file is saved. */
    method Start(p: PipelineRun)
      modifies this`saved, p`status, p`started
      ensures p.status == PipelineStatus.Running && p.started
      ensures saved == RecentSlice(history)
    {
      p.status := PipelineStatus.Running;
      p.started := true;
      Save();
    }

    /**
     * The end of `run_pipeline`: SUCCESS or FAILED, then (the `finally`) the
     * run's snapshot replaces its history record and the history is saved.
     */
    method Finish(p: PipelineRun, ok: bool)
      modifies this`history, this`saved, p`status, p`finished
      ensures p.status == (if ok then PipelineStatus.Success else PipelineStatus.Failed) && p.finished
      ensures history == ReplaceFirst(old(history), p.id, p.Record())
      ensures saved == RecentSlice(history)
    {
      p.status := if ok then PipelineStatus.Success else PipelineStatus.Failed;
      p.finished := true;
      ReplaceInHistory(p.id, p.Record());
      Save();
    }

    /** The `try` block of `run_pipeline`: the six stages from the first on. */
    method ResumeAtClone(p: PipelineRun, ghost st: Stages, repoUrl: string, imageName: string, o: StepOutcomes) returns (ok: bool)
      requires Valid() && (p.id in currentRuns ==> currentRuns[p.id].stages == st)
      modifies this`history, this`saved, this`decisionReport, p`summary, p`securityScore, p`isDeployable, Registered(p.id)`stages
      ensures var out := Execute(st, p.Info(), repoUrl, imageName, o);
        ok == out.ok && (p.id in currentRuns ==> currentRuns[p.id].stages == out.stages) && Results(p) == After(old(Results(p)), out)
      ensures SameSlots(old(history), history, p.id)
      ensures old(saved) == RecentSlice(old(history)) ==> saved == RecentSlice(history)
    {
      ok := CloneStage(p, repoUrl, o.clone);
      if ok {
        ghost var h1 := history;
        ok := ResumeAtBuild(p, CloneStep(st, repoUrl, o.clone).stages, imageName, o);
        SameSlotsTrans(old(history), h1, history, p.id);
      }
    }

    /** `get_pipeline`: the current run with the id, else the first history record with it. */
    method GetPipeline(id: string) returns (r: Option<RunRecord>)
      ensures id in currentRuns ==> r == Some(currentRuns[id].Record())
      ensures id !in currentRuns ==> r == FindFirst(history, id)
    {
      if id in currentRuns {
        return Some(currentRuns[id].Record());
      }
      var i := 0;
      while i < |history|
        invariant 0 <= i <= |history|
        invariant forall j :: 0 <= j < i ==> history[j].id != id
      {
        if history[i].id == id {
          return Some(history[i]);
        }
        i := i + 1;
      }
      return None;
    }

    /** `get_pipelines(limit)`, 20 by default: the newest `limit` records. */
    function Pipelines(limit: int := 20): (r: seq<RunRecord>)
      reads this`history
      ensures |r| <= |history| && r == history[..|r|]
      ensures 0 <= limit ==> |r| == if limit < |history| then limit else |history|
    {
      PrefixSlice(history, limit)
    }

    /** `get_latest_pipeline`: the newest record, if any. */
    function LatestPipeline(): (r: Option<RunRecord>)
      reads this`history
      ensures r.None? <==> history == []
      ensures r.Some? ==> r.value == history[0]
    {
      if history != [] then Some(history[0]) else None
    }
  }

  // ---------------------------------------------------------------------
  // `_analyze_vulnerabilities`

  /** The Bandit half: count the labels until the first null severity. */
  method CountBanditReport(report: Option<BanditReport>, c0: Counts) returns (c: Counts)
    ensures c == BanditPass(report, c0)
  {
    c := c0;
    if report.None? {
      return;
    }
    match report.value.results
    case Null =>
    case Absent =>
      c := c.(banditIssues := 0);
    case Present(rs) =>
      c := c.(banditIssues := |rs|);
      var i := 0;
      while i < |rs|
        invariant 0 <= i <= |rs|
        invariant BanditLoop(rs[i..], c) == BanditPass(report, c0)
      {
        assert rs[i..][1..] == rs[i + 1..];
        var lbl := UpperOrEmpty(rs[i].issueSeverity);
        if lbl.None? {
          return;
        }
        c := CountBanditLabel(c, lbl.value);
        i := i + 1;
      }
  }

  /** One result's vulnerabilities, until the first null severity. */
  method CountVulns(vs: seq<TrivyVuln>, c0: Counts) returns (p: Pass)
    ensures p == VulnLoop(vs, c0)
  {
    var c := c0;
    var i := 0;
    while i < |vs|
      invariant 0 <= i <= |vs|
      invariant VulnLoop(vs[i..], c) == VulnLoop(vs, c0)
    {
      assert vs[i..][1..] == vs[i + 1..];
      var lbl := UpperOrEmpty(vs[i].severity);
      if lbl.None? {
        return Pass(c, false);
      }
      c := CountTrivyLabel(c, lbl.value);
      i := i + 1;
    }
    return Pass(c, true);
  }

  /** The Trivy half: each result adds its vulnerability count, then grades them. */
  method CountTrivyReport(report: Option<TrivyReport>, c0: Counts) returns (c: Counts)
    ensures c == TrivyPass(report, c0)
  {
    c := c0;
    if report.None? || !report.value.results.Present? {
      return;
    }
    var rs := report.value.results.value;
    var i := 0;
    while i < |rs|
      invariant 0 <= i <= |rs|
      invariant ResultLoop(rs[i..], c) == TrivyPass(report, c0)
    {
      assert rs[i..][1..] == rs[i + 1..];
      if rs[i].vulnerabilities.Null? {
        return;
      }
      var vs := OrEmpty(rs[i].vulnerabilities);
      c := c.(trivyVulns := c.trivyVulns + |vs|);
      var p := CountVulns(vs, c);
      c := p.counts;
      if !p.completed {
        return;
      }
      i := i + 1;
    }
  }

  /**
   * `_analyze_vulnerabilities`: both passes, the total and the clamped
   * penalty score. The total is the four graded counters, never more than
   * the findings read, and the score is 100 exactly when nothing was graded.
   */
  method AnalyzeVulnerabilities(bandit: Option<BanditReport>, trivy: Option<TrivyReport>) returns (s: Summary)
    ensures s == Analyze(bandit, trivy)
    ensures s.total == s.critical + s.high + s.medium + s.low && s.total <= s.banditIssues + s.trivyVulns
    ensures s.securityScore <= 100 && (s.securityScore == 100 <==> s.total == 0)
  {
    var c := CountBanditReport(bandit, NoCounts);
    c := CountTrivyReport(trivy, c);
    var score := 100;
    score := score - c.critical * 15;
    score := score - c.high * 8;
    score := score - c.medium * 3;
    score := score - c.low * 1;
    assert score == 100 - c.critical * 15 - c.high * 8 - c.medium * 3 - c.low * 1;
    s := Summary(c.critical, c.high, c.medium, c.low, c.critical + c.high + c.medium + c.low,
                 c.banditIssues, c.trivyVulns, Clamp(score));
    assert s == Summarize(c);
    AnalyzeSpec(bandit, trivy);
  }

  /** A run's summary, score and verdict, and the executor's last decision report. */
  datatype RunResults = RunResults(summary: Option<Summary>, securityScore: Option<nat>, isDeployable: Option<bool>,
                                   decisionReport: Option<DecisionReport>)

  /**
   * The results after the part of a run `out` describes: the summary, score
   * and verdict are set when the run got that far, the decision report when
   * it was written; everything else is as before.
   */
  function After(before: RunResults, out: RunOutcome): (r: RunResults)
    ensures out.summary.Some? ==> r.summary == out.summary && r.securityScore == Some(out.summary.value.securityScore)
    ensures out.summary.None? ==> r.summary == before.summary && r.securityScore == before.securityScore
    ensures r.isDeployable == if out.deployable.Some? then out.deployable else before.isDeployable
    ensures r.decisionReport == if out.report.Some? then out.report else before.decisionReport
  {
    RunResults(
      if out.summary.Some? then out.summary else before.summary,
      if out.summary.Some? then Some(out.summary.value.securityScore) else before.securityScore,
      if out.deployable.Some? then out.deployable else before.isDeployable,
      if out.report.Some? then out.report else before.decisionReport)
  }

  /** Two steps that each touch only the first slot of `id` together touch only that slot. */
  lemma SameSlotsTrans(h0: seq<RunRecord>, h1: seq<RunRecord>, h2: seq<RunRecord>, id: string)
    requires SameSlots(h0, h1, id) && SameSlots(h1, h2, id)
    ensures SameSlots(h0, h2, id)
  {
    forall r ensures ReplaceFirst(h2, id, r) == ReplaceFirst(h0, id, r) {
      assert ReplaceFirst(h2, id, r) == ReplaceFirst(h1, id, r);
    }
  }
}
