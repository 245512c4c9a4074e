# SentinelOps security pipeline — a verified model

SentinelOps runs two scanners over an application and turns their JSON
output into security scores and deploy/block verdicts:
- Bandit scans the Python code.
- Trivy scans the container image.

This project models the parts of SentinelOps that make decisions, and
proves what they promise:

- **Dashboard risk score and grade** (`helpers.js`):
  - the weighted risk score over a list of findings, with its loop;
  - the letter grade of a score;
  - the case-insensitive severity badge and colour lookups;
  - text truncation.
- **Standalone CI decision engine** (`security_decision_engine.py`):
  - the subtractive score over Bandit HIGH issues and Trivy CRITICAL/HIGH
    vulnerabilities, with its ordered reasons;
  - the block rule: block on any critical, else on a score below 70.
- **Pipeline executor** (`pipeline/pipeline_executor.py`), as two classes:
  - a `PipelineRun` whose status, stages and results are updated in place;
  - an `Executor` holding the table of current runs, the newest-first
    history list and the part of that list last saved.
- **Executor operations**: `create_pipeline`, `update_stage` and
  `run_pipeline`, whose six stages run in order until one fails.
  - The outcome of each external step (exit codes, stderr, whether a
    Dockerfile exists, the parsed report files, whether the decision file
    could be written) is a parameter.
- **Executor analysis** (`VulnerabilityAnalysis`):
  - the executor's own severity counting and its 15/8/3/1 penalty score;
  - `_evaluate_deployment`;
  - the reasons of the decision report.
- **Dashboard pages** (`Dashboard.jsx`, `TrivyReport.jsx`,
  `BanditReport.jsx`, `Pipeline.jsx`):
  - flattening the Trivy results;
  - the filter bars;
  - counting by severity, package and test;
  - combining the severities of both scanners;
  - pie data with zero slices dropped;
  - the top-six bar data;
  - the fixed stage order and its status fallbacks;
  - the polling rule;
  - how a reload updates the selected run.

The three score formulas are kept apart as the sources keep them:
- `Helpers.RiskScore` (dashboard);
- `DecisionEngine.Score` (CI engine);
- `VulnerabilityAnalysis.SecurityScore` (executor).

Modules:
- `Text`: ASCII case mapping, substring search, digits.
- `Reports`: the JSON shapes of both reports.
  - `Field<T>` separates a missing key, `null` and a value. This matters because Python's `.get` and JavaScript's `||` treat them differently.
- `Lists`: `filter` and the sublist order it keeps.
- `Tally`: the `reduce` counting into a dictionary, `Object.entries`, the stable descending sort and `slice`.
- One module per source file:
  - `Helpers`;
  - `DecisionEngine`;
  - `VulnerabilityAnalysis` and `PipelineModel`: the value logic of the executor;
  - `PipelineExecutor`: the executor's classes;
  - `DashboardPage`, `TrivyReportPage`, `BanditReportPage` and `PipelinePage`.

Source paths below are relative to the repository root. A function without a contract of its own (for instance `Helpers.TruncateText`, `Helpers.RiskScore`, `Helpers.SecurityGrade`, `DecisionEngine.Assess`, `VulnerabilityAnalysis.Analyze`, `PipelineModel.ApplyUpdate`, `PipelineModel.Execute`, `PipelinePage.Reloaded` or a page's `Matches`) has no row: the lemma rows that name it in their third column state what it promises.

## Model

| member | source | states |
|---|---|---|
| Helpers.SeverityBadgeClass | dashboard/frontend/src/utils/helpers.js:19-27 | the class is `badge-info` exactly when the upper-cased severity is missing or none of CRITICAL, HIGH, MEDIUM, LOW |
| Helpers.BadgeIgnoresCase | dashboard/frontend/src/utils/helpers.js:26 | the badge of a label is the badge of its upper-cased form: the lookup ignores letter case |
| Helpers.SeverityColor | dashboard/frontend/src/utils/helpers.js:8-17 | the UNKNOWN colours are returned exactly when the upper-cased severity is missing or none of the four known labels |
| Helpers.ColorIgnoresCase | dashboard/frontend/src/utils/helpers.js:16 | the colour lookup ignores letter case |
| Helpers.TruncateTextShape | dashboard/frontend/src/utils/helpers.js:44-48 | falsy text gives ""; text no longer than the maximum comes back unchanged; longer text gives its first `maxLength` characters followed by "..." |
| Helpers.TruncateTextIdempotent | dashboard/frontend/src/utils/helpers.js:44-48 | truncating a truncated text changes nothing more |
| Helpers.Weight | dashboard/frontend/src/utils/helpers.js:53-65 | every label weighs between 1 and 10 (CRITICAL 10, HIGH 7, MEDIUM 4, LOW and any other label 1) |
| Helpers.CalculateRiskScore | dashboard/frontend/src/utils/helpers.js:50-69 | the `forEach` accumulation computes the rounded ratio of the total weight to the all-CRITICAL maximum, 0 for an empty list, and never exceeds 100 |
| Helpers.TotalWeightBounds | dashboard/frontend/src/utils/helpers.js:60-66 | the accumulated total lies between the number of findings and ten times it |
| Helpers.RiskScoreRange | dashboard/frontend/src/utils/helpers.js:61-68 | the score is at most 100, and at least 10 for any non-empty list |
| Helpers.RiskScoreExtremes | dashboard/frontend/src/utils/helpers.js:61-68 | an all-CRITICAL list scores 100 and an all-LOW list scores 10 |
| Helpers.RiskScoreMonotone | dashboard/frontend/src/utils/helpers.js:63-68 | raising one finding's weight never lowers the score |
| Helpers.TotalWeightPermutation | dashboard/frontend/src/utils/helpers.js:63-66 | two lists with the same findings in any order have the same total weight |
| Helpers.RiskScoreOrderIndependent | dashboard/frontend/src/utils/helpers.js:63-68 | the score does not depend on the order of the findings |
| Helpers.RiskScoreBetween | dashboard/frontend/src/utils/helpers.js:61-68 | the score of two non-empty lists concatenated lies between the scores of the two lists |
| Helpers.GradeBands | dashboard/frontend/src/utils/helpers.js:71-78 | each grade holds exactly on its band: A+ from 90, A 80-89, B 70-79, C 60-69, D 50-59, F below 50 |
| Helpers.GradeMonotone | dashboard/frontend/src/utils/helpers.js:71-78 | a lower score never gets a better grade |
| Reports.VulnerabilitiesSpec | dashboard/frontend/src/pages/TrivyReport.jsx:53-56 | no report or no `Results` gives []; otherwise the result is the in-order concatenation of each result's `Vulnerabilities`, with a missing list counted as none |
| Tally.Tally | dashboard/frontend/src/pages/TrivyReport.jsx:96-100 | the `reduce` accumulator has exactly the keys that occur, each counting its occurrences; the model lists the keys in first-occurrence order, which is JavaScript's own order only for keys that are not integer-like |
| Tally.EntriesOf | dashboard/frontend/src/pages/BanditReport.jsx:90-96 | `Object.entries` of the accumulator: one entry per distinct key, with its count, listed in first-occurrence order (JavaScript's order for keys that are not integer-like) |
| Tally.EntriesSumToLength | dashboard/frontend/src/pages/BanditReport.jsx:90-94 | the counts of the accumulator add up to the number of items counted |
| Tally.TopEntries | dashboard/frontend/src/pages/BanditReport.jsx:96-99 | sort-then-slice of any entry list shows no entry more often than it occurs, and an entry without a bar counts no more than any bar shown |
| Tally.RankedSpec | dashboard/frontend/src/pages/TrivyReport.jsx:102-105 | sort-then-slice gives at most n entries (all of them when fewer are distinct), with non-increasing counts, each entry the true count of a key that occurs |
| Tally.RankedLeftOutSmaller | dashboard/frontend/src/pages/TrivyReport.jsx:102-105 | a key left out of the top entries has no more occurrences than any entry shown |
| Tally.PieSpec | dashboard/frontend/src/pages/Dashboard.jsx:85-87 | the pie keeps, in order, exactly the slices with a positive value |
| DecisionEngine.CountSastHigh | security_decision_engine.py:17-20 | the `sum(...)` loop counts the Bandit issues whose `issue_severity` is exactly "HIGH" |
| DecisionEngine.SastHighCountMeaning | security_decision_engine.py:17-20 | that count is at most the number of issues, and positive exactly when some issue is exactly "HIGH" |
| DecisionEngine.CountImage | security_decision_engine.py:28-35 | the nested loops count the CRITICAL and HIGH vulnerabilities over all results, with a null `Vulnerabilities` counted as none |
| DecisionEngine.SeverityCountMeaning | security_decision_engine.py:29-35 | a severity count is at most the number of vulnerabilities, and positive exactly when some vulnerability has exactly that label |
| DecisionEngine.Deduct | security_decision_engine.py:21-44 | the deductions and their reasons: SAST 20 plus 2 per issue, a flat 40 for any critical, min(20, 2 per high) for image highs, floored at 0 |
| DecisionEngine.CalculateScore | security_decision_engine.py:11-45 | `calculate_score` returns the engine's assessment, and raises exactly when `results` or `Results` is null |
| DecisionEngine.ScoreRange | security_decision_engine.py:12-44 | the score lies in 0..100 and is 100 exactly when nothing was counted |
| DecisionEngine.CriticalCapsScore | security_decision_engine.py:37-38 | any critical leaves a score of at most 60 |
| DecisionEngine.ScoreAntitone | security_decision_engine.py:21-44 | more findings in any category never raise the score |
| DecisionEngine.ScoreReasonsSpec | security_decision_engine.py:23-42 | one reason per non-zero category, carrying its count, in the order SAST-high, image-critical, image-high |
| DecisionEngine.MissingBanditContributesNothing | security_decision_engine.py:16-23 | a missing Bandit report is the same as one without `results`: no SAST penalty and no SAST reason |
| DecisionEngine.MissingTrivyContributesNothing | security_decision_engine.py:28-35 | a missing Trivy report is the same as one without `Results`: no image counts, only the SAST reason |
| DecisionEngine.NullVulnerabilitiesContributeNothing | security_decision_engine.py:30 | inserting a result whose `Vulnerabilities` is missing or null anywhere in the result list changes nothing |
| DecisionEngine.RaisesOnlyOnNull | security_decision_engine.py:16-30 | the engine raises exactly when a present report has a null `results` or `Results` |
| DecisionEngine.CriticalCountMeaning | security_decision_engine.py:28-33 | the critical count is positive exactly when some image vulnerability is exactly "CRITICAL" |
| DecisionEngine.Decide | security_decision_engine.py:55-65 | deployment is allowed iff there is no critical and the score reaches 70; a block adds exactly one policy reason, the critical rule before the score rule, and an allowed deployment adds none |
| DecisionEngine.AllowedIffScoreReachesMinimum | security_decision_engine.py:37-65 | for every computed assessment the verdict is "score at least 70": the critical rule never blocks a score that would pass |
| VulnerabilityAnalysis.CountBanditLabel | pipeline/pipeline_executor.py:345-351 | HIGH raises `high` by one, MEDIUM `medium`, LOW `low`, anything else nothing; `critical` and the two totals never change |
| VulnerabilityAnalysis.CountTrivyLabel | pipeline/pipeline_executor.py:366-374 | CRITICAL raises `critical` by one, HIGH `high`, MEDIUM `medium`, LOW `low`, anything else nothing; the two totals never change |
| VulnerabilityAnalysis.BanditLoopCountsLabels | pipeline/pipeline_executor.py:344-351 | with no null severity the Bandit loop raises `high`, `medium` and `low` each by the number of issues whose upper-cased severity is that label, and leaves `critical` alone |
| VulnerabilityAnalysis.VulnLoopCountsLabels | pipeline/pipeline_executor.py:365-374 | with no null severity the loop over one result's vulnerabilities completes and raises each of the four counters by the number of vulnerabilities with that upper-cased label |
| VulnerabilityAnalysis.ResultLoopCountsLabels | pipeline/pipeline_executor.py:361-374 | with no null list and no null severity the outer Trivy loop adds every vulnerability of every result to `trivy_vulns` and to the counter of its label |
| VulnerabilityAnalysis.AnalyzeCountsLabels | pipeline/pipeline_executor.py:340-374 | with nothing null, `critical` is Trivy's CRITICAL count, `high`, `medium` and `low` are Bandit's plus Trivy's counts of that label, and the totals are the numbers of issues and vulnerabilities read |
| VulnerabilityAnalysis.BanditLoopBounds | pipeline/pipeline_executor.py:344-351 | the Bandit loop never counts a critical and counts at most one label per issue |
| VulnerabilityAnalysis.BanditLoopCountsAll | pipeline/pipeline_executor.py:344-351 | with every severity present and HIGH, MEDIUM or LOW in any letter case, every issue is counted |
| VulnerabilityAnalysis.VulnLoopBounds | pipeline/pipeline_executor.py:365-374 | the inner Trivy loop counts at most one label per vulnerability and leaves the issue totals alone |
| VulnerabilityAnalysis.ResultLoopBounds | pipeline/pipeline_executor.py:361-374 | every vulnerability the Trivy loop grades was first added to `trivy_vulns` |
| VulnerabilityAnalysis.AnalyzeSpec | pipeline/pipeline_executor.py:324-388 | `total` is critical+high+medium+low and never exceeds the findings read; the score is at most 100, and exactly 100 when nothing was graded |
| VulnerabilityAnalysis.MissingReports | pipeline/pipeline_executor.py:337-376 | without a Trivy report nothing is critical and no vulnerability is read; without a Bandit report no issue is read |
| VulnerabilityAnalysis.SecurityScoreRange | pipeline/pipeline_executor.py:380-386 | the clamped score lies in 0..100 and is 100 exactly when all four counts are zero |
| VulnerabilityAnalysis.SecurityScoreAntitone | pipeline/pipeline_executor.py:381-386 | more findings in any category never raise the score |
| VulnerabilityAnalysis.EvaluateDeployment | pipeline/pipeline_executor.py:390-401 | deployable iff score ≥ 70, no critical and at most five highs |
| VulnerabilityAnalysis.HighRuleImpliedByScore | pipeline/pipeline_executor.py:381-401 | for an analysed summary, more than five highs already put the score below 70, so the verdict is "score ≥ 70 and no critical" |
| VulnerabilityAnalysis.DecisionReasonsSpec | pipeline/pipeline_executor.py:403-424 | the reasons are empty exactly when deployable; a blocked run lists each violated rule once, with its number, in the order score, critical, high |
| PipelineModel.EmptyIffNoText | pipeline/pipeline_executor.py:158 | a message is falsy exactly when its text is the empty string |
| PipelineModel.StageNamedRoundTrip | pipeline/pipeline_executor.py:155 | each of the six stage names finds its own stage |
| PipelineModel.InitialStages | pipeline/pipeline_executor.py:134-141 | a new run has exactly the six stages, each pending, under its display title |
| PipelineModel.InitialStatuses | pipeline/pipeline_executor.py:134-141 | all six statuses of a new run are pending |
| PipelineModel.ApplyUpdateSpec | pipeline/pipeline_executor.py:156-167 | an update sets the status and overwrites the logs; it writes the error only when non-empty; it records a start only on RUNNING and an end only on SUCCESS/FAILED, so SKIPPED records neither; it keeps the title |
| PipelineModel.ApplyUpdateIdempotent | pipeline/pipeline_executor.py:156-167 | repeating the same update changes nothing more |
| PipelineModel.UpdatedStages | pipeline/pipeline_executor.py:155-167 | only the named stage changes, and the set of stages stays the same |
| PipelineModel.UpdatedStatuses | pipeline/pipeline_executor.py:150-167 | an update changes that stage's status and no other |
| PipelineModel.StepRules | pipeline/pipeline_executor.py:186-270 | clone succeeds iff there is no URL or git exits 0; build iff there is no Dockerfile or docker exits 0; Bandit iff the exit code is 0 or 1; Trivy iff the exit code is 0 or stderr contains "No such image"; with no Dockerfile and no image, Trivy scans python:3.11-slim |
| PipelineModel.CloneStepStatuses | pipeline/pipeline_executor.py:188-203 | clone ends FAILED, SUCCESS, or SKIPPED without a URL, and no other stage changes |
| PipelineModel.BuildStepStatuses | pipeline/pipeline_executor.py:206-226 | build ends FAILED, SUCCESS, or SKIPPED without a Dockerfile, and no other stage changes |
| PipelineModel.BanditStepStatuses | pipeline/pipeline_executor.py:229-248 | the Bandit stage ends SUCCESS or FAILED as its rule says, and no other stage changes |
| PipelineModel.TrivyStepStatuses | pipeline/pipeline_executor.py:251-270 | the Trivy stage ends SUCCESS or FAILED as its rule says, and no other stage changes |
| PipelineModel.PolicyStepStatuses | pipeline/pipeline_executor.py:273-282 | the policy stage always ends SUCCESS |
| PipelineModel.DecisionStepStatuses | pipeline/pipeline_executor.py:285-290 | the decision stage ends SUCCESS whatever the verdict |
| PipelineModel.ConcludeStatuses | pipeline/pipeline_executor.py:273-296 | stages 5 and 6 both end SUCCESS, a verdict is always given, and the run succeeds iff the decision file is written |
| PipelineModel.TrivyPassedStatuses | pipeline/pipeline_executor.py:251-296 | after a passing Trivy scan, stages 4-6 end SUCCESS |
| PipelineModel.FromTrivyStatuses | pipeline/pipeline_executor.py:251-296 | from stage 4 on, the statuses are the expected row for the failing stage; a verdict exists iff Trivy passed |
| PipelineModel.FromBanditStatuses | pipeline/pipeline_executor.py:229-296 | from stage 3 on, the same for the first failing scan |
| PipelineModel.FromBuildStatuses | pipeline/pipeline_executor.py:206-296 | from stage 2 on, the same for the first failing step |
| PipelineModel.ExecuteStatuses | pipeline/pipeline_executor.py:186-303 | from six pending stages, the run ends with the expected statuses of its first failing stage; it succeeds iff no stage fails and the decision file is written |
| PipelineModel.ExpectedLifecycle | pipeline/pipeline_executor.py:186-303 | in each expected row, the failing stage is FAILED, earlier stages SUCCESS or SKIPPED, and later stages pending |
| PipelineModel.ExecuteLifecycle | pipeline/pipeline_executor.py:179-308 | a fresh run follows the lifecycle of its failing stage, and pending stages form a suffix; without a failure, clone and build are SUCCESS or SKIPPED and the other four SUCCESS even when the verdict blocks; a failure leaves no verdict |
| PipelineModel.ConcludeReport | pipeline/pipeline_executor.py:403-424 | the decision report repeats the run's verdict and summary; it says APPROVED iff deployable, and its reasons are empty iff deployable |
| PipelineModel.FirstIndex | pipeline/pipeline_executor.py:170-173 | the index the history loop stops at: the first record with the id, or -1 |
| PipelineModel.ReplaceFirstShape | pipeline/pipeline_executor.py:170-173 | replacement keeps the length, every other record and every id |
| PipelineModel.ReplaceFirstAbsorbs | pipeline/pipeline_executor.py:312-315 | writing a run's snapshot twice is writing the last one once |
| PipelineModel.SameSlotsAfterReplace | pipeline/pipeline_executor.py:312-315 | a replacement touches only the first slot holding the id |
| PipelineModel.FindFirst | pipeline/pipeline_executor.py:434-437 | the history lookup finds the first record with the id, and nothing exactly when no record has it |
| PipelineModel.PrefixSlice | pipeline/pipeline_executor.py:439-441 | `history[:limit]` is the first `limit` records; a negative limit counts from the end |
| PipelineModel.TailSliceDropsNewest | pipeline/pipeline_executor.py:113 | as written, the saved `[-50:]` slice of 51 newest-first runs leaves out the newest run |
| PipelineModel.TailSliceNeverSavesNewRun | pipeline/pipeline_executor.py:113 | as written, once 50 runs are recorded a newly inserted run is never saved |
| PipelineModel.RecentSlice | pipeline/pipeline_executor.py:113 | the intended "last 50 runs": the first min(50, n) records of the newest-first list |
| PipelineModel.RecentSliceKeepsNewest | pipeline/pipeline_executor.py:113 | the intended slice always saves the newest run first |
| PipelineModel.LastSegment | pipeline/pipeline_executor.py:123 | `split('/')[-1]`: the suffix after the last '/', with no '/' in it |
| PipelineModel.RepoNameAsWrittenMangles | pipeline/pipeline_executor.py:123 | as written, `…/user.github.io` gets the repository name `userhub.io` |
| PipelineModel.RepoName | pipeline/pipeline_executor.py:123 | the intended repository name has no '/' in it |
| PipelineModel.RepoNameRoundTrip | pipeline/pipeline_executor.py:123 | both `…/name.git` and `…/name` give back `name` |
| PipelineModel.LastSegmentOfJoin | pipeline/pipeline_executor.py:123 | the last segment of `prefix/name` is `name` |
| PipelineModel.ShortSha | pipeline/pipeline_executor.py:129 | the first 7 characters of the commit, or "local" when it is empty |
| PipelineModel.CommitTitle | pipeline/pipeline_executor.py:130 | the first 100 characters of the message, or "Manual trigger" when it is empty |
| PipelineExecutor.PipelineRun.constructor | pipeline/pipeline_executor.py:43-63 | a run starts QUEUED, not started or finished, with no score, verdict or summary |
| PipelineExecutor.PipelineRun.Record | pipeline/pipeline_executor.py:65-82 | the snapshot carries the run's id, status and stages |
| PipelineExecutor.Executor.constructor | pipeline/pipeline_executor.py:88-105 | no current run; history and saved list are what was loaded |
| PipelineExecutor.Executor.Save | pipeline/pipeline_executor.py:107-117 | the saved list becomes the corrected newest-50 slice `RecentSlice` of the history (not the `[-50:]` slice written at line 113) |
| PipelineExecutor.Executor.ReplaceInHistory | pipeline/pipeline_executor.py:170-173 | the loop replaces the first record with the id, and only it |
| PipelineExecutor.Executor.CreatePipeline | pipeline/pipeline_executor.py:119-148 | the new run is QUEUED, with the six pending stages and the derived name, commit and message; it is registered under its id and put first in history, so `LatestPipeline` returns it, and the saved file begins with it; the name is the corrected `RepoName`, not the `.replace` of line 123 |
| PipelineExecutor.Executor.Snapshot | pipeline/pipeline_executor.py:169-174 | the run's snapshot replaces its history record, the history is saved, and no other slot changes |
| PipelineExecutor.Executor.UpdateStage | pipeline/pipeline_executor.py:150-174 | an unknown run changes nothing; an unknown stage name leaves the stages alone; otherwise only the named stage changes as `ApplyUpdate` says; the snapshot is written and saved |
| PipelineExecutor.Executor.UpdateStageKey | pipeline/pipeline_executor.py:150-174 | the same, for the six stage keys and the messages of a run |
| PipelineExecutor.Executor.CloneStage | pipeline/pipeline_executor.py:188-203 | stage 1 leaves the stages `CloneStep` gives, and goes on iff its rule holds |
| PipelineExecutor.Executor.BuildStage | pipeline/pipeline_executor.py:206-226 | stage 2 leaves the stages `BuildStep` gives, and goes on iff its rule holds |
| PipelineExecutor.Executor.BanditStage | pipeline/pipeline_executor.py:229-248 | stage 3 leaves the stages `BanditStep` gives, and goes on iff the exit code is 0 or 1 |
| PipelineExecutor.Executor.TrivyStage | pipeline/pipeline_executor.py:251-270 | stage 4 leaves the stages `TrivyStep` gives, and goes on iff Trivy succeeded |
| PipelineExecutor.Executor.PolicyStage | pipeline/pipeline_executor.py:273-282 | the run's summary and score become the analysis of the two reports, and the stage succeeds |
| PipelineExecutor.Executor.DecisionStage | pipeline/pipeline_executor.py:285-290 | the run's verdict becomes `_evaluate_deployment` of its score and summary |
| PipelineExecutor.Executor.ConcludeRun | pipeline/pipeline_executor.py:273-293 | stages 5-6 and the decision report, as `Conclude` says |
| PipelineExecutor.Executor.ResumeAtTrivy | pipeline/pipeline_executor.py:251-293 | stage 4 on, as `RunFromTrivy` says |
| PipelineExecutor.Executor.ResumeAtBandit | pipeline/pipeline_executor.py:229-293 | stage 3 on, as `RunFromBandit` says |
| PipelineExecutor.Executor.ResumeAtBuild | pipeline/pipeline_executor.py:206-293 | stage 2 on, as `RunFromBuild` says |
| PipelineExecutor.Executor.ResumeAtClone | pipeline/pipeline_executor.py:186-293 | the whole `try` block, as `Execute` says |
| PipelineExecutor.Executor.Start | pipeline/pipeline_executor.py:179-181 | the run goes RUNNING and the history is saved |
| PipelineExecutor.Executor.Finish | pipeline/pipeline_executor.py:295-316 | the run ends SUCCESS or FAILED, its snapshot replaces its history record, and the history is saved |
| PipelineExecutor.Executor.RunPipeline | pipeline/pipeline_executor.py:176-322 | the stages, results and status of the run are those of `Execute`: SUCCESS exactly when it gets through, else FAILED; the final snapshot is in history and saved |
| PipelineExecutor.Executor.GetPipeline | pipeline/pipeline_executor.py:430-437 | a current run's snapshot, else the first history record with the id, else none |
| PipelineExecutor.Executor.Pipelines | pipeline/pipeline_executor.py:439-441 | `get_pipelines(limit=20)`: a prefix of the newest-first history, of length `limit` or the whole history when shorter |
| PipelineExecutor.Executor.LatestPipeline | pipeline/pipeline_executor.py:443-447 | the head of the history, and none exactly when the history is empty |
| PipelineExecutor.CountBanditReport | pipeline/pipeline_executor.py:338-353 | the Bandit loop method computes the Bandit pass |
| PipelineExecutor.CountVulns | pipeline/pipeline_executor.py:365-374 | the inner Trivy loop computes the vulnerability pass and whether it completed |
| PipelineExecutor.CountTrivyReport | pipeline/pipeline_executor.py:356-376 | the nested Trivy loops compute the Trivy pass |
| PipelineExecutor.AnalyzeVulnerabilities | pipeline/pipeline_executor.py:324-388 | the method computes `Analyze`; the total is the four graded counters and never more than the findings read; the score is at most 100, and exactly 100 iff nothing was graded |
| PipelineExecutor.After | pipeline/pipeline_executor.py:276-293 | a run's summary, score and verdict change only when the run reaches them; the decision report changes only when written |
| TrivyReportPage.FilteredSpec | dashboard/frontend/src/pages/TrivyReport.jsx:29-79 | the filtered list is an order-preserving sublist holding exactly the accepted vulnerabilities; under the initial filters it is the whole list |
| TrivyReportPage.SeverityFilterExact | dashboard/frontend/src/pages/TrivyReport.jsx:60 | a severity selection keeps exactly the vulnerabilities whose upper-cased Severity is the selection |
| TrivyReportPage.HasFixFilterExact | dashboard/frontend/src/pages/TrivyReport.jsx:63-68 | "yes" keeps exactly those with a FixedVersion, "no" exactly those without |
| TrivyReportPage.SearchFilterExact | dashboard/frontend/src/pages/TrivyReport.jsx:69-76 | a search keeps exactly those whose lower-cased ID, package or title contains the lower-cased query; queries differing only in case select the same list |
| TrivyReportPage.CountSeverities | dashboard/frontend/src/pages/TrivyReport.jsx:82-86 | the `reduce` accumulator has exactly the upper-cased severities (UNKNOWN when missing), each with its count |
| TrivyReportPage.SeverityCountsSpec | dashboard/frontend/src/pages/Dashboard.jsx:72-76 | the counts add up to the number of vulnerabilities; the four named counts make it up except for those under other keys; the Critical/High card never exceeds the total |
| TrivyReportPage.SeverityPieSpec | dashboard/frontend/src/pages/TrivyReport.jsx:88-93 | Critical, High, Medium, Low in that order, each exactly when its count is non-zero |
| TrivyReportPage.PackageBarData | dashboard/frontend/src/pages/TrivyReport.jsx:96-105 | the bars are the package counts, sorted and cut to six, and `affected` is the number of distinct packages |
| TrivyReportPage.PackageBarDataSpec | dashboard/frontend/src/pages/TrivyReport.jsx:96-105 | at most six bars with non-increasing counts; each is the true count of a package that occurs; no package left out has more than a bar shown |
| TrivyReportPage.UnknownPackageGroup | dashboard/frontend/src/pages/TrivyReport.jsx:97 | a vulnerability without a package name is counted under "unknown" |
| TrivyReportPage.FixableCountSpec | dashboard/frontend/src/pages/TrivyReport.jsx:108 | the fixable count is at most the total; total minus fixable is the number without a fix; it equals the "yes" filter's length |
| BanditReportPage.FilteredSpec | dashboard/frontend/src/pages/BanditReport.jsx:28-75 | the filtered list is an order-preserving sublist holding exactly the accepted issues; under the initial filters it is the whole list |
| BanditReportPage.SelectFiltersExact | dashboard/frontend/src/pages/BanditReport.jsx:59-64 | the severity and confidence selections are exact matches on `issue_severity` and `issue_confidence`, letter case included |
| BanditReportPage.SearchFilterExact | dashboard/frontend/src/pages/BanditReport.jsx:65-72 | a search is a case-insensitive substring match on test name, issue text or file name |
| BanditReportPage.PiesSpec | dashboard/frontend/src/pages/BanditReport.jsx:77-87 | both pies keep High, Medium, Low in that order, each exactly when its metric is positive; a missing metric reads as 0 |
| BanditReportPage.GroupedByTest | dashboard/frontend/src/pages/BanditReport.jsx:90-94 | the `reduce` accumulator's entries, one per test key |
| BanditReportPage.GroupedByTestSpec | dashboard/frontend/src/pages/BanditReport.jsx:90-94 | one group per test key (missing name → "unknown"); each group is its key's true count, and the counts sum to the number of issues |
| BanditReportPage.TestTypeDataSpec | dashboard/frontend/src/pages/BanditReport.jsx:96-99 | the six largest test groups: as many bars as groups up to six, counts non-increasing, no group shown twice, no '_' left in a name, each bar a test key's count under its spaced name, and a group without a bar counts no more than any bar shown |
| DashboardPage.ExtractTrivyVulnerabilities | dashboard/frontend/src/pages/Dashboard.jsx:326-340 | [] without data; otherwise the in-order concatenation of each result's `Vulnerabilities`, skipping results without them |
| DashboardPage.CombinedSeverityTotal | dashboard/frontend/src/pages/Dashboard.jsx:78-83 | the four combined counters hold every Bandit severity metric plus every Trivy vulnerability with a named severity |
| DashboardPage.CombinedSeveritySources | dashboard/frontend/src/pages/Dashboard.jsx:78-121 | Critical comes from Trivy alone; High, Medium and Low add the Bandit metrics to the Trivy counts; the critical-issues figure is Trivy's Critical/High plus Bandit's high metric |
| DashboardPage.SeverityPieSpec | dashboard/frontend/src/pages/Dashboard.jsx:85-87 | the pie keeps Critical, High, Medium, Low in order, each exactly when positive |
| DashboardPage.ScoresSpec | dashboard/frontend/src/pages/Dashboard.jsx:60-98 | the overall and per-source scores lie in 0..100; the total counts exactly the findings scored; no findings give 100 and A+; any finding brings the overall score to 90 or less |
| DashboardPage.OverallBetweenSources | dashboard/frontend/src/pages/Dashboard.jsx:90-98 | when both scanners report findings, the overall score lies between the code and container scores |
| PipelinePage.RunStyleSpec | dashboard/frontend/src/pages/Pipeline.jsx:26-43 | an unknown run status is shown as queued; only running spins; every server status has its own style |
| PipelinePage.StageStyleSpec | dashboard/frontend/src/pages/Pipeline.jsx:34-60 | an unknown stage status is shown as pending; only running spins; every stage status has its own style |
| PipelinePage.ShownStagesSpec | dashboard/frontend/src/pages/Pipeline.jsx:79-85 | always the six stages in the server's execution order, whatever the object's key order; a missing stage shows as its key, pending |
| PipelinePage.ConnectorsSpec | dashboard/frontend/src/pages/Pipeline.jsx:86-90 | five connectors, each green iff the stage before it is 'success' |
| PipelinePage.ServerStagesShown | dashboard/frontend/src/pages/Pipeline.jsx:78-90 | for a server run, each shown stage is its title and status, and a connector is green iff that stage succeeded |
| PipelinePage.CardSpec | dashboard/frontend/src/pages/Pipeline.jsx:139-157 | the score shows iff the run has one, green iff ≥ 70; the banner shows iff the run succeeded with a verdict, and reads approved iff deployable |
| PipelinePage.PollingSpec | dashboard/frontend/src/pages/Pipeline.jsx:340-346 | polling every 3000 ms is on iff some listed run is queued or running |
| PipelinePage.FindById | dashboard/frontend/src/pages/Pipeline.jsx:320 | `find` returns the first run with the id, and nothing iff none has it |
| PipelinePage.ReloadedSpec | dashboard/frontend/src/pages/Pipeline.jsx:308-331 | after a load, loading is off; a failed fetch sets the error and keeps the list and selection; the list is the response's or []; every decision reads the selection the callback captured, not the one current when the fetch returns: with none captured the first run is selected, over any click made meanwhile; a captured finished run leaves the current selection; a captured active run is replaced by the fresh snapshot with its id, and otherwise the current selection stays; with no click in between, the selected run keeps its id |
| PipelinePage.PipelineView.constructor | dashboard/frontend/src/pages/Pipeline.jsx:301-305 | the page starts with no runs, no selection, loading and no error |
| PipelinePage.PipelineView.LoadPipelines | dashboard/frontend/src/pages/Pipeline.jsx:308-331 | `loadPipelines` resolving: the page state moves as `Reloaded` says, for the captured selection and the state at the time of the response |
| PipelinePage.PipelineView.Select | dashboard/frontend/src/pages/Pipeline.jsx:425 | a card click selects that run and changes nothing else |
| PipelinePage.ClickDuringFetchOverwritten | dashboard/frontend/src/pages/Pipeline.jsx:308-316 | a run clicked while a fetch started with no selection is in flight is replaced by the first listed run |

## Left out

- Clocks, uuids, threads, subprocesses and files:
  - Timestamps and durations are reduced to "recorded or not".
  - The run id is a parameter.
  - `git`, `docker`, `bandit` and `trivy` runs are given as their outcomes.
  - The report files are given parsed, with `None` when missing or unreadable.
  - `run_pipeline_async` and the work-directory cleanup are not modelled; their only effects are concurrency and the filesystem.
- Stage `logs` and `error` texts are `Message` values whose `Text()` renders the source's strings.
- `to_dict()` returns a fresh snapshot; aliasing between a run and its history record is not modelled.
- Records read back from the history file are assumed to carry an `id`.
- Only the fixed thresholds in the source are modelled, not a configurable policy. No server code for one exists.
- `PipelineStatus.CANCELLED` is kept as a value but never assigned, as in the source.
- `Math.round` is modelled as exact rational rounding half up. At an exact .5 quotient, floating-point division could round differently.
- `toUpperCase`/`toLowerCase` in the pages and Python's `str.upper()` in the executor's severity counting (pipeline/pipeline_executor.py:344, 366) map ASCII letters only. Python and JavaScript case-map all of Unicode (`'hıgh'.upper()` is `'HIGH'`), so a label with non-ASCII letters can be counted by the source under a severity the model does not give it.
- Helpers.TruncateTextShape (and `Helpers.TruncateText`): strings are sequences of Unicode scalar values, so `length` and `substring` count characters, while JavaScript counts UTF-16 code units; for text outside the Basic Multilingual Plane (`truncateText("😀😀", 3)`) the source can cut a surrogate pair and treats the text as longer than the model does.
- Tally.EntriesOf (and `Tally.Tally`): entries come in first-occurrence order. JavaScript lists integer-like keys (such as "2" and "10") first, in ascending numeric order, and only then the other keys in insertion order. The sort in `TrivyReportPage.PackageBarData` and `BanditReportPage.TestTypeData` is stable, so for numeric package or test names two bars with equal counts can come in a different order than the model's; the properties in `Tally.RankedSpec`, `TrivyReportPage.PackageBarDataSpec` and `BanditReportPage.TestTypeDataSpec` hold whatever the tie order.
- PipelineExecutor.Executor.Save: the executor saves the corrected slice `RecentSlice(history)` (`pipeline_history[:50]`), not the `pipeline_history[-50:]` of pipeline/pipeline_executor.py:113, so its `saved` clause, and the `saved` clauses of `Snapshot`, `UpdateStage`, `UpdateStageKey`, the six stage methods, `Start`, `Finish` and `RunPipeline`, describe the intended program; what the code as written saves is `PipelineModel.TailSlice`, and the Findings table shows where they differ.
- PipelineExecutor.Executor.CreatePipeline: the new run's name is the corrected `PipelineModel.RepoName`, not the `.replace('.git', '')` of pipeline/pipeline_executor.py:123 (`PipelineModel.RepoNameAsWritten`), and `saved[0] == p.Record()` holds of the corrected slice only; as written, a history longer than 50 runs does not save the new run (`PipelineModel.TailSliceNeverSavesNewRun`).
- JavaScript object keys inherited from the prototype (e.g. a severity named "constructor") are not modelled.
- `Dashboard.jsx`:
  - The radar's constant categories (lines 99-102), the `vulnerabilityByType` bars (106-109) and the mock trend data (112-119) are fixed numbers, so they are not modelled.
  - `getSecurityGrade`'s colours are modelled, but icons and markup are not.
- `TrivyReport.jsx`: the size formatting in megabytes is float formatting, so it is not modelled. The export and details views are not modelled either.
- `BanditReport.jsx`: the "Across N files" figure (line 163) is not modelled.
- `Pipeline.jsx`:
  - `handleTrigger` and the network calls are not modelled.
  - The timer itself is not modelled; `PollInterval` is the rule that decides whether it runs.
  - Which selection a `loadPipelines` callback captured (the one of the render that created it through `useCallback`, or of the render that started the interval) is a parameter of `PipelineView.LoadPipelines`.
  - A response whose body is null is not modelled, nor are the counters shown in the details panel.
- `DecisionEngine`:
  - the JSON loading and the decision file written by `main` are not modelled;
  - the exit code `main` returns is not modelled.

## Findings

| source | as written | input that shows it | evidently intended | confidence | as-written member | corrected member |
|---|---|---|---|---|---|---|
| pipeline/pipeline_executor.py:113 | `pipeline_history[-50:]` keeps the last 50 entries of a list whose newest run is at index 0 (`insert(0, …)` at line 145), so it saves the 50 oldest runs | a history of 51 runs: the newest one is not written to the file | keep the 50 most recent runs (the comment on the line), i.e. `pipeline_history[:50]` | high, not executed | PipelineModel.TailSliceNeverSavesNewRun | PipelineModel.RecentSliceKeepsNewest |
| pipeline/pipeline_executor.py:123 | `.replace('.git', '')` deletes ".git" anywhere in the last path segment | `https://github.com/user/user.github.io` gives the repository name `userhub.io` | strip a trailing ".git" only | medium, not executed | PipelineModel.RepoNameAsWrittenMangles | PipelineModel.RepoNameRoundTrip |
