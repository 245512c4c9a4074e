/**
 * The pipeline page of the dashboard: the run list it loads and keeps the
 * selection in, the status badges, the row of six stage indicators with
 * their connectors, the score and deployment banners of a run card, and
 * the three-second refresh while a run is queued or running. The runs
 * arrive as the executor's `to_dict` records, modelled by `RunJson`.
 */
module PipelinePage {

  import opened Reports
  import PipelineModel

  /** A stage as the page reads it: its `name` and `status` strings. */
  datatype StageJson = StageJson(name: string, status: string)

  /**
   * A run as the page reads it. A key the record lacks is `Absent`, a
   * `None` on the server is `Null`.
   */
  datatype RunJson = RunJson(
    id: string,
    status: string,
    stages: map<string, StageJson>,
    securityScore: Field<int>,
    isDeployable: Field<bool>)

  const Queued := "queued"
  const Running := "running"
  const Success := "success"
  const Pending := "pending"

  // ---------------------------------------------------------------------
  // Status badges

  /** What a badge shows: its colour class, its text, and whether the icon spins. */
  datatype Style = Style(color: string, text: string, animate: bool)

  /** `statusConfig`, the badge of a run status. */
  const StatusConfig: map<string, Style> := map[
    "queued" := Style("bg-gray-500", "Queued", false),
    "running" := Style("bg-blue-500", "Running", true),
    "success" := Style("bg-green-500", "Success", false),
    "failed" := Style("bg-red-500", "Failed", false),
    "cancelled" := Style("bg-yellow-500", "Cancelled", false)]

  /** `stageStatusConfig`, the indicator of a stage status. */
  const StageStatusConfig: map<string, Style> := map[
    "pending" := Style("bg-gray-400", "Pending", false),
    "running" := Style("bg-blue-500", "Running", true),
    "success" := Style("bg-green-500", "Success", false),
    "failed" := Style("bg-red-500", "Failed", false),
    "skipped" := Style("bg-gray-300", "Skipped", false)]

  /** `StatusBadge`: `statusConfig[status] || statusConfig.queued`. */
  function RunStyle(status: string): Style {
    if status in StatusConfig then StatusConfig[status] else StatusConfig[Queued]
  }

  /** `StageIndicator`: `stageStatusConfig[stage.status] || stageStatusConfig.pending`. */
  function StageStyle(status: string): Style {
    if status in StageStatusConfig then StageStatusConfig[status] else StageStatusConfig[Pending]
  }

  /**
   * An unknown run status is drawn as queued; only a running run spins;
   * every status the executor writes has its own badge, so no two of them
   * look alike.
   */
  lemma RunStyleSpec()
    ensures forall s :: s !in StatusConfig ==> RunStyle(s) == RunStyle(Queued)
    ensures forall s :: RunStyle(s).animate <==> s == Running
    ensures forall p: PipelineModel.PipelineStatus :: p.Value() in StatusConfig
    ensures forall p: PipelineModel.PipelineStatus, q: PipelineModel.PipelineStatus ::
              RunStyle(p.Value()) == RunStyle(q.Value()) ==> p == q
  {
  }

  /**
   * An unknown stage status is drawn as pending; only a running stage
   * spins; every stage status the executor writes has its own indicator.
   */
  lemma StageStyleSpec()
    ensures forall s :: s !in StageStatusConfig ==> StageStyle(s) == StageStyle(Pending)
    ensures forall s :: StageStyle(s).animate <==> s == Running
    ensures forall p: PipelineModel.StageStatus :: p.Value() in StageStatusConfig
    ensures forall p: PipelineModel.StageStatus, q: PipelineModel.StageStatus ::
              StageStyle(p.Value()) == StageStyle(q.Value()) ==> p == q
  {
  }

  // ---------------------------------------------------------------------
  // Stage row

  /** `stageOrder`. */
  const StageOrder: seq<string> := ["clone", "build", "bandit_scan", "trivy_scan", "policy_check", "decision"]

  /** `stages[key] || { name: key, status: 'pending' }`. */
  function ShownStage(stages: map<string, StageJson>, key: string): StageJson {
    if key in stages then stages[key] else StageJson(key, Pending)
  }

  /** The six indicators of `PipelineStages`, in `stageOrder`. */
  function ShownStages(stages: map<string, StageJson>): seq<StageJson> {
    seq(6, i requires 0 <= i < 6 => ShownStage(stages, StageOrder[i]))
  }

  /** The connector after each indicator but the last: green when `stages[key]?.status === 'success'`. */
  function Connectors(stages: map<string, StageJson>): seq<bool> {
    seq(5, i requires 0 <= i < 5 => StageOrder[i] in stages && stages[StageOrder[i]].status == Success)
  }

  /**
   * The page orders the stages as the executor runs them; it shows six
   * indicators whatever the record holds, a missing stage as pending
   * under its key; and only the six known keys matter.
   */
  lemma ShownStagesSpec(stages: map<string, StageJson>)
    ensures forall i :: 0 <= i < 6 ==> StageOrder[i] == PipelineModel.StageKeys[i].Name()
    ensures |ShownStages(stages)| == 6
    ensures forall i :: 0 <= i < 6 ==>
              ShownStages(stages)[i] == (if StageOrder[i] in stages then stages[StageOrder[i]] else StageJson(StageOrder[i], Pending))
    ensures forall other: map<string, StageJson> ::
              (forall k :: k in StageOrder ==> (k in stages <==> k in other) && (k in stages ==> stages[k] == other[k])) ==>
              ShownStages(other) == ShownStages(stages)
  {
  }

  /**
   * The connector after a stage is green exactly when the indicator it
   * follows shows a successful stage; a missing stage never greens it.
   */
  lemma ConnectorsSpec(stages: map<string, StageJson>)
    ensures |Connectors(stages)| == 5
    ensures forall i :: 0 <= i < 5 ==> (Connectors(stages)[i] <==> ShownStages(stages)[i].status == Success)
  {
  }

  // ---------------------------------------------------------------------
  // The executor's records as the page receives them

  /** The `stages` dictionary of a record: each key with the stage's title and status string. */
  function StagesJson(st: PipelineModel.Stages): map<string, StageJson> {
    map name | name in StageOrder && PipelineModel.StageNamed(name).Some? && PipelineModel.StageNamed(name).value in st ::
      StageJson(st[PipelineModel.StageNamed(name).value].title, st[PipelineModel.StageNamed(name).value].status.Value())
  }

  /** A `to_dict` value field: `None` becomes JSON `null`. */
  function Nullable<T>(o: Option<T>): Field<T> {
    if o.Some? then Present(o.value) else Null
  }

  /** `to_dict` of a run, the fields the page reads. */
  function ToJson(r: PipelineModel.RunRecord): RunJson {
    RunJson(r.id, r.status.Value(), StagesJson(r.stages), Nullable(r.securityScore), Nullable(r.isDeployable))
  }

  /**
   * For a run with all six stages, each indicator shows that stage's title
   * and status, and its connector is green exactly when the stage succeeded.
   */
  lemma ServerStagesShown(st: PipelineModel.Stages)
    requires PipelineModel.HasStageKeys(st)
    ensures forall i :: 0 <= i < 6 ==>
              ShownStages(StagesJson(st))[i] ==
                StageJson(st[PipelineModel.StageKeys[i]].title, st[PipelineModel.StageKeys[i]].status.Value())
    ensures forall i :: 0 <= i < 5 ==>
              (Connectors(StagesJson(st))[i] <==> st[PipelineModel.StageKeys[i]].status == PipelineModel.StageStatus.Success)
  {
    forall i | 0 <= i < 6
      ensures StageOrder[i] in StagesJson(st)
      ensures StagesJson(st)[StageOrder[i]] ==
                StageJson(st[PipelineModel.StageKeys[i]].title, st[PipelineModel.StageKeys[i]].status.Value())
    {
      PipelineModel.StageNamedRoundTrip(PipelineModel.StageKeys[i]);
    }
  }

  // ---------------------------------------------------------------------
  // Run card and details

  /** The card's score line: shown when `security_score !== null`, a missing key included. */
  predicate ShowsScore(r: RunJson) {
    !r.securityScore.Null?
  }

  /** The score is drawn green when it is at least 70. */
  predicate ScoreGreen(r: RunJson) {
    r.securityScore.Present? && r.securityScore.value >= 70
  }

  /** The card's deployment banner: a successful run whose `is_deployable` is not `null`. */
  predicate ShowsBanner(r: RunJson) {
    r.status == Success && !r.isDeployable.Null?
  }

  /** The banner reads "Approved for Deployment" when `is_deployable` is truthy. */
  predicate Approved(r: RunJson) {
    r.isDeployable == Present(true)
  }

  /** The details panel's security summary: a successful run whose score is not `null`. */
  predicate ShowsSummary(r: RunJson) {
    r.status == Success && !r.securityScore.Null?
  }

  /**
   * On an executor record the card shows a score exactly when one was
   * computed, green exactly when it is at least 70; the banner and the
   * summary appear only for a successful run that has reached its
   * decision, and the banner approves exactly a deployable run.
   */
  lemma CardSpec(rec: PipelineModel.RunRecord)
    ensures ShowsScore(ToJson(rec)) <==> rec.securityScore.Some?
    ensures ScoreGreen(ToJson(rec)) <==> rec.securityScore.Some? && rec.securityScore.value >= 70
    ensures ShowsBanner(ToJson(rec)) <==> rec.status == PipelineModel.PipelineStatus.Success && rec.isDeployable.Some?
    ensures ShowsBanner(ToJson(rec)) ==> (Approved(ToJson(rec)) <==> rec.isDeployable == Some(true))
    ensures ShowsSummary(ToJson(rec)) <==> rec.status == PipelineModel.PipelineStatus.Success && rec.securityScore.Some?
  {
  }

  // ---------------------------------------------------------------------
  // Refresh

  /** `['running', 'queued'].includes(status)`. */
  predicate Active(status: string) {
    status == Running || status == Queued
  }

  /** `hasRunning`. */
  predicate HasRunning(pipelines: seq<RunJson>) {
    exists i :: 0 <= i < |pipelines| && Active(pipelines[i].status)
  }

  /** The refresh period, in milliseconds. */
  const PollMillis: nat := 3000

  /** The interval the effect installs, if any. */
  function PollInterval(pipelines: seq<RunJson>): Option<nat> {
    if HasRunning(pipelines) then Some(PollMillis) else None
  }

  /**
   * On a list of executor records the page polls every three seconds
   * exactly while one of the runs is queued or running, so it stops once
   * every run has succeeded or failed.
   */
  lemma PollingSpec(rs: seq<PipelineModel.RunRecord>)
    ensures var js := seq(|rs|, i requires 0 <= i < |rs| => ToJson(rs[i]));
            PollInterval(js) == Some(3000) <==>
              exists i :: 0 <= i < |rs| &&
                (rs[i].status == PipelineModel.PipelineStatus.Queued || rs[i].status == PipelineModel.PipelineStatus.Running)
    ensures var js := seq(|rs|, i requires 0 <= i < |rs| => ToJson(rs[i]));
            PollInterval(js) == None <==>
              forall i :: 0 <= i < |rs| ==> rs[i].status != PipelineModel.PipelineStatus.Queued &&
                                             rs[i].status != PipelineModel.PipelineStatus.Running
  {
    var js := seq(|rs|, i requires 0 <= i < |rs| => ToJson(rs[i]));
    forall i | 0 <= i < |rs|
      ensures Active(js[i].status) <==>
                rs[i].status == PipelineModel.PipelineStatus.Queued || rs[i].status == PipelineModel.PipelineStatus.Running
    {
    }
  }

  // ---------------------------------------------------------------------
  // Loading the list

  /** What a request for the run list gave: a failure, or the response's `pipelines` member. */
  datatype Response = Unreachable | Loaded(pipelines: Field<seq<RunJson>>)

  /** The page's state as a value. */
  datatype PageState = PageState(pipelines: seq<RunJson>, selected: Option<RunJson>, loading: bool, error: Option<string>)

  const LoadError := "Failed to load pipelines"

  /** The state the page starts in. */
  const InitialState := PageState([], None, true, None)

  /** `pipelines.find(p => p.id === id)`. */
  function FindById(ps: seq<RunJson>, id: string): (r: Option<RunJson>)
    ensures r.Some? <==> exists i :: 0 <= i < |ps| && ps[i].id == id
    ensures r.Some? ==> r.value in ps && r.value.id == id
    ensures r.Some? ==> exists i :: 0 <= i < |ps| && ps[i] == r.value && forall j :: 0 <= j < i ==> ps[j].id != id
  {
    if ps == [] then None
    else if ps[0].id == id then Some(ps[0])
    else
      var r := FindById(ps[1..], id);
      assert forall j :: 0 <= j < |ps| - 1 ==> ps[1..][j] == ps[j + 1];
      r
  }

  /**
   * `loadPipelines` as it resolves. `captured` is the selection the
   * callback closed over when it was created; `s` is the page state when
   * the awaited fetch returns, which may hold a selection clicked in the
   * meantime. The list becomes `result.pipelines || []`; the first run is
   * selected when `captured` is empty; a queued or running `captured` run
   * is replaced by its fresh copy. Every decision reads `captured`, and
   * only a branch that calls no setter leaves `s.selected` as it is. When
   * the response has no `pipelines`, the lookup throws after the list was
   * set, and the error is shown.
   */
  function Reloaded(captured: Option<RunJson>, s: PageState, response: Response): PageState {
    match response
    case Unreachable => s.(loading := false, error := Some(LoadError))
    case Loaded(f) =>
      var picked := if f.Present? && |f.value| > 0 && captured.None? then Some(f.value[0]) else s.selected;
      if captured.Some? && Active(captured.value.status) then
        if !f.Present? then PageState([], picked, false, Some(LoadError))
        else
          var updated := FindById(f.value, captured.value.id);
          PageState(f.value, if updated.Some? then updated else picked, false, s.error)
      else PageState(OrEmpty(f), picked, false, s.error)
  }

  /**
   * Every reload ends the loading state. A failed request keeps the list
   * and selection and sets the error; a response sets the list. With no
   * captured selection the first run is picked, over any run clicked
   * during the fetch; a finished captured run leaves the current selection
   * alone; a queued or running one is replaced by the first listed run
   * with its id, and the current selection stays when there is none. When
   * nothing was clicked during the fetch, a selection is never switched to
   * another run.
   */
  lemma ReloadedSpec(captured: Option<RunJson>, s: PageState, response: Response)
    ensures !Reloaded(captured, s, response).loading
    ensures response.Unreachable? ==>
              Reloaded(captured, s, response) == PageState(s.pipelines, s.selected, false, Some(LoadError))
    ensures response.Loaded? ==> Reloaded(captured, s, response).pipelines == OrEmpty(response.pipelines)
    ensures response.Loaded? && captured.None? ==>
              Reloaded(captured, s, response).selected ==
                (if response.pipelines.Present? && |response.pipelines.value| > 0 then Some(response.pipelines.value[0]) else s.selected)
    ensures captured.Some? && !Active(captured.value.status) ==> Reloaded(captured, s, response).selected == s.selected
    ensures captured.Some? && Active(captured.value.status) && response.Loaded? && response.pipelines.Present? &&
            FindById(response.pipelines.value, captured.value.id).Some? ==>
              Reloaded(captured, s, response).selected == FindById(response.pipelines.value, captured.value.id)
    ensures captured.Some? && Active(captured.value.status) &&
            (response.Unreachable? || !response.pipelines.Present? || FindById(response.pipelines.value, captured.value.id).None?) ==>
              Reloaded(captured, s, response).selected == s.selected
    ensures captured == s.selected && captured.Some? ==>
              Reloaded(captured, s, response).selected.Some? && Reloaded(captured, s, response).selected.value.id == captured.value.id
    ensures response.Loaded? ==>
              (Reloaded(captured, s, response).error == s.error ||
               (captured.Some? && Active(captured.value.status) && !response.pipelines.Present? &&
                Reloaded(captured, s, response).error == Some(LoadError)))
  {
  }

  /**
   * A run clicked while a fetch started with no selection is in flight is
   * lost: the resolving callback still sees no selection and picks the
   * first listed run instead.
   */
  lemma ClickDuringFetchOverwritten(s: PageState, clicked: RunJson, ps: seq<RunJson>)
    requires |ps| > 0 && clicked != ps[0]
    ensures Reloaded(None, s.(selected := Some(clicked)), Loaded(Present(ps))).selected != Some(clicked)
  {
  }

  /** The component's state, updated by its callbacks. */
  class PipelineView {
    var pipelines: seq<RunJson>
    var selected: Option<RunJson>
    var loading: bool
    var error: Option<string>

    function State(): PageState
      reads this
    {
      PageState(pipelines, selected, loading, error)
    }

    constructor()
      ensures State() == InitialState
    {
      pipelines := [];
      selected := None;
      loading := true;
      error := None;
    }

    /** A card's `onClick`: select that run. */
    method Select(run: RunJson)
      modifies this
      ensures State() == old(State()).(selected := Some(run))
    {
      selected := Some(run);
    }

    /**
     * `loadPipelines` resolving with `response`, for a callback created
     * while `captured` was the selection.
     */
    method LoadPipelines(captured: Option<RunJson>, response: Response)
      modifies this
      ensures State() == Reloaded(captured, old(State()), response)
    {
      match response {
        case Unreachable =>
          error := Some(LoadError);
        case Loaded(f) =>
          pipelines := OrEmpty(f);
          if f.Present? && |f.value| > 0 && captured.None? {
            selected := Some(f.value[0]);
          }
          if captured.Some? && Active(captured.value.status) {
            if !f.Present? {
              error := Some(LoadError);
            } else {
              var updated := FindById(f.value, captured.value.id);
              if updated.Some? {
                selected := updated;
              }
            }
          }
      }
      loading := false;
    }

  }
}
