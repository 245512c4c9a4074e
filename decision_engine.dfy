/**
 * The standalone CI gate (security_decision_engine.py): a subtractive score
 * over the HIGH issues of a Bandit report and the CRITICAL/HIGH
 * vulnerabilities of a Trivy report, the reasons behind every deduction,
 * and the fixed blocking policy applied to them.
 *
 * A report is `None` when its file does not exist. A present report whose
 * `results` / `Results` member holds JSON null makes the Python code iterate
 * over `None`, which raises; that outcome is `Raised`.
 */
module DecisionEngine {
  import opened Text
  import opened Reports

  /** Minimum score a deployment needs (`policy_min_score`). */
  const PolicyMinScore: nat := 70

  /** One entry of `reasons` / `failure_reasons`. */
  datatype Reason =
    | SastHigh(n: nat)
    | ImageCritical(n: nat)
    | ImageHigh(n: nat)
    | PolicyCritical
    | PolicyScoreBelow(threshold: nat)
  {
    /** The text the Python code formats for this reason. */
    function Message(): string {
      match this
      case SastHigh(n) => NatToString(n) + " HIGH issues in SAST"
      case ImageCritical(n) => NatToString(n) + " CRITICAL vulnerabilities in image"
      case ImageHigh(n) => NatToString(n) + " HIGH vulnerabilities in image"
      case PolicyCritical => "Policy: Block if any CRITICAL vulnerabilities present"
      case PolicyScoreBelow(t) => "Policy: Security score below threshold " + NatToString(t)
    }

    /** The order in which `calculate_score` and `main` append reasons. */
    function Rank(): nat {
      match this
      case SastHigh(_) => 0
      case ImageCritical(_) => 1
      case ImageHigh(_) => 2
      case PolicyCritical => 3
      case PolicyScoreBelow(_) => 3
    }
  }

  /** What `calculate_score` returns: `(score, reasons, critical_count, high_count)`. */
  datatype Assessment = Assessment(score: nat, reasons: seq<Reason>, critical: nat, high: nat)

  /** A call that returns normally, or one that raises a `TypeError`. */
  datatype Outcome<T> = Returned(value: T) | Raised

  // ---------------------------------------------------------------------
  // Counting

  /** Bandit issues whose `issue_severity` is exactly "HIGH". */
  function SastHighCount(issues: seq<BanditIssue>): nat {
    if issues == [] then 0
    else SastHighCount(issues[..|issues| - 1]) + (if issues[|issues| - 1].issueSeverity == Present("HIGH") then 1 else 0)
  }

  /** Trivy vulnerabilities whose `Severity` is exactly `lbl`. */
  function SeverityCount(vs: seq<TrivyVuln>, lbl: string): nat {
    if vs == [] then 0
    else SeverityCount(vs[..|vs| - 1], lbl) + (if vs[|vs| - 1].severity == Present(lbl) then 1 else 0)
  }

  lemma {:induction false} SeverityCountAppend(a: seq<TrivyVuln>, b: seq<TrivyVuln>, lbl: string)
    ensures SeverityCount(a + b, lbl) == SeverityCount(a, lbl) + SeverityCount(b, lbl)
    decreases |b|
  {
    if b == [] {
      assert a + b == a;
    } else {
      assert (a + b)[..|a + b| - 1] == a + b[..|b| - 1];
      SeverityCountAppend(a, b[..|b| - 1], lbl);
    }
  }

  /** The counts are bounded by the list and are zero exactly when no entry matches. */
  lemma {:induction false} SastHighCountMeaning(issues: seq<BanditIssue>)
    ensures SastHighCount(issues) <= |issues|
    ensures SastHighCount(issues) > 0 <==> exists i :: 0 <= i < |issues| && issues[i].issueSeverity == Present("HIGH")
  {
    if issues != [] {
      var p := issues[..|issues| - 1];
      SastHighCountMeaning(p);
      if exists i :: 0 <= i < |p| && p[i].issueSeverity == Present("HIGH") {
        var i :| 0 <= i < |p| && p[i].issueSeverity == Present("HIGH");
        assert issues[i] == p[i];
      }
      if exists i :: 0 <= i < |issues| && issues[i].issueSeverity == Present("HIGH") {
        var i :| 0 <= i < |issues| && issues[i].issueSeverity == Present("HIGH");
        if i < |p| {
          assert p[i] == issues[i];
        }
      }
    }
  }

  lemma {:induction false} SeverityCountMeaning(vs: seq<TrivyVuln>, lbl: string)
    ensures SeverityCount(vs, lbl) <= |vs|
    ensures SeverityCount(vs, lbl) > 0 <==> exists i :: 0 <= i < |vs| && vs[i].severity == Present(lbl)
  {
    if vs != [] {
      var p := vs[..|vs| - 1];
      SeverityCountMeaning(p, lbl);
      if exists i :: 0 <= i < |p| && p[i].severity == Present(lbl) {
        var i :| 0 <= i < |p| && p[i].severity == Present(lbl);
        assert vs[i] == p[i];
      }
      if exists i :: 0 <= i < |vs| && vs[i].severity == Present(lbl) {
        var i :| 0 <= i < |vs| && vs[i].severity == Present(lbl);
        if i < |p| {
          assert p[i] == vs[i];
        }
      }
    }
  }

  // ---------------------------------------------------------------------
  // Score and reasons

  /** 20 plus 2 per HIGH Bandit issue, when there is any. */
  function SastPenalty(h: nat): nat {
    if h > 0 then 20 + 2 * h else 0
  }

  /** A flat 40 for any CRITICAL image vulnerability, whatever their number. */
  function CriticalPenalty(c: nat): nat {
    if c > 0 then 40 else 0
  }

  /** 2 per HIGH image vulnerability, at most 20. */
  function HighPenalty(h: nat): nat {
    if h > 0 then (if 2 * h < 20 then 2 * h else 20) else 0
  }

  /** 100 minus the three penalties, floored at 0 (`max(score, 0)`). */
  function Score(sastHigh: nat, critical: nat, high: nat): nat {
    var s := 100 - SastPenalty(sastHigh) - CriticalPenalty(critical) - HighPenalty(high);
    if s < 0 then 0 else s
  }

  /** One reason per non-zero category, in the order SAST, image CRITICAL, image HIGH. */
  function ScoreReasons(sastHigh: nat, critical: nat, high: nat): seq<Reason> {
    (if sastHigh > 0 then [SastHigh(sastHigh)] else [])
    + (if critical > 0 then [ImageCritical(critical)] else [])
    + (if high > 0 then [ImageHigh(high)] else [])
  }

  /** The HIGH count of a Bandit report that is present and not null. */
  function BanditHigh(bandit: Option<BanditReport>): nat {
    if bandit.Some? then SastHighCount(OrEmpty(bandit.value.results)) else 0
  }

  /** The vulnerabilities of a Trivy report, all results flattened. */
  function ImageVulns(trivy: Option<TrivyReport>): seq<TrivyVuln> {
    if trivy.Some? then Flatten(OrEmpty(trivy.value.results)) else []
  }

  /** A present report whose result list is JSON null. */
  predicate NullResults(bandit: Option<BanditReport>, trivy: Option<TrivyReport>) {
    (bandit.Some? && bandit.value.results.Null?) || (trivy.Some? && trivy.value.results.Null?)
  }

  /** What `calculate_score(bandit_report, trivy_report)` returns. */
  function Assess(bandit: Option<BanditReport>, trivy: Option<TrivyReport>): Outcome<Assessment> {
    if NullResults(bandit, trivy) then Raised
    else
      var h := BanditHigh(bandit);
      var vs := ImageVulns(trivy);
      var c, hi := SeverityCount(vs, "CRITICAL"), SeverityCount(vs, "HIGH");
      Returned(Assessment(Score(h, c, hi), ScoreReasons(h, c, hi), c, hi))
  }

  /** The generator summed at the top of `calculate_score`. */
  method CountSastHigh(results: seq<BanditIssue>) returns (highIssues: nat)
    ensures highIssues == SastHighCount(results)
  {
    highIssues := 0;
    for i := 0 to |results|
      invariant highIssues == SastHighCount(results[..i])
    {
      assert results[..i + 1][..i] == results[..i];
      if results[i].issueSeverity == Present("HIGH") {
        highIssues := highIssues + 1;
      }
    }
    assert results[..|results|] == results;
  }

  /** The nested loop over `Results` and each result's `Vulnerabilities`. */
  method CountImage(rs: seq<TrivyResult>) returns (critical: nat, high: nat)
    ensures critical == SeverityCount(Flatten(rs), "CRITICAL")
    ensures high == SeverityCount(Flatten(rs), "HIGH")
  {
    critical, high := 0, 0;
    for i := 0 to |rs|
      invariant critical == SeverityCount(Flatten(rs[..i]), "CRITICAL")
      invariant high == SeverityCount(Flatten(rs[..i]), "HIGH")
    {
      var vs := OrEmpty(rs[i].vulnerabilities);
      var done := Flatten(rs[..i]);
      assert rs[..i + 1][..i] == rs[..i];
      assert Flatten(rs[..i + 1]) == done + vs;
      assert done + vs[..0] == done;
      for j := 0 to |vs|
        invariant critical == SeverityCount(done + vs[..j], "CRITICAL")
        invariant high == SeverityCount(done + vs[..j], "HIGH")
      {
        assert (done + vs[..j + 1])[..|done + vs[..j + 1]| - 1] == done + vs[..j];
        var sev := vs[j].severity;
        if sev == Present("CRITICAL") {
          critical := critical + 1;
        } else if sev == Present("HIGH") {
          high := high + 1;
        }
      }
      assert vs[..|vs|] == vs;
    }
    assert rs[..|rs|] == rs;
  }

  /** `calculate_score`: a counting pass over each report, then the deductions. */
  method CalculateScore(bandit: Option<BanditReport>, trivy: Option<TrivyReport>) returns (r: Outcome<Assessment>)
    ensures r == Assess(bandit, trivy)
  {
    var highIssues := 0;
    if bandit.Some? {
      if bandit.value.results.Null? {
        return Raised;
      }
      highIssues := CountSastHigh(OrEmpty(bandit.value.results));
    }
    var critical, high := 0, 0;
    if trivy.Some? {
      if trivy.value.results.Null? {
        return Raised;
      }
      critical, high := CountImage(OrEmpty(trivy.value.results));
    }
    var score, reasons := Deduct(highIssues, critical, high);
    return Returned(Assessment(score, reasons, critical, high));
  }

  /** The deductions of `calculate_score`, in the order the source applies them, then the floor at 0. */
  method Deduct(highIssues: nat, critical: nat, high: nat) returns (score: nat, reasons: seq<Reason>)
    ensures score == Score(highIssues, critical, high)
    ensures reasons == ScoreReasons(highIssues, critical, high)
  {
    var s: int := 100;
    reasons := [];
    if highIssues > 0 {
      s := s - (20 + highIssues * 2);
      reasons := reasons + [SastHigh(highIssues)];
    }
    ghost var sast := reasons;
    if critical > 0 {
      s := s - 40;
      reasons := reasons + [ImageCritical(critical)];
    }
    ghost var withCritical := reasons;
    if high > 0 {
      s := s - (if 20 < high * 2 then 20 else high * 2);
      reasons := reasons + [ImageHigh(high)];
    }
    ScoreReasonsSteps(highIssues, critical, high, sast, withCritical, reasons);
    score := if s < 0 then 0 else s;
  }

  lemma ScoreReasonsSteps(h: nat, c: nat, hi: nat, sast: seq<Reason>, withCritical: seq<Reason>, all: seq<Reason>)
    requires sast == if h > 0 then [SastHigh(h)] else []
    requires withCritical == if c > 0 then sast + [ImageCritical(c)] else sast
    requires all == if hi > 0 then withCritical + [ImageHigh(hi)] else withCritical
    ensures all == ScoreReasons(h, c, hi)
  {
  }

  /** The score starts at 100, only loses points and is floored at 0; it is 100 exactly when nothing was counted. */
  lemma ScoreRange(sastHigh: nat, critical: nat, high: nat)
    ensures 0 <= Score(sastHigh, critical, high) <= 100
    ensures Score(sastHigh, critical, high) == 100 <==> sastHigh == 0 && critical == 0 && high == 0
  {
  }

  /** Any CRITICAL vulnerability already costs 40 points, so the score is at most 60. */
  lemma CriticalCapsScore(sastHigh: nat, critical: nat, high: nat)
    requires critical > 0
    ensures Score(sastHigh, critical, high) <= 100 - 40
  {
  }

  /** More findings in any category never raise the score. */
  lemma ScoreAntitone(h: nat, c: nat, hi: nat, h': nat, c': nat, hi': nat)
    requires h <= h' && c <= c' && hi <= hi'
    ensures Score(h', c', hi') <= Score(h, c, hi)
  {
  }

  /**
   * A reason is given for a category exactly when it counted something,
   * carrying that count, and the reasons come in the order SAST, image
   * CRITICAL, image HIGH.
   */
  lemma ScoreReasonsSpec(h: nat, c: nat, hi: nat)
    ensures var rs := ScoreReasons(h, c, hi);
      (forall n :: SastHigh(n) in rs <==> h > 0 && n == h) &&
      (forall n :: ImageCritical(n) in rs <==> c > 0 && n == c) &&
      (forall n :: ImageHigh(n) in rs <==> hi > 0 && n == hi) &&
      |rs| == (if h > 0 then 1 else 0) + (if c > 0 then 1 else 0) + (if hi > 0 then 1 else 0) &&
      forall i, j :: 0 <= i < j < |rs| ==> rs[i].Rank() < rs[j].Rank()
  {
  }

  /** A missing Bandit report and one without `results` give the same result. */
  lemma MissingBanditContributesNothing(trivy: Option<TrivyReport>, totals: Field<BanditTotals>)
    ensures Assess(None, trivy) == Assess(Some(BanditReport(Absent, totals)), trivy)
    ensures Assess(None, trivy).Returned? ==>
              Assess(None, trivy).value.score == Score(0, Assess(None, trivy).value.critical, Assess(None, trivy).value.high) &&
              forall n :: SastHigh(n) !in Assess(None, trivy).value.reasons
  {
    var a := Assess(None, trivy);
    if a.Returned? {
      ScoreReasonsSpec(0, a.value.critical, a.value.high);
    }
  }

  /** Without a Trivy report nothing is counted against the image. */
  lemma MissingTrivyContributesNothing(bandit: Option<BanditReport>)
    ensures Assess(bandit, None) == Assess(bandit, Some(TrivyReport(Absent)))
    ensures Assess(bandit, None).Returned? ==>
              Assess(bandit, None).value.critical == 0 && Assess(bandit, None).value.high == 0 &&
              Assess(bandit, None).value.reasons == (if BanditHigh(bandit) > 0 then [SastHigh(BanditHigh(bandit))] else [])
  {
    assert Flatten([]) == [];
  }

  /** A result whose `Vulnerabilities` is missing or null changes nothing, wherever it stands. */
  lemma NullVulnerabilitiesContributeNothing(bandit: Option<BanditReport>, rs1: seq<TrivyResult>, v: Field<seq<TrivyVuln>>, rs2: seq<TrivyResult>)
    requires !v.Present?
    ensures Assess(bandit, Some(TrivyReport(Present(rs1 + [TrivyResult(v)] + rs2)))) == Assess(bandit, Some(TrivyReport(Present(rs1 + rs2))))
  {
    FlattenAppend(rs1 + [TrivyResult(v)], rs2);
    FlattenAppend(rs1, [TrivyResult(v)]);
    FlattenAppend(rs1, rs2);
    assert Flatten([TrivyResult(v)]) == [] by {
      assert Flatten([TrivyResult(v)]) == Flatten([]) + OrEmpty(v);
    }
    assert Flatten(rs1 + [TrivyResult(v)] + rs2) == Flatten(rs1 + rs2);
  }

  /** The engine raises exactly when a present report has a null result list. */
  lemma RaisesOnlyOnNull(bandit: Option<BanditReport>, trivy: Option<TrivyReport>)
    ensures Assess(bandit, trivy).Raised? <==> NullResults(bandit, trivy)
  {
  }

  /** The critical count is positive exactly when some image vulnerability is labelled "CRITICAL". */
  lemma CriticalCountMeaning(bandit: Option<BanditReport>, trivy: Option<TrivyReport>)
    requires Assess(bandit, trivy).Returned?
    ensures Assess(bandit, trivy).value.critical > 0 <==>
              exists i :: 0 <= i < |ImageVulns(trivy)| && ImageVulns(trivy)[i].severity == Present("CRITICAL")
  {
    SeverityCountMeaning(ImageVulns(trivy), "CRITICAL");
  }

  // ---------------------------------------------------------------------
  // Policy

  /**
   * The decision in `main`: block on any CRITICAL, otherwise block below the
   * minimum score; exactly one policy reason is appended when blocking.
   */
  method Decide(a: Assessment) returns (deploymentAllowed: bool, failureReasons: seq<Reason>)
    ensures deploymentAllowed <==> a.critical == 0 && a.score >= PolicyMinScore
    ensures deploymentAllowed ==> failureReasons == a.reasons
    ensures !deploymentAllowed ==> |failureReasons| == |a.reasons| + 1 && failureReasons[..|a.reasons|] == a.reasons
    ensures !deploymentAllowed ==>
              failureReasons[|a.reasons|] == if a.critical > 0 then PolicyCritical else PolicyScoreBelow(PolicyMinScore)
  {
    var blockIfAnyCritical := true;
    deploymentAllowed := true;
    failureReasons := a.reasons;
    if blockIfAnyCritical && a.critical > 0 {
      deploymentAllowed := false;
      failureReasons := failureReasons + [PolicyCritical];
    } else if a.score < PolicyMinScore {
      deploymentAllowed := false;
      failureReasons := failureReasons + [PolicyScoreBelow(PolicyMinScore)];
    }
  }

  /**
   * For any assessment the engine computes, the CRITICAL rule never blocks a
   * deployment the score would allow: allowed iff the score reaches 70.
   */
  lemma AllowedIffScoreReachesMinimum(bandit: Option<BanditReport>, trivy: Option<TrivyReport>)
    requires Assess(bandit, trivy).Returned?
    ensures var a := Assess(bandit, trivy).value;
      (a.critical == 0 && a.score >= PolicyMinScore) <==> a.score >= PolicyMinScore
  {
    var a := Assess(bandit, trivy).value;
    if a.critical > 0 {
      CriticalCapsScore(BanditHigh(bandit), a.critical, a.high);
    }
  }
}
