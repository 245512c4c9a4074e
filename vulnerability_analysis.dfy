/**
 * The executor's own reading of the two scanner reports
 * (`PipelineExecutor._analyze_vulnerabilities`), its penalty score, the
 * deployment verdict (`_evaluate_deployment`) and the reasons written into
 * the decision report (`_generate_decision_report`).
 *
 * Both report passes sit inside a `try` that swallows every exception: an
 * exception ends that pass early and keeps whatever was counted before it.
 * A report is `None` when its file is missing or is not valid JSON.
 */
module VulnerabilityAnalysis {
  import opened Text
  import opened Reports

  /** The counters of the `summary` dictionary while the reports are read. */
  datatype Counts = Counts(critical: nat, high: nat, medium: nat, low: nat, banditIssues: nat, trivyVulns: nat)
  {
    /** critical + high + medium + low: the findings that carry a known label. */
    function Graded(): nat {
      critical + high + medium + low
    }
  }

  const NoCounts := Counts(0, 0, 0, 0, 0, 0)

  /**
   * `x.get(key, '').upper()`: a missing member reads as '', a null one makes
   * `None.upper()` raise (`None` here).
   */
  function UpperOrEmpty(f: Field<string>): Option<string> {
    match f
    case Absent => Some("")
    case Null => None
    case Present(s) => Some(Upper(s))
  }

  /** The `if/elif` chain of the Bandit loop: HIGH, MEDIUM and LOW, never CRITICAL. */
  function CountBanditLabel(c: Counts, lbl: string): (r: Counts)
    ensures r.critical == c.critical && r.banditIssues == c.banditIssues && r.trivyVulns == c.trivyVulns
    ensures r.high == c.high + (if lbl == "HIGH" then 1 else 0)
    ensures r.medium == c.medium + (if lbl == "MEDIUM" then 1 else 0)
    ensures r.low == c.low + (if lbl == "LOW" then 1 else 0)
    ensures r.Graded() == c.Graded() + (if lbl in ["HIGH", "MEDIUM", "LOW"] then 1 else 0)
  {
    if lbl == "HIGH" then c.(high := c.high + 1)
    else if lbl == "MEDIUM" then c.(medium := c.medium + 1)
    else if lbl == "LOW" then c.(low := c.low + 1)
    else c
  }

  /** The `if/elif` chain of the Trivy loop: the four labels map one-to-one. */
  function CountTrivyLabel(c: Counts, lbl: string): (r: Counts)
    ensures r.banditIssues == c.banditIssues && r.trivyVulns == c.trivyVulns
    ensures r.critical == c.critical + (if lbl == "CRITICAL" then 1 else 0)
    ensures r.high == c.high + (if lbl == "HIGH" then 1 else 0)
    ensures r.medium == c.medium + (if lbl == "MEDIUM" then 1 else 0)
    ensures r.low == c.low + (if lbl == "LOW" then 1 else 0)
    ensures r.Graded() == c.Graded() + (if lbl in ["CRITICAL", "HIGH", "MEDIUM", "LOW"] then 1 else 0)
  {
    if lbl == "CRITICAL" then c.(critical := c.critical + 1)
    else if lbl == "HIGH" then c.(high := c.high + 1)
    else if lbl == "MEDIUM" then c.(medium := c.medium + 1)
    else if lbl == "LOW" then c.(low := c.low + 1)
    else c
  }

  /** The loop over Bandit's `results`, ended by the first null `issue_severity`. */
  function BanditLoop(issues: seq<BanditIssue>, c: Counts): Counts
    decreases |issues|
  {
    if issues == [] then c
    else match UpperOrEmpty(issues[0].issueSeverity)
      case None => c
      case Some(lbl) => BanditLoop(issues[1..], CountBanditLabel(c, lbl))
  }

  /**
   * The Bandit half: `bandit_issues` is `len(results)`, set before the loop;
   * a null `results` makes `len(None)` raise before anything is counted.
   */
  function BanditPass(report: Option<BanditReport>, c: Counts): Counts {
    if report.None? then c
    else match report.value.results
      case Null => c
      case Absent => c.(banditIssues := 0)
      case Present(rs) => BanditLoop(rs, c.(banditIssues := |rs|))
  }

  /** The state after a loop that an exception may have ended early. */
  datatype Pass = Pass(counts: Counts, completed: bool)

  /** The inner loop over one result's vulnerabilities, ended by the first null `Severity`. */
  function VulnLoop(vs: seq<TrivyVuln>, c: Counts): Pass
    decreases |vs|
  {
    if vs == [] then Pass(c, true)
    else match UpperOrEmpty(vs[0].severity)
      case None => Pass(c, false)
      case Some(lbl) => VulnLoop(vs[1..], CountTrivyLabel(c, lbl))
  }

  /**
   * The outer loop over Trivy's `Results`: each result first adds
   * `len(Vulnerabilities)` to `trivy_vulns` (a null list makes `len(None)`
   * raise), then counts its entries; an exception ends the whole pass.
   */
  function ResultLoop(rs: seq<TrivyResult>, c: Counts): Counts
    decreases |rs|
  {
    if rs == [] then c
    else if rs[0].vulnerabilities.Null? then c
    else
      var vs := OrEmpty(rs[0].vulnerabilities);
      var p := VulnLoop(vs, c.(trivyVulns := c.trivyVulns + |vs|));
      if p.completed then ResultLoop(rs[1..], p.counts) else p.counts
  }

  /** The Trivy half: a null `Results` raises when iterated, a missing one is empty. */
  function TrivyPass(report: Option<TrivyReport>, c: Counts): Counts {
    if report.None? then c
    else match report.value.results
      case Null => c
      case Absent => c
      case Present(rs) => ResultLoop(rs, c)
  }

  /** The dictionary `_analyze_vulnerabilities` returns. */
  datatype Summary = Summary(
    critical: nat,
    high: nat,
    medium: nat,
    low: nat,
    total: nat,
    banditIssues: nat,
    trivyVulns: nat,
    securityScore: nat)

  /** `max(0, min(100, x))`. */
  function Clamp(x: int): nat {
    if x < 0 then 0 else if x > 100 then 100 else x
  }

  /** 100 less 15 per critical, 8 per high, 3 per medium and 1 per low, clamped to 0..100. */
  function SecurityScore(critical: nat, high: nat, medium: nat, low: nat): nat {
    Clamp(100 - critical * 15 - high * 8 - medium * 3 - low * 1)
  }

  /** The score lies in 0..100 and is 100 exactly when nothing was graded. */
  lemma SecurityScoreRange(c: nat, h: nat, m: nat, l: nat)
    ensures 0 <= SecurityScore(c, h, m, l) <= 100
    ensures SecurityScore(c, h, m, l) == 100 <==> c + h + m + l == 0
  {
  }

  function Summarize(c: Counts): Summary {
    Summary(c.critical, c.high, c.medium, c.low, c.Graded(), c.banditIssues, c.trivyVulns,
            SecurityScore(c.critical, c.high, c.medium, c.low))
  }

  /** What `_analyze_vulnerabilities` returns for the two report files. */
  function Analyze(bandit: Option<BanditReport>, trivy: Option<TrivyReport>): Summary {
    Summarize(TrivyPass(trivy, BanditPass(bandit, NoCounts)))
  }

  // ---------------------------------------------------------------------
  // What the counting guarantees

  /** The Bandit loop never counts a critical and counts at most one label per issue. */
  lemma {:induction false} BanditLoopBounds(issues: seq<BanditIssue>, c: Counts)
    ensures var r := BanditLoop(issues, c);
      r.critical == c.critical && r.banditIssues == c.banditIssues && r.trivyVulns == c.trivyVulns &&
      c.Graded() <= r.Graded() <= c.Graded() + |issues|
    decreases |issues|
  {
    if issues != [] && UpperOrEmpty(issues[0].issueSeverity).Some? {
      BanditLoopBounds(issues[1..], CountBanditLabel(c, UpperOrEmpty(issues[0].issueSeverity).value));
    }
  }

  /** With no null severity and only HIGH/MEDIUM/LOW labels (in any case), every issue is counted. */
  lemma {:induction false} BanditLoopCountsAll(issues: seq<BanditIssue>, c: Counts)
    requires forall i :: 0 <= i < |issues| ==>
               issues[i].issueSeverity.Present? && Upper(issues[i].issueSeverity.value) in ["HIGH", "MEDIUM", "LOW"]
    ensures BanditLoop(issues, c).Graded() == c.Graded() + |issues|
    decreases |issues|
  {
    if issues != [] {
      BanditLoopCountsAll(issues[1..], CountBanditLabel(c, Upper(issues[0].issueSeverity.value)));
    }
  }

  lemma {:induction false} VulnLoopBounds(vs: seq<TrivyVuln>, c: Counts)
    ensures var r := VulnLoop(vs, c).counts;
      r.banditIssues == c.banditIssues && r.trivyVulns == c.trivyVulns &&
      c.Graded() <= r.Graded() <= c.Graded() + |vs|
    decreases |vs|
  {
    if vs != [] && UpperOrEmpty(vs[0].severity).Some? {
      VulnLoopBounds(vs[1..], CountTrivyLabel(c, UpperOrEmpty(vs[0].severity).value));
    }
  }

  /** Every finding the Trivy loop grades was first added to `trivy_vulns`. */
  lemma {:induction false} ResultLoopBounds(rs: seq<TrivyResult>, c: Counts)
    ensures var r := ResultLoop(rs, c);
      r.banditIssues == c.banditIssues && c.trivyVulns <= r.trivyVulns &&
      c.Graded() <= r.Graded() && r.Graded() + c.trivyVulns <= c.Graded() + r.trivyVulns
    decreases |rs|
  {
    if rs != [] && !rs[0].vulnerabilities.Null? {
      var vs := OrEmpty(rs[0].vulnerabilities);
      var c' := c.(trivyVulns := c.trivyVulns + |vs|);
      VulnLoopBounds(vs, c');
      var p := VulnLoop(vs, c');
      if p.completed {
        ResultLoopBounds(rs[1..], p.counts);
      }
    }
  }

  /**
   * The summary: `total` is the sum of the four graded counters and never
   * exceeds the findings read, and the score is 100 exactly when nothing was
   * graded.
   */
  lemma AnalyzeSpec(bandit: Option<BanditReport>, trivy: Option<TrivyReport>)
    ensures var s := Analyze(bandit, trivy);
      s.total == s.critical + s.high + s.medium + s.low &&
      s.total <= s.banditIssues + s.trivyVulns &&
      s.securityScore <= 100 &&
      (s.securityScore == 100 <==> s.total == 0)
  {
    var b := BanditPass(bandit, NoCounts);
    if bandit.Some? && bandit.value.results.Present? {
      BanditLoopBounds(bandit.value.results.value, NoCounts.(banditIssues := |bandit.value.results.value|));
    }
    assert b.Graded() <= b.banditIssues && b.trivyVulns == 0;
    var t := TrivyPass(trivy, b);
    if trivy.Some? && trivy.value.results.Present? {
      ResultLoopBounds(trivy.value.results.value, b);
    }
    assert t.banditIssues == b.banditIssues;
    assert t.Graded() <= t.banditIssues + t.trivyVulns;
    SecurityScoreRange(t.critical, t.high, t.medium, t.low);
  }

  /** A missing Trivy report leaves nothing critical; a missing Bandit report reads no issue. */
  lemma MissingReports(bandit: Option<BanditReport>, trivy: Option<TrivyReport>)
    ensures Analyze(bandit, None).critical == 0 && Analyze(bandit, None).trivyVulns == 0
    ensures Analyze(None, trivy).banditIssues == 0
  {
    var b := BanditPass(bandit, NoCounts);
    if bandit.Some? && bandit.value.results.Present? {
      BanditLoopBounds(bandit.value.results.value, NoCounts.(banditIssues := |bandit.value.results.value|));
    }
    if trivy.Some? && trivy.value.results.Present? {
      ResultLoopBounds(trivy.value.results.value, NoCounts);
    }
  }

  // ---------------------------------------------------------------------
  // Which counter each label reaches

  /** The upper-cased label of a severity member that is not null; a missing one reads as "". */
  function LabelOf(f: Field<string>): string {
    if f.Present? then Upper(f.value) else ""
  }

  /** The number of issues whose upper-cased `issue_severity` is `lbl`. */
  function BanditCount(issues: seq<BanditIssue>, lbl: string): nat
    decreases |issues|
  {
    if issues == [] then 0
    else (if LabelOf(issues[0].issueSeverity) == lbl then 1 else 0) + BanditCount(issues[1..], lbl)
  }

  /** The number of vulnerabilities whose upper-cased `Severity` is `lbl`. */
  function TrivyCount(vs: seq<TrivyVuln>, lbl: string): nat
    decreases |vs|
  {
    if vs == [] then 0
    else (if LabelOf(vs[0].severity) == lbl then 1 else 0) + TrivyCount(vs[1..], lbl)
  }

  lemma {:induction false} TrivyCountAppend(a: seq<TrivyVuln>, b: seq<TrivyVuln>, lbl: string)
    ensures TrivyCount(a + b, lbl) == TrivyCount(a, lbl) + TrivyCount(b, lbl)
    decreases |a|
  {
    if a == [] {
      assert a + b == b;
    } else {
      assert (a + b)[1..] == a[1..] + b;
      TrivyCountAppend(a[1..], b, lbl);
    }
  }

  /** `c` with each of the four counters raised by the number of vulnerabilities `vs` with its label. */
  function WithTrivy(c: Counts, vs: seq<TrivyVuln>): Counts {
    c.(critical := c.critical + TrivyCount(vs, "CRITICAL"), high := c.high + TrivyCount(vs, "HIGH"),
       medium := c.medium + TrivyCount(vs, "MEDIUM"), low := c.low + TrivyCount(vs, "LOW"))
  }

  /**
   * With no null severity the Bandit loop runs to the end and adds to each
   * of high, medium and low the number of issues whose upper-cased
   * severity is that label; critical is never touched.
   */
  lemma {:induction false} BanditLoopCountsLabels(issues: seq<BanditIssue>, c: Counts)
    requires forall i :: 0 <= i < |issues| ==> !issues[i].issueSeverity.Null?
    ensures BanditLoop(issues, c) ==
      c.(high := c.high + BanditCount(issues, "HIGH"), medium := c.medium + BanditCount(issues, "MEDIUM"),
         low := c.low + BanditCount(issues, "LOW"))
    decreases |issues|
  {
    if issues != [] {
      var lbl := LabelOf(issues[0].issueSeverity);
      assert UpperOrEmpty(issues[0].issueSeverity) == Some(lbl);
      BanditLoopCountsLabels(issues[1..], CountBanditLabel(c, lbl));
    }
  }

  /**
   * With no null severity the inner Trivy loop completes and adds to each
   * of the four counters the number of vulnerabilities with that label.
   */
  lemma {:induction false} VulnLoopCountsLabels(vs: seq<TrivyVuln>, c: Counts)
    requires forall i :: 0 <= i < |vs| ==> !vs[i].severity.Null?
    ensures VulnLoop(vs, c) == Pass(WithTrivy(c, vs), true)
    decreases |vs|
  {
    if vs != [] {
      var lbl := LabelOf(vs[0].severity);
      assert UpperOrEmpty(vs[0].severity) == Some(lbl);
      VulnLoopCountsLabels(vs[1..], CountTrivyLabel(c, lbl));
    }
  }

  /** The results' vulnerability lists joined front to back, in the order the outer loop reads them. */
  function ResultVulns(rs: seq<TrivyResult>): seq<TrivyVuln>
    decreases |rs|
  {
    if rs == [] then [] else OrEmpty(rs[0].vulnerabilities) + ResultVulns(rs[1..])
  }

  /** Joining front to back is the report's flattening. */
  lemma {:induction false} ResultVulnsIsFlatten(rs: seq<TrivyResult>)
    ensures ResultVulns(rs) == Flatten(rs)
    decreases |rs|
  {
    if rs != [] {
      ResultVulnsIsFlatten(rs[1..]);
      FlattenCons(rs);
    }
  }

  /** Counting `a` and then `b` is counting `a + b`. */
  lemma WithTrivyAppend(c: Counts, a: seq<TrivyVuln>, b: seq<TrivyVuln>)
    ensures WithTrivy(WithTrivy(c, a), b) == WithTrivy(c, a + b)
  {
    TrivyCountAppend(a, b, "CRITICAL");
    TrivyCountAppend(a, b, "HIGH");
    TrivyCountAppend(a, b, "MEDIUM");
    TrivyCountAppend(a, b, "LOW");
  }

  /** The requirements of the outer-loop lemma pass from `rs` to its first list and to the rest. */
  lemma ResultVulnsTail(rs: seq<TrivyResult>)
    requires rs != []
    requires forall k :: 0 <= k < |rs| ==> !rs[k].vulnerabilities.Null?
    requires forall v :: v in ResultVulns(rs) ==> !v.severity.Null?
    ensures forall i :: 0 <= i < |OrEmpty(rs[0].vulnerabilities)| ==> !OrEmpty(rs[0].vulnerabilities)[i].severity.Null?
    ensures forall k :: 0 <= k < |rs[1..]| ==> !rs[1..][k].vulnerabilities.Null?
    ensures forall v :: v in ResultVulns(rs[1..]) ==> !v.severity.Null?
  {
    var vs := OrEmpty(rs[0].vulnerabilities);
    var rest := ResultVulns(rs[1..]);
    assert ResultVulns(rs) == vs + rest;
    forall i | 0 <= i < |vs| ensures !vs[i].severity.Null? {
      assert vs[i] in vs + rest;
    }
    forall k | 0 <= k < |rs[1..]| ensures !rs[1..][k].vulnerabilities.Null? {
      assert rs[1..][k] == rs[k + 1];
    }
    forall v | v in rest ensures !v.severity.Null? {
      assert v in vs + rest;
    }
  }

  /** One turn of the outer loop, when the inner loop over the first result completes. */
  lemma ResultLoopUnfold(rs: seq<TrivyResult>, c: Counts)
    requires rs != [] && !rs[0].vulnerabilities.Null?
    ensures var vs := OrEmpty(rs[0].vulnerabilities);
      var p := VulnLoop(vs, c.(trivyVulns := c.trivyVulns + |vs|));
      p.completed ==> ResultLoop(rs, c) == ResultLoop(rs[1..], p.counts)
  {
  }

  /**
   * With no null list and no null severity the outer Trivy loop reads every
   * result: `trivy_vulns` grows by the number of vulnerabilities and each
   * counter by the number of them with its label.
   */
  lemma {:induction false} ResultLoopCountsLabels(rs: seq<TrivyResult>, c: Counts)
    requires forall k :: 0 <= k < |rs| ==> !rs[k].vulnerabilities.Null?
    requires forall v :: v in ResultVulns(rs) ==> !v.severity.Null?
    ensures ResultLoop(rs, c) == WithTrivy(c.(trivyVulns := c.trivyVulns + |ResultVulns(rs)|), ResultVulns(rs))
    decreases |rs|
  {
    if rs != [] {
      var vs := OrEmpty(rs[0].vulnerabilities);
      var rest := ResultVulns(rs[1..]);
      var c' := c.(trivyVulns := c.trivyVulns + |vs|);
      ResultVulnsTail(rs);
      ResultLoopUnfold(rs, c);
      VulnLoopCountsLabels(vs, c');
      var mid := WithTrivy(c', vs);
      ResultLoopCountsLabels(rs[1..], mid);
      assert ResultLoop(rs, c) == WithTrivy(mid.(trivyVulns := mid.trivyVulns + |rest|), rest);
      WithTrivyAppend(c.(trivyVulns := c.trivyVulns + |vs| + |rest|), vs, rest);
    }
  }

  /** The issues `_analyze_vulnerabilities` reads from the Bandit file. */
  function BanditIssues(report: Option<BanditReport>): seq<BanditIssue> {
    if report.Some? then OrEmpty(report.value.results) else []
  }

  /** The vulnerabilities it reads from the Trivy file, in result order. */
  function TrivyVulns(report: Option<TrivyReport>): seq<TrivyVuln> {
    if report.Some? then Flatten(OrEmpty(report.value.results)) else []
  }

  /** No JSON null where the executor's passes would raise on it. */
  predicate NoNulls(bandit: Option<BanditReport>, trivy: Option<TrivyReport>) {
    (bandit.Some? ==> !bandit.value.results.Null?) &&
    (forall i :: 0 <= i < |BanditIssues(bandit)| ==> !BanditIssues(bandit)[i].issueSeverity.Null?) &&
    (trivy.Some? ==> !trivy.value.results.Null?) &&
    (trivy.Some? ==> forall k :: 0 <= k < |OrEmpty(trivy.value.results)| ==> !OrEmpty(trivy.value.results)[k].vulnerabilities.Null?) &&
    (forall v :: v in TrivyVulns(trivy) ==> !v.severity.Null?)
  }

  /**
   * When nothing is null the summary's counters are the label counts: CRITICAL
   * comes from Trivy alone, HIGH, MEDIUM and LOW add Bandit's issues to
   * Trivy's vulnerabilities with that upper-cased label, and the two
   * totals are the numbers of issues and vulnerabilities read.
   */
  lemma AnalyzeCountsLabels(bandit: Option<BanditReport>, trivy: Option<TrivyReport>)
    requires NoNulls(bandit, trivy)
    ensures var s := Analyze(bandit, trivy); var b := BanditIssues(bandit); var t := TrivyVulns(trivy);
      s.critical == TrivyCount(t, "CRITICAL") &&
      s.high == BanditCount(b, "HIGH") + TrivyCount(t, "HIGH") &&
      s.medium == BanditCount(b, "MEDIUM") + TrivyCount(t, "MEDIUM") &&
      s.low == BanditCount(b, "LOW") + TrivyCount(t, "LOW") &&
      s.banditIssues == |b| && s.trivyVulns == |t|
  {
    var issues := BanditIssues(bandit);
    var start := NoCounts.(banditIssues := |issues|);
    BanditLoopCountsLabels(issues, start);
    var b := BanditPass(bandit, NoCounts);
    assert b == BanditLoop(issues, start);
    if trivy.Some? {
      var rs := OrEmpty(trivy.value.results);
      ResultVulnsIsFlatten(rs);
      ResultLoopCountsLabels(rs, b);
    }
  }

  /** Each counted finding lowers the score, to the floor of 0. */
  lemma SecurityScoreAntitone(c: nat, h: nat, m: nat, l: nat, c': nat, h': nat, m': nat, l': nat)
    requires c <= c' && h <= h' && m <= m' && l <= l'
    ensures SecurityScore(c', h', m', l') <= SecurityScore(c, h, m, l)
  {
  }

  // ---------------------------------------------------------------------
  // Deployment verdict

  /** `_evaluate_deployment`: blocked below 70, on any critical, or on more than five highs. */
  function EvaluateDeployment(score: int, s: Summary): (deployable: bool)
    ensures deployable <==> score >= 70 && s.critical == 0 && s.high <= 5
  {
    if score < 70 then false
    else if s.critical > 0 then false
    else if s.high > 5 then false
    else true
  }

  /**
   * For a summary the analysis produced, the rule on highs never decides
   * alone: six highs already cost 48 points, so the verdict is "score at
   * least 70 and no critical".
   */
  lemma HighRuleImpliedByScore(bandit: Option<BanditReport>, trivy: Option<TrivyReport>)
    ensures var s := Analyze(bandit, trivy);
      s.high > 5 ==> s.securityScore < 70
    ensures var s := Analyze(bandit, trivy);
      EvaluateDeployment(s.securityScore, s) <==> s.securityScore >= 70 && s.critical == 0
  {
  }

  /** One entry of the decision report's `reasons`. */
  datatype DecisionReason =
    | ScoreBelowThreshold(score: nat)
    | CriticalFound(n: nat)
    | TooManyHigh(n: nat)
  {
    function Message(): string {
      match this
      case ScoreBelowThreshold(s) => "Security score (" + NatToString(s) + ") below threshold (70)"
      case CriticalFound(n) => "Critical vulnerabilities found: " + NatToString(n)
      case TooManyHigh(n) => "Too many high vulnerabilities: " + NatToString(n)
    }

    /** The order in which the report checks the three rules. */
    function Rank(): nat {
      match this
      case ScoreBelowThreshold(_) => 0
      case CriticalFound(_) => 1
      case TooManyHigh(_) => 2
    }
  }

  /** The reasons `_generate_decision_report` lists: none for a deployable run. */
  function DecisionReasons(score: nat, s: Summary, deployable: bool): seq<DecisionReason> {
    if deployable then []
    else
      (if score < 70 then [ScoreBelowThreshold(score)] else [])
      + (if s.critical > 0 then [CriticalFound(s.critical)] else [])
      + (if s.high > 5 then [TooManyHigh(s.high)] else [])
  }

  /**
   * With the verdict `_evaluate_deployment` gives, the reasons are empty
   * exactly when the run is deployable; otherwise each violated rule is
   * listed once, with its number, in the order score, critical, high.
   */
  lemma DecisionReasonsSpec(score: nat, s: Summary)
    ensures var d := EvaluateDeployment(score, s);
      var rs := DecisionReasons(score, s, d);
      (rs == [] <==> d) &&
      (!d ==> (forall n :: ScoreBelowThreshold(n) in rs <==> score < 70 && n == score)) &&
      (!d ==> (forall n :: CriticalFound(n) in rs <==> s.critical > 0 && n == s.critical)) &&
      (!d ==> (forall n :: TooManyHigh(n) in rs <==> s.high > 5 && n == s.high)) &&
      (forall i, j :: 0 <= i < j < |rs| ==> rs[i].Rank() < rs[j].Rank())
  {
  }
}
