/**
 * The derivations of the dashboard page from the combined security
 * summary: the two finding lists, their total, the severities combined
 * across both scanners, the severity pie, and the overall and per-source
 * security scores with the grade.
 */
module DashboardPage {

  import opened Reports
  import opened Lists
  import opened Tally
  import opened Helpers
  import BanditReportPage
  import TrivyReportPage

  /** The security summary the page loads: `{bandit: ..., trivy: ...}`. */
  datatype SecuritySummary = SecuritySummary(bandit: Field<BanditReport>, trivy: Field<TrivyReport>)

  /** `data?.bandit`. */
  function Bandit(data: Field<SecuritySummary>): Field<BanditReport> {
    if data.Present? then data.value.bandit else Absent
  }

  /** `data?.trivy`. */
  function Trivy(data: Field<SecuritySummary>): Field<TrivyReport> {
    if data.Present? then data.value.trivy else Absent
  }

  /** `banditResults`: `data?.bandit?.results || []`. */
  function BanditResults(data: Field<SecuritySummary>): seq<BanditIssue> {
    BanditReportPage.Results(Bandit(data))
  }

  /** `banditMetrics`: `data?.bandit?.metrics?._totals || {}`. */
  function BanditMetrics(data: Field<SecuritySummary>): BanditTotals {
    BanditReportPage.Metrics(Bandit(data))
  }

  /** `trivyResults`. */
  function TrivyResults(data: Field<SecuritySummary>): seq<TrivyVuln> {
    Vulnerabilities(Trivy(data))
  }

  /**
   * `extractTrivyVulnerabilities`: pushes each result's `Vulnerabilities`
   * in turn, skipping results without them.
   */
  method ExtractTrivyVulnerabilities(trivyData: Field<TrivyReport>) returns (vulnerabilities: seq<TrivyVuln>)
    ensures vulnerabilities == Vulnerabilities(trivyData)
    ensures !trivyData.Present? ==> vulnerabilities == []
  {
    vulnerabilities := [];
    if trivyData.Present? && trivyData.value.results.Present? {
      var rs := trivyData.value.results.value;
      for i := 0 to |rs|
        invariant vulnerabilities == Flatten(rs[..i])
      {
        assert rs[..i + 1][..i] == rs[..i];
        if rs[i].vulnerabilities.Present? {
          vulnerabilities := vulnerabilities + rs[i].vulnerabilities.value;
        }
      }
      assert rs[..|rs|] == rs;
    }
  }

  /** `totalVulnerabilities`. */
  function TotalVulnerabilities(data: Field<SecuritySummary>): nat {
    |BanditResults(data)| + |TrivyResults(data)|
  }

  /** `allVulns`: the Bandit issues followed by the Trivy vulnerabilities. */
  function AllVulns(data: Field<SecuritySummary>): seq<Finding> {
    BanditFindings(BanditResults(data)) + TrivyFindings(TrivyResults(data))
  }

  /** The four severity counters of `combinedSeverity`. */
  datatype Severities = Severities(critical: int, high: int, medium: int, low: int)

  /**
   * `combinedSeverity`: Critical from the Trivy counts alone; High, Medium
   * and Low add the Bandit metric totals (`|| 0`) to the Trivy counts.
   */
  function CombinedSeverity(metrics: BanditTotals, trivy: seq<TrivyVuln>): Severities {
    Severities(
      TrivyReportPage.SeverityCount(trivy, "CRITICAL"),
      OrZero(metrics.severityHigh) + TrivyReportPage.SeverityCount(trivy, "HIGH"),
      OrZero(metrics.severityMedium) + TrivyReportPage.SeverityCount(trivy, "MEDIUM"),
      OrZero(metrics.severityLow) + TrivyReportPage.SeverityCount(trivy, "LOW"))
  }

  /** `criticalCount`: the "critical issues" figure. */
  function CriticalCount(c: Severities): int {
    c.critical + c.high
  }

  /**
   * The four combined counters hold every Bandit metric and every Trivy
   * vulnerability with one of the four named severities.
   */
  lemma CombinedSeverityTotal(metrics: BanditTotals, trivy: seq<TrivyVuln>)
    ensures var c := CombinedSeverity(metrics, trivy);
            c.critical + c.high + c.medium + c.low ==
              OrZero(metrics.severityHigh) + OrZero(metrics.severityMedium) + OrZero(metrics.severityLow) +
              |trivy| - |Filter(TrivyReportPage.SeverityKeys(trivy), k => k !in TrivyReportPage.NamedSeverities)|
  {
    TrivyReportPage.SeverityCountsSpec(trivy);
  }

  /**
   * Critical comes from Trivy alone; without Trivy findings the counters
   * are the Bandit metrics, and without Bandit metrics they are the Trivy
   * counts. The "critical issues" figure is the Trivy page's Critical/High
   * card plus Bandit's high-severity total.
   */
  lemma CombinedSeveritySources(metrics: BanditTotals, trivy: seq<TrivyVuln>)
    ensures CombinedSeverity(metrics, []) ==
              Severities(0, OrZero(metrics.severityHigh), OrZero(metrics.severityMedium), OrZero(metrics.severityLow))
    ensures forall other: BanditTotals :: CombinedSeverity(other, trivy).critical == CombinedSeverity(metrics, trivy).critical
    ensures CombinedSeverity(BanditTotals(Absent, Absent, Absent, Absent, Absent, Absent), trivy) ==
              Severities(TrivyReportPage.SeverityCount(trivy, "CRITICAL"), TrivyReportPage.SeverityCount(trivy, "HIGH"),
                         TrivyReportPage.SeverityCount(trivy, "MEDIUM"), TrivyReportPage.SeverityCount(trivy, "LOW"))
    ensures CriticalCount(CombinedSeverity(metrics, trivy)) ==
              TrivyReportPage.CriticalHigh(trivy) + OrZero(metrics.severityHigh)
  {
    assert TrivyReportPage.SeverityKeys([]) == [];
  }

  /** `Object.entries(combinedSeverity)` before the zero entries are dropped. */
  function SeveritySlices(c: Severities): seq<Slice> {
    [Slice("Critical", c.critical), Slice("High", c.high), Slice("Medium", c.medium), Slice("Low", c.low)]
  }

  /** `severityPieData`. */
  function SeverityPie(c: Severities): seq<Slice> {
    Pie(SeveritySlices(c))
  }

  /** The pie keeps Critical, High, Medium, Low in that order, each exactly when its counter is positive. */
  lemma SeverityPieSpec(c: Severities)
    ensures Sublist(SeverityPie(c), SeveritySlices(c))
    ensures forall s :: s in SeverityPie(c) <==> s in SeveritySlices(c) && s.value > 0
  {
    PieSpec(SeveritySlices(c));
  }

  /** `securityScore`: 100 less the risk score of all findings. */
  function SecurityScore(data: Field<SecuritySummary>): int {
    100 - RiskScore(AllVulns(data))
  }

  /** The "Code Security" radar score. */
  function CodeScore(data: Field<SecuritySummary>): int {
    100 - RiskScore(BanditFindings(BanditResults(data)))
  }

  /** The "Container Security" radar score. */
  function ContainerScore(data: Field<SecuritySummary>): int {
    100 - RiskScore(TrivyFindings(TrivyResults(data)))
  }

  /**
   * The three scores lie in 0..100; with no findings at all the page shows
   * 100 and grade A+, and a single finding brings the score to 90 or
   * less; the total counts exactly the findings the score is taken over.
   */
  lemma ScoresSpec(data: Field<SecuritySummary>)
    ensures 0 <= SecurityScore(data) <= 100
    ensures 0 <= CodeScore(data) <= 100 && 0 <= ContainerScore(data) <= 100
    ensures TotalVulnerabilities(data) == |AllVulns(data)|
    ensures TotalVulnerabilities(data) == 0 ==> SecurityScore(data) == 100 && SecurityGrade(SecurityScore(data)) == APlus
    ensures TotalVulnerabilities(data) > 0 ==> SecurityScore(data) <= 90
  {
    RiskScoreRange(AllVulns(data));
    RiskScoreRange(BanditFindings(BanditResults(data)));
    RiskScoreRange(TrivyFindings(TrivyResults(data)));
  }

  /**
   * When both scanners report findings, the overall score lies between the
   * code and the container scores.
   */
  lemma OverallBetweenSources(data: Field<SecuritySummary>)
    requires |BanditResults(data)| > 0 && |TrivyResults(data)| > 0
    ensures CodeScore(data) <= SecurityScore(data) <= ContainerScore(data) ||
            ContainerScore(data) <= SecurityScore(data) <= CodeScore(data)
  {
    RiskScoreBetween(BanditFindings(BanditResults(data)), TrivyFindings(TrivyResults(data)));
  }
}
