/**
 * The two scanner report shapes as they arrive as JSON: Bandit's
 * `{results: [...], metrics: {_totals: {...}}}` and Trivy's
 * `{Results: [{Vulnerabilities: [...]}]}`. Every key may be missing or
 * hold JSON null; the Python service and the JavaScript client react to
 * the two differently, so both are kept apart from a present value.
 */
module Reports {

  import opened Text

  datatype Option<T> = None | Some(value: T)

  /** A JSON object member: key missing, key present with null, or a value. */
  datatype Field<T> = Absent | Null | Present(value: T)

  /** Truthiness of a string member in JavaScript and Python: a non-empty string. */
  predicate Truthy(f: Field<string>) {
    f.Present? && f.value != ""
  }

  /** `x || []` (JavaScript) and `x or []` (Python) on a list member. */
  function OrEmpty<T>(f: Field<seq<T>>): seq<T> {
    if f.Present? then f.value else []
  }

  /** `x || 0` on a numeric member. */
  function OrZero(f: Field<int>): int {
    if f.Present? then f.value else 0
  }

  /** `f?.toLowerCase().includes(query)`: a missing or null member matches nothing. */
  predicate FieldIncludes(f: Field<string>, query: string) {
    f.Present? && Contains(Lower(f.value), query)
  }

  /** One entry of Bandit's `results`. */
  datatype BanditIssue = BanditIssue(
    testId: Field<string>,
    testName: Field<string>,
    issueText: Field<string>,
    filename: Field<string>,
    issueSeverity: Field<string>,
    issueConfidence: Field<string>)

  /** Bandit's `metrics._totals`. */
  datatype BanditTotals = BanditTotals(
    severityHigh: Field<int>,
    severityMedium: Field<int>,
    severityLow: Field<int>,
    confidenceHigh: Field<int>,
    confidenceMedium: Field<int>,
    confidenceLow: Field<int>)

  datatype BanditReport = BanditReport(results: Field<seq<BanditIssue>>, totals: Field<BanditTotals>)

  /** One entry of a Trivy result's `Vulnerabilities`. */
  datatype TrivyVuln = TrivyVuln(
    vulnerabilityId: Field<string>,
    pkgName: Field<string>,
    title: Field<string>,
    severity: Field<string>,
    fixedVersion: Field<string>)

  datatype TrivyResult = TrivyResult(vulnerabilities: Field<seq<TrivyVuln>>)

  datatype TrivyReport = TrivyReport(results: Field<seq<TrivyResult>>)

  /**
   * The in-order concatenation of every result's `Vulnerabilities`, a
   * missing or null list contributing nothing (`flatMap(r => r.Vulnerabilities || [])`).
   */
  function Flatten(rs: seq<TrivyResult>): (vs: seq<TrivyVuln>)
  {
    if rs == [] then [] else Flatten(rs[..|rs| - 1]) + OrEmpty(rs[|rs| - 1].vulnerabilities)
  }

  /** Flattening distributes over concatenation of result lists. */
  lemma {:induction false} FlattenAppend(a: seq<TrivyResult>, b: seq<TrivyResult>)
    ensures Flatten(a + b) == Flatten(a) + Flatten(b)
    decreases |b|
  {
    if b == [] {
      assert a + b == a;
    } else {
      assert (a + b)[..|a + b| - 1] == a + b[..|b| - 1];
      FlattenAppend(a, b[..|b| - 1]);
    }
  }

  /** The first result's list comes first. */
  lemma FlattenCons(rs: seq<TrivyResult>)
    requires rs != []
    ensures Flatten(rs) == OrEmpty(rs[0].vulnerabilities) + Flatten(rs[1..])
  {
    FlattenAppend([rs[0]], rs[1..]);
    assert [rs[0]] + rs[1..] == rs;
    assert Flatten([rs[0]]) == Flatten([]) + OrEmpty(rs[0].vulnerabilities);
  }

  /** A vulnerability of the flattened list comes from some result's list. */
  lemma {:induction false} FlattenMember(rs: seq<TrivyResult>, v: TrivyVuln)
    requires v in Flatten(rs)
    ensures exists k :: 0 <= k < |rs| && v in OrEmpty(rs[k].vulnerabilities)
    decreases |rs|
  {
    var last := rs[|rs| - 1];
    if v !in OrEmpty(last.vulnerabilities) {
      FlattenMember(rs[..|rs| - 1], v);
      var k :| 0 <= k < |rs| - 1 && v in OrEmpty(rs[..|rs| - 1][k].vulnerabilities);
      assert rs[..|rs| - 1][k] == rs[k];
    }
  }

  /** Each result's list sits, whole and in place, between the lists of the results before and after it. */
  lemma FlattenSplit(rs: seq<TrivyResult>, k: nat)
    requires k < |rs|
    ensures Flatten(rs) == Flatten(rs[..k]) + OrEmpty(rs[k].vulnerabilities) + Flatten(rs[k + 1..])
  {
    var pre, post := rs[..k + 1], rs[k + 1..];
    assert rs == pre + post;
    FlattenAppend(pre, post);
    assert pre[..k] == rs[..k];
    assert Flatten(pre) == Flatten(rs[..k]) + OrEmpty(rs[k].vulnerabilities);
  }

  /** Every vulnerability of every result reaches the flattened list. */
  lemma FlattenContains(rs: seq<TrivyResult>, k: nat, v: TrivyVuln)
    requires k < |rs| && v in OrEmpty(rs[k].vulnerabilities)
    ensures v in Flatten(rs)
  {
    FlattenSplit(rs, k);
  }

  /**
   * The vulnerabilities of a Trivy report as both client pages extract
   * them: none without a report or without `Results`, otherwise the
   * flattened `Results`.
   */
  function Vulnerabilities(report: Field<TrivyReport>): seq<TrivyVuln> {
    if report.Present? then Flatten(OrEmpty(report.value.results)) else []
  }

  /**
   * No report or no `Results` gives nothing; otherwise each result's list
   * appears whole and in result order, and a vulnerability is listed
   * exactly when some result holds it.
   */
  lemma VulnerabilitiesSpec(report: Field<TrivyReport>)
    ensures !report.Present? || !report.value.results.Present? ==> Vulnerabilities(report) == []
    ensures report.Present? && report.value.results.Present? ==>
              var rs := report.value.results.value;
              (forall k :: 0 <= k < |rs| ==>
                 Vulnerabilities(report) == Flatten(rs[..k]) + OrEmpty(rs[k].vulnerabilities) + Flatten(rs[k + 1..])) &&
              (forall v :: v in Vulnerabilities(report) <==> exists k :: 0 <= k < |rs| && v in OrEmpty(rs[k].vulnerabilities))
  {
    if report.Present? && report.value.results.Present? {
      var rs := report.value.results.value;
      forall k | 0 <= k < |rs|
        ensures Vulnerabilities(report) == Flatten(rs[..k]) + OrEmpty(rs[k].vulnerabilities) + Flatten(rs[k + 1..])
      {
        FlattenSplit(rs, k);
      }
      forall v ensures v in Vulnerabilities(report) <==> exists k :: 0 <= k < |rs| && v in OrEmpty(rs[k].vulnerabilities) {
        if v in Vulnerabilities(report) {
          FlattenMember(rs, v);
        }
        if exists k :: 0 <= k < |rs| && v in OrEmpty(rs[k].vulnerabilities) {
          var k :| 0 <= k < |rs| && v in OrEmpty(rs[k].vulnerabilities);
          FlattenContains(rs, k, v);
        }
      }
    }
  }

  /** A finding of either scanner, as the dashboard mixes them in one list. */
  datatype Finding = FromBandit(issue: BanditIssue) | FromTrivy(vuln: TrivyVuln)
  {
    /** The finding's `Severity` member (Trivy's key; Bandit issues have none). */
    function Severity(): Field<string> {
      if FromTrivy? then vuln.severity else Absent
    }

    /** The finding's `issue_severity` member (Bandit's key; Trivy findings have none). */
    function IssueSeverity(): Field<string> {
      if FromBandit? then issue.issueSeverity else Absent
    }
  }

  function BanditFindings(issues: seq<BanditIssue>): (fs: seq<Finding>)
    ensures |fs| == |issues|
    ensures forall i :: 0 <= i < |issues| ==> fs[i] == FromBandit(issues[i])
  {
    seq(|issues|, i requires 0 <= i < |issues| => FromBandit(issues[i]))
  }

  function TrivyFindings(vulns: seq<TrivyVuln>): (fs: seq<Finding>)
    ensures |fs| == |vulns|
    ensures forall i :: 0 <= i < |vulns| ==> fs[i] == FromTrivy(vulns[i])
  {
    seq(|vulns|, i requires 0 <= i < |vulns| => FromTrivy(vulns[i]))
  }
}
