/**
 * The derivations of the Trivy report page: the flattened vulnerability
 * list, the filter bar, the counts per severity and per package, the pie
 * and bar chart data and the number of vulnerabilities with a fix.
 */
module TrivyReportPage {

  import opened Text
  import opened Reports
  import opened Lists
  import opened Tally

  /**
   * The filter bar. `severity` and `hasfix` hold the value of a select,
   * `"all"` meaning no filtering; `hasfix` filters on `"yes"` and `"no"`.
   */
  datatype Filters = Filters(severity: string, hasfix: string, search: string)

  /** The select value that switches a filter off. */
  const All := "all"

  /** The filters the page starts with. */
  const InitialFilters := Filters(All, All, "")

  /** A vulnerability has a fix when its `FixedVersion` is a non-empty string. */
  predicate HasFix(v: TrivyVuln) {
    Truthy(v.fixedVersion)
  }

  /** The callback of `vulnerabilities.filter(...)`, its early returns in order. */
  predicate Matches(filters: Filters, v: TrivyVuln) {
    if filters.severity != All && !(v.severity.Present? && Upper(v.severity.value) == filters.severity) then false
    else if filters.hasfix == "yes" && !HasFix(v) then false
    else if filters.hasfix == "no" && HasFix(v) then false
    else if filters.search != "" then
      var query := Lower(filters.search);
      FieldIncludes(v.vulnerabilityId, query) || FieldIncludes(v.pkgName, query) || FieldIncludes(v.title, query)
    else true
  }

  /** `filteredVulnerabilities`. */
  function Filtered(vulns: seq<TrivyVuln>, filters: Filters): seq<TrivyVuln> {
    Filter(vulns, v => Matches(filters, v))
  }

  /**
   * The filtered list keeps, in their order, exactly the vulnerabilities
   * the filters accept, and under the initial filters it is the whole list.
   */
  lemma FilteredSpec(vulns: seq<TrivyVuln>, filters: Filters)
    ensures Sublist(Filtered(vulns, filters), vulns)
    ensures forall v :: v in Filtered(vulns, filters) <==> v in vulns && Matches(filters, v)
    ensures Filtered(vulns, InitialFilters) == vulns
  {
    FilterSublist(vulns, v => Matches(filters, v));
    forall v ensures v in Filtered(vulns, filters) <==> v in vulns && Matches(filters, v) {
      FilterMember(vulns, v => Matches(filters, v), v);
    }
    FilterAll(vulns, v => Matches(InitialFilters, v));
  }

  /** A severity selection keeps exactly the vulnerabilities whose upper-cased `Severity` is the selection. */
  lemma SeverityFilterExact(vulns: seq<TrivyVuln>, severity: string)
    requires severity != All
    ensures forall v :: v in Filtered(vulns, Filters(severity, All, "")) <==>
              v in vulns && v.severity.Present? && Upper(v.severity.value) == severity
  {
    FilterSpec(vulns, v => Matches(Filters(severity, All, ""), v));
  }

  /** `hasfix` "yes" keeps exactly the vulnerabilities with a fix, "no" exactly those without. */
  lemma HasFixFilterExact(vulns: seq<TrivyVuln>)
    ensures forall v :: v in Filtered(vulns, Filters(All, "yes", "")) <==> v in vulns && HasFix(v)
    ensures forall v :: v in Filtered(vulns, Filters(All, "no", "")) <==> v in vulns && !HasFix(v)
  {
    FilterSpec(vulns, v => Matches(Filters(All, "yes", ""), v));
    FilterSpec(vulns, v => Matches(Filters(All, "no", ""), v));
  }

  /**
   * A non-empty search keeps exactly the vulnerabilities whose lower-cased
   * ID, package name or title contains the lower-cased query, and queries
   * that differ only in letter case select the same list.
   */
  lemma SearchFilterExact(vulns: seq<TrivyVuln>, query: string, other: string)
    requires query != ""
    ensures forall v :: v in Filtered(vulns, Filters(All, All, query)) <==>
              v in vulns && (FieldIncludes(v.vulnerabilityId, Lower(query)) ||
                             FieldIncludes(v.pkgName, Lower(query)) || FieldIncludes(v.title, Lower(query)))
    ensures forall f: Filters :: Lower(other) == Lower(f.search) ==>
              Filtered(vulns, Filters(f.severity, f.hasfix, other)) == Filtered(vulns, f)
  {
    FilterSpec(vulns, v => Matches(Filters(All, All, query), v));
    forall f: Filters | Lower(other) == Lower(f.search)
      ensures Filtered(vulns, Filters(f.severity, f.hasfix, other)) == Filtered(vulns, f)
    {
      assert |other| == |f.search|;
      FilterExt(vulns, v => Matches(Filters(f.severity, f.hasfix, other), v), v => Matches(f, v));
    }
  }

  // ---------------------------------------------------------------------
  // Severity counts

  /** `vuln.Severity?.toUpperCase() || 'UNKNOWN'`: the key a vulnerability is counted under. */
  function SeverityKey(v: TrivyVuln): (k: string)
    ensures k != ""
  {
    if Truthy(v.severity) then Upper(v.severity.value) else Unknown
  }

  const Unknown := "UNKNOWN"

  function SeverityKeys(vulns: seq<TrivyVuln>): (ks: seq<string>)
    ensures |ks| == |vulns|
    ensures forall i :: 0 <= i < |vulns| ==> ks[i] == SeverityKey(vulns[i])
  {
    seq(|vulns|, i requires 0 <= i < |vulns| => SeverityKey(vulns[i]))
  }

  /** The number of vulnerabilities counted under `k`. */
  function SeverityCount(vulns: seq<TrivyVuln>, k: string): nat {
    multiset(SeverityKeys(vulns))[k]
  }

  /** `severityCounts`: the accumulator of the `reduce`; `counts[k] || 0` reads the count under `k`. */
  method CountSeverities(vulns: seq<TrivyVuln>) returns (counts: map<string, nat>)
    ensures forall k :: k in counts <==> exists i :: 0 <= i < |vulns| && SeverityKey(vulns[i]) == k
    ensures forall k :: Lookup(counts, k) == SeverityCount(vulns, k)
  {
    var keys := SeverityKeys(vulns);
    var order: seq<string>;
    order, counts := Tally.Tally(keys);
    forall k ensures k in counts <==> exists i :: 0 <= i < |vulns| && SeverityKey(vulns[i]) == k {
      if k in keys {
        var i :| 0 <= i < |keys| && keys[i] == k;
        assert SeverityKey(vulns[i]) == k;
      }
    }
    forall k ensures Lookup(counts, k) == SeverityCount(vulns, k) {
      if k !in counts {
        assert k !in multiset(keys);
      }
    }
  }

  /** The severities the charts and cards name, in the order the pie lists them. */
  const NamedSeverities: seq<string> := ["CRITICAL", "HIGH", "MEDIUM", "LOW"]

  /** The "Critical/High" card: vulnerabilities counted under CRITICAL or HIGH. */
  function CriticalHigh(vulns: seq<TrivyVuln>): nat {
    SeverityCount(vulns, "CRITICAL") + SeverityCount(vulns, "HIGH")
  }

  /**
   * All counts add up to the number of vulnerabilities; the four named
   * severities add up to it less the vulnerabilities counted under another
   * key (UNKNOWN, NEGLIGIBLE, ...), so the "Critical/High" card never
   * exceeds the total.
   */
  lemma SeverityCountsSpec(vulns: seq<TrivyVuln>)
    ensures SumCounts(Entries(SeverityKeys(vulns))) == |vulns|
    ensures SeverityCount(vulns, "CRITICAL") + SeverityCount(vulns, "HIGH") +
            SeverityCount(vulns, "MEDIUM") + SeverityCount(vulns, "LOW") +
            |Filter(SeverityKeys(vulns), k => k !in NamedSeverities)| == |vulns|
    ensures CriticalHigh(vulns) <= |vulns|
  {
    EntriesSumToLength(SeverityKeys(vulns));
    SumOverFour("CRITICAL", "HIGH", "MEDIUM", "LOW", SeverityKeys(vulns));
  }

  /** The four pie entries before zeros are dropped. */
  function SeveritySlices(vulns: seq<TrivyVuln>): seq<Slice> {
    [Slice("Critical", SeverityCount(vulns, "CRITICAL")), Slice("High", SeverityCount(vulns, "HIGH")),
     Slice("Medium", SeverityCount(vulns, "MEDIUM")), Slice("Low", SeverityCount(vulns, "LOW"))]
  }

  /** `severityPieData`: Critical, High, Medium, Low with their counts, zeros dropped. */
  function SeverityPie(vulns: seq<TrivyVuln>): seq<Slice> {
    Pie(SeveritySlices(vulns))
  }

  /** The pie lists the four severities in their fixed order, each exactly when its count is non-zero. */
  lemma SeverityPieSpec(vulns: seq<TrivyVuln>)
    ensures Sublist(SeverityPie(vulns), SeveritySlices(vulns))
    ensures forall s :: s in SeverityPie(vulns) <==> s in SeveritySlices(vulns) && s.value > 0
  {
    PieSpec(SeveritySlices(vulns));
  }

  // ---------------------------------------------------------------------
  // Packages

  /** `vuln.PkgName || 'unknown'`: the key a vulnerability is grouped under. */
  function PackageKey(v: TrivyVuln): string {
    if Truthy(v.pkgName) then v.pkgName.value else "unknown"
  }

  function PackageKeys(vulns: seq<TrivyVuln>): (ks: seq<string>)
    ensures |ks| == |vulns|
    ensures forall i :: 0 <= i < |vulns| ==> ks[i] == PackageKey(vulns[i])
  {
    seq(|vulns|, i requires 0 <= i < |vulns| => PackageKey(vulns[i]))
  }

  /**
   * `packageCounts` built by the `reduce`, then `packageBarData`: its
   * entries sorted by count, largest first, cut to six; `affected` is the
   * number of keys of `packageCounts`.
   */
  method PackageBarData(vulns: seq<TrivyVuln>) returns (bars: seq<Entry>, affected: nat)
    ensures bars == Ranked(PackageKeys(vulns), 6)
    ensures affected == |Distinct(PackageKeys(vulns))|
  {
    var es := EntriesOf(PackageKeys(vulns));
    bars := Take(SortDesc(es), 6);
    affected := |es|;
  }

  /**
   * At most six bars, counts non-increasing, each bar the number of
   * vulnerabilities grouped under its name, and no package left out has more vulnerabilities than a
   * bar shown.
   */
  lemma PackageBarDataSpec(vulns: seq<TrivyVuln>)
    ensures |Ranked(PackageKeys(vulns), 6)| <= 6
    ensures NonIncreasing(Ranked(PackageKeys(vulns), 6))
    ensures forall e :: e in Ranked(PackageKeys(vulns), 6) ==>
              e.count == multiset(PackageKeys(vulns))[e.name] &&
              exists i :: 0 <= i < |vulns| && PackageKey(vulns[i]) == e.name
    ensures forall k :: k in PackageKeys(vulns) ==>
              (exists i :: 0 <= i < |Ranked(PackageKeys(vulns), 6)| && Ranked(PackageKeys(vulns), 6)[i].name == k) ||
              (forall i :: 0 <= i < |Ranked(PackageKeys(vulns), 6)| ==>
                 Ranked(PackageKeys(vulns), 6)[i].count >= multiset(PackageKeys(vulns))[k])
  {
    var keys := PackageKeys(vulns);
    RankedSpec(keys, 6);
    forall e | e in Ranked(keys, 6) ensures exists i :: 0 <= i < |vulns| && PackageKey(vulns[i]) == e.name {
      var i :| 0 <= i < |keys| && keys[i] == e.name;
      assert PackageKey(vulns[i]) == e.name;
    }
  }

  /** Every vulnerability without a package name is counted in the "unknown" group. */
  lemma UnknownPackageGroup(vulns: seq<TrivyVuln>, i: nat)
    requires i < |vulns| && !Truthy(vulns[i].pkgName)
    ensures multiset(PackageKeys(vulns))["unknown"] > 0
  {
    assert PackageKeys(vulns)[i] == "unknown";
    assert PackageKeys(vulns)[i] in multiset(PackageKeys(vulns));
  }

  // ---------------------------------------------------------------------
  // Fixable

  /** `fixableCount`: the vulnerabilities with a fix. */
  function FixableCount(vulns: seq<TrivyVuln>): nat {
    |Filter(vulns, HasFix)|
  }

  /**
   * The fixable count is at most the total; the card's "without fix"
   * figure is the number without a fix; and the count is what the
   * `hasfix` "yes" filter shows.
   */
  lemma FixableCountSpec(vulns: seq<TrivyVuln>)
    ensures FixableCount(vulns) <= |vulns|
    ensures |vulns| - FixableCount(vulns) == |Filter(vulns, v => !HasFix(v))|
    ensures FixableCount(vulns) == |Filtered(vulns, Filters(All, "yes", ""))|
  {
    FilterPartition(vulns, HasFix, v => !HasFix(v));
    FilterExt(vulns, HasFix, v => Matches(Filters(All, "yes", ""), v));
  }
}
