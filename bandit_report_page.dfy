/**
 * The derivations of the Bandit report page: the issue list, the filter
 * bar, the severity and confidence pies drawn from the metric totals, and
 * the issues grouped by test with the six largest groups as bars.
 */
module BanditReportPage {

  import opened Text
  import opened Reports
  import opened Lists
  import opened Tally

  /** `data?.results || []`. */
  function Results(data: Field<BanditReport>): seq<BanditIssue> {
    if data.Present? then OrEmpty(data.value.results) else []
  }

  /** `data?.metrics?._totals || {}`: every metric missing when there are no totals. */
  function Metrics(data: Field<BanditReport>): BanditTotals {
    if data.Present? && data.value.totals.Present? then data.value.totals.value
    else BanditTotals(Absent, Absent, Absent, Absent, Absent, Absent)
  }

  /**
   * The filter bar. `severity` and `confidence` hold the value of a select,
   * `"all"` meaning no filtering.
   */
  datatype Filters = Filters(severity: string, confidence: string, search: string)

  /** The select value that switches a filter off. */
  const All := "all"

  /** The filters the page starts with. */
  const InitialFilters := Filters(All, All, "")

  /** The callback of `results.filter(...)`, its early returns in order. */
  predicate Matches(filters: Filters, issue: BanditIssue) {
    if filters.severity != All && issue.issueSeverity != Present(filters.severity) then false
    else if filters.confidence != All && issue.issueConfidence != Present(filters.confidence) then false
    else if filters.search != "" then
      var query := Lower(filters.search);
      FieldIncludes(issue.testName, query) || FieldIncludes(issue.issueText, query) || FieldIncludes(issue.filename, query)
    else true
  }

  /** `filteredResults`. */
  function Filtered(results: seq<BanditIssue>, filters: Filters): seq<BanditIssue> {
    Filter(results, v => Matches(filters, v))
  }

  /**
   * The filtered list keeps, in their order, exactly the issues the
   * filters accept, and under the initial filters it is the whole list.
   */
  lemma FilteredSpec(results: seq<BanditIssue>, filters: Filters)
    ensures Sublist(Filtered(results, filters), results)
    ensures forall v :: v in Filtered(results, filters) <==> v in results && Matches(filters, v)
    ensures Filtered(results, InitialFilters) == results
  {
    FilterSublist(results, v => Matches(filters, v));
    forall v ensures v in Filtered(results, filters) <==> v in results && Matches(filters, v) {
      FilterMember(results, v => Matches(filters, v), v);
    }
    FilterAll(results, v => Matches(InitialFilters, v));
  }

  /**
   * Without a search, the severity and confidence selections keep exactly
   * the issues whose `issue_severity` and `issue_confidence` are the
   * selected strings, letter case included.
   */
  lemma SelectFiltersExact(results: seq<BanditIssue>, severity: string, confidence: string)
    ensures forall v :: v in Filtered(results, Filters(severity, confidence, "")) <==>
              v in results &&
              (severity == All || v.issueSeverity == Present(severity)) &&
              (confidence == All || v.issueConfidence == Present(confidence))
  {
    forall v ensures v in Filtered(results, Filters(severity, confidence, "")) <==>
                       v in results && Matches(Filters(severity, confidence, ""), v) {
      FilterMember(results, v => Matches(Filters(severity, confidence, ""), v), v);
    }
  }

  /**
   * A non-empty search keeps exactly the issues whose lower-cased test
   * name, issue text or file name contains the lower-cased query, and
   * queries that differ only in letter case select the same list.
   */
  lemma SearchFilterExact(results: seq<BanditIssue>, query: string, other: string)
    requires query != ""
    ensures forall v :: v in Filtered(results, Filters(All, All, query)) <==>
              v in results && (FieldIncludes(v.testName, Lower(query)) ||
                               FieldIncludes(v.issueText, Lower(query)) || FieldIncludes(v.filename, Lower(query)))
    ensures forall f: Filters :: Lower(other) == Lower(f.search) ==>
              Filtered(results, Filters(f.severity, f.confidence, other)) == Filtered(results, f)
  {
    forall v ensures v in Filtered(results, Filters(All, All, query)) <==>
                       v in results && Matches(Filters(All, All, query), v) {
      FilterMember(results, v => Matches(Filters(All, All, query), v), v);
    }
    forall f: Filters | Lower(other) == Lower(f.search)
      ensures Filtered(results, Filters(f.severity, f.confidence, other)) == Filtered(results, f)
    {
      assert |other| == |f.search|;
      FilterExt(results, v => Matches(Filters(f.severity, f.confidence, other), v), v => Matches(f, v));
    }
  }

  // ---------------------------------------------------------------------
  // Pies

  /** The three severity entries before zeros are dropped, `metrics[...] || 0`. */
  function SeveritySlices(m: BanditTotals): seq<Slice> {
    [Slice("High", OrZero(m.severityHigh)), Slice("Medium", OrZero(m.severityMedium)), Slice("Low", OrZero(m.severityLow))]
  }

  /** The three confidence entries before zeros are dropped. */
  function ConfidenceSlices(m: BanditTotals): seq<Slice> {
    [Slice("High", OrZero(m.confidenceHigh)), Slice("Medium", OrZero(m.confidenceMedium)), Slice("Low", OrZero(m.confidenceLow))]
  }

  /**
   * `severityPieData` and `confidencePieData` keep High, Medium, Low in
   * that order, each exactly when its metric is positive; a missing metric
   * reads as 0 and is dropped.
   */
  lemma PiesSpec(m: BanditTotals)
    ensures Sublist(Pie(SeveritySlices(m)), SeveritySlices(m))
    ensures forall s :: s in Pie(SeveritySlices(m)) <==> s in SeveritySlices(m) && s.value > 0
    ensures Sublist(Pie(ConfidenceSlices(m)), ConfidenceSlices(m))
    ensures forall s :: s in Pie(ConfidenceSlices(m)) <==> s in ConfidenceSlices(m) && s.value > 0
  {
    PieSpec(SeveritySlices(m));
    PieSpec(ConfidenceSlices(m));
  }

  // ---------------------------------------------------------------------
  // Test types

  /** `vuln.test_name || 'unknown'`: the key an issue is grouped under. */
  function TestKey(issue: BanditIssue): string {
    if Truthy(issue.testName) then issue.testName.value else "unknown"
  }

  function TestKeys(results: seq<BanditIssue>): (ks: seq<string>)
    ensures |ks| == |results|
    ensures forall i :: 0 <= i < |results| ==> ks[i] == TestKey(results[i])
  {
    seq(|results|, i requires 0 <= i < |results| => TestKey(results[i]))
  }

  /** `Object.entries(groupedByTest)`, the accumulator built by the `reduce`. */
  method GroupedByTest(results: seq<BanditIssue>) returns (groups: seq<Entry>)
    ensures groups == Entries(TestKeys(results))
  {
    groups := EntriesOf(TestKeys(results));
  }

  /**
   * One group per distinct test key, each counting the issues under its
   * key, the counts adding up to the number of issues.
   */
  lemma GroupedByTestSpec(results: seq<BanditIssue>)
    ensures SumCounts(Entries(TestKeys(results))) == |results|
    ensures forall e :: e in Entries(TestKeys(results)) ==>
              e.count == multiset(TestKeys(results))[e.name] &&
              exists i :: 0 <= i < |results| && TestKey(results[i]) == e.name
  {
    var keys := TestKeys(results);
    EntriesSumToLength(keys);
    forall e | e in Entries(keys)
      ensures e.count == multiset(keys)[e.name] && exists i :: 0 <= i < |results| && TestKey(results[i]) == e.name
    {
      EntriesMember(keys, e);
      var i :| 0 <= i < |keys| && keys[i] == e.name;
      assert TestKey(results[i]) == e.name;
    }
  }

  /** `name.replace(/_/g, ' ')` on each group's name. */
  function Spaced(groups: seq<Entry>): (r: seq<Entry>)
    ensures |r| == |groups|
    ensures forall i :: 0 <= i < |groups| ==> r[i] == Entry(ReplaceChar(groups[i].name, '_', ' '), groups[i].count)
  {
    seq(|groups|, i requires 0 <= i < |groups| => Entry(ReplaceChar(groups[i].name, '_', ' '), groups[i].count))
  }

  /** `testTypeData`: the groups renamed, sorted by count, largest first, cut to six. */
  function TestTypeData(results: seq<BanditIssue>): seq<Entry> {
    Take(SortDesc(Spaced(Entries(TestKeys(results)))), 6)
  }

  /** The bars are the sorted groups cut to six: as many as there are groups up to six, none repeated. */
  lemma TestTypeDataSorted(results: seq<BanditIssue>)
    ensures |TestTypeData(results)| <= 6
    ensures |TestTypeData(results)| == if |Distinct(TestKeys(results))| <= 6 then |Distinct(TestKeys(results))| else 6
    ensures NonIncreasing(TestTypeData(results))
    ensures multiset(TestTypeData(results)) <= multiset(Spaced(Entries(TestKeys(results))))
  {
    var sp := Spaced(Entries(TestKeys(results)));
    SortDescSorted(sp);
    SortDescLength(sp);
    TopEntries(sp, 6);
  }

  /** Each bar is a test key's count under that key's spaced name, with no underscore left. */
  lemma TestTypeDataNamed(results: seq<BanditIssue>)
    ensures forall e :: e in TestTypeData(results) ==> '_' !in e.name
    ensures forall e :: e in TestTypeData(results) ==>
              exists i :: 0 <= i < |results| &&
                e.name == ReplaceChar(TestKey(results[i]), '_', ' ') &&
                e.count == multiset(TestKeys(results))[TestKey(results[i])]
  {
    var keys := TestKeys(results);
    var sp := Spaced(Entries(keys));
    forall e | e in TestTypeData(results)
      ensures '_' !in e.name
      ensures exists i :: 0 <= i < |results| &&
                e.name == ReplaceChar(TestKey(results[i]), '_', ' ') &&
                e.count == multiset(keys)[TestKey(results[i])]
    {
      SortDescMember(sp, e);
      var j :| 0 <= j < |sp| && sp[j] == e;
      var g := Entries(keys)[j];
      EntriesMember(keys, g);
      var i :| 0 <= i < |keys| && keys[i] == g.name;
      assert TestKey(results[i]) == g.name;
      ReplaceCharRemoves(g.name, '_', ' ');
    }
  }

  /** A test group without a bar counts no more than any bar shown. */
  lemma TestTypeDataLeftOut(results: seq<BanditIssue>)
    ensures forall k :: k in TestKeys(results) ==>
              Entry(ReplaceChar(k, '_', ' '), multiset(TestKeys(results))[k]) in TestTypeData(results) ||
              (forall i :: 0 <= i < |TestTypeData(results)| ==> TestTypeData(results)[i].count >= multiset(TestKeys(results))[k])
  {
    var keys := TestKeys(results);
    var sp := Spaced(Entries(keys));
    TopEntries(sp, 6);
    forall k | k in keys
      ensures Entry(ReplaceChar(k, '_', ' '), multiset(keys)[k]) in sp
    {
      var d := Distinct(keys);
      var j :| 0 <= j < |d| && d[j] == k;
      assert sp[j] == Entry(ReplaceChar(k, '_', ' '), multiset(keys)[k]);
    }
  }

  /**
   * The six largest groups: as many bars as groups up to six, counts
   * non-increasing, each bar a distinct group (no group shown twice), no
   * underscore left in a name, each bar the count of a test key that
   * occurs under that key's spaced name, and a group without a bar counts
   * no more than any bar shown.
   */
  lemma TestTypeDataSpec(results: seq<BanditIssue>)
    ensures |TestTypeData(results)| <= 6
    ensures |TestTypeData(results)| == if |Distinct(TestKeys(results))| <= 6 then |Distinct(TestKeys(results))| else 6
    ensures NonIncreasing(TestTypeData(results))
    ensures multiset(TestTypeData(results)) <= multiset(Spaced(Entries(TestKeys(results))))
    ensures forall e :: e in TestTypeData(results) ==> '_' !in e.name
    ensures forall e :: e in TestTypeData(results) ==>
              exists i :: 0 <= i < |results| &&
                e.name == ReplaceChar(TestKey(results[i]), '_', ' ') &&
                e.count == multiset(TestKeys(results))[TestKey(results[i])]
    ensures forall k :: k in TestKeys(results) ==>
              Entry(ReplaceChar(k, '_', ' '), multiset(TestKeys(results))[k]) in TestTypeData(results) ||
              (forall i :: 0 <= i < |TestTypeData(results)| ==> TestTypeData(results)[i].count >= multiset(TestKeys(results))[k])
  {
    TestTypeDataSorted(results);
    TestTypeDataNamed(results);
    TestTypeDataLeftOut(results);
  }
}
