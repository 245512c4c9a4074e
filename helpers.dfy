/**
 * The client's shared helpers (dashboard/frontend/src/utils/helpers.js):
 * severity badge and colour lookups, text truncation, the weighted risk
 * score over a mixed list of findings and the letter grade of a score.
 */
module Helpers {
  import opened Text
  import opened Reports
  import opened Lists

  function Min(a: int, b: int): int {
    if a <= b then a else b
  }

  // ---------------------------------------------------------------------
  // Severity lookups

  /** The four labels both lookup tables know. */
  predicate IsKnownLabel(lbl: string) {
    lbl == "CRITICAL" || lbl == "HIGH" || lbl == "MEDIUM" || lbl == "LOW"
  }

  /** `getSeverityBadgeClass`: a case-insensitive lookup falling back to `badge-info`. */
  function SeverityBadgeClass(severity: Field<string>): (cls: string)
    ensures cls == "badge-info" <==> !(severity.Present? && IsKnownLabel(Upper(severity.value)))
  {
    if !severity.Present? then "badge-info"
    else
      var lbl := Upper(severity.value);
      if lbl == "CRITICAL" then "badge-critical"
      else if lbl == "HIGH" then "badge-high"
      else if lbl == "MEDIUM" then "badge-medium"
      else if lbl == "LOW" then "badge-low"
      else "badge-info"
  }

  /** The badge depends on the lbl only up to ASCII case. */
  lemma BadgeIgnoresCase(s: string)
    ensures SeverityBadgeClass(Present(s)) == SeverityBadgeClass(Present(Upper(s)))
  {
    UpperIdempotent(s);
  }

  datatype Colors = Colors(bg: string, text: string, border: string)

  const UnknownColors := Colors("bg-gray-500", "text-gray-400", "border-gray-500")

  /** `getSeverityColor`: a case-insensitive lookup falling back to the UNKNOWN colours. */
  function SeverityColor(severity: Field<string>): (c: Colors)
    ensures c == UnknownColors <==> !(severity.Present? && IsKnownLabel(Upper(severity.value)))
  {
    if !severity.Present? then UnknownColors
    else
      var lbl := Upper(severity.value);
      if lbl == "CRITICAL" then Colors("bg-red-500", "text-red-400", "border-red-500")
      else if lbl == "HIGH" then Colors("bg-orange-500", "text-orange-400", "border-orange-500")
      else if lbl == "MEDIUM" then Colors("bg-yellow-500", "text-yellow-400", "border-yellow-500")
      else if lbl == "LOW" then Colors("bg-green-500", "text-green-400", "border-green-500")
      else UnknownColors
  }

  /** The colours depend on the lbl only up to ASCII case. */
  lemma ColorIgnoresCase(s: string)
    ensures SeverityColor(Present(s)) == SeverityColor(Present(Upper(s)))
  {
    UpperIdempotent(s);
  }

  // ---------------------------------------------------------------------
  // Text truncation

  /**
   * `truncateText(text, maxLength = 100)`: a falsy text gives '', a text
   * that fits is returned as it is, a longer one is cut to `maxLength`
   * characters (`substring` treats a negative end as 0) and gets '...'.
   */
  function TruncateText(text: Field<string>, maxLength: int := 100): (r: string)
  {
    if !Truthy(text) then ""
    else if |text.value| <= maxLength then text.value
    else text.value[..if maxLength < 0 then 0 else maxLength] + "..."
  }

  /**
   * What a truncation returns: nothing for a falsy text, the text itself
   * when it fits, otherwise a proper prefix of it followed by '...', never
   * longer than the limit plus the three dots.
   */
  lemma TruncateTextShape(text: Field<string>, maxLength: int)
    ensures !Truthy(text) ==> TruncateText(text, maxLength) == ""
    ensures Truthy(text) && |text.value| <= maxLength ==> TruncateText(text, maxLength) == text.value
    ensures Truthy(text) && |text.value| > maxLength ==>
              var r := TruncateText(text, maxLength);
              var keep := if maxLength < 0 then 0 else maxLength;
              |r| == keep + 3 && r[..keep] == text.value[..keep] && r[keep..] == "..."
  {
  }

  /** Truncating a truncated text changes nothing. */
  lemma TruncateTextIdempotent(text: Field<string>, maxLength: int)
    ensures TruncateText(Present(TruncateText(text, maxLength)), maxLength) == TruncateText(text, maxLength)
  {
    var r := TruncateText(text, maxLength);
    if Truthy(text) && |text.value| > maxLength {
      var keep := if maxLength < 0 then 0 else maxLength;
      assert r[..keep] == text.value[..keep];
      assert r != "";
    }
  }

  // ---------------------------------------------------------------------
  // Risk score

  /** `vuln.Severity?.toUpperCase() || vuln.issue_severity?.toUpperCase() || 'LOW'`. */
  function RiskLabel(f: Finding): string {
    if Truthy(f.Severity()) then Upper(f.Severity().value)
    else if Truthy(f.IssueSeverity()) then Upper(f.IssueSeverity().value)
    else "LOW"
  }

  /** `weights[severity] || 1`. */
  function Weight(lbl: string): (w: nat)
    ensures 1 <= w <= 10
  {
    if lbl == "CRITICAL" then 10
    else if lbl == "HIGH" then 7
    else if lbl == "MEDIUM" then 4
    else 1
  }

  function FindingWeight(f: Finding): nat {
    Weight(RiskLabel(f))
  }

  /** The `totalScore` the loop accumulates. */
  function TotalWeight(fs: seq<Finding>): nat {
    if fs == [] then 0 else TotalWeight(fs[..|fs| - 1]) + FindingWeight(fs[|fs| - 1])
  }

  /** `Math.round(a / b)` for non-negative `a` and positive `b`: half rounds up. */
  function RoundDiv(a: nat, b: nat): nat
    requires b > 0
  {
    (2 * a + b) / (2 * b)
  }

  /**
   * `calculateRiskScore`: 0 for an empty list, otherwise the rounded
   * percentage of the achieved weight against `10 * count` (every finding
   * CRITICAL), capped at 100.
   */
  function RiskScore(fs: seq<Finding>): nat {
    if |fs| == 0 then 0 else Min(100, RoundDiv(100 * TotalWeight(fs), |fs| * 10))
  }

  method CalculateRiskScore(vulnerabilities: seq<Finding>) returns (score: nat)
    ensures score == RiskScore(vulnerabilities)
    ensures score <= 100
  {
    if |vulnerabilities| == 0 {
      return 0;
    }
    var totalScore := 0;
    var maxPossible := |vulnerabilities| * 10;
    for i := 0 to |vulnerabilities|
      invariant totalScore == TotalWeight(vulnerabilities[..i])
    {
      assert vulnerabilities[..i + 1][..i] == vulnerabilities[..i];
      totalScore := totalScore + Weight(RiskLabel(vulnerabilities[i]));
    }
    assert vulnerabilities[..|vulnerabilities|] == vulnerabilities;
    score := Min(100, RoundDiv(100 * totalScore, maxPossible));
  }

  lemma {:induction false} TotalWeightBounds(fs: seq<Finding>)
    ensures |fs| <= TotalWeight(fs) <= 10 * |fs|
  {
    if fs != [] {
      TotalWeightBounds(fs[..|fs| - 1]);
    }
  }

  lemma MulLe(d: int, x: int, y: int)
    requires d > 0 && x <= y
    ensures d * x <= d * y
  {
  }

  lemma DivBetween(a: int, d: int, q: int)
    requires d > 0 && d * q <= a < d * q + d
    ensures a / d == q
  {
    var r := a / d;
    assert d * r <= a < d * r + d;
    if r < q {
      MulLe(d, r, q - 1);
    } else if r > q {
      MulLe(d, q + 1, r);
    }
  }

  lemma DivMonotone(a: int, b: int, d: int)
    requires d > 0 && 0 <= a <= b
    ensures a / d <= b / d
  {
    var qa, qb := a / d, b / d;
    assert d * qa <= a && b < d * qb + d;
    if qa > qb {
      MulLe(d, qb + 1, qa);
    }
  }

  lemma RoundedPercentRange(t: nat, n: nat)
    requires 0 < n <= t <= 10 * n
    ensures 10 <= RoundDiv(100 * t, n * 10) <= 100
  {
    var a, d := 200 * t + 10 * n, 20 * n;
    assert RoundDiv(100 * t, n * 10) == a / d;
    DivMonotone(a, 2010 * n, d);
    DivBetween(2010 * n, d, 100);
    DivMonotone(210 * n, a, d);
    DivBetween(210 * n, d, 10);
  }

  /** For a non-empty list the score lies between 10 (all weight 1) and 100 (all CRITICAL). */
  lemma RiskScoreRange(fs: seq<Finding>)
    ensures RiskScore(fs) <= 100
    ensures |fs| > 0 ==> 10 <= RiskScore(fs)
  {
    if |fs| > 0 {
      TotalWeightBounds(fs);
      RoundedPercentRange(TotalWeight(fs), |fs|);
    }
  }

  lemma RoundedPercentUniform(n: nat)
    requires n > 0
    ensures RoundDiv(100 * (10 * n), n * 10) == 100
    ensures RoundDiv(100 * (1 * n), n * 10) == 10
  {
    DivBetween(2010 * n, 20 * n, 100);
    DivBetween(210 * n, 20 * n, 10);
  }

  lemma RoundedPercentMonotone(t: nat, t': nat, n: nat)
    requires n > 0 && t <= t'
    ensures RoundDiv(100 * t, n * 10) <= RoundDiv(100 * t', n * 10)
  {
    DivMonotone(200 * t + 10 * n, 200 * t' + 10 * n, 20 * n);
  }

  /** An all-CRITICAL list scores 100 and an all-LOW list scores 10. */
  lemma RiskScoreExtremes(fs: seq<Finding>)
    requires |fs| > 0
    ensures (forall i :: 0 <= i < |fs| ==> RiskLabel(fs[i]) == "CRITICAL") ==> RiskScore(fs) == 100
    ensures (forall i :: 0 <= i < |fs| ==> RiskLabel(fs[i]) == "LOW") ==> RiskScore(fs) == 10
  {
    RoundedPercentUniform(|fs|);
    if forall i :: 0 <= i < |fs| ==> RiskLabel(fs[i]) == "CRITICAL" {
      TotalWeightUniform(fs, 10);
    }
    if forall i :: 0 <= i < |fs| ==> RiskLabel(fs[i]) == "LOW" {
      TotalWeightUniform(fs, 1);
    }
  }

  lemma {:induction false} TotalWeightUniform(fs: seq<Finding>, w: nat)
    requires forall i :: 0 <= i < |fs| ==> FindingWeight(fs[i]) == w
    ensures TotalWeight(fs) == w * |fs|
  {
    if fs != [] {
      TotalWeightUniform(fs[..|fs| - 1], w);
      assert w * (|fs| - 1) + w == w * |fs|;
    }
  }

  lemma {:induction false} TotalWeightAppend(a: seq<Finding>, b: seq<Finding>)
    ensures TotalWeight(a + b) == TotalWeight(a) + TotalWeight(b)
    decreases |b|
  {
    if b != [] {
      assert (a + b)[..|a + b| - 1] == a + b[..|b| - 1];
      assert (a + b)[|a + b| - 1] == b[|b| - 1];
      TotalWeightAppend(a, b[..|b| - 1]);
    } else {
      assert a + b == a;
    }
  }

  lemma TotalWeightUpdate(fs: seq<Finding>, i: nat, f: Finding)
    requires i < |fs|
    ensures TotalWeight(fs[i := f]) == TotalWeight(fs) - FindingWeight(fs[i]) + FindingWeight(f)
  {
    assert fs == fs[..i] + [fs[i]] + fs[i + 1..];
    assert fs[i := f] == fs[..i] + [f] + fs[i + 1..];
    TotalWeightAppend(fs[..i] + [fs[i]], fs[i + 1..]);
    TotalWeightAppend(fs[..i], [fs[i]]);
    TotalWeightAppend(fs[..i] + [f], fs[i + 1..]);
    TotalWeightAppend(fs[..i], [f]);
    assert TotalWeight([f]) == FindingWeight(f) by { assert [f][..0] == []; }
    assert TotalWeight([fs[i]]) == FindingWeight(fs[i]) by { assert [fs[i]][..0] == []; }
  }

  /** Replacing one finding by one that weighs at least as much never lowers the score. */
  lemma RiskScoreMonotone(fs: seq<Finding>, i: nat, f: Finding)
    requires i < |fs| && FindingWeight(f) >= FindingWeight(fs[i])
    ensures RiskScore(fs[i := f]) >= RiskScore(fs)
  {
    TotalWeightUpdate(fs, i, f);
    RoundedPercentMonotone(TotalWeight(fs), TotalWeight(fs[i := f]), |fs|);
  }

  lemma TotalWeightRemove(b: seq<Finding>, j: nat)
    requires j < |b|
    ensures TotalWeight(b) == TotalWeight(b[..j] + b[j + 1..]) + FindingWeight(b[j])
  {
    var pre, x, post := b[..j], b[j], b[j + 1..];
    SplitAt(b, j);
    assert TotalWeight(b) == TotalWeight(pre + [x]) + TotalWeight(post) by {
      TotalWeightAppend(pre + [x], post);
    }
    assert TotalWeight(pre + [x]) == TotalWeight(pre) + FindingWeight(x) by {
      assert (pre + [x])[..|pre + [x]| - 1] == pre;
    }
    assert TotalWeight(pre + post) == TotalWeight(pre) + TotalWeight(post) by {
      TotalWeightAppend(pre, post);
    }
  }

  lemma {:induction false} TotalWeightPermutation(a: seq<Finding>, b: seq<Finding>)
    requires multiset(a) == multiset(b)
    ensures TotalWeight(a) == TotalWeight(b)
    decreases |a|
  {
    if a != [] {
      var j := MatchLast(a, b);
      var a', b' := a[..|a| - 1], b[..j] + b[j + 1..];
      TotalWeightPermutation(a', b');
      TotalWeightRemove(b, j);
      assert TotalWeight(a) == TotalWeight(a') + FindingWeight(a[|a| - 1]);
    } else {
      assert |multiset(b)| == 0;
    }
  }

  /** The score depends on the findings, not on their order. */
  lemma RiskScoreOrderIndependent(a: seq<Finding>, b: seq<Finding>)
    requires multiset(a) == multiset(b)
    ensures RiskScore(a) == RiskScore(b)
  {
    TotalWeightPermutation(a, b);
    assert |a| == |multiset(a)| == |multiset(b)| == |b|;
  }

  /** `a1 / d1 <= a2 / d2` whenever the fractions are ordered that way. */
  lemma FloorCross(a1: int, d1: int, a2: int, d2: int)
    requires d1 > 0 && d2 > 0 && 0 <= a1 && 0 <= a2 && a1 * d2 <= a2 * d1
    ensures a1 / d1 <= a2 / d2
  {
    var q1, q2 := a1 / d1, a2 / d2;
    if q1 > q2 {
      assert d1 * q1 <= a1;
      MulLe(d2, d1 * q1, a1);
      assert d2 * (d1 * q1) == d1 * (d2 * q1);
      assert a2 < d2 * q2 + d2;
      MulLe(d2, q2 + 1, q1);
      assert a2 < d2 * q1;
      MulLe(d1, a2 + 1, d2 * q1);
      assert false;
    }
  }

  /** A smaller ratio of weight to findings never rounds to a larger percentage: `t1 / n1 <= t2 / n2`. */
  lemma RoundedPercentCross(t1: nat, n1: nat, t2: nat, n2: nat)
    requires n1 > 0 && n2 > 0 && t1 * n2 <= t2 * n1
    ensures RoundDiv(100 * t1, n1 * 10) <= RoundDiv(100 * t2, n2 * 10)
  {
    var a1, a2 := 200 * t1 + 10 * n1, 200 * t2 + 10 * n2;
    assert a1 * (20 * n2) == 4000 * (t1 * n2) + 200 * (n1 * n2);
    assert a2 * (20 * n1) == 4000 * (t2 * n1) + 200 * (n1 * n2);
    FloorCross(a1, 20 * n1, a2, 20 * n2);
  }

  /** The mediant `(ta + tb) / (na + nb)` lies between `ta / na` and `tb / nb`. */
  lemma Mediant(ta: nat, na: nat, tb: nat, nb: nat)
    requires ta * nb <= tb * na
    ensures ta * (na + nb) <= (ta + tb) * na
    ensures (ta + tb) * nb <= tb * (na + nb)
  {
    assert ta * (na + nb) == ta * na + ta * nb;
    assert (ta + tb) * na == ta * na + tb * na;
    assert (ta + tb) * nb == ta * nb + tb * nb;
    assert tb * (na + nb) == tb * na + tb * nb;
  }

  /** The capped percentage of the pooled weights lies between the two separate percentages. */
  lemma PercentBetween(ta: nat, na: nat, tb: nat, nb: nat)
    requires na > 0 && nb > 0 && ta * nb <= tb * na
    ensures Min(100, RoundDiv(100 * ta, na * 10)) <= Min(100, RoundDiv(100 * (ta + tb), (na + nb) * 10))
    ensures Min(100, RoundDiv(100 * (ta + tb), (na + nb) * 10)) <= Min(100, RoundDiv(100 * tb, nb * 10))
  {
    Mediant(ta, na, tb, nb);
    RoundedPercentCross(ta, na, ta + tb, na + nb);
    RoundedPercentCross(ta + tb, na + nb, tb, nb);
  }

  /**
   * The score of two non-empty lists taken together lies between the
   * scores of the two lists: the combined ratio is their mediant.
   */
  lemma RiskScoreBetween(a: seq<Finding>, b: seq<Finding>)
    requires |a| > 0 && |b| > 0
    ensures RiskScore(a) <= RiskScore(a + b) <= RiskScore(b) || RiskScore(b) <= RiskScore(a + b) <= RiskScore(a)
  {
    var ta, tb, na, nb := TotalWeight(a), TotalWeight(b), |a|, |b|;
    TotalWeightAppend(a, b);
    assert TotalWeight(a + b) == ta + tb && |a + b| == na + nb;
    if ta * nb <= tb * na {
      PercentBetween(ta, na, tb, nb);
    } else {
      PercentBetween(tb, nb, ta, na);
      assert tb + ta == ta + tb && nb + na == na + nb;
    }
  }

  // ---------------------------------------------------------------------
  // Grade

  datatype Grade = APlus | A | B | C | D | F
  {
    function Letter(): string {
      match this
      case APlus => "A+"
      case A => "A"
      case B => "B"
      case C => "C"
      case D => "D"
      case F => "F"
    }

    function Color(): string {
      match this
      case APlus => "text-green-400"
      case A => "text-green-400"
      case B => "text-yellow-400"
      case C => "text-orange-400"
      case D => "text-orange-500"
      case F => "text-red-400"
    }

    /** Position in the order F < D < C < B < A < A+. */
    function Rank(): nat {
      match this
      case F => 0
      case D => 1
      case C => 2
      case B => 3
      case A => 4
      case APlus => 5
    }
  }

  /** `getSecurityGrade`. */
  function SecurityGrade(score: int): Grade {
    if score >= 90 then APlus
    else if score >= 80 then A
    else if score >= 70 then B
    else if score >= 60 then C
    else if score >= 50 then D
    else F
  }

  /** Each grade covers exactly its band of scores, lower bounds inclusive. */
  lemma GradeBands(score: int)
    ensures SecurityGrade(score) == APlus <==> score >= 90
    ensures SecurityGrade(score) == A <==> 80 <= score < 90
    ensures SecurityGrade(score) == B <==> 70 <= score < 80
    ensures SecurityGrade(score) == C <==> 60 <= score < 70
    ensures SecurityGrade(score) == D <==> 50 <= score < 60
    ensures SecurityGrade(score) == F <==> score < 50
  {
  }

  /** A lower score never earns a better grade. */
  lemma GradeMonotone(lo: int, hi: int)
    requires lo <= hi
    ensures SecurityGrade(lo).Rank() <= SecurityGrade(hi).Rank()
  {
  }
}
