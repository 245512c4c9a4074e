/**
 * Counting by key as the client pages do it with
 * `list.reduce((acc, x) => { acc[k] = (acc[k] || 0) + 1; return acc }, {})`,
 * followed by `Object.entries(...)`, `.sort((a, b) => b.count - a.count)`
 * and `.slice(0, n)`.
 */
module Tally {

  import opened Lists

  /** One `[name, count]` pair of `Object.entries(counts)`. */
  datatype Entry = Entry(name: string, count: nat)

  /** Keys in order of first occurrence: the insertion order of a JavaScript object. */
  function Distinct(keys: seq<string>): (d: seq<string>)
    ensures forall k :: k in d <==> k in keys
    ensures forall i, j :: 0 <= i < j < |d| ==> d[i] != d[j]
  {
    if keys == [] then []
    else
      var p := Distinct(keys[..|keys| - 1]);
      var x := keys[|keys| - 1];
      assert keys == keys[..|keys| - 1] + [x];
      if x in p then p else p + [x]
  }

  /** Adding a key: it is appended to the order exactly when it is new. */
  lemma DistinctSnoc(p: seq<string>, x: string)
    ensures Distinct(p + [x]) == if x in p then Distinct(p) else Distinct(p) + [x]
  {
    assert (p + [x])[..|p|] == p;
  }

  /** `counts` is the accumulator after the keys `seen`: each seen key with its number of occurrences. */
  ghost predicate Tallied(seen: seq<string>, counts: map<string, nat>) {
    (forall k :: k in counts <==> k in seen) &&
    (forall k :: k in counts ==> counts[k] == multiset(seen)[k])
  }

  /** One step of the `reduce`: `acc[k] = (acc[k] || 0) + 1`. */
  lemma TallyStep(seen: seq<string>, counts: map<string, nat>, k: string)
    requires Tallied(seen, counts)
    ensures Tallied(seen + [k], counts[k := Lookup(counts, k) + 1])
  {
    var next := counts[k := Lookup(counts, k) + 1];
    assert multiset(seen + [k]) == multiset(seen) + multiset{k};
    forall x
      ensures x in next <==> x in seen + [k]
      ensures x in next ==> next[x] == multiset(seen + [k])[x]
    {
    }
  }

  /**
   * The accumulator the `reduce` builds: its keys in insertion order and the
   * count stored under each key.
   */
  method Tally(keys: seq<string>) returns (order: seq<string>, counts: map<string, nat>)
    ensures order == Distinct(keys)
    ensures forall k :: k in counts <==> k in keys
    ensures forall k :: k in counts ==> counts[k] == multiset(keys)[k]
  {
    order, counts := [], map[];
    for i := 0 to |keys|
      invariant order == Distinct(keys[..i])
      invariant Tallied(keys[..i], counts)
    {
      var k := keys[i];
      assert keys[..i + 1] == keys[..i] + [k];
      DistinctSnoc(keys[..i], k);
      TallyStep(keys[..i], counts, k);
      if k !in counts {
        order := order + [k];
      }
      counts := counts[k := Lookup(counts, k) + 1];
    }
    assert keys[..|keys|] == keys;
  }

  /** `counts[k] || 0` on the accumulator: a key never seen reads as 0. */
  function Lookup(counts: map<string, nat>, k: string): nat {
    if k in counts then counts[k] else 0
  }

  /** `Object.entries(counts)` of the accumulator for `keys`. */
  function Entries(keys: seq<string>): (es: seq<Entry>)
    ensures |es| == |Distinct(keys)|
    ensures forall i :: 0 <= i < |es| ==> es[i] == Entry(Distinct(keys)[i], multiset(keys)[Distinct(keys)[i]])
  {
    var d := Distinct(keys);
    seq(|d|, i requires 0 <= i < |d| => Entry(d[i], multiset(keys)[d[i]]))
  }

  function SumCounts(es: seq<Entry>): nat {
    if es == [] then 0 else SumCounts(es[..|es| - 1]) + es[|es| - 1].count
  }

  function SumOver(d: seq<string>, keys: seq<string>): nat {
    if d == [] then 0 else SumOver(d[..|d| - 1], keys) + multiset(keys)[d[|d| - 1]]
  }

  lemma {:induction false} SumCountsIsSumOver(keys: seq<string>, n: nat)
    requires n <= |Distinct(keys)|
    ensures SumCounts(Entries(keys)[..n]) == SumOver(Distinct(keys)[..n], keys)
  {
    if n > 0 {
      SumCountsIsSumOver(keys, n - 1);
      assert Entries(keys)[..n][..n - 1] == Entries(keys)[..n - 1];
      assert Distinct(keys)[..n][..n - 1] == Distinct(keys)[..n - 1];
    }
  }

  /** Adding one key raises the sum over distinct names by one when the key is among them. */
  lemma {:induction false} SumOverSnoc(d: seq<string>, keys: seq<string>, x: string)
    requires forall i, j :: 0 <= i < j < |d| ==> d[i] != d[j]
    ensures SumOver(d, keys + [x]) == SumOver(d, keys) + (if x in d then 1 else 0)
  {
    if d != [] {
      var p := d[..|d| - 1];
      SumOverSnoc(p, keys, x);
      assert d == p + [d[|d| - 1]];
      assert multiset(keys + [x]) == multiset(keys) + multiset{x};
    }
  }

  lemma {:induction false} SumOverDistinct(keys: seq<string>)
    ensures SumOver(Distinct(keys), keys) == |keys|
    decreases |keys|
  {
    if keys != [] {
      var p := keys[..|keys| - 1];
      var x := keys[|keys| - 1];
      assert keys == p + [x];
      SumOverDistinct(p);
      var dp := Distinct(p);
      SumOverSnoc(dp, p, x);
      if x !in dp {
        assert Distinct(keys) == dp + [x];
        assert (dp + [x])[..|dp|] == dp;
        assert multiset(keys)[x] == multiset(p)[x] + 1;
        assert multiset(p)[x] == 0;
        SumOverPrefixUnchanged(dp, p, x);
      }
    }
  }

  lemma {:induction false} SumOverPrefixUnchanged(d: seq<string>, p: seq<string>, x: string)
    requires x !in d
    ensures SumOver(d, p + [x]) == SumOver(d, p)
  {
    if d != [] {
      SumOverPrefixUnchanged(d[..|d| - 1], p, x);
      assert multiset(p + [x]) == multiset(p) + multiset{x};
    }
  }

  /** The counts of `Object.entries` add up to the number of counted items. */
  lemma EntriesSumToLength(keys: seq<string>)
    ensures SumCounts(Entries(keys)) == |keys|
  {
    SumCountsIsSumOver(keys, |Distinct(keys)|);
    assert Entries(keys)[..|Distinct(keys)|] == Entries(keys);
    assert Distinct(keys)[..|Distinct(keys)|] == Distinct(keys);
    SumOverDistinct(keys);
  }

  /** `Object.entries` of the accumulator the `reduce` builds for `keys`. */
  method EntriesOf(keys: seq<string>) returns (es: seq<Entry>)
    ensures es == Entries(keys)
  {
    var order, counts := Tally(keys);
    es := seq(|order|, i requires 0 <= i < |order| => Entry(order[i], counts[order[i]]));
  }

  /**
   * Over a list `d` of distinct names, the counts add up to the number of
   * keys less those outside `d`.
   */
  lemma {:induction false} SumOverSplit(d: seq<string>, keys: seq<string>)
    requires forall i, j :: 0 <= i < j < |d| ==> d[i] != d[j]
    ensures SumOver(d, keys) + |Filter(keys, k => k !in d)| == |keys|
    decreases |keys|
  {
    if keys == [] {
      SumOverEmpty(d);
    } else {
      var init, x := keys[..|keys| - 1], keys[|keys| - 1];
      assert keys == init + [x];
      SumOverSplit(d, init);
      SumOverSnoc(d, init, x);
    }
  }

  /** Over four distinct names, the counts add up to the number of keys less those outside the four. */
  lemma SumOverFour(a: string, b: string, c: string, d: string, keys: seq<string>)
    requires a != b && a != c && a != d && b != c && b != d && c != d
    ensures multiset(keys)[a] + multiset(keys)[b] + multiset(keys)[c] + multiset(keys)[d] +
            |Filter(keys, k => k !in [a, b, c, d])| == |keys|
  {
    SumOverSplit([a, b, c, d], keys);
    assert [a, b, c, d][..3] == [a, b, c] && [a, b, c][..2] == [a, b] && [a, b][..1] == [a] && [a][..0] == [];
    assert SumOver([a], keys) == multiset(keys)[a];
    assert SumOver([a, b], keys) == multiset(keys)[a] + multiset(keys)[b];
    assert SumOver([a, b, c], keys) == multiset(keys)[a] + multiset(keys)[b] + multiset(keys)[c];
  }

  lemma {:induction false} SumOverEmpty(d: seq<string>)
    ensures SumOver(d, []) == 0
    decreases |d|
  {
    if d != [] {
      SumOverEmpty(d[..|d| - 1]);
    }
  }

  predicate NonIncreasing(es: seq<Entry>) {
    forall i, j :: 0 <= i < j < |es| ==> es[i].count >= es[j].count
  }

  /** Putting `h` in front of a non-increasing list whose counts are at most `h.count` keeps it non-increasing. */
  lemma ConsNonIncreasing(h: Entry, t: seq<Entry>)
    requires NonIncreasing(t)
    requires forall x :: x in t ==> x.count <= h.count
    ensures NonIncreasing([h] + t)
  {
    forall i, j | 0 <= i < j < |[h] + t| ensures ([h] + t)[i].count >= ([h] + t)[j].count {
      if i == 0 {
        assert ([h] + t)[j] == t[j - 1];
        assert t[j - 1] in t;
      } else {
        assert ([h] + t)[i] == t[i - 1] && ([h] + t)[j] == t[j - 1];
      }
    }
  }

  /** Inserts `e` after every entry whose count is at least `e.count` (so ties keep their order). */
  function InsertDesc(sorted: seq<Entry>, e: Entry): (r: seq<Entry>)
    ensures multiset(r) == multiset(sorted) + multiset{e}
  {
    if sorted == [] then [e]
    else if sorted[0].count >= e.count then
      assert sorted == [sorted[0]] + sorted[1..];
      [sorted[0]] + InsertDesc(sorted[1..], e)
    else
      [e] + sorted
  }

  lemma {:induction false} InsertDescSorted(sorted: seq<Entry>, e: Entry)
    requires NonIncreasing(sorted)
    ensures NonIncreasing(InsertDesc(sorted, e))
    decreases |sorted|
  {
    if sorted == [] {
    } else if sorted[0].count >= e.count {
      var h, t := sorted[0], sorted[1..];
      var rest := InsertDesc(t, e);
      InsertDescSorted(t, e);
      forall x | x in rest ensures x.count <= h.count {
        assert x in multiset(rest);
        if x != e {
          assert x in multiset(t);
          var j :| 0 <= j < |t| && t[j] == x;
          assert sorted[j + 1] == x;
        }
      }
      ConsNonIncreasing(h, rest);
    } else {
      forall x | x in sorted ensures x.count <= e.count {
        var j :| 0 <= j < |sorted| && sorted[j] == x;
        assert sorted[0].count >= sorted[j].count;
      }
      ConsNonIncreasing(e, sorted);
    }
  }

  /** `.sort((a, b) => b.count - a.count)`: a stable sort by count, largest first. */
  function SortDesc(es: seq<Entry>): (r: seq<Entry>)
    ensures multiset(r) == multiset(es)
  {
    if es == [] then []
    else
      assert es == es[..|es| - 1] + [es[|es| - 1]];
      InsertDesc(SortDesc(es[..|es| - 1]), es[|es| - 1])
  }

  /** The sort leaves the entries largest count first. */
  lemma {:induction false} SortDescSorted(es: seq<Entry>)
    ensures NonIncreasing(SortDesc(es))
    decreases |es|
  {
    if es != [] {
      SortDescSorted(es[..|es| - 1]);
      InsertDescSorted(SortDesc(es[..|es| - 1]), es[|es| - 1]);
    }
  }

  /** `.slice(0, n)`. */
  function Take(es: seq<Entry>, n: nat): (r: seq<Entry>)
    ensures |r| <= n && |r| <= |es|
    ensures r == es[..|r|]
  {
    if |es| <= n then es else es[..n]
  }

  /**
   * Sort-then-slice over any entry list: every bar is one of the entries,
   * none shown more often than it occurs, and an entry without a bar
   * counts no more than any bar shown.
   */
  lemma TopEntries(es: seq<Entry>, n: nat)
    ensures multiset(Take(SortDesc(es), n)) <= multiset(es)
    ensures forall e :: e in es ==>
              e in Take(SortDesc(es), n) ||
              (forall i :: 0 <= i < |Take(SortDesc(es), n)| ==> Take(SortDesc(es), n)[i].count >= e.count)
  {
    var s := SortDesc(es);
    var r := Take(s, n);
    SortDescSorted(es);
    assert s == r + s[|r|..];
    assert multiset(s) == multiset(r) + multiset(s[|r|..]);
    forall e | e in es
      ensures e in r || (forall i :: 0 <= i < |r| ==> r[i].count >= e.count)
    {
      assert e in multiset(s);
      var m :| 0 <= m < |s| && s[m] == e;
      if m < |r| {
        assert r[m] == e;
      } else {
        forall i | 0 <= i < |r| ensures r[i].count >= e.count {
          assert r[i] == s[i];
        }
      }
    }
  }

  /** The `n` largest groups, as the bar charts show them. */
  function Ranked(keys: seq<string>, n: nat): seq<Entry> {
    Take(SortDesc(Entries(keys)), n)
  }

  /** Sorting keeps the number of entries. */
  lemma SortDescLength(es: seq<Entry>)
    ensures |SortDesc(es)| == |es|
  {
    assert |multiset(SortDesc(es))| == |multiset(es)|;
  }

  /** Each entry is a key that occurs, with its number of occurrences. */
  lemma EntriesMember(keys: seq<string>, e: Entry)
    requires e in Entries(keys)
    ensures e.name in keys && e.count == multiset(keys)[e.name]
  {
  }

  /** Sorting brings in no entry of its own. */
  lemma SortDescMember(es: seq<Entry>, e: Entry)
    requires e in SortDesc(es)
    ensures e in es
  {
    assert e in multiset(SortDesc(es));
  }

  /** Each bar is the true count of a key that occurs. */
  lemma RankedCountsTrue(keys: seq<string>, n: nat)
    ensures forall e :: e in Ranked(keys, n) ==> e.name in keys && e.count == multiset(keys)[e.name]
  {
    var es := Entries(keys);
    var s := SortDesc(es);
    forall e | e in Ranked(keys, n)
      ensures e.name in keys && e.count == multiset(keys)[e.name]
    {
      assert e in s;
      assert e in multiset(s);
      assert e in es;
    }
  }

  /** A key without a bar counts no more than any bar shown. */
  lemma RankedLeftOutSmaller(keys: seq<string>, n: nat)
    ensures forall k :: k in keys ==>
              (exists i :: 0 <= i < |Ranked(keys, n)| && Ranked(keys, n)[i].name == k) ||
              (forall i :: 0 <= i < |Ranked(keys, n)| ==> Ranked(keys, n)[i].count >= multiset(keys)[k])
  {
    var es := Entries(keys);
    var s := SortDesc(es);
    var r := Ranked(keys, n);
    SortDescSorted(es);
    forall k | k in keys
      ensures (exists i :: 0 <= i < |r| && r[i].name == k) ||
              (forall i :: 0 <= i < |r| ==> r[i].count >= multiset(keys)[k])
    {
      var d := Distinct(keys);
      var j :| 0 <= j < |d| && d[j] == k;
      var e := Entry(k, multiset(keys)[k]);
      assert es[j] == e;
      assert e in multiset(s);
      var m :| 0 <= m < |s| && s[m] == e;
      if m < |r| {
        assert r[m].name == k;
      } else {
        forall i | 0 <= i < |r| ensures r[i].count >= multiset(keys)[k] {
          assert r[i] == s[i];
        }
      }
    }
  }

  /**
   * The ranked bars: at most `n`, counts non-increasing, each bar the true
   * count of a key that occurs, and every key left out counts no more than
   * any bar shown.
   */
  lemma RankedSpec(keys: seq<string>, n: nat)
    ensures |Ranked(keys, n)| <= n
    ensures |Ranked(keys, n)| == if |Distinct(keys)| <= n then |Distinct(keys)| else n
    ensures NonIncreasing(Ranked(keys, n))
    ensures forall e :: e in Ranked(keys, n) ==> e.name in keys && e.count == multiset(keys)[e.name]
    ensures forall k :: k in keys ==>
              (exists i :: 0 <= i < |Ranked(keys, n)| && Ranked(keys, n)[i].name == k) ||
              (forall i :: 0 <= i < |Ranked(keys, n)| ==> Ranked(keys, n)[i].count >= multiset(keys)[k])
  {
    SortDescSorted(Entries(keys));
    SortDescLength(Entries(keys));
    RankedCountsTrue(keys, n);
    RankedLeftOutSmaller(keys, n);
  }

  /** One `{name, value}` entry of a pie chart. */
  datatype Slice = Slice(name: string, value: int)

  predicate Positive(s: Slice) {
    s.value > 0
  }

  /** `.filter(item => item.value > 0)` on the pie entries. */
  function Pie(slices: seq<Slice>): seq<Slice> {
    Filter(slices, Positive)
  }

  /** The pie keeps, in their order, exactly the entries with a positive value. */
  lemma PieSpec(slices: seq<Slice>)
    ensures Sublist(Pie(slices), slices)
    ensures forall s :: s in Pie(slices) <==> s in slices && s.value > 0
  {
    FilterSpec(slices, Positive);
  }
}
