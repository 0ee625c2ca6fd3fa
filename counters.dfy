/**
 * `collections.Counter` as the phase aggregator uses it: a tally of string
 * keys that remembers the order in which keys were first seen, `most_common()`
 * (by count, highest first, ties in first-seen order) and the distribution
 * text built from it (nrrf4.py:202-204).
 */
module Counters {
  import opened Text

  datatype Tally = Tally(key: string, count: nat)

  /** Entries in first-seen order; `Wf` says keys are distinct and counts positive. */
  type Counter = seq<Tally>

  predicate Wf(c: Counter) {
    && (forall i :: 0 <= i < |c| ==> c[i].count > 0)
    && (forall i, j :: 0 <= i < j < |c| ==> c[i].key != c[j].key)
  }

  function CountOf(c: Counter, k: string): nat {
    if |c| == 0 then 0 else (if c[0].key == k then c[0].count else 0) + CountOf(c[1..], k)
  }

  function Total(c: seq<Tally>): nat {
    if |c| == 0 then 0 else c[0].count + Total(c[1..])
  }

  predicate HasKey(c: seq<Tally>, k: string) {
    exists i :: 0 <= i < |c| && c[i].key == k
  }

  /** `counter[k] += 1`. */
  function Increment(c: Counter, k: string): (r: Counter)
    ensures |r| == if HasKey(c, k) then |c| else |c| + 1
  {
    if |c| == 0 then
      [Tally(k, 1)]
    else if c[0].key == k then
      [Tally(k, c[0].count + 1)] + c[1..]
    else
      var rest := Increment(c[1..], k);
      assert HasKey(c, k) <==> HasKey(c[1..], k) by {
        if HasKey(c, k) {
          var i :| 0 <= i < |c| && c[i].key == k;
          assert c[1..][i - 1].key == k;
        }
        if HasKey(c[1..], k) {
          var i :| 0 <= i < |c| - 1 && c[1..][i].key == k;
          assert c[i + 1].key == k;
        }
      }
      [c[0]] + rest
  }

  /** The count of `k` goes up by one and no other count changes. */
  lemma {:induction false} IncrementCounts(c: Counter, k: string)
    requires Wf(c)
    ensures Wf(Increment(c, k))
    ensures CountOf(Increment(c, k), k) == CountOf(c, k) + 1
    ensures forall j :: j != k ==> CountOf(Increment(c, k), j) == CountOf(c, j)
  {
    var r := Increment(c, k);
    if |c| == 0 {
    } else if c[0].key == k {
      assert r[1..] == c[1..];
      KeyAbsent(c[1..], k);
    } else {
      IncrementCounts(c[1..], k);
      var rest := Increment(c[1..], k);
      assert r[1..] == rest;
      forall i | 0 <= i < |rest| ensures rest[i].key != c[0].key {
        IncrementKeys(c[1..], k, i);
        if rest[i].key != k {
          assert c[1..][i].key == rest[i].key;
        }
      }
    }
  }

  lemma IncrementWf(c: Counter, k: string)
    ensures Wf(c) ==> Wf(Increment(c, k))
  {
    if Wf(c) {
      IncrementCounts(c, k);
    }
  }

  /** Every key of the incremented counter is `k` or sits at the same place as before. */
  lemma {:induction false} IncrementKeys(c: Counter, k: string, i: nat)
    requires i < |Increment(c, k)|
    ensures Increment(c, k)[i].key == k || (i < |c| && Increment(c, k)[i] == c[i])
  {
    if |c| > 0 && c[0].key != k && i > 0 {
      IncrementKeys(c[1..], k, i - 1);
    }
  }

  /** One more occurrence in all. */
  lemma {:induction false} IncrementTotal(c: Counter, k: string)
    ensures Total(Increment(c, k)) == Total(c) + 1
  {
    if |c| > 0 {
      if c[0].key == k {
        assert Increment(c, k)[1..] == c[1..];
      } else {
        IncrementTotal(c[1..], k);
        assert Increment(c, k)[1..] == Increment(c[1..], k);
      }
    }
  }

  /** A key seen for the first time goes to the end; the entries before it stay as they were. */
  lemma {:induction false} IncrementAppends(c: Counter, k: string)
    requires !HasKey(c, k)
    ensures Increment(c, k) == c + [Tally(k, 1)]
  {
    if |c| > 0 {
      assert c[0].key != k;
      IncrementAppends(c[1..], k);
      assert c == [c[0]] + c[1..];
    }
  }

  lemma {:induction false} KeyAbsent(c: Counter, k: string)
    requires Wf(c)
    requires forall i :: 0 <= i < |c| ==> c[i].key != k
    ensures CountOf(c, k) == 0
  {
    if |c| > 0 {
      assert c[0].key != k;
      KeyAbsent(c[1..], k);
    }
  }

  // ---------------------------------------------------------------- most_common

  predicate NonIncreasing(s: seq<Tally>) {
    forall i, j :: 0 <= i < j < |s| ==> s[i].count >= s[j].count
  }

  /** Places `t` after every entry whose count is at least its own. */
  function InsertByCount(sorted: seq<Tally>, t: Tally): (r: seq<Tally>)
    ensures |r| == |sorted| + 1
  {
    if |sorted| == 0 then [t]
    else if sorted[0].count >= t.count then [sorted[0]] + InsertByCount(sorted[1..], t)
    else [t] + sorted
  }

  lemma {:induction false} InsertPermutes(sorted: seq<Tally>, t: Tally)
    ensures multiset(InsertByCount(sorted, t)) == multiset(sorted) + multiset{t}
    ensures Total(InsertByCount(sorted, t)) == Total(sorted) + t.count
  {
    var r := InsertByCount(sorted, t);
    if |sorted| > 0 && sorted[0].count >= t.count {
      InsertPermutes(sorted[1..], t);
      assert r[1..] == InsertByCount(sorted[1..], t);
      assert r == [sorted[0]] + r[1..];
      assert sorted == [sorted[0]] + sorted[1..];
    } else if |sorted| > 0 {
      assert r[1..] == sorted;
      assert r == [t] + sorted;
    }
  }

  predicate AllAtMost(s: seq<Tally>, m: nat) {
    forall i :: 0 <= i < |s| ==> s[i].count <= m
  }

  lemma {:induction false} InsertBounded(sorted: seq<Tally>, t: Tally, m: nat)
    requires AllAtMost(sorted, m) && t.count <= m
    ensures AllAtMost(InsertByCount(sorted, t), m)
  {
    if |sorted| > 0 && sorted[0].count >= t.count {
      InsertBounded(sorted[1..], t, m);
      assert InsertByCount(sorted, t)[1..] == InsertByCount(sorted[1..], t);
    }
  }

  lemma {:induction false} InsertSorted(sorted: seq<Tally>, t: Tally)
    requires NonIncreasing(sorted)
    ensures NonIncreasing(InsertByCount(sorted, t))
  {
    var r := InsertByCount(sorted, t);
    if |sorted| > 0 && sorted[0].count >= t.count {
      var rest := InsertByCount(sorted[1..], t);
      InsertSorted(sorted[1..], t);
      InsertBounded(sorted[1..], t, sorted[0].count);
      assert r[1..] == rest;
    } else if |sorted| > 0 {
      assert r[1..] == sorted;
    }
  }

  /**
   * `counter.most_common()`: every entry exactly once, highest count first,
   * and entries of equal count in first-seen order (the sort is stable).
   */
  function MostCommon(c: seq<Tally>): (r: seq<Tally>)
    ensures NonIncreasing(r)
    ensures multiset(r) == multiset(c)
    ensures Total(r) == Total(c)
    ensures |r| == |c|
  {
    if |c| == 0 then []
    else
      var init := c[..|c| - 1];
      assert c == init + [c[|c| - 1]];
      TotalAppend(init, c[|c| - 1]);
      InsertPermutes(MostCommon(init), c[|c| - 1]);
      InsertSorted(MostCommon(init), c[|c| - 1]);
      InsertByCount(MostCommon(init), c[|c| - 1])
  }

  lemma {:induction false} TotalAppend(s: seq<Tally>, t: Tally)
    ensures Total(s + [t]) == Total(s) + t.count
  {
    if |s| > 0 {
      assert (s + [t])[1..] == s[1..] + [t];
      TotalAppend(s[1..], t);
    }
  }

  // ---------------------------------------------------------------- ties and keys

  /** The entries of `s` whose count is `n`, in order. */
  function WithCount(s: seq<Tally>, n: nat): seq<Tally> {
    if |s| == 0 then [] else (if s[0].count == n then [s[0]] else []) + WithCount(s[1..], n)
  }

  lemma {:induction false} WithCountAppend(s: seq<Tally>, t: Tally, n: nat)
    ensures WithCount(s + [t], n) == WithCount(s, n) + (if t.count == n then [t] else [])
  {
    if |s| > 0 {
      assert (s + [t])[1..] == s[1..] + [t];
      WithCountAppend(s[1..], t, n);
    }
  }

  lemma {:induction false} WithCountNone(s: seq<Tally>, n: nat)
    requires forall i :: 0 <= i < |s| ==> s[i].count < n
    ensures WithCount(s, n) == []
  {
    if |s| > 0 {
      WithCountNone(s[1..], n);
    }
  }

  /** Inserting `t` puts it after every entry of its own count. */
  lemma {:induction false} WithCountInsert(sorted: seq<Tally>, t: Tally, n: nat)
    requires NonIncreasing(sorted)
    ensures WithCount(InsertByCount(sorted, t), n) == WithCount(sorted, n) + (if t.count == n then [t] else [])
  {
    var r := InsertByCount(sorted, t);
    if |sorted| > 0 && sorted[0].count >= t.count {
      assert r[1..] == InsertByCount(sorted[1..], t);
      WithCountInsert(sorted[1..], t, n);
    } else if |sorted| > 0 {
      assert r[1..] == sorted;
      if t.count == n {
        WithCountNone(sorted, n);
      }
    }
  }

  /**
   * `most_common()` sorts stably: for every count, the entries with that count
   * come out in the order in which they were first seen.
   */
  lemma {:induction false} MostCommonStable(c: seq<Tally>, n: nat)
    ensures WithCount(MostCommon(c), n) == WithCount(c, n)
  {
    if |c| > 0 {
      var init, last := c[..|c| - 1], c[|c| - 1];
      assert c == init + [last];
      MostCommonStable(init, n);
      WithCountInsert(MostCommon(init), last, n);
      WithCountAppend(init, last, n);
    }
  }

  predicate DistinctKeys(s: seq<Tally>) {
    forall i, j :: 0 <= i < j < |s| ==> s[i].key != s[j].key
  }

  lemma {:induction false} InsertDistinct(sorted: seq<Tally>, t: Tally)
    requires DistinctKeys(sorted) && !HasKey(sorted, t.key)
    ensures DistinctKeys(InsertByCount(sorted, t))
  {
    var r := InsertByCount(sorted, t);
    if |sorted| > 0 && sorted[0].count >= t.count {
      var tail := sorted[1..];
      var rest := InsertByCount(tail, t);
      assert r == [sorted[0]] + rest;
      forall i | 0 <= i < |tail| ensures tail[i].key != t.key {
        assert tail[i] == sorted[i + 1];
      }
      InsertDistinct(tail, t);
      InsertPermutes(tail, t);
      forall i | 0 <= i < |rest| ensures rest[i].key != sorted[0].key {
        assert rest[i] in multiset(rest);
        if rest[i] != t {
          assert rest[i] in tail;
          var k :| 0 <= k < |tail| && tail[k] == rest[i];
          assert sorted[k + 1] == rest[i];
        } else {
          assert sorted[0].key != t.key;
        }
      }
    } else if |sorted| > 0 {
      assert r == [t] + sorted;
    }
  }

  lemma {:induction false} MostCommonDistinct(c: seq<Tally>)
    requires DistinctKeys(c)
    ensures DistinctKeys(MostCommon(c))
  {
    if |c| > 0 {
      var init, last := c[..|c| - 1], c[|c| - 1];
      assert c == init + [last];
      var m := MostCommon(init);
      MostCommonDistinct(init);
      forall i | 0 <= i < |m| ensures m[i].key != last.key {
        assert m[i] in multiset(m);
        var k :| 0 <= k < |init| && init[k] == m[i];
        assert c[k] == m[i];
      }
      InsertDistinct(m, last);
    }
  }

  /** In a well-formed counter, an entry's count is the count of its key. */
  lemma {:induction false} CountAt(c: Counter, j: nat)
    requires Wf(c) && j < |c|
    ensures CountOf(c, c[j].key) == c[j].count
  {
    if j == 0 {
      KeyAbsent(c[1..], c[0].key);
    } else {
      assert c[0].key != c[j].key;
      assert c[1..][j - 1] == c[j];
      CountAt(c[1..], j - 1);
    }
  }

  // ---------------------------------------------------------------- distribution text

  /** The share of one entry in percent of `total`. */
  function Percent(t: Tally, total: nat): real
    requires total > 0
  {
    t.count as real / total as real * 100.0
  }

  /** One `key: pct%` item with the percentage written `.2f`. */
  function RenderShare(t: Tally, total: nat): string
    requires total > 0
  {
    t.key + ": " + Fixed2(Percent(t, total)) + "%"
  }

  function RenderShares(s: seq<Tally>, total: nat): (r: seq<string>)
    requires total > 0
    ensures |r| == |s|
    ensures forall i :: 0 <= i < |s| ==> r[i] == RenderShare(s[i], total)
  {
    if |s| == 0 then [] else [RenderShare(s[0], total)] + RenderShares(s[1..], total)
  }

  /** `prepare_dist_string(counter)`: the `most_common()` entries rendered and joined by `"; "`. */
  function DistString(c: Counter): string {
    var total := Total(c);
    if total == 0 then "" else Join(RenderShares(MostCommon(c), total), "; ")
  }

  lemma {:induction false} TotalZero(c: Counter)
    requires Wf(c)
    ensures Total(c) == 0 <==> |c| == 0
  {
    if |c| > 0 {
      assert c[0].count > 0;
    }
  }

  /** An empty counter renders as the empty text, and only an empty one does. */
  lemma DistStringEmpty(c: Counter)
    requires Wf(c)
    ensures DistString(c) == "" <==> |c| == 0
  {
    TotalZero(c);
    if |c| > 0 {
      var total := Total(c);
      var shares := RenderShares(MostCommon(c), total);
      assert shares[0] == MostCommon(c)[0].key + ": " + Fixed2(Percent(MostCommon(c)[0], total)) + "%";
      assert |shares[0]| >= 3;
      assert |Join(shares, "; ")| >= |shares[0]| by {
        if |shares| > 1 {
          assert Join(shares, "; ") == shares[0] + "; " + Join(shares[1..], "; ");
        }
      }
    }
  }

  function PercentSum(s: seq<Tally>, total: nat): real
    requires total > 0
  {
    if |s| == 0 then 0.0 else Percent(s[0], total) + PercentSum(s[1..], total)
  }

  lemma {:induction false} PercentSumIsShareOfTotal(s: seq<Tally>, total: nat)
    requires total > 0
    ensures PercentSum(s, total) == Total(s) as real / total as real * 100.0
  {
    if |s| > 0 {
      PercentSumIsShareOfTotal(s[1..], total);
      var t := total as real;
      assert s[0].count as real / t * 100.0 + Total(s[1..]) as real / t * 100.0
          == (s[0].count + Total(s[1..])) as real / t * 100.0;
    }
  }

  /**
   * The distribution has one `key: pct%` item per `most_common()` entry, in
   * that order, and those entries are the counter's own: every key it counted,
   * each once, with its count.
   */
  lemma {:induction false} DistributionItems(c: Counter)
    requires Wf(c) && |c| > 0
    ensures Total(c) > 0
    ensures |RenderShares(MostCommon(c), Total(c))| == |c|
    ensures forall i :: 0 <= i < |c| ==>
              RenderShares(MostCommon(c), Total(c))[i] == RenderShare(MostCommon(c)[i], Total(c))
    ensures Wf(MostCommon(c))
    ensures forall k :: HasKey(MostCommon(c), k) <==> HasKey(c, k)
    ensures forall i :: 0 <= i < |c| ==> MostCommon(c)[i].count == CountOf(c, MostCommon(c)[i].key)
  {
    TotalZero(c);
    var m := MostCommon(c);
    MostCommonDistinct(c);
    forall i | 0 <= i < |m| ensures exists j :: 0 <= j < |c| && c[j] == m[i] {
      assert m[i] in multiset(m);
      assert m[i] in c;
    }
    forall i | 0 <= i < |m| ensures m[i].count > 0 && m[i].count == CountOf(c, m[i].key) {
      var j :| 0 <= j < |c| && c[j] == m[i];
      CountAt(c, j);
    }
    forall k ensures HasKey(m, k) <==> HasKey(c, k) {
      if HasKey(m, k) {
        var i :| 0 <= i < |m| && m[i].key == k;
        var j :| 0 <= j < |c| && c[j] == m[i];
      }
      if HasKey(c, k) {
        var j :| 0 <= j < |c| && c[j].key == k;
        assert c[j] in multiset(c);
        assert c[j] in m;
        var i :| 0 <= i < |m| && m[i] == c[j];
      }
    }
  }

  /** The exact percentages behind the distribution's items add up to 100. */
  lemma PercentagesSumTo100(c: Counter)
    requires Wf(c) && |c| > 0
    ensures PercentSum(MostCommon(c), Total(c)) == 100.0
  {
    TotalZero(c);
    var m, total := MostCommon(c), Total(c);
    PercentSumIsShareOfTotal(m, total);
    var t := total as real;
    assert t > 0.0;
    assert PercentSum(m, total) == t / t * 100.0;
    WholeShare(t);
  }

  lemma WholeShare(t: real)
    requires t > 0.0
    ensures t / t * 100.0 == 100.0
  {
  }
}
