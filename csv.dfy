/**
 * Rows as `csv.DictReader` yields them, and the few real-number folds the
 * processors apply to the values read from them.
 */
module Csv {
  /** One CSV row: column name to cell text; a missing key is a column the file lacks. */
  type Row = map<string, string>

  /** `row.get(column, "")`. */
  function Get(row: Row, column: string): string {
    if column in row then row[column] else ""
  }

  /** Python's `max(a, b)` on two reals. */
  function Max(a: real, b: real): real {
    if a >= b then a else b
  }

  /** Python's `min(a, b)` on two reals. */
  function Min(a: real, b: real): real {
    if a <= b then a else b
  }

  function Sum(xs: seq<real>): real {
    if |xs| == 0 then 0.0 else Sum(xs[..|xs| - 1]) + xs[|xs| - 1]
  }

  /** `statistics.mean(values) if values else 0`, over exact reals. */
  function Mean(xs: seq<real>): real {
    if |xs| == 0 then 0.0 else Sum(xs) / (|xs| as real)
  }

  lemma {:induction false} SumBounds(xs: seq<real>, lo: real, hi: real)
    requires forall i :: 0 <= i < |xs| ==> lo <= xs[i] <= hi
    ensures (|xs| as real) * lo <= Sum(xs) <= (|xs| as real) * hi
  {
    if |xs| > 0 {
      var init := xs[..|xs| - 1];
      assert forall i :: 0 <= i < |init| ==> init[i] == xs[i];
      SumBounds(init, lo, hi);
    }
  }

  /** The mean of a non-empty list lies between any bounds of its values; of an empty one it is 0. */
  lemma MeanBounds(xs: seq<real>, lo: real, hi: real)
    requires forall i :: 0 <= i < |xs| ==> lo <= xs[i] <= hi
    ensures |xs| == 0 ==> Mean(xs) == 0.0
    ensures |xs| > 0 ==> lo <= Mean(xs) <= hi
  {
    if |xs| > 0 {
      SumBounds(xs, lo, hi);
      var n := |xs| as real;
      assert Sum(xs) / n >= lo by {
        assert Sum(xs) >= n * lo;
      }
      assert Sum(xs) / n <= hi by {
        assert Sum(xs) <= n * hi;
      }
    }
  }
}
