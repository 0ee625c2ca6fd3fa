/**
 * The registration and latency summary of summary.py (`process_summary_csv`):
 * one pass over the rows of a summary log tallies the 5G registration
 * requests and completions of the `NAS` column, keeps the largest `Max` and
 * smallest `Min` ping, sums the `Avg` pings, and sums the integer `Total`,
 * `Success` and `Error` columns; afterwards the sentinels are replaced by 0,
 * the average is taken and the request count halved.
 *
 * The specification is `Scan`, a fold of `Tally` over the rows; the method
 * `ProcessSummaryCsv` is the loop and is proved to compute `SummarySpec`, and
 * `Reference` states each total directly over the rows.
 */
module Summary {
  import opened Wrappers
  import opened Text
  import opened Csv

  const NasColumn := "NAS"
  const RegRequest := "RegRequest5G"
  const RegComplete := "RegComplete5G"
  const MaxColumn := "Max"
  const MinColumn := "Min"
  const AvgColumn := "Avg"
  const TotalColumn := "Total"
  const SuccessColumn := "Success"
  const ErrorColumn := "Error"

  // ---------------------------------------------------------------- reading one cell

  /** A cell the loop reads: not there or empty (so skipped), converted, or rejected by the conversion. */
  datatype Reading<T> = Absent | Read(value: T) | Malformed

  /** `row.get(column)` is truthy: the column is there and its text is not empty. */
  predicate Given(row: Row, column: string) {
    column in row && row[column] != ""
  }

  /** `float(row[column])` behind `if row.get(column):`. */
  function RealCell(row: Row, column: string): Reading<real> {
    if !Given(row, column) then Absent
    else match ParseReal(row[column]) case Some(v) => Read(v) case None => Malformed
  }

  /** `int(row[column])` behind `if row.get(column):`. */
  function IntCell(row: Row, column: string): Reading<int> {
    if !Given(row, column) then Absent
    else match ParseInt(row[column]) case Some(v) => Read(v) case None => Malformed
  }

  /** The seven cells one row of the loop reads: the `NAS` text and the six numbers. */
  datatype Cells = Cells(nas: string, max: Reading<real>, min: Reading<real>, avg: Reading<real>,
                         total: Reading<int>, success: Reading<int>, error: Reading<int>)

  function CellsOf(row: Row): Cells {
    Cells(Get(row, NasColumn), RealCell(row, MaxColumn), RealCell(row, MinColumn), RealCell(row, AvgColumn),
          IntCell(row, TotalColumn), IntCell(row, SuccessColumn), IntCell(row, ErrorColumn))
  }

  /** No conversion in the row raises a `ValueError`. */
  predicate CellsOk(c: Cells) {
    !c.max.Malformed? && !c.min.Malformed? && !c.avg.Malformed?
    && !c.total.Malformed? && !c.success.Malformed? && !c.error.Malformed?
  }

  predicate RowOk(row: Row) {
    CellsOk(CellsOf(row))
  }

  // ---------------------------------------------------------------- the fold

  /**
   * The loop's variables. `max` and `min` are `None` while they still hold
   * the sentinels `float('-inf')` and `float('inf')`.
   */
  datatype Tallies = Tallies(requests: nat, completes: nat, max: Option<real>, min: Option<real>,
                             avgSum: real, avgCount: nat, attempts: int, successes: int, errors: int)

  const Start := Tallies(0, 0, None, None, 0.0, 0, 0, 0, 0)

  /** `ping_max = max(ping_max, v)` with the sentinel as the identity; skipped without a value. */
  function Higher(m: Option<real>, c: Reading<real>): Option<real> {
    match c
    case Read(v) => Some(match m case None => v case Some(x) => Max(x, v))
    case _ => m
  }

  /** `ping_min = min(ping_min, v)` with the sentinel as the identity; skipped without a value. */
  function Lower(m: Option<real>, c: Reading<real>): Option<real> {
    match c
    case Read(v) => Some(match m case None => v case Some(x) => Min(x, v))
    case _ => m
  }

  function RealOr0(c: Reading<real>): real {
    match c case Read(v) => v case _ => 0.0
  }

  function IntOr0(c: Reading<int>): int {
    match c case Read(v) => v case _ => 0
  }

  function Indicator(b: bool): nat {
    if b then 1 else 0
  }

  /** The loop body on the cells of one row; `None` is the `ValueError` a bad number raises. */
  function Count(t: Tallies, c: Cells): Option<Tallies> {
    if !CellsOk(c) then None
    else
      Some(Tallies(
        t.requests + Indicator(c.nas == RegRequest),
        t.completes + Indicator(c.nas != RegRequest && c.nas == RegComplete),
        Higher(t.max, c.max),
        Lower(t.min, c.min),
        t.avgSum + RealOr0(c.avg),
        t.avgCount + Indicator(c.avg.Read?),
        t.attempts + IntOr0(c.total),
        t.successes + IntOr0(c.success),
        t.errors + IntOr0(c.error)))
  }

  /** One row of the loop (summary.py:24-44). */
  function Tally(t: Tallies, row: Row): Option<Tallies> {
    Count(t, CellsOf(row))
  }

  /** The loop's variables after the given rows, or `None` once a row raised. */
  function Scan(rows: seq<Row>): Option<Tallies> {
    if |rows| == 0 then Some(Start)
    else
      match Scan(rows[..|rows| - 1])
      case None => None
      case Some(t) => Tally(t, rows[|rows| - 1])
  }

  /** `Count` field by field: cells without a bad number move each variable as the loop body does. */
  lemma CountIs(t: Tallies, c: Cells, x: Tallies)
    requires CellsOk(c)
    requires x.requests == t.requests + Indicator(c.nas == RegRequest)
    requires x.completes == t.completes + Indicator(c.nas != RegRequest && c.nas == RegComplete)
    requires x.max == Higher(t.max, c.max) && x.min == Lower(t.min, c.min)
    requires x.avgSum == t.avgSum + RealOr0(c.avg) && x.avgCount == t.avgCount + Indicator(c.avg.Read?)
    requires x.attempts == t.attempts + IntOr0(c.total)
    requires x.successes == t.successes + IntOr0(c.success)
    requires x.errors == t.errors + IntOr0(c.error)
    ensures Count(t, c) == Some(x)
  {
    var y := Count(t, c).value;
    assert y.requests == x.requests && y.completes == x.completes && y.max == x.max && y.min == x.min;
    assert y.avgSum == x.avgSum && y.avgCount == x.avgCount && y.attempts == x.attempts;
    assert y.successes == x.successes && y.errors == x.errors;
  }

  // ---------------------------------------------------------------- the result

  /** The dictionary `process_summary_csv` returns. */
  datatype SummaryReport = SummaryReport(attachRequests: real, attachCompletes: nat,
                                         pingMax: string, pingMin: string, pingAvg: string,
                                         attempts: int, successes: int, errors: int)

  /** The fix-ups after the loop and the returned dictionary (summary.py:46-65). */
  function Finish(t: Tallies): SummaryReport {
    var avg := if t.avgCount > 0 then t.avgSum / t.avgCount as real else 0.0;
    SummaryReport(t.requests as real / 2.0, t.completes,
                  Fixed2(OrZero(t.max)), Fixed2(OrZero(t.min)), Fixed2(avg),
                  t.attempts, t.successes, t.errors)
  }

  function OrZero(m: Option<real>): real {
    match m case None => 0.0 case Some(x) => x
  }

  /** The summary of a log with these rows, or `None` when a conversion raised. */
  function SummarySpec(rows: seq<Row>): Option<SummaryReport> {
    match Scan(rows)
    case None => None
    case Some(t) => Some(Finish(t))
  }

  // ---------------------------------------------------------------- the loop

  /** `if row.get(column): v = float(row[column])`, with the `ValueError` as `Malformed`. */
  method ReadReal(row: Row, column: string) returns (c: Reading<real>)
    ensures c == RealCell(row, column)
  {
    c := Absent;
    if Given(row, column) {
      match ParseReal(row[column]) {
        case None => c := Malformed;
        case Some(v) => c := Read(v);
      }
    }
  }

  /** `if row.get(column): v = int(row[column])`, with the `ValueError` as `Malformed`. */
  method ReadInt(row: Row, column: string) returns (c: Reading<int>)
    ensures c == IntCell(row, column)
  {
    c := Absent;
    if Given(row, column) {
      match ParseInt(row[column]) {
        case None => c := Malformed;
        case Some(v) => c := Read(v);
      }
    }
  }

  /** `ping_max = max(ping_max, v)` when the cell held a number. */
  method TakeMax(m: Option<real>, c: Reading<real>) returns (r: Option<real>)
    ensures r == Higher(m, c)
  {
    r := m;
    if c.Read? {
      r := Some(if m.None? then c.value else Max(m.value, c.value));
    }
  }

  /** `ping_min = min(ping_min, v)` when the cell held a number. */
  method TakeMin(m: Option<real>, c: Reading<real>) returns (r: Option<real>)
    ensures r == Lower(m, c)
  {
    r := m;
    if c.Read? {
      r := Some(if m.None? then c.value else Min(m.value, c.value));
    }
  }

  method AddReal(sum: real, c: Reading<real>) returns (r: real)
    ensures r == sum + RealOr0(c)
  {
    r := sum;
    if c.Read? {
      r := sum + c.value;
    }
  }

  method AddInt(sum: int, c: Reading<int>) returns (r: int)
    ensures r == sum + IntOr0(c)
  {
    r := sum;
    if c.Read? {
      r := sum + c.value;
    }
  }

  /** One pass of the loop body (summary.py:26-44) on the loop's variables. */
  method TallyRow(t: Tallies, row: Row) returns (r: Option<Tallies>)
    ensures r == Tally(t, row)
  {
    var requests, completes := t.requests, t.completes;
    var pingMax, pingMin := t.max, t.min;
    var avgSum, avgCount := t.avgSum, t.avgCount;
    var attempts, successes, errors := t.attempts, t.successes, t.errors;
    var nas := Get(row, NasColumn);
    if nas == RegRequest {
      requests := requests + 1;
    } else if nas == RegComplete {
      completes := completes + 1;
    }
    var max := ReadReal(row, MaxColumn);
    if max.Malformed? {
      return None;
    }
    pingMax := TakeMax(pingMax, max);
    var min := ReadReal(row, MinColumn);
    if min.Malformed? {
      return None;
    }
    pingMin := TakeMin(pingMin, min);
    var avg := ReadReal(row, AvgColumn);
    if avg.Malformed? {
      return None;
    }
    avgSum := AddReal(avgSum, avg);
    avgCount := avgCount + Indicator(avg.Read?);
    var total := ReadInt(row, TotalColumn);
    if total.Malformed? {
      return None;
    }
    attempts := AddInt(attempts, total);
    var success := ReadInt(row, SuccessColumn);
    if success.Malformed? {
      return None;
    }
    successes := AddInt(successes, success);
    var error := ReadInt(row, ErrorColumn);
    if error.Malformed? {
      return None;
    }
    errors := AddInt(errors, error);
    ghost var cells := Cells(nas, max, min, avg, total, success, error);
    assert cells == CellsOf(row);
    r := Some(Tallies(requests, completes, pingMax, pingMin, avgSum, avgCount, attempts, successes, errors));
    CountIs(t, cells, r.value);
  }

  method ProcessSummaryCsv(rows: seq<Row>) returns (r: Option<SummaryReport>)
    ensures r == SummarySpec(rows)
  {
    var t := Start;
    var i := 0;
    while i < |rows|
      invariant 0 <= i <= |rows|
      invariant Scan(rows[..i]) == Some(t)
    {
      ScanNext(rows, i);
      var next := TallyRow(t, rows[i]);
      if next.None? {
        RowFails(rows, i);
        return None;
      }
      t := next.value;
      i := i + 1;
    }
    PrefixAll(rows, i);
    var report := Report(t);
    r := Some(report);
  }

  /** The fix-ups after the loop (summary.py:46-53) and the returned dictionary (summary.py:55-64). */
  method Report(t: Tallies) returns (r: SummaryReport)
    ensures r == Finish(t)
  {
    var avg := if t.avgCount > 0 then t.avgSum / t.avgCount as real else 0.0;
    var max := if t.max.None? then 0.0 else t.max.value;
    var min := if t.min.None? then 0.0 else t.min.value;
    r := SummaryReport(t.requests as real / 2.0, t.completes, Fixed2(max), Fixed2(min), Fixed2(avg),
                       t.attempts, t.successes, t.errors);
  }

  lemma ScanNext(rows: seq<Row>, i: nat)
    requires i < |rows|
    ensures Scan(rows[..i + 1]) == match Scan(rows[..i]) case None => None case Some(t) => Tally(t, rows[i])
  {
    assert rows[..i + 1][..i] == rows[..i];
  }

  /** Once a row raised, the whole log yields nothing. */
  lemma {:induction false} ScanNoneStays(rows: seq<Row>, n: nat)
    requires n <= |rows| && Scan(rows[..n]).None?
    ensures Scan(rows).None?
  {
    if n < |rows| {
      PrefixOfInit(rows, n);
      ScanNoneStays(rows[..|rows| - 1], n);
      ScanNoneLast(rows);
    } else {
      PrefixAll(rows, n);
    }
  }

  lemma ScanNoneLast(rows: seq<Row>)
    requires |rows| > 0 && Scan(rows[..|rows| - 1]).None?
    ensures Scan(rows).None?
  {
  }

  lemma PrefixOfInit<T>(s: seq<T>, n: nat)
    requires n < |s|
    ensures s[..|s| - 1][..n] == s[..n]
  {
  }

  lemma PrefixAll<T>(s: seq<T>, n: nat)
    requires n == |s|
    ensures s[..n] == s
  {
  }

  lemma RowFails(rows: seq<Row>, i: nat)
    requires i < |rows| && Scan(rows[..i]).Some? && !RowOk(rows[i])
    ensures SummarySpec(rows).None?
  {
    ScanNext(rows, i);
    ScanNoneStays(rows, i + 1);
  }

  // ---------------------------------------------------------------- what the totals are

  /** The number of rows whose `NAS` is exactly `tag`. */
  function CountNas(rows: seq<Row>, tag: string): nat {
    if |rows| == 0 then 0 else CountNas(rows[..|rows| - 1], tag) + Indicator(Get(rows[|rows| - 1], NasColumn) == tag)
  }

  /** The converted values of the non-empty cells of a real column, in row order. */
  function Reals(rows: seq<Row>, column: string): seq<real> {
    if |rows| == 0 then []
    else Reals(rows[..|rows| - 1], column)
         + match RealCell(rows[|rows| - 1], column) case Read(v) => [v] case _ => []
  }

  /** The converted values of the non-empty cells of an integer column, in row order. */
  function Ints(rows: seq<Row>, column: string): seq<int> {
    if |rows| == 0 then []
    else Ints(rows[..|rows| - 1], column)
         + match IntCell(rows[|rows| - 1], column) case Read(v) => [v] case _ => []
  }

  function IntSum(xs: seq<int>): int {
    if |xs| == 0 then 0 else IntSum(xs[..|xs| - 1]) + xs[|xs| - 1]
  }

  /** The largest value, `None` for none. */
  function Highest(xs: seq<real>): Option<real> {
    if |xs| == 0 then None else Higher(Highest(xs[..|xs| - 1]), Read(xs[|xs| - 1]))
  }

  /** The smallest value, `None` for none. */
  function Lowest(xs: seq<real>): Option<real> {
    if |xs| == 0 then None else Lower(Lowest(xs[..|xs| - 1]), Read(xs[|xs| - 1]))
  }

  predicate AllOk(rows: seq<Row>) {
    forall i :: 0 <= i < |rows| ==> RowOk(rows[i])
  }

  /** Every total of the loop stated over the rows themselves. */
  function Reference(rows: seq<Row>): Tallies {
    Tallies(CountNas(rows, RegRequest), CountNas(rows, RegComplete),
            Highest(Reals(rows, MaxColumn)), Lowest(Reals(rows, MinColumn)),
            Sum(Reals(rows, AvgColumn)), |Reals(rows, AvgColumn)|,
            IntSum(Ints(rows, TotalColumn)), IntSum(Ints(rows, SuccessColumn)), IntSum(Ints(rows, ErrorColumn)))
  }

  lemma RealsLast(rows: seq<Row>, column: string)
    requires |rows| > 0
    ensures Reals(rows, column) == Reals(rows[..|rows| - 1], column)
              + match RealCell(rows[|rows| - 1], column) case Read(v) => [v] case _ => []
  {
  }

  lemma HighestStep(xs: seq<real>, c: Reading<real>)
    ensures Highest(xs + match c case Read(v) => [v] case _ => []) == Higher(Highest(xs), c)
  {
    match c
    case Read(v) => assert (xs + [v])[..|xs|] == xs;
    case _ => assert xs + [] == xs;
  }

  lemma LowestStep(xs: seq<real>, c: Reading<real>)
    ensures Lowest(xs + match c case Read(v) => [v] case _ => []) == Lower(Lowest(xs), c)
  {
    match c
    case Read(v) => assert (xs + [v])[..|xs|] == xs;
    case _ => assert xs + [] == xs;
  }

  lemma SumStep(xs: seq<real>, c: Reading<real>)
    ensures Sum(xs + match c case Read(v) => [v] case _ => []) == Sum(xs) + RealOr0(c)
    ensures |xs + match c case Read(v) => [v] case _ => []| == |xs| + Indicator(c.Read?)
  {
    match c
    case Read(v) => assert (xs + [v])[..|xs|] == xs;
    case _ => assert xs + [] == xs;
  }

  lemma IntSumStep(xs: seq<int>, c: Reading<int>)
    ensures IntSum(xs + match c case Read(v) => [v] case _ => []) == IntSum(xs) + IntOr0(c)
  {
    match c
    case Read(v) => assert (xs + [v])[..|xs|] == xs;
    case _ => assert xs + [] == xs;
  }

  /** One row moves every total of the reference exactly as the loop moves its variables. */
  lemma ReferenceStep(rows: seq<Row>)
    requires |rows| > 0 && RowOk(rows[|rows| - 1])
    ensures Tally(Reference(rows[..|rows| - 1]), rows[|rows| - 1]) == Some(Reference(rows))
  {
    var init, row := rows[..|rows| - 1], rows[|rows| - 1];
    RealsLast(rows, MaxColumn);
    RealsLast(rows, MinColumn);
    RealsLast(rows, AvgColumn);
    HighestStep(Reals(init, MaxColumn), RealCell(row, MaxColumn));
    LowestStep(Reals(init, MinColumn), RealCell(row, MinColumn));
    SumStep(Reals(init, AvgColumn), RealCell(row, AvgColumn));
    IntSumStep(Ints(init, TotalColumn), IntCell(row, TotalColumn));
    IntSumStep(Ints(init, SuccessColumn), IntCell(row, SuccessColumn));
    IntSumStep(Ints(init, ErrorColumn), IntCell(row, ErrorColumn));
    CountIs(Reference(init), CellsOf(row), Reference(rows));
  }

  /**
   * The loop raises exactly when some row holds a bad number, and otherwise
   * ends with the reference totals.
   */
  lemma {:induction false} ScanIsReference(rows: seq<Row>)
    ensures Scan(rows).None? <==> !AllOk(rows)
    ensures Scan(rows).Some? ==> Scan(rows).value == Reference(rows)
  {
    if |rows| > 0 {
      var init, row := rows[..|rows| - 1], rows[|rows| - 1];
      ScanIsReference(init);
      AllOkLast(rows);
      ScanLast(rows);
      if AllOk(rows) {
        ReferenceStep(rows);
      }
    }
  }

  lemma ScanLast(rows: seq<Row>)
    requires |rows| > 0
    ensures Scan(rows) == match Scan(rows[..|rows| - 1]) case None => None case Some(t) => Tally(t, rows[|rows| - 1])
  {
  }

  lemma {:induction false} AllOkLast(rows: seq<Row>)
    requires |rows| > 0
    ensures AllOk(rows) <==> AllOk(rows[..|rows| - 1]) && RowOk(rows[|rows| - 1])
  {
    var init := rows[..|rows| - 1];
    if AllOk(rows) {
      forall i | 0 <= i < |init| ensures RowOk(init[i]) {
        assert init[i] == rows[i];
      }
    }
    if AllOk(init) && RowOk(rows[|rows| - 1]) {
      forall i | 0 <= i < |rows| ensures RowOk(rows[i]) {
        if i < |init| {
          assert rows[i] == init[i];
        }
      }
    }
  }

  // ---------------------------------------------------------------- properties of the totals

  /** Two different tags never count the same row. */
  lemma {:induction false} NasExclusive(rows: seq<Row>, a: string, b: string)
    requires a != b
    ensures CountNas(rows, a) + CountNas(rows, b) <= |rows|
  {
    if |rows| > 0 {
      NasExclusive(rows[..|rows| - 1], a, b);
    }
  }

  /** The largest value is one of the values and at least each of them; there is one iff there are values. */
  lemma {:induction false} HighestIsMax(xs: seq<real>)
    ensures Highest(xs).None? <==> |xs| == 0
    ensures Highest(xs).Some? ==> Highest(xs).value in xs
    ensures forall i :: 0 <= i < |xs| ==> Highest(xs).Some? && xs[i] <= Highest(xs).value
  {
    if |xs| > 0 {
      var init := xs[..|xs| - 1];
      HighestIsMax(init);
      forall i | 0 <= i < |xs| ensures xs[i] <= Highest(xs).value {
        if i < |init| { assert xs[i] == init[i]; }
      }
    }
  }

  /** The smallest value is one of the values and at most each of them; there is one iff there are values. */
  lemma {:induction false} LowestIsMin(xs: seq<real>)
    ensures Lowest(xs).None? <==> |xs| == 0
    ensures Lowest(xs).Some? ==> Lowest(xs).value in xs
    ensures forall i :: 0 <= i < |xs| ==> Lowest(xs).Some? && Lowest(xs).value <= xs[i]
  {
    if |xs| > 0 {
      var init := xs[..|xs| - 1];
      LowestIsMin(init);
      forall i | 0 <= i < |xs| ensures Lowest(xs).value <= xs[i] {
        if i < |init| { assert xs[i] == init[i]; }
      }
    }
  }

  /**
   * What a summary that did not raise reports: half the registration
   * requests, the completions, the extreme pings (0 without any), the mean
   * `Avg` ping (0 without any), and the three integer sums.
   */
  lemma SummaryFields(rows: seq<Row>)
    requires AllOk(rows)
    ensures SummarySpec(rows).Some?
    ensures SummarySpec(rows).value.attachRequests == CountNas(rows, RegRequest) as real / 2.0
    ensures SummarySpec(rows).value.attachCompletes == CountNas(rows, RegComplete)
    ensures SummarySpec(rows).value.pingMax == Fixed2(OrZero(Highest(Reals(rows, MaxColumn))))
    ensures SummarySpec(rows).value.pingMin == Fixed2(OrZero(Lowest(Reals(rows, MinColumn))))
    ensures SummarySpec(rows).value.pingAvg == Fixed2(Mean(Reals(rows, AvgColumn)))
    ensures SummarySpec(rows).value.attempts == IntSum(Ints(rows, TotalColumn))
    ensures SummarySpec(rows).value.successes == IntSum(Ints(rows, SuccessColumn))
    ensures SummarySpec(rows).value.errors == IntSum(Ints(rows, ErrorColumn))
  {
    ScanIsReference(rows);
  }

  /** A log without rows reports 0 everywhere. */
  lemma EmptyLog()
    ensures SummarySpec([]) == Some(SummaryReport(0.0, 0, "0.00", "0.00", "0.00", 0, 0, 0))
  {
    assert NatToString(0) == "0";
    assert Fixed2(0.0) == "0.00";
  }
}
