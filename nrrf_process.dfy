/**
 * `process_csv` itself (nrrf4.py:11-280) as the imperative row loop it is:
 * the loop variables live in locals that the body updates marker by marker
 * and counter by counter, and the method is proved to compute
 * `ProcessCsvSpec`, the fold `Run` of the specification followed by the
 * report.
 */
module NrRfProcess {
  import opened Wrappers
  import opened Text
  import opened Counters
  import opened Csv
  import opened NrRf
  import opened NrRfStats
  import opened NrRfReport

  predicate AllHaveCallEvent(rows: seq<Row>) {
    forall i :: 0 <= i < |rows| ==> CallEvent in rows[i]
  }

  /**
   * The records of a file with these header names and rows, or `None` when
   * the file lacks a `Call Event` column or an exception ends the loop. The
   * exception is either the `AttributeError` of `.split` on the `None` that a
   * row too short to reach `Call Event` holds, which the model writes as a
   * row without that key, or the `KeyError` of a start row when the file
   * lacks one of the six start-context columns.
   */
  function ProcessCsvSpec(headers: seq<string>, rows: seq<Row>): Option<NrReport> {
    if CallEvent !in headers || !AllHaveCallEvent(rows) then None
    else
      var lay := MakeLayout(headers);
      match Run(lay, Events(rows))
      case None => None
      case Some(t) =>
        RunInv(lay, Events(rows));
        Some(Report(lay, t))
  }

  // ---------------------------------------------------------------- the loop body

  /** The marker chain (nrrf4.py:73-96) on the entry just appended; `None` is the `KeyError`. */
  method TrackMarkers(t: Tracker, e: Event) returns (r: Option<Tracker>)
    requires |t.data| > 0
    ensures r == Mark(t, e, |t.data| - 1)
  {
    var dl, ul, ookla := t.dl, t.ul, t.ookla;
    var idx := |t.data| - 1;
    if Contains(e.part, DlStartMarker) {
      var info := StartInfoOf(e.row);
      if info.None? {
        return None;
      }
      dl := Begin(dl, idx, info.value);
      ul, ookla := ul.(active := false), ookla.(active := false);
    } else if Contains(e.part, UlStartMarker) {
      var info := StartInfoOf(e.row);
      if info.None? {
        return None;
      }
      ul := Begin(ul, idx, info.value);
      dl, ookla := dl.(active := false), ookla.(active := false);
    } else if Contains(e.part, OoklaStartMarker) {
      var info := StartInfoOf(e.row);
      if info.None? {
        return None;
      }
      ookla := Begin(ookla, idx, info.value);
      dl, ul := dl.(active := false), ul.(active := false);
    } else if Contains(e.part, IperfCompleteMarker) {
      if dl.Open() {
        dl := dl.(end := Some(idx));
      } else if ul.Open() {
        ul := ul.(end := Some(idx));
      }
      dl, ul := dl.(active := false), ul.(active := false);
    } else if Contains(e.part, OoklaCompleteMarker) {
      ookla := ookla.(end := Some(idx), active := false);
    }
    r := Some(Tracker(t.data, dl, ul, ookla));
  }

  /** `counter[row[column]] += 1` unless the column is blank. */
  method TickColumn(c: Counter, row: Row, column: string) returns (r: Counter)
    ensures r == Tick(c, row, column)
  {
    r := c;
    if !IsBlank(Get(row, column)) {
      r := Increment(c, Get(row, column));
    }
  }

  /** The aggregation chain (nrrf4.py:98-137): only the first active phase takes the row. */
  method AggregateRow(t: Tracker, row: Row) returns (r: Tracker)
    ensures r == Aggregate(t, row)
  {
    r := t;
    if t.dl.active {
      var a := TallyDlRow(t.dl.acc, row);
      r := t.(dl := t.dl.(acc := a));
    } else if t.ul.active {
      var a := TallyUlRow(t.ul.acc, row);
      r := t.(ul := t.ul.(acc := a));
    } else if t.ookla.active {
      var a := TallyOoklaRow(t.ookla.acc, row);
      r := t.(ookla := t.ookla.(acc := a));
    }
  }

  /** The DL branch (nrrf4.py:98-109): three counters and the PDSCH peak. */
  method TallyDlRow(a: Acc, row: Row) returns (r: Acc)
    ensures r == TallyDl(a, row)
  {
    var pdsch := ParseField(row, PdschColumn);
    var pci := TickColumn(a.pci, row, PciColumn);
    var arfcn := TickColumn(a.arfcn, row, ArfcnColumn);
    var mod := TickColumn(a.dlMod, row, DlModColumn);
    var peak := a.dlPeak;
    if pdsch.Some? {
      peak := Max(peak, pdsch.value);
    }
    r := a.(pci := pci, arfcn := arfcn, dlMod := mod, dlPeak := peak);
  }

  /** The UL branch (nrrf4.py:110-121): three counters and the PUSCH peak. */
  method TallyUlRow(a: Acc, row: Row) returns (r: Acc)
    ensures r == TallyUl(a, row)
  {
    var pusch := ParseField(row, PuschColumn);
    var pci := TickColumn(a.pci, row, PciColumn);
    var arfcn := TickColumn(a.arfcn, row, ArfcnColumn);
    var mod := TickColumn(a.ulMod, row, UlModColumn);
    var peak := a.ulPeak;
    if pusch.Some? {
      peak := Max(peak, pusch.value);
    }
    r := a.(pci := pci, arfcn := arfcn, ulMod := mod, ulPeak := peak);
  }

  /** The speed-test branch (nrrf4.py:122-137): four counters, and both peaks when both parse. */
  method TallyOoklaRow(a: Acc, row: Row) returns (r: Acc)
    ensures r == TallyOokla(a, row)
  {
    var pdsch, pusch := ParseField(row, PdschColumn), ParseField(row, PuschColumn);
    var pci := TickColumn(a.pci, row, PciColumn);
    var arfcn := TickColumn(a.arfcn, row, ArfcnColumn);
    var dlMod := TickColumn(a.dlMod, row, DlModColumn);
    var ulMod := TickColumn(a.ulMod, row, UlModColumn);
    var dlPeak, ulPeak := a.dlPeak, a.ulPeak;
    if pdsch.Some? && pusch.Some? {
      dlPeak := Max(dlPeak, pdsch.value);
      ulPeak := Max(ulPeak, pusch.value);
    }
    r := a.(pci := pci, arfcn := arfcn, dlMod := dlMod, ulMod := ulMod, dlPeak := dlPeak, ulPeak := ulPeak);
  }

  /** `values.append(float(row[c]))` when `row[c]` is a number, else nothing. */
  method AppendField(values: seq<real>, row: Row, c: string) returns (r: seq<real>)
    ensures r == Appended(values, ParseField(row, c))
  {
    r := values;
    match ParseField(row, c) {
      case Some(v) => r := values + [v];
      case None =>
    }
  }

  method CollectLists(lists: map<string, seq<real>>, row: Row) returns (r: map<string, seq<real>>)
    ensures r == Collect(lists, row)
  {
    r := lists;
    var todo := lists.Keys;
    while todo != {}
      invariant todo <= lists.Keys && r.Keys == lists.Keys
      invariant forall c :: c in r ==> r[c] == if c in todo then lists[c] else Appended(lists[c], ParseField(row, c))
      decreases todo
    {
      var c :| c in todo;
      var appended := AppendField(lists[c], row, c);
      r := r[c := appended];
      todo := todo - {c};
    }
    assert r == Collect(lists, row);
  }

  /** The average chain (nrrf4.py:139-159): only the first open window takes the row. */
  method CollectAverages(t: Tracker, row: Row) returns (r: Tracker)
    ensures r == Averages(t, row)
  {
    r := t;
    if t.dl.Open() {
      var lists := CollectLists(t.dl.lists, row);
      r := t.(dl := t.dl.(lists := lists));
    } else if t.ul.Open() {
      var lists := CollectLists(t.ul.lists, row);
      r := t.(ul := t.ul.(lists := lists));
    } else if t.ookla.Open() {
      var lists := CollectLists(t.ookla.lists, row);
      r := t.(ookla := t.ookla.(lists := lists));
    }
  }

  /** `kv_pairs[test][f"Avg_{key}"] = f"{value:.2f}"` for each final average (nrrf4.py:264-274). */
  method AddAverages(d: Dict, lists: map<string, seq<real>>, cols: seq<string>) returns (r: Dict)
    ensures r == WithAverages(d, lists, cols)
  {
    r := d;
    for k := 0 to |cols|
      invariant r == WithAverages(d, lists, cols[..k])
    {
      assert cols[..k + 1][..k] == cols[..k];
      var c := cols[k];
      if c !in [DlModColumn, UlModColumn] {
        r := Put(r, "Avg_" + c, AverageText(lists, c));
      }
    }
    assert cols[..|cols|] == cols;
  }

  // ---------------------------------------------------------------- event bookkeeping

  /** An exception in row i ends the whole file in `None`, whatever the later rows hold. */
  lemma RowAborts(headers: seq<string>, rows: seq<Row>, i: nat)
    requires CallEvent in headers && i < |rows|
    requires Run(MakeLayout(headers), Events(rows[..i + 1])).None?
    ensures ProcessCsvSpec(headers, rows) == None
  {
    EventsSplit(rows, i + 1);
    RunNoneStays(MakeLayout(headers), Events(rows[..i + 1]), Events(rows[i + 1..]));
  }

  lemma EventsSplit(rows: seq<Row>, n: nat)
    requires n <= |rows|
    ensures Events(rows) == Events(rows[..n]) + Events(rows[n..])
  {
    assert rows[..n] + rows[n..] == rows;
    EventsAppend(rows[..n], rows[n..]);
  }

  lemma NoSlice<T>(a: seq<T>, s: seq<T>)
    ensures a + s[..0] == a
  {
    assert s[..0] == [];
  }

  lemma SnocSlice<T>(a: seq<T>, s: seq<T>, k: nat)
    requires k < |s|
    ensures a + s[..k + 1] == (a + s[..k]) + [s[k]]
  {
    assert s[..k + 1] == s[..k] + [s[k]];
  }

  lemma RestSlice<T>(a: seq<T>, s: seq<T>, n: nat)
    requires n <= |s|
    ensures a + s[..n] + s[n..] == a + s
  {
    assert s[..n] + s[n..] == s;
  }

  // ---------------------------------------------------------------- the whole function

  /** One pass of the inner loop (nrrf4.py:68-159) for one event. */
  method ProcessEvent(lay: Layout, t: Tracker, e: Event) returns (r: Option<Tracker>)
    ensures r == Step(lay, t, e)
  {
    var data := t.data + [EntryOf(lay, e)];
    var marked := TrackMarkers(t.(data := data), e);
    if marked.None? {
      return None;
    }
    var aggregated := AggregateRow(marked.value, e.row);
    var averaged := CollectAverages(aggregated, e.row);
    r := Some(averaged);
  }

  /** The inner loop over the parts of one row's `Call Event` (nrrf4.py:66-159). */
  method ProcessRow(lay: Layout, ghost before: seq<Event>, t: Tracker, row: Row) returns (r: Option<Tracker>)
    requires CallEvent in row
    requires Run(lay, before) == Some(t)
    ensures r == Run(lay, before + RowEvents(row))
  {
    var parts := Split(row[CallEvent], ';');
    ghost var evs := RowEvents(row);
    var cur := t;
    NoSlice(before, evs);
    for k := 0 to |parts|
      invariant Run(lay, before + evs[..k]) == Some(cur)
    {
      var e := Event(row, parts[k], |parts|);
      assert e == evs[k];
      SnocSlice(before, evs, k);
      RunSnoc(lay, before + evs[..k], e);
      var next := ProcessEvent(lay, cur, e);
      if next.None? {
        RunNoneStays(lay, before + evs[..k + 1], evs[k + 1..]);
        RestSlice(before, evs, k + 1);
        return None;
      }
      cur := next.value;
    }
    assert evs[..|parts|] == evs;
    r := Some(cur);
  }

  /** The three result scans and the records built from them (nrrf4.py:161-276). */
  method Finish(lay: Layout, t: Tracker) returns (r: NrReport)
    requires ValidLayout(lay) && Inv(lay, t)
    ensures r == Report(lay, t)
  {
    assert Fits(t.data, lay.col);
    var dlResult := CheckResult(t.data, lay.col, t.dl, DlSuccessMarker, true);
    var ulResult := CheckResult(t.data, lay.col, t.ul, UlSuccessMarker, true);
    var ooklaResult := CheckResult(t.data, lay.col, t.ookla, OoklaSuccessMarker, false);
    var dlRecord := AddAverages(DlFixed(t.dl, dlResult), t.dl.lists, lay.averaged);
    var ulRecord := AddAverages(UlFixed(t.ul, ulResult), t.ul.lists, lay.averaged);
    var ooklaRecord := AddAverages(OoklaFixed(t.ookla, ooklaResult), t.ookla.lists, lay.averaged);
    r := NrReport(dlRecord, ulRecord, ooklaRecord);
  }

  /**
   * `process_csv` on a file with these header names and rows: the row loop
   * computes exactly the fold of the specification, and the records are
   * built from its final state.
   */
  method ProcessCsv(headers: seq<string>, rows: seq<Row>) returns (r: Option<NrReport>)
    ensures r == ProcessCsvSpec(headers, rows)
  {
    if CallEvent !in headers {
      return None;
    }
    var lay := MakeLayout(headers);
    var t := Init(lay);
    var i := 0;
    while i < |rows|
      invariant 0 <= i <= |rows|
      invariant AllHaveCallEvent(rows[..i])
      invariant Run(lay, Events(rows[..i])) == Some(t)
    {
      if CallEvent !in rows[i] {
        MissingCallEvent(headers, rows, i);
        return None;
      }
      EventsOfPrefix(rows, i);
      var next := ProcessRow(lay, Events(rows[..i]), t, rows[i]);
      if next.None? {
        RowAborts(headers, rows, i);
        return None;
      }
      t := next.value;
      CallEventsSoFar(rows, i);
      i := i + 1;
    }
    AllRows(rows);
    RunInv(lay, Events(rows));
    var report := Finish(lay, t);
    r := Some(report);
  }

  lemma MissingCallEvent(headers: seq<string>, rows: seq<Row>, i: nat)
    requires i < |rows| && CallEvent !in rows[i]
    ensures ProcessCsvSpec(headers, rows) == None
  {
    assert !AllHaveCallEvent(rows);
  }

  lemma CallEventsSoFar(rows: seq<Row>, i: nat)
    requires i < |rows| && AllHaveCallEvent(rows[..i]) && CallEvent in rows[i]
    ensures AllHaveCallEvent(rows[..i + 1])
  {
    assert rows[..i + 1] == rows[..i] + [rows[i]];
  }

  lemma AllRows(rows: seq<Row>)
    ensures rows[..|rows|] == rows
  {
  }
}
