/**
 * The post-loop part of `process_csv`: the result scan over each closed
 * window of `data` (nrrf4.py:163-194), the final averages (nrrf4.py:197-199)
 * and the three output records `DL_Test`, `UL_Test` and `Ookla_Test`
 * (nrrf4.py:219-274), each an insertion-ordered dictionary of strings.
 */
module NrRfReport {
  import opened Wrappers
  import opened Text
  import opened Counters
  import opened Csv
  import opened NrRf
  import opened NrRfStats

  // ---------------------------------------------------------------- ordered dictionaries

  /** A Python `dict` of strings: its items in insertion order, keys distinct when built with `Put`. */
  type Dict = seq<(string, string)>

  /** `d.get(k)`: the value of the first item with key `k`. */
  function Lookup(d: Dict, k: string): Option<string> {
    if |d| == 0 then None else if d[0].0 == k then Some(d[0].1) else Lookup(d[1..], k)
  }

  /** `d[k] = v`: replaces the value of an existing key in place, or appends a new item. */
  function Put(d: Dict, k: string, v: string): (r: Dict)
    ensures Lookup(r, k) == Some(v)
    ensures forall j :: j != k ==> Lookup(r, j) == Lookup(d, j)
  {
    if |d| == 0 then [(k, v)]
    else if d[0].0 == k then [(k, v)] + d[1..]
    else
      assert ([d[0]] + Put(d[1..], k, v))[1..] == Put(d[1..], k, v);
      [d[0]] + Put(d[1..], k, v)
  }

  // ---------------------------------------------------------------- the result scan

  const FailureWords: seq<string> := ["unable", "fail", "busy", "error"]

  /** `any(x in text for x in ["unable", "fail", "busy", "error"])`. */
  predicate IsFailureText(text: string) {
    exists j :: 0 <= j < |FailureWords| && Contains(text, FailureWords[j])
  }

  /**
   * What one event of the window decides, if anything: the success marker
   * gives `"Success"`; for DL and UL (`passthrough`) a failure word gives the
   * event text itself.
   */
  function Verdict(text: string, success: string, passthrough: bool): Option<string> {
    if Contains(text, success) then Some("Success")
    else if passthrough && IsFailureText(text) then Some(text)
    else None
  }

  /** Every entry has a `Call Event` slot. */
  predicate Fits(data: seq<Entry>, col: nat) {
    forall i :: 0 <= i < |data| ==> col < |data[i]|
  }

  /** The first verdict among the events `i .. hi - 1`. */
  function FirstHit(data: seq<Entry>, col: nat, i: nat, hi: nat, success: string, passthrough: bool): Option<string>
    requires Fits(data, col) && hi <= |data|
    decreases hi - i
  {
    if i >= hi then None
    else
      match Verdict(data[i][col], success, passthrough)
      case Some(v) => Some(v)
      case None => FirstHit(data, col, i + 1, hi, success, passthrough)
  }

  /**
   * The scan finds a verdict exactly when some event of the range has one,
   * and the verdict it finds is that of the first such event.
   */
  lemma {:induction false} FirstHitIsFirst(data: seq<Entry>, col: nat, i: nat, hi: nat, success: string,
                                          passthrough: bool)
    requires Fits(data, col) && hi <= |data|
    ensures FirstHit(data, col, i, hi, success, passthrough).None?
            <==> forall j :: i <= j < hi ==> Verdict(data[j][col], success, passthrough).None?
    ensures FirstHit(data, col, i, hi, success, passthrough).Some? ==>
              exists k :: i <= k < hi
                && Verdict(data[k][col], success, passthrough) == FirstHit(data, col, i, hi, success, passthrough)
                && forall j :: i <= j < k ==> Verdict(data[j][col], success, passthrough).None?
    decreases hi - i
  {
    if i < hi && Verdict(data[i][col], success, passthrough).None? {
      FirstHitIsFirst(data, col, i + 1, hi, success, passthrough);
      var r := FirstHit(data, col, i, hi, success, passthrough);
      if r.Some? {
        var k :| i + 1 <= k < hi && Verdict(data[k][col], success, passthrough) == r
                 && forall j :: i + 1 <= j < k ==> Verdict(data[j][col], success, passthrough).None?;
        assert forall j :: i <= j < k ==> Verdict(data[j][col], success, passthrough).None?;
      }
    }
  }

  /**
   * A phase's result: `""` unless it has both a start and an end, otherwise
   * the first verdict in `data[start..end]` (both ends included), or
   * `"Failure"` when there is none.
   */
  function PhaseResult(data: seq<Entry>, col: nat, p: Phase, success: string, passthrough: bool): string
    requires Fits(data, col) && PhaseInRange(p, |data|)
  {
    if p.start.None? || p.end.None? then ""
    else
      match FirstHit(data, col, p.start.value, p.end.value + 1, success, passthrough)
      case Some(v) => v
      case None => "Failure"
  }

  lemma ContainsNonEmpty(text: string, sub: string)
    requires Contains(text, sub) && |sub| > 0
    ensures |text| > 0
  {
    var i :| OccursAt(text, sub, i);
  }

  lemma VerdictNonEmpty(text: string, success: string, passthrough: bool)
    requires |success| > 0 && Verdict(text, success, passthrough).Some?
    ensures Verdict(text, success, passthrough).value != ""
  {
    if !Contains(text, success) {
      var j :| 0 <= j < |FailureWords| && Contains(text, FailureWords[j]);
      ContainsNonEmpty(text, FailureWords[j]);
    }
  }

  lemma {:induction false} FirstHitNonEmpty(data: seq<Entry>, col: nat, i: nat, hi: nat, success: string,
                                           passthrough: bool)
    requires Fits(data, col) && hi <= |data| && |success| > 0
    ensures FirstHit(data, col, i, hi, success, passthrough) != Some("")
    decreases hi - i
  {
    if i < hi {
      if Verdict(data[i][col], success, passthrough).Some? {
        VerdictNonEmpty(data[i][col], success, passthrough);
      } else {
        FirstHitNonEmpty(data, col, i + 1, hi, success, passthrough);
      }
    }
  }

  /** The result is empty exactly when the phase lacks a start or an end. */
  lemma ResultEmptyIffUnclosed(data: seq<Entry>, col: nat, p: Phase, success: string, passthrough: bool)
    requires Fits(data, col) && PhaseInRange(p, |data|) && |success| > 0
    ensures PhaseResult(data, col, p, success, passthrough) == "" <==> p.start.None? || p.end.None?
  {
    if p.start.Some? && p.end.Some? {
      FirstHitNonEmpty(data, col, p.start.value, p.end.value + 1, success, passthrough);
    }
  }

  /**
   * For a closed phase: `"Failure"` when no event of the window has a
   * verdict, and otherwise the verdict of the first event that has one.
   */
  lemma ResultOfClosedPhase(data: seq<Entry>, col: nat, p: Phase, success: string, passthrough: bool)
    requires Fits(data, col) && PhaseInRange(p, |data|) && p.start.Some? && p.end.Some?
    ensures var r := PhaseResult(data, col, p, success, passthrough);
            var lo, hi := p.start.value, p.end.value + 1;
            && ((forall j :: lo <= j < hi ==> Verdict(data[j][col], success, passthrough).None?) ==> r == "Failure")
            && ((exists j :: lo <= j < hi && Verdict(data[j][col], success, passthrough).Some?) ==>
                  exists k :: lo <= k < hi && Verdict(data[k][col], success, passthrough) == Some(r)
                    && forall j :: lo <= j < k ==> Verdict(data[j][col], success, passthrough).None?)
  {
    FirstHitIsFirst(data, col, p.start.value, p.end.value + 1, success, passthrough);
  }

  /** A window whose start lies after its end scans nothing: the result is `"Failure"`. */
  lemma InvertedWindowFails(data: seq<Entry>, col: nat, p: Phase, success: string, passthrough: bool)
    requires Fits(data, col) && PhaseInRange(p, |data|) && p.start.Some? && p.end.Some?
    requires p.start.value > p.end.value
    ensures PhaseResult(data, col, p, success, passthrough) == "Failure"
  {
  }

  /** Without the failure-word passthrough (the speed test) the result is one of three fixed words. */
  lemma {:induction false} NoPassthrough(data: seq<Entry>, col: nat, i: nat, hi: nat, success: string)
    requires Fits(data, col) && hi <= |data|
    ensures FirstHit(data, col, i, hi, success, false) in {None, Some("Success")}
    decreases hi - i
  {
    if i < hi && Verdict(data[i][col], success, false).None? {
      NoPassthrough(data, col, i + 1, hi, success);
    }
  }

  lemma OoklaResultWords(data: seq<Entry>, col: nat, p: Phase, success: string)
    requires Fits(data, col) && PhaseInRange(p, |data|)
    ensures PhaseResult(data, col, p, success, false) in {"", "Success", "Failure"}
  {
    if p.start.Some? && p.end.Some? {
      NoPassthrough(data, col, p.start.value, p.end.value + 1, success);
    }
  }

  /** The scan loop of nrrf4.py:164-173 (and 176-185, 188-194), with its `break`s. */
  method CheckResult(data: seq<Entry>, col: nat, p: Phase, success: string, passthrough: bool)
    returns (result: string)
    requires Fits(data, col) && PhaseInRange(p, |data|)
    ensures result == PhaseResult(data, col, p, success, passthrough)
  {
    result := "";
    if p.start.Some? && p.end.Some? {
      var lo, hi := p.start.value, p.end.value + 1;
      var i := lo;
      var found := false;
      while i < hi
        invariant lo <= i && (i <= hi || i == lo)
        invariant FirstHit(data, col, lo, hi, success, passthrough) == FirstHit(data, col, i, hi, success, passthrough)
        invariant !found && result == ""
        decreases hi - i
      {
        var text := data[i][col];
        if Contains(text, success) {
          result := "Success";
          found := true;
          break;
        } else if passthrough && IsFailureText(text) {
          result := text;
          found := true;
          break;
        }
        i := i + 1;
      }
      if !found {
        result := "Failure";
      }
    }
  }

  // ---------------------------------------------------------------- the output records

  /** `statistics.mean(values) if values else 0` for each averaged column, rendered `.2f`. */
  function AverageText(lists: map<string, seq<real>>, c: string): string {
    Fixed2(Mean(if c in lists then lists[c] else []))
  }

  /** The `Avg_<column>` items appended after the fixed ones (nrrf4.py:264-274), one per averaged column. */
  function WithAverages(d: Dict, lists: map<string, seq<real>>, cols: seq<string>): Dict {
    if |cols| == 0 then d
    else
      var d' := WithAverages(d, lists, cols[..|cols| - 1]);
      var c := cols[|cols| - 1];
      if c in [DlModColumn, UlModColumn] then d' else Put(d', "Avg_" + c, AverageText(lists, c))
  }

  predicate IsAvgKey(k: string) {
    |k| >= 4 && k[0] == 'A' && k[1] == 'v' && k[2] == 'g' && k[3] == '_'
  }

  lemma {:induction false} WithAveragesKeeps(d: Dict, lists: map<string, seq<real>>, cols: seq<string>, k: string)
    requires !IsAvgKey(k)
    ensures Lookup(WithAverages(d, lists, cols), k) == Lookup(d, k)
  {
    if |cols| > 0 {
      WithAveragesKeeps(d, lists, cols[..|cols| - 1], k);
      var c := cols[|cols| - 1];
      assert IsAvgKey("Avg_" + c);
    }
  }

  /** Each averaged column, the modulation columns aside, gets its mean under `Avg_<column>`. */
  lemma {:induction false} WithAveragesFinds(d: Dict, lists: map<string, seq<real>>, cols: seq<string>, c: string)
    requires c in cols && c !in [DlModColumn, UlModColumn]
    ensures Lookup(WithAverages(d, lists, cols), "Avg_" + c) == Some(AverageText(lists, c))
  {
    var last := cols[|cols| - 1];
    if last != c {
      assert c in cols[..|cols| - 1];
      WithAveragesFinds(d, lists, cols[..|cols| - 1], c);
      assert "Avg_" + last != "Avg_" + c by {
        assert ("Avg_" + last)[4..] == last;
        assert ("Avg_" + c)[4..] == c;
      }
    }
  }

  /** The start context fields, each `""` when the phase never started. */
  function StartFields(info: Option<StartInfo>): Dict {
    match info
    case None =>
      [("Start_Date", ""), ("Start_Time", ""), ("Start_Latitude", ""), ("Start_Longitude", ""),
       ("Start_PCI", ""), ("Start_ARFCN", "")]
    case Some(s) =>
      [("Start_Date", s.date), ("Start_Time", s.time), ("Start_Latitude", s.latitude),
       ("Start_Longitude", s.longitude), ("Start_PCI", s.pci), ("Start_ARFCN", s.arfcn)]
  }

  /** The items every record starts with: the result, then the start context. */
  function Head(result: string, info: Option<StartInfo>): Dict {
    [("Result", result)] + StartFields(info)
  }

  /** The six `Start_` fields of a dictionary: the start context, or `""` each before any start. */
  predicate ShowsStart(d: Dict, info: Option<StartInfo>) {
    && Lookup(d, "Start_Date") == Some(if info.Some? then info.value.date else "")
    && Lookup(d, "Start_Time") == Some(if info.Some? then info.value.time else "")
    && Lookup(d, "Start_Latitude") == Some(if info.Some? then info.value.latitude else "")
    && Lookup(d, "Start_Longitude") == Some(if info.Some? then info.value.longitude else "")
    && Lookup(d, "Start_PCI") == Some(if info.Some? then info.value.pci else "")
    && Lookup(d, "Start_ARFCN") == Some(if info.Some? then info.value.arfcn else "")
  }

  lemma HeadFields(result: string, info: Option<StartInfo>, tail: Dict, k: string)
    requires |k| > 0 && k[0] != 'R' && k[0] != 'S'
    ensures Lookup(Head(result, info) + tail, "Result") == Some(result)
    ensures ShowsStart(Head(result, info) + tail, info)
    ensures Lookup(Head(result, info) + tail, k) == Lookup(tail, k)
  {
    var head := Head(result, info);
    assert forall i :: 0 <= i < |head| ==> head[i].0[0] in {'R', 'S'};
    LookupPast(head, tail, k);
    var d := head + tail;
    assert forall i :: 0 <= i < |head| ==> d[i] == head[i];
    LookupFinds(d, 0);
    LookupFinds(d, 1);
    LookupFinds(d, 2);
    LookupFinds(d, 3);
    LookupFinds(d, 4);
    LookupFinds(d, 5);
    LookupFinds(d, 6);
  }

  /** Appending the averages moves none of the `Start_` fields. */
  lemma WithAveragesShowsStart(d: Dict, lists: map<string, seq<real>>, cols: seq<string>, info: Option<StartInfo>)
    requires ShowsStart(d, info)
    ensures ShowsStart(WithAverages(d, lists, cols), info)
  {
    WithAveragesKeeps(d, lists, cols, "Start_Date");
    WithAveragesKeeps(d, lists, cols, "Start_Time");
    WithAveragesKeeps(d, lists, cols, "Start_Latitude");
    WithAveragesKeeps(d, lists, cols, "Start_Longitude");
    WithAveragesKeeps(d, lists, cols, "Start_PCI");
    WithAveragesKeeps(d, lists, cols, "Start_ARFCN");
  }

  lemma {:induction false} LookupPast(a: Dict, b: Dict, k: string)
    requires forall i :: 0 <= i < |a| ==> a[i].0 != k
    ensures Lookup(a + b, k) == Lookup(b, k)
  {
    if |a| > 0 {
      assert (a + b)[1..] == a[1..] + b;
      LookupPast(a[1..], b, k);
    } else {
      assert a + b == b;
    }
  }

  function DlFixed(p: Phase, result: string): Dict {
    Head(result, p.info)
      + [("PDSCH_Peak", Fixed2(p.acc.dlPeak)),
         ("PCI_Distribution", DistString(p.acc.pci)),
         ("ARFCN_Distribution", DistString(p.acc.arfcn)),
         ("Modulation_Distribution", DistString(p.acc.dlMod))]
  }

  function DlRecord(p: Phase, result: string, cols: seq<string>): Dict {
    WithAverages(DlFixed(p, result), p.lists, cols)
  }

  function UlFixed(p: Phase, result: string): Dict {
    Head(result, p.info)
      + [("PUSCH_Peak", Fixed2(p.acc.ulPeak)),
         ("PCI_Distribution", DistString(p.acc.pci)),
         ("ARFCN_Distribution", DistString(p.acc.arfcn)),
         ("Modulation_Distribution", DistString(p.acc.ulMod))]
  }

  function UlRecord(p: Phase, result: string, cols: seq<string>): Dict {
    WithAverages(UlFixed(p, result), p.lists, cols)
  }

  function OoklaFixed(p: Phase, result: string): Dict {
    Head(result, p.info)
      + [("Ookla_DL(Mbps)_Peak", Fixed2(p.acc.dlPeak)),
         ("Ookla_UL(Mbps)_Peak", Fixed2(p.acc.ulPeak)),
         ("PCI_Distribution", DistString(p.acc.pci)),
         ("ARFCN_Distribution", DistString(p.acc.arfcn)),
         ("DL_Modulation_Distribution", DistString(p.acc.dlMod)),
         ("UL_Modulation_Distribution", DistString(p.acc.ulMod))]
  }

  function OoklaRecord(p: Phase, result: string, cols: seq<string>): Dict {
    WithAverages(OoklaFixed(p, result), p.lists, cols)
  }

  /** The `kv_pairs` returned by `process_csv`. */
  datatype NrReport = NrReport(dl: Dict, ul: Dict, ookla: Dict)

  /** The three success markers, one per phase (nrrf4.py:166, 178, 190). */
  function Report(lay: Layout, t: Tracker): NrReport
    requires ValidLayout(lay) && Inv(lay, t)
  {
    assert Fits(t.data, lay.col);
    NrReport(
      DlRecord(t.dl, PhaseResult(t.data, lay.col, t.dl, DlSuccessMarker, true), lay.averaged),
      UlRecord(t.ul, PhaseResult(t.data, lay.col, t.ul, UlSuccessMarker, true), lay.averaged),
      OoklaRecord(t.ookla, PhaseResult(t.data, lay.col, t.ookla, OoklaSuccessMarker, false), lay.averaged))
  }

  /**
   * The DL record holds its result, its start context (`""` each before any
   * start), its PDSCH peak as `.2f` text, the PCI, ARFCN and DL modulation
   * distributions, and for each averaged column its mean under `Avg_<column>`.
   */
  lemma DlRecordFields(p: Phase, result: string, cols: seq<string>)
    ensures Lookup(DlRecord(p, result, cols), "Result") == Some(result)
    ensures ShowsStart(DlRecord(p, result, cols), p.info)
    ensures Lookup(DlRecord(p, result, cols), "PDSCH_Peak") == Some(Fixed2(p.acc.dlPeak))
    ensures Lookup(DlRecord(p, result, cols), "PCI_Distribution") == Some(DistString(p.acc.pci))
    ensures Lookup(DlRecord(p, result, cols), "ARFCN_Distribution") == Some(DistString(p.acc.arfcn))
    ensures Lookup(DlRecord(p, result, cols), "Modulation_Distribution") == Some(DistString(p.acc.dlMod))
    ensures forall c :: c in cols && c !in [DlModColumn, UlModColumn] ==>
              Lookup(DlRecord(p, result, cols), "Avg_" + c) == Some(AverageText(p.lists, c))
  {
    var tail := [("PDSCH_Peak", Fixed2(p.acc.dlPeak)), ("PCI_Distribution", DistString(p.acc.pci)),
                 ("ARFCN_Distribution", DistString(p.acc.arfcn)),
                 ("Modulation_Distribution", DistString(p.acc.dlMod))];
    var fixed := Head(result, p.info) + tail;
    FixedFields(result, p.info, tail);
    assert Lookup(WithAverages(fixed, p.lists, cols), tail[0].0) == Some(tail[0].1);
    assert Lookup(WithAverages(fixed, p.lists, cols), tail[1].0) == Some(tail[1].1);
    assert Lookup(WithAverages(fixed, p.lists, cols), tail[2].0) == Some(tail[2].1);
    assert Lookup(WithAverages(fixed, p.lists, cols), tail[3].0) == Some(tail[3].1);
    WithAveragesKeeps(fixed, p.lists, cols, "Result");
    WithAveragesShowsStart(fixed, p.lists, cols, p.info);
    forall c | c in cols && c !in [DlModColumn, UlModColumn]
      ensures Lookup(DlRecord(p, result, cols), "Avg_" + c) == Some(AverageText(p.lists, c))
    {
      WithAveragesFinds(fixed, p.lists, cols, c);
    }
  }

  /** The UL record, likewise, with its PUSCH peak and the UL modulation distribution. */
  lemma UlRecordFields(p: Phase, result: string, cols: seq<string>)
    ensures Lookup(UlRecord(p, result, cols), "Result") == Some(result)
    ensures ShowsStart(UlRecord(p, result, cols), p.info)
    ensures Lookup(UlRecord(p, result, cols), "PUSCH_Peak") == Some(Fixed2(p.acc.ulPeak))
    ensures Lookup(UlRecord(p, result, cols), "PCI_Distribution") == Some(DistString(p.acc.pci))
    ensures Lookup(UlRecord(p, result, cols), "ARFCN_Distribution") == Some(DistString(p.acc.arfcn))
    ensures Lookup(UlRecord(p, result, cols), "Modulation_Distribution") == Some(DistString(p.acc.ulMod))
    ensures forall c :: c in cols && c !in [DlModColumn, UlModColumn] ==>
              Lookup(UlRecord(p, result, cols), "Avg_" + c) == Some(AverageText(p.lists, c))
  {
    var tail := [("PUSCH_Peak", Fixed2(p.acc.ulPeak)), ("PCI_Distribution", DistString(p.acc.pci)),
                 ("ARFCN_Distribution", DistString(p.acc.arfcn)),
                 ("Modulation_Distribution", DistString(p.acc.ulMod))];
    var fixed := Head(result, p.info) + tail;
    FixedFields(result, p.info, tail);
    assert Lookup(WithAverages(fixed, p.lists, cols), tail[0].0) == Some(tail[0].1);
    assert Lookup(WithAverages(fixed, p.lists, cols), tail[1].0) == Some(tail[1].1);
    assert Lookup(WithAverages(fixed, p.lists, cols), tail[2].0) == Some(tail[2].1);
    assert Lookup(WithAverages(fixed, p.lists, cols), tail[3].0) == Some(tail[3].1);
    WithAveragesKeeps(fixed, p.lists, cols, "Result");
    WithAveragesShowsStart(fixed, p.lists, cols, p.info);
    forall c | c in cols && c !in [DlModColumn, UlModColumn]
      ensures Lookup(UlRecord(p, result, cols), "Avg_" + c) == Some(AverageText(p.lists, c))
    {
      WithAveragesFinds(fixed, p.lists, cols, c);
    }
  }

  /**
   * The speed-test record holds its result, its start context, both peaks,
   * the PCI, ARFCN and both modulation distributions, and every column mean.
   */
  lemma OoklaRecordFields(p: Phase, result: string, cols: seq<string>)
    ensures Lookup(OoklaRecord(p, result, cols), "Result") == Some(result)
    ensures ShowsStart(OoklaRecord(p, result, cols), p.info)
    ensures Lookup(OoklaRecord(p, result, cols), "Ookla_DL(Mbps)_Peak") == Some(Fixed2(p.acc.dlPeak))
    ensures Lookup(OoklaRecord(p, result, cols), "Ookla_UL(Mbps)_Peak") == Some(Fixed2(p.acc.ulPeak))
    ensures Lookup(OoklaRecord(p, result, cols), "PCI_Distribution") == Some(DistString(p.acc.pci))
    ensures Lookup(OoklaRecord(p, result, cols), "ARFCN_Distribution") == Some(DistString(p.acc.arfcn))
    ensures Lookup(OoklaRecord(p, result, cols), "DL_Modulation_Distribution") == Some(DistString(p.acc.dlMod))
    ensures Lookup(OoklaRecord(p, result, cols), "UL_Modulation_Distribution") == Some(DistString(p.acc.ulMod))
    ensures forall c :: c in cols && c !in [DlModColumn, UlModColumn] ==>
              Lookup(OoklaRecord(p, result, cols), "Avg_" + c) == Some(AverageText(p.lists, c))
  {
    var tail := [("Ookla_DL(Mbps)_Peak", Fixed2(p.acc.dlPeak)), ("Ookla_UL(Mbps)_Peak", Fixed2(p.acc.ulPeak)),
                 ("PCI_Distribution", DistString(p.acc.pci)),
                 ("ARFCN_Distribution", DistString(p.acc.arfcn)),
                 ("DL_Modulation_Distribution", DistString(p.acc.dlMod)),
                 ("UL_Modulation_Distribution", DistString(p.acc.ulMod))];
    var fixed := Head(result, p.info) + tail;
    FixedFields(result, p.info, tail);
    assert Lookup(WithAverages(fixed, p.lists, cols), tail[0].0) == Some(tail[0].1);
    assert Lookup(WithAverages(fixed, p.lists, cols), tail[1].0) == Some(tail[1].1);
    assert Lookup(WithAverages(fixed, p.lists, cols), tail[2].0) == Some(tail[2].1);
    assert Lookup(WithAverages(fixed, p.lists, cols), tail[3].0) == Some(tail[3].1);
    assert Lookup(WithAverages(fixed, p.lists, cols), tail[4].0) == Some(tail[4].1);
    assert Lookup(WithAverages(fixed, p.lists, cols), tail[5].0) == Some(tail[5].1);
    WithAveragesKeeps(fixed, p.lists, cols, "Result");
    WithAveragesShowsStart(fixed, p.lists, cols, p.info);
    forall c | c in cols && c !in [DlModColumn, UlModColumn]
      ensures Lookup(OoklaRecord(p, result, cols), "Avg_" + c) == Some(AverageText(p.lists, c))
    {
      WithAveragesFinds(fixed, p.lists, cols, c);
    }
  }

  /**
   * After the head, each of the fixed items is found under its own key (the
   * keys of `tail` are distinct), and appending the averages keeps it.
   */
  lemma FixedFields(result: string, info: Option<StartInfo>, tail: Dict)
    requires forall i :: 0 <= i < |tail| ==> |tail[i].0| > 0 && tail[i].0[0] !in {'R', 'S'} && !IsAvgKey(tail[i].0)
    requires forall i, j :: 0 <= i < j < |tail| ==> tail[i].0 != tail[j].0
    ensures Lookup(Head(result, info) + tail, "Result") == Some(result)
    ensures ShowsStart(Head(result, info) + tail, info)
    ensures forall i, lists: map<string, seq<real>>, cols: seq<string> :: 0 <= i < |tail| ==>
              Lookup(WithAverages(Head(result, info) + tail, lists, cols), tail[i].0) == Some(tail[i].1)
  {
    HeadFields(result, info, tail, "P");
    forall i, lists: map<string, seq<real>>, cols: seq<string> | 0 <= i < |tail|
      ensures Lookup(WithAverages(Head(result, info) + tail, lists, cols), tail[i].0) == Some(tail[i].1)
    {
      HeadFields(result, info, tail, tail[i].0);
      LookupFinds(tail, i);
      WithAveragesKeeps(Head(result, info) + tail, lists, cols, tail[i].0);
    }
  }

  lemma {:induction false} LookupFinds(d: Dict, i: nat)
    requires i < |d|
    requires forall j :: 0 <= j < i ==> d[j].0 != d[i].0
    ensures Lookup(d, d[i].0) == Some(d[i].1)
  {
    if i > 0 {
      LookupFinds(d[1..], i - 1);
    }
  }
}
