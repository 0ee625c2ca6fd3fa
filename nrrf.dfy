/**
 * The drive-test segmenter of nrrf4.py (`process_csv`): every row's
 * `Call Event` is split into logical events, a flag-based state machine tracks
 * the download (DL), upload (UL) and speed-test (Ookla) phases, active phases
 * feed categorical counters and running peaks, open windows feed per-column
 * average lists, and every closed window is classified by scanning its events.
 *
 * The specification is `Run`, a fold of `Step` over the logical events; the
 * method `ProcessCsv` is the row loop and is proved to compute `ProcessCsvSpec`.
 */
module NrRf {
  import opened Wrappers
  import opened Text
  import opened Counters
  import opened Csv

  /** One element of `data`: the present columns, the trimmed event in the `Call Event` slot, then `str(k)`. */
  type Entry = seq<string>

  const CallEvent := "Call Event"
  const PciColumn := "NR_PCell_PCI"
  const ArfcnColumn := "NR_PCell_NR_ARFCN"
  const DlModColumn := "NR_PCell_DL Modulation"
  const UlModColumn := "NR_PCell_UL Modulation"
  const PdschColumn := "NR_Total_PDSCH Tput(Mbps)"
  const PuschColumn := "NR_Total_PUSCH Tput(Mbps)"

  /** The columns the processor looks for, in the order it keeps them (nrrf4.py:15-22). */
  const RequiredHeaders: seq<string> := [
    "Date", "Time", "Latitude", "Longitude", "Call Event", "NR_PCell_Band",
    "NR_PCell_PCI", "NR_PCell_NR_ARFCN", "NR_PCell_SS-RSRP", "NR_PCell_SS-SINR", "NR_PCell_WB CQI",
    "NR_PCell_RI", "NR_PCell_DL MCS(Avg)", "NR_PCell_DL Num Layers",
    "NR_PCell_DL Num RBs", "NR_Total_PDSCH Tput(Mbps)",
    "NR_Total_PUSCH Tput(Mbps)", "NR_PCell_UL MCS(Avg)",
    "NR_PCell_DL Modulation", "NR_PCell_UL Modulation"
  ]

  const DlStartMarker := "Iperf - UDP DL Start"
  const UlStartMarker := "Iperf - UDP UL Start"
  const OoklaStartMarker := "Speedtest - Session Start"
  const IperfCompleteMarker := "Iperf - Complete"
  const OoklaCompleteMarker := "Speedtest - Complete"
  const DlSuccessMarker := "Iperf - UDP DL Success"
  const UlSuccessMarker := "Iperf - UDP UL Success"
  const OoklaSuccessMarker := "Speedtest - Test Success"

  /** `float(row[column])`, where both a `KeyError` and a `ValueError` give `None`. */
  function ParseField(row: Row, column: string): Option<real> {
    if column in row then ParseReal(row[column]) else None
  }

  // ---------------------------------------------------------------- column layout

  /** The elements of `wanted` that occur in `have`, in the order of `wanted`. */
  function Keep(wanted: seq<string>, have: seq<string>): (r: seq<string>)
    ensures forall x :: x in r <==> x in wanted && x in have
  {
    if |wanted| == 0 then []
    else (if wanted[0] in have then [wanted[0]] else []) + Keep(wanted[1..], have)
  }

  function Without(s: seq<string>, drop: seq<string>): (r: seq<string>)
    ensures forall x :: x in r <==> x in s && x !in drop
  {
    if |s| == 0 then []
    else (if s[0] in drop then [] else [s[0]]) + Without(s[1..], drop)
  }

  /** The first position of `x` in `s`, or `|s|` when `x` is absent. */
  function IndexOf(s: seq<string>, x: string): (i: nat)
    ensures i <= |s| && (i < |s| <==> x in s)
    ensures i < |s| ==> s[i] == x
  {
    if |s| == 0 then 0 else if s[0] == x then 0 else 1 + IndexOf(s[1..], x)
  }

  /** No name occurs twice. */
  predicate Distinct(s: seq<string>) {
    forall i, j :: 0 <= i < j < |s| ==> s[i] != s[j]
  }

  lemma RequiredHeadersDistinct()
    ensures Distinct(RequiredHeaders)
  {
    var s := RequiredHeaders;
    forall i, j | 0 <= i < j < |s| ensures s[i] != s[j] {
    }
  }

  /** What `Keep` keeps stays in the order of `wanted`, so nothing is kept twice. */
  lemma {:induction false} KeepOrdered(wanted: seq<string>, have: seq<string>)
    requires Distinct(wanted)
    ensures forall i, j :: 0 <= i < j < |Keep(wanted, have)| ==>
              IndexOf(wanted, Keep(wanted, have)[i]) < IndexOf(wanted, Keep(wanted, have)[j])
  {
    if |wanted| > 0 {
      var rest := Keep(wanted[1..], have);
      assert Distinct(wanted[1..]) by {
        forall i, j | 0 <= i < j < |wanted[1..]| ensures wanted[1..][i] != wanted[1..][j] {
          assert wanted[1..][i] == wanted[i + 1] && wanted[1..][j] == wanted[j + 1];
        }
      }
      KeepOrdered(wanted[1..], have);
      forall x | x in wanted[1..] ensures IndexOf(wanted, x) == 1 + IndexOf(wanted[1..], x) {
        var k := IndexOf(wanted[1..], x);
        assert wanted[k + 1] == x;
      }
    }
  }

  /**
   * `present_headers`, the position of `Call Event` among them, and the
   * averaged columns: `present_headers[7:]` without the two modulation
   * columns. The slice counts positions, not names, so which columns are
   * averaged depends on how many of the first seven are present.
   */
  datatype Layout = Layout(present: seq<string>, col: nat, averaged: seq<string>)

  predicate ValidLayout(lay: Layout) {
    lay.col < |lay.present| && lay.present[lay.col] == CallEvent
  }

  function MakeLayout(headers: seq<string>): (lay: Layout)
    requires CallEvent in headers
    ensures ValidLayout(lay)
    ensures forall x :: x in lay.present <==> x in RequiredHeaders && x in headers
    ensures forall x :: x in lay.averaged <==>
              |lay.present| >= 7 && x in lay.present[7..] && x !in [DlModColumn, UlModColumn]
    ensures forall x :: x in lay.averaged ==> x in lay.present
    ensures forall i, j :: 0 <= i < j < |lay.present| ==>
              IndexOf(RequiredHeaders, lay.present[i]) < IndexOf(RequiredHeaders, lay.present[j])
    ensures forall i, j :: 0 <= i < j < |lay.averaged| ==>
              IndexOf(RequiredHeaders, lay.averaged[i]) < IndexOf(RequiredHeaders, lay.averaged[j])
  {
    RequiredHeadersDistinct();
    LayoutOf(RequiredHeaders, headers)
  }

  /** The layout for the column list `wanted`, which names `Call Event` and no column twice. */
  function LayoutOf(wanted: seq<string>, headers: seq<string>): (lay: Layout)
    requires CallEvent in wanted && CallEvent in headers && Distinct(wanted)
    ensures ValidLayout(lay)
    ensures forall x :: x in lay.present <==> x in wanted && x in headers
    ensures forall x :: x in lay.averaged <==>
              |lay.present| >= 7 && x in lay.present[7..] && x !in [DlModColumn, UlModColumn]
    ensures forall x :: x in lay.averaged ==> x in lay.present
    ensures forall i, j :: 0 <= i < j < |lay.present| ==>
              IndexOf(wanted, lay.present[i]) < IndexOf(wanted, lay.present[j])
    ensures forall i, j :: 0 <= i < j < |lay.averaged| ==>
              IndexOf(wanted, lay.averaged[i]) < IndexOf(wanted, lay.averaged[j])
  {
    var present := Keep(wanted, headers);
    KeepOrdered(wanted, headers);
    var tail := if |present| >= 7 then present[7..] else [];
    assert forall i :: 0 <= i < |tail| ==> tail[i] == present[i + 7];
    assert forall x :: x in tail ==> x in present;
    WithoutOrdered(tail, [DlModColumn, UlModColumn], wanted);
    Layout(present, IndexOf(present, CallEvent), Without(tail, [DlModColumn, UlModColumn]))
  }

  /** Dropping names from a list keeps the rest in the order it had. */
  lemma {:induction false} WithoutOrdered(s: seq<string>, drop: seq<string>, order: seq<string>)
    requires forall x :: x in s ==> x in order
    requires forall i, j :: 0 <= i < j < |s| ==> IndexOf(order, s[i]) < IndexOf(order, s[j])
    ensures forall i, j :: 0 <= i < j < |Without(s, drop)| ==>
              IndexOf(order, Without(s, drop)[i]) < IndexOf(order, Without(s, drop)[j])
  {
    if |s| > 0 {
      var rest := Without(s[1..], drop);
      assert forall i :: 0 <= i < |s[1..]| ==> s[1..][i] == s[i + 1];
      WithoutOrdered(s[1..], drop, order);
      if s[0] !in drop {
        assert Without(s, drop) == [s[0]] + rest;
        forall i | 0 <= i < |rest| ensures IndexOf(order, s[0]) < IndexOf(order, rest[i]) {
          assert rest[i] in s[1..];
          var k :| 0 <= k < |s[1..]| && s[1..][k] == rest[i];
          assert s[k + 1] == rest[i];
        }
      }
    }
  }

  // ---------------------------------------------------------------- logical events

  /** One part of a row's `Call Event`, untrimmed, with the number of parts of that row. */
  datatype Event = Event(row: Row, part: string, parts: nat)

  function RowEvents(row: Row): seq<Event> {
    var parts := Split(Get(row, CallEvent), ';');
    seq(|parts|, i requires 0 <= i < |parts| => Event(row, parts[i], |parts|))
  }

  /** The logical events of a sequence of rows, rows in order and parts in order within a row. */
  function Events(rows: seq<Row>): seq<Event> {
    if |rows| == 0 then [] else Events(rows[..|rows| - 1]) + RowEvents(rows[|rows| - 1])
  }

  /** The `new_row` appended to `data` for one event (nrrf4.py:68-70). */
  function EntryOf(lay: Layout, e: Event): Entry {
    seq(|lay.present|, i requires 0 <= i < |lay.present| =>
      if i == lay.col then Strip(e.part) else Get(e.row, lay.present[i]))
    + [NatToString(e.parts)]
  }

  // ---------------------------------------------------------------- tracker state

  /** The start context recorded from the start row (nrrf4.py:75, 80, 85). */
  datatype StartInfo = StartInfo(date: string, time: string, latitude: string, longitude: string,
                                 pci: string, arfcn: string)

  /**
   * A phase's categorical counters and running peaks. DL uses `dlMod` and
   * `dlPeak` (PDSCH), UL uses `ulMod` and `ulPeak` (PUSCH), the speed test
   * uses all of them; a field a phase does not use stays empty or 0.
   */
  datatype Acc = Acc(pci: Counter, arfcn: Counter, dlMod: Counter, ulMod: Counter,
                     dlPeak: real, ulPeak: real)

  /**
   * One phase's share of the loop's variables: the start and end indices into
   * `data`, the start context, the active flag, the counters and peaks, and the
   * per-column average lists.
   */
  datatype Phase = Phase(start: Option<nat>, end: Option<nat>, info: Option<StartInfo>,
                         active: bool, acc: Acc, lists: map<string, seq<real>>) {
    /** Started and not yet ended: the test that routes values into the average lists. */
    predicate Open() {
      start.Some? && end.None?
    }
  }

  /** Every variable the row loop of `process_csv` updates. */
  datatype Tracker = Tracker(data: seq<Entry>, dl: Phase, ul: Phase, ookla: Phase)

  const EmptyAcc := Acc([], [], [], [], 0.0, 0.0)

  function EmptyLists(columns: seq<string>): map<string, seq<real>> {
    map c | c in columns :: []
  }

  function NewPhase(lay: Layout): Phase {
    Phase(None, None, None, false, EmptyAcc, EmptyLists(lay.averaged))
  }

  /** The state before the first row (nrrf4.py:36-62). */
  function Init(lay: Layout): Tracker {
    Tracker([], NewPhase(lay), NewPhase(lay), NewPhase(lay))
  }

  // ---------------------------------------------------------------- one event

  /** The start tuple; `None` models the `KeyError` a missing column raises, which aborts the file. */
  function StartInfoOf(row: Row): Option<StartInfo> {
    if "Date" in row && "Time" in row && "Latitude" in row && "Longitude" in row
       && PciColumn in row && ArfcnColumn in row
    then Some(StartInfo(row["Date"], row["Time"], row["Latitude"], row["Longitude"],
                        row[PciColumn], row[ArfcnColumn]))
    else None
  }

  /** A start marker at `idx`: the phase records its start and context and becomes active. */
  function Begin(p: Phase, idx: nat, info: StartInfo): Phase {
    p.(start := Some(idx), info := Some(info), active := true)
  }

  /** The marker chain (nrrf4.py:73-96) for the event just appended at index `idx`. */
  function Mark(t: Tracker, e: Event, idx: nat): (r: Option<Tracker>)
    ensures r.Some? ==> r.value.data == t.data
    ensures r.Some? ==> r.value.dl.acc == t.dl.acc && r.value.ul.acc == t.ul.acc && r.value.ookla.acc == t.ookla.acc
    ensures r.Some? ==> r.value.dl.lists == t.dl.lists && r.value.ul.lists == t.ul.lists
                        && r.value.ookla.lists == t.ookla.lists
  {
    if Contains(e.part, DlStartMarker) then
      match StartInfoOf(e.row)
      case None => None
      case Some(info) =>
        Some(t.(dl := Begin(t.dl, idx, info), ul := t.ul.(active := false), ookla := t.ookla.(active := false)))
    else if Contains(e.part, UlStartMarker) then
      match StartInfoOf(e.row)
      case None => None
      case Some(info) =>
        Some(t.(ul := Begin(t.ul, idx, info), dl := t.dl.(active := false), ookla := t.ookla.(active := false)))
    else if Contains(e.part, OoklaStartMarker) then
      match StartInfoOf(e.row)
      case None => None
      case Some(info) =>
        Some(t.(ookla := Begin(t.ookla, idx, info), dl := t.dl.(active := false), ul := t.ul.(active := false)))
    else if Contains(e.part, IperfCompleteMarker) then
      if t.dl.Open() then Some(t.(dl := t.dl.(end := Some(idx), active := false), ul := t.ul.(active := false)))
      else if t.ul.Open() then Some(t.(dl := t.dl.(active := false), ul := t.ul.(end := Some(idx), active := false)))
      else Some(t.(dl := t.dl.(active := false), ul := t.ul.(active := false)))
    else if Contains(e.part, OoklaCompleteMarker) then
      Some(t.(ookla := t.ookla.(end := Some(idx), active := false)))
    else
      Some(t)
  }

  /** `counter[row[column]] += 1` when `row.get(column, "").strip()` is non-empty. */
  function Tick(c: Counter, row: Row, column: string): (r: Counter)
    ensures Wf(c) ==> Wf(r)
  {
    if IsBlank(Get(row, column)) then c
    else
      IncrementWf(c, Get(row, column));
      Increment(c, Get(row, column))
  }

  /** `peak = max(peak, float(...))`, skipped when the value does not parse. */
  function Peak(p: real, v: Option<real>): real {
    match v
    case Some(x) => Max(p, x)
    case None => p
  }

  /** The DL branch of the aggregation (nrrf4.py:98-109). */
  function TallyDl(a: Acc, row: Row): Acc {
    a.(pci := Tick(a.pci, row, PciColumn), arfcn := Tick(a.arfcn, row, ArfcnColumn),
       dlMod := Tick(a.dlMod, row, DlModColumn), dlPeak := Peak(a.dlPeak, ParseField(row, PdschColumn)))
  }

  /** The UL branch of the aggregation (nrrf4.py:110-121). */
  function TallyUl(a: Acc, row: Row): Acc {
    a.(pci := Tick(a.pci, row, PciColumn), arfcn := Tick(a.arfcn, row, ArfcnColumn),
       ulMod := Tick(a.ulMod, row, UlModColumn), ulPeak := Peak(a.ulPeak, ParseField(row, PuschColumn)))
  }

  /** The speed-test branch (nrrf4.py:122-137): both peaks move only when both throughputs parse. */
  function TallyOokla(a: Acc, row: Row): Acc {
    var a' := a.(pci := Tick(a.pci, row, PciColumn), arfcn := Tick(a.arfcn, row, ArfcnColumn),
                 dlMod := Tick(a.dlMod, row, DlModColumn), ulMod := Tick(a.ulMod, row, UlModColumn));
    match (ParseField(row, PdschColumn), ParseField(row, PuschColumn))
    case (Some(d), Some(u)) => a'.(dlPeak := Max(a.dlPeak, d), ulPeak := Max(a.ulPeak, u))
    case _ => a'
  }

  /** Markers, flags and start context of a phase: what aggregation and averaging leave alone. */
  predicate SameMarks(p: Phase, q: Phase) {
    p.start == q.start && p.end == q.end && p.info == q.info && p.active == q.active
  }

  /**
   * The aggregation chain, driven by the active flags: the first active phase
   * takes the row into its counters and peaks; nothing else changes.
   */
  function Aggregate(t: Tracker, row: Row): (r: Tracker)
    ensures r.data == t.data
    ensures SameMarks(r.dl, t.dl) && SameMarks(r.ul, t.ul) && SameMarks(r.ookla, t.ookla)
    ensures r.dl.lists == t.dl.lists && r.ul.lists == t.ul.lists && r.ookla.lists == t.ookla.lists
    ensures r.dl.acc != t.dl.acc ==> t.dl.active
    ensures r.ul.acc != t.ul.acc ==> !t.dl.active && t.ul.active
    ensures r.ookla.acc != t.ookla.acc ==> !t.dl.active && !t.ul.active && t.ookla.active
  {
    if t.dl.active then t.(dl := t.dl.(acc := TallyDl(t.dl.acc, row)))
    else if t.ul.active then t.(ul := t.ul.(acc := TallyUl(t.ul.acc, row)))
    else if t.ookla.active then t.(ookla := t.ookla.(acc := TallyOokla(t.ookla.acc, row)))
    else t
  }

  /** Appends every parseable averaged column of `row` to its list. */
  function Collect(lists: map<string, seq<real>>, row: Row): map<string, seq<real>> {
    map c | c in lists :: Appended(lists[c], ParseField(row, c))
  }

  /** `values.append(float(...))`, skipped when the value does not parse. */
  function Appended(values: seq<real>, v: Option<real>): seq<real> {
    match v
    case Some(x) => values + [x]
    case None => values
  }

  /**
   * The average chain (nrrf4.py:139-159), driven by the start/end indices
   * rather than the flags: the first open window takes the row into its
   * lists; nothing else changes.
   */
  function Averages(t: Tracker, row: Row): (r: Tracker)
    ensures r.data == t.data
    ensures SameMarks(r.dl, t.dl) && SameMarks(r.ul, t.ul) && SameMarks(r.ookla, t.ookla)
    ensures r.dl.acc == t.dl.acc && r.ul.acc == t.ul.acc && r.ookla.acc == t.ookla.acc
    ensures r.dl.lists != t.dl.lists ==> t.dl.Open()
    ensures r.ul.lists != t.ul.lists ==> !t.dl.Open() && t.ul.Open()
    ensures r.ookla.lists != t.ookla.lists ==> !t.dl.Open() && !t.ul.Open() && t.ookla.Open()
  {
    if t.dl.Open() then t.(dl := t.dl.(lists := Collect(t.dl.lists, row)))
    else if t.ul.Open() then t.(ul := t.ul.(lists := Collect(t.ul.lists, row)))
    else if t.ookla.Open() then t.(ookla := t.ookla.(lists := Collect(t.ookla.lists, row)))
    else t
  }

  /** The state after appending the event's entry and running the marker chain on it. */
  function Marked(lay: Layout, t: Tracker, e: Event): Option<Tracker> {
    Mark(t.(data := t.data + [EntryOf(lay, e)]), e, |t.data|)
  }

  /** One iteration of the inner loop: append the entry, run the markers, aggregate, collect averages. */
  function Step(lay: Layout, t: Tracker, e: Event): (r: Option<Tracker>)
    ensures r.Some? ==> r.value.data == t.data + [EntryOf(lay, e)]
  {
    match Marked(lay, t, e)
    case None => None
    case Some(t2) => Some(Averages(Aggregate(t2, e.row), e.row))
  }

  /** The state after the given events, or `None` once one of them raised. */
  function Run(lay: Layout, evs: seq<Event>): Option<Tracker> {
    if |evs| == 0 then Some(Init(lay))
    else
      match Run(lay, evs[..|evs| - 1])
      case None => None
      case Some(t) => Step(lay, t, evs[|evs| - 1])
  }

  // ---------------------------------------------------------------- invariants of the run

  /** At most one of the three active flags is set. */
  predicate Exclusive(t: Tracker) {
    (t.dl.active ==> !t.ul.active && !t.ookla.active) && (t.ul.active ==> !t.ookla.active)
  }

  predicate PhaseInRange(p: Phase, n: nat) {
    (p.start.Some? ==> p.start.value < n) && (p.end.Some? ==> p.end.value < n)
  }

  predicate AccWf(a: Acc) {
    Wf(a.pci) && Wf(a.arfcn) && Wf(a.dlMod) && Wf(a.ulMod)
  }

  predicate EntriesFit(lay: Layout, data: seq<Entry>) {
    forall i :: 0 <= i < |data| ==> |data[i]| == |lay.present| + 1
  }

  predicate Inv(lay: Layout, t: Tracker) {
    && Exclusive(t)
    && EntriesFit(lay, t.data)
    && PhaseInRange(t.dl, |t.data|) && PhaseInRange(t.ul, |t.data|) && PhaseInRange(t.ookla, |t.data|)
    && AccWf(t.dl.acc) && AccWf(t.ul.acc) && AccWf(t.ookla.acc)
  }

  lemma AggregateWf(t: Tracker, row: Row)
    requires AccWf(t.dl.acc) && AccWf(t.ul.acc) && AccWf(t.ookla.acc)
    ensures var r := Aggregate(t, row); AccWf(r.dl.acc) && AccWf(r.ul.acc) && AccWf(r.ookla.acc)
  {
  }

  lemma MarkInv(lay: Layout, t: Tracker, e: Event, idx: nat)
    requires Inv(lay, t) && idx < |t.data|
    ensures Mark(t, e, idx).Some? ==> Inv(lay, Mark(t, e, idx).value)
  {
    if Contains(e.part, DlStartMarker) {
    } else if Contains(e.part, UlStartMarker) {
    } else if Contains(e.part, OoklaStartMarker) {
    } else if Contains(e.part, IperfCompleteMarker) {
    } else if Contains(e.part, OoklaCompleteMarker) {
    }
  }

  lemma MarkedInv(lay: Layout, t: Tracker, e: Event)
    requires ValidLayout(lay) && Inv(lay, t)
    ensures Marked(lay, t, e).Some? ==> Inv(lay, Marked(lay, t, e).value)
  {
    var t1 := t.(data := t.data + [EntryOf(lay, e)]);
    assert EntriesFit(lay, t1.data) by {
      forall i | 0 <= i < |t1.data| ensures |t1.data[i]| == |lay.present| + 1 {
        if i < |t.data| { assert t1.data[i] == t.data[i]; }
      }
    }
    MarkInv(lay, t1, e, |t.data|);
  }

  lemma StepInv(lay: Layout, t: Tracker, e: Event)
    requires ValidLayout(lay) && Inv(lay, t)
    ensures Step(lay, t, e).Some? ==> Inv(lay, Step(lay, t, e).value)
  {
    MarkedInv(lay, t, e);
    match Marked(lay, t, e)
    case None =>
    case Some(t2) =>
      AggregateWf(t2, e.row);
      var t3 := Aggregate(t2, e.row);
      assert Step(lay, t, e) == Some(Averages(t3, e.row));
  }

  lemma {:induction false} RunInv(lay: Layout, evs: seq<Event>)
    requires ValidLayout(lay)
    ensures Run(lay, evs).Some? ==> Inv(lay, Run(lay, evs).value)
  {
    if |evs| > 0 && Run(lay, evs).Some? {
      var init := evs[..|evs| - 1];
      RunLast(lay, evs);
      RunInv(lay, init);
      StepInv(lay, Run(lay, init).value, evs[|evs| - 1]);
    }
  }

  /** After every event at most one phase is active. */
  lemma {:induction false} AtMostOnePhaseActive(lay: Layout, evs: seq<Event>)
    requires ValidLayout(lay) && Run(lay, evs).Some?
    ensures Exclusive(Run(lay, evs).value)
  {
    RunInv(lay, evs);
  }

  lemma RunSnoc(lay: Layout, evs: seq<Event>, e: Event)
    ensures Run(lay, evs + [e]) == match Run(lay, evs) case None => None case Some(t) => Step(lay, t, e)
  {
    assert (evs + [e])[..|evs|] == evs;
  }

  /** A run that has not raised ends with a step from a run that has not raised. */
  lemma RunLast(lay: Layout, evs: seq<Event>)
    requires |evs| > 0 && Run(lay, evs).Some?
    ensures Run(lay, evs[..|evs| - 1]).Some?
    ensures Run(lay, evs) == Step(lay, Run(lay, evs[..|evs| - 1]).value, evs[|evs| - 1])
  {
  }

  /** Once an event has raised, the file yields nothing whatever follows. */
  lemma {:induction false} RunNoneStays(lay: Layout, evs: seq<Event>, more: seq<Event>)
    requires Run(lay, evs).None?
    ensures Run(lay, evs + more).None?
  {
    if |more| > 0 {
      SnocSplit(evs, more);
      RunNoneStays(lay, evs, more[..|more| - 1]);
      RunSnoc(lay, evs + more[..|more| - 1], more[|more| - 1]);
    } else {
      assert evs + more == evs;
    }
  }

  lemma SnocSplit<T>(a: seq<T>, b: seq<T>)
    requires |b| > 0
    ensures a + b == (a + b[..|b| - 1]) + [b[|b| - 1]]
  {
    assert b == b[..|b| - 1] + [b[|b| - 1]];
  }

  lemma {:induction false} EventsAppend(a: seq<Row>, b: seq<Row>)
    ensures Events(a + b) == Events(a) + Events(b)
  {
    if |b| == 0 {
      assert a + b == a;
    } else {
      var init, last := b[..|b| - 1], b[|b| - 1];
      SnocSplit(a, b);
      SnocSplit([], b);
      assert [] + b == b && [] + init == init;
      EventsSnoc(a + init, last);
      EventsSnoc(init, last);
      EventsAppend(a, init);
      assert (Events(a) + Events(init)) + RowEvents(last) == Events(a) + (Events(init) + RowEvents(last));
    }
  }

  lemma EventsSnoc(rows: seq<Row>, last: Row)
    ensures Events(rows + [last]) == Events(rows) + RowEvents(last)
  {
    assert (rows + [last])[..|rows|] == rows;
  }

  lemma EventsOfPrefix(rows: seq<Row>, i: nat)
    requires i < |rows|
    ensures Events(rows[..i + 1]) == Events(rows[..i]) + RowEvents(rows[i])
  {
    assert rows[..i + 1][..i] == rows[..i];
  }

  /**
   * `data` holds one entry per logical event, in event order: a row whose
   * `Call Event` has k parts contributes k consecutive entries.
   */
  lemma SnocData(lay: Layout, evs: seq<Event>, e: Event)
    requires Run(lay, evs + [e]).Some?
    ensures Run(lay, evs).Some?
    ensures Run(lay, evs + [e]).value.data == Run(lay, evs).value.data + [EntryOf(lay, e)]
  {
    RunSnoc(lay, evs, e);
  }

  /** The entries of a sequence of events, in order. */
  function Entries(lay: Layout, evs: seq<Event>): seq<Entry> {
    if |evs| == 0 then [] else Entries(lay, evs[..|evs| - 1]) + [EntryOf(lay, evs[|evs| - 1])]
  }

  lemma {:induction false} EntriesIndex(lay: Layout, evs: seq<Event>)
    ensures |Entries(lay, evs)| == |evs|
    ensures forall i :: 0 <= i < |evs| ==> Entries(lay, evs)[i] == EntryOf(lay, evs[i])
  {
    if |evs| > 0 {
      var init := evs[..|evs| - 1];
      EntriesIndex(lay, init);
      forall i | 0 <= i < |evs| ensures Entries(lay, evs)[i] == EntryOf(lay, evs[i]) {
        if i < |init| { assert evs[i] == init[i]; }
      }
    }
  }

  /**
   * `data` holds one entry per logical event, in event order: a row whose
   * `Call Event` has k parts contributes k consecutive entries.
   */
  lemma {:induction false} RunData(lay: Layout, evs: seq<Event>)
    requires Run(lay, evs).Some?
    ensures Run(lay, evs).value.data == Entries(lay, evs)
  {
    if |evs| > 0 {
      LastData(lay, evs);
      RunData(lay, evs[..|evs| - 1]);
    }
  }

  /** The last event of a run that has not raised appends exactly its own entry. */
  lemma LastData(lay: Layout, evs: seq<Event>)
    requires |evs| > 0 && Run(lay, evs).Some?
    ensures Run(lay, evs[..|evs| - 1]).Some?
    ensures Run(lay, evs).value.data == Run(lay, evs[..|evs| - 1]).value.data + [EntryOf(lay, evs[|evs| - 1])]
  {
    RunLast(lay, evs);
  }

  /** The untrimmed event texts of a sequence of events. */
  function PartsOf(evs: seq<Event>): (r: seq<string>)
    ensures |r| == |evs| && forall i :: 0 <= i < |evs| ==> r[i] == evs[i].part
  {
    seq(|evs|, i requires 0 <= i < |evs| => evs[i].part)
  }

  /**
   * The events of one row: as many as `split(";")` gives parts (duplicates
   * kept), each knowing the row's part count, and the parts joined by `;`
   * give back the cell.
   */
  lemma RowEventsSplit(row: Row)
    ensures |RowEvents(row)| == CountChar(Get(row, CallEvent), ';') + 1
    ensures forall i :: 0 <= i < |RowEvents(row)| ==> RowEvents(row)[i].parts == |RowEvents(row)|
    ensures Join(PartsOf(RowEvents(row)), ";") == Get(row, CallEvent)
  {
    var parts := Split(Get(row, CallEvent), ';');
    SplitSpec(Get(row, CallEvent), ';');
    assert PartsOf(RowEvents(row)) == parts;
  }

  /**
   * Each entry has one more column than `present_headers`: the event's text,
   * trimmed, sits in the `Call Event` slot and the part count is last.
   */
  lemma EntryShape(lay: Layout, e: Event)
    requires ValidLayout(lay)
    ensures |EntryOf(lay, e)| == |lay.present| + 1
    ensures EntryOf(lay, e)[lay.col] == Strip(e.part)
    ensures EntryOf(lay, e)[|lay.present|] == NatToString(e.parts)
    ensures forall i :: 0 <= i < |lay.present| && i != lay.col ==> EntryOf(lay, e)[i] == Get(e.row, lay.present[i])
  {
    var head := seq(|lay.present|, i requires 0 <= i < |lay.present| =>
      if i == lay.col then Strip(e.part) else Get(e.row, lay.present[i]));
    var entry := head + [NatToString(e.parts)];
    assert EntryOf(lay, e) == entry;
    assert forall i :: 0 <= i < |head| ==> entry[i] == head[i];
  }
}
