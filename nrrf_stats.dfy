/**
 * What the tracker of `process_csv` accumulates, stated independently of the
 * state machine: which phase takes each event into its counters and peaks,
 * which window takes it into its average lists, and what the counters, the
 * peaks and the final averages then are over the whole run.
 */
module NrRfStats {
  import opened Wrappers
  import opened Text
  import opened Counters
  import opened Csv
  import opened NrRf

  /** The three phases of a drive test. */
  datatype Test = DL | UL | Ookla

  function PhaseOf(t: Tracker, test: Test): Phase {
    match test
    case DL => t.dl
    case UL => t.ul
    case Ookla => t.ookla
  }

  /** The phase whose counters and peaks take the row: the first active one (nrrf4.py:98, 110, 122). */
  function Taker(t: Tracker): Option<Test> {
    if t.dl.active then Some(DL)
    else if t.ul.active then Some(UL)
    else if t.ookla.active then Some(Ookla)
    else None
  }

  /** The window whose average lists take the row: the first started-and-unended one (nrrf4.py:139, 146, 153). */
  function Window(t: Tracker): Option<Test> {
    if t.dl.Open() then Some(DL)
    else if t.ul.Open() then Some(UL)
    else if t.ookla.Open() then Some(Ookla)
    else None
  }

  // ---------------------------------------------------------------- counters

  /** The categorical columns. */
  datatype Channel = Pci | Arfcn | DlMod | UlMod

  function ColumnOf(ch: Channel): string {
    match ch
    case Pci => PciColumn
    case Arfcn => ArfcnColumn
    case DlMod => DlModColumn
    case UlMod => UlModColumn
  }

  function CounterOf(a: Acc, ch: Channel): Counter {
    match ch
    case Pci => a.pci
    case Arfcn => a.arfcn
    case DlMod => a.dlMod
    case UlMod => a.ulMod
  }

  /** DL counts the DL modulation, UL the UL modulation, the speed test both. */
  predicate Uses(test: Test, ch: Channel) {
    match test
    case DL => ch != UlMod
    case UL => ch != DlMod
    case Ookla => true
  }

  /** The value an event adds to a counter, if any: taken by the phase, used by it, and not blank. */
  function TickOf(t2: Tracker, row: Row, test: Test, ch: Channel): seq<string> {
    if Taker(t2) == Some(test) && Uses(test, ch) && !IsBlank(Get(row, ColumnOf(ch)))
    then [Get(row, ColumnOf(ch))]
    else []
  }

  /** The counters of a phase after it takes a row into its tallies. */
  function Tallied(test: Test, a: Acc, row: Row): Acc {
    match test
    case DL => TallyDl(a, row)
    case UL => TallyUl(a, row)
    case Ookla => TallyOokla(a, row)
  }

  lemma AggregateAcc(t: Tracker, row: Row, test: Test)
    ensures PhaseOf(Aggregate(t, row), test).acc
            == if Taker(t) == Some(test) then Tallied(test, PhaseOf(t, test).acc, row) else PhaseOf(t, test).acc
  {
  }

  lemma TalliedCounter(test: Test, a: Acc, row: Row, ch: Channel)
    ensures CounterOf(Tallied(test, a, row), ch)
            == if Uses(test, ch) then Tick(CounterOf(a, ch), row, ColumnOf(ch)) else CounterOf(a, ch)
  {
    match test
    case DL =>
    case UL =>
    case Ookla =>
  }

  lemma AggregateCounter(t: Tracker, row: Row, test: Test, ch: Channel)
    ensures CounterOf(PhaseOf(Aggregate(t, row), test).acc, ch)
            == if TickOf(t, row, test, ch) == [] then CounterOf(PhaseOf(t, test).acc, ch)
               else Increment(CounterOf(PhaseOf(t, test).acc, ch), Get(row, ColumnOf(ch)))
  {
    AggregateAcc(t, row, test);
    TalliedCounter(test, PhaseOf(t, test).acc, row, ch);
  }

  /** The values ticked into one counter by a run, one per counting event, in order. */
  function Ticks(lay: Layout, evs: seq<Event>, test: Test, ch: Channel): seq<string> {
    if |evs| == 0 then []
    else
      var init, e := evs[..|evs| - 1], evs[|evs| - 1];
      Ticks(lay, init, test, ch)
      + match Run(lay, init)
        case None => []
        case Some(t) =>
          match Marked(lay, t, e)
          case None => []
          case Some(t2) => TickOf(t2, e.row, test, ch)
  }

  /** A counter after at most one tick. */
  function Bump(c: Counter, tick: seq<string>): Counter {
    if |tick| == 0 then c else Increment(c, tick[0])
  }

  lemma BumpCounts(c: Counter, tick: seq<string>, before: multiset<string>)
    requires Wf(c) && |tick| <= 1
    requires forall k :: CountOf(c, k) == before[k]
    ensures forall k :: CountOf(Bump(c, tick), k) == (before + multiset(tick))[k]
  {
    if |tick| == 1 {
      IncrementCounts(c, tick[0]);
      assert multiset(tick) == multiset{tick[0]};
    }
  }

  lemma StepCounter(lay: Layout, t: Tracker, e: Event, test: Test, ch: Channel)
    requires Step(lay, t, e).Some?
    ensures Marked(lay, t, e).Some?
    ensures CounterOf(PhaseOf(Step(lay, t, e).value, test).acc, ch)
            == Bump(CounterOf(PhaseOf(t, test).acc, ch), TickOf(Marked(lay, t, e).value, e.row, test, ch))
  {
    var t2 := Marked(lay, t, e).value;
    AggregateCounter(t2, e.row, test, ch);
    assert Step(lay, t, e).value == Averages(Aggregate(t2, e.row), e.row);
    assert PhaseOf(t2, test).acc == PhaseOf(t, test).acc;
  }

  lemma CounterWf(lay: Layout, t: Tracker, test: Test, ch: Channel)
    requires Inv(lay, t)
    ensures Wf(CounterOf(PhaseOf(t, test).acc, ch))
  {
    assert AccWf(PhaseOf(t, test).acc);
  }

  /** The last event's tick, if any, ends the run's ticks. */
  lemma TicksLast(lay: Layout, evs: seq<Event>, test: Test, ch: Channel)
    requires |evs| > 0 && Run(lay, evs).Some?
    ensures Run(lay, evs[..|evs| - 1]).Some?
    ensures Marked(lay, Run(lay, evs[..|evs| - 1]).value, evs[|evs| - 1]).Some?
    ensures Ticks(lay, evs, test, ch)
            == Ticks(lay, evs[..|evs| - 1], test, ch)
               + TickOf(Marked(lay, Run(lay, evs[..|evs| - 1]).value, evs[|evs| - 1]).value, evs[|evs| - 1].row, test, ch)
  {
    RunLast(lay, evs);
  }

  /**
   * Every counter holds, for each key, the number of events on which its
   * phase was active (the start event included) and the column was not
   * blank with that value.
   */
  lemma {:induction false} CounterCounts(lay: Layout, evs: seq<Event>, test: Test, ch: Channel)
    requires ValidLayout(lay) && Run(lay, evs).Some?
    ensures forall k :: CountOf(CounterOf(PhaseOf(Run(lay, evs).value, test).acc, ch), k)
                        == multiset(Ticks(lay, evs, test, ch))[k]
  {
    if |evs| > 0 {
      var init := evs[..|evs| - 1];
      RunLast(lay, evs);
      TicksLast(lay, evs, test, ch);
      var t := Run(lay, init).value;
      CounterCounts(lay, init, test, ch);
      RunInv(lay, init);
      CounterWf(lay, t, test, ch);
      StepCounter(lay, t, evs[|evs| - 1], test, ch);
      var tick := TickOf(Marked(lay, t, evs[|evs| - 1]).value, evs[|evs| - 1].row, test, ch);
      BumpCounts(CounterOf(PhaseOf(t, test).acc, ch), tick, multiset(Ticks(lay, init, test, ch)));
    }
  }

  // ---------------------------------------------------------------- peaks

  /** The two throughput columns. */
  datatype Throughput = Pdsch | Pusch

  function PeakOf(a: Acc, thr: Throughput): real {
    match thr
    case Pdsch => a.dlPeak
    case Pusch => a.ulPeak
  }

  /**
   * The value a row offers a peak of the phase taking it: DL takes a
   * parseable PDSCH value, UL a parseable PUSCH value, and the speed test
   * either only when both parse.
   */
  function Offer(test: Test, row: Row, thr: Throughput): Option<real> {
    match test
    case DL => if thr == Pdsch then ParseField(row, PdschColumn) else None
    case UL => if thr == Pusch then ParseField(row, PuschColumn) else None
    case Ookla =>
      match (ParseField(row, PdschColumn), ParseField(row, PuschColumn))
      case (Some(d), Some(u)) => Some(if thr == Pdsch then d else u)
      case _ => None
  }

  /** The value an event offers a peak: none unless the phase takes the event. */
  function Sample(t2: Tracker, row: Row, test: Test, thr: Throughput): Option<real> {
    if Taker(t2) == Some(test) then Offer(test, row, thr) else None
  }

  lemma TalliedPeak(test: Test, a: Acc, row: Row, thr: Throughput)
    ensures PeakOf(Tallied(test, a, row), thr) == Peak(PeakOf(a, thr), Offer(test, row, thr))
  {
    var pdsch, pusch := ParseField(row, PdschColumn), ParseField(row, PuschColumn);
    match test
    case DL => assert Tallied(test, a, row).dlPeak == Peak(a.dlPeak, pdsch);
    case UL => assert Tallied(test, a, row).ulPeak == Peak(a.ulPeak, pusch);
    case Ookla =>
  }

  lemma AggregatePeak(t: Tracker, row: Row, test: Test, thr: Throughput)
    ensures PeakOf(PhaseOf(Aggregate(t, row), test).acc, thr)
            == Peak(PeakOf(PhaseOf(t, test).acc, thr), Sample(t, row, test, thr))
  {
    AggregateAcc(t, row, test);
    TalliedPeak(test, PhaseOf(t, test).acc, row, thr);
  }

  /** The values a run offers one peak, in order. */
  function Samples(lay: Layout, evs: seq<Event>, test: Test, thr: Throughput): seq<real> {
    if |evs| == 0 then []
    else
      var init, e := evs[..|evs| - 1], evs[|evs| - 1];
      Samples(lay, init, test, thr)
      + match Run(lay, init)
        case None => []
        case Some(t) =>
          match Marked(lay, t, e)
          case None => []
          case Some(t2) =>
            match Sample(t2, e.row, test, thr)
            case None => []
            case Some(x) => [x]
  }

  /** The running maximum starting from the initial 0 (nrrf4.py:57). */
  function MaxOf(xs: seq<real>): real {
    if |xs| == 0 then 0.0 else Max(MaxOf(xs[..|xs| - 1]), xs[|xs| - 1])
  }

  /** The maximum is at least 0 and every value, and is 0 or one of the values. */
  lemma {:induction false} MaxOfBounds(xs: seq<real>)
    ensures MaxOf(xs) >= 0.0
    ensures forall i :: 0 <= i < |xs| ==> xs[i] <= MaxOf(xs)
    ensures MaxOf(xs) == 0.0 || MaxOf(xs) in xs
  {
    if |xs| > 0 {
      var init := xs[..|xs| - 1];
      MaxOfBounds(init);
      assert forall i :: 0 <= i < |init| ==> xs[i] == init[i];
      if MaxOf(xs) != 0.0 && MaxOf(xs) != xs[|xs| - 1] {
        assert MaxOf(xs) in init;
      }
    }
  }

  lemma StepPeak(lay: Layout, t: Tracker, e: Event, test: Test, thr: Throughput)
    requires Step(lay, t, e).Some?
    ensures Marked(lay, t, e).Some?
    ensures PeakOf(PhaseOf(Step(lay, t, e).value, test).acc, thr)
            == Peak(PeakOf(PhaseOf(t, test).acc, thr), Sample(Marked(lay, t, e).value, e.row, test, thr))
  {
    var t2 := Marked(lay, t, e).value;
    AggregatePeak(t2, e.row, test, thr);
    assert Step(lay, t, e).value == Averages(Aggregate(t2, e.row), e.row);
    assert PhaseOf(t2, test).acc == PhaseOf(t, test).acc;
  }

  /**
   * Each peak is the maximum of 0 and every value its phase was offered, so
   * it is at least 0, at least each such value, and 0 or one of them.
   */
  lemma {:induction false} PeakIsMax(lay: Layout, evs: seq<Event>, test: Test, thr: Throughput)
    requires Run(lay, evs).Some?
    ensures PeakOf(PhaseOf(Run(lay, evs).value, test).acc, thr) == MaxOf(Samples(lay, evs, test, thr))
  {
    if |evs| > 0 {
      var init, e := evs[..|evs| - 1], evs[|evs| - 1];
      RunLast(lay, evs);
      var t := Run(lay, init).value;
      PeakIsMax(lay, init, test, thr);
      StepPeak(lay, t, e, test, thr);
      var xs := Samples(lay, init, test, thr);
      var offer := Sample(Marked(lay, t, e).value, e.row, test, thr);
      if offer.Some? {
        assert Samples(lay, evs, test, thr) == xs + [offer.value];
        MaxOfSnoc(xs, offer.value);
        assert xs + [offer.value] == Samples(lay, evs, test, thr);
      } else {
        assert Samples(lay, evs, test, thr) == xs;
      }
    }
  }

  lemma MaxOfSnoc(xs: seq<real>, x: real)
    ensures MaxOf(xs + [x]) == Max(MaxOf(xs), x)
  {
    assert (xs + [x])[..|xs|] == xs;
  }

  // ---------------------------------------------------------------- flags on the marker events

  /** The start event of a phase is aggregated into that phase. */
  lemma StartIsTaken(lay: Layout, t: Tracker, e: Event)
    requires Marked(lay, t, e).Some?
    ensures Contains(e.part, DlStartMarker) ==> Taker(Marked(lay, t, e).value) == Some(DL)
    ensures !Contains(e.part, DlStartMarker) && Contains(e.part, UlStartMarker)
            ==> Taker(Marked(lay, t, e).value) == Some(UL)
    ensures (!Contains(e.part, DlStartMarker) && !Contains(e.part, UlStartMarker)
             && Contains(e.part, OoklaStartMarker)) ==> Taker(Marked(lay, t, e).value) == Some(Ookla)
  {
  }

  /** A Complete event is not aggregated into the phases it closes. */
  lemma CompleteIsNotTaken(lay: Layout, t: Tracker, e: Event)
    requires Marked(lay, t, e).Some?
    requires !Contains(e.part, DlStartMarker) && !Contains(e.part, UlStartMarker)
             && !Contains(e.part, OoklaStartMarker)
    ensures Contains(e.part, IperfCompleteMarker) ==> Taker(Marked(lay, t, e).value) !in {Some(DL), Some(UL)}
    ensures !Contains(e.part, IperfCompleteMarker) && Contains(e.part, OoklaCompleteMarker)
            ==> Taker(Marked(lay, t, e).value) != Some(Ookla)
  {
  }

  /**
   * `"Iperf - Complete"` ends DL if DL is started and unended, whatever flag
   * is set; otherwise it ends UL if UL is; otherwise it records no end.
   * Either way both Iperf flags end false and nothing else moves.
   */
  lemma IperfComplete(lay: Layout, t: Tracker, e: Event)
    requires !Contains(e.part, DlStartMarker) && !Contains(e.part, UlStartMarker)
             && !Contains(e.part, OoklaStartMarker) && Contains(e.part, IperfCompleteMarker)
    ensures Marked(lay, t, e).Some?
    ensures var t2 := Marked(lay, t, e).value;
            && !t2.dl.active && !t2.ul.active && t2.ookla == t.ookla
            && t2.dl.start == t.dl.start && t2.ul.start == t.ul.start
            && t2.dl.end == (if t.dl.Open() then Some(|t.data|) else t.dl.end)
            && t2.ul.end == (if !t.dl.Open() && t.ul.Open() then Some(|t.data|) else t.ul.end)
  {
  }

  /** The phase whose start marker a part holds, DL before UL before Ookla (nrrf4.py:73-87). */
  function StartOf(part: string): Option<Test> {
    if Contains(part, DlStartMarker) then Some(DL)
    else if Contains(part, UlStartMarker) then Some(UL)
    else if Contains(part, OoklaStartMarker) then Some(Ookla)
    else None
  }

  /**
   * A start marker records the event's index as its phase's start and the
   * row's context as its start info, overwriting any earlier start; it keeps
   * the phase's end, so a restart after an end leaves that end in place. The
   * phase becomes the only active one and no other mark moves. When a context
   * column is missing, `row[...]` raises `KeyError` and there is no result.
   */
  lemma StartMarks(lay: Layout, t: Tracker, e: Event, test: Test)
    requires StartOf(e.part) == Some(test)
    ensures Marked(lay, t, e).Some? <==> StartInfoOf(e.row).Some?
    ensures Marked(lay, t, e).Some? ==>
              var p, q := PhaseOf(t, test), PhaseOf(Marked(lay, t, e).value, test);
              q.start == Some(|t.data|) && q.info == StartInfoOf(e.row) && q.end == p.end && q.active
    ensures Marked(lay, t, e).Some? ==>
              forall u :: u != test ==>
                var p, q := PhaseOf(t, u), PhaseOf(Marked(lay, t, e).value, u);
                q.start == p.start && q.end == p.end && q.info == p.info && !q.active
  {
  }

  /**
   * `"Speedtest - Complete"` (with no start or Iperf marker before it in the
   * chain) sets the speed-test end to the event's index whether or not the
   * phase was started or already ended, clears its flag, and leaves both
   * Iperf phases as they were.
   */
  lemma OoklaComplete(lay: Layout, t: Tracker, e: Event)
    requires StartOf(e.part) == None && !Contains(e.part, IperfCompleteMarker)
             && Contains(e.part, OoklaCompleteMarker)
    ensures Marked(lay, t, e).Some?
    ensures var t2 := Marked(lay, t, e).value;
            && t2.ookla.end == Some(|t.data|) && !t2.ookla.active
            && t2.ookla.start == t.ookla.start && t2.ookla.info == t.ookla.info
            && t2.dl == t.dl && t2.ul == t.ul
  {
  }

  /** A part holding no marker only appends its entry. */
  lemma NoMarker(lay: Layout, t: Tracker, e: Event)
    requires StartOf(e.part) == None && !Contains(e.part, IperfCompleteMarker)
             && !Contains(e.part, OoklaCompleteMarker)
    ensures Marked(lay, t, e) == Some(t.(data := t.data + [EntryOf(lay, e)]))
  {
  }

  // ---------------------------------------------------------------- average lists

  lemma AveragesLists(t: Tracker, row: Row, test: Test)
    ensures PhaseOf(Averages(t, row), test).lists
            == if Window(t) == Some(test) then Collect(PhaseOf(t, test).lists, row) else PhaseOf(t, test).lists
  {
  }

  /**
   * Values go to the DL lists while DL is started and unended, else to UL,
   * else to the speed test, and the window is decided after the event's
   * markers: the start event is averaged and the closing event is not.
   */
  lemma StepLists(lay: Layout, t: Tracker, e: Event, test: Test)
    requires Step(lay, t, e).Some?
    ensures Marked(lay, t, e).Some?
    ensures PhaseOf(Step(lay, t, e).value, test).lists
            == if Window(Marked(lay, t, e).value) == Some(test) then Collect(PhaseOf(t, test).lists, e.row)
               else PhaseOf(t, test).lists
  {
    var t2 := Marked(lay, t, e).value;
    var t3 := Aggregate(t2, e.row);
    assert Step(lay, t, e).value == Averages(t3, e.row);
    MarkedKeepsLists(lay, t, e, test);
    SameWindow(t3, t2, test);
    AveragesLists(t3, e.row, test);
  }

  lemma MarkedKeepsLists(lay: Layout, t: Tracker, e: Event, test: Test)
    requires Marked(lay, t, e).Some?
    ensures PhaseOf(Marked(lay, t, e).value, test).lists == PhaseOf(t, test).lists
  {
  }

  /** Trackers that agree on marks and lists agree on the window and on every phase's lists. */
  lemma SameWindow(r: Tracker, t: Tracker, test: Test)
    requires SameMarks(r.dl, t.dl) && SameMarks(r.ul, t.ul) && SameMarks(r.ookla, t.ookla)
    requires r.dl.lists == t.dl.lists && r.ul.lists == t.ul.lists && r.ookla.lists == t.ookla.lists
    ensures Window(r) == Window(t)
    ensures PhaseOf(r, test).lists == PhaseOf(t, test).lists
  {
  }

  /** The value a row offers column `c`'s list: `float(row[c])`, if it parses. */
  function Parsed(row: Row, c: string): seq<real> {
    match ParseField(row, c)
    case Some(v) => [v]
    case None => []
  }

  /** The values a run appends to a phase's list for column `c`, in order. */
  function Gathered(lay: Layout, evs: seq<Event>, test: Test, c: string): seq<real> {
    if |evs| == 0 then []
    else
      var init, e := evs[..|evs| - 1], evs[|evs| - 1];
      Gathered(lay, init, test, c)
      + match Run(lay, init)
        case None => []
        case Some(t) =>
          match Marked(lay, t, e)
          case None => []
          case Some(t2) => if Window(t2) == Some(test) then Parsed(e.row, c) else []
  }

  lemma GatheredLast(lay: Layout, evs: seq<Event>, test: Test, c: string)
    requires |evs| > 0 && Run(lay, evs).Some?
    ensures Run(lay, evs[..|evs| - 1]).Some?
    ensures Marked(lay, Run(lay, evs[..|evs| - 1]).value, evs[|evs| - 1]).Some?
    ensures Gathered(lay, evs, test, c)
            == Gathered(lay, evs[..|evs| - 1], test, c)
               + if Window(Marked(lay, Run(lay, evs[..|evs| - 1]).value, evs[|evs| - 1]).value) == Some(test)
                 then Parsed(evs[|evs| - 1].row, c) else []
  {
    RunLast(lay, evs);
  }

  /**
   * Each phase keeps one list per averaged column, and the list holds every
   * parseable value of that column on the events of the phase's window, in
   * order.
   */
  lemma {:induction false} ListsGathered(lay: Layout, evs: seq<Event>, test: Test)
    requires Run(lay, evs).Some?
    ensures forall c :: c in PhaseOf(Run(lay, evs).value, test).lists <==> c in lay.averaged
    ensures forall c :: c in PhaseOf(Run(lay, evs).value, test).lists ==>
              PhaseOf(Run(lay, evs).value, test).lists[c] == Gathered(lay, evs, test, c)
  {
    if |evs| > 0 {
      var init, e := evs[..|evs| - 1], evs[|evs| - 1];
      RunLast(lay, evs);
      var t := Run(lay, init).value;
      ListsGathered(lay, init, test);
      StepLists(lay, t, e, test);
      forall c | c in PhaseOf(Run(lay, evs).value, test).lists
        ensures PhaseOf(Run(lay, evs).value, test).lists[c] == Gathered(lay, evs, test, c)
      {
        GatheredLast(lay, evs, test, c);
      }
    }
  }
}
