/**
 * KPI scoring in main.py: `compare_values`, `evaluate_criterion`, the
 * `Attach_Successrate` formula and the evaluation loop of `process_zip_file`
 * (main.py:269-344), which scores one drive-test file against the criteria
 * set of the site whose id is the file's numeric id.
 */
module Evaluate {
  import opened Wrappers
  import opened Text
  import opened NrRfReport
  import opened Summary

  // ---------------------------------------------------------------- compare_values

  /** The outcome of `compare_values`: a truth value, the `ValueError` or the `TypeError` it can raise. */
  datatype Comparison = Holds(b: bool) | UnknownCondition | Incomparable

  const Operators: seq<string> := [">=", "<=", ">", "<"]

  /**
   * `compare_values(value, condition, threshold)`. The condition is tested
   * first, so an unknown one raises `ValueError` whatever the threshold; a
   * known one against a NULL threshold (`None`) raises `TypeError`.
   */
  function CompareValues(value: real, condition: string, threshold: Option<real>): (r: Comparison)
    ensures r == UnknownCondition <==> condition !in Operators
    ensures r == Incomparable <==> condition in Operators && threshold.None?
    ensures condition == ">=" && threshold.Some? ==> r == Holds(value >= threshold.value)
    ensures condition == "<=" && threshold.Some? ==> r == Holds(value <= threshold.value)
    ensures condition == ">" && threshold.Some? ==> r == Holds(value > threshold.value)
    ensures condition == "<" && threshold.Some? ==> r == Holds(value < threshold.value)
  {
    if condition == ">=" then (if threshold.None? then Incomparable else Holds(value >= threshold.value))
    else if condition == "<=" then (if threshold.None? then Incomparable else Holds(value <= threshold.value))
    else if condition == ">" then (if threshold.None? then Incomparable else Holds(value > threshold.value))
    else if condition == "<" then (if threshold.None? then Incomparable else Holds(value < threshold.value))
    else UnknownCondition
  }

  /** `>=` and `<`, and `<=` and `>`, are each other's negation on every value and threshold. */
  lemma ComplementaryOperators(value: real, t: real)
    ensures CompareValues(value, ">=", Some(t)).b == !CompareValues(value, "<", Some(t)).b
    ensures CompareValues(value, "<=", Some(t)).b == !CompareValues(value, ">", Some(t)).b
    ensures CompareValues(value, ">=", Some(t)).b && CompareValues(value, "<=", Some(t)).b <==> value == t
  {
  }

  // ---------------------------------------------------------------- evaluate_criterion

  datatype Status = Pass | ConditionalPass | Fail | NoData | Error

  /** The status text stored in an evaluation entry. */
  function StatusText(s: Status): string {
    match s
    case Pass => "Pass"
    case ConditionalPass => "Conditional Pass"
    case Fail => "Fail"
    case NoData => "No data"
    case Error => "Error"
  }

  /** A row of the `criteria` table (main.py:92-105); a NULL float column is `None`. */
  datatype Criterion = Criterion(criteriaType: string, criteriaValue: string, kpiName: string,
                                 passCondition: string, passValue: Option<real>,
                                 conditionalCondition: string, conditionalValue: Option<real>,
                                 unit: string)

  function PassComparison(c: Criterion, value: real): Comparison {
    CompareValues(value, c.passCondition, c.passValue)
  }

  function ConditionalComparison(c: Criterion, value: real): Comparison {
    CompareValues(value, c.conditionalCondition, c.conditionalValue)
  }

  /**
   * `evaluate_criterion(criterion, value)`: `None` when the `TypeError` of a
   * comparison escapes it (it catches only `ValueError`). The conditional
   * comparison is made only when the pass comparison is false.
   */
  function EvaluateCriterion(c: Criterion, value: Option<real>): (r: Option<Status>)
    ensures r == Some(NoData) <==> value.None?
    ensures r == Some(Pass) <==> value.Some? && PassComparison(c, value.value) == Holds(true)
    ensures r == Some(ConditionalPass) <==>
              value.Some? && PassComparison(c, value.value) == Holds(false)
              && ConditionalComparison(c, value.value) == Holds(true)
    ensures r == Some(Fail) <==>
              value.Some? && PassComparison(c, value.value) == Holds(false)
              && ConditionalComparison(c, value.value) == Holds(false)
    ensures r == Some(Error) <==>
              value.Some? && (PassComparison(c, value.value) == UnknownCondition
                              || (PassComparison(c, value.value) == Holds(false)
                                  && ConditionalComparison(c, value.value) == UnknownCondition))
    ensures r.None? <==>
              value.Some? && (PassComparison(c, value.value) == Incomparable
                              || (PassComparison(c, value.value) == Holds(false)
                                  && ConditionalComparison(c, value.value) == Incomparable))
  {
    match value
    case None => Some(NoData)
    case Some(v) =>
      match PassComparison(c, v)
      case UnknownCondition => Some(Error)
      case Incomparable => None
      case Holds(true) => Some(Pass)
      case Holds(false) =>
        match ConditionalComparison(c, v)
        case UnknownCondition => Some(Error)
        case Incomparable => None
        case Holds(b) => Some(if b then ConditionalPass else Fail)
  }

  /**
   * A pass short-circuits: whatever the conditional operator and threshold,
   * even an unknown operator or a NULL threshold, the status is Pass.
   */
  lemma PassShortCircuits(c: Criterion, v: real, condition: string, threshold: Option<real>)
    requires PassComparison(c, v) == Holds(true)
    ensures EvaluateCriterion(c.(conditionalCondition := condition, conditionalValue := threshold), Some(v)) == Some(Pass)
  {
  }

  /**
   * With `>=` for both thresholds, a value at or above the conditional
   * threshold and below the pass threshold is a conditional pass.
   */
  lemma ConditionalPassBand(c: Criterion, v: real, p: real, q: real)
    requires c.passCondition == ">=" && c.passValue == Some(p)
    requires c.conditionalCondition == ">=" && c.conditionalValue == Some(q)
    requires q <= v < p
    ensures EvaluateCriterion(c, Some(v)) == Some(ConditionalPass)
  {
  }

  // ---------------------------------------------------------------- the KPI values

  /** A value of `kpi_data`: the text a report holds, a computed number, or `None`. */
  datatype KpiValue = Text(s: string) | Number(x: real) | Missing

  /** `kpi_data`: its items in insertion order. */
  type KpiData = seq<(string, KpiValue)>

  const KpiNames: seq<string> := ["PDSCH_Peak", "PUSCH_Peak", "Ping _avg", "Ookla_DL(Mbps)",
                                  "Ookla_UL(Mbps)", "Attach_Successrate", "PDSCH_Avg", "PUSCH_Avg"]

  /** `kpi_data[name]` when `name in kpi_data`, else `None`. */
  function KpiLookup(kpi: KpiData, name: string): Option<KpiValue> {
    if |kpi| == 0 then None else if kpi[0].0 == name then Some(kpi[0].1) else KpiLookup(kpi[1..], name)
  }

  /** `d.get(key)` on a report dictionary. */
  function Field(d: Dict, key: string): KpiValue {
    match Lookup(d, key)
    case Some(s) => Text(s)
    case None => Missing
  }

  /**
   * The `Attach_Successrate` expression (main.py:297): completes over
   * requests, in percent, when the (already halved) request count is
   * positive, else 0; with no summary file for the id both counts default
   * and the rate is 0.
   */
  function AttachSuccessRate(summary: Option<SummaryReport>): (rate: real)
    ensures summary.None? || summary.value.attachRequests <= 0.0 ==> rate == 0.0
    ensures summary.Some? && summary.value.attachRequests > 0.0 ==>
              rate * summary.value.attachRequests == summary.value.attachCompletes as real * 100.0
  {
    match summary
    case None => 0.0
    case Some(s) =>
      if s.attachRequests > 0.0 then s.attachCompletes as real / s.attachRequests * 100.0 else 0.0
  }

  /** The `kpi_data` dictionary built from one file's records (main.py:281-300). */
  function KpiDataOf(nr: NrReport, summary: Option<SummaryReport>): KpiData {
    [("PDSCH_Peak", Field(nr.dl, "PDSCH_Peak")),
     ("PUSCH_Peak", Field(nr.ul, "PUSCH_Peak")),
     ("Ping _avg", if summary.Some? then Text(summary.value.pingAvg) else Missing),
     ("Ookla_DL(Mbps)", Field(nr.ookla, "Ookla_DL(Mbps)_Peak")),
     ("Ookla_UL(Mbps)", Field(nr.ookla, "Ookla_UL(Mbps)_Peak")),
     ("Attach_Successrate", Number(AttachSuccessRate(summary))),
     ("PDSCH_Avg", Field(nr.dl, "Avg_NR_Total_PDSCH Tput(Mbps)")),
     ("PUSCH_Avg", Field(nr.ul, "Avg_NR_Total_PUSCH Tput(Mbps)"))]
  }

  /** The keys of `kpi_data`, in order. */
  function Keys(kpi: KpiData): (keys: seq<string>)
    ensures |keys| == |kpi| && forall i :: 0 <= i < |kpi| ==> keys[i] == kpi[i].0
  {
    if |kpi| == 0 then [] else [kpi[0].0] + Keys(kpi[1..])
  }

  /** `name in kpi_data` holds exactly for the keys. */
  lemma {:induction false} KpiLookupFinds(kpi: KpiData, name: string)
    ensures KpiLookup(kpi, name).Some? <==> name in Keys(kpi)
  {
    if |kpi| > 0 {
      KpiLookupFinds(kpi[1..], name);
      assert Keys(kpi) == [kpi[0].0] + Keys(kpi[1..]);
    }
  }

  /** The lookup of a key finds its first item. */
  lemma {:induction false} KpiLookupAt(kpi: KpiData, i: nat)
    requires i < |kpi| && forall j :: 0 <= j < i ==> kpi[j].0 != kpi[i].0
    ensures KpiLookup(kpi, kpi[i].0) == Some(kpi[i].1)
  {
    if i > 0 {
      KpiLookupAt(kpi[1..], i - 1);
    }
  }

  /** A name is a KPI of `kpi_data` exactly when it is one of the eight names. */
  lemma KpiNamesAreKeys(nr: NrReport, summary: Option<SummaryReport>, name: string)
    ensures KpiLookup(KpiDataOf(nr, summary), name).Some? <==> name in KpiNames
  {
    KpiLookupFinds(KpiDataOf(nr, summary), name);
    assert Keys(KpiDataOf(nr, summary)) == KpiNames;
  }

  /** `float(value) if value is not None else None`: a reading, no value, or the `ValueError`. */
  datatype Conversion = NoValue | Float(x: real) | NotFloat

  function ToFloat(v: KpiValue): (r: Conversion)
    ensures r == NoValue <==> v == Missing
    ensures v.Number? ==> r == Float(v.x)
    ensures v.Text? ==> (r == NotFloat <==> ParseReal(v.s).None?)
  {
    match v
    case Missing => NoValue
    case Number(x) => Float(x)
    case Text(s) => match ParseReal(s) case Some(x) => Float(x) case None => NotFloat
  }

  // ---------------------------------------------------------------- the evaluation entries

  /**
   * One item of the `evaluation` list: a scored criterion, or the single
   * `{"error": ...}` item written when no site matches the file.
   */
  datatype Entry =
    | Evaluation(kpiName: string, result: KpiValue, status: Status,
                 passValue: Option<real>, conditionalValue: Option<real>, unit: string)
    | NoSiteFound

  function Scored(c: Criterion, result: KpiValue, status: Status): Entry {
    Evaluation(c.kpiName, result, status, c.passValue, c.conditionalValue, c.unit)
  }

  /**
   * The entry one criterion adds (main.py:305-339): "No data" for a name that
   * is not a KPI; "Error" with the raw value when `float()` or a comparison
   * raises; otherwise the converted value and its status.
   */
  function EntryFor(kpi: KpiData, c: Criterion): Entry {
    match KpiLookup(kpi, c.kpiName)
    case None => Scored(c, Missing, NoData)
    case Some(v) =>
      match ToFloat(v)
      case NotFloat => Scored(c, v, Error)
      case NoValue => Scored(c, Missing, NoData)
      case Float(x) =>
        match EvaluateCriterion(c, Some(x))
        case None => Scored(c, v, Error)
        case Some(s) => Scored(c, Number(x), s)
  }

  /**
   * Every entry carries its criterion's name, thresholds and unit; its status
   * is "No data" exactly when the name is not a KPI or the KPI has no value,
   * and "Error" with the raw text as result when that text is not a number.
   */
  lemma EntryForFields(kpi: KpiData, c: Criterion)
    ensures EntryFor(kpi, c).Evaluation?
    ensures EntryFor(kpi, c).kpiName == c.kpiName && EntryFor(kpi, c).unit == c.unit
    ensures EntryFor(kpi, c).passValue == c.passValue
    ensures EntryFor(kpi, c).conditionalValue == c.conditionalValue
    ensures EntryFor(kpi, c).status == NoData <==>
              KpiLookup(kpi, c.kpiName).None? || KpiLookup(kpi, c.kpiName) == Some(Missing)
    ensures KpiLookup(kpi, c.kpiName).None? ==> EntryFor(kpi, c).result == Missing
    ensures forall s :: KpiLookup(kpi, c.kpiName) == Some(Text(s)) && ParseReal(s).None? ==>
              EntryFor(kpi, c).status == Error && EntryFor(kpi, c).result == Text(s)
  {
  }

  /**
   * A scored KPI is scored on its value: when the KPI's value converts to
   * `x`, the status is `evaluate_criterion(c, x)`, or "Error" when that
   * raises, and the result is `x` unless it raised.
   */
  lemma EntryForScores(kpi: KpiData, c: Criterion, x: real)
    requires KpiLookup(kpi, c.kpiName).Some? && ToFloat(KpiLookup(kpi, c.kpiName).value) == Float(x)
    ensures EvaluateCriterion(c, Some(x)).Some? ==>
              EntryFor(kpi, c).status == EvaluateCriterion(c, Some(x)).value && EntryFor(kpi, c).result == Number(x)
    ensures EvaluateCriterion(c, Some(x)).None? ==>
              EntryFor(kpi, c).status == Error && EntryFor(kpi, c).result == KpiLookup(kpi, c.kpiName).value
  {
  }

  /** `for criterion in criteria_list: evaluation_results.append(...)` (main.py:280, 304-339). */
  method EvaluateCriteria(criteria: seq<Criterion>, kpi: KpiData) returns (entries: seq<Entry>)
    ensures |entries| == |criteria|
    ensures forall i :: 0 <= i < |criteria| ==> entries[i] == EntryFor(kpi, criteria[i])
  {
    entries := [];
    for i := 0 to |criteria|
      invariant |entries| == i
      invariant forall j :: 0 <= j < i ==> entries[j] == EntryFor(kpi, criteria[j])
    {
      var c := criteria[i];
      var entry;
      match KpiLookup(kpi, c.kpiName) {
        case None =>
          entry := Scored(c, Missing, NoData);
        case Some(v) =>
          match ToFloat(v) {
            case NotFloat =>
              entry := Scored(c, v, Error);
            case NoValue =>
              entry := Scored(c, Missing, NoData);
            case Float(x) =>
              var status := EvaluateCriterion(c, Some(x));
              entry := if status.None? then Scored(c, v, Error) else Scored(c, Number(x), status.value);
          }
      }
      entries := entries + [entry];
    }
  }

  // ---------------------------------------------------------------- one file, all files

  /** A row of the `sites` table (main.py:80-90): the criteria set it is scored against. */
  datatype Site = Site(siteId: string, criteriaType: string, criteriaValue: string)

  /** The criteria query (main.py:274-277): the rows of the set the site names, in table order. */
  function CriteriaFor(site: Site, table: seq<Criterion>): (r: seq<Criterion>)
    ensures forall c :: c in r <==> (c in table && c.criteriaType == site.criteriaType
                                     && c.criteriaValue == site.criteriaValue)
    ensures |r| <= |table|
    ensures forall c :: multiset(r)[c] ==
              if c.criteriaType == site.criteriaType && c.criteriaValue == site.criteriaValue
              then multiset(table)[c] else 0
  {
    if |table| == 0 then []
    else
      var init := CriteriaFor(site, table[..|table| - 1]);
      var c := table[|table| - 1];
      assert table == table[..|table| - 1] + [c];
      assert forall d :: d in table <==> d in table[..|table| - 1] || d == c;
      if c.criteriaType == site.criteriaType && c.criteriaValue == site.criteriaValue then init + [c] else init
  }

  /** `r` is `table` at the increasing positions `pos`: an in-order subsequence. */
  predicate Picks(pos: seq<nat>, table: seq<Criterion>, r: seq<Criterion>) {
    && |pos| == |r|
    && (forall i :: 0 <= i < |pos| ==> pos[i] < |table| && table[pos[i]] == r[i])
    && (forall i, j :: 0 <= i < j < |pos| ==> pos[i] < pos[j])
  }

  lemma PicksGrow(pos: seq<nat>, table: seq<Criterion>, r: seq<Criterion>, c: Criterion)
    requires Picks(pos, table, r)
    ensures Picks(pos, table + [c], r)
    ensures Picks(pos + [|table|], table + [c], r + [c])
  {
    var t := table + [c];
    assert forall i :: 0 <= i < |table| ==> t[i] == table[i];
  }

  /** The query keeps the table's order: the selected rows sit at increasing positions of the table. */
  lemma {:induction false} CriteriaForInOrder(site: Site, table: seq<Criterion>)
    ensures exists pos :: Picks(pos, table, CriteriaFor(site, table))
  {
    if |table| == 0 {
      assert Picks([], table, CriteriaFor(site, table));
    } else {
      var init, c := table[..|table| - 1], table[|table| - 1];
      assert table == init + [c];
      CriteriaForInOrder(site, init);
      var pos :| Picks(pos, init, CriteriaFor(site, init));
      PicksGrow(pos, init, CriteriaFor(site, init), c);
      CriteriaForLast(site, table);
    }
  }

  lemma CriteriaForLast(site: Site, table: seq<Criterion>)
    requires |table| > 0
    ensures var init, c := table[..|table| - 1], table[|table| - 1];
            CriteriaFor(site, table)
            == if c.criteriaType == site.criteriaType && c.criteriaValue == site.criteriaValue
               then CriteriaFor(site, init) + [c] else CriteriaFor(site, init)
  {
  }

  /**
   * The `evaluation` list written for one NR-RF file (main.py:271-344); `None`
   * when the file's record is `None` (its processing failed), which makes the
   * whole request fail.
   */
  function EvaluateFile(nr: Option<NrReport>, site: Option<Site>, table: seq<Criterion>,
                        summary: Option<SummaryReport>): Option<seq<Entry>> {
    if nr.None? then None
    else if site.None? then Some([NoSiteFound])
    else
      var criteria := CriteriaFor(site.value, table);
      var kpi := KpiDataOf(nr.value, summary);
      Some(seq(|criteria|, i requires 0 <= i < |criteria| => EntryFor(kpi, criteria[i])))
  }

  /** One file's `evaluation` list, computed by the loop. */
  method EvaluateOne(nr: Option<NrReport>, site: Option<Site>, table: seq<Criterion>,
                     summary: Option<SummaryReport>) returns (r: Option<seq<Entry>>)
    ensures r == EvaluateFile(nr, site, table, summary)
  {
    if nr.None? {
      return None;
    }
    if site.None? {
      return Some([NoSiteFound]);
    }
    var criteria := CriteriaFor(site.value, table);
    var kpi := KpiDataOf(nr.value, summary);
    var entries := EvaluateCriteria(criteria, kpi);
    assert entries == seq(|criteria|, i requires 0 <= i < |criteria| => EntryFor(kpi, criteria[i]));
    r := Some(entries);
  }

  /**
   * With no site for the file the list is the single error item; with a
   * site it holds one scored entry per criterion of the site's set, in table
   * order, and each one is that criterion's entry.
   */
  lemma EvaluateFileShape(nr: NrReport, site: Option<Site>, table: seq<Criterion>, summary: Option<SummaryReport>)
    ensures site.None? ==> EvaluateFile(Some(nr), site, table, summary) == Some([NoSiteFound])
    ensures site.Some? ==>
              var r := EvaluateFile(Some(nr), site, table, summary);
              var criteria := CriteriaFor(site.value, table);
              r.Some? && |r.value| == |criteria|
              && forall i :: 0 <= i < |criteria| ==>
                   r.value[i] == EntryFor(KpiDataOf(nr, summary), criteria[i])
                   && r.value[i].Evaluation? && r.value[i].kpiName == criteria[i].kpiName
  {
    if site.Some? {
      var criteria := CriteriaFor(site.value, table);
      forall i | 0 <= i < |criteria| ensures EntryFor(KpiDataOf(nr, summary), criteria[i]).Evaluation?
        && EntryFor(KpiDataOf(nr, summary), criteria[i]).kpiName == criteria[i].kpiName
      {
        EntryForFields(KpiDataOf(nr, summary), criteria[i]);
      }
    }
  }

  /**
   * The loop over the renamed NR-RF results (main.py:270-344): each file's
   * numeric id selects its site (`siteid_sectorid`) and its summary; any file
   * whose record is `None` makes the whole request fail.
   */
  function EvaluateAllSpec(files: seq<(string, Option<NrReport>)>, sites: map<string, Site>,
                           table: seq<Criterion>, summaries: map<string, SummaryReport>): Option<seq<seq<Entry>>>
  {
    if |files| == 0 then Some([])
    else
      match EvaluateAllSpec(files[..|files| - 1], sites, table, summaries)
      case None => None
      case Some(done) =>
        var (id, nr) := files[|files| - 1];
        match EvaluateFile(nr, if id in sites then Some(sites[id]) else None, table,
                           if id in summaries then Some(summaries[id]) else None)
        case None => None
        case Some(entries) => Some(done + [entries])
  }

  method EvaluateAll(files: seq<(string, Option<NrReport>)>, sites: map<string, Site>,
                     table: seq<Criterion>, summaries: map<string, SummaryReport>) returns (r: Option<seq<seq<Entry>>>)
    ensures r == EvaluateAllSpec(files, sites, table, summaries)
  {
    var done: seq<seq<Entry>> := [];
    for i := 0 to |files|
      invariant EvaluateAllSpec(files[..i], sites, table, summaries) == Some(done)
    {
      assert files[..i + 1][..i] == files[..i];
      var (id, nr) := files[i];
      var entries := EvaluateOne(nr, if id in sites then Some(sites[id]) else None, table,
                                 if id in summaries then Some(summaries[id]) else None);
      if entries.None? {
        AbortStays(files, sites, table, summaries, i + 1);
        assert files[..|files|] == files;
        return None;
      }
      done := done + [entries.value];
    }
    assert files[..|files|] == files;
    r := Some(done);
  }

  /** Once a prefix fails, every longer prefix fails. */
  lemma {:induction false} AbortStays(files: seq<(string, Option<NrReport>)>, sites: map<string, Site>,
                                      table: seq<Criterion>, summaries: map<string, SummaryReport>, n: nat)
    requires n <= |files| && EvaluateAllSpec(files[..n], sites, table, summaries).None?
    ensures EvaluateAllSpec(files, sites, table, summaries).None?
    decreases |files| - n
  {
    if n < |files| {
      assert files[..n + 1][..n] == files[..n];
      AbortStays(files, sites, table, summaries, n + 1);
    } else {
      assert files[..n] == files;
    }
  }

  /**
   * The request fails exactly when some file's record is `None`; otherwise
   * there is one list per file, in order, each that file's list.
   */
  lemma {:induction false} EvaluateAllFiles(files: seq<(string, Option<NrReport>)>, sites: map<string, Site>,
                                            table: seq<Criterion>, summaries: map<string, SummaryReport>)
    ensures EvaluateAllSpec(files, sites, table, summaries).None? <==> exists i :: 0 <= i < |files| && files[i].1.None?
    ensures EvaluateAllSpec(files, sites, table, summaries).Some? ==>
              var r := EvaluateAllSpec(files, sites, table, summaries).value;
              |r| == |files|
              && forall i :: 0 <= i < |files| ==>
                   Some(r[i]) == EvaluateFile(files[i].1, if files[i].0 in sites then Some(sites[files[i].0]) else None,
                                              table, if files[i].0 in summaries then Some(summaries[files[i].0]) else None)
  {
    if |files| > 0 {
      var init := files[..|files| - 1];
      var (id, nr) := files[|files| - 1];
      var site := if id in sites then Some(sites[id]) else None;
      var summary := if id in summaries then Some(summaries[id]) else None;
      EvaluateAllFiles(init, sites, table, summaries);
      assert forall i :: 0 <= i < |init| ==> init[i] == files[i];
      EvaluateFileFails(nr, site, table, summary);
      EvaluateAllLast(files, sites, table, summaries);
      var before := EvaluateAllSpec(init, sites, table, summaries);
      var last := EvaluateFile(nr, site, table, summary);
      if before.None? {
        var i :| 0 <= i < |init| && init[i].1.None?;
        assert files[i].1.None?;
      } else if last.None? {
        assert files[|files| - 1].1.None?;
      } else {
        var r := before.value + [last.value];
        assert EvaluateAllSpec(files, sites, table, summaries) == Some(r);
        forall i | 0 <= i < |files|
          ensures files[i].1.Some?
          ensures Some(r[i]) == EvaluateFile(files[i].1, if files[i].0 in sites then Some(sites[files[i].0]) else None,
                                             table, if files[i].0 in summaries then Some(summaries[files[i].0]) else None)
        {
          if i < |init| {
            assert init[i] == files[i];
          }
        }
      }
    }
  }

  lemma EvaluateAllLast(files: seq<(string, Option<NrReport>)>, sites: map<string, Site>,
                        table: seq<Criterion>, summaries: map<string, SummaryReport>)
    requires |files| > 0
    ensures var (id, nr) := files[|files| - 1];
            EvaluateAllSpec(files, sites, table, summaries)
            == match EvaluateAllSpec(files[..|files| - 1], sites, table, summaries)
               case None => None
               case Some(done) =>
                 match EvaluateFile(nr, if id in sites then Some(sites[id]) else None, table,
                                    if id in summaries then Some(summaries[id]) else None)
                 case None => None
                 case Some(entries) => Some(done + [entries])
  {
  }

  /** A file's evaluation fails exactly when its record is `None`. */
  lemma EvaluateFileFails(nr: Option<NrReport>, site: Option<Site>, table: seq<Criterion>, summary: Option<SummaryReport>)
    ensures EvaluateFile(nr, site, table, summary).None? <==> nr.None?
  {
  }

  // ---------------------------------------------------------------- read-back of the reports

  /**
   * The PDSCH peak that is scored is the tracked peak rounded to two
   * decimals: `process_csv` writes it `.2f` and the evaluation loop reads it
   * back with `float()`.
   */
  lemma PeakReadBack(nr: NrReport, summary: Option<SummaryReport>, p: NrRf.Phase, result: string, cols: seq<string>)
    requires nr.dl == DlRecord(p, result, cols)
    ensures KpiLookup(KpiDataOf(nr, summary), "PDSCH_Peak").Some?
    ensures ToFloat(KpiLookup(KpiDataOf(nr, summary), "PDSCH_Peak").value) == Float(Round2(p.acc.dlPeak))
  {
    DlRecordFields(p, result, cols);
    ParseFixed2(p.acc.dlPeak);
  }

  /**
   * Likewise the ping average of the summary file: the scored value is the
   * mean of the non-empty `Avg` readings rounded to two decimals.
   */
  lemma PingReadBack(nr: NrReport, rows: seq<Csv.Row>)
    requires AllOk(rows)
    ensures SummarySpec(rows).Some?
    ensures KpiLookup(KpiDataOf(nr, SummarySpec(rows)), "Ping _avg").Some?
    ensures ToFloat(KpiLookup(KpiDataOf(nr, SummarySpec(rows)), "Ping _avg").value)
            == Float(Round2(Csv.Mean(Reals(rows, AvgColumn))))
  {
    SummaryFields(rows);
    var report := SummarySpec(rows).value;
    PingField(nr, report);
    ParseFixed2(Csv.Mean(Reals(rows, AvgColumn)));
  }

  /** The `Ping _avg` KPI is the summary's `ping_avg` text. */
  lemma PingField(nr: NrReport, report: SummaryReport)
    ensures KpiLookup(KpiDataOf(nr, Some(report)), "Ping _avg") == Some(Text(report.pingAvg))
  {
    KpiLookupAt(KpiDataOf(nr, Some(report)), 2);
  }
}
