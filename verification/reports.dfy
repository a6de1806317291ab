/**
  The monthly report screen: read the three sheets, stop at the first
  failure, keep the patients admitted and the breakdowns reported within the
  month, and count them by ward, doctor and equipment status.

  Timestamps are integers; `parse` stands for the date library's reading of
  ISO text (`None` for text it cannot read, an invalid date), and the month
  window's bounds are given as the integers it yields.
 */
module Reports {
  import opened Js
  import opened Seqs
  import opened Client

  const PatientsPrefix := "Error fetching patients: "
  const EquipmentPrefix := "Error fetching equipment: "
  const DutyChartPrefix := "Error fetching duty chart: "

  /** The message of the error thrown for a reply that did not come back ok,
      or `None` when all three did. A rejected request rejects the whole
      batch with the browser's message; otherwise the replies are checked in
      the order patients, equipment, duty chart, each naming the body's
      `error` or else the status number. */
  function FirstFailure(p: ReadReply, e: ReadReply, d: ReadReply): (r: Option<string>)
    ensures r.None? <==> && p.ReadResponse? && StatusOk(p.status)
                          && e.ReadResponse? && StatusOk(e.status)
                          && d.ReadResponse? && StatusOk(d.status)
    ensures p.ReadUnreachable? ==> r == Some(p.reason)
    ensures p.ReadResponse? && e.ReadUnreachable? ==> r == Some(e.reason)
    ensures p.ReadResponse? && e.ReadResponse? && d.ReadUnreachable? ==> r == Some(d.reason)
    ensures p.ReadResponse? && e.ReadResponse? && d.ReadResponse? && !StatusOk(p.status) ==>
              r == Some(PatientsPrefix + OrElse(ReadError(p.body), Decimal(p.status)))
    ensures p.ReadResponse? && e.ReadResponse? && d.ReadResponse? && StatusOk(p.status) && !StatusOk(e.status) ==>
              r == Some(EquipmentPrefix + OrElse(ReadError(e.body), Decimal(e.status)))
    ensures p.ReadResponse? && e.ReadResponse? && d.ReadResponse? && StatusOk(p.status) && StatusOk(e.status)
              && !StatusOk(d.status) ==>
              r == Some(DutyChartPrefix + OrElse(ReadError(d.body), Decimal(d.status)))
  {
    if p.ReadUnreachable? then Some(p.reason)
    else if e.ReadUnreachable? then Some(e.reason)
    else if d.ReadUnreachable? then Some(d.reason)
    else if !StatusOk(p.status) then Some(PatientsPrefix + OrElse(ReadError(p.body), Decimal(p.status)))
    else if !StatusOk(e.status) then Some(EquipmentPrefix + OrElse(ReadError(e.body), Decimal(e.status)))
    else if !StatusOk(d.status) then Some(DutyChartPrefix + OrElse(ReadError(d.body), Decimal(d.status)))
    else None
  }

  /** The time a record's date field denotes; a missing field reads as
      `undefined`, which parses to an invalid date. */
  function Stamp(r: Record, field: string, parse: string -> Option<int>): (t: Option<int>)
    ensures field !in r ==> t.None?
    ensures field in r ==> t == parse(r[field])
  {
    if field in r then parse(r[field]) else None
  }

  /** `start <= t && t <= end`: an invalid date compares false both ways. */
  predicate InWindow(t: Option<int>, start: int, end: int) {
    t.Some? && start <= t.value <= end
  }

  /** The records whose date field falls within the window, both bounds
      included. */
  function MonthFilter(rows: seq<Record>, field: string, start: int, end: int,
                       parse: string -> Option<int>): (r: seq<Record>)
    ensures forall i :: 0 <= i < |r| ==> r[i] in rows && InWindow(Stamp(r[i], field, parse), start, end)
    ensures forall i :: 0 <= i < |rows| && InWindow(Stamp(rows[i], field, parse), start, end) ==> rows[i] in r
    ensures Subsequence(r, rows)
    ensures forall x :: multiset(r)[x] == if InWindow(Stamp(x, field, parse), start, end) then multiset(rows)[x] else 0
  {
    var keep := (x: Record) => InWindow(Stamp(x, field, parse), start, end);
    FilterKeepsOrder(rows, keep);
    Filter(rows, keep)
  }

  /** The key a record is counted under: the field's text, or `"undefined"`
      when the record lacks it (the property name `undefined` converts to). */
  function KeyOf(r: Record, field: string): (k: string)
    ensures field in r ==> k == r[field]
    ensures field !in r ==> k == "undefined"
  {
    if field in r then r[field] else "undefined"
  }

  /** How many records are counted under `key`: an independent count. */
  function Occurrences(rows: seq<Record>, field: string, key: string): (n: nat)
    ensures n <= |rows|
    ensures n == 0 <==> forall i :: 0 <= i < |rows| ==> KeyOf(rows[i], field) != key
    decreases |rows|
  {
    if |rows| == 0 then 0
    else (if KeyOf(rows[0], field) == key then 1 else 0) + Occurrences(rows[1..], field, key)
  }

  /** `acc[key] || 0`. */
  function CountOf(acc: map<string, nat>, key: string): nat {
    if key in acc then acc[key] else 0
  }

  /** One step of the reducer: `acc[key] = (acc[key] || 0) + 1`. */
  function Bump(acc: map<string, nat>, key: string): (acc': map<string, nat>)
    ensures acc'.Keys == acc.Keys + {key}
    ensures CountOf(acc', key) == CountOf(acc, key) + 1
    ensures forall k :: k != key ==> CountOf(acc', k) == CountOf(acc, k)
  {
    acc[key := CountOf(acc, key) + 1]
  }

  /** `rows.reduce(step, acc)`: every record adds one to its key's count. */
  function Tally(acc: map<string, nat>, rows: seq<Record>, field: string): (h: map<string, nat>)
    ensures forall k :: k in h <==> k in acc || Occurrences(rows, field, k) > 0
    ensures forall k :: CountOf(h, k) == CountOf(acc, k) + Occurrences(rows, field, k)
    decreases |rows|
  {
    if |rows| == 0 then acc
    else Tally(Bump(acc, KeyOf(rows[0], field)), rows[1..], field)
  }

  /** A count-by-key histogram, as `calculateStats` builds each of its three:
      the keys are exactly the values present and each count is the number of
      records holding that value. */
  function Histogram(rows: seq<Record>, field: string): (h: map<string, nat>)
    ensures forall k :: k in h <==> exists i :: 0 <= i < |rows| && KeyOf(rows[i], field) == k
    ensures forall k :: k in h ==> h[k] == Occurrences(rows, field, k) && h[k] > 0
  {
    var h := Tally(map[], rows, field);
    assert forall k :: k in h ==> CountOf(h, k) == h[k];
    h
  }

  /** Some key of a non-empty map. */
  ghost function AnyKey(m: map<string, nat>): (k: string)
    requires |m| > 0
    ensures k in m
  {
    var k :| k in m; k
  }

  /** The sum of the counts of a histogram. */
  ghost function MapSum(m: map<string, nat>): nat
    decreases |m|
  {
    if |m| == 0 then 0 else m[AnyKey(m)] + MapSum(m - {AnyKey(m)})
  }

  /** The sum does not depend on which key is taken out first. */
  lemma {:induction false} MapSumRemove(m: map<string, nat>, k: string)
    requires k in m
    ensures MapSum(m) == m[k] + MapSum(m - {k})
    decreases |m|
  {
    var j := AnyKey(m);
    if j != k {
      MapSumRemove(m - {j}, k);
      MapSumRemove(m - {k}, j);
      assert (m - {j}) - {k} == (m - {k}) - {j};
    }
  }

  /** Counting one more record adds one to the total. */
  lemma BumpSum(acc: map<string, nat>, key: string)
    ensures MapSum(Bump(acc, key)) == MapSum(acc) + 1
  {
    var b := Bump(acc, key);
    MapSumRemove(b, key);
    if key in acc {
      MapSumRemove(acc, key);
      assert b - {key} == acc - {key};
    } else {
      assert b - {key} == acc;
    }
  }

  /** The reducer adds exactly one count per record. */
  lemma {:induction false} TallySum(acc: map<string, nat>, rows: seq<Record>, field: string)
    ensures MapSum(Tally(acc, rows, field)) == MapSum(acc) + |rows|
    decreases |rows|
  {
    if |rows| > 0 {
      BumpSum(acc, KeyOf(rows[0], field));
      TallySum(Bump(acc, KeyOf(rows[0], field)), rows[1..], field);
    }
  }

  /** The counts of a histogram add up to the number of records. */
  lemma HistogramTotal(rows: seq<Record>, field: string)
    ensures MapSum(Histogram(rows, field)) == |rows|
  {
    TallySum(map[], rows, field);
  }

  /** The data the report shows: the month's patients and breakdowns, and
      the duty chart as it was read. */
  datatype ReportData = ReportData(patients: seq<Record>, equipment: seq<Record>, dutyChart: ReadBody)

  datatype Stats = Stats(wardDistribution: map<string, nat>, doctorWorkload: map<string, nat>,
                         equipmentStatus: map<string, nat>)

  datatype ReportView = ReportView(data: ReportData, stats: Stats, status: Status)

  const WardField := "Ward"
  const DoctorField := "DoctorName"
  const StatusField := "Status"
  const AdmissionField := "DateOfAdmission"
  const BreakdownField := "BreakdownDate"

  const DutyReduceFails := "dutyChart.reduce is not a function"
  const PatientsFilterFails := "patients.filter is not a function"
  const EquipmentFilterFails := "equipment.filter is not a function"

  /** `calculateStats`: patients by ward, duty entries by doctor and
      breakdowns by status. The duty chart is used as read, so a reply that is
      not an array makes `reduce` throw. */
  function CalculateStats(patients: seq<Record>, equipment: seq<Record>, dutyChart: ReadBody): (r: Result<Stats>)
    ensures r.Err? <==> dutyChart.NotArray?
    ensures r.Err? ==> r.error == DutyReduceFails
    ensures r.Ok? ==> && r.value.wardDistribution == Histogram(patients, WardField)
                      && r.value.doctorWorkload == Histogram(dutyChart.rows, DoctorField)
                      && r.value.equipmentStatus == Histogram(equipment, StatusField)
  {
    match dutyChart
    case NotArray(_) => Err(DutyReduceFails)
    case Records(duties) =>
      Ok(Stats(Histogram(patients, WardField), Histogram(duties, DoctorField), Histogram(equipment, StatusField)))
  }

  /** `fetchReportData` for the month `[start, end]`. The first failing reply
      stops it with nothing updated. A reply that is ok but not an array
      makes the filter throw, again with nothing updated; a duty chart that
      is not an array is stored and then makes the statistics throw, leaving
      the previous statistics. */
  function FetchReport(v: ReportView, p: ReadReply, e: ReadReply, d: ReadReply, start: int, end: int,
                       parse: string -> Option<int>): (v': ReportView)
    ensures FirstFailure(p, e, d).Some? ==> v' == v.(status := ErrorStatus(FirstFailure(p, e, d).value))
    ensures v'.data != v.data ==> FirstFailure(p, e, d).None? && p.body.Records? && e.body.Records?
    ensures FirstFailure(p, e, d).None? && p.body.Records? && e.body.Records? ==>
              && v'.data.patients == MonthFilter(p.body.rows, AdmissionField, start, end, parse)
              && v'.data.equipment == MonthFilter(e.body.rows, BreakdownField, start, end, parse)
              && v'.data.dutyChart == d.body
    ensures v'.stats != v.stats ==>
              && FirstFailure(p, e, d).None? && p.body.Records? && e.body.Records? && d.body.Records?
              && CalculateStats(v'.data.patients, v'.data.equipment, v'.data.dutyChart) == Ok(v'.stats)
    ensures FirstFailure(p, e, d).None? && p.body.Records? && e.body.Records? && d.body.Records? ==>
              && CalculateStats(v'.data.patients, v'.data.equipment, v'.data.dutyChart) == Ok(v'.stats)
              && v'.status == v.status
    ensures FirstFailure(p, e, d).None? && p.body.NotArray? ==> v' == v.(status := ErrorStatus(PatientsFilterFails))
    ensures FirstFailure(p, e, d).None? && p.body.Records? && e.body.NotArray? ==>
              v' == v.(status := ErrorStatus(EquipmentFilterFails))
    ensures FirstFailure(p, e, d).None? && p.body.Records? && e.body.Records? && d.body.NotArray? ==>
              v'.stats == v.stats && v'.status == ErrorStatus(DutyReduceFails)
    ensures v'.status.severity != Error ==> v'.status == v.status
  {
    match FirstFailure(p, e, d)
    case Some(reason) => v.(status := ErrorStatus(reason))
    case None =>
      if p.body.NotArray? then v.(status := ErrorStatus(PatientsFilterFails))
      else if e.body.NotArray? then v.(status := ErrorStatus(EquipmentFilterFails))
      else
        var data := ReportData(MonthFilter(p.body.rows, AdmissionField, start, end, parse),
                               MonthFilter(e.body.rows, BreakdownField, start, end, parse),
                               d.body);
        match CalculateStats(data.patients, data.equipment, data.dutyChart)
        case Err(msg) => v.(data := data, status := ErrorStatus(msg))
        case Ok(stats) => v.(data := data, stats := stats)
  }

  /** The summary table: patients admitted and breakdowns reported in the
      month, and the duty assignments read (`None` when the duty chart is
      not an array, whose `length` is `undefined`). */
  datatype Summary = Summary(totalPatients: nat, equipmentIssues: nat, dutyAssignments: Option<nat>)

  function Summarize(data: ReportData): (s: Summary)
    ensures s.totalPatients == |data.patients| && s.equipmentIssues == |data.equipment|
    ensures s.dutyAssignments.Some? <==> data.dutyChart.Records?
    ensures data.dutyChart.Records? ==> s.dutyAssignments.value == |data.dutyChart.rows|
  {
    Summary(|data.patients|, |data.equipment|,
            match data.dutyChart
            case Records(rows) => Some(|rows|)
            case NotArray(_) => None)
  }

  /** After a successful refresh the summary counts are the sizes of the
      month's filtered lists and of the whole duty chart, which is never
      filtered by month, and each histogram's counts add up to the matching
      count. */
  lemma {:induction false} ReportCountsAgree(v: ReportView, p: ReadReply, e: ReadReply, d: ReadReply, start: int, end: int,
                                             parse: string -> Option<int>)
    requires FirstFailure(p, e, d).None? && p.body.Records? && e.body.Records? && d.body.Records?
    ensures var v' := FetchReport(v, p, e, d, start, end, parse);
            var s := Summarize(v'.data);
            && s.totalPatients == |MonthFilter(p.body.rows, AdmissionField, start, end, parse)|
            && s.equipmentIssues == |MonthFilter(e.body.rows, BreakdownField, start, end, parse)|
            && s.dutyAssignments == Some(|d.body.rows|)
            && MapSum(v'.stats.wardDistribution) == s.totalPatients
            && MapSum(v'.stats.equipmentStatus) == s.equipmentIssues
            && MapSum(v'.stats.doctorWorkload) == |d.body.rows|
  {
    var v' := FetchReport(v, p, e, d, start, end, parse);
    HistogramTotal(v'.data.patients, WardField);
    HistogramTotal(v'.data.equipment, StatusField);
    HistogramTotal(d.body.rows, DoctorField);
  }
}
