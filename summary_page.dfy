/**
 * The monthly summary page (frontend/ott/src/pages/dashboard/summary.jsx):
 * every listed worker joined with the month's summary row, ranked by
 * overtime, the header counts, and the month selector.
 */
module SummaryPage {
  import Wrappers
  import opened TimeWindow
  import opened Lists

  /** 90 % of the 72-hour ceiling, 64.8 hours, in minutes. */
  const WarningMinutes: int := 3888

  datatype WorkerRecord = WorkerRecord(id: string, name: string)

  /** A month's summary row as the page receives it. */
  datatype SummaryRecord = SummaryRecord(workerId: string, totalOvertimeMinutes: int, totalPaidMinutes: int, totalUnpaidMinutes: int)

  datatype Status = Ok | Warning | Limit

  /** One ranked line of the page. */
  datatype WorkerView = WorkerView(
    worker: WorkerRecord,
    totalOTMinutes: int,
    totalPaidMinutes: int,
    totalUnpaidMinutes: int,
    remainingPaidMinutes: int,
    status: Status)

  /** At the limit from 72 paid hours, near it from 90 % of them, fine below. */
  function StatusOf(paidMinutes: int): (st: Status)
    ensures st == Limit <==> paidMinutes >= PaidLimitMinutes
    ensures st == Warning <==> WarningMinutes <= paidMinutes < PaidLimitMinutes
    ensures st == Ok <==> paidMinutes < WarningMinutes
  {
    if paidMinutes >= PaidLimitMinutes then Limit
    else if paidMinutes >= WarningMinutes then Warning
    else Ok
  }

  /** A worker is at the limit exactly when no paid allowance is left. */
  lemma LimitMeansNothingRemains(paidMinutes: int)
    ensures StatusOf(paidMinutes) == Limit <==> Remaining(paidMinutes) == 0
  {
  }

  /** The line for one worker: the first row with the worker's id, or zeros when there is none. */
  function JoinWorker(w: WorkerRecord, summaries: seq<SummaryRecord>): (v: WorkerView)
    ensures v.worker == w
    ensures v.remainingPaidMinutes == Remaining(v.totalPaidMinutes) && v.status == StatusOf(v.totalPaidMinutes)
    ensures (forall i :: 0 <= i < |summaries| ==> summaries[i].workerId != w.id)
              ==> v.totalOTMinutes == 0 && v.totalPaidMinutes == 0 && v.totalUnpaidMinutes == 0
                  && v.remainingPaidMinutes == PaidLimitMinutes && v.status == Ok
    ensures forall i :: 0 <= i < |summaries| && summaries[i].workerId == w.id
                        && (forall j :: 0 <= j < i ==> summaries[j].workerId != w.id)
                        ==> v.totalOTMinutes == summaries[i].totalOvertimeMinutes
                            && v.totalPaidMinutes == summaries[i].totalPaidMinutes
                            && v.totalUnpaidMinutes == summaries[i].totalUnpaidMinutes
  {
    var found := FindFirst(summaries, (s: SummaryRecord) => s.workerId == w.id);
    var ot := if found.Some? then summaries[found.value].totalOvertimeMinutes else 0;
    var paid := if found.Some? then summaries[found.value].totalPaidMinutes else 0;
    var unpaid := if found.Some? then summaries[found.value].totalUnpaidMinutes else 0;
    WorkerView(w, ot, paid, unpaid, Max(PaidLimitMinutes - paid, 0), StatusOf(paid))
  }

  /** The `map` step: one line per listed worker, in list order. */
  function JoinAll(workers: seq<WorkerRecord>, summaries: seq<SummaryRecord>): (vs: seq<WorkerView>)
    ensures |vs| == |workers|
    ensures forall i :: 0 <= i < |vs| ==> vs[i] == JoinWorker(workers[i], summaries)
  {
    if |workers| == 0 then [] else [JoinWorker(workers[0], summaries)] + JoinAll(workers[1..], summaries)
  }

  ghost predicate NonIncreasing(vs: seq<WorkerView>) {
    forall i, j :: 0 <= i < j < |vs| ==> vs[i].totalOTMinutes >= vs[j].totalOTMinutes
  }

  /** Place `v` before the first line with no more overtime than it, so equal lines keep their order. */
  function InsertByOvertime(v: WorkerView, sorted: seq<WorkerView>): (r: seq<WorkerView>)
    requires NonIncreasing(sorted)
    ensures NonIncreasing(r)
    ensures multiset(r) == multiset(sorted) + multiset{v}
    ensures |r| == |sorted| + 1
  {
    if |sorted| == 0 || sorted[0].totalOTMinutes <= v.totalOTMinutes then
      [v] + sorted
    else
      var rest := InsertByOvertime(v, sorted[1..]);
      assert sorted == [sorted[0]] + sorted[1..];
      forall k | 0 <= k < |rest| ensures sorted[0].totalOTMinutes >= rest[k].totalOTMinutes {
        assert rest[k] in multiset(rest);
        if rest[k] != v {
          assert rest[k] in multiset(sorted[1..]);
          var j :| 0 <= j < |sorted[1..]| && sorted[1..][j] == rest[k];
          assert sorted[j + 1] == rest[k];
        }
      }
      [sorted[0]] + rest
  }

  /** The `sort` step: most overtime first. */
  function SortByOvertime(vs: seq<WorkerView>): (r: seq<WorkerView>)
    ensures NonIncreasing(r)
    ensures multiset(r) == multiset(vs)
    ensures |r| == |vs|
  {
    if |vs| == 0 then []
    else
      assert vs == [vs[0]] + vs[1..];
      InsertByOvertime(vs[0], SortByOvertime(vs[1..]))
  }

  /** workersWithSummary: every listed worker exactly once, joined with the month's rows, most overtime first. */
  function WorkersWithSummary(workers: seq<WorkerRecord>, summaries: seq<SummaryRecord>): (r: seq<WorkerView>)
    ensures |r| == |workers|
    ensures NonIncreasing(r)
    ensures multiset(r) == multiset(JoinAll(workers, summaries))
  {
    SortByOvertime(JoinAll(workers, summaries))
  }

  /** The `filter(...).length` step: how many lines carry status `st`. */
  function CountStatus(vs: seq<WorkerView>, st: Status): (n: nat)
    ensures n <= |vs|
    ensures n == 0 <==> forall i :: 0 <= i < |vs| ==> vs[i].status != st
    ensures n == |vs| <==> forall i :: 0 <= i < |vs| ==> vs[i].status == st
  {
    if |vs| == 0 then 0 else CountStatus(vs[..|vs| - 1], st) + (if vs[|vs| - 1].status == st then 1 else 0)
  }

  /** The `reduce` step over the lines' overtime. */
  function TotalOvertime(vs: seq<WorkerView>): (t: int)
    ensures (forall i :: 0 <= i < |vs| ==> vs[i].totalOTMinutes >= 0) ==> t >= 0
  {
    if |vs| == 0 then 0 else TotalOvertime(vs[..|vs| - 1]) + vs[|vs| - 1].totalOTMinutes
  }

  /** The header: listed workers, their overtime in total, and how many are at and near the limit. */
  datatype PageTotals = PageTotals(totalWorkers: nat, totalOTMinutes: int, workersAtLimit: nat, workersNearLimit: nat)

  /** totals: the workers listed, their overtime summed over the lines, and the at-limit and near-limit lines counted. */
  function Totals(workers: seq<WorkerRecord>, views: seq<WorkerView>): (t: PageTotals)
    ensures t.totalWorkers == |workers|
    ensures t.workersAtLimit + t.workersNearLimit <= |views|
    ensures t.workersAtLimit == 0 <==> forall i :: 0 <= i < |views| ==> views[i].status != Limit
    ensures t.workersNearLimit == 0 <==> forall i :: 0 <= i < |views| ==> views[i].status != Warning
    ensures (forall i :: 0 <= i < |views| ==> views[i].totalOTMinutes >= 0) ==> t.totalOTMinutes >= 0
  {
    StatusCountsPartition(views);
    PageTotals(|workers|, TotalOvertime(views), CountStatus(views, Limit), CountStatus(views, Warning))
  }

  /** Every line has exactly one status, so the three counts make up the whole list. */
  lemma {:induction false} StatusCountsPartition(vs: seq<WorkerView>)
    ensures CountStatus(vs, Limit) + CountStatus(vs, Warning) + CountStatus(vs, Ok) == |vs|
  {
    if |vs| > 0 {
      StatusCountsPartition(vs[..|vs| - 1]);
    }
  }

  lemma {:induction false} CountsOfCons(v: WorkerView, vs: seq<WorkerView>, st: Status)
    ensures CountStatus([v] + vs, st) == CountStatus(vs, st) + (if v.status == st then 1 else 0)
    ensures TotalOvertime([v] + vs) == TotalOvertime(vs) + v.totalOTMinutes
  {
    if |vs| > 0 {
      assert ([v] + vs)[..|vs|] == [v] + vs[..|vs| - 1];
      CountsOfCons(v, vs[..|vs| - 1], st);
    }
  }

  lemma {:induction false} CountsOfInsert(v: WorkerView, sorted: seq<WorkerView>, st: Status)
    requires NonIncreasing(sorted)
    ensures CountStatus(InsertByOvertime(v, sorted), st) == CountStatus(sorted, st) + (if v.status == st then 1 else 0)
    ensures TotalOvertime(InsertByOvertime(v, sorted)) == TotalOvertime(sorted) + v.totalOTMinutes
  {
    CountsOfCons(v, sorted, st);
    if |sorted| > 0 && sorted[0].totalOTMinutes > v.totalOTMinutes {
      assert sorted == [sorted[0]] + sorted[1..];
      CountsOfInsert(v, sorted[1..], st);
      CountsOfCons(sorted[0], sorted[1..], st);
      CountsOfCons(sorted[0], InsertByOvertime(v, sorted[1..]), st);
    }
  }

  /** Ranking the lines changes neither the status counts nor the overtime total. */
  lemma {:induction false} SortKeepsTotals(vs: seq<WorkerView>, st: Status)
    ensures CountStatus(SortByOvertime(vs), st) == CountStatus(vs, st)
    ensures TotalOvertime(SortByOvertime(vs)) == TotalOvertime(vs)
  {
    if |vs| > 0 {
      assert vs == [vs[0]] + vs[1..];
      SortKeepsTotals(vs[1..], st);
      CountsOfInsert(vs[0], SortByOvertime(vs[1..]), st);
      CountsOfCons(vs[0], vs[1..], st);
    }
  }

  /**
   * The header computed from the ranked lines: one worker per listed worker,
   * and the at-limit, near-limit and remaining workers make up all of them.
   */
  lemma HeaderCountsAllWorkers(workers: seq<WorkerRecord>, summaries: seq<SummaryRecord>)
    ensures var views := WorkersWithSummary(workers, summaries);
            var t := Totals(workers, views);
            && t.workersAtLimit + t.workersNearLimit + CountStatus(views, Ok) == t.totalWorkers
            && t.workersAtLimit == CountStatus(JoinAll(workers, summaries), Limit)
            && t.workersNearLimit == CountStatus(JoinAll(workers, summaries), Warning)
            && t.totalOTMinutes == TotalOvertime(JoinAll(workers, summaries))
  {
    var views := WorkersWithSummary(workers, summaries);
    StatusCountsPartition(views);
    SortKeepsTotals(JoinAll(workers, summaries), Limit);
    SortKeepsTotals(JoinAll(workers, summaries), Warning);
  }

  /** Months in a row, counted from January of year 0. */
  function MonthIndex(month: int, year: int): int {
    year * 12 + month - 1
  }

  /** A month index names one month of one year. */
  lemma MonthIndexInjective(m1: int, y1: int, m2: int, y2: int)
    requires 1 <= m1 <= 12 && 1 <= m2 <= 12
    requires MonthIndex(m1, y1) == MonthIndex(m2, y2)
    ensures m1 == m2 && y1 == y2
  {
    assert (y1 - y2) * 12 == m2 - m1;
  }

  /** The selected month of the page. */
  class MonthSelector {
    var selectedMonth: int
    var selectedYear: int

    ghost predicate Valid()
      reads this
    {
      1 <= selectedMonth <= 12
    }

    function Index(): int
      reads this
    {
      MonthIndex(selectedMonth, selectedYear)
    }

    /** The page opens on the current month, read from the clock by the caller. */
    constructor (currentMonth: int, currentYear: int)
      requires 1 <= currentMonth <= 12
      ensures Valid() && selectedMonth == currentMonth && selectedYear == currentYear
    {
      selectedMonth := currentMonth;
      selectedYear := currentYear;
    }

    /** goToPreviousMonth: one month back, January wrapping to December of the year before. */
    method GoToPreviousMonth()
      requires Valid()
      modifies this
      ensures Valid() && Index() == old(Index()) - 1
    {
      if selectedMonth == 1 {
        selectedMonth := 12;
        selectedYear := selectedYear - 1;
      } else {
        selectedMonth := selectedMonth - 1;
      }
    }

    /** goToNextMonth: one month on, December wrapping to January of the year after. */
    method GoToNextMonth()
      requires Valid()
      modifies this
      ensures Valid() && Index() == old(Index()) + 1
    {
      if selectedMonth == 12 {
        selectedMonth := 1;
        selectedYear := selectedYear + 1;
      } else {
        selectedMonth := selectedMonth + 1;
      }
    }

    /** goToCurrentMonth, with the clock's month and year passed in. */
    method GoToCurrentMonth(currentMonth: int, currentYear: int)
      requires 1 <= currentMonth <= 12
      modifies this
      ensures Valid() && selectedMonth == currentMonth && selectedYear == currentYear
    {
      selectedMonth := currentMonth;
      selectedYear := currentYear;
    }
  }

  /** Going one month on and one month back returns to the same month and year. */
  method NextThenPrevious(sel: MonthSelector)
    requires sel.Valid()
    modifies sel
    ensures sel.Valid() && sel.selectedMonth == old(sel.selectedMonth) && sel.selectedYear == old(sel.selectedYear)
  {
    ghost var m, y := sel.selectedMonth, sel.selectedYear;
    sel.GoToNextMonth();
    sel.GoToPreviousMonth();
    MonthIndexInjective(sel.selectedMonth, sel.selectedYear, m, y);
  }

  /** Going one month back and one month on returns to the same month and year. */
  method PreviousThenNext(sel: MonthSelector)
    requires sel.Valid()
    modifies sel
    ensures sel.Valid() && sel.selectedMonth == old(sel.selectedMonth) && sel.selectedYear == old(sel.selectedYear)
  {
    ghost var m, y := sel.selectedMonth, sel.selectedYear;
    sel.GoToPreviousMonth();
    sel.GoToNextMonth();
    MonthIndexInjective(sel.selectedMonth, sel.selectedYear, m, y);
  }
}
