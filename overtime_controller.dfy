/**
 * The read side of the monthly summaries (backend/controllers/overtime.controller.js):
 * one worker's month with its remaining paid allowance, and all rows of one month.
 */
module OvertimeController {
  import opened Wrappers
  import opened TimeWindow
  import opened LedgerStore
  import opened LedgerInvariant

  /** One worker's month as the endpoint reports it. */
  datatype MonthlyView = MonthlyView(workerId: WorkerId, month: int, year: int, totals: Totals, remainingPaidMinutes: int)

  /**
   * getWorkerMonthlySummary: the stored row, or zeros with
   * the full allowance when the month has no row.
   */
  function WorkerMonthlySummary(summaries: map<Key, Totals>, workerId: WorkerId, month: int, year: int): (v: MonthlyView)
    ensures v.workerId == workerId && v.month == month && v.year == year
    ensures v.totals == Lookup(summaries, Key(workerId, month, year))
    ensures v.remainingPaidMinutes == Remaining(v.totals.paid)
    ensures Key(workerId, month, year) !in summaries ==> v.totals == Zero && v.remainingPaidMinutes == PaidLimitMinutes
  {
    var key := Key(workerId, month, year);
    if key !in summaries then
      MonthlyView(workerId, month, year, Zero, PaidLimitMinutes)
    else
      MonthlyView(workerId, month, year, summaries[key], Max(PaidLimitMinutes - summaries[key].paid, 0))
  }

  /**
   * On a ledger that satisfies the invariant the view is the month's entries
   * summed afresh, and the paid total and the remaining allowance add up to
   * exactly the monthly ceiling.
   */
  lemma MonthlyViewUnderInv(s: Store, workerId: WorkerId, month: int, year: int)
    requires Inv(s)
    ensures var v := WorkerMonthlySummary(s.summaries, workerId, month, year);
            && v.totals == KeyTotals(s, Key(workerId, month, year))
            && 0 <= v.remainingPaidMinutes <= PaidLimitMinutes
            && v.totals.paid + v.remainingPaidMinutes == PaidLimitMinutes
            && v.totals.overtime == v.totals.paid + v.totals.unpaid
  {
    SummaryBounds(s, Key(workerId, month, year));
  }

  /** Recording an entry and deleting it again is invisible in every monthly view. */
  lemma AddThenDeleteInvisible(s: Store, req: AddRequest, workers: map<WorkerId, Worker>, workerId: WorkerId, month: int, year: int)
    requires Inv(s) && Add(s, req, workers).1.Ok?
    ensures var (s1, r) := Add(s, req, workers);
            WorkerMonthlySummary(Delete(s1, r.value.id).0.summaries, workerId, month, year)
            == WorkerMonthlySummary(s.summaries, workerId, month, year)
  {
    AddThenDeleteRestores(s, req, workers);
    var (s1, r) := Add(s, req, workers);
    var s2 := Delete(s1, r.value.id).0;
    var key := Key(workerId, month, year);
    assert Lookup(s2.summaries, key) == Lookup(s.summaries, key);
  }

  /** The rows of one month, one per worker that has entries in it. */
  function MonthRows(summaries: map<Key, Totals>, month: int, year: int): (rows: map<Key, Totals>)
    ensures forall k :: k in rows <==> k in summaries && k.month == month && k.year == year
    ensures forall k :: k in rows ==> rows[k] == summaries[k]
  {
    map k | k in summaries && k.month == month && k.year == year :: summaries[k]
  }

  /** getAllWorkersSummaries: both month and year are required. */
  function GetAllWorkersSummaries(summaries: map<Key, Totals>, month: Option<int>, year: Option<int>): (r: Result<map<Key, Totals>, LedgerError>)
    ensures r.Err? <==> month.None? || year.None?
    ensures r.Err? ==> r.error == PeriodIncomplete
    ensures r.Ok? ==> forall k :: k in r.value <==> k in summaries && k.month == month.value && k.year == year.value
    ensures r.Ok? ==> forall k :: k in r.value ==> r.value[k] == summaries[k]
  {
    if month.None? || year.None? then Err(PeriodIncomplete) else Ok(MonthRows(summaries, month.value, year.value))
  }

  /**
   * recalculateMonthSummaries returns the stored rows of the
   * month without recomputing them; under the invariant each of them already
   * equals the sum of its entries, so a recomputation would return the same.
   */
  function RecalculateMonthSummaries(s: Store, month: int, year: int): (rows: map<Key, Totals>)
    ensures forall k :: k in rows <==> k in s.summaries && k.month == month && k.year == year
    ensures forall k :: k in rows ==> rows[k] == s.summaries[k]
    ensures Inv(s) ==> forall k :: k in rows ==> rows[k] == KeyTotals(s, k)
  {
    var rows := MonthRows(s.summaries, month, year);
    assert Inv(s) ==> forall k :: k in rows ==> rows[k] == KeyTotals(s, k) by {
      if Inv(s) {
        forall k | k in rows ensures rows[k] == KeyTotals(s, k) {
          assert Lookup(s.summaries, k) == KeyTotals(s, k);
        }
      }
    }
    rows
  }
}
