/**
 * The two keyed stores behind the work-log controller and the value-level
 * meaning of its three mutators (backend/controllers/worklog.controller.js,
 * addWorkLog, updateWorkLog, deleteWorkLog), with the ledger invariant:
 * every monthly summary row is the sum of the entries under its key, and no
 * row has paid more than the monthly ceiling.
 */
module LedgerStore {
  import opened Wrappers
  import opened TimeWindow

  type WorkerId = nat
  type EntryId = nat

  /** A naive calendar date (no time of day, no time zone). */
  datatype Date = Date(year: int, month: int, day: int)
  type CalendarDate = d: Date | 1 <= d.month <= 12 && 1 <= d.day <= 31 witness Date(2000, 1, 1)

  /** The part of a worker record the ledger reads; 0 stands for an unset base. */
  datatype Worker = Worker(baseHoursPerDay: int)

  /** One stored work log (backend/models/WorkLog.js); `overtimeMinutes` is the stored `durationMinutes`. */
  datatype Entry = Entry(
    workerId: WorkerId,
    date: CalendarDate,
    otStart: MinuteOfDay,
    otEnd: MinuteOfDay,
    totalWorkedMinutes: int,
    baseMinutes: int,
    overtimeMinutes: int,
    paidMinutes: int,
    unpaidMinutes: int,
    month: int,
    year: int)

  /** The aggregation key of a summary row. */
  datatype Key = Key(workerId: WorkerId, month: int, year: int)

  /** The unique index of the work-log collection. */
  datatype Slot = Slot(workerId: WorkerId, date: CalendarDate, otStart: MinuteOfDay, otEnd: MinuteOfDay)

  /** The three running totals of a summary row. */
  datatype Totals = Totals(overtime: int, paid: int, unpaid: int) {
    function Plus(o: Totals): Totals {
      Totals(overtime + o.overtime, paid + o.paid, unpaid + o.unpaid)
    }
    function Minus(o: Totals): Totals {
      Totals(overtime - o.overtime, paid - o.paid, unpaid - o.unpaid)
    }
  }

  const Zero := Totals(0, 0, 0)

  datatype Period = Period(month: int, year: int)

  /** A listing filter: one worker, optionally one month of one year. */
  datatype Query = Query(workerId: WorkerId, period: Option<Period>)

  datatype Store = Store(entries: map<EntryId, Entry>, summaries: map<Key, Totals>, nextId: nat)

  const EmptyStore := Store(map[], map[], 0)

  function KeyOf(e: Entry): Key { Key(e.workerId, e.month, e.year) }
  function SlotOf(e: Entry): Slot { Slot(e.workerId, e.date, e.otStart, e.otEnd) }
  function Contribution(e: Entry): Totals { Totals(e.overtimeMinutes, e.paidMinutes, e.unpaidMinutes) }

  /** A summary read that treats a missing row as all zeros. */
  function Lookup(summaries: map<Key, Totals>, k: Key): Totals {
    if k in summaries then summaries[k] else Zero
  }

  predicate Matches(e: Entry, q: Query) {
    e.workerId == q.workerId &&
    (q.period.None? || (e.month == q.period.value.month && e.year == q.period.value.year))
  }

  function KeyQuery(k: Key): Query { Query(k.workerId, Some(Period(k.month, k.year))) }

  lemma MatchesKeyQuery(e: Entry, k: Key)
    ensures Matches(e, KeyQuery(k)) <==> KeyOf(e) == k
  {
  }

  /** The entries with id below `n` that `q` selects, in id order. */
  function Logs(m: map<EntryId, Entry>, q: Query, n: nat): seq<Entry> {
    if n == 0 then [] else Logs(m, q, n - 1) + Tail(m, n - 1, q)
  }

  function Tail(m: map<EntryId, Entry>, id: EntryId, q: Query): seq<Entry> {
    if id in m && Matches(m[id], q) then [m[id]] else []
  }

  /** What entry `id` adds to the totals that `q` selects. */
  function At(m: map<EntryId, Entry>, id: EntryId, q: Query): Totals {
    if id in m && Matches(m[id], q) then Contribution(m[id]) else Zero
  }

  /** Totals of a list of logs, accumulated front to back. */
  function Sum(logs: seq<Entry>): Totals {
    if |logs| == 0 then Zero else Sum(logs[..|logs| - 1]).Plus(Contribution(logs[|logs| - 1]))
  }

  /** Totals of the entries with id below `n` that `q` selects, summed afresh. */
  function Selected(m: map<EntryId, Entry>, q: Query, n: nat): Totals {
    if n == 0 then Zero else Selected(m, q, n - 1).Plus(At(m, n - 1, q))
  }

  /** The stored entries under key `k`, summed afresh. */
  function KeyTotals(s: Store, k: Key): Totals {
    Selected(s.entries, KeyQuery(k), s.nextId)
  }

  predicate SlotTaken(m: map<EntryId, Entry>, slot: Slot) {
    exists id :: id in m && SlotOf(m[id]) == slot
  }

  predicate SlotTakenByOther(m: map<EntryId, Entry>, self: EntryId, slot: Slot) {
    exists id :: id in m && id != self && SlotOf(m[id]) == slot
  }

  /** A stored entry: positive overtime split exactly, month and year copied from the date. */
  predicate WellFormed(e: Entry) {
    && e.month == e.date.month && e.year == e.date.year
    && e.overtimeMinutes > 0
    && e.paidMinutes >= 0 && e.unpaidMinutes >= 0
    && e.paidMinutes + e.unpaidMinutes == e.overtimeMinutes
  }

  /** Every stored entry sits below the id counter and is well formed. */
  ghost predicate EntriesWellFormed(s: Store) {
    forall id :: id in s.entries ==> id < s.nextId && WellFormed(s.entries[id])
  }

  /** Every entry's key has a summary row (rows are created with the first entry). */
  ghost predicate RowsExist(s: Store) {
    forall id :: id in s.entries ==> KeyOf(s.entries[id]) in s.summaries
  }

  /** The unique index on (worker, date, start, end). */
  ghost predicate SlotsUnique(s: Store) {
    forall i, j :: i in s.entries && j in s.entries && i != j ==> SlotOf(s.entries[i]) != SlotOf(s.entries[j])
  }

  /** Every summary, stored or not, equals the sum of the entries under its key. */
  ghost predicate SumsAgree(s: Store) {
    forall k :: Lookup(s.summaries, k) == KeyTotals(s, k)
  }

  /** No stored row pays more than the monthly ceiling. */
  ghost predicate WithinCap(s: Store) {
    forall k :: k in s.summaries ==> s.summaries[k].paid <= PaidLimitMinutes
  }

  /** The ledger invariant, which holds between any two operations. */
  ghost predicate Inv(s: Store) {
    EntriesWellFormed(s) && RowsExist(s) && SlotsUnique(s) && SumsAgree(s) && WithinCap(s)
  }

  lemma EmptyStoreInv()
    ensures Inv(EmptyStore)
  {
    forall k ensures Lookup(EmptyStore.summaries, k) == KeyTotals(EmptyStore, k) {
    }
  }

  // ----- Operations --------------------------------------------------------

  datatype LedgerError =
    | MissingFields
    | WorkerNotFound
    | EntryNotFound
    | NoOvertime(totalWorkedMinutes: int, baseHoursPerDay: int)
    | NoOvertimeAfterUpdate
    | DuplicateEntry
    | SaveFailed
    | PeriodIncomplete

  /** The body of an add request; `None` is a missing (or empty) field. */
  datatype AddRequest = AddRequest(
    workerId: Option<WorkerId>,
    date: Option<CalendarDate>,
    otStart: Option<MinuteOfDay>,
    otEnd: Option<MinuteOfDay>,
    deductLunch: Option<bool>)

  /** The body of an update request; an omitted field keeps (times) or defaults (lunch). */
  datatype UpdateRequest = UpdateRequest(
    otStart: Option<MinuteOfDay>,
    otEnd: Option<MinuteOfDay>,
    deductLunch: Option<bool>)

  datatype AddReceipt = AddReceipt(id: EntryId, entry: Entry, remainingPaidMinutesAfter: int)

  /** The entry an add request would create, given the month's paid total so far. */
  function NewEntry(workerId: WorkerId, date: CalendarDate, start: MinuteOfDay, end: MinuteOfDay,
                    worked: int, baseHours: int, split: SplitResult): Entry
  {
    Entry(workerId, date, start, end, worked, baseHours * 60,
          split.overtime, split.paid, split.unpaid, date.month, date.year)
  }

  /** Worker, date, start and end are all present. */
  predicate Complete(req: AddRequest) {
    req.workerId.Some? && req.date.Some? && req.otStart.Some? && req.otEnd.Some?
  }

  /** The worked minutes of a complete add request; lunch is deducted unless the flag says otherwise. */
  function RequestedWorked(req: AddRequest): (w: int)
    requires Complete(req)
    ensures 0 <= w <= MinutesPerDay
    ensures req.deductLunch == Some(false) ==> w == Span(req.otStart.value, req.otEnd.value)
    ensures req.deductLunch != Some(false) && w > 0 ==> w == Span(req.otStart.value, req.otEnd.value) - LunchMinutes
  {
    Resolve(req.otStart.value, req.otEnd.value, req.deductLunch.GetOr(true))
  }

  /**
   * What addWorkLog decides before it writes: the checks in source order
   * (fields, worker, overtime, unique slot) and the entry it would store.
   */
  function AddDecision(s: Store, req: AddRequest, workers: map<WorkerId, Worker>): (r: Result<AddReceipt, LedgerError>)
    ensures r.Ok? <==>
              Complete(req) && req.workerId.value in workers
              && RequestedWorked(req) > EffectiveBaseHours(workers[req.workerId.value].baseHoursPerDay) * 60
              && !SlotTaken(s.entries, Slot(req.workerId.value, req.date.value, req.otStart.value, req.otEnd.value))
    ensures r == Err(MissingFields) <==> !Complete(req)
    ensures r == Err(WorkerNotFound) <==> Complete(req) && req.workerId.value !in workers
    ensures r.Err? && r.error.NoOvertime? <==>
              Complete(req) && req.workerId.value in workers
              && RequestedWorked(req) <= EffectiveBaseHours(workers[req.workerId.value].baseHoursPerDay) * 60
    ensures r.Err? && r.error.NoOvertime? ==>
              r.error == NoOvertime(RequestedWorked(req), EffectiveBaseHours(workers[req.workerId.value].baseHoursPerDay))
    ensures r == Err(DuplicateEntry) <==>
              Complete(req) && req.workerId.value in workers
              && RequestedWorked(req) > EffectiveBaseHours(workers[req.workerId.value].baseHoursPerDay) * 60
              && SlotTaken(s.entries, Slot(req.workerId.value, req.date.value, req.otStart.value, req.otEnd.value))
    ensures r.Ok? ==> Complete(req) && req.workerId.value in workers
    ensures r.Ok? ==>
              var e := r.value.entry;
              var baseHours := EffectiveBaseHours(workers[req.workerId.value].baseHoursPerDay);
              var alreadyPaid := Lookup(s.summaries, KeyOf(e)).paid;
              && e.workerId == req.workerId.value && e.date == req.date.value
              && e.otStart == req.otStart.value && e.otEnd == req.otEnd.value
              && e.month == req.date.value.month && e.year == req.date.value.year
              && e.totalWorkedMinutes == RequestedWorked(req) && e.baseMinutes == baseHours * 60
              && e.overtimeMinutes == e.totalWorkedMinutes - baseHours * 60
              && e.paidMinutes == Min(e.overtimeMinutes, Remaining(alreadyPaid))
              && e.unpaidMinutes == e.overtimeMinutes - e.paidMinutes
              && r.value.remainingPaidMinutesAfter == Remaining(alreadyPaid + e.paidMinutes)
    ensures r.Ok? ==> r.value.id == s.nextId && WellFormed(r.value.entry)
    ensures r.Ok? ==> !SlotTaken(s.entries, SlotOf(r.value.entry))
    ensures r.Ok? ==> r.value.entry.paidMinutes <= Remaining(Lookup(s.summaries, KeyOf(r.value.entry)).paid)
    ensures r.Ok? && Lookup(s.summaries, KeyOf(r.value.entry)).paid <= PaidLimitMinutes ==>
              Lookup(s.summaries, KeyOf(r.value.entry)).paid + r.value.entry.paidMinutes <= PaidLimitMinutes
  {
    if req.workerId.None? || req.date.None? || req.otStart.None? || req.otEnd.None? then
      Err(MissingFields)
    else if req.workerId.value !in workers then
      Err(WorkerNotFound)
    else
      var w := req.workerId.value;
      var date := req.date.value;
      var worked := Resolve(req.otStart.value, req.otEnd.value, req.deductLunch.GetOr(true));
      var baseHours := EffectiveBaseHours(workers[w].baseHoursPerDay);
      if Overtime(worked, baseHours) <= 0 then
        Err(NoOvertime(worked, baseHours))
      else
        var alreadyPaid := Lookup(s.summaries, Key(w, date.month, date.year)).paid;
        var split := Split(worked, baseHours, alreadyPaid);
        var e := NewEntry(w, date, req.otStart.value, req.otEnd.value, worked, baseHours, split);
        if SlotTaken(s.entries, SlotOf(e)) then
          Err(DuplicateEntry)
        else
          RemainingAfterIsRemainingOfNewTotal(worked, baseHours, alreadyPaid);
          Ok(AddReceipt(s.nextId, e, RemainingAfter(alreadyPaid, split.paid)))
  }

  /** Store a new entry under the next id and upsert its row by the entry's values. */
  function Insert(s: Store, e: Entry): (s': Store)
    ensures s'.entries == s.entries[s.nextId := e] && s'.nextId == s.nextId + 1
    ensures s'.summaries.Keys == s.summaries.Keys + {KeyOf(e)}
    ensures forall k :: Lookup(s'.summaries, k)
                        == if k == KeyOf(e) then Lookup(s.summaries, k).Plus(Contribution(e)) else Lookup(s.summaries, k)
  {
    Store(s.entries[s.nextId := e], s.summaries[KeyOf(e) := Lookup(s.summaries, KeyOf(e)).Plus(Contribution(e))], s.nextId + 1)
  }

  /** addWorkLog on the two stores: nothing is written unless every check passes. */
  function Add(s: Store, req: AddRequest, workers: map<WorkerId, Worker>): (r: (Store, Result<AddReceipt, LedgerError>))
    ensures r.1 == AddDecision(s, req, workers)
    ensures r.0 == if r.1.Ok? then Insert(s, r.1.value.entry) else s
  {
    var d := AddDecision(s, req, workers);
    if d.Ok? then (Insert(s, d.value.entry), d) else (s, d)
  }

  /**
   * What updateWorkLog decides before it writes: the re-resolved entry, split
   * against the month's paid total without this entry's own paid minutes.
   */
  function UpdateDecision(s: Store, id: EntryId, req: UpdateRequest, workers: map<WorkerId, Worker>): (r: Result<Entry, LedgerError>)
    ensures r == Err(EntryNotFound) <==> id !in s.entries
    ensures r == Err(WorkerNotFound) <==> id in s.entries && s.entries[id].workerId !in workers
    ensures id in s.entries && s.entries[id].workerId in workers ==>
              var prev := s.entries[id];
              var start := req.otStart.GetOr(prev.otStart);
              var end := req.otEnd.GetOr(prev.otEnd);
              var worked := Resolve(start, end, req.deductLunch.GetOr(true));
              var baseHours := EffectiveBaseHours(workers[prev.workerId].baseHoursPerDay);
              && (r.Ok? <==> worked > baseHours * 60 && !SlotTakenByOther(s.entries, id, Slot(prev.workerId, prev.date, start, end)))
              && (r == Err(NoOvertimeAfterUpdate) <==> worked <= baseHours * 60)
              && (r == Err(SaveFailed) <==>
                    worked > baseHours * 60 && SlotTakenByOther(s.entries, id, Slot(prev.workerId, prev.date, start, end)))
              && (r.Ok? ==>
                    && r.value.workerId == prev.workerId && r.value.date == prev.date
                    && r.value.month == prev.month && r.value.year == prev.year
                    && r.value.otStart == start && r.value.otEnd == end
                    && r.value.totalWorkedMinutes == worked && r.value.baseMinutes == baseHours * 60
                    && r.value.overtimeMinutes == worked - baseHours * 60
                    && r.value.paidMinutes
                       == Min(r.value.overtimeMinutes, Remaining(Lookup(s.summaries, KeyOf(prev)).paid - prev.paidMinutes))
                    && r.value.unpaidMinutes == r.value.overtimeMinutes - r.value.paidMinutes)
    ensures r.Ok? ==> id in s.entries && !SlotTakenByOther(s.entries, id, SlotOf(r.value))
    ensures r.Ok? ==> r.value.date == s.entries[id].date && KeyOf(r.value) == KeyOf(s.entries[id])
    ensures r.Ok? ==> r.value.overtimeMinutes > 0 && r.value.paidMinutes >= 0 && r.value.unpaidMinutes >= 0
    ensures r.Ok? ==> r.value.paidMinutes + r.value.unpaidMinutes == r.value.overtimeMinutes
    ensures r.Ok? ==> r.value.paidMinutes
                      <= Remaining(Lookup(s.summaries, KeyOf(r.value)).paid - s.entries[id].paidMinutes)
  {
    if id !in s.entries then
      Err(EntryNotFound)
    else
      var prev := s.entries[id];
      if prev.workerId !in workers then
        Err(WorkerNotFound)
      else
        var start := req.otStart.GetOr(prev.otStart);
        var end := req.otEnd.GetOr(prev.otEnd);
        var worked := Resolve(start, end, req.deductLunch.GetOr(true));
        var baseHours := EffectiveBaseHours(workers[prev.workerId].baseHoursPerDay);
        if Overtime(worked, baseHours) <= 0 then
          Err(NoOvertimeAfterUpdate)
        else
          var paidWithoutThis := Lookup(s.summaries, KeyOf(prev)).paid - prev.paidMinutes;
          var split := Split(worked, baseHours, paidWithoutThis);
          var e := prev.(otStart := start, otEnd := end, totalWorkedMinutes := worked, baseMinutes := baseHours * 60,
                         overtimeMinutes := split.overtime, paidMinutes := split.paid, unpaidMinutes := split.unpaid);
          if SlotTakenByOther(s.entries, id, SlotOf(e)) then Err(SaveFailed) else Ok(e)
  }

  /** Save the changed entry and add the old-to-new deltas to its row (no upsert). */
  function Replace(s: Store, id: EntryId, e: Entry): (s': Store)
    requires id in s.entries
    ensures s'.entries == s.entries[id := e] && s'.nextId == s.nextId
    ensures var k := KeyOf(s.entries[id]);
            s'.summaries == if k in s.summaries
                            then s.summaries[k := s.summaries[k].Plus(Contribution(e).Minus(Contribution(s.entries[id])))]
                            else s.summaries
  {
    var key := KeyOf(s.entries[id]);
    var summaries := if key in s.summaries
                     then s.summaries[key := s.summaries[key].Plus(Contribution(e).Minus(Contribution(s.entries[id])))]
                     else s.summaries;
    Store(s.entries[id := e], summaries, s.nextId)
  }

  /** updateWorkLog on the two stores: nothing is written unless every check passes. */
  function Update(s: Store, id: EntryId, req: UpdateRequest, workers: map<WorkerId, Worker>): (r: (Store, Result<Entry, LedgerError>))
    ensures r.1 == UpdateDecision(s, id, req, workers)
    ensures r.1.Err? ==> r.0 == s
    ensures r.1.Ok? ==> id in s.entries && r.0 == Replace(s, id, r.1.value)
  {
    var d := UpdateDecision(s, id, req, workers);
    if d.Ok? then (Replace(s, id, d.value), d) else (s, d)
  }

  /** Take the stored values off the entry's row (no upsert), then drop the entry. */
  function Remove(s: Store, id: EntryId): (s': Store)
    requires id in s.entries
    ensures s'.entries == s.entries - {id} && s'.nextId == s.nextId
    ensures s'.summaries.Keys == s.summaries.Keys
    ensures forall k :: k in s'.summaries ==>
              s'.summaries[k] == if k == KeyOf(s.entries[id]) then s.summaries[k].Minus(Contribution(s.entries[id]))
                                 else s.summaries[k]
  {
    var e := s.entries[id];
    var key := KeyOf(e);
    var summaries := if key in s.summaries then s.summaries[key := s.summaries[key].Minus(Contribution(e))]
                     else s.summaries;
    Store(s.entries - {id}, summaries, s.nextId)
  }

  /** deleteWorkLog on the two stores. */
  function Delete(s: Store, id: EntryId): (r: (Store, Result<Entry, LedgerError>))
    ensures r.1.Err? <==> id !in s.entries
    ensures r.1.Err? ==> r.0 == s && r.1.error == EntryNotFound
    ensures r.1.Ok? ==> r.1.value == s.entries[id] && r.0 == Remove(s, id)
  {
    if id !in s.entries then (s, Err(EntryNotFound)) else (Remove(s, id), Ok(s.entries[id]))
  }
}
