/**
 * The work-log controller over its two collections
 * (backend/controllers/worklog.controller.js): the three mutators write the
 * entry collection and the summary collection step by step, and the listing
 * folds the selected entries into totals.
 */
module WorkLogController {
  import opened Wrappers
  import opened TimeWindow
  import opened LedgerStore
  import opened LedgerInvariant

  /** The work-log collection and the monthly summary collection, with the id counter of the former. */
  class Ledger {
    var entries: map<EntryId, Entry>
    var summaries: map<Key, Totals>
    var nextId: nat

    function Snapshot(): Store
      reads this
    {
      Store(entries, summaries, nextId)
    }

    /** Every row is the sum of its entries, within the ceiling, and slots are unique. */
    ghost predicate Valid()
      reads this
    {
      Inv(Snapshot())
    }

    constructor ()
      ensures Snapshot() == EmptyStore && Valid()
    {
      entries := map[];
      summaries := map[];
      nextId := 0;
      new;
      EmptyStoreInv();
    }

    /** POST /api/worklogs: create the entry, then upsert its month's row by the entry's values. */
    method AddWorkLog(req: AddRequest, workers: map<WorkerId, Worker>) returns (r: Result<AddReceipt, LedgerError>)
      modifies this
      ensures old(Valid()) ==> Valid()
      ensures (Snapshot(), r) == Add(old(Snapshot()), req, workers)
    {
      var s := Snapshot();
      r := AddDecision(s, req, workers);
      if r.Ok? {
        var e := r.value.entry;
        entries := entries[nextId := e];
        nextId := nextId + 1;
        var key := KeyOf(e);
        var row := if key in summaries then summaries[key] else Zero;
        summaries := summaries[key := row.Plus(Contribution(e))];
        assert Snapshot() == Insert(s, e);
      }
      assert (Snapshot(), r) == Add(s, req, workers);
      if Inv(s) {
        AddPreservesInv(s, req, workers);
      }
    }

    /** PUT /api/worklogs/:logId: save the re-split entry, then move its row by the differences, if the row exists. */
    method UpdateWorkLog(id: EntryId, req: UpdateRequest, workers: map<WorkerId, Worker>) returns (r: Result<Entry, LedgerError>)
      modifies this
      ensures old(Valid()) ==> Valid()
      ensures (Snapshot(), r) == Update(old(Snapshot()), id, req, workers)
    {
      var s := Snapshot();
      r := UpdateDecision(s, id, req, workers);
      if r.Ok? {
        var prev := entries[id];
        var e := r.value;
        entries := entries[id := e];
        var key := KeyOf(prev);
        if key in summaries {
          summaries := summaries[key := summaries[key].Plus(Contribution(e).Minus(Contribution(prev)))];
        }
      }
      if Inv(s) {
        UpdatePreservesInv(s, id, req, workers);
      }
    }

    /** DELETE /api/worklogs/:logId: take the entry's values off its row, if the row exists, then drop the entry. */
    method DeleteWorkLog(id: EntryId) returns (r: Result<Entry, LedgerError>)
      modifies this
      ensures old(Valid()) ==> Valid()
      ensures (Snapshot(), r) == Delete(old(Snapshot()), id)
    {
      ghost var s := Snapshot();
      if id !in entries {
        r := Err(EntryNotFound);
      } else {
        var e := entries[id];
        var key := KeyOf(e);
        if key in summaries {
          summaries := summaries[key := summaries[key].Minus(Contribution(e))];
        }
        entries := entries - {id};
        r := Ok(e);
      }
      if Inv(s) {
        DeletePreservesInv(s, id);
      }
    }

    /**
     * GET /api/worklogs/:workerId: the worker's entries, optionally for one
     * month, and their folded totals; for a whole month these totals are the
     * month's summary row.
     */
    method GetWorkLogsByWorker(workerId: WorkerId, month: Option<int>, year: Option<int>)
      returns (r: Result<(seq<Entry>, Totals), LedgerError>)
      ensures r.Err? <==> month.Some? != year.Some?
      ensures r.Err? ==> r.error == PeriodIncomplete
      ensures r.Ok? ==> var q := Query(workerId, if month.Some? then Some(Period(month.value, year.value)) else None);
                        r.value.0 == Logs(entries, q, nextId) && r.value.1 == Selected(entries, q, nextId)
      ensures Valid() && r.Ok? && month.Some? ==> r.value.1 == Lookup(summaries, Key(workerId, month.value, year.value))
      ensures Valid() && r.Ok? ==>
                r.value.1.paid >= 0 && r.value.1.unpaid >= 0 && r.value.1.overtime == r.value.1.paid + r.value.1.unpaid
    {
      var q: Query;
      if month.Some? && year.Some? {
        q := Query(workerId, Some(Period(month.value, year.value)));
      } else if month.Some? || year.Some? {
        return Err(PeriodIncomplete);
      } else {
        q := Query(workerId, None);
      }
      var logs := Logs(entries, q, nextId);
      var totals := FoldTotals(logs);
      SumOfLogs(entries, q, nextId);
      if Valid() {
        SelectedOfWellFormed(entries, q, nextId);
      }
      if Valid() && month.Some? {
        assert q == KeyQuery(Key(workerId, month.value, year.value));
        assert Lookup(summaries, Key(workerId, month.value, year.value)) == KeyTotals(Snapshot(), Key(workerId, month.value, year.value));
      }
      r := Ok((logs, totals));
    }
  }

  /** The reduce over the listed logs: each log's three values added to the running totals. */
  method FoldTotals(logs: seq<Entry>) returns (t: Totals)
    ensures t == Sum(logs)
  {
    t := Zero;
    var i := 0;
    while i < |logs|
      invariant 0 <= i <= |logs|
      invariant t == Sum(logs[..i])
    {
      assert logs[..i + 1][..i] == logs[..i];
      t := t.Plus(Contribution(logs[i]));
      i := i + 1;
    }
    assert logs[..i] == logs;
  }
}
