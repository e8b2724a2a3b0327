/**
 * The ledger invariant is kept by every mutator, so over any sequence of
 * adds, updates and deletes each summary row stays the sum of its entries
 * and no row pays more than the monthly ceiling.
 */
module LedgerInvariant {
  import opened Wrappers
  import opened TimeWindow
  import opened LedgerStore

  // ----- Sums over the entry store -----------------------------------------

  lemma SumSnoc(logs: seq<Entry>, e: Entry)
    ensures Sum(logs + [e]) == Sum(logs).Plus(Contribution(e))
  {
    assert (logs + [e])[..|logs|] == logs;
  }

  /** Folding the listed entries gives the same totals as summing the store directly. */
  lemma {:induction false} SumOfLogs(m: map<EntryId, Entry>, q: Query, n: nat)
    ensures Sum(Logs(m, q, n)) == Selected(m, q, n)
  {
    if n > 0 {
      SumOfLogs(m, q, n - 1);
      var p := Logs(m, q, n - 1);
      if n - 1 in m && Matches(m[n - 1], q) {
        SumSnoc(p, m[n - 1]);
      } else {
        assert Tail(m, n - 1, q) == [];
        assert Logs(m, q, n) == p;
      }
    }
  }

  /**
   * Changing (inserting, replacing or removing) the entry at one id below the
   * bound changes the selected totals by the old and new contributions there.
   */
  lemma {:induction false} SelectedChangeAt(m: map<EntryId, Entry>, m': map<EntryId, Entry>, id: EntryId, q: Query, n: nat)
    requires id < n && AgreeExcept(m, m', id)
    ensures Selected(m', q, n) == Selected(m, q, n).Minus(At(m, id, q)).Plus(At(m', id, q))
  {
    if id == n - 1 {
      SelectedAgree(m, m', q, n - 1);
    } else {
      SelectedChangeAt(m, m', id, q, n - 1);
      assert At(m, n - 1, q) == At(m', n - 1, q);
    }
  }

  /** `m` and `m'` hold the same entries at every id other than `id`. */
  ghost predicate AgreeExcept(m: map<EntryId, Entry>, m': map<EntryId, Entry>, id: EntryId) {
    forall i :: i != id ==> (i in m <==> i in m') && (i in m ==> m[i] == m'[i])
  }

  lemma AgreeExceptUpdate(m: map<EntryId, Entry>, id: EntryId, e: Entry)
    ensures AgreeExcept(m, m[id := e], id)
  {
  }

  lemma AgreeExceptRemove(m: map<EntryId, Entry>, id: EntryId)
    ensures AgreeExcept(m, m - {id}, id)
  {
  }

  /** Two stores that agree below `n` have the same totals below `n`. */
  lemma {:induction false} SelectedAgree(m: map<EntryId, Entry>, m': map<EntryId, Entry>, q: Query, n: nat)
    requires forall i :: 0 <= i < n ==> (i in m <==> i in m') && (i in m ==> m[i] == m'[i])
    ensures Selected(m, q, n) == Selected(m', q, n)
  {
    if n > 0 {
      SelectedAgree(m, m', q, n - 1);
      assert At(m, n - 1, q) == At(m', n - 1, q);
    }
  }

  /** Totals of well-formed entries are non-negative and split exactly. */
  lemma {:induction false} SelectedOfWellFormed(m: map<EntryId, Entry>, q: Query, n: nat)
    requires forall id :: id in m ==> WellFormed(m[id])
    ensures Selected(m, q, n).paid >= 0 && Selected(m, q, n).unpaid >= 0
    ensures Selected(m, q, n).overtime == Selected(m, q, n).paid + Selected(m, q, n).unpaid
  {
    if n > 0 {
      SelectedOfWellFormed(m, q, n - 1);
    }
  }

  /** Under the invariant every row, stored or not, is a consistent split within the ceiling. */
  lemma SummaryBounds(s: Store, k: Key)
    requires Inv(s)
    ensures 0 <= Lookup(s.summaries, k).paid <= PaidLimitMinutes
    ensures Lookup(s.summaries, k).unpaid >= 0
    ensures Lookup(s.summaries, k).overtime == Lookup(s.summaries, k).paid + Lookup(s.summaries, k).unpaid
  {
    SelectedOfWellFormed(s.entries, KeyQuery(k), s.nextId);
  }

  /** Storing a new entry at the bound adds its contribution where `q` selects it. */
  lemma SelectedAfterInsert(m: map<EntryId, Entry>, n: nat, e: Entry, q: Query)
    requires n !in m
    ensures Selected(m[n := e], q, n + 1) == Selected(m, q, n).Plus(if Matches(e, q) then Contribution(e) else Zero)
  {
    SelectedAgree(m, m[n := e], q, n);
  }

  /** Replacing a stored entry swaps its contribution for the new one's. */
  lemma SelectedAfterReplace(m: map<EntryId, Entry>, id: EntryId, e: Entry, q: Query, n: nat)
    requires id in m && id < n
    ensures Selected(m[id := e], q, n)
         == Selected(m, q, n).Minus(At(m, id, q)).Plus(if Matches(e, q) then Contribution(e) else Zero)
  {
    AgreeExceptUpdate(m, id, e);
    SelectedChangeAt(m, m[id := e], id, q, n);
  }

  /** Removing a stored entry takes its contribution off. */
  lemma SelectedAfterRemove(m: map<EntryId, Entry>, id: EntryId, q: Query, n: nat)
    requires id < n
    ensures Selected(m - {id}, q, n) == Selected(m, q, n).Minus(At(m, id, q))
  {
    AgreeExceptRemove(m, id);
    SelectedChangeAt(m, m - {id}, id, q, n);
  }

  // ----- Preservation ------------------------------------------------------

  /** One key's row stays equal to its recomputed sum across an insert. */
  lemma PlusZero(t: Totals)
    ensures t.Plus(Zero) == t
  {
  }

  lemma InsertKeepsSumAt(s: Store, e: Entry, k: Key)
    requires s.nextId !in s.entries && Lookup(s.summaries, k) == KeyTotals(s, k)
    ensures Lookup(Insert(s, e).summaries, k) == KeyTotals(Insert(s, e), k)
  {
    var q := KeyQuery(k);
    var s' := Insert(s, e);
    SelectedAfterInsert(s.entries, s.nextId, e, q);
    assert KeyTotals(s', k) == Selected(s.entries[s.nextId := e], q, s.nextId + 1);
    MatchesKeyQuery(e, k);
    if k == KeyOf(e) {
      assert KeyTotals(s', k) == KeyTotals(s, k).Plus(Contribution(e));
      assert Lookup(s'.summaries, k) == Lookup(s.summaries, k).Plus(Contribution(e));
      assert Lookup(s'.summaries, k) == KeyTotals(s', k);
    } else {
      assert KeyTotals(s', k) == KeyTotals(s, k).Plus(Zero);
      PlusZero(KeyTotals(s, k));
      assert Lookup(s'.summaries, k) == Lookup(s.summaries, k);
      assert Lookup(s'.summaries, k) == KeyTotals(s', k);
    }
  }

  lemma InsertKeepsSums(s: Store, e: Entry)
    requires EntriesWellFormed(s) && SumsAgree(s)
    ensures SumsAgree(Insert(s, e))
  {
    forall k ensures Lookup(Insert(s, e).summaries, k) == KeyTotals(Insert(s, e), k) {
      InsertKeepsSumAt(s, e, k);
    }
  }

  /** Inserting a well-formed entry with a free slot and room under the ceiling keeps the invariant. */
  lemma InsertPreservesInv(s: Store, e: Entry)
    requires Inv(s) && WellFormed(e) && !SlotTaken(s.entries, SlotOf(e))
    requires Lookup(s.summaries, KeyOf(e)).paid + e.paidMinutes <= PaidLimitMinutes
    ensures Inv(Insert(s, e))
  {
    var s' := Insert(s, e);
    var n := s.nextId;
    InsertKeepsSums(s, e);
    forall k | k in s'.summaries ensures s'.summaries[k].paid <= PaidLimitMinutes {
      assert Lookup(s'.summaries, k) == s'.summaries[k];
      if k != KeyOf(e) {
        assert Lookup(s.summaries, k) == s.summaries[k];
      }
    }
    forall i, j | i in s'.entries && j in s'.entries && i != j ensures SlotOf(s'.entries[i]) != SlotOf(s'.entries[j]) {
      if i == n {
        assert SlotOf(s.entries[j]) != SlotOf(e);
      } else if j == n {
        assert SlotOf(s.entries[i]) != SlotOf(e);
      }
    }
    forall id | id in s'.entries ensures KeyOf(s'.entries[id]) in s'.summaries {
      assert Lookup(s'.summaries, KeyOf(s'.entries[id])) == s'.summaries[KeyOf(s'.entries[id])];
      if id != n {
        assert KeyOf(s.entries[id]) in s.summaries;
      }
    }
  }

  lemma AddPreservesInv(s: Store, req: AddRequest, workers: map<WorkerId, Worker>)
    requires Inv(s)
    ensures Inv(Add(s, req, workers).0)
  {
    var d := AddDecision(s, req, workers);
    if d.Ok? {
      SummaryBounds(s, KeyOf(d.value.entry));
      InsertPreservesInv(s, d.value.entry);
    }
  }

  lemma ApplyDelta(t: Totals, a: Totals, b: Totals)
    ensures t.Plus(a.Minus(b)) == t.Minus(b).Plus(a)
    ensures t.Minus(Zero).Plus(Zero) == t
  {
  }

  /** One key's row stays equal to its recomputed sum across a replacement. */
  lemma ReplaceKeepsSumAt(s: Store, id: EntryId, e: Entry, k: Key)
    requires id in s.entries && id < s.nextId && KeyOf(e) == KeyOf(s.entries[id]) && KeyOf(e) in s.summaries
    requires Lookup(s.summaries, k) == KeyTotals(s, k)
    ensures Lookup(Replace(s, id, e).summaries, k) == KeyTotals(Replace(s, id, e), k)
  {
    var q := KeyQuery(k);
    var s' := Replace(s, id, e);
    var prev := s.entries[id];
    SelectedAfterReplace(s.entries, id, e, q, s.nextId);
    MatchesKeyQuery(e, k);
    MatchesKeyQuery(prev, k);
    if k == KeyOf(e) {
      assert KeyTotals(s', k) == KeyTotals(s, k).Minus(Contribution(prev)).Plus(Contribution(e));
      assert Lookup(s'.summaries, k) == Lookup(s.summaries, k).Plus(Contribution(e).Minus(Contribution(prev)));
      ApplyDelta(KeyTotals(s, k), Contribution(e), Contribution(prev));
    } else {
      assert KeyTotals(s', k) == KeyTotals(s, k).Minus(Zero).Plus(Zero);
      assert Lookup(s'.summaries, k) == Lookup(s.summaries, k);
      ApplyDelta(KeyTotals(s, k), Zero, Zero);
    }
  }

  lemma ReplaceKeepsSums(s: Store, id: EntryId, e: Entry)
    requires EntriesWellFormed(s) && RowsExist(s) && SumsAgree(s)
    requires id in s.entries && KeyOf(e) == KeyOf(s.entries[id])
    ensures SumsAgree(Replace(s, id, e))
  {
    assert KeyOf(s.entries[id]) in s.summaries;
    forall k ensures Lookup(Replace(s, id, e).summaries, k) == KeyTotals(Replace(s, id, e), k) {
      ReplaceKeepsSumAt(s, id, e, k);
    }
  }

  /** Replacing an entry in place, keeping its key and a free slot, within the ceiling, keeps the invariant. */
  lemma ReplacePreservesInv(s: Store, id: EntryId, e: Entry)
    requires Inv(s) && id in s.entries && WellFormed(e)
    requires KeyOf(e) == KeyOf(s.entries[id]) && !SlotTakenByOther(s.entries, id, SlotOf(e))
    requires Lookup(s.summaries, KeyOf(e)).paid - s.entries[id].paidMinutes + e.paidMinutes <= PaidLimitMinutes
    ensures Inv(Replace(s, id, e))
  {
    var s' := Replace(s, id, e);
    var key := KeyOf(s.entries[id]);
    assert key in s.summaries;
    ReplaceKeepsSums(s, id, e);
    forall k | k in s'.summaries ensures s'.summaries[k].paid <= PaidLimitMinutes {
      if k != key {
        assert s'.summaries[k] == s.summaries[k];
      }
    }
    forall i, j | i in s'.entries && j in s'.entries && i != j ensures SlotOf(s'.entries[i]) != SlotOf(s'.entries[j]) {
      if i == id {
        assert SlotOf(s.entries[j]) != SlotOf(e);
      } else if j == id {
        assert SlotOf(s.entries[i]) != SlotOf(e);
      }
    }
  }

  /** Under well-formedness, a selected entry's paid minutes are part of the selected total. */
  lemma {:induction false} SelectedCovers(m: map<EntryId, Entry>, q: Query, n: nat, id: EntryId)
    requires forall i :: i in m ==> WellFormed(m[i])
    requires id < n && id in m && Matches(m[id], q)
    ensures Selected(m, q, n).paid >= m[id].paidMinutes
  {
    SelectedOfWellFormed(m, q, n - 1);
    if id < n - 1 {
      SelectedCovers(m, q, n - 1, id);
    }
  }

  lemma UpdatePreservesInv(s: Store, id: EntryId, req: UpdateRequest, workers: map<WorkerId, Worker>)
    requires Inv(s)
    ensures Inv(Update(s, id, req, workers).0)
  {
    var d := UpdateDecision(s, id, req, workers);
    if d.Ok? {
      var prev := s.entries[id];
      MatchesKeyQuery(prev, KeyOf(prev));
      SelectedCovers(s.entries, KeyQuery(KeyOf(prev)), s.nextId, id);
      assert Lookup(s.summaries, KeyOf(prev)).paid - prev.paidMinutes <= PaidLimitMinutes;
      ReplacePreservesInv(s, id, d.value);
    }
  }

  lemma RemoveKeepsSums(s: Store, id: EntryId)
    requires EntriesWellFormed(s) && RowsExist(s) && SumsAgree(s) && id in s.entries
    ensures SumsAgree(Remove(s, id))
  {
    var s' := Remove(s, id);
    var e := s.entries[id];
    assert KeyOf(e) in s.summaries;
    forall k ensures Lookup(s'.summaries, k) == KeyTotals(s', k) {
      var q := KeyQuery(k);
      assert Lookup(s.summaries, k) == KeyTotals(s, k);
      SelectedAfterRemove(s.entries, id, q, s.nextId);
      MatchesKeyQuery(e, k);
    }
  }

  lemma DeletePreservesInv(s: Store, id: EntryId)
    requires Inv(s)
    ensures Inv(Delete(s, id).0)
  {
    if id in s.entries {
      var s' := Remove(s, id);
      RemoveKeepsSums(s, id);
      forall k | k in s'.summaries ensures s'.summaries[k].paid <= PaidLimitMinutes {
        assert s.summaries[k].paid <= PaidLimitMinutes;
      }
    }
  }

  // ----- Any sequence of operations ----------------------------------------

  /** One call of a mutator, with the worker collection as it stands at that call. */
  datatype Op =
    | AddOp(addReq: AddRequest, addWorkers: map<WorkerId, Worker>)
    | UpdateOp(updateId: EntryId, updateReq: UpdateRequest, updateWorkers: map<WorkerId, Worker>)
    | DeleteOp(deleteId: EntryId)

  function Apply(s: Store, op: Op): Store {
    match op
    case AddOp(req, workers) => Add(s, req, workers).0
    case UpdateOp(id, req, workers) => Update(s, id, req, workers).0
    case DeleteOp(id) => Delete(s, id).0
  }

  /** The stores after running `ops` in order, successful or not. */
  function Run(s: Store, ops: seq<Op>): Store
    decreases |ops|
  {
    if |ops| == 0 then s else Run(Apply(s, ops[0]), ops[1..])
  }

  /** From the empty ledger, any sequence of calls leaves every row equal to its entries and within the ceiling. */
  lemma {:induction false} RunPreservesInv(s: Store, ops: seq<Op>)
    requires Inv(s)
    ensures Inv(Run(s, ops))
    decreases |ops|
  {
    if |ops| > 0 {
      match ops[0] {
        case AddOp(req, workers) => AddPreservesInv(s, req, workers);
        case UpdateOp(id, req, workers) => UpdatePreservesInv(s, id, req, workers);
        case DeleteOp(id) => DeletePreservesInv(s, id);
      }
      RunPreservesInv(Apply(s, ops[0]), ops[1..]);
    }
  }

  /** Every state reachable from the empty ledger satisfies the invariant. */
  lemma ReachableInv(ops: seq<Op>)
    ensures Inv(Run(EmptyStore, ops))
  {
    EmptyStoreInv();
    RunPreservesInv(EmptyStore, ops);
  }

  // ----- Laws of the individual operations ---------------------------------

  /**
   * Deleting what was just added restores the entries exactly and every row's
   * totals; a row the add created stays behind with zero totals.
   */
  lemma AddThenDeleteRestores(s: Store, req: AddRequest, workers: map<WorkerId, Worker>)
    requires Inv(s) && Add(s, req, workers).1.Ok?
    ensures var (s1, r) := Add(s, req, workers);
            var s2 := Delete(s1, r.value.id).0;
            && Delete(s1, r.value.id).1 == Ok(r.value.entry)
            && s2.entries == s.entries && s2.nextId == s.nextId + 1
            && (KeyOf(r.value.entry) in s.summaries ==> s2.summaries == s.summaries)
            && (KeyOf(r.value.entry) !in s.summaries ==> s2.summaries == s.summaries[KeyOf(r.value.entry) := Zero])
  {
    var (s1, r) := Add(s, req, workers);
    var e := r.value.entry;
    var n := s.nextId;
    assert n !in s.entries;
    assert s1.entries[n] == e;
    var s2 := Delete(s1, n).0;
    assert s2.entries == s.entries;
    var key := KeyOf(e);
    assert s2.summaries[key] == Lookup(s.summaries, key);
  }

  /** Under the invariant an update's row exists, and it moves by exactly the new minus the old values. */
  lemma UpdateAppliesDelta(s: Store, id: EntryId, req: UpdateRequest, workers: map<WorkerId, Worker>)
    requires Inv(s) && Update(s, id, req, workers).1.Ok?
    ensures var (s1, r) := Update(s, id, req, workers);
            var prev := s.entries[id];
            && KeyOf(prev) in s.summaries
            && s1.entries == s.entries[id := r.value]
            && s1.summaries[KeyOf(prev)].paid == s.summaries[KeyOf(prev)].paid - prev.paidMinutes + r.value.paidMinutes
            && s1.summaries[KeyOf(prev)].unpaid == s.summaries[KeyOf(prev)].unpaid - prev.unpaidMinutes + r.value.unpaidMinutes
            && s1.summaries[KeyOf(prev)].overtime
               == s.summaries[KeyOf(prev)].overtime - prev.overtimeMinutes + r.value.overtimeMinutes
            && forall k :: k != KeyOf(prev) ==> Lookup(s1.summaries, k) == Lookup(s.summaries, k)
  {
    assert KeyOf(s.entries[id]) in s.summaries;
  }

  /**
   * With every field present and the worker known, an add is refused as
   * overtime-free exactly when the resolved minutes do not exceed the base,
   * and the refusal reports the worked minutes and the base in force.
   */
  lemma AddRejectsNoOvertime(s: Store, req: AddRequest, workers: map<WorkerId, Worker>)
    requires req.workerId.Some? && req.date.Some? && req.otStart.Some? && req.otEnd.Some?
    requires req.workerId.value in workers
    ensures var worked := Resolve(req.otStart.value, req.otEnd.value, req.deductLunch.GetOr(true));
            var baseHours := EffectiveBaseHours(workers[req.workerId.value].baseHoursPerDay);
            (Add(s, req, workers).1 == Err(NoOvertime(worked, baseHours))) <==> worked <= baseHours * 60
    ensures Add(s, req, workers).1.Err? ==> Add(s, req, workers).0 == s
  {
  }

  /** The remaining allowance an add reports is what the monthly view shows right after it. */
  lemma ReceiptMatchesMonthlyRow(s: Store, req: AddRequest, workers: map<WorkerId, Worker>)
    requires Add(s, req, workers).1.Ok?
    ensures var (s1, r) := Add(s, req, workers);
            r.value.remainingPaidMinutesAfter == Remaining(s1.summaries[KeyOf(r.value.entry)].paid)
  {
    var r := AddDecision(s, req, workers).value;
    var e := r.entry;
    var w := req.workerId.value;
    var worked := Resolve(req.otStart.value, req.otEnd.value, req.deductLunch.GetOr(true));
    var baseHours := EffectiveBaseHours(workers[w].baseHoursPerDay);
    var alreadyPaid := Lookup(s.summaries, KeyOf(e)).paid;
    RemainingAfterIsRemainingOfNewTotal(worked, baseHours, alreadyPaid);
  }

  /** Under the invariant an add never takes a row past the ceiling, and it inserts under a fresh id. */
  lemma AddKeepsCeiling(s: Store, req: AddRequest, workers: map<WorkerId, Worker>)
    requires Inv(s) && Add(s, req, workers).1.Ok?
    ensures var (s1, r) := Add(s, req, workers);
            && r.value.id !in s.entries
            && s1.summaries[KeyOf(r.value.entry)].paid <= PaidLimitMinutes
            && s1.summaries[KeyOf(r.value.entry)].paid
               == Lookup(s.summaries, KeyOf(r.value.entry)).paid + r.value.entry.paidMinutes
  {
    SummaryBounds(s, KeyOf(Add(s, req, workers).1.value.entry));
  }
}
