/**
 * Time-window resolution and the overtime split of the work-log controller
 * (backend/controllers/worklog.controller.js, lines 7-8, 60-78, 100-107).
 *
 * Clock times are minutes of the day; the calendar date plays no part in the
 * arithmetic because both instants are built on the same day.
 */
module TimeWindow {

  const MinutesPerDay: int := 24 * 60
  const LunchMinutes: int := 60
  /** The monthly ceiling on paid overtime: 72 hours. */
  const PaidLimitMinutes: int := 72 * 60
  const DefaultBaseHours: int := 8

  /** A parsed `HH:MM` clock time. */
  type MinuteOfDay = t: int | 0 <= t < 24 * 60

  function Max(a: int, b: int): int { if a < b then b else a }
  function Min(a: int, b: int): int { if a < b then a else b }

  /**
   * Minutes from `start` to `end`; an end at or before the start is taken to
   * fall on the next day. The result is a forward walk round the clock.
   */
  function Span(start: MinuteOfDay, end: MinuteOfDay): (d: int)
    ensures 1 <= d <= MinutesPerDay
    ensures (start + d) % MinutesPerDay == end
  {
    if end <= start then end + MinutesPerDay - start else end - start
  }

  /** No shorter positive forward walk from `start` reaches `end`. */
  lemma SpanIsShortestWalk(start: MinuteOfDay, end: MinuteOfDay, d: int)
    requires 1 <= d && (start + d) % MinutesPerDay == end
    ensures Span(start, end) <= d
  {
    var q := (start + d) / MinutesPerDay;
    assert start + d == q * MinutesPerDay + end;
    if end > start {
      assert q >= 0;
    } else {
      assert q >= 1;
    }
  }

  /** Worked minutes of a window, less the lunch hour when it is deducted. */
  function Resolve(start: MinuteOfDay, end: MinuteOfDay, deductLunch: bool): (w: int)
    ensures 0 <= w <= Span(start, end)
    ensures !deductLunch ==> w == Span(start, end)
    ensures deductLunch ==> Span(start, end) - w <= LunchMinutes
    ensures deductLunch && w > 0 ==> w == Span(start, end) - LunchMinutes
  {
    var worked := Span(start, end);
    if deductLunch then Max(worked - LunchMinutes, 0) else worked
  }

  /** `worker.baseHoursPerDay || 8`: zero (and every other falsy value) falls back to 8. */
  function EffectiveBaseHours(baseHoursPerDay: int): (h: int)
    ensures h != 0
    ensures baseHoursPerDay == 0 ==> h == DefaultBaseHours
    ensures baseHoursPerDay != 0 ==> h == baseHoursPerDay
  {
    if baseHoursPerDay == 0 then DefaultBaseHours else baseHoursPerDay
  }

  /** Minutes beyond the base day, never negative. */
  function Overtime(workedMinutes: int, baseHours: int): (ot: int)
    ensures ot >= 0 && ot >= workedMinutes - baseHours * 60
    ensures ot > 0 ==> ot == workedMinutes - baseHours * 60
    ensures ot == 0 <==> workedMinutes <= baseHours * 60
  {
    Max(workedMinutes - baseHours * 60, 0)
  }

  /** Paid minutes still available this month. */
  function Remaining(alreadyPaid: int): (r: int)
    ensures r >= 0
    ensures alreadyPaid <= PaidLimitMinutes ==> alreadyPaid + r == PaidLimitMinutes
    ensures alreadyPaid >= PaidLimitMinutes ==> r == 0
  {
    Max(PaidLimitMinutes - alreadyPaid, 0)
  }

  datatype SplitResult = SplitResult(overtime: int, paid: int, unpaid: int)

  /**
   * Split one entry's overtime into paid and unpaid minutes against what the
   * month has already paid: paid takes as much of the overtime as the
   * remaining allowance admits, unpaid takes the rest.
   */
  function Split(workedMinutes: int, baseHours: int, alreadyPaid: int): (r: SplitResult)
    ensures r.overtime == Overtime(workedMinutes, baseHours)
    ensures r.paid + r.unpaid == r.overtime
    ensures 0 <= r.paid <= r.overtime && r.paid <= Remaining(alreadyPaid)
    ensures r.unpaid > 0 ==> r.paid == Remaining(alreadyPaid)
    ensures alreadyPaid <= PaidLimitMinutes ==> alreadyPaid + r.paid <= PaidLimitMinutes
  {
    var overtime := Overtime(workedMinutes, baseHours);
    var paid := Min(overtime, Remaining(alreadyPaid));
    SplitResult(overtime, paid, overtime - paid)
  }

  /** The breakdown answered with a success: what is left after this entry. */
  function RemainingAfter(alreadyPaid: int, paid: int): (r: int)
    ensures r >= 0
    ensures 0 <= paid <= Remaining(alreadyPaid) ==> r == Remaining(alreadyPaid) - paid
    ensures paid >= Remaining(alreadyPaid) ==> r == 0
  {
    Max(Remaining(alreadyPaid) - paid, 0)
  }

  /** What the success response reports as left equals the allowance left after the increment. */
  lemma RemainingAfterIsRemainingOfNewTotal(workedMinutes: int, baseHours: int, alreadyPaid: int)
    ensures RemainingAfter(alreadyPaid, Split(workedMinutes, baseHours, alreadyPaid).paid)
         == Remaining(alreadyPaid + Split(workedMinutes, baseHours, alreadyPaid).paid)
  {
    var r := Split(workedMinutes, baseHours, alreadyPaid);
    if alreadyPaid > PaidLimitMinutes {
      assert r.paid == 0;
    }
  }

  /** 23:00 to 02:00 without lunch is three hours. */
  lemma OvernightExample()
    ensures Resolve(23 * 60, 2 * 60, false) == 180
  {
  }

  /** 09:00 to 09:30 with lunch deducted floors at zero. */
  lemma LunchFloorExample()
    ensures Resolve(9 * 60, 9 * 60 + 30, true) == 0
  {
  }

  /** 4300 minutes already paid and 40 minutes of overtime: 20 paid, 20 unpaid. */
  lemma CapSplitExample()
    ensures Split(8 * 60 + 40, 8, 4300) == SplitResult(40, 20, 20)
  {
  }
}
