/**
 * The record-entry page (frontend/ott/src/pages/dashboard/enterOT.jsx): the
 * form check, the worker's base hours, the live duration preview and the
 * submit guard that refuses an entry without overtime before it is posted.
 */
module EnterOT {
  import opened Wrappers
  import opened TimeWindow
  import opened Lists
  import LedgerStore

  /** A worker as the page lists it; 0 stands for an unset base. */
  datatype WorkerRow = WorkerRow(id: string, baseHoursPerDay: int)

  /** The form fields; an empty string is an empty field. */
  datatype FormData = FormData(workerId: string, date: string, otStart: string, otEnd: string, deductLunch: bool)

  /** The messages of the form check, in the order it tries them. */
  datatype FormError = SelectWorker | SelectDate | MissingStart | MissingEnd | InvalidStart | InvalidEnd

  predicate IsDigit(c: char) { '0' <= c <= '9' }

  function DigitValue(c: char): (d: int)
    requires IsDigit(c)
    ensures 0 <= d <= 9
  {
    c as int - '0' as int
  }

  function DigitChar(d: int): (c: char)
    requires 0 <= d <= 9
    ensures IsDigit(c) && DigitValue(c) == d
  {
    (d + '0' as int) as char
  }

  /** The time pattern `^([0-1]?[0-9]|2[0-3]):[0-5][0-9]$`: `H:MM`, or `HH:MM` with hours below 24. */
  predicate IsClock(t: string) {
    if |t| == 4 then
      IsDigit(t[0]) && t[1] == ':' && '0' <= t[2] <= '5' && IsDigit(t[3])
    else if |t| == 5 then
      (('0' <= t[0] <= '1' && IsDigit(t[1])) || (t[0] == '2' && '0' <= t[1] <= '3'))
      && t[2] == ':' && '0' <= t[3] <= '5' && IsDigit(t[4])
    else
      false
  }

  /** The two numbers on either side of the colon. */
  function ClockParts(t: string): (hm: (int, int))
    requires IsClock(t)
    ensures 0 <= hm.0 < 24 && 0 <= hm.1 < 60
  {
    if |t| == 4 then (DigitValue(t[0]), 10 * DigitValue(t[2]) + DigitValue(t[3]))
    else (10 * DigitValue(t[0]) + DigitValue(t[1]), 10 * DigitValue(t[3]) + DigitValue(t[4]))
  }

  /** Hours times sixty plus minutes: a minute of the day. */
  function ClockMinutes(t: string): (m: MinuteOfDay)
    requires IsClock(t)
    ensures m / 60 == ClockParts(t).0 && m % 60 == ClockParts(t).1
  {
    ClockParts(t).0 * 60 + ClockParts(t).1
  }

  /** A minute of the day written as zero-padded `HH:MM`. */
  function FormatClock(m: MinuteOfDay): (t: string)
    ensures |t| == 5
  {
    [DigitChar(m / 60 / 10), DigitChar(m / 60 % 10), ':', DigitChar(m % 60 / 10), DigitChar(m % 60 % 10)]
  }

  /** Every minute of the day has a spelling the form accepts, and it reads back as that minute. */
  lemma FormatThenParse(m: MinuteOfDay)
    ensures IsClock(FormatClock(m)) && ClockMinutes(FormatClock(m)) == m
  {
    var t := FormatClock(m);
    assert ClockParts(t) == (m / 60, m % 60);
  }

  /** An accepted spelling is the padded form of its minute, up to a missing leading zero. */
  lemma ParseThenFormat(t: string)
    requires IsClock(t)
    ensures FormatClock(ClockMinutes(t)) == if |t| == 4 then ['0'] + t else t
  {
    var m := ClockMinutes(t);
    var (h, mm) := ClockParts(t);
    assert m / 60 == h && m % 60 == mm;
    if |t| == 4 {
      assert DigitChar(h / 10) == '0' && DigitChar(h % 10) == t[0];
      assert DigitChar(mm / 10) == t[2] && DigitChar(mm % 10) == t[3];
    } else {
      assert DigitChar(h / 10) == t[0] && DigitChar(h % 10) == t[1];
      assert DigitChar(mm / 10) == t[3] && DigitChar(mm % 10) == t[4];
    }
  }

  /** Two accepted spellings of the same length name the same minute only if they are the same text. */
  lemma ClockSpellingUnique(t: string, u: string)
    requires IsClock(t) && IsClock(u) && |t| == |u| && ClockMinutes(t) == ClockMinutes(u)
    ensures t == u
  {
    ParseThenFormat(t);
    ParseThenFormat(u);
    if |t| == 4 {
      assert t == (['0'] + t)[1..] && u == (['0'] + u)[1..];
    }
  }

  /** The pattern accepts exactly the padded spellings of the minutes of the day, and those with the leading zero dropped. */
  lemma ClockPattern(t: string)
    ensures IsClock(t) <==> exists m: MinuteOfDay :: FormatClock(m) == t || FormatClock(m) == ['0'] + t
  {
    if IsClock(t) {
      ParseThenFormat(t);
      var m := ClockMinutes(t);
      assert FormatClock(m) == t || FormatClock(m) == ['0'] + t;
    }
    if m: MinuteOfDay :| FormatClock(m) == t || FormatClock(m) == ['0'] + t {
      FormatThenParse(m);
      if FormatClock(m) != t {
        assert t == FormatClock(m)[1..];
      }
    }
  }

  /** validateForm: the first failing check, or `None` when the form may be sent. */
  function ValidateForm(f: FormData): (r: Option<FormError>)
    ensures r.None? <==> f.workerId != "" && f.date != "" && IsClock(f.otStart) && IsClock(f.otEnd)
    ensures r == Some(SelectWorker) <==> f.workerId == ""
    ensures r == Some(SelectDate) <==> f.workerId != "" && f.date == ""
    ensures r == Some(MissingStart) <==> f.workerId != "" && f.date != "" && f.otStart == ""
    ensures r == Some(MissingEnd) <==> f.workerId != "" && f.date != "" && f.otStart != "" && f.otEnd == ""
    ensures r == Some(InvalidStart) <==> f.workerId != "" && f.date != "" && f.otStart != "" && f.otEnd != "" && !IsClock(f.otStart)
    ensures r == Some(InvalidEnd) <==> f.workerId != "" && f.date != "" && f.otEnd != "" && IsClock(f.otStart) && !IsClock(f.otEnd)
  {
    if f.workerId == "" then Some(SelectWorker)
    else if f.date == "" then Some(SelectDate)
    else if f.otStart == "" then Some(MissingStart)
    else if f.otEnd == "" then Some(MissingEnd)
    else if !IsClock(f.otStart) then Some(InvalidStart)
    else if !IsClock(f.otEnd) then Some(InvalidEnd)
    else None
  }

  /** getBaseHoursMinutes: the first listed worker with the selected id decides; no worker or an unset base gives eight hours. */
  function BaseHoursMinutes(workers: seq<WorkerRow>, workerId: string): (m: int)
    ensures m % 60 == 0
    ensures (forall i :: 0 <= i < |workers| ==> workers[i].id != workerId) ==> m == DefaultBaseHours * 60
    ensures forall i :: 0 <= i < |workers| && workers[i].id == workerId && (forall j :: 0 <= j < i ==> workers[j].id != workerId)
                        ==> m == EffectiveBaseHours(workers[i].baseHoursPerDay) * 60
  {
    var found := FindFirst(workers, (w: WorkerRow) => w.id == workerId);
    var hours := if found.Some? && workers[found.value].baseHoursPerDay != 0 then workers[found.value].baseHoursPerDay else 8;
    hours * 60
  }

  /** The preview the page shows while the form is filled in. */
  datatype Duration = Duration(
    totalWorked: int, totalHours: int, totalMins: int,
    overtimeMinutes: int, otHours: int, otMins: int,
    baseHours: int)

  /** The preview of one window: worked and overtime minutes, each also in whole hours and remaining minutes. */
  function Preview(startMinutes: MinuteOfDay, endMinutes: MinuteOfDay, deductLunch: bool, baseHoursMinutes: int): (d: Duration)
    requires baseHoursMinutes % 60 == 0
    ensures d.totalWorked == Resolve(startMinutes, endMinutes, deductLunch)
    ensures d.baseHours * 60 == baseHoursMinutes
    ensures d.overtimeMinutes == Overtime(d.totalWorked, d.baseHours)
    ensures d.totalHours * 60 + d.totalMins == d.totalWorked && 0 <= d.totalMins < 60
    ensures d.otHours * 60 + d.otMins == d.overtimeMinutes && 0 <= d.otMins < 60
  {
    var end := if endMinutes <= startMinutes then endMinutes + 24 * 60 else endMinutes;
    var worked := end - startMinutes;
    var totalWorked := if deductLunch then Max(worked - 60, 0) else worked;
    var overtime := Max(totalWorked - baseHoursMinutes, 0);
    Duration(totalWorked, totalWorked / 60, totalWorked % 60, overtime, overtime / 60, overtime % 60, baseHoursMinutes / 60)
  }

  /**
   * calculateDuration: no preview until both times are filled in; otherwise
   * the same window, lunch and base rule the server applies, in whole hours
   * and remaining minutes.
   */
  function CalculateDuration(f: FormData, workers: seq<WorkerRow>): (r: Option<Duration>)
    requires f.otStart == "" || IsClock(f.otStart)
    requires f.otEnd == "" || IsClock(f.otEnd)
    ensures r.None? <==> f.otStart == "" || f.otEnd == ""
    ensures r.Some? ==> r.value.totalWorked == Resolve(ClockMinutes(f.otStart), ClockMinutes(f.otEnd), f.deductLunch)
    ensures r.Some? ==> r.value.baseHours * 60 == BaseHoursMinutes(workers, f.workerId)
    ensures r.Some? ==> r.value.overtimeMinutes == Overtime(r.value.totalWorked, r.value.baseHours)
    ensures r.Some? ==> r.value.totalHours * 60 + r.value.totalMins == r.value.totalWorked && 0 <= r.value.totalMins < 60
    ensures r.Some? ==> r.value.otHours * 60 + r.value.otMins == r.value.overtimeMinutes && 0 <= r.value.otMins < 60
  {
    if f.otStart == "" || f.otEnd == "" then None
    else Some(Preview(ClockMinutes(f.otStart), ClockMinutes(f.otEnd), f.deductLunch, BaseHoursMinutes(workers, f.workerId)))
  }

  /** What the page posts (notes are left out). */
  datatype Payload = Payload(workerId: string, date: string, otStart: string, otEnd: string, deductLunch: bool)

  datatype SubmitOutcome =
    | Rejected(error: FormError)
    | NothingToRecord(baseHours: int)
    | Posted(payload: Payload)

  /** handleSubmit up to the request: the form check, then the no-overtime guard, then the post. */
  function HandleSubmit(f: FormData, workers: seq<WorkerRow>): (r: SubmitOutcome)
    ensures r.Rejected? <==> ValidateForm(f).Some?
    ensures r.Posted? <==> ValidateForm(f).None?
                           && Overtime(Resolve(ClockMinutes(f.otStart), ClockMinutes(f.otEnd), f.deductLunch),
                                       BaseHoursMinutes(workers, f.workerId) / 60) > 0
    ensures r.Posted? ==> r.payload == Payload(f.workerId, f.date, f.otStart, f.otEnd, f.deductLunch)
  {
    var v := ValidateForm(f);
    if v.Some? then Rejected(v.value)
    else
      var d := CalculateDuration(f, workers);
      if d.Some? && d.value.overtimeMinutes <= 0 then NothingToRecord(d.value.baseHours)
      else Posted(Payload(f.workerId, f.date, f.otStart, f.otEnd, f.deductLunch))
  }

  /**
   * When the page lists the worker with the base hours the server holds,
   * the page posts a valid form exactly when the server would not refuse it
   * for lack of overtime.
   */
  lemma SubmitGuardMatchesServer(f: FormData, rows: seq<WorkerRow>, s: LedgerStore.Store,
                                 workers: map<LedgerStore.WorkerId, LedgerStore.Worker>,
                                 w: LedgerStore.WorkerId, date: LedgerStore.CalendarDate)
    requires ValidateForm(f).None?
    requires w in workers && BaseHoursMinutes(rows, f.workerId) == EffectiveBaseHours(workers[w].baseHoursPerDay) * 60
    ensures var req := LedgerStore.AddRequest(Some(w), Some(date), Some(ClockMinutes(f.otStart)),
                                              Some(ClockMinutes(f.otEnd)), Some(f.deductLunch));
            var server := LedgerStore.AddDecision(s, req, workers);
            HandleSubmit(f, rows).Posted? <==> !(server.Err? && server.error.NoOvertime?)
  {
    assert BaseHoursMinutes(rows, f.workerId) / 60 == EffectiveBaseHours(workers[w].baseHoursPerDay);
  }
}
