/** The client dashboard of the shift variant: its view state as a class
    whose methods are the component's handlers, the report totals and the
    month picker. Store replies and the user's confirmation are inputs. */
module TimeEntryForm {
  import opened Store
  import opened Calendar
  import opened ShiftRules

  /** The shift `saveShift` inserts. */
  datatype NewShift = NewShift(userId: string, driverId: string, startTime: int, endTime: int, breakMinutes: int)

  datatype ReportSummary = ReportSummary(totalHours: real, totalBreaks: int)

  // ------------------------------------------------------------------
  // Specification of the report totals
  // ------------------------------------------------------------------

  /** Sum over the shifts of `duration - break / 60`, in hours. */
  function ReportHours(rows: seq<Shift>): real
  {
    if rows == [] then 0.0
    else
      var s := rows[|rows| - 1];
      var duration := (s.endTime - s.startTime) as real / 60.0;
      ReportHours(rows[..|rows| - 1]) + (duration - s.breakMinutes as real / 60.0)
  }

  function ReportBreaks(rows: seq<Shift>): int
  {
    if rows == [] then 0 else ReportBreaks(rows[..|rows| - 1]) + rows[|rows| - 1].breakMinutes
  }

  /** The net durations the shift table shows, summed. */
  function DisplayedNetSum(rows: seq<Shift>): real
  {
    if rows == [] then 0.0
    else
      var s := rows[|rows| - 1];
      DisplayedNetSum(rows[..|rows| - 1]) + NetDuration(Some(s.startTime), Some(s.endTime), s.breakMinutes)
  }

  function ElapsedMinutes(rows: seq<Shift>): int
  {
    if rows == [] then 0 else ElapsedMinutes(rows[..|rows| - 1]) + (rows[|rows| - 1].endTime - rows[|rows| - 1].startTime)
  }

  /** The report's total hours are the sum of the net durations the table
      shows for its shifts, and equal total elapsed minutes less total break
      minutes, in hours. */
  lemma {:induction false} ReportHoursAgree(rows: seq<Shift>)
    ensures ReportHours(rows) == DisplayedNetSum(rows)
    ensures ReportHours(rows) * 60.0 == (ElapsedMinutes(rows) - ReportBreaks(rows)) as real
  {
    if rows != [] {
      ReportHoursAgree(rows[..|rows| - 1]);
    }
  }

  /** Shifts whose breaks follow the policy give a non-negative total, and
      at most 45 break minutes per shift. */
  lemma {:induction false} ReportOfPolicyShifts(rows: seq<Shift>)
    requires forall k :: 0 <= k < |rows| ==> rows[k].startTime <= rows[k].endTime
    requires forall k :: 0 <= k < |rows| ==> rows[k].breakMinutes == BreakMinutes(rows[k].endTime - rows[k].startTime)
    ensures ReportHours(rows) >= 0.0
    ensures 0 <= ReportBreaks(rows) <= 45 * |rows|
  {
    if rows != [] {
      var init := rows[..|rows| - 1];
      assert forall k :: 0 <= k < |init| ==> init[k] == rows[k];
      ReportOfPolicyShifts(init);
      var s := rows[|rows| - 1];
      BreakShorterThanShift(s.endTime - s.startTime);
      BreakTiers(s.endTime - s.startTime);
    }
  }

  /** The totals loop of `fetchReport`. */
  method SumReport(rows: seq<Shift>) returns (summary: ReportSummary)
    ensures summary == ReportSummary(ReportHours(rows), ReportBreaks(rows))
    ensures rows == [] ==> summary == ReportSummary(0.0, 0)
  {
    var totalRes := 0.0;
    var breakRes := 0;
    var i := 0;
    while i < |rows|
      invariant 0 <= i <= |rows|
      invariant totalRes == ReportHours(rows[..i])
      invariant breakRes == ReportBreaks(rows[..i])
    {
      var s := rows[i];
      assert rows[..i + 1][..i] == rows[..i] && rows[..i + 1][i] == s;
      var duration := (s.endTime - s.startTime) as real / 60.0;
      var net := duration - s.breakMinutes as real / 60.0;
      totalRes := totalRes + net;
      breakRes := breakRes + s.breakMinutes;
      i := i + 1;
    }
    assert rows[..i] == rows;
    summary := ReportSummary(totalRes, breakRes);
  }

  // ------------------------------------------------------------------
  // The month picker
  // ------------------------------------------------------------------

  /** `getMonthOptions`: the current month and the eleven before it,
      newest first. */
  method MonthOptions(today: YearMonth) returns (options: seq<YearMonth>)
    requires ValidMonth(today)
    ensures |options| == 12
    ensures options[0] == today
    ensures forall i :: 0 <= i < 12 ==> ValidMonth(options[i])
    ensures forall i :: 0 < i < 12 ==> NextMonth(options[i]) == options[i - 1]
  {
    options := [];
    var i := 0;
    while i < 12
      invariant 0 <= i <= 12 && |options| == i
      invariant forall k :: 0 <= k < i ==> options[k] == MonthAt(MonthIndex(today) - k)
    {
      var d := MonthAt(today.year * 12 + (today.month - 1) - i);  // new Date(y, m - i, 1)
      options := options + [d];
      i := i + 1;
    }
    MonthAtIndex(today);
    forall i | 0 < i < 12 ensures NextMonth(options[i]) == options[i - 1] {
      NextMonthAt(MonthIndex(today) - i);
    }
  }

  // ------------------------------------------------------------------
  // The component
  // ------------------------------------------------------------------

  class Dashboard {
    // form inputs
    var date: int
    var startTime: ClockTime
    var endTime: ClockTime
    var pause: int
    // data
    var drivers: seq<Driver>
    var shifts: seq<Shift>
    // report
    var reportData: seq<Shift>
    var reportSummary: ReportSummary

    /** The break on display is the policy's break for the entered times. */
    ghost predicate Valid()
      reads this
    {
      pause == BreakMinutes(ShiftEnd(date, startTime, endTime) - Stamp(date, startTime))
    }

    /** The mounted component: today, 08:00 to 17:00, once the break effect
        has run; no rows loaded yet. */
    constructor (today: int)
      ensures Valid()
      ensures date == today && startTime == 8 * 60 && endTime == 17 * 60 && pause == 30
      ensures drivers == [] && shifts == [] && reportData == [] && reportSummary == ReportSummary(0.0, 0)
    {
      date, startTime, endTime, pause := today, 8 * 60, 17 * 60, 0;
      drivers, shifts := [], [];
      reportData, reportSummary := [], ReportSummary(0.0, 0);
      new;
      UpdateBreak();
    }

    /** The break effect: rolls an end before the start to the next day and
        picks the break from the elapsed hours. */
    method UpdateBreak()
      modifies this`pause
      ensures Valid()
      ensures pause == 0 || pause == 30 || pause == 45
    {
      var startIso := Stamp(date, startTime);
      var endDateObj := Stamp(date, endTime);
      if endDateObj < startIso {
        endDateObj := endDateObj + MinutesPerDay;  // setDate(getDate() + 1)
      }
      var hoursTotal := (endDateObj - startIso) as real / 60.0;
      var newPause := 0;
      if hoursTotal > 9.0 {
        newPause := 45;
      } else if hoursTotal > 6.0 {
        newPause := 30;
      }
      pause := newPause;
    }

    /** A change of the date or of either clock time, followed by the effect. */
    method EditShiftTimes(newDate: int, newStart: ClockTime, newEnd: ClockTime)
      modifies this`date, this`startTime, this`endTime, this`pause
      ensures Valid()
      ensures date == newDate && startTime == newStart && endTime == newEnd
    {
      date, startTime, endTime := newDate, newStart, newEnd;
      UpdateBreak();
    }

    /** `saveShift`: without a selected driver nothing is inserted;
        otherwise the shift from the entered date and times, its end rolled
        forward as the break preview does, with the break on display. */
    method SaveShift(selectedDriver: string, userId: string) returns (insert: Option<NewShift>)
      requires Valid()
      ensures insert.None? <==> selectedDriver == ""
      ensures insert.Some? ==>
                var s := insert.value;
                && s.userId == userId && s.driverId == selectedDriver
                && s.startTime == Stamp(date, startTime)
                && s.endTime % MinutesPerDay == endTime
                && 0 <= s.endTime - s.startTime < MinutesPerDay
                && s.breakMinutes == BreakMinutes(s.endTime - s.startTime)
    {
      if selectedDriver == "" {
        return None;
      }
      var startIso := Stamp(date, startTime);
      var endDateObj := Stamp(date, endTime);
      if endDateObj < startIso {
        endDateObj := endDateObj + MinutesPerDay;
      }
      insert := Some(NewShift(userId, selectedDriver, startIso, endDateObj, pause));
    }

    /** `fetchShifts`: the rows replace the list; an error leaves it. */
    method FetchShifts(reply: Reply<seq<Shift>>)
      requires Valid()
      modifies this`shifts
      ensures Valid()
      ensures shifts == if reply.Rows? then reply.data else old(shifts)
    {
      if reply.Rows? {
        shifts := reply.data;
      }
    }

    /** `fetchDrivers`: the rows replace the list; an error leaves it. */
    method FetchDrivers(reply: Reply<seq<Driver>>)
      requires Valid()
      modifies this`drivers
      ensures Valid()
      ensures drivers == if reply.Rows? then reply.data else old(drivers)
    {
      if reply.Rows? {
        drivers := reply.data;
      }
    }

    /** `deleteShift`: once confirmed and deleted in the store, the shift
        leaves the list; otherwise the list is unchanged. */
    method DeleteShift(id: string, confirmed: bool, storeFailed: bool)
      requires Valid()
      modifies this`shifts
      ensures Valid()
      ensures shifts == if confirmed && !storeFailed then Without(old(shifts), id, ShiftId) else old(shifts)
    {
      if !confirmed {
        return;
      }
      if !storeFailed {
        shifts := Without(shifts, id, ShiftId);
      }
    }

    /** `deleteDriver`: once confirmed and deleted in the store, the driver
        leaves the list; otherwise the list is unchanged. */
    method DeleteDriver(id: string, confirmed: bool, storeFailed: bool)
      requires Valid()
      modifies this`drivers
      ensures Valid()
      ensures drivers == if confirmed && !storeFailed then Without(old(drivers), id, DriverId) else old(drivers)
    {
      if !confirmed {
        return;
      }
      if !storeFailed {
        drivers := Without(drivers, id, DriverId);
      }
    }

    /** `fetchReport`: the month's date range for the query and, when rows
        come back, the rows and their totals; otherwise both are left. */
    method FetchReport(reportMonth: YearMonth, reply: Reply<seq<Shift>>) returns (range: DateRange)
      requires ValidMonth(reportMonth) && Valid()
      modifies this`reportData, this`reportSummary
      ensures Valid()
      ensures range == MonthRange(reportMonth)
      ensures reply.Rows? ==> reportData == reply.data
                              && reportSummary == ReportSummary(ReportHours(reply.data), ReportBreaks(reply.data))
      ensures reply.Failed? ==> reportData == old(reportData) && reportSummary == old(reportSummary)
    {
      var startDate := FirstDay(reportMonth);
      var next := NextMonth(reportMonth);
      var endDate := DayBefore(FirstDay(next));  // new Date(y, m, 0)
      range := DateRange(startDate, endDate);
      if reply.Rows? {
        reportData := reply.data;
        reportSummary := SumReport(reply.data);
      }
    }
  }
}
