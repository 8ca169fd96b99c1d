/** The already-parsed `Kronos_WFC.Response` payloads that the parsers and the store read.
    Field names follow the vendor's attribute names without their leading underscore; a
    field that the source reads with a default, or that may be missing, is an `Option`. */
module Payload {
  import opened Wrappers

  /** A record of string-valued attributes in document order (a `Totals.Total` entry). */
  type Record = seq<(string, string)>

  /** `InPunch.Punch` or `OutPunch.Punch` of a totaled span. */
  datatype RawPunch = RawPunch(date: string, time: string, kronosTimeZone: Option<string>)

  /** One `TimekeepingException`. Each attribute may be missing. */
  datatype RawException = RawException(
    exceptionTypeName: Option<string>,
    differenceToLimit: Option<string>,
    durationOfException: Option<string>,
    inPunchFlag: Option<string>)

  /** `Exceptions.TimekeepingException`, which the XML conversion leaves absent, as a lone
      record, or as a list. */
  datatype ExceptionField = Absent | One(exception: RawException) | Many(exceptions: seq<RawException>)

  /** One `TotaledSpan`: a shift with its optional punches and exceptions. */
  datatype TotaledSpan = TotaledSpan(
    date: Option<string>,
    inPunch: Option<RawPunch>,
    outPunch: Option<RawPunch>,
    exceptions: ExceptionField)

  /** One `DateTotals` record: a day, its optional grand total and its pay-code breakdown. */
  datatype DateTotals = DateTotals(date: string, grandTotal: Option<string>, totals: Option<seq<Record>>)

  /** One segment of a scheduled shift. */
  datatype ShiftSegment = ShiftSegment(startDate: string, endDate: string, startTime: string, endTime: string)

  /** One `ScheduleShift`: its start date and its segment. */
  datatype ScheduleShift = ScheduleShift(startDate: string, segment: ShiftSegment)

  /** A `Schedule`: its `ScheduleItems.ScheduleShift` list. */
  datatype Schedule = Schedule(shifts: seq<ScheduleShift>)

  /** `Kronos_WFC.Response`. The paths `Timesheet.DailyTotals.DateTotals` and
      `Timesheet.TotaledSpans.TotaledSpan` are read with the default `[]`, so a missing
      list is the empty list here. */
  datatype Response = Response(
    status: Option<string>,
    username: Option<string>,
    errorCode: Option<string>,
    periodDateSpan: Option<string>,
    dateTotals: seq<DateTotals>,
    totaledSpans: seq<TotaledSpan>,
    schedule: Option<Schedule>)
}
