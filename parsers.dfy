/** `parsers.js`: turning a Kronos response into a timesheet, and the login and logout
    status projections. */
module Parsers {
  import opened Wrappers
  import opened Seqs
  import opened Calendar
  import opened Payload

  // ---------------------------------------------------------------------------
  // Durations: `parseTime`
  // ---------------------------------------------------------------------------

  /** A number of hours as `parseTime` yields it: a count of hundredths of an hour, or NaN
      when moment could not read the text. */
  datatype Hours = Hundredths(n: nat) | NotANumber

  /** `parseTime`: `H:MM` as hours plus minutes over sixty, rounded to two decimals. */
  function ParseTime(s: string): (r: Hours)
    ensures r.Hundredths? <==> ParseClock(s).Some?
    ensures r.Hundredths? ==>
              var c := ParseClock(s).value;
              // r / 100 is the nearest hundredth to c.hour + c.minute / 60
              -1 <= 3 * r.n - (300 * c.hour + 5 * c.minute) <= 1
    ensures r.Hundredths? ==> r.n <= 2398
  {
    match ParseClock(s)
    case None => NotANumber
    case Some(c) => Hundredths(100 * c.hour + (10 * c.minute + 3) / 6)
  }

  /** The rounding never meets a tie: minutes over sixty are whole, a third or two thirds of
      a hundredth away from a hundredth, so the nearest hundredth is unique. */
  lemma ParseTimeNearest(s: string, n: nat)
    requires ParseClock(s).Some?
    requires var c := ParseClock(s).value; -1 <= 3 * n - (300 * c.hour + 5 * c.minute) <= 1
    ensures ParseTime(s) == Hundredths(n)
  {
  }

  /** An empty grand total's stand-in `"0:00"` reads as zero hours. */
  lemma ParseTimeZero()
    ensures ParseTime("0:00") == Hundredths(0)
  {
    var h, m := "0", "00";
    assert h[0] == '0' && m[0] == '0' && m[1] == '0';
    ParseTimeOf(h, m, 0, 0, 0);
    assert h + ":" + m == "0:00";
  }

  lemma ParseTimeOf(h: string, m: string, hv: nat, mv: nat, n: nat)
    requires |h| == 1 && |m| == 2 && IsDigit(h[0]) && IsDigit(m[0]) && IsDigit(m[1])
    requires hv == DigitValue(h[0]) && mv == 10 * DigitValue(m[0]) + DigitValue(m[1]) && mv <= 59
    requires -1 <= 3 * n - (300 * hv + 5 * mv) <= 1
    ensures ParseTime(h + ":" + m) == Hundredths(n)
  {
    assert h[..0] == [] && m[..1][..0] == [] && m[..1] == [m[0]];
    assert DigitsValue(h) == hv;
    assert DigitsValue(m) == mv;
    ClockOf(h, m);
  }

  lemma ClockOf(h: string, m: string)
    requires 1 <= |h| <= 2 && |m| == 2 && AllDigits(h) && AllDigits(m)
    requires DigitsValue(h) <= 23 && DigitsValue(m) <= 59
    ensures ParseClock(h + ":" + m) == Some(Clock(DigitsValue(h), DigitsValue(m)))
  {
    assert ':' !in h by {
      forall i | 0 <= i < |h| ensures h[i] != ':' { assert IsDigit(h[i]); }
    }
    assert ':' !in m by {
      forall i | 0 <= i < |m| ensures m[i] != ':' { assert IsDigit(m[i]); }
    }
    SplitAtFirst(h, ":", m);
    SplitNoSeparator(m, ":");
  }

  // ---------------------------------------------------------------------------
  // Keys: `camelCaseProperties`
  // ---------------------------------------------------------------------------

  predicate IsSeparator(c: char) {
    c == '_' || c == '-' || c == ' '
  }

  function LowerChar(c: char): char {
    if 'A' <= c <= 'Z' then (c as int + 32) as char else c
  }

  function UpperChar(c: char): char {
    if 'a' <= c <= 'z' then (c as int - 32) as char else c
  }

  /** The characters that survive renaming. */
  predicate NotSeparator(c: char) {
    !IsSeparator(c)
  }

  /** The same letter up to case. */
  predicate CaseVariant(a: char, b: char) {
    LowerChar(a) == LowerChar(b)
  }

  /** Renames `s` from the position where a word has `started` (or not), upper-casing the
      first character of each later word and dropping separators. */
  function CamelFrom(s: string, wordStart: bool, started: bool): string
    decreases |s|
  {
    if s == [] then []
    else if IsSeparator(s[0]) then CamelFrom(s[1..], started, started)
    else
      var c := if !started then LowerChar(s[0]) else if wordStart then UpperChar(s[0]) else s[0];
      [c] + CamelFrom(s[1..], false, true)
  }

  /** Changing case keeps the letter. */
  lemma CaseKept(c: char)
    ensures CaseVariant(LowerChar(c), c) && CaseVariant(UpperChar(c), c) && CaseVariant(c, c)
  {
  }

  /** Renaming leaves one character for each non-separator of `s`, in order, each the same
      letter up to case; before any word has started the first one is lower-case. */
  lemma {:induction false} CamelFromLetters(s: string, wordStart: bool, started: bool)
    ensures |CamelFrom(s, wordStart, started)| == |Filter(s, NotSeparator)|
    ensures forall i :: 0 <= i < |CamelFrom(s, wordStart, started)| ==>
              CaseVariant(CamelFrom(s, wordStart, started)[i], Filter(s, NotSeparator)[i])
    ensures !started && |CamelFrom(s, wordStart, started)| > 0 ==>
              CamelFrom(s, wordStart, started)[0] == LowerChar(Filter(s, NotSeparator)[0])
    decreases |s|
  {
    if s != [] {
      assert s == [s[0]] + s[1..];
      FilterCons(s[0], s[1..], NotSeparator);
      if IsSeparator(s[0]) {
        CamelFromLetters(s[1..], started, started);
        assert CamelFrom(s, wordStart, started) == CamelFrom(s[1..], started, started);
        assert Filter(s, NotSeparator) == Filter(s[1..], NotSeparator);
      } else {
        CamelFromLetters(s[1..], false, true);
        var c := if !started then LowerChar(s[0]) else if wordStart then UpperChar(s[0]) else s[0];
        var rest, keptRest := CamelFrom(s[1..], false, true), Filter(s[1..], NotSeparator);
        assert CamelFrom(s, wordStart, started) == [c] + rest;
        assert Filter(s, NotSeparator) == [s[0]] + keptRest;
        CaseKept(s[0]);
        CaseVariantCons(c, s[0], rest, keptRest);
      }
    }
  }

  /** Putting two letters that agree up to case in front of two strings that agree up to
      case, position by position, keeps them agreeing. */
  lemma CaseVariantCons(c: char, x: char, r: string, kept: string)
    requires CaseVariant(c, x) && |r| == |kept|
    requires forall i :: 0 <= i < |r| ==> CaseVariant(r[i], kept[i])
    ensures forall i :: 0 <= i < |[c] + r| ==> CaseVariant(([c] + r)[i], ([x] + kept)[i])
  {
    forall i | 0 <= i < |[c] + r|
      ensures CaseVariant(([c] + r)[i], ([x] + kept)[i])
    {
      if i > 0 {
        assert ([c] + r)[i] == r[i - 1] && ([x] + kept)[i] == kept[i - 1];
      }
    }
  }

  /** `_.camelCase` on ASCII attribute names such as `_PayCodeId`: separators dropped, the
      first word starting lower-case and each later word upper-case. */
  function CamelCase(key: string): string {
    CamelFrom(key, false, false)
  }

  /** `camelCaseProperties`: `_.mapKeys` with `_.camelCase`. */
  function CamelCaseProperties(rec: Record): (r: map<string, string>)
    ensures forall i :: 0 <= i < |rec| ==> CamelCase(rec[i].0) in r
  {
    if rec == [] then map[]
    else
      var init := rec[..|rec| - 1];
      assert forall i :: 0 <= i < |init| ==> init[i] == rec[i];
      CamelCaseProperties(init)[CamelCase(rec[|rec| - 1].0) := rec[|rec| - 1].1]
  }

  /** `rec[i]` is the last attribute of `rec` whose name renames to `k`. */
  predicate LastNamed(rec: Record, k: string, i: int) {
    0 <= i < |rec| && CamelCase(rec[i].0) == k && forall j :: i < j < |rec| ==> CamelCase(rec[j].0) != k
  }

  lemma LastNamedExtends(init: Record, rec: Record, k: string, i: int)
    requires |rec| == |init| + 1 && init == rec[..|init|]
    requires LastNamed(init, k, i) && CamelCase(rec[|init|].0) != k
    ensures LastNamed(rec, k, i) && rec[i] == init[i]
  {
    forall j | i < j < |rec|
      ensures CamelCase(rec[j].0) != k
    {
      if j < |init| {
        assert rec[j] == init[j];
      }
    }
  }

  /** Only keys change: every renamed key holds the value of the last attribute whose name
      renames to it, and no other key appears. */
  lemma {:induction false} CamelCasePropertiesValues(rec: Record)
    ensures forall k :: k in CamelCaseProperties(rec) ==>
              exists i :: LastNamed(rec, k, i) && CamelCaseProperties(rec)[k] == rec[i].1
  {
    if rec != [] {
      var n := |rec| - 1;
      var init := rec[..n];
      var m := CamelCaseProperties(init);
      var r := CamelCaseProperties(rec);
      var key := CamelCase(rec[n].0);
      assert r == m[key := rec[n].1];
      CamelCasePropertiesValues(init);
      forall k | k in r
        ensures exists i :: LastNamed(rec, k, i) && r[k] == rec[i].1
      {
        if k == key {
          assert LastNamed(rec, k, n);
        } else {
          assert k in m;
          var i :| LastNamed(init, k, i) && m[k] == init[i].1;
          LastNamedExtends(init, rec, k, i);
        }
      }
    }
  }

  // ---------------------------------------------------------------------------
  // The pay period and its days
  // ---------------------------------------------------------------------------

  /** `_PeriodDateSpan` (default `''`) split on `" - "`, each side read as `M/DD/YYYY`.
      A missing second side leaves `endDate` undefined. */
  function PeriodBounds(periodDateSpan: Option<string>): (bounds: (Option<Date>, Option<Date>))
    ensures bounds.0.Some? ==> ValidDate(bounds.0.value)
    ensures bounds.1.Some? ==> ValidDate(bounds.1.value)
    ensures bounds.1.Some? ==> exists i :: 0 <= i < |periodDateSpan.GetOr("")| && OccursAt(periodDateSpan.GetOr(""), " - ", i)
    ensures periodDateSpan.None? ==> bounds == (None, None)
  {
    var parts := Split(periodDateSpan.GetOr(""), " - ");
    assert Split("", "/") == [""];
    (ParseDate(parts[0]), if |parts| >= 2 then ParseDate(parts[1]) else None)
  }

  /** One entry of `days`. `date` is `None` where moment could not read `_Date`. */
  datatype Day = Day(date: Option<Date>, total: Hours, totals: seq<map<string, string>>)

  /** `parseTime(each._GrandTotal || "0:00")`. */
  function GrandTotal(raw: DateTotals): (h: Hours)
    ensures raw.grandTotal.None? || raw.grandTotal == Some("") ==> h == Hundredths(0)
    ensures raw.grandTotal.Some? && raw.grandTotal.value != "" ==> h == ParseTime(raw.grandTotal.value)
  {
    var g := raw.grandTotal.GetOr("");
    ParseTimeZero();
    ParseTime(if g == "" then "0:00" else g)
  }

  /** One `DateTotals` record as a day: its date, its grand total and its renamed totals. */
  function ParseDay(raw: DateTotals): (day: Day)
    ensures day.date == ParseDate(raw.date) && day.total == GrandTotal(raw)
    ensures |day.totals| == |raw.totals.GetOr([])|
    ensures forall i :: 0 <= i < |day.totals| ==> day.totals[i] == CamelCaseProperties(raw.totals.GetOr([])[i])
  {
    Day(ParseDate(raw.date), GrandTotal(raw), Map(raw.totals.GetOr([]), CamelCaseProperties))
  }

  /** `startDate <= each.date && each.date <= endDate` on moments, which compare by their
      time value: an undefined or invalid moment compares as NaN, so nothing passes. */
  predicate InPeriod(startDate: Option<Date>, endDate: Option<Date>, date: Option<Date>) {
    startDate.Some? && endDate.Some? && date.Some?
    && ValidDate(startDate.value) && ValidDate(endDate.value) && ValidDate(date.value)
    && DayNumber(startDate.value) <= DayNumber(date.value) <= DayNumber(endDate.value)
  }

  /** The days of the records, those outside the period dropped. */
  function ParseDays(raws: seq<DateTotals>, startDate: Option<Date>, endDate: Option<Date>): (days: seq<Day>)
    ensures forall i :: 0 <= i < |days| ==> InPeriod(startDate, endDate, days[i].date)
  {
    Filter(Map(raws, ParseDay), (d: Day) => InPeriod(startDate, endDate, d.date))
  }

  // ---------------------------------------------------------------------------
  // Punches
  // ---------------------------------------------------------------------------

  /** Why `parseTimesheet` throws: `_KronosTimeZone` is missing (`.match` of `undefined`)
      or has no `±HH:MM` in it (`[0]` of `null`). */
  datatype ParseError = TimeZoneMissing | OffsetNotFound

  datatype Punch = Punch(time: Moment)

  /** The punch of one raw punch record: its date and time at the offset found in its
      time-zone text. There is no fallback offset on this path. */
  function PunchOf(raw: RawPunch): (r: Result<Punch, ParseError>)
    ensures r.Success? <==> raw.kronosTimeZone.Some? && MatchOffset(raw.kronosTimeZone.value).Some?
    ensures r.Success? ==> r.value.time == BuildMoment(raw.date, raw.time, MatchOffset(raw.kronosTimeZone.value).value)
    ensures raw.kronosTimeZone.None? ==> r == Failure(TimeZoneMissing)
  {
    match raw.kronosTimeZone
    case None => Failure(TimeZoneMissing)
    case Some(zone) =>
      match MatchOffset(zone)
      case None => Failure(OffsetNotFound)
      case Some(offset) => Success(Punch(BuildMoment(raw.date, raw.time, offset)))
  }

  /** Builds the punches in order; the first record that throws ends the parse. */
  function BuildPunches(raws: seq<RawPunch>): (r: Result<seq<Punch>, ParseError>)
    ensures r.Success? <==> forall i :: 0 <= i < |raws| ==> PunchOf(raws[i]).Success?
    ensures r.Success? ==> |r.value| == |raws|
    ensures r.Success? ==> forall i :: 0 <= i < |raws| ==> PunchOf(raws[i]) == Success(r.value[i])
  {
    if raws == [] then Success([])
    else
      match PunchOf(raws[0])
      case Failure(e) => Failure(e)
      case Success(p) =>
        match BuildPunches(raws[1..])
        case Failure(e) =>
          PunchesLater(raws);
          Failure(e)
        case Success(rest) =>
          PairedCons(raws, p, rest, (raw, punch) => PunchOf(raw) == Success(punch));
          Success([p] + rest)
  }

  /** A record after the first that throws is a record that throws. */
  lemma PunchesLater(raws: seq<RawPunch>)
    requires raws != [] && !forall i :: 0 <= i < |raws| - 1 ==> PunchOf(raws[1..][i]).Success?
    ensures !forall i :: 0 <= i < |raws| ==> PunchOf(raws[i]).Success?
  {
    var i :| 0 <= i < |raws| - 1 && !PunchOf(raws[1..][i]).Success?;
    assert raws[1..][i] == raws[i + 1];
  }

  function InPunchOf(span: TotaledSpan): Option<RawPunch> { span.inPunch }
  function OutPunchOf(span: TotaledSpan): Option<RawPunch> { span.outPunch }

  /** `inPunches` or `outPunches`: `_.get(eachSpan, side)`, `compact`, then one punch each. */
  function ExtractPunches(spans: seq<TotaledSpan>, side: TotaledSpan -> Option<RawPunch>): (r: Result<seq<Punch>, ParseError>)
    ensures r.Success? ==> |r.value| == |Compact(Map(spans, side))|
    ensures r.Success? ==> forall i :: 0 <= i < |r.value| ==> PunchOf(Compact(Map(spans, side))[i]) == Success(r.value[i])
  {
    BuildPunches(Compact(Map(spans, side)))
  }

  // ---------------------------------------------------------------------------
  // Exceptions
  // ---------------------------------------------------------------------------

  /** The field wrapped in a list and flattened one level: a list spreads its elements,
      anything else (a record or `undefined`) stays one element. */
  function WrapAndFlatten(field: ExceptionField): seq<Option<RawException>> {
    match field
    case Absent => [None]
    case One(x) => [Some(x)]
    case Many(xs) => Map(xs, x => Some(x))
  }

  /** `.thru(x => [x]).flatten().compact()` on `Exceptions.TimekeepingException`. */
  function NormalizeExceptions(field: ExceptionField): (r: seq<RawException>)
    ensures field.Absent? ==> r == []
    ensures field.One? ==> r == [field.exception]
    ensures field.Many? ==> r == field.exceptions
  {
    if field.Many? then
      CompactAllPresent(field.exceptions);
      Compact(WrapAndFlatten(field))
    else Compact(WrapAndFlatten(field))
  }

  datatype Exception = Exception(
    date: Option<Date>,
    exceptionType: Option<string>,
    differenceToLimit: Hours,
    duration: Hours,
    inPunchFlag: Option<string>)

  /** The exceptions of one span, each dated by the span's `_Date`. */
  function SpanExceptions(span: TotaledSpan): (r: seq<Exception>)
    ensures |r| == |NormalizeExceptions(span.exceptions)|
    ensures forall i :: 0 <= i < |r| ==>
              var raw := NormalizeExceptions(span.exceptions)[i];
              r[i].date == ParseDate(Coerced(span.date)) && r[i].exceptionType == raw.exceptionTypeName
              && r[i].inPunchFlag == raw.inPunchFlag
              && r[i].differenceToLimit == ParseTime(Coerced(raw.differenceToLimit))
              && r[i].duration == ParseTime(Coerced(raw.durationOfException))
  {
    Map(NormalizeExceptions(span.exceptions),
        (e: RawException) => Exception(ParseDate(Coerced(span.date)), e.exceptionTypeName,
                                       ParseTime(Coerced(e.differenceToLimit)),
                                       ParseTime(Coerced(e.durationOfException)), e.inPunchFlag))
  }

  /** The text moment reads for an attribute: a missing one is `undefined`, which it turns
      into the string `"undefined"`. */
  function Coerced(attribute: Option<string>): string
  {
    attribute.GetOr("undefined")
  }

  /** A missing date reads as an invalid moment, and a missing duration as NaN hours. */
  lemma MissingIsUnreadable()
    ensures ParseDate(Coerced(None)) == None
    ensures ParseTime(Coerced(None)) == NotANumber
  {
    SplitNoSeparator("undefined", "/");
    SplitNoSeparator("undefined", ":");
  }

  /** `exceptions`: each span's list, the empty ones dropped, flattened in span order. */
  function ExtractExceptions(spans: seq<TotaledSpan>): (r: seq<Exception>)
    ensures r == Flatten(Map(spans, SpanExceptions))
  {
    FlattenNonEmpty(Map(spans, SpanExceptions));
    Flatten(Filter(Map(spans, SpanExceptions), NonEmpty))
  }

  // ---------------------------------------------------------------------------
  // The timesheet
  // ---------------------------------------------------------------------------

  datatype Timesheet = Timesheet(
    startDate: Option<Date>,
    endDate: Option<Date>,
    days: seq<Day>,
    inPunches: seq<Punch>,
    outPunches: seq<Punch>,
    exceptions: seq<Exception>)

  /** Every punch that a span carries has a time-zone text with an offset in it. */
  predicate PunchesReadable(spans: seq<TotaledSpan>) {
    && (forall i :: 0 <= i < |spans| && spans[i].inPunch.Some? ==> PunchOf(spans[i].inPunch.value).Success?)
    && (forall i :: 0 <= i < |spans| && spans[i].outPunch.Some? ==> PunchOf(spans[i].outPunch.value).Success?)
  }

  /** `parseTimesheet`. The object literal is built field by field, so a failing in-punch
      is reported before a failing out-punch. */
  function ParseTimesheet(response: Response): (r: Result<Timesheet, ParseError>)
    ensures r.Success? <==> PunchesReadable(response.totaledSpans)
    ensures r.Success? ==> forall i :: 0 <= i < |r.value.days| ==>
              InPeriod(r.value.startDate, r.value.endDate, r.value.days[i].date)
  {
    var (startDate, endDate) := PeriodBounds(response.periodDateSpan);
    var spans := response.totaledSpans;
    ReadableSides(spans);
    var inPunches :- ExtractPunches(spans, InPunchOf);
    var outPunches :- ExtractPunches(spans, OutPunchOf);
    Success(Timesheet(
      startDate,
      endDate,
      ParseDays(response.dateTotals, startDate, endDate),
      inPunches,
      outPunches,
      ExtractExceptions(spans)))
  }

  /** One side's punches extract exactly when every punch on that side is readable. */
  lemma SideReadable(spans: seq<TotaledSpan>, side: TotaledSpan -> Option<RawPunch>)
    ensures ExtractPunches(spans, side).Success?
            <==> forall i :: 0 <= i < |spans| && side(spans[i]).Some? ==> PunchOf(side(spans[i]).value).Success?
  {
    var opts := Map(spans, side);
    var raws := Compact(opts);
    if ExtractPunches(spans, side).Success? {
      forall i | 0 <= i < |spans| && side(spans[i]).Some?
        ensures PunchOf(side(spans[i]).value).Success?
      {
        assert opts[i] == side(spans[i]);
        var j :| 0 <= j < |raws| && raws[j] == opts[i].value;
      }
    } else {
      var j :| 0 <= j < |raws| && !PunchOf(raws[j]).Success?;
      assert Some(raws[j]) in opts;
      var i :| 0 <= i < |opts| && opts[i] == Some(raws[j]);
      assert side(spans[i]) == Some(raws[j]);
    }
  }

  /** The spans' punches are readable exactly when both sides extract. */
  lemma ReadableSides(spans: seq<TotaledSpan>)
    ensures PunchesReadable(spans)
            <==> ExtractPunches(spans, InPunchOf).Success? && ExtractPunches(spans, OutPunchOf).Success?
  {
    SideReadable(spans, InPunchOf);
    SideReadable(spans, OutPunchOf);
  }

  /** A span's punch on either side is among the records that `compact` keeps, and every
      kept record is some span's punch. */
  lemma CompactSides(spans: seq<TotaledSpan>)
    ensures forall i :: 0 <= i < |spans| && spans[i].inPunch.Some? ==>
              spans[i].inPunch.value in Compact(Map(spans, InPunchOf))
    ensures forall i :: 0 <= i < |spans| && spans[i].outPunch.Some? ==>
              spans[i].outPunch.value in Compact(Map(spans, OutPunchOf))
    ensures forall p :: p in Compact(Map(spans, InPunchOf)) ==>
              exists i :: 0 <= i < |spans| && spans[i].inPunch == Some(p)
    ensures forall p :: p in Compact(Map(spans, OutPunchOf)) ==>
              exists i :: 0 <= i < |spans| && spans[i].outPunch == Some(p)
  {
    var ins, outs := Map(spans, InPunchOf), Map(spans, OutPunchOf);
    assert forall i :: 0 <= i < |spans| ==> ins[i] == spans[i].inPunch && outs[i] == spans[i].outPunch;
  }

  // ---------------------------------------------------------------------------
  // Login and logout
  // ---------------------------------------------------------------------------

  datatype LoginStatus = LoginStatus(status: Option<string>, username: Option<string>, errorCode: string)
  datatype LogoutStatus = LogoutStatus(status: Option<string>, errorCode: string)

  /** `kronosResponse._ErrorCode || ""`. */
  function ErrorCodeOf(response: Response): (code: string)
    ensures response.errorCode.Some? ==> code == response.errorCode.value
    ensures response.errorCode.None? ==> code == ""
  {
    response.errorCode.GetOr("")
  }

  /** `parseLogin`. */
  function ParseLogin(response: Response): (r: LoginStatus)
    ensures r.status == response.status && r.username == response.username
    ensures r.errorCode == ErrorCodeOf(response)
  {
    LoginStatus(response.status, response.username, ErrorCodeOf(response))
  }

  /** `parseLogout`: the same projection without the user name. */
  function ParseLogout(response: Response): (r: LogoutStatus)
    ensures r.status == response.status && r.errorCode == ErrorCodeOf(response)
  {
    LogoutStatus(response.status, ErrorCodeOf(response))
  }
}

/** What `parseTimesheet` and its helpers promise, stated over all inputs. */
module ParsersProperties {
  import opened Wrappers
  import opened Seqs
  import opened Calendar
  import opened Payload
  import opened Parsers

  /** A well-formed period `"M/DD/YYYY - M/DD/YYYY"` yields both of its dates. */
  lemma PeriodOfWellFormed(a: Date, b: Date)
    requires ValidDate(a) && ValidDate(b)
    ensures PeriodBounds(Some(FormatDate(a) + " - " + FormatDate(b))) == (Some(a), Some(b))
  {
    FormatDateHasNoSpace(a);
    FormatDateHasNoSpace(b);
    SplitAtFirst(FormatDate(a), " - ", FormatDate(b));
    SplitNoSeparator(FormatDate(b), " - ");
    ParseFormatDate(a);
    ParseFormatDate(b);
  }

  /** Without `_PeriodDateSpan` there are no bounds, and no day passes the filter. */
  lemma NoPeriodNoDays(response: Response)
    requires response.periodDateSpan.None?
    requires ParseTimesheet(response).Success?
    ensures ParseTimesheet(response).value.startDate.None?
    ensures ParseTimesheet(response).value.endDate.None?
    ensures ParseTimesheet(response).value.days == []
  {
    var parts := Split("", " - ");
    assert parts == [""];
    var raws := Map(response.dateTotals, ParseDay);
    FilterNone(raws, (d: Day) => InPeriod(None, None, d.date));
  }

  /** The period filter is calendar order: a day passes exactly when it falls on or
      between the two bounds. */
  lemma InPeriodIsCalendarOrder(startDate: Date, endDate: Date, date: Date)
    requires ValidDate(startDate) && ValidDate(endDate) && ValidDate(date)
    ensures InPeriod(Some(startDate), Some(endDate), Some(date))
            <==> OnOrBefore(startDate, date) && OnOrBefore(date, endDate)
  {
    DayNumberOrder(startDate, date);
    DayNumberOrder(date, endDate);
  }

  /** Each day inside the period is kept as often as a record parses to it, and no other
      day is kept. */
  lemma ParseDaysCounts(raws: seq<DateTotals>, startDate: Option<Date>, endDate: Option<Date>)
    ensures forall d :: multiset(ParseDays(raws, startDate, endDate))[d]
                        == if InPeriod(startDate, endDate, d.date) then multiset(Map(raws, ParseDay))[d] else 0
  {
    FilterCounts(Map(raws, ParseDay), (d: Day) => InPeriod(startDate, endDate, d.date));
  }

  /** Appending a `DateTotals` record appends its day exactly when it is inside the
      period: kept days keep their source order and nothing else is added. */
  lemma ParseDaysAppend(raws: seq<DateTotals>, raw: DateTotals, startDate: Option<Date>, endDate: Option<Date>)
    ensures ParseDays(raws + [raw], startDate, endDate)
            == ParseDays(raws, startDate, endDate)
               + (if InPeriod(startDate, endDate, ParseDay(raw).date) then [ParseDay(raw)] else [])
  {
    var p := (d: Day) => InPeriod(startDate, endDate, d.date);
    MapConcat(raws, [raw], ParseDay);
    FilterConcat(Map(raws, ParseDay), Map([raw], ParseDay), p);
    assert Map([raw], ParseDay) == [ParseDay(raw)];
  }

  /** Worked values of `parseTime`: 8.25, 8.5, 1.12 and 0 hours. */
  lemma ParseTimeEightFifteen()
    ensures ParseTime("8:15") == Hundredths(825)
  {
    var h, m := "8", "15";
    assert h[0] == '8' && m[0] == '1' && m[1] == '5';
    ParseTimeOf(h, m, 8, 15, 825);
    assert h + ":" + m == "8:15";
  }

  lemma ParseTimeEightThirty()
    ensures ParseTime("8:30") == Hundredths(850)
  {
    var h, m := "8", "30";
    assert h[0] == '8' && m[0] == '3' && m[1] == '0';
    ParseTimeOf(h, m, 8, 30, 850);
    assert h + ":" + m == "8:30";
  }

  lemma ParseTimeOneOhSeven()
    ensures ParseTime("1:07") == Hundredths(112)
  {
    var h, m := "1", "07";
    assert h[0] == '1' && m[0] == '0' && m[1] == '7';
    ParseTimeOf(h, m, 1, 7, 112);
    assert h + ":" + m == "1:07";
  }

  /** A moment built from a formatted date, a clock text and a formatted offset is that
      local date and time at that offset: the instant is the local date and time shifted
      back by the offset. */
  lemma MomentOfFormatted(d: Date, h: string, m: string, offset: int)
    requires ValidDate(d)
    requires 1 <= |h| <= 2 && |m| == 2 && AllDigits(h) && AllDigits(m)
    requires DigitsValue(h) <= 23 && DigitsValue(m) <= 59
    requires -6000 < offset < 6000
    ensures BuildMoment(FormatDate(d), h + ":" + m, FormatOffset(offset))
            == At(d, 60 * DigitsValue(h) + DigitsValue(m), offset)
    ensures Instant(BuildMoment(FormatDate(d), h + ":" + m, FormatOffset(offset)))
            == DayNumber(d) * 1440 + 60 * DigitsValue(h) + DigitsValue(m) - offset
  {
    ParseFormatDate(d);
    ClockOf(h, m);
    ParseFormatOffset(offset);
  }

  /** A missing or empty grand total counts as `"0:00"`, and a missing breakdown as no
      breakdown. */
  lemma DayDefaults(raw: DateTotals)
    ensures raw.grandTotal.None? || raw.grandTotal == Some("") ==> ParseDay(raw).total == Hundredths(0)
    ensures raw.totals.None? ==> ParseDay(raw).totals == []
  {
    ParseTimeZero();
  }

  /** Appending a span appends exactly its punch on the chosen side, if it has one. */
  lemma ExtractPunchesAppend(spans: seq<TotaledSpan>, span: TotaledSpan, side: TotaledSpan -> Option<RawPunch>)
    ensures ExtractPunches(spans + [span], side).Success?
            <==> ExtractPunches(spans, side).Success?
                 && (side(span).Some? ==> PunchOf(side(span).value).Success?)
    ensures ExtractPunches(spans + [span], side).Success? ==>
              ExtractPunches(spans + [span], side).value
              == ExtractPunches(spans, side).value
                 + (if side(span).Some? then [PunchOf(side(span).value).value] else [])
  {
    var raws := Compact(Map(spans, side));
    MapConcat(spans, [span], side);
    assert Map(spans + [span], side) == Map(spans, side) + [side(span)];
    CompactSnoc(Map(spans, side), side(span));
    if side(span).Some? {
      BuildPunchesSnoc(raws, side(span).value);
    } else {
      assert raws + [] == raws;
    }
  }

  /** Reading one more punch record appends its punch, or fails when it cannot be read. */
  lemma BuildPunchesSnoc(raws: seq<RawPunch>, raw: RawPunch)
    ensures BuildPunches(raws + [raw]).Success? <==> BuildPunches(raws).Success? && PunchOf(raw).Success?
    ensures BuildPunches(raws + [raw]).Success? ==>
              BuildPunches(raws + [raw]).value == BuildPunches(raws).value + [PunchOf(raw).value]
  {
    var all := raws + [raw];
    assert forall i :: 0 <= i < |raws| ==> all[i] == raws[i];
    assert all[|raws|] == raw;
    if BuildPunches(all).Success? {
      var r := BuildPunches(all).value;
      var before := BuildPunches(raws).value;
      assert |r| == |before + [PunchOf(raw).value]|;
      forall i | 0 <= i < |r|
        ensures r[i] == (before + [PunchOf(raw).value])[i]
      {
      }
    }
  }

  /** With no spans there are no punches. */
  lemma NoSpansNoPunches(side: TotaledSpan -> Option<RawPunch>)
    ensures ExtractPunches([], side) == Success([])
  {
    assert Map([], side) == [];
  }

  /** Appending a span appends exactly its own exceptions: the output is the span-by-span
      concatenation, in span order. */
  lemma ExtractExceptionsAppend(spans: seq<TotaledSpan>, span: TotaledSpan)
    ensures ExtractExceptions(spans + [span]) == ExtractExceptions(spans) + SpanExceptions(span)
  {
    ConcatMapSnoc(spans, span, SpanExceptions);
  }

  /** The offset is the first `±HH:MM` in the time-zone text. */
  lemma MatchOffsetExample()
    ensures MatchOffset("(GMT -05:00) Eastern Time") == Some("-05:00")
  {
    var s := "(GMT -05:00) Eastern Time";
    assert forall j :: 0 <= j < 5 ==> s[j] != '+' && s[j] != '-';
    assert s[5..11] == "-05:00";
    MatchOffsetAt(s, 5);
  }

  /** Login and logout read the status and the error code alike. */
  lemma LoginLogoutAgree(response: Response)
    ensures ParseLogin(response).status == ParseLogout(response).status
    ensures ParseLogin(response).errorCode == ParseLogout(response).errorCode
    ensures response.errorCode.None? ==> ParseLogout(response).errorCode == ""
  {
  }
}
