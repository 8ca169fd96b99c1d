/** Calendar dates, clock times, UTC offsets and the zoned instants that moment.js builds
    from the formats `M/DD/YYYY`, `HH:mm` and `Z` (`±HH:MM`). */
module Calendar {
  import opened Wrappers
  import opened Seqs

  // ---------------------------------------------------------------------------
  // Dates and their day numbers
  // ---------------------------------------------------------------------------

  /** A proleptic Gregorian calendar date. */
  datatype Date = Date(year: int, month: int, day: int)

  predicate IsLeapYear(y: int) {
    y % 4 == 0 && (y % 100 != 0 || y % 400 == 0)
  }

  function YearLength(y: int): int {
    if IsLeapYear(y) then 366 else 365
  }

  function DaysInMonth(y: int, m: int): int
    requires 1 <= m <= 12
  {
    if m == 2 then (if IsLeapYear(y) then 29 else 28)
    else if m == 4 || m == 6 || m == 9 || m == 11 then 30
    else 31
  }

  /** The dates that `YYYY` can write: years 0 to 9999. */
  predicate ValidDate(d: Date) {
    0 <= d.year <= 9999 && 1 <= d.month <= 12 && 1 <= d.day <= DaysInMonth(d.year, d.month)
  }

  /** Days from 0000-01-01 to the first day of year `y`. */
  function DaysBeforeYear(y: nat): int {
    365 * y + (y + 3) / 4 - (y + 99) / 100 + (y + 399) / 400
  }

  /** Days from the first of January to the first day of month `m` of year `y`. */
  function DaysBeforeMonth(y: int, m: int): int
    requires 1 <= m <= 12
  {
    var leap := if IsLeapYear(y) then 1 else 0;
    if m == 1 then 0
    else if m == 2 then 31
    else [59, 90, 120, 151, 181, 212, 243, 273, 304, 334][m - 3] + leap
  }

  /** Days from 0000-01-01 to `d`: what a moment at local midnight of `d` compares by. */
  function DayNumber(d: Date): int
    requires ValidDate(d)
  {
    DaysBeforeYear(d.year) + DaysBeforeMonth(d.year, d.month) + d.day - 1
  }

  /** Calendar order: year, then month, then day. */
  predicate OnOrBefore(a: Date, b: Date) {
    a.year < b.year
    || (a.year == b.year && (a.month < b.month || (a.month == b.month && a.day <= b.day)))
  }

  lemma DaysBeforeYearStep(y: nat)
    ensures DaysBeforeYear(y + 1) == DaysBeforeYear(y) + YearLength(y)
  {
    CountStep4(y);
    CountStep100(y);
    CountStep400(y);
    DivisorsOfCenturies(y);
  }

  /** A multiple of 400 is a multiple of 100, and a multiple of 100 one of 4. */
  lemma DivisorsOfCenturies(y: nat)
    ensures y % 400 == 0 ==> y % 100 == 0
    ensures y % 100 == 0 ==> y % 4 == 0
  {
    if y % 400 == 0 {
      var q := y / 400;
      assert y == 100 * (4 * q);
    }
    if y % 100 == 0 {
      var q := y / 100;
      assert y == 4 * (25 * q);
    }
  }

  /** How the number of multiples of 4, 100 and 400 below `y` grows from `y` to `y + 1`. */
  lemma CountStep4(y: nat)
    ensures (y + 4) / 4 == (y + 3) / 4 + (if y % 4 == 0 then 1 else 0)
  {
    var q, r := y / 4, y % 4;
    assert y == 4 * q + r;
    assert (y + 4) / 4 == q + 1;
  }

  lemma CountStep100(y: nat)
    ensures (y + 100) / 100 == (y + 99) / 100 + (if y % 100 == 0 then 1 else 0)
  {
    var q, r := y / 100, y % 100;
    assert y == 100 * q + r;
    assert (y + 100) / 100 == q + 1;
  }

  lemma CountStep400(y: nat)
    ensures (y + 400) / 400 == (y + 399) / 400 + (if y % 400 == 0 then 1 else 0)
  {
    var q, r := y / 400, y % 400;
    assert y == 400 * q + r;
    assert (y + 400) / 400 == q + 1;
  }

  lemma {:induction false} DaysBeforeYearGrows(a: nat, b: nat)
    requires a < b
    ensures DaysBeforeYear(a) + YearLength(a) <= DaysBeforeYear(b)
    decreases b - a
  {
    DaysBeforeYearStep(a);
    if a + 1 < b {
      DaysBeforeYearGrows(a + 1, b);
    }
  }

  /** A date's day number lies inside its own year. */
  lemma DayNumberInYear(d: Date)
    requires ValidDate(d)
    ensures DaysBeforeYear(d.year) <= DayNumber(d) < DaysBeforeYear(d.year) + YearLength(d.year)
  {
  }

  /** Day numbers follow calendar order, so comparing two midnights compares their dates. */
  lemma DayNumberOrder(a: Date, b: Date)
    requires ValidDate(a) && ValidDate(b)
    ensures OnOrBefore(a, b) <==> DayNumber(a) <= DayNumber(b)
    ensures DayNumber(a) == DayNumber(b) <==> a == b
  {
    DayNumberInYear(a);
    DayNumberInYear(b);
    if a.year < b.year {
      DaysBeforeYearGrows(a.year, b.year);
    } else if b.year < a.year {
      DaysBeforeYearGrows(b.year, a.year);
    }
  }

  // ---------------------------------------------------------------------------
  // Digits and splitting
  // ---------------------------------------------------------------------------

  predicate IsDigit(c: char) {
    '0' <= c <= '9'
  }

  predicate AllDigits(s: string) {
    forall i :: 0 <= i < |s| ==> IsDigit(s[i])
  }

  function DigitValue(c: char): nat
    requires IsDigit(c)
  {
    c as int - '0' as int
  }

  function DigitChar(n: nat): (c: char)
    requires n < 10
    ensures IsDigit(c) && DigitValue(c) == n
  {
    ('0' as int + n) as char
  }

  /** The number a string of decimal digits denotes. */
  function DigitsValue(s: string): nat
    requires AllDigits(s)
  {
    if s == [] then 0 else 10 * DigitsValue(s[..|s| - 1]) + DigitValue(s[|s| - 1])
  }

  predicate OccursAt(s: string, sep: string, i: nat) {
    i + |sep| <= |s| && s[i..i + |sep|] == sep
  }

  /** `String.prototype.split` with a non-empty separator. */
  function Split(s: string, sep: string): (parts: seq<string>)
    requires |sep| > 0
    ensures |parts| >= 1
    decreases |s|
  {
    var found := FirstIndex(|s|, (i: nat) => OccursAt(s, sep, i), 0);
    if found.None? then [s]
    else [s[..found.value]] + Split(s[found.value + |sep|..], sep)
  }

  /** `Array.prototype.join`. */
  function Join(parts: seq<string>, sep: string): string
    requires |parts| >= 1
  {
    if |parts| == 1 then parts[0] else parts[0] + sep + Join(parts[1..], sep)
  }

  /** Splitting loses nothing: joining the parts back gives the original text. */
  lemma {:induction false} JoinSplit(s: string, sep: string)
    requires |sep| > 0
    ensures Join(Split(s, sep), sep) == s
    decreases |s|
  {
    var found := FirstIndex(|s|, (i: nat) => OccursAt(s, sep, i), 0);
    if found.Some? {
      var i := found.value;
      assert OccursAt(s, sep, i);
      var rest := s[i + |sep|..];
      JoinSplit(rest, sep);
      assert s == s[..i] + sep + rest;
    }
  }

  /** A separator occurring anywhere cuts the text into at least two parts. */
  lemma SplitCuts(s: string, sep: string, k: nat)
    requires |sep| > 0 && OccursAt(s, sep, k)
    ensures |Split(s, sep)| >= 2
  {
    var p := (i: nat) => OccursAt(s, sep, i);
    assert p(k);
    var found := FirstIndex(|s|, p, 0);
    assert found.Some?;
  }

  /** The text comes back whole exactly when the separator occurs nowhere in it. */
  lemma SplitWhole(s: string, sep: string)
    requires |sep| > 0
    ensures Split(s, sep) == [s] <==> forall i :: 0 <= i < |s| ==> !OccursAt(s, sep, i)
  {
    if k :| 0 <= k < |s| && OccursAt(s, sep, k) {
      SplitCuts(s, sep, k);
    } else {
      var p := (i: nat) => OccursAt(s, sep, i);
      assert forall i :: 0 <= i < |s| ==> !p(i);
      assert FirstIndex(|s|, p, 0).None?;
    }
  }

  /** A piece that does not contain the separator's first character comes back whole. */
  lemma SplitNoSeparator(x: string, sep: string)
    requires |sep| > 0 && sep[0] !in x
    ensures Split(x, sep) == [x]
  {
    var p := (i: nat) => OccursAt(x, sep, i);
    forall j | 0 <= j < |x|
      ensures !p(j)
    {
      if j + |sep| <= |x| {
        assert x[j..j + |sep|][0] == x[j];
      }
    }
  }

  /** Splitting cuts at the first occurrence of the separator. */
  lemma SplitAtFirst(x: string, sep: string, y: string)
    requires |sep| > 0 && sep[0] !in x
    ensures Split(x + sep + y, sep) == [x] + Split(y, sep)
  {
    var s := x + sep + y;
    var p := (i: nat) => OccursAt(s, sep, i);
    assert s[|x|..|x| + |sep|] == sep;
    assert p(|x|);
    forall j | 0 <= j < |x|
      ensures !p(j)
    {
      if j + |sep| <= |s| {
        assert s[j..j + |sep|][0] == x[j];
      }
    }
    var r := FirstIndex(|s|, p, 0);
    assert r == Some(|x|);
    assert s[..|x|] == x;
    assert s[|x| + |sep|..] == y;
  }

  // ---------------------------------------------------------------------------
  // Date text: `M/DD/YYYY`
  // ---------------------------------------------------------------------------

  /** Reads `M/DD/YYYY`: a month of one or two digits, a day of one or two digits and a
      four-digit year, separated by `/`. `None` stands for moment's invalid date. */
  function ParseDate(s: string): (r: Option<Date>)
    ensures r.Some? ==> ValidDate(r.value)
  {
    var parts := Split(s, "/");
    if |parts| == 3 && 1 <= |parts[0]| <= 2 && 1 <= |parts[1]| <= 2 && |parts[2]| == 4
       && AllDigits(parts[0]) && AllDigits(parts[1]) && AllDigits(parts[2])
    then
      var d := Date(DigitsValue(parts[2]), DigitsValue(parts[0]), DigitsValue(parts[1]));
      if ValidDate(d) then Some(d) else None
    else None
  }

  function MonthText(m: nat): (s: string)
    requires 1 <= m <= 12
  {
    if m < 10 then [DigitChar(m)] else [DigitChar(m / 10), DigitChar(m % 10)]
  }

  function TwoDigits(n: nat): (s: string)
    requires n < 100
  {
    [DigitChar(n / 10), DigitChar(n % 10)]
  }

  function FourDigits(n: nat): (s: string)
    requires n < 10000
  {
    [DigitChar(n / 10 / 10 / 10), DigitChar(n / 10 / 10 % 10), DigitChar(n / 10 % 10), DigitChar(n % 10)]
  }

  /** moment's `format("M/DD/YYYY")`. */
  function FormatDate(d: Date): (s: string)
    requires ValidDate(d)
    ensures Split(s, "/") == [MonthText(d.month), TwoDigits(d.day), FourDigits(d.year)]
  {
    var m, dd, y := MonthText(d.month), TwoDigits(d.day), FourDigits(d.year);
    DigitsOfMonth(d.month);
    DigitsOfTwo(d.day);
    DigitsOfFour(d.year);
    SplitThree(m, dd, y, '/');
    assert m + "/" + dd + "/" + y == m + ['/'] + dd + ['/'] + y;
    m + "/" + dd + "/" + y
  }

  lemma DigitsOfMonth(m: nat)
    requires 1 <= m <= 12
    ensures var s := MonthText(m); 1 <= |s| <= 2 && AllDigits(s) && DigitsValue(s) == m && '/' !in s
  {
    var s := MonthText(m);
    if m >= 10 {
      assert s[..1] == [s[0]];
      assert s[..1][..0] == [];
      assert DigitsValue(s[..1]) == m / 10;
    } else {
      assert s[..0] == [];
    }
    NoSlashInDigits(s);
  }

  lemma DigitsOfTwo(n: nat)
    requires n < 100
    ensures var s := TwoDigits(n); AllDigits(s) && DigitsValue(s) == n && '/' !in s
  {
    var s := TwoDigits(n);
    assert s[..1] == [s[0]];
    assert s[..1][..0] == [];
    assert DigitsValue(s[..1]) == n / 10;
    NoSlashInDigits(s);
  }

  lemma DigitsOfFour(n: nat)
    requires n < 10000
    ensures var s := FourDigits(n); AllDigits(s) && DigitsValue(s) == n && '/' !in s
  {
    var s := FourDigits(n);
    var n1, n2 := n / 10, n / 10 / 10;
    assert s[..3][..2] == s[..2];
    assert s[..2][..1] == [s[0]];
    assert s[..1][..0] == [];
    assert DigitsValue(s[..1]) == n2 / 10;
    assert DigitsValue(s[..2]) == 10 * (n2 / 10) + n2 % 10 == n2;
    assert DigitsValue(s[..3]) == 10 * (n1 / 10) + n1 % 10 == n1;
    assert DigitsValue(s) == 10 * (n / 10) + n % 10 == n;
    NoSlashInDigits(s);
  }

  lemma NoSlashInDigits(s: string)
    requires AllDigits(s)
    ensures '/' !in s
  {
  }

  /** A formatted date holds digits and slashes only. */
  lemma FormatDateHasNoSpace(d: Date)
    requires ValidDate(d)
    ensures ' ' !in FormatDate(d)
  {
    var s := FormatDate(d);
    forall i | 0 <= i < |s|
      ensures s[i] != ' '
    {
      assert IsDigit(s[i]) || s[i] == '/';
    }
  }

  /** Three pieces without the separator, joined by it, split back into those pieces. */
  lemma SplitThree(a: string, b: string, c: string, sep: char)
    requires sep !in a && sep !in b && sep !in c
    ensures Split(a + [sep] + b + [sep] + c, [sep]) == [a, b, c]
  {
    var tail := b + [sep] + c;
    assert a + [sep] + b + [sep] + c == a + [sep] + tail;
    SplitNoSeparator(c, [sep]);
    SplitAtFirst(b, [sep], c);
    assert Split(tail, [sep]) == [b, c];
    SplitAtFirst(a, [sep], tail);
  }

  /** Reading back a formatted date gives the same date. */
  lemma ParseFormatDate(d: Date)
    requires ValidDate(d)
    ensures ParseDate(FormatDate(d)) == Some(d)
  {
    var m, dd, y := MonthText(d.month), TwoDigits(d.day), FourDigits(d.year);
    DigitsOfMonth(d.month);
    DigitsOfTwo(d.day);
    DigitsOfFour(d.year);
    SplitThree(m, dd, y, '/');
    assert FormatDate(d) == m + ['/'] + dd + ['/'] + y;
  }

  // ---------------------------------------------------------------------------
  // Clock text: `HH:mm`
  // ---------------------------------------------------------------------------

  datatype Clock = Clock(hour: nat, minute: nat)

  /** Reads `H:MM` or `HH:MM` with an hour up to 23 and a minute up to 59.
      `None` stands for moment's invalid date. */
  function ParseClock(s: string): (r: Option<Clock>)
    ensures r.Some? ==> r.value.hour <= 23 && r.value.minute <= 59
  {
    var parts := Split(s, ":");
    if |parts| == 2 && 1 <= |parts[0]| <= 2 && |parts[1]| == 2
       && AllDigits(parts[0]) && AllDigits(parts[1])
       && DigitsValue(parts[0]) <= 23 && DigitsValue(parts[1]) <= 59
    then Some(Clock(DigitsValue(parts[0]), DigitsValue(parts[1])))
    else None
  }

  // ---------------------------------------------------------------------------
  // UTC offsets: the pattern `[+-]\d\d:\d\d`
  // ---------------------------------------------------------------------------

  /** The regular expression `[+-]\d\d:\d\d` matches at position `i` of `s`. */
  predicate OffsetAt(s: string, i: nat) {
    i + 6 <= |s| && (s[i] == '+' || s[i] == '-') && IsDigit(s[i + 1]) && IsDigit(s[i + 2])
    && s[i + 3] == ':' && IsDigit(s[i + 4]) && IsDigit(s[i + 5])
  }

  /** `s.match(/[+-]\d\d:\d\d/)`: the leftmost match, or `None` (JavaScript's `null`). */
  function MatchOffset(s: string): (r: Option<string>)
    ensures r.None? <==> forall i :: 0 <= i < |s| ==> !OffsetAt(s, i)
    ensures r.Some? ==> exists i :: 0 <= i < |s| && OffsetAt(s, i) && r.value == s[i..i + 6]
                                    && forall j :: 0 <= j < i ==> !OffsetAt(s, j)
  {
    var p := (i: nat) => OffsetAt(s, i);
    var found := FirstIndex(|s|, p, 0);
    assert forall i: nat :: p(i) == OffsetAt(s, i);
    if found.None? then None else Some(s[found.value..found.value + 6])
  }

  /** The match is at the first position where the pattern fits. */
  lemma MatchOffsetAt(s: string, k: nat)
    requires OffsetAt(s, k) && forall j :: 0 <= j < k ==> !OffsetAt(s, j)
    ensures MatchOffset(s) == Some(s[k..k + 6])
  {
    var r := MatchOffset(s);
    var i :| 0 <= i < |s| && OffsetAt(s, i) && r.value == s[i..i + 6]
             && forall j :: 0 <= j < i ==> !OffsetAt(s, j);
    assert i == k;
  }

  /** moment's `Z` token: `±HH:MM` as minutes east of UTC. */
  function ParseOffset(t: string): (r: Option<int>)
    ensures r.Some? <==> |t| == 6 && OffsetAt(t, 0)
    ensures r.Some? && t[0] == '+' ==> r.value == 60 * DigitsValue(t[1..3]) + DigitsValue(t[4..6])
    ensures r.Some? && t[0] == '-' ==> r.value == -(60 * DigitsValue(t[1..3]) + DigitsValue(t[4..6]))
  {
    if |t| == 6 && OffsetAt(t, 0) then
      var magnitude := 60 * DigitsValue(t[1..3]) + DigitsValue(t[4..6]);
      Some(if t[0] == '-' then -magnitude else magnitude)
    else None
  }

  /** moment's `Z` formatting: minutes east of UTC as `±HH:MM`, `+` for zero. */
  function FormatOffset(offset: int): string
    requires -6000 < offset < 6000
  {
    var magnitude := if offset < 0 then -offset else offset;
    [if offset < 0 then '-' else '+'] + TwoDigits(magnitude / 60) + [':'] + TwoDigits(magnitude % 60)
  }

  /** Reading a formatted offset gives the offset back. */
  lemma ParseFormatOffset(offset: int)
    requires -6000 < offset < 6000
    ensures ParseOffset(FormatOffset(offset)) == Some(offset)
  {
    var magnitude := if offset < 0 then -offset else offset;
    var hh, mm := TwoDigits(magnitude / 60), TwoDigits(magnitude % 60);
    var t := FormatOffset(offset);
    DigitsOfTwo(magnitude / 60);
    DigitsOfTwo(magnitude % 60);
    assert t[1..3] == hh && t[4..6] == mm;
    assert OffsetAt(t, 0);
  }

  // ---------------------------------------------------------------------------
  // Zoned moments
  // ---------------------------------------------------------------------------

  /** A moment parsed with the format `M/DD/YYYY HH:mm Z`: the local date, the minute of
      the local day and the offset in minutes east of UTC; or moment's invalid date. */
  datatype Moment = At(date: Date, minute: int, offset: int) | Invalid

  predicate WellFormedMoment(m: Moment) {
    m.At? ==> ValidDate(m.date) && 0 <= m.minute < 1440
  }

  /** Minutes since 0000-01-01T00:00Z: what moment's `valueOf` orders by. */
  function Instant(m: Moment): int
    requires m.At? && WellFormedMoment(m)
  {
    DayNumber(m.date) * 1440 + m.minute - m.offset
  }

  /** ``moment(`${date} ${time} ${offset}`, 'M/DD/YYYY HH:mm Z')``. */
  function BuildMoment(dateText: string, timeText: string, offsetText: string): (m: Moment)
    ensures WellFormedMoment(m)
    ensures m.At? <==> ParseDate(dateText).Some? && ParseClock(timeText).Some?
                       && ParseOffset(offsetText).Some?
    ensures m.At? ==> m.date == ParseDate(dateText).value && m.offset == ParseOffset(offsetText).value
    ensures m.At? ==> m.minute == 60 * ParseClock(timeText).value.hour + ParseClock(timeText).value.minute
  {
    match (ParseDate(dateText), ParseClock(timeText), ParseOffset(offsetText))
    case (Some(d), Some(c), Some(o)) => At(d, 60 * c.hour + c.minute, o)
    case _ => Invalid
  }

  /** Local date and time in lexicographic order. */
  predicate LocalOnOrBefore(a: Moment, b: Moment)
    requires a.At? && b.At?
  {
    (OnOrBefore(a.date, b.date) && a.date != b.date) || (a.date == b.date && a.minute <= b.minute)
  }

  /** Two moments written with the same offset are ordered by their local date and time,
      and are the same instant only when they have the same local date and time. */
  lemma InstantOrder(a: Moment, b: Moment)
    requires a.At? && b.At? && WellFormedMoment(a) && WellFormedMoment(b) && a.offset == b.offset
    ensures Instant(a) <= Instant(b) <==> LocalOnOrBefore(a, b)
    ensures Instant(a) == Instant(b) <==> a == b
  {
    DayNumberOrder(a.date, b.date);
    var da, db := DayNumber(a.date), DayNumber(b.date);
    if da < db {
      assert da * 1440 + 1440 <= db * 1440;
    } else if db < da {
      assert db * 1440 + 1440 <= da * 1440;
    }
  }
}
