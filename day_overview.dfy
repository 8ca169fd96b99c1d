/** `DayOverview.js`: the older day view. Its time-zone handling has a fallback offset that
    the parsers do not have, and it writes onto the raw punch records it is given. */
module DayOverview {
  import opened Wrappers
  import opened Seqs
  import opened Calendar
  import opened Payload

  // ---------------------------------------------------------------------------
  // kronosMoment
  // ---------------------------------------------------------------------------

  /** The offset used when the time-zone text is missing or empty. */
  const FallbackOffset: string := "-07:00"

  /** Why the day view throws: a non-empty time-zone text with no offset in it (`[0]` of
      `null` in `kronosMoment`), or a span of the day without an in- or out-punch record
      (a `TypeError` on reading `Punch` or writing `type`). */
  datatype RenderError = OffsetNotFound | PunchMissing

  /** The offset text `kronosMoment` uses: the fallback for a falsy time zone, otherwise the
      first `±HH:MM` in it, or `None` when that lookup throws. */
  function ZoneOffset(kronosTimeZone: Option<string>): (r: Option<string>)
    ensures kronosTimeZone.None? || kronosTimeZone == Some("") ==> r == Some(FallbackOffset)
    ensures kronosTimeZone.Some? && kronosTimeZone.value != "" ==> r == MatchOffset(kronosTimeZone.value)
  {
    if kronosTimeZone.None? || kronosTimeZone.value == "" then Some(FallbackOffset)
    else MatchOffset(kronosTimeZone.value)
  }

  /** `kronosMoment(date, time, kronosTimeZone)`. */
  function KronosMoment(date: string, time: string, kronosTimeZone: Option<string>): (r: Result<Moment, RenderError>)
    ensures r.Failure? <==> ZoneOffset(kronosTimeZone).None?
    ensures r.Failure? ==> r.error == OffsetNotFound
    ensures r.Success? ==> r.value == BuildMoment(date, time, ZoneOffset(kronosTimeZone).value)
  {
    match ZoneOffset(kronosTimeZone)
    case None => Failure(OffsetNotFound)
    case Some(offset) => Success(BuildMoment(date, time, offset))
  }

  /** The fallback is `-07:00` itself: seven hours west of UTC. */
  lemma FallbackIsMinusSeven()
    ensures ParseOffset(FallbackOffset) == Some(-420)
  {
    var t := FallbackOffset;
    assert t[0] == '-' && t[1] == '0' && t[2] == '7' && t[3] == ':' && t[4] == '0' && t[5] == '0';
    assert OffsetAt(t, 0);
    var hours, minutes := t[1..3], t[4..6];
    assert hours == ['0', '7'] && hours[..1] == ['0'] && hours[..1][..0] == [];
    assert DigitsValue(hours[..1]) == 0;
    assert DigitsValue(hours) == 7;
    assert minutes == ['0', '0'] && minutes[..1] == ['0'] && minutes[..1][..0] == [];
    assert DigitsValue(minutes[..1]) == 0;
    assert DigitsValue(minutes) == 0;
  }

  // ---------------------------------------------------------------------------
  // The punch entries of the selected day
  // ---------------------------------------------------------------------------

  /** A raw `Punch` record of the day view's data. `type` and `time` are written onto it
      while the day's log is built; the fields read from the payload never change. */
  class PunchRecord {
    const dateText: string
    const timeText: string
    const kronosTimeZone: Option<string>
    var entryType: Option<string>
    var time: Option<Moment>

    constructor (dateText: string, timeText: string, kronosTimeZone: Option<string>)
      ensures this.dateText == dateText && this.timeText == timeText
      ensures this.kronosTimeZone == kronosTimeZone
      ensures entryType.None? && time.None?
    {
      this.dateText := dateText;
      this.timeText := timeText;
      this.kronosTimeZone := kronosTimeZone;
      entryType := None;
      time := None;
    }
  }

  /** A `TotaledSpan` of the day view: its `Date` and its punch records. Either record may
      be missing, as for a shift still open. */
  datatype DaySpan = DaySpan(date: string, inPunch: Option<PunchRecord>, outPunch: Option<PunchRecord>)

  /** One line of the day's log: what happened and when. */
  datatype LogEntry = LogEntry(entryType: string, time: Moment)

  /** The spans of the selected day: `each.Date == format("M/DD/YYYY")`. */
  predicate OnSelectedDay(span: DaySpan, dayText: string) {
    span.date == dayText
  }

  /** The filter step of the punch chain. */
  function MatchingSpans(spans: seq<DaySpan>, dayText: string): seq<DaySpan> {
    Filter(spans, (s: DaySpan) => OnSelectedDay(s, dayText))
  }

  /** A record's moment can be built from its own date, time and time zone: the time zone
      yields an offset. */
  predicate RecordReadable(r: PunchRecord) {
    ZoneOffset(r.kronosTimeZone).Some?
  }

  function RecordMoment(r: PunchRecord): Moment
    requires RecordReadable(r)
  {
    KronosMoment(r.dateText, r.timeText, r.kronosTimeZone).value
  }

  /** Both punch records are there and both their moments can be built. */
  predicate SpanReadable(span: DaySpan) {
    span.inPunch.Some? && span.outPunch.Some?
    && RecordReadable(span.inPunch.value) && RecordReadable(span.outPunch.value)
  }

  predicate AllReadable(matching: seq<DaySpan>) {
    forall k :: 0 <= k < |matching| ==> SpanReadable(matching[k])
  }

  function InMoment(span: DaySpan): Moment
    requires SpanReadable(span)
  {
    RecordMoment(span.inPunch.value)
  }

  function OutMoment(span: DaySpan): Moment
    requires SpanReadable(span)
  {
    RecordMoment(span.outPunch.value)
  }

  /** The records a span has, in-punch first. */
  function RecordsOf(span: DaySpan): seq<PunchRecord> {
    (if span.inPunch.Some? then [span.inPunch.value] else [])
    + (if span.outPunch.Some? then [span.outPunch.value] else [])
  }

  /** The same records as a set: what stamping the span may write. */
  function Footprint(span: DaySpan): set<PunchRecord> {
    (if span.inPunch.Some? then {span.inPunch.value} else {})
    + (if span.outPunch.Some? then {span.outPunch.value} else {})
  }

  /** The map and flatten steps of the punch chain on the records: in-punch then
      out-punch for each span of the day. */
  function SpanRecords(matching: seq<DaySpan>): seq<PunchRecord> {
    Flatten(Map(matching, RecordsOf))
  }

  /** The time zone of a span's out-punch record. A span of the day without one never gets
      this far: the map throws first. */
  function OutZone(span: DaySpan): Option<string> {
    if span.outPunch.Some? then span.outPunch.value.kronosTimeZone else None
  }

  /** `lastKronosTimeZone` after the map: the out-punch time zone of the last span of the
      day, or the initial `""` when the day has no span. */
  function LastOutZone(matching: seq<DaySpan>): Option<string> {
    if matching == [] then Some("") else OutZone(matching[|matching| - 1])
  }

  /** The records in `spans`. */
  function PunchObjects(spans: seq<DaySpan>): set<PunchRecord> {
    set i, r | 0 <= i < |spans| && r in Footprint(spans[i]) :: r
  }

  /** No record is shared: the payload is a tree. */
  predicate Unshared(spans: seq<DaySpan>) {
    && (forall i :: 0 <= i < |spans| && spans[i].inPunch.Some? && spans[i].outPunch.Some? ==>
          spans[i].inPunch.value != spans[i].outPunch.value)
    && (forall i, j :: 0 <= i < |spans| && 0 <= j < |spans| && i != j ==> Footprint(spans[i]) !! Footprint(spans[j]))
  }

  /** The throw a span's stamping ends in, in the order the source reads: the in-punch
      record, its time zone, the out-punch record, its time zone. */
  function SpanError(span: DaySpan): (r: Option<RenderError>)
    ensures r.None? <==> SpanReadable(span)
    ensures (span.inPunch.None? || (RecordReadable(span.inPunch.value) && span.outPunch.None?)) ==> r == Some(PunchMissing)
  {
    if span.inPunch.None? then Some(PunchMissing)
    else if !RecordReadable(span.inPunch.value) then Some(OffsetNotFound)
    else if span.outPunch.None? then Some(PunchMissing)
    else if !RecordReadable(span.outPunch.value) then Some(OffsetNotFound)
    else None
  }

  /** `matching[i]` is the first span of the day that cannot be stamped. */
  predicate FirstUnreadable(matching: seq<DaySpan>, i: int) {
    0 <= i < |matching| && !SpanReadable(matching[i]) && forall k :: 0 <= k < i ==> SpanReadable(matching[k])
  }

  /** The writes stamping `span` makes, in the source's order, up to the first throw:
      `type` then `time` on the in-punch record, then the same on the out-punch record.
      A missing record stops it before anything is written to it; a time zone without an
      offset stops it after `type` is written, so that record's `time` keeps its old value. */
  twostate predicate StampWrites(span: DaySpan)
    reads Footprint(span)
  {
    match span.inPunch
    case None => unchanged(Footprint(span))
    case Some(inRec) =>
      && inRec.entryType == Some("InPunch")
      && (if !RecordReadable(inRec) then
            inRec.time == old(inRec.time) && (span.outPunch.Some? ==> unchanged(span.outPunch.value))
          else
            && inRec.time == Some(RecordMoment(inRec))
            && (span.outPunch.Some? ==>
                  var outRec := span.outPunch.value;
                  outRec.entryType == Some("OutPunch")
                  && outRec.time == (if RecordReadable(outRec) then Some(RecordMoment(outRec)) else old(outRec.time))))
  }

  /** What the map leaves on the records of one span of the day. */
  predicate Stamped(span: DaySpan)
    reads Footprint(span)
  {
    SpanReadable(span)
    && span.inPunch.value.entryType == Some("InPunch") && span.inPunch.value.time == Some(InMoment(span))
    && span.outPunch.value.entryType == Some("OutPunch") && span.outPunch.value.time == Some(OutMoment(span))
  }

  /** The spans before `i` are stamped. */
  predicate StampedBefore(matching: seq<DaySpan>, i: nat)
    reads EarlierObjects(matching, i)
  {
    forall k :: 0 <= k < i && k < |matching| ==> Stamped(matching[k])
  }

  /** The body of the span mapping for one span: `type` and `time` on the in-punch record,
      then on the out-punch record. Reading `Punch` of a missing record, or `[0]` of a time
      zone without an offset, throws; the throw is returned as `error`. */
  method StampSpan(spans: seq<DaySpan>, i: nat) returns (error: Option<RenderError>)
    requires Unshared(spans) && i < |spans|
    modifies Footprint(spans[i])
    ensures error == SpanError(spans[i])
    ensures error.None? ==> Stamped(spans[i])
    ensures StampWrites(spans[i])
    ensures forall k :: 0 <= k < |spans| && k != i ==> unchanged(Footprint(spans[k]))
    ensures forall k :: 0 <= k < |spans| && k != i && old(Stamped(spans[k])) ==> Stamped(spans[k])
  {
    var span := spans[i];
    if span.inPunch.None? {
      return Some(PunchMissing);
    }
    var inPunch := span.inPunch.value;
    inPunch.entryType := Some("InPunch");
    var inTime := KronosMoment(inPunch.dateText, inPunch.timeText, inPunch.kronosTimeZone);
    if inTime.Failure? {
      return Some(inTime.error);
    }
    inPunch.time := Some(inTime.value);
    if span.outPunch.None? {
      return Some(PunchMissing);
    }
    var outPunch := span.outPunch.value;
    outPunch.entryType := Some("OutPunch");
    var outTime := KronosMoment(outPunch.dateText, outPunch.timeText, outPunch.kronosTimeZone);
    if outTime.Failure? {
      return Some(outTime.error);
    }
    outPunch.time := Some(outTime.value);
    return None;
  }

  /** One turn of the map over the spans of the day: stamp span `i`, then extend the emitted
      records and the carried time zone with it. */
  method StampNext(matching: seq<DaySpan>, i: nat, records: seq<PunchRecord>)
    returns (records': seq<PunchRecord>, lastKronosTimeZone: Option<string>, error: Option<RenderError>)
    requires Unshared(matching) && i < |matching|
    requires records == SpanRecords(matching[..i])
    modifies Footprint(matching[i])
    ensures error == SpanError(matching[i])
    ensures old(StampedBefore(matching, i)) && error.None? ==> StampedBefore(matching, i + 1)
    ensures error.None? ==> Stamped(matching[i])
    ensures error.None? ==> records' == SpanRecords(matching[..i + 1])
    ensures error.None? ==> lastKronosTimeZone == LastOutZone(matching[..i + 1])
  {
    var span := matching[i];
    error := StampSpan(matching, i);
    records' := records;
    lastKronosTimeZone := None;
    if error.None? {
      lastKronosTimeZone := span.outPunch.value.kronosTimeZone;
      SpanRecordsAppend(matching[..i], span);
      TakeNext(matching, i);
      records' := records + [span.inPunch.value, span.outPunch.value];
    }
  }

  /** The map step of the punch chain over the spans of the day: for each of them write
      `type` and `time` onto its in-punch and out-punch records, remember the out-punch
      time zone, and emit the two records. It stops at the first span that throws. */
  method StampDay(matching: seq<DaySpan>)
    returns (records: seq<PunchRecord>, lastKronosTimeZone: Option<string>, error: Option<RenderError>, ghost at: nat)
    requires Unshared(matching)
    modifies Reached(matching)
    ensures error.None? <==> AllReadable(matching)
    ensures error.Some? ==> FirstUnreadable(matching, at) && error == SpanError(matching[at])
    ensures error.Some? ==> Reached(matching) !! LaterObjects(matching, at + 1)
    ensures error.None? ==> records == SpanRecords(matching)
    ensures error.None? ==> lastKronosTimeZone == LastOutZone(matching)
    ensures error.None? ==> forall k :: 0 <= k < |matching| ==> Stamped(matching[k])
  {
    lastKronosTimeZone := Some("");
    records := [];
    error := None;
    at := 0;
    var i := 0;
    while i < |matching|
      invariant 0 <= i <= |matching| && i <= ReadablePrefix(matching)
      invariant error.None?
      invariant StampedBefore(matching, i)
      invariant records == SpanRecords(matching[..i])
      invariant lastKronosTimeZone == LastOutZone(matching[..i])
    {
      FootprintWithin(matching, i, ReadablePrefix(matching) + 1);
      records, lastKronosTimeZone, error := StampNext(matching, i, records);
      if error.Some? {
        FirstUnreadableAt(matching, i);
        ReachedBefore(matching, i);
        at := i;
        return;
      }
      PrefixGrows(matching, i);
      i := i + 1;
    }
    assert matching[..|matching|] == matching;
  }

  /** The first span that is not readable is where the map throws. */
  lemma FirstUnreadableAt(matching: seq<DaySpan>, i: nat)
    requires i < |matching| && !SpanReadable(matching[i])
    requires forall k :: 0 <= k < i ==> SpanReadable(matching[k])
    ensures FirstUnreadable(matching, i) && !AllReadable(matching)
  {
  }

  /** A span before `n` has its records among those of the spans before `n`. */
  lemma FootprintWithin(spans: seq<DaySpan>, i: nat, n: nat)
    requires i < |spans| && i < n
    ensures Footprint(spans[i]) <= EarlierObjects(spans, n)
  {
    assert forall r :: r in Footprint(spans[i]) ==> r in EarlierObjects(spans, n);
  }

  /** The records of the spans before `i`. */
  function EarlierObjects(spans: seq<DaySpan>, i: nat): set<PunchRecord> {
    set k, r | 0 <= k < i && k < |spans| && r in Footprint(spans[k]) :: r
  }

  /** The records of the spans from `i` on. */
  function LaterObjects(spans: seq<DaySpan>, i: nat): set<PunchRecord> {
    set k, r | i <= k < |spans| && r in Footprint(spans[k]) :: r
  }

  /** How many spans in a row, from the first, are readable. */
  function ReadablePrefix(matching: seq<DaySpan>): (n: nat)
    ensures n <= |matching|
    ensures forall k :: 0 <= k < n ==> SpanReadable(matching[k])
    ensures n < |matching| ==> !SpanReadable(matching[n])
  {
    if matching == [] || !SpanReadable(matching[0]) then 0
    else 1 + ReadablePrefix(matching[1..])
  }

  /** The records the map reaches: those of the spans up to and including the first that
      throws, or all of them. */
  function Reached(matching: seq<DaySpan>): set<PunchRecord> {
    EarlierObjects(matching, ReadablePrefix(matching) + 1)
  }

  /** The span that throws is the last one the map reaches. */
  lemma ThrowIsReach(matching: seq<DaySpan>, at: nat)
    requires FirstUnreadable(matching, at)
    ensures ReadablePrefix(matching) == at
  {
  }

  lemma PrefixGrows(matching: seq<DaySpan>, i: nat)
    requires i <= ReadablePrefix(matching) && i < |matching| && SpanReadable(matching[i])
    ensures i + 1 <= ReadablePrefix(matching)
  {
  }

  /** The spans before `n` and the spans from `n` on share no record. */
  lemma ReachedApart(spans: seq<DaySpan>, n: nat)
    requires Unshared(spans)
    ensures EarlierObjects(spans, n) !! LaterObjects(spans, n)
  {
    forall r | r in EarlierObjects(spans, n)
      ensures r !in LaterObjects(spans, n)
    {
      var k :| 0 <= k < n && k < |spans| && r in Footprint(spans[k]);
    }
  }

  /** The punch chain of `Overview.render`: keep the spans of the selected day, then stamp
      them. It writes only records of the spans of the day that the map reaches, which
      `ReachedFrame` places apart from the records of the spans of other days. */
  method BuildPunchEntries(spans: seq<DaySpan>, dayText: string)
    returns (records: seq<PunchRecord>, lastKronosTimeZone: Option<string>, error: Option<RenderError>, ghost at: nat)
    requires Unshared(spans)
    modifies Reached(MatchingSpans(spans, dayText))
    ensures error.None? <==> AllReadable(MatchingSpans(spans, dayText))
    ensures error.Some? ==> FirstUnreadable(MatchingSpans(spans, dayText), at)
                            && error == SpanError(MatchingSpans(spans, dayText)[at])
    ensures error.Some? ==> Reached(MatchingSpans(spans, dayText)) !! LaterObjects(MatchingSpans(spans, dayText), at + 1)
    ensures error.Some? ==> unchanged(LaterObjects(MatchingSpans(spans, dayText), at + 1))
    ensures error.None? ==> records == SpanRecords(MatchingSpans(spans, dayText))
    ensures error.None? ==> lastKronosTimeZone == LastOutZone(MatchingSpans(spans, dayText))
    ensures error.None? ==> forall k :: 0 <= k < |MatchingSpans(spans, dayText)| ==> Stamped(MatchingSpans(spans, dayText)[k])
  {
    var matching := MatchingSpans(spans, dayText);
    MatchingUnshared(spans, dayText);
    records, lastKronosTimeZone, error, at := StampDay(matching);
  }

  /** The spans of the day share no record either. */
  lemma MatchingUnshared(spans: seq<DaySpan>, dayText: string)
    requires Unshared(spans)
    ensures Unshared(MatchingSpans(spans, dayText))
  {
    var apart := (a: DaySpan, b: DaySpan) => Footprint(a) !! Footprint(b);
    assert forall i, j :: 0 <= i < |spans| && 0 <= j < |spans| && i != j ==> apart(spans[i], spans[j]);
    FilterPairwise(spans, (s: DaySpan) => OnSelectedDay(s, dayText), apart);
  }

  /** What the map over the spans of the day may write is among the records of `spans`,
      apart from every span of another day and from the spans of the day it does not reach. */
  lemma ReachedFrame(spans: seq<DaySpan>, dayText: string)
    requires Unshared(spans)
    ensures Reached(MatchingSpans(spans, dayText)) <= PunchObjects(spans)
    ensures Reached(MatchingSpans(spans, dayText)) !! OtherDayObjects(spans, dayText)
  {
    var m := MatchingSpans(spans, dayText);
    MatchingApart(spans, dayText);
    assert Reached(m) <= PunchObjects(m);
  }

  /** When the map throws, it has not reached the spans after the one that threw. */
  lemma ReachedBefore(matching: seq<DaySpan>, at: nat)
    requires Unshared(matching) && FirstUnreadable(matching, at)
    ensures Reached(matching) !! LaterObjects(matching, at + 1)
  {
    ThrowIsReach(matching, at);
    ReachedApart(matching, at + 1);
  }

  /** The records of the spans of another day than `dayText`. */
  function OtherDayObjects(spans: seq<DaySpan>, dayText: string): set<PunchRecord> {
    set k, r | 0 <= k < |spans| && !OnSelectedDay(spans[k], dayText) && r in Footprint(spans[k]) :: r
  }

  /** The records of the spans of the day are among those of `spans`, and apart from the
      records of every span of another day. */
  lemma MatchingApart(spans: seq<DaySpan>, dayText: string)
    requires Unshared(spans)
    ensures PunchObjects(MatchingSpans(spans, dayText)) <= PunchObjects(spans)
    ensures PunchObjects(MatchingSpans(spans, dayText)) !! OtherDayObjects(spans, dayText)
  {
    var m := MatchingSpans(spans, dayText);
    forall r | r in PunchObjects(m)
      ensures r in PunchObjects(spans) && r !in OtherDayObjects(spans, dayText)
    {
      var i :| 0 <= i < |m| && r in Footprint(m[i]);
      var a :| 0 <= a < |spans| && spans[a] == m[i];
      assert OnSelectedDay(spans[a], dayText);
    }
  }

  lemma SpanRecordsAppend(matching: seq<DaySpan>, span: DaySpan)
    ensures SpanRecords(matching + [span]) == SpanRecords(matching) + RecordsOf(span)
  {
    MapConcat(matching, [span], RecordsOf);
    FlattenConcat(Map(matching, RecordsOf), Map([span], RecordsOf));
    assert Map([span], RecordsOf) == [RecordsOf(span)];
    assert Flatten([RecordsOf(span)]) == RecordsOf(span) + Flatten([]);
  }

  /** The log entries of the spans of the day: what the records the map stamps hold. */
  function DayEntries(matching: seq<DaySpan>): seq<LogEntry>
    requires AllReadable(matching)
  {
    if matching == [] then []
    else
      var span := matching[|matching| - 1];
      DayEntries(matching[..|matching| - 1])
      + [LogEntry("InPunch", InMoment(span)), LogEntry("OutPunch", OutMoment(span))]
  }

  /** The day shows two punch entries per span of the day. */
  lemma {:induction false} DayEntriesLength(matching: seq<DaySpan>)
    requires AllReadable(matching)
    ensures |DayEntries(matching)| == 2 * |matching|
  {
    if matching != [] {
      var init := matching[..|matching| - 1];
      assert AllReadable(init);
      DayEntriesLength(init);
    }
  }

  /** Span `k` of the day shows as entries `2k` and `2k + 1`: `InPunch` before `OutPunch`. */
  lemma {:induction false} DayEntriesAt(matching: seq<DaySpan>, k: nat)
    requires AllReadable(matching) && k < |matching|
    ensures 2 * k + 1 < |DayEntries(matching)|
    ensures DayEntries(matching)[2 * k] == LogEntry("InPunch", InMoment(matching[k]))
    ensures DayEntries(matching)[2 * k + 1] == LogEntry("OutPunch", OutMoment(matching[k]))
  {
    var n := |matching| - 1;
    var init := matching[..n];
    assert AllReadable(init);
    DayEntriesLength(init);
    DayEntriesLength(matching);
    var prefix := DayEntries(init);
    var pair := [LogEntry("InPunch", InMoment(matching[n])), LogEntry("OutPunch", OutMoment(matching[n]))];
    DayEntriesSnoc(matching);
    if k < n {
      assert init[k] == matching[k];
      DayEntriesAt(init, k);
      assert DayEntries(matching)[2 * k] == prefix[2 * k];
      assert DayEntries(matching)[2 * k + 1] == prefix[2 * k + 1];
    } else {
      assert |prefix| == 2 * k;
      assert DayEntries(matching)[2 * k] == pair[0];
      assert DayEntries(matching)[2 * k + 1] == pair[1];
    }
  }

  /** The last span of the day adds its two entries at the end. */
  lemma DayEntriesSnoc(matching: seq<DaySpan>)
    requires AllReadable(matching) && matching != []
    ensures var n := |matching| - 1;
            DayEntries(matching)
            == DayEntries(matching[..n])
               + [LogEntry("InPunch", InMoment(matching[n])), LogEntry("OutPunch", OutMoment(matching[n]))]
  {
  }

  /** Every span of the day shows as its two entries, in order. */
  lemma DayEntriesShape(matching: seq<DaySpan>)
    requires AllReadable(matching)
    ensures |DayEntries(matching)| == 2 * |matching|
    ensures forall k :: 0 <= k < |matching| ==>
              DayEntries(matching)[2 * k] == LogEntry("InPunch", InMoment(matching[k]))
              && DayEntries(matching)[2 * k + 1] == LogEntry("OutPunch", OutMoment(matching[k]))
  {
    DayEntriesLength(matching);
    forall k | 0 <= k < |matching|
      ensures DayEntries(matching)[2 * k] == LogEntry("InPunch", InMoment(matching[k]))
      ensures DayEntries(matching)[2 * k + 1] == LogEntry("OutPunch", OutMoment(matching[k]))
    {
      DayEntriesAt(matching, k);
    }
  }

  /** A stamped record as the `Entry` it is rendered as. */
  function EntryOf(record: PunchRecord): LogEntry
    reads record
    requires record.entryType.Some? && record.time.Some?
  {
    LogEntry(record.entryType.value, record.time.value)
  }

  predicate AllStamped(records: seq<PunchRecord>)
    reads records
  {
    forall i :: 0 <= i < |records| ==> records[i].entryType.Some? && records[i].time.Some?
  }

  function EntriesOf(records: seq<PunchRecord>): seq<LogEntry>
    reads records
    requires AllStamped(records)
  {
    if records == [] then []
    else EntriesOf(records[..|records| - 1]) + [EntryOf(records[|records| - 1])]
  }

  lemma {:induction false} EntriesOfConcat(a: seq<PunchRecord>, b: seq<PunchRecord>)
    requires AllStamped(a) && AllStamped(b)
    ensures AllStamped(a + b) && EntriesOf(a + b) == EntriesOf(a) + EntriesOf(b)
  {
    if b != [] {
      var init := b[..|b| - 1];
      assert AllStamped(init);
      assert (a + b)[..|a + b| - 1] == a + init;
      assert (a + b)[|a + b| - 1] == b[|b| - 1];
      EntriesOfConcat(a, init);
      assert EntriesOf(b) == EntriesOf(init) + [EntryOf(b[|b| - 1])];
    } else {
      assert a + b == a;
    }
  }

  /** A stamped span's two records read back as its two entries. */
  lemma StampedPair(span: DaySpan)
    requires Stamped(span)
    ensures RecordsOf(span) == [span.inPunch.value, span.outPunch.value]
    ensures AllStamped(RecordsOf(span))
    ensures EntriesOf(RecordsOf(span))
            == [LogEntry("InPunch", InMoment(span)), LogEntry("OutPunch", OutMoment(span))]
  {
    var pair := [span.inPunch.value, span.outPunch.value];
    assert RecordsOf(span) == pair;
    assert pair[..1] == [span.inPunch.value] && pair[..1][..0] == [];
    assert AllStamped(pair) && AllStamped(pair[..1]);
    assert EntriesOf(pair[..1]) == [EntryOf(span.inPunch.value)];
  }

  /** Once every span of the day is stamped, its records read back as the specified entries. */
  lemma {:induction false} StampedRecordsAreEntries(matching: seq<DaySpan>)
    requires forall k :: 0 <= k < |matching| ==> SpanReadable(matching[k]) && Stamped(matching[k])
    ensures AllStamped(SpanRecords(matching))
    ensures EntriesOf(SpanRecords(matching)) == DayEntries(matching)
  {
    if matching != [] {
      var init, span := matching[..|matching| - 1], matching[|matching| - 1];
      forall k | 0 <= k < |init|
        ensures SpanReadable(init[k]) && Stamped(init[k])
      {
        assert init[k] == matching[k];
      }
      LastSplit(matching);
      StampedRecordsAreEntries(init);
      SpanRecordsAppend(init, span);
      StampedPair(span);
      EntriesOfConcat(SpanRecords(init), RecordsOf(span));
    }
  }

  // ---------------------------------------------------------------------------
  // The scheduled entries of the selected day
  // ---------------------------------------------------------------------------

  predicate ShiftOnSelectedDay(shift: ScheduleShift, dayText: string) {
    shift.startDate == dayText
  }

  /** The two entries a shift stands for at a given offset text: `scheduledIn` at its
      segment's start and `scheduledOut` at its segment's end. */
  function ShiftPair(shift: ScheduleShift, offset: string): seq<LogEntry> {
    var segment := shift.segment;
    [LogEntry("scheduledIn", BuildMoment(segment.startDate, segment.startTime, offset)),
     LogEntry("scheduledOut", BuildMoment(segment.endDate, segment.endTime, offset))]
  }

  /** The two entries of one shift, built with the carried time zone. */
  function ShiftEntries(shift: ScheduleShift, zone: Option<string>): (r: Result<seq<LogEntry>, RenderError>)
    ensures r.Failure? <==> ZoneOffset(zone).None?
    ensures r.Failure? ==> r.error == OffsetNotFound
    ensures r.Success? ==>
              (r.value == [LogEntry("scheduledIn", BuildMoment(shift.segment.startDate, shift.segment.startTime, ZoneOffset(zone).value)),
                           LogEntry("scheduledOut", BuildMoment(shift.segment.endDate, shift.segment.endTime, ZoneOffset(zone).value))])
  {
    var segment := shift.segment;
    var start := KronosMoment(segment.startDate, segment.startTime, zone);
    var end := KronosMoment(segment.endDate, segment.endTime, zone);
    if start.Failure? || end.Failure? then Failure(OffsetNotFound)
    else Success([LogEntry("scheduledIn", start.value), LogEntry("scheduledOut", end.value)])
  }

  /** The `scheduled` chain: filter the shifts by their start date, then two entries each. */
  function ScheduledEntries(shifts: seq<ScheduleShift>, dayText: string, zone: Option<string>)
    : (r: Result<seq<LogEntry>, RenderError>)
    ensures r.Failure? <==> ZoneOffset(zone).None? && exists i :: 0 <= i < |shifts| && ShiftOnSelectedDay(shifts[i], dayText)
    ensures r.Success? ==> |r.value| == 2 * |Filter(shifts, (s: ScheduleShift) => ShiftOnSelectedDay(s, dayText))|
  {
    if shifts == [] then Success([])
    else
      assert forall i :: 1 <= i < |shifts| ==> shifts[i] == shifts[1..][i - 1];
      var rest :- ScheduledEntries(shifts[1..], dayText, zone);
      if ShiftOnSelectedDay(shifts[0], dayText) then
        var head :- ShiftEntries(shifts[0], zone);
        Success(head + rest)
      else Success(rest)
  }

  /** The reference chain: the shifts of the day, each as its pair of entries, flattened. */
  function ScheduledChain(shifts: seq<ScheduleShift>, dayText: string, offset: string): seq<LogEntry> {
    Flatten(Map(Filter(shifts, (s: ScheduleShift) => ShiftOnSelectedDay(s, dayText)),
                (s: ScheduleShift) => ShiftPair(s, offset)))
  }

  /** One more shift in front puts its pair in front of the chain when it starts on the day. */
  lemma ChainCons(head: ScheduleShift, tail: seq<ScheduleShift>, dayText: string, offset: string)
    ensures ScheduledChain([head] + tail, dayText, offset)
            == (if ShiftOnSelectedDay(head, dayText) then ShiftPair(head, offset) else [])
               + ScheduledChain(tail, dayText, offset)
  {
    var p := (s: ScheduleShift) => ShiftOnSelectedDay(s, dayText);
    var f := (s: ScheduleShift) => ShiftPair(s, offset);
    FilterCons(head, tail, p);
    var kept := Filter(tail, p);
    if p(head) {
      assert Filter([head] + tail, p) == [head] + kept;
      MapCons(head, kept, f);
      FlattenCons(ShiftPair(head, offset), Map(kept, f));
    } else {
      assert Filter([head] + tail, p) == kept;
      assert [] + ScheduledChain(tail, dayText, offset) == ScheduledChain(tail, dayText, offset);
    }
  }

  /** Whenever the carried zone has an offset, the scheduled entries are exactly the
      chain's: only shifts starting on the day contribute, in their order, each as
      `scheduledIn` then `scheduledOut` at that offset. */
  lemma {:induction false} ScheduledEntriesAreChain(shifts: seq<ScheduleShift>, dayText: string, zone: Option<string>)
    requires ZoneOffset(zone).Some?
    ensures ScheduledEntries(shifts, dayText, zone) == Success(ScheduledChain(shifts, dayText, ZoneOffset(zone).value))
  {
    if shifts != [] {
      var offset := ZoneOffset(zone).value;
      var head, tail := shifts[0], shifts[1..];
      ScheduledEntriesAreChain(tail, dayText, zone);
      var rest := ScheduledChain(tail, dayText, offset);
      assert ScheduledEntries(tail, dayText, zone) == Success(rest);
      assert ShiftEntries(head, zone) == Success(ShiftPair(head, offset));
      ChainCons(head, tail, dayText, offset);
      assert shifts == [head] + tail;
      if ShiftOnSelectedDay(head, dayText) {
        assert ScheduledEntries(shifts, dayText, zone) == Success(ShiftPair(head, offset) + rest);
      } else {
        assert ScheduledEntries(shifts, dayText, zone) == Success(rest);
        assert [] + rest == rest;
      }
    }
  }

  /** The zone the map carries has an offset whenever the map finished: the scheduled
      entries never throw after the punches were read. */
  lemma CarriedZoneHasOffset(matching: seq<DaySpan>)
    requires AllReadable(matching)
    ensures ZoneOffset(LastOutZone(matching)).Some?
  {
    if matching != [] {
      assert SpanReadable(matching[|matching| - 1]);
    }
  }

  /** With no span on the selected day the carried zone stays `""`, so the scheduled
      entries use the fallback offset. */
  lemma NoPunchesFallback(spans: seq<DaySpan>, shifts: seq<ScheduleShift>, dayText: string)
    requires forall i :: 0 <= i < |spans| ==> !OnSelectedDay(spans[i], dayText)
    ensures LastOutZone(MatchingSpans(spans, dayText)) == Some("")
    ensures ZoneOffset(LastOutZone(MatchingSpans(spans, dayText))) == Some(FallbackOffset)
    ensures ScheduledEntries(shifts, dayText, LastOutZone(MatchingSpans(spans, dayText))).Success?
  {
    FilterNone(spans, (s: DaySpan) => OnSelectedDay(s, dayText));
  }

  // ---------------------------------------------------------------------------
  // The day's log
  // ---------------------------------------------------------------------------

  /** What `_.sortBy` compares: moment's `valueOf`, in minutes. An invalid moment is
      given 0 here; the source's order is unspecified for it. */
  function TimeKey(entry: LogEntry): int {
    if entry.time.At? && WellFormedMoment(entry.time) then Instant(entry.time) else 0
  }

  /** `punchLog`: the scheduled entries, then the punch entries, stably sorted by time. It
      holds exactly those entries, in time order. */
  function PunchLog(scheduled: seq<LogEntry>, punches: seq<LogEntry>): (log: seq<LogEntry>)
    ensures multiset(log) == multiset(scheduled) + multiset(punches)
    ensures |log| == |scheduled| + |punches|
    ensures forall i, j :: 0 <= i < j < |log| ==> TimeKey(log[i]) <= TimeKey(log[j])
  {
    SortByCorrect(scheduled + punches, TimeKey);
    var log := SortBy(scheduled + punches, TimeKey);
    assert |log| == |multiset(log)|;
    log
  }

  /** Entries at the same instant keep the scheduled ones first, each group in its own
      order. */
  lemma PunchLogCorrect(scheduled: seq<LogEntry>, punches: seq<LogEntry>)
    ensures forall k :: Filter(PunchLog(scheduled, punches), HasKey(TimeKey, k))
                        == Filter(scheduled, HasKey(TimeKey, k)) + Filter(punches, HasKey(TimeKey, k))
  {
    var log := PunchLog(scheduled, punches);
    SortByCorrect(scheduled + punches, TimeKey);
    forall k
      ensures Filter(log, HasKey(TimeKey, k)) == Filter(scheduled, HasKey(TimeKey, k)) + Filter(punches, HasKey(TimeKey, k))
    {
      FilterConcat(scheduled, punches, HasKey(TimeKey, k));
    }
  }

  /** The day's log has two entries per shift and two per span of the day. */
  lemma DayLogLength(spans: seq<DaySpan>, shifts: seq<ScheduleShift>, dayText: string)
    requires AllReadable(MatchingSpans(spans, dayText))
    ensures ScheduledEntries(shifts, dayText, LastOutZone(MatchingSpans(spans, dayText))).Success?
    ensures |PunchLog(ScheduledEntries(shifts, dayText, LastOutZone(MatchingSpans(spans, dayText))).value,
                      DayEntries(MatchingSpans(spans, dayText)))|
            == 2 * (|Filter(shifts, (s: ScheduleShift) => ShiftOnSelectedDay(s, dayText))| + |MatchingSpans(spans, dayText)|)
  {
    CarriedZoneHasOffset(MatchingSpans(spans, dayText));
    DayEntriesShape(MatchingSpans(spans, dayText));
  }

  /** Entries written with one offset appear in the log in local date and time order. */
  lemma PunchLogLocalOrder(scheduled: seq<LogEntry>, punches: seq<LogEntry>, offset: int, i: int, j: int)
    requires forall e :: e in scheduled + punches ==> e.time.At? && WellFormedMoment(e.time) && e.time.offset == offset
    requires 0 <= i < j < |PunchLog(scheduled, punches)|
    ensures PunchLog(scheduled, punches)[i].time.At? && PunchLog(scheduled, punches)[j].time.At?
    ensures LocalOnOrBefore(PunchLog(scheduled, punches)[i].time, PunchLog(scheduled, punches)[j].time)
  {
    var log := PunchLog(scheduled, punches);
    PunchLogCorrect(scheduled, punches);
    assert log[i] in multiset(scheduled + punches) && log[j] in multiset(scheduled + punches);
    InstantOrder(log[i].time, log[j].time);
  }

  /** The route's date as `moment(date).format("M/DD/YYYY")` writes it: its `M/DD/YYYY`
      text, or `Invalid date` for a date moment cannot read, which no span, shift or
      record date can be read back as. */
  function DayTextOf(selected: Date): (r: string)
    ensures ValidDate(selected) ==> r == FormatDate(selected) && ParseDate(r) == Some(selected)
    ensures !ValidDate(selected) ==> r == "Invalid date"
    ensures !ValidDate(selected) ==> ParseDate(r) == None
  {
    if ValidDate(selected) then
      ParseFormatDate(selected);
      FormatDate(selected)
    else
      SplitNoSeparator("Invalid date", "/");
      "Invalid date"
  }

  /** `Overview.render` up to the rendering: the punch entries (written onto the records),
      the scheduled entries with the carried time zone, and the sorted log. The route's
      date selects the spans and shifts whose date text is its `M/DD/YYYY` form. */
  method Overview(spans: seq<DaySpan>, shifts: seq<ScheduleShift>, selected: Date)
    returns (log: Result<seq<LogEntry>, RenderError>)
    requires Unshared(spans)
    modifies Reached(MatchingSpans(spans, DayTextOf(selected)))
    ensures log.Success? <==> AllReadable(MatchingSpans(spans, DayTextOf(selected)))
    ensures log.Failure? ==> exists i :: FirstUnreadable(MatchingSpans(spans, DayTextOf(selected)), i)
                                         && Some(log.error) == SpanError(MatchingSpans(spans, DayTextOf(selected))[i])
                                         && Reached(MatchingSpans(spans, DayTextOf(selected)))
                                              !! LaterObjects(MatchingSpans(spans, DayTextOf(selected)), i + 1)
                                         && unchanged(LaterObjects(MatchingSpans(spans, DayTextOf(selected)), i + 1))
    ensures log.Success? ==>
              var matching := MatchingSpans(spans, DayTextOf(selected));
              var scheduled := ScheduledEntries(shifts, DayTextOf(selected), LastOutZone(matching));
              scheduled.Success? && log.value == PunchLog(scheduled.value, DayEntries(matching))
  {
    var dayText := DayTextOf(selected);
    var records, lastKronosTimeZone, error, at := BuildPunchEntries(spans, dayText);
    if error.Some? {
      return Failure(error.value);
    }
    var matching := MatchingSpans(spans, dayText);
    CarriedZoneHasOffset(matching);
    StampedRecordsAreEntries(matching);
    var scheduled := ScheduledEntries(shifts, dayText, lastKronosTimeZone);
    log := Success(PunchLog(scheduled.value, EntriesOf(records)));
  }

  // ---------------------------------------------------------------------------
  // DayStats
  // ---------------------------------------------------------------------------

  /** An attribute of a record by name; a later attribute of the same name hides an
      earlier one, as in the object the record is read from. */
  function Field(rec: Record, name: string): (r: Option<string>)
    ensures r.None? <==> forall i :: 0 <= i < |rec| ==> rec[i].0 != name
  {
    if rec == [] then None
    else if rec[|rec| - 1].0 == name then Some(rec[|rec| - 1].1)
    else
      assert forall i :: 0 <= i < |rec| - 1 ==> rec[..|rec| - 1][i] == rec[i];
      Field(rec[..|rec| - 1], name)
  }

  /** `rec[i]` is the last attribute called `name`. */
  predicate LastOfName(rec: Record, name: string, i: int) {
    0 <= i < |rec| && rec[i].0 == name && forall j :: i < j < |rec| ==> rec[j].0 != name
  }

  /** The value found is that of the last attribute of the name. */
  lemma {:induction false} FieldIsLast(rec: Record, name: string)
    ensures Field(rec, name).Some? ==> exists i :: LastOfName(rec, name, i) && rec[i].1 == Field(rec, name).value
  {
    if rec != [] {
      var n := |rec| - 1;
      if rec[n].0 == name {
        assert LastOfName(rec, name, n);
      } else {
        var init := rec[..n];
        FieldIsLast(init, name);
        if Field(rec, name).Some? {
          var i :| LastOfName(init, name, i) && init[i].1 == Field(init, name).value;
          assert rec[i] == init[i];
          assert LastOfName(rec, name, i);
        }
      }
    }
  }

  /** The totals of the worked-hours pay code. */
  predicate IsPayCode140(total: Record) {
    Field(total, "PayCodeId") == Some("140")
  }

  /** What the panel shows: hours worked and amount made. */
  datatype Stats = Stats(amountInTime: string, amountInCurrency: string)

  const NoStats: Stats := Stats("", "")

  /** The two amounts of a total; a missing attribute shows as nothing. */
  function AmountsOf(total: Record): Stats {
    Stats(Field(total, "AmountInTime").GetOr(""), Field(total, "AmountInCurrency").GetOr(""))
  }

  /** `totals[i]` is the first pay-code-140 total. */
  predicate FirstPayCode140(totals: seq<Record>, i: int) {
    0 <= i < |totals| && IsPayCode140(totals[i]) && forall j :: 0 <= j < i ==> !IsPayCode140(totals[j])
  }

  /** The first pay-code-140 total of a day, or nothing. */
  function PayCodeStats(totals: seq<Record>): (r: Stats)
    ensures (forall i :: 0 <= i < |totals| ==> !IsPayCode140(totals[i])) ==> r == NoStats
    ensures forall i :: FirstPayCode140(totals, i) ==> r == AmountsOf(totals[i])
  {
    var p := (i: nat) => i < |totals| && IsPayCode140(totals[i]);
    var found := FirstIndex(|totals|, p, 0);
    assert forall i: nat :: i < |totals| ==> p(i) == IsPayCode140(totals[i]);
    if found.None? then NoStats
    else
      var k := found.value;
      assert forall i :: FirstPayCode140(totals, i) ==> i == k;
      AmountsOf(totals[k])
  }

  /** `dateTotals[i]` is the first record of the day. */
  predicate FirstRecordOn(dateTotals: seq<DateTotals>, dayText: string, i: int) {
    0 <= i < |dateTotals| && dateTotals[i].date == dayText && forall j :: 0 <= j < i ==> dateTotals[j].date != dayText
  }

  /** `DayStats.render` for the day whose `M/DD/YYYY` text is `dayText`: the totals of the
      first `DateTotals` record of that day (none when it has no `Totals`), and in them the
      first pay-code-140 total. */
  function StatsOn(dateTotals: seq<DateTotals>, dayText: string): (r: Stats)
    ensures (forall i :: 0 <= i < |dateTotals| ==> dateTotals[i].date != dayText) ==> r == NoStats
    ensures forall i :: FirstRecordOn(dateTotals, dayText, i) ==> r == PayCodeStats(dateTotals[i].totals.GetOr([]))
  {
    var p := (i: nat) => i < |dateTotals| && dateTotals[i].date == dayText;
    var found := FirstIndex(|dateTotals|, p, 0);
    assert forall i: nat :: i < |dateTotals| ==> p(i) == (dateTotals[i].date == dayText);
    if found.None? then NoStats
    else
      var k := found.value;
      assert forall i :: FirstRecordOn(dateTotals, dayText, i) ==> i == k;
      PayCodeStats(dateTotals[k].totals.GetOr([]))
  }

  /** The route's date selects the records by its `M/DD/YYYY` text. */
  function DayStats(dateTotals: seq<DateTotals>, selected: Date): (r: Stats)
    ensures (forall i :: 0 <= i < |dateTotals| ==> dateTotals[i].date != DayTextOf(selected)) ==> r == NoStats
    ensures forall i :: FirstRecordOn(dateTotals, DayTextOf(selected), i) ==> r == PayCodeStats(dateTotals[i].totals.GetOr([]))
  {
    StatsOn(dateTotals, DayTextOf(selected))
  }

  /** Only the first record of the day is consulted: records after it never change the
      stats, even when the first one has no pay-code-140 total. */
  lemma StatsFirstRecordOnly(dateTotals: seq<DateTotals>, later: seq<DateTotals>, dayText: string)
    requires exists i :: 0 <= i < |dateTotals| && dateTotals[i].date == dayText
    ensures StatsOn(dateTotals + later, dayText) == StatsOn(dateTotals, dayText)
  {
    var p := (i: nat) => i < |dateTotals| && dateTotals[i].date == dayText;
    var found := FirstIndex(|dateTotals|, p, 0);
    assert forall i: nat :: i < |dateTotals| ==> p(i) == (dateTotals[i].date == dayText);
    var k := found.value;
    assert (dateTotals + later)[k] == dateTotals[k];
    assert forall j :: 0 <= j < k ==> (dateTotals + later)[j] == dateTotals[j];
  }

  /** Likewise within a day: totals after the first pay-code-140 one are never shown. */
  lemma PayCodeStatsFirstOnly(totals: seq<Record>, later: seq<Record>)
    requires exists i :: 0 <= i < |totals| && IsPayCode140(totals[i])
    ensures PayCodeStats(totals + later) == PayCodeStats(totals)
  {
    var p := (i: nat) => i < |totals| && IsPayCode140(totals[i]);
    var found := FirstIndex(|totals|, p, 0);
    assert forall i: nat :: i < |totals| ==> p(i) == IsPayCode140(totals[i]);
    var k := found.value;
    assert (totals + later)[k] == totals[k];
    assert forall j :: 0 <= j < k ==> (totals + later)[j] == totals[j];
  }
}
