/** `store.js`: the `KronosStore` state and its handlers and queries. */
module Store {
  import opened Wrappers
  import opened Seqs
  import opened Calendar
  import opened Payload
  import opened Parsers

  /** The `timesheet` of `DEFAULT_STATE`: no period bounds and every list empty. */
  const EmptyTimesheet := Timesheet(None, None, [], [], [], [])

  /** The `Schedule: {}` of `DEFAULT_STATE`: an object without shifts. */
  const EmptySchedule := Schedule([])

  /** `date.isSame(time, 'day')`: the moment is valid and falls on that calendar day. */
  predicate OnDay(time: Moment, date: Date) {
    time.At? && time.date == date
  }

  /** A successful login: `status == "Success"`, or error code 1313. */
  predicate LoginAccepted(parsed: LoginStatus) {
    parsed.status == Some("Success") || parsed.errorCode == "1313"
  }

  /** `!!username`: present and not the empty string. */
  predicate HasUser(username: Option<string>) {
    username.Some? && username.value != ""
  }

  class KronosStore {
    var username: Option<string>
    var timesheet: Timesheet
    var schedule: Option<Schedule>

    /** `this.state = DEFAULT_STATE`. */
    constructor ()
      ensures username.None? && timesheet == EmptyTimesheet && schedule == Some(EmptySchedule)
      ensures !IsLoggedIn()
    {
      username := None;
      timesheet := EmptyTimesheet;
      schedule := Some(EmptySchedule);
    }

    /** `isLoggedIn`. */
    predicate IsLoggedIn(): (b: bool)
      reads this
      ensures b <==> username.Some? && username.value != ""
    {
      HasUser(username)
    }

    /** `handleLogin`: takes the user name exactly when the login was accepted. */
    method HandleLogin(response: Response)
      modifies this
      ensures LoginAccepted(ParseLogin(response)) ==> username == response.username
      ensures !LoginAccepted(ParseLogin(response)) ==> username == old(username)
      ensures IsLoggedIn() <==> if LoginAccepted(ParseLogin(response)) then HasUser(response.username)
                                else old(IsLoggedIn())
      ensures timesheet == old(timesheet) && schedule == old(schedule)
    {
      var parsed := ParseLogin(response);
      if parsed.status == Some("Success") || parsed.errorCode == "1313" {
        username := parsed.username;
      }
    }

    /** `handleLogout`: clears the user name exactly when the logout succeeded. */
    method HandleLogout(response: Response)
      modifies this
      ensures ParseLogout(response).status == Some("Success") ==> username.None? && !IsLoggedIn()
      ensures ParseLogout(response).status != Some("Success") ==> username == old(username)
      ensures timesheet == old(timesheet) && schedule == old(schedule)
    {
      var parsed := ParseLogout(response);
      if parsed.status == Some("Success") {
        username := None;
      }
    }

    /** `handleTimesheetFetch`: `setState` merges `{timesheet}` into the state, so only the
        timesheet changes. When the parse throws, the state is left as it was and the
        error is returned. */
    method HandleTimesheetFetch(response: Response) returns (error: Option<ParseError>)
      modifies this
      ensures error.None? <==> ParseTimesheet(response).Success?
      ensures error.Some? ==> error.value == ParseTimesheet(response).error && timesheet == old(timesheet)
      ensures error.None? ==> timesheet == ParseTimesheet(response).value
      ensures username == old(username) && schedule == old(schedule)
    {
      var parsed := ParseTimesheet(response);
      if parsed.Success? {
        timesheet := parsed.value;
        error := None;
      } else {
        error := Some(parsed.error);
      }
    }

    /** `handleScheduleFetch`: replaces the schedule and nothing else. */
    method HandleScheduleFetch(response: Response)
      modifies this
      ensures schedule == response.schedule
      ensures username == old(username) && timesheet == old(timesheet)
    {
      schedule := response.schedule;
    }

    /** `getDay`: the first stored day on `date`, if any. */
    function GetDay(date: Date): (r: Option<Day>)
      reads this
      ensures r.Some? ==> r.value.date == Some(date)
      ensures r.Some? ==> exists i :: 0 <= i < |timesheet.days| && timesheet.days[i] == r.value
                                      && forall j :: 0 <= j < i ==> timesheet.days[j].date != Some(date)
      ensures r.None? <==> forall i :: 0 <= i < |timesheet.days| ==> timesheet.days[i].date != Some(date)
    {
      var days := timesheet.days;
      var p := (i: nat) => i < |days| && days[i].date == Some(date);
      var found := FirstIndex(|days|, p, 0);
      assert forall i: nat :: i < |days| ==> p(i) == (days[i].date == Some(date));
      if found.None? then None else Some(days[found.value])
    }

    /** `getInPunchesForDate`: the stored in-punches on `date`, in stored order. */
    function GetInPunchesForDate(date: Date): (r: seq<Punch>)
      reads this
      ensures forall i :: 0 <= i < |r| ==> r[i] in timesheet.inPunches && OnDay(r[i].time, date)
      ensures forall i :: 0 <= i < |timesheet.inPunches| && OnDay(timesheet.inPunches[i].time, date)
                ==> timesheet.inPunches[i] in r
      ensures IsSubsequence(r, timesheet.inPunches)
      ensures forall x :: multiset(r)[x] == if OnDay(x.time, date) then multiset(timesheet.inPunches)[x] else 0
    {
      FilterIsSubsequence(timesheet.inPunches, (p: Punch) => OnDay(p.time, date));
      FilterCounts(timesheet.inPunches, (p: Punch) => OnDay(p.time, date));
      Filter(timesheet.inPunches, (p: Punch) => OnDay(p.time, date))
    }

    /** `getOutPunchesForDate`: the stored out-punches on `date`, in stored order. */
    function GetOutPunchesForDate(date: Date): (r: seq<Punch>)
      reads this
      ensures forall i :: 0 <= i < |r| ==> r[i] in timesheet.outPunches && OnDay(r[i].time, date)
      ensures forall i :: 0 <= i < |timesheet.outPunches| && OnDay(timesheet.outPunches[i].time, date)
                ==> timesheet.outPunches[i] in r
      ensures IsSubsequence(r, timesheet.outPunches)
      ensures forall x :: multiset(r)[x] == if OnDay(x.time, date) then multiset(timesheet.outPunches)[x] else 0
    {
      FilterIsSubsequence(timesheet.outPunches, (p: Punch) => OnDay(p.time, date));
      FilterCounts(timesheet.outPunches, (p: Punch) => OnDay(p.time, date));
      Filter(timesheet.outPunches, (p: Punch) => OnDay(p.time, date))
    }
  }
}
