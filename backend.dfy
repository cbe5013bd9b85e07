/** The attendance tables of the backend and the endpoints over them:
    clock-in (once per employee per day), today's records with their
    on-time/late status, the dashboard statistics and the next employee id.

    The database becomes three sequences of rows: `prs_mstr` (employees),
    `absensi` (one row per clock-in, with its time and coordinates) and
    `accs_hist` (access history). A query that reads one row (`fetchone`)
    takes the first matching row. The current date and time are parameters.
    The stream counter (`Stream.RecognitionStream`) writes to the same
    `accs_hist` table; the two are kept as separate sequences because no
    modelled rule reads both. */
module Backend {
  import opened Common
  import opened Shared

  /** A row of `prs_mstr`. */
  datatype Person = Person(nbr: int, name: string, skill: string, active: bool)

  /** A row of `absensi`. */
  datatype Presence = Presence(
    id: nat, person: int, name: string, skill: string,
    day: int, time: Clock, latitude: string, longitude: string)

  /** A row of `accs_hist`. */
  datatype Access = Access(day: int, person: int)

  /** The employee with number `nbr`, if any. */
  function FindPerson(people: seq<Person>, nbr: int): (r: Option<Person>)
    ensures r.Some? ==> r.value in people && r.value.nbr == nbr
    ensures r.None? <==> forall p :: p in people ==> p.nbr != nbr
    decreases |people|
  {
    if |people| == 0 then None
    else if people[0].nbr == nbr then Some(people[0])
    else FindPerson(people[1..], nbr)
  }

  /** The first `absensi` row of `person` on `day`, if any. */
  function FirstPresence(rows: seq<Presence>, person: int, day: int): (r: Option<Presence>)
    ensures r.Some? ==> r.value in rows && r.value.person == person && r.value.day == day
    ensures r.None? <==> forall x :: x in rows ==> !(x.person == person && x.day == day)
    decreases |rows|
  {
    if |rows| == 0 then None
    else if rows[0].person == person && rows[0].day == day then Some(rows[0])
    else FirstPresence(rows[1..], person, day)
  }

  // ---------------------------------------------------------------- clock-in

  datatype Tables = Tables(people: seq<Person>, absensi: seq<Presence>, history: seq<Access>, nextRowId: nat)

  predicate ValidTables(t: Tables)
  {
    forall x :: x in t.absensi ==> ValidClock(x.time) && x.id < t.nextRowId
  }

  /** What the clock-in endpoint answers. */
  datatype ClockInResponse =
    | EmployeeNotFound
    | AlreadyCheckedIn(checkInTime: string)
    | Recorded(employeeId: int, name: string, position: string, time: string, date: int)

  function StatusCode(r: ClockInResponse): int
  {
    match r
    case EmployeeNotFound => 404
    case AlreadyCheckedIn(_) => 400
    case Recorded(_, _, _, _, _) => 200
  }

  function Message(r: ClockInResponse): string
  {
    match r
    case EmployeeNotFound => "Employee not found"
    case AlreadyCheckedIn(t) => "Anda sudah check-in hari ini pada " + t
    case Recorded(_, _, _, _, _) => "Attendance recorded successfully"
  }

  /** The `success` field of the answer. */
  predicate Succeeded(r: ClockInResponse)
  {
    r.Recorded?
  }

  /** `api_clock_in` on the tables, for the employee id in the request (None
      when the request has none), at time `now` of day `today`. */
  function ClockInOn(t: Tables, empId: Option<int>, lat: string, lng: string, today: int, now: Clock): (r: (Tables, ClockInResponse))
    requires ValidTables(t) && ValidClock(now)
    ensures ValidTables(r.0)
    ensures r.1.EmployeeNotFound? <==> empId.None? || FindPerson(t.people, empId.value).None?
    ensures r.1.AlreadyCheckedIn? <==>
              empId.Some? && FindPerson(t.people, empId.value).Some? && FirstPresence(t.absensi, empId.value, today).Some?
    ensures r.1.AlreadyCheckedIn? ==> r.1.checkInTime == ClockText(FirstPresence(t.absensi, empId.value, today).value.time)
    ensures !r.1.Recorded? ==> r.0 == t
    ensures r.1.Recorded? ==>
              var p := FindPerson(t.people, empId.value).value;
              && r.0.people == t.people
              && r.0.absensi == t.absensi + [Presence(t.nextRowId, empId.value, p.name, p.skill, today, now, lat, lng)]
              && r.0.history == t.history + [Access(today, empId.value)]
              && r.0.nextRowId == t.nextRowId + 1
              && r.1 == Recorded(empId.value, p.name, p.skill, ClockText(now), today)
  {
    if empId.None? then (t, EmployeeNotFound)
    else
      var id := empId.value;
      match FindPerson(t.people, id)
      case None => (t, EmployeeNotFound)
      case Some(p) =>
        match FirstPresence(t.absensi, id, today)
        case Some(existing) => (t, AlreadyCheckedIn(ClockText(existing.time)))
        case None =>
          var row := Presence(t.nextRowId, id, p.name, p.skill, today, now, lat, lng);
          (Tables(t.people, t.absensi + [row], t.history + [Access(today, id)], t.nextRowId + 1),
           Recorded(id, p.name, p.skill, ClockText(now), today))
  }

  /** A second clock-in on the same day is refused and writes nothing. */
  lemma OncePerDay(t: Tables, id: int, lat: string, lng: string, lat2: string, lng2: string, today: int, now: Clock, later: Clock)
    requires ValidTables(t) && ValidClock(now) && ValidClock(later)
    requires ClockInOn(t, Some(id), lat, lng, today, now).1.Recorded?
    ensures var t1 := ClockInOn(t, Some(id), lat, lng, today, now).0;
            var second := ClockInOn(t1, Some(id), lat2, lng2, today, later);
            && second.1 == AlreadyCheckedIn(ClockText(now))
            && second.0 == t1
            && !Succeeded(second.1) && StatusCode(second.1) == 400
  {
    var t1 := ClockInOn(t, Some(id), lat, lng, today, now).0;
    var row := t1.absensi[|t.absensi|];
    assert row in t1.absensi && row.person == id && row.day == today;
    var first := FirstPresence(t1.absensi, id, today);
    assert first.Some?;
    // no earlier row matches, so the first match is the new row
    assert FirstPresence(t.absensi, id, today).None?;
    FirstPresenceAfterAppend(t.absensi, row, id, today);
  }

  lemma {:induction false} FirstPresenceAfterAppend(rows: seq<Presence>, row: Presence, person: int, day: int)
    requires FirstPresence(rows, person, day).None?
    requires row.person == person && row.day == day
    ensures FirstPresence(rows + [row], person, day) == Some(row)
    decreases |rows|
  {
    if |rows| == 0 {
      assert rows + [row] == [row];
    } else {
      assert (rows + [row])[1..] == rows[1..] + [row];
      FirstPresenceAfterAppend(rows[1..], row, person, day);
    }
  }

  /** No employee has two `absensi` rows for one day. */
  ghost predicate OneRowPerDay(rows: seq<Presence>)
  {
    forall i, j :: 0 <= i < j < |rows| && rows[i].person == rows[j].person ==> rows[i].day != rows[j].day
  }

  /** Clock-in keeps at most one row per employee per day. */
  lemma ClockInKeepsOneRowPerDay(t: Tables, empId: Option<int>, lat: string, lng: string, today: int, now: Clock)
    requires ValidTables(t) && ValidClock(now) && OneRowPerDay(t.absensi)
    ensures OneRowPerDay(ClockInOn(t, empId, lat, lng, today, now).0.absensi)
  {
    var r := ClockInOn(t, empId, lat, lng, today, now);
    if r.1.Recorded? {
      var rows := r.0.absensi;
      var n := |t.absensi|;
      assert FirstPresence(t.absensi, empId.value, today).None?;
      forall i, j | 0 <= i < j < |rows| && rows[i].person == rows[j].person
        ensures rows[i].day != rows[j].day
      {
        if j == n {
          assert rows[i] == t.absensi[i] && t.absensi[i] in t.absensi;
        } else {
          assert rows[i] == t.absensi[i] && rows[j] == t.absensi[j];
        }
      }
    }
  }

  // ---------------------------------------------------------------- today's records

  /** The status rule of the "today" endpoint: on time before 9 o'clock. */
  function StatusOf(t: Clock): (s: string)
    ensures s == "on-time" || s == "late"
    ensures s == "on-time" <==> t.hour < 9
  {
    if t.hour < 9 then "on-time" else "late"
  }

  /** The record the "today" endpoint makes of one row (its confidence is a fixed 95). */
  function ToRecord(x: Presence): (r: AttendanceRecord)
    requires ValidClock(x.time)
    ensures r.id == x.id && r.employeeId == x.person && r.employeeName == x.name && r.department == x.skill
    ensures r.clockIn == ClockText(x.time) && r.confidence == 95
    ensures r.status == "on-time" || r.status == "late"
    ensures r.status == "on-time" <==> x.time.hour < 9
  {
    AttendanceRecord(x.id, x.person, x.name, x.skill, ClockText(x.time), StatusOf(x.time), 95)
  }

  /** The rows of `day` as records, in the order the rows are given. */
  function TodayRecords(rows: seq<Presence>, day: int): (r: seq<AttendanceRecord>)
    requires forall x :: x in rows ==> ValidClock(x.time)
    ensures |r| <= |rows|
    ensures forall x :: x in rows && x.day == day ==> ToRecord(x) in r
    ensures forall a :: a in r ==> exists x :: x in rows && x.day == day && a == ToRecord(x)
    ensures forall a :: a in r ==> (a.status == "on-time" || a.status == "late")
    decreases |rows|
  {
    if |rows| == 0 then []
    else
      var rest := TodayRecords(rows[1..], day);
      assert forall x :: x in rows[1..] ==> x in rows;
      if rows[0].day == day then [ToRecord(rows[0])] + rest else rest
  }

  // ---------------------------------------------------------------- statistics

  /** `SELECT COUNT(*) FROM prs_mstr WHERE prs_active = 'Y'`: the number of
      employee rows marked active. */
  function CountActive(people: seq<Person>): (n: nat)
    ensures n <= |people|
    ensures n == |set i | 0 <= i < |people| && people[i].active|
    decreases |people|
  {
    if |people| == 0 then 0
    else
      var init := people[..|people| - 1];
      var last := people[|people| - 1];
      var before := set i | 0 <= i < |init| && init[i].active;
      var now := set i | 0 <= i < |people| && people[i].active;
      assert now == before + (if last.active then {|people| - 1} else {});
      CountActive(init) + (if last.active then 1 else 0)
  }

  /** The distinct employees with a row on `day`. */
  function PresentOn(rows: seq<Presence>, day: int): set<int>
  {
    set x | x in rows && x.day == day :: x.person
  }

  /** The distinct employees with a row on `day` later than 09:00:00. */
  function LateOn(rows: seq<Presence>, day: int): set<int>
  {
    set x | x in rows && x.day == day && SecondsOfDay(x.time) > 9 * 3600 :: x.person
  }

  /** `api_dashboard_stats`. */
  function DashboardStats(people: seq<Person>, rows: seq<Presence>, day: int): (s: Stats)
    ensures s.totalEmployees == CountActive(people)
    ensures s.todayPresent == |PresentOn(rows, day)|
    ensures s.lateArrivals == |LateOn(rows, day)|
    ensures 0 <= s.lateArrivals <= s.todayPresent
    ensures s.absentToday >= 0
    ensures s.absentToday == if s.totalEmployees >= s.todayPresent then s.totalEmployees - s.todayPresent else 0
  {
    var total := CountActive(people);
    var present := |PresentOn(rows, day)|;
    assert LateOn(rows, day) <= PresentOn(rows, day);
    SubsetCardinality(LateOn(rows, day), PresentOn(rows, day));
    Stats(total, present, |LateOn(rows, day)|, if total - present > 0 then total - present else 0)
  }

  lemma SubsetCardinality(a: set<int>, b: set<int>)
    requires a <= b
    ensures |a| <= |b|
  {
    assert b == a + (b - a);
  }

  /** The status rule and the late count disagree at exactly 09:00:00:
      that record is "late" but not counted among the late arrivals. */
  lemma StatusAndLateCountDisagreeAtNine(t: Clock)
    requires ValidClock(t)
    ensures StatusOf(t) == "late" <==> (SecondsOfDay(t) > 9 * 3600 || t == Clock(9, 0, 0))
  {
  }

  lemma NineOClockRecord(p: Person, x: Presence)
    requires p.active && x.person == p.nbr && x.time == Clock(9, 0, 0)
    ensures StatusOf(x.time) == "late"
    ensures DashboardStats([p], [x], x.day).lateArrivals == 0
    ensures DashboardStats([p], [x], x.day).todayPresent == 1
  {
    assert LateOn([x], x.day) == {};
    assert PresentOn([x], x.day) == {x.person};
  }

  // ---------------------------------------------------------------- next id

  function MaxNbr(people: seq<Person>): (m: int)
    requires |people| > 0
    ensures forall p :: p in people ==> p.nbr <= m
    ensures exists p :: p in people && p.nbr == m
    decreases |people|
  {
    if |people| == 1 then people[0].nbr
    else
      var rest := MaxNbr(people[1..]);
      assert forall p :: p in people ==> p == people[0] || p in people[1..];
      if people[0].nbr >= rest then people[0].nbr else rest
  }

  /** `get_next_employee_id`: one more than the largest number, 101 for an
      empty table. */
  function NextEmployeeId(people: seq<Person>): (r: int)
    ensures people == [] ==> r == 101
    ensures forall p :: p in people ==> p.nbr < r
    ensures people != [] ==> exists p :: p in people && p.nbr == r - 1
    ensures FindPerson(people, r).None?
  {
    if |people| == 0 then 101 else MaxNbr(people) + 1
  }

  // ---------------------------------------------------------------- the database

  class Database {
    var people: seq<Person>
    var absensi: seq<Presence>
    var history: seq<Access>
    /** The next value of the `absensi.id` auto-increment column. */
    var nextRowId: nat

    function State(): Tables
      reads this
    {
      Tables(people, absensi, history, nextRowId)
    }

    ghost predicate Valid()
      reads this
    {
      ValidTables(State())
    }

    constructor (employees: seq<Person>)
      ensures Valid() && people == employees && absensi == [] && history == [] && nextRowId == 1
    {
      people := employees;
      absensi := [];
      history := [];
      nextRowId := 1;
    }

    /** `api_clock_in`: look the employee up, look for a row of today, and
        insert one `absensi` and one `accs_hist` row when there is none. */
    method ClockIn(empId: Option<int>, lat: string, lng: string, today: int, now: Clock) returns (response: ClockInResponse)
      requires Valid() && ValidClock(now)
      modifies this
      ensures Valid()
      ensures (State(), response) == ClockInOn(old(State()), empId, lat, lng, today, now)
    {
      if empId.None? {
        return EmployeeNotFound;
      }
      var id := empId.value;
      var emp := FindPerson(people, id);
      if emp.None? {
        return EmployeeNotFound;
      }
      var existing := FirstPresence(absensi, id, today);
      if existing.Some? {
        return AlreadyCheckedIn(ClockText(existing.value.time));
      }
      absensi := absensi + [Presence(nextRowId, id, emp.value.name, emp.value.skill, today, now, lat, lng)];
      history := history + [Access(today, id)];
      nextRowId := nextRowId + 1;
      response := Recorded(id, emp.value.name, emp.value.skill, ClockText(now), today);
    }
  }
}
