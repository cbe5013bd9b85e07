/** The dashboard page: today's attendance and the statistics, fetched
    together (and again every 30 seconds); statistics computed from the
    attendance list when the statistics call fails; a case-insensitive name
    search over the table; and the table's loading and empty states.

    A run of `fetchData` is three steps of `DashboardView`: `StartFetch`,
    then `AttendanceSettled` and `StatsSettled` with the service replies as
    parameters; `FetchData` runs them back to back. The mount effect and the
    30-second interval are whoever starts a run. */
module DashboardPage {
  import opened Common
  import opened Shared

  /** The reply of a service call: the data, or a rejected promise. */
  datatype Reply<T> = Ok(value: T) | Failed

  // ---------------------------------------------------------------- search

  /** Whether the record's name contains the search, ignoring case. */
  predicate Matches(a: AttendanceRecord, search: string)
  {
    Includes(ToLower(a.employeeName), ToLower(search))
  }

  /** `attendance.filter(...)` with `Matches`. */
  function Filtered(records: seq<AttendanceRecord>, search: string): (r: seq<AttendanceRecord>)
    ensures |r| <= |records|
    ensures forall a :: a in r ==> a in records && Matches(a, search)
    ensures forall a :: a in records && Matches(a, search) ==> a in r
    ensures forall a :: multiset(r)[a] == if Matches(a, search) then multiset(records)[a] else 0
    decreases |records|
  {
    if |records| == 0 then []
    else
      var rest := Filtered(records[1..], search);
      assert records == [records[0]] + records[1..];
      if Matches(records[0], search) then [records[0]] + rest else rest
  }

  /** Filtering a concatenation filters each part and keeps them in order;
      with `FilteredSingle` this says the filter keeps the matching records
      in their original order. */
  lemma {:induction false} FilteredAppend(a: seq<AttendanceRecord>, b: seq<AttendanceRecord>, search: string)
    ensures Filtered(a + b, search) == Filtered(a, search) + Filtered(b, search)
    decreases |a|
  {
    if |a| > 0 {
      assert (a + b)[0] == a[0];
      assert (a + b)[1..] == a[1..] + b;
      FilteredAppend(a[1..], b, search);
    } else {
      assert a + b == b;
    }
  }

  lemma FilteredSingle(x: AttendanceRecord, search: string)
    ensures Filtered([x], search) == if Matches(x, search) then [x] else []
  {
    assert [x][1..] == [];
  }

  /** An empty search keeps every record. */
  lemma {:induction false} EmptySearchKeepsAll(records: seq<AttendanceRecord>)
    ensures Filtered(records, "") == records
    decreases |records|
  {
    if |records| > 0 {
      IncludesEmpty(ToLower(records[0].employeeName));
      EmptySearchKeepsAll(records[1..]);
    }
  }

  /** The search ignores ASCII case on both sides. */
  lemma SearchIgnoresCase(records: seq<AttendanceRecord>, search: string)
    ensures Filtered(records, ToLower(search)) == Filtered(records, search)
  {
    assert ToLower(ToLower(search)) == ToLower(search);
    FilteredSameMatches(records, ToLower(search), search);
  }

  lemma {:induction false} FilteredSameMatches(records: seq<AttendanceRecord>, s1: string, s2: string)
    requires ToLower(s1) == ToLower(s2)
    ensures Filtered(records, s1) == Filtered(records, s2)
    decreases |records|
  {
    if |records| > 0 {
      FilteredSameMatches(records[1..], s1, s2);
    }
  }

  // ---------------------------------------------------------------- fallback statistics

  /** The number of records whose status is `late`. */
  function CountLate(records: seq<AttendanceRecord>): (n: nat)
    ensures n <= |records|
    ensures n == |set i | 0 <= i < |records| && records[i].status == "late"|
    decreases |records|
  {
    if |records| == 0 then 0
    else
      var init := records[..|records| - 1];
      var last := records[|records| - 1];
      var before := set i | 0 <= i < |init| && init[i].status == "late";
      var now := set i | 0 <= i < |records| && records[i].status == "late";
      assert now == before + (if last.status == "late" then {|records| - 1} else {});
      CountLate(init) + (if last.status == "late" then 1 else 0)
  }

  /** The statistics made from the attendance list when the statistics call
      fails, with the employee total fixed at 2. */
  function FallbackStats(records: seq<AttendanceRecord>): (s: Stats)
    ensures s.totalEmployees == 2
    ensures s.todayPresent == |records|
    ensures s.lateArrivals == CountLate(records) && 0 <= s.lateArrivals <= s.todayPresent
    ensures s.todayPresent + s.absentToday == s.totalEmployees
  {
    Stats(2, |records|, CountLate(records), 2 - |records|)
  }

  /** Unlike the backend's figure, the fallback absent count is not clamped:
      with three or more records it is negative. */
  lemma FallbackAbsentNegative(records: seq<AttendanceRecord>)
    ensures FallbackStats(records).absentToday < 0 <==> |records| > 2
  {
  }

  // ---------------------------------------------------------------- the table

  datatype TableView = Loading | EmptyMessage(text: string) | Rows(rows: seq<AttendanceRecord>)

  /** What the table body shows. */
  function TableBody(loading: bool, records: seq<AttendanceRecord>, search: string): (v: TableView)
    ensures loading <==> v.Loading?
    ensures !loading && Filtered(records, search) == [] ==>
              v == EmptyMessage(if search != "" then "No employees found" else "No attendance records today")
    ensures !loading && Filtered(records, search) != [] ==> v == Rows(Filtered(records, search))
    ensures v.Rows? ==> v.rows == Filtered(records, search) && v.rows != []
  {
    var filtered := Filtered(records, search);
    if loading then Loading
    else if |filtered| == 0 then EmptyMessage(if search != "" then "No employees found" else "No attendance records today")
    else Rows(filtered)
  }

  /** An empty table with no search says there is no attendance today. */
  lemma NoRecordsNoSearch(loading: bool)
    requires !loading
    ensures TableBody(loading, [], "") == EmptyMessage("No attendance records today")
  {
  }

  const LoadFailed := Toast("Error", "Failed to load dashboard data", true)

  // ---------------------------------------------------------------- the page

  /** Where a run of `fetchData` is: not running, awaiting the attendance
      list, or awaiting the statistics with the list it received. */
  datatype FetchPhase = Idle | AwaitingAttendance | AwaitingStats(data: seq<AttendanceRecord>)

  class DashboardView {
    var search: string
    var attendance: seq<AttendanceRecord>
    var stats: Stats
    var loading: bool
    var phase: FetchPhase

    ghost predicate Valid()
      reads this
    {
      (!phase.Idle? ==> loading) && (phase.AwaitingStats? ==> attendance == phase.data)
    }

    constructor ()
      ensures Valid()
      ensures search == "" && attendance == [] && stats == Stats(0, 0, 0, 0) && loading && phase.Idle?
    {
      search := "";
      attendance := [];
      stats := Stats(0, 0, 0, 0);
      loading := true;
      phase := Idle;
    }

    /** The search input; it may change while a fetch is pending. */
    method SetSearch(s: string)
      requires Valid()
      modifies this
      ensures Valid() && search == s
      ensures attendance == old(attendance) && stats == old(stats) && loading == old(loading) && phase == old(phase)
    {
      search := s;
    }

    /** `fetchData` up to its first `await`: loading starts and the
        attendance list is requested. The table shows its loading state. */
    method StartFetch()
      requires Valid() && phase.Idle?
      modifies this
      ensures Valid() && loading && phase == AwaitingAttendance
      ensures TableBody(loading, attendance, search) == Loading
      ensures search == old(search) && attendance == old(attendance) && stats == old(stats)
    {
      loading := true;
      phase := AwaitingAttendance;
    }

    /** The attendance request settled. A list replaces the table and the
        statistics are requested; a failure reports the error, keeps list
        and statistics, and ends the run (the `finally` clears loading). */
    method AttendanceSettled(reply: Reply<seq<AttendanceRecord>>) returns (statsCalled: bool, toast: Option<Toast>)
      requires Valid() && phase == AwaitingAttendance
      modifies this
      ensures Valid()
      ensures statsCalled <==> reply.Ok?
      ensures reply.Ok? ==>
                toast.None? && attendance == reply.value && loading && phase == AwaitingStats(reply.value)
      ensures reply.Failed? ==>
                toast == Some(LoadFailed) && attendance == old(attendance) && !loading && phase.Idle?
      ensures search == old(search) && stats == old(stats)
    {
      statsCalled, toast := false, None;
      if reply.Failed? {
        toast := Some(LoadFailed);
        loading := false;
        phase := Idle;
      } else {
        attendance := reply.value;
        statsCalled := true;
        phase := AwaitingStats(reply.value);
      }
    }

    /** The statistics request settled: its figures, or on failure the ones
        computed from the list this run received. The run ends. */
    method StatsSettled(reply: Reply<Stats>)
      requires Valid() && phase.AwaitingStats?
      modifies this
      ensures Valid() && !loading && phase.Idle?
      ensures reply.Ok? ==> stats == reply.value
      ensures reply.Failed? ==> stats == FallbackStats(old(phase).data)
      ensures search == old(search) && attendance == old(attendance)
    {
      if reply.Ok? {
        stats := reply.value;
      } else {
        stats := FallbackStats(phase.data);
      }
      loading := false;
      phase := Idle;
    }

    /** One run of `fetchData` with no other run or search edit in between:
        the attendance list first; the statistics call is made only when that
        succeeded. Loading ends in every case. */
    method FetchData(attendanceReply: Reply<seq<AttendanceRecord>>, statsReply: Reply<Stats>)
      returns (statsCalled: bool, toast: Option<Toast>)
      requires Valid() && phase.Idle?
      modifies this
      ensures Valid() && !loading && phase.Idle? && search == old(search)
      ensures statsCalled <==> attendanceReply.Ok?
      ensures attendanceReply.Failed? ==>
                toast == Some(LoadFailed) && attendance == old(attendance) && stats == old(stats)
      ensures attendanceReply.Ok? ==> toast.None? && attendance == attendanceReply.value
      ensures attendanceReply.Ok? && statsReply.Ok? ==> stats == statsReply.value
      ensures attendanceReply.Ok? && statsReply.Failed? ==> stats == FallbackStats(attendanceReply.value)
    {
      StartFetch();
      statsCalled, toast := AttendanceSettled(attendanceReply);
      if statsCalled {
        StatsSettled(statsReply);
      }
    }
  }
}
