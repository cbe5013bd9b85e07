/** Data that crosses between the backend and the pages: the attendance
    record the "today" endpoint produces and the pages display, the dashboard
    statistics, the wall-clock time of a record, and a toast notification. */
module Shared {
  import opened Common

  /** A time of day, as `datetime.now()` gives it and `'%H:%M:%S'` writes it. */
  datatype Clock = Clock(hour: nat, minute: nat, second: nat)

  predicate ValidClock(t: Clock)
  {
    t.hour < 24 && t.minute < 60 && t.second < 60
  }

  function SecondsOfDay(t: Clock): nat
  {
    t.hour * 3600 + t.minute * 60 + t.second
  }

  /** A number below 100 as two decimal digits, zero-padded. */
  function TwoDigits(n: nat): (s: string)
    requires n < 100
    ensures |s| == 2 && AllDigits(s) && DigitsValue(s) == n
  {
    var s := [DigitChar(n / 10), DigitChar(n % 10)];
    assert s[..1][..0] == [];
    assert DigitsValue(s[..1]) == n / 10;
    assert s[..|s| - 1] == s[..1];
    s
  }

  /** `strftime('%H:%M:%S')`: each field zero-padded to two digits that read
      back as that field. */
  function ClockText(t: Clock): (s: string)
    requires ValidClock(t)
    ensures |s| == 8 && s[2] == ':' && s[5] == ':'
    ensures AllDigits(s[0..2]) && DigitsValue(s[0..2]) == t.hour
    ensures AllDigits(s[3..5]) && DigitsValue(s[3..5]) == t.minute
    ensures AllDigits(s[6..8]) && DigitsValue(s[6..8]) == t.second
  {
    var h, m, x := TwoDigits(t.hour), TwoDigits(t.minute), TwoDigits(t.second);
    var s := h + ":" + m + ":" + x;
    assert s[0..2] == h && s[3..5] == m && s[6..8] == x;
    s
  }

  /** Different times of day never write the same text. */
  lemma ClockTextInjective(a: Clock, b: Clock)
    requires ValidClock(a) && ValidClock(b)
    ensures ClockText(a) == ClockText(b) ==> a == b
  {
  }

  /** One row of today's attendance as the pages receive it. */
  datatype AttendanceRecord = AttendanceRecord(
    id: nat,
    employeeId: int,
    employeeName: string,
    department: string,
    clockIn: string,
    status: string,
    confidence: int)

  datatype Stats = Stats(totalEmployees: int, todayPresent: int, lateArrivals: int, absentToday: int)

  /** A toast shown to the user; `destructive` is the red variant. */
  datatype Toast = Toast(title: string, description: string, destructive: bool)
}
