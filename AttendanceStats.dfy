/** Statistics over an employee's records (`getStats`) and the monthly
    report built on them (`getMonthlyReport`). Hours are hundredths of an
    hour, so totals and averages are integers. */
module AttendanceStats {
  import opened Wrappers
  import opened Calendar
  import opened Status
  import opened Rounding
  import opened AttendanceModel

  datatype Stats = Stats(
    totalDays: nat,
    present: nat,
    absent: nat,
    late: nat,
    halfDay: nat,
    onLeave: nat,
    totalWorkHours: int,
    avgWorkHours: int,
    invalidCheckIns: nat,
    invalidCheckOuts: nat,
    officeDays: nat,
    wfhDays: nat,
    hybridDays: nat)

  /** The counters before any record is seen, for `totalDays` records. */
  function Start(totalDays: nat): Stats {
    Stats(totalDays, 0, 0, 0, 0, 0, 0, 0, 0, 0, 0, 0, 0)
  }

  function Flag(b: bool): nat {
    if b then 1 else 0
  }

  /** One step of the `forEach`: a holiday is counted under no status, and
      only office records can count as invalid. */
  function Count(acc: Stats, r: AttendanceRecord): (next: Stats)
    ensures next.totalDays == acc.totalDays && next.avgWorkHours == acc.avgWorkHours
    ensures next.totalWorkHours == acc.totalWorkHours + r.workHours
    ensures next.present + next.absent + next.late + next.halfDay + next.onLeave ==
            acc.present + acc.absent + acc.late + acc.halfDay + acc.onLeave + (if r.status == Holiday then 0 else 1)
    ensures next.officeDays + next.wfhDays + next.hybridDays == acc.officeDays + acc.wfhDays + acc.hybridDays + 1
    ensures next.invalidCheckIns - acc.invalidCheckIns <= next.officeDays - acc.officeDays
    ensures next.invalidCheckOuts - acc.invalidCheckOuts <= next.officeDays - acc.officeDays
  {
    Stats(
      acc.totalDays,
      acc.present + Flag(r.status == Present),
      acc.absent + Flag(r.status == Absent),
      acc.late + Flag(r.status == Late),
      acc.halfDay + Flag(r.status == HalfDay),
      acc.onLeave + Flag(r.status == OnLeave),
      acc.totalWorkHours + r.workHours,
      acc.avgWorkHours,
      acc.invalidCheckIns + Flag(r.workMode == Office && !r.isCheckInValid),
      acc.invalidCheckOuts + Flag(r.workMode == Office && !r.isCheckOutValid),
      acc.officeDays + Flag(r.workMode == Office),
      acc.wfhDays + Flag(r.workMode == WorkFromHome),
      acc.hybridDays + Flag(r.workMode == Hybrid))
  }

  /** Number of holiday records: the one status the counters skip. */
  function Holidays(records: seq<AttendanceRecord>): nat {
    if records == [] then 0
    else Holidays(records[..|records| - 1]) + (if records[|records| - 1].status == Holiday then 1 else 0)
  }

  /** The counters after the `forEach` over `records`, in order. */
  function Tally(records: seq<AttendanceRecord>, totalDays: nat): (s: Stats)
    ensures s.totalDays == totalDays && s.avgWorkHours == 0
  {
    if records == [] then Start(totalDays)
    else Count(Tally(records[..|records| - 1], totalDays), records[|records| - 1])
  }

  /** What the counters add up to: every record is counted under one status
      unless it is a holiday, under exactly one work mode, and as invalid only
      when it is an office record. */
  lemma {:induction false} TallyInvariants(records: seq<AttendanceRecord>, totalDays: nat)
    ensures var s := Tally(records, totalDays);
            s.totalDays == totalDays && s.avgWorkHours == 0 &&
            s.present + s.absent + s.late + s.halfDay + s.onLeave + Holidays(records) == |records| &&
            s.officeDays + s.wfhDays + s.hybridDays == |records| &&
            s.invalidCheckIns <= s.officeDays && s.invalidCheckOuts <= s.officeDays
  {
    if records != [] {
      TallyInvariants(records[..|records| - 1], totalDays);
    }
  }

  /** Filters naming what each counter counts. */
  function StatusIs(status: AttendanceStatus): AttendanceRecord -> bool {
    (r: AttendanceRecord) => r.status == status
  }

  function ModeIs(mode: WorkMode): AttendanceRecord -> bool {
    (r: AttendanceRecord) => r.workMode == mode
  }

  predicate FailedCheckIn(r: AttendanceRecord) {
    r.workMode == Office && !r.isCheckInValid
  }

  predicate FailedCheckOut(r: AttendanceRecord) {
    r.workMode == Office && !r.isCheckOutValid
  }

  /** The work hours of all records, added from the front. */
  function SumHours(records: seq<AttendanceRecord>): int {
    if records == [] then 0 else records[0].workHours + SumHours(records[1..])
  }

  lemma {:induction false} SumHoursSnoc(records: seq<AttendanceRecord>, x: AttendanceRecord)
    ensures SumHours(records + [x]) == SumHours(records) + x.workHours
  {
    if records != [] {
      assert (records + [x])[1..] == records[1..] + [x];
      SumHoursSnoc(records[1..], x);
    }
  }

  /** One more record adds one to a filter's count exactly when it is kept. */
  lemma SelectCountSnoc(records: seq<AttendanceRecord>, x: AttendanceRecord, keep: AttendanceRecord -> bool)
    ensures |Select(records + [x], keep)| == |Select(records, keep)| + Flag(keep(x))
  {
    SelectSnoc(records, x, keep);
  }

  /** A counter that each record moves by one exactly when `keep` holds
      ends at the number of records `keep` selects. */
  lemma {:induction false} TallyCounter(records: seq<AttendanceRecord>, totalDays: nat,
                                        counter: Stats -> int, keep: AttendanceRecord -> bool)
    requires counter(Start(totalDays)) == 0
    requires forall acc, r :: counter(Count(acc, r)) == counter(acc) + Flag(keep(r))
    ensures counter(Tally(records, totalDays)) == |Select(records, keep)|
  {
    if records != [] {
      var front, x := records[..|records| - 1], records[|records| - 1];
      assert records == front + [x];
      TallyCounter(front, totalDays, counter, keep);
      SelectCountSnoc(front, x, keep);
    }
  }

  /** The work-hours total is the sum of the records' hours. */
  lemma {:induction false} TallyHours(records: seq<AttendanceRecord>, totalDays: nat)
    ensures Tally(records, totalDays).totalWorkHours == SumHours(records)
  {
    if records != [] {
      var front, x := records[..|records| - 1], records[|records| - 1];
      assert records == front + [x];
      TallyHours(front, totalDays);
      SumHoursSnoc(front, x);
    }
  }

  /** Each counter is the number of records its filter selects, and the total
      is the sum of the records' work hours. */
  lemma TallyCounts(records: seq<AttendanceRecord>, totalDays: nat)
    ensures var s := Tally(records, totalDays);
            s.present == |Select(records, StatusIs(Present))| &&
            s.absent == |Select(records, StatusIs(Absent))| &&
            s.late == |Select(records, StatusIs(Late))| &&
            s.halfDay == |Select(records, StatusIs(HalfDay))| &&
            s.onLeave == |Select(records, StatusIs(OnLeave))| &&
            s.officeDays == |Select(records, ModeIs(Office))| &&
            s.wfhDays == |Select(records, ModeIs(WorkFromHome))| &&
            s.hybridDays == |Select(records, ModeIs(Hybrid))| &&
            s.invalidCheckIns == |Select(records, FailedCheckIn)| &&
            s.invalidCheckOuts == |Select(records, FailedCheckOut)| &&
            s.totalWorkHours == SumHours(records)
  {
    TallyCounter(records, totalDays, (s: Stats) => s.present, StatusIs(Present));
    TallyCounter(records, totalDays, (s: Stats) => s.absent, StatusIs(Absent));
    TallyCounter(records, totalDays, (s: Stats) => s.late, StatusIs(Late));
    TallyCounter(records, totalDays, (s: Stats) => s.halfDay, StatusIs(HalfDay));
    TallyCounter(records, totalDays, (s: Stats) => s.onLeave, StatusIs(OnLeave));
    TallyCounter(records, totalDays, (s: Stats) => s.officeDays, ModeIs(Office));
    TallyCounter(records, totalDays, (s: Stats) => s.wfhDays, ModeIs(WorkFromHome));
    TallyCounter(records, totalDays, (s: Stats) => s.hybridDays, ModeIs(Hybrid));
    TallyCounter(records, totalDays, (s: Stats) => s.invalidCheckIns, FailedCheckIn);
    TallyCounter(records, totalDays, (s: Stats) => s.invalidCheckOuts, FailedCheckOut);
    TallyHours(records, totalDays);
  }

  /** The statistics `getStats` returns for the fetched records. */
  function Summarize(records: seq<AttendanceRecord>): (s: Stats)
    ensures s.totalDays == |records|
    ensures s.present == |Select(records, StatusIs(Present))| && s.absent == |Select(records, StatusIs(Absent))|
    ensures s.late == |Select(records, StatusIs(Late))| && s.halfDay == |Select(records, StatusIs(HalfDay))|
    ensures s.onLeave == |Select(records, StatusIs(OnLeave))|
    ensures s.officeDays == |Select(records, ModeIs(Office))| && s.wfhDays == |Select(records, ModeIs(WorkFromHome))|
    ensures s.hybridDays == |Select(records, ModeIs(Hybrid))|
    ensures s.invalidCheckIns == |Select(records, FailedCheckIn)| && s.invalidCheckOuts == |Select(records, FailedCheckOut)|
    ensures s.totalWorkHours == SumHours(records)
    ensures s.present + s.absent + s.late + s.halfDay + s.onLeave <= s.totalDays
    ensures s.officeDays + s.wfhDays + s.hybridDays == s.totalDays
    ensures s.invalidCheckIns <= s.officeDays && s.invalidCheckOuts <= s.officeDays
    ensures s.totalDays == 0 ==> s.avgWorkHours == 0 && s.totalWorkHours == 0
    ensures s.totalDays > 0 ==>
              2 * s.totalDays * s.avgWorkHours - s.totalDays <= 2 * s.totalWorkHours < 2 * s.totalDays * s.avgWorkHours + s.totalDays
  {
    var t := Tally(records, |records|);
    TallyInvariants(records, |records|);
    TallyCounts(records, |records|);
    if |records| > 0 then t.(avgWorkHours := RoundHalfUp(t.totalWorkHours, |records|)) else t
  }

  /** Two records can be counted in either order. */
  lemma CountCommutes(acc: Stats, a: AttendanceRecord, b: AttendanceRecord)
    ensures Count(Count(acc, a), b) == Count(Count(acc, b), a)
  {
  }

  /** Counting all of `s` is counting `s` without its i-th record, then that record. */
  lemma {:induction false} TallyRemove(s: seq<AttendanceRecord>, i: nat, totalDays: nat)
    requires i < |s|
    ensures Tally(s, totalDays) == Count(Tally(s[..i] + s[i + 1..], totalDays), s[i])
  {
    var n := |s|;
    if i < n - 1 {
      var front := s[..n - 1];
      assert front[..i] + front[i + 1..] + [s[n - 1]] == s[..i] + s[i + 1..];
      assert (s[..i] + s[i + 1..])[..n - 2] == front[..i] + front[i + 1..];
      TallyRemove(front, i, totalDays);
      CountCommutes(Tally(front[..i] + front[i + 1..], totalDays), s[i], s[n - 1]);
    } else {
      assert s[..i] + s[i + 1..] == s[..n - 1];
    }
  }

  /** The statistics do not depend on the order the store returns records in. */
  lemma {:induction false} TallyPermutation(a: seq<AttendanceRecord>, b: seq<AttendanceRecord>, totalDays: nat)
    requires multiset(a) == multiset(b)
    ensures Tally(a, totalDays) == Tally(b, totalDays)
  {
    if a != [] {
      var n := |a|;
      var last := a[n - 1];
      assert a == a[..n - 1] + [last];
      assert last in multiset(b);
      var i :| 0 <= i < |b| && b[i] == last;
      assert b == b[..i] + [last] + b[i + 1..];
      assert multiset(b) == multiset(b[..i] + b[i + 1..]) + multiset{last};
      assert multiset(a) == multiset(a[..n - 1]) + multiset{last};
      assert multiset(a[..n - 1]) == multiset(a) - multiset{last};
      assert multiset(b[..i] + b[i + 1..]) == multiset(b) - multiset{last};
      TallyPermutation(a[..n - 1], b[..i] + b[i + 1..], totalDays);
      TallyRemove(b, i, totalDays);
    } else {
      assert b == [];
    }
  }

  lemma SummarizePermutation(a: seq<AttendanceRecord>, b: seq<AttendanceRecord>)
    requires multiset(a) == multiset(b)
    ensures Summarize(a) == Summarize(b)
  {
    assert |a| == |multiset(a)| == |b|;
    TallyPermutation(a, b, |a|);
  }

  /** Every record's hours lie in [0, cap]. */
  predicate HoursWithin(records: seq<AttendanceRecord>, cap: int) {
    forall i :: 0 <= i < |records| ==> 0 <= records[i].workHours <= cap
  }

  lemma {:induction false} TotalHoursWithin(records: seq<AttendanceRecord>, cap: int, totalDays: nat)
    requires HoursWithin(records, cap)
    ensures 0 <= Tally(records, totalDays).totalWorkHours <= cap * |records|
  {
    if records != [] {
      var n := |records|;
      TotalHoursWithin(records[..n - 1], cap, totalDays);
      assert cap * n == cap * (n - 1) + cap;
    }
  }

  /** When every day worked between 0 and `cap` hundredths, so did the average. */
  lemma AverageWithin(records: seq<AttendanceRecord>, cap: int)
    requires |records| > 0 && HoursWithin(records, cap)
    ensures 0 <= Summarize(records).avgWorkHours <= cap
  {
    var n := |records|;
    var total := Tally(records, n).totalWorkHours;
    TotalHoursWithin(records, cap, n);
    RoundHalfUpMonotone(0, total, n);
    RoundHalfUpUnique(0, n, 0);
    RoundHalfUpMonotone(total, cap * n, n);
    RoundHalfUpUnique(cap * n, n, cap);
  }

  /** The body of the `forEach`: the counters one record moves. */
  method CountRecord(stats: Stats, record: AttendanceRecord) returns (next: Stats)
    ensures next == Count(stats, record)
  {
    next := stats;
    if record.status == Present {
      next := next.(present := next.present + 1);
    } else if record.status == Absent {
      next := next.(absent := next.absent + 1);
    } else if record.status == Late {
      next := next.(late := next.late + 1);
    } else if record.status == HalfDay {
      next := next.(halfDay := next.halfDay + 1);
    } else if record.status == OnLeave {
      next := next.(onLeave := next.onLeave + 1);
    }

    next := next.(totalWorkHours := next.totalWorkHours + record.workHours);

    if record.workMode == Office {
      next := next.(officeDays := next.officeDays + 1);
    } else if record.workMode == WorkFromHome {
      next := next.(wfhDays := next.wfhDays + 1);
    } else if record.workMode == Hybrid {
      next := next.(hybridDays := next.hybridDays + 1);
    }

    if record.workMode == Office {
      if !record.isCheckInValid {
        next := next.(invalidCheckIns := next.invalidCheckIns + 1);
      }
      if !record.isCheckOutValid {
        next := next.(invalidCheckOuts := next.invalidCheckOuts + 1);
      }
    }
  }

  /** The fetch of `getStats` followed by its one pass over the records. */
  method GetStats(collection: seq<AttendanceRecord>, employee: EmployeeId, start: Day, end: Day) returns (stats: Stats)
    ensures stats == Summarize(FindInRange(collection, employee, start, end))
    ensures stats.present + stats.absent + stats.late + stats.halfDay + stats.onLeave <= stats.totalDays
    ensures stats.officeDays + stats.wfhDays + stats.hybridDays == stats.totalDays
    ensures stats.invalidCheckIns <= stats.officeDays && stats.invalidCheckOuts <= stats.officeDays
  {
    var records := FindInRange(collection, employee, start, end);
    stats := Start(|records|);
    var i := 0;
    while i < |records|
      invariant 0 <= i <= |records|
      invariant stats == Tally(records[..i], |records|)
    {
      var record := records[i];
      assert records[..i + 1] == records[..i] + [record];
      stats := CountRecord(stats, record);
      i := i + 1;
    }
    assert records[..i] == records;

    if stats.totalDays > 0 {
      stats := stats.(avgWorkHours := RoundHalfUp(stats.totalWorkHours, stats.totalDays));
    }
  }

  /** `round(100 * (present + late) / totalDays)`, or 0 without records. */
  function AttendanceRate(s: Stats): (rate: int)
    ensures s.totalDays == 0 ==> rate == 0
    ensures s.present + s.late <= s.totalDays ==> 0 <= rate <= 100
    ensures s.totalDays > 0 ==>
              2 * s.totalDays * rate - s.totalDays <= 200 * (s.present + s.late) < 2 * s.totalDays * rate + s.totalDays
  {
    if s.totalDays > 0 then
      RateWithin(s.present + s.late, s.totalDays);
      RoundHalfUp(100 * (s.present + s.late), s.totalDays)
    else 0
  }

  /** A share of at most all days rounds to a percentage in 0..100. */
  lemma RateWithin(attended: nat, days: nat)
    requires days > 0
    ensures attended <= days ==> 0 <= RoundHalfUp(100 * attended, days) <= 100
  {
    if attended <= days {
      RoundHalfUpMonotone(0, 100 * attended, days);
      RoundHalfUpUnique(0, days, 0);
      RoundHalfUpMonotone(100 * attended, 100 * days, days);
      RoundHalfUpUnique(100 * days, days, 100);
    }
  }

  datatype Summary = Summary(totalWorkHours: int, officeDays: nat, wfhDays: nat, attendanceRate: int)

  datatype MonthlyReport = MonthlyReport(
    year: int,
    month: int,
    records: seq<AttendanceRecord>,
    stats: Stats,
    summary: Summary)

  /** `getMonthlyReport`: the month's records oldest first, their statistics
      and a summary with the attendance rate. */
  method GetMonthlyReport(collection: seq<AttendanceRecord>, employee: EmployeeId, year: int, month: int)
    returns (report: MonthlyReport)
    ensures var range := MonthRange(year, month);
            report.records == GetDateByRange(collection, employee, range.0, range.1) &&
            report.stats == Summarize(FindInRange(collection, employee, range.0, range.1))
    ensures report.year == year && report.month == month
    ensures Ordered(report.records, false)
    ensures forall r :: r in report.records ==>
              r.employee == employee && InRange(r.date, MonthRange(year, month).0, MonthRange(year, month).1)
    ensures report.stats == Summarize(report.records)
    ensures report.summary == Summary(report.stats.totalWorkHours, report.stats.officeDays, report.stats.wfhDays,
                                      AttendanceRate(report.stats))
    ensures 0 <= report.summary.attendanceRate <= 100
  {
    var range := MonthRange(year, month);
    var records := GetDateByRange(collection, employee, range.0, range.1);
    var stats := GetStats(collection, employee, range.0, range.1);
    var found := FindInRange(collection, employee, range.0, range.1);
    assert multiset(records) == multiset(found);
    SummarizePermutation(found, records);
    report := MonthlyReport(year, month, records, stats,
                            Summary(stats.totalWorkHours, stats.officeDays, stats.wfhDays, AttendanceRate(stats)));
  }

  /** Three records, present, late and absent, count one of each. */
  lemma ThreeDayExample(a: AttendanceRecord, b: AttendanceRecord, c: AttendanceRecord)
    requires a.status == Present && b.status == Late && c.status == Absent
    ensures var s := Summarize([a, b, c]);
            s.totalDays == 3 && s.present == 1 && s.late == 1 && s.absent == 1 &&
            s.totalWorkHours == a.workHours + b.workHours + c.workHours &&
            AttendanceRate(s) == 67
  {
    assert [a, b, c][..2] == [a, b];
    assert [a, b][..1] == [a];
    assert [a][..0] == [];
    assert Tally([a], 3) == Count(Start(3), a);
    assert Tally([a, b], 3) == Count(Tally([a], 3), b);
    assert Tally([a, b, c], 3) == Count(Tally([a, b], 3), c);
    RoundHalfUpUnique(200, 3, 67);
  }
}
