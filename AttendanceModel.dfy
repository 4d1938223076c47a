/** The attendance record and the rules the record layer applies to it: field
    defaults, the pre-save hook, the `IsComplete` virtual and the two queries
    `getDateByRange` and `getInvalidLocations`.

    The schema and its hook spell fields differently (`WorkMode`/`workMode`,
    `IsCheckInIn`/`isCheckInValid`, `IsCheckInOut`/`isCheckOutValid`,
    `CheckIn`/`checkIn`, and an index on `employee`/`date` over fields named
    `Employee`/`Date`). The model uses one record type with the service's
    names, so the hook and the queries act on the fields the service writes. */
module AttendanceModel {
  import opened Wrappers
  import opened Calendar
  import opened Geo
  import opened Status
  import opened Rounding

  type EmployeeId = string

  datatype WorkMode = Office | WorkFromHome | Hybrid

  /** A check-in or check-out: when (milliseconds since the epoch) and where. */
  datatype Punch = Punch(time: int, latitude: Option<real>, longitude: Option<real>)

  /** One employee's attendance for one day. `workHours` is in hundredths of
      an hour (the source stores `x.yz` hours). */
  datatype AttendanceRecord = AttendanceRecord(
    employee: EmployeeId,
    date: Day,
    workMode: WorkMode,
    workLocation: Option<WorkLocation>,
    checkIn: Option<Punch>,
    checkOut: Option<Punch>,
    status: AttendanceStatus,
    workHours: int,
    isCheckInValid: bool,
    isCheckOutValid: bool)

  /** A fresh document with the schema defaults: status absent, no hours,
      both location flags true, no times and no work location. */
  function NewRecord(employee: EmployeeId, date: Day, mode: WorkMode): (r: AttendanceRecord)
    ensures r.employee == employee && r.date == date && r.workMode == mode
    ensures r.status == Absent && r.workHours == 0
    ensures r.isCheckInValid && r.isCheckOutValid
    ensures r.checkIn.None? && r.checkOut.None? && r.workLocation.None?
  {
    AttendanceRecord(employee, date, mode, None, None, None, Absent, 0, true, true)
  }

  /** The work mode a request or a document gets when none is given. */
  const DefaultWorkMode := Office

  /** A work mode that may have been left out, with its default applied. */
  function ModeOrDefault(mode: Option<WorkMode>): (m: WorkMode)
    ensures mode.None? ==> m == DefaultWorkMode
    ensures mode.Some? ==> m == mode.value
  {
    if mode.Some? then mode.value else DefaultWorkMode
  }

  const MillisPerCentiHour := 36000

  /** `Math.round(ms / 3600000 * 100)`: the span in hundredths of an hour,
      rounded to nearest with halves up. */
  function CentiHours(ms: int): (h: int)
    ensures 2 * MillisPerCentiHour * h - MillisPerCentiHour <= 2 * ms < 2 * MillisPerCentiHour * h + MillisPerCentiHour
  {
    RoundHalfUp(ms, MillisPerCentiHour)
  }

  /** Eight and a half hours are 8.50 hours; nine minutes are 0.15 hours. */
  lemma CentiHoursExamples()
    ensures CentiHours(8 * 3600000 + 30 * 60000) == 850
    ensures CentiHours(9 * 60000) == 15
  {
    RoundHalfUpUnique(8 * 3600000 + 30 * 60000, MillisPerCentiHour, 850);
    RoundHalfUpUnique(9 * 60000, MillisPerCentiHour, 15);
  }

  /** The pre-save hook: recompute `workHours` when both times are present,
      and force both location flags to true for work from home. */
  function SaveHook(r: AttendanceRecord): (s: AttendanceRecord)
    ensures r.checkIn.Some? && r.checkOut.Some? ==>
              s.workHours == CentiHours(r.checkOut.value.time - r.checkIn.value.time)
    ensures r.checkIn.None? || r.checkOut.None? ==> s.workHours == r.workHours
    ensures r.workMode == WorkFromHome ==> s.isCheckInValid && s.isCheckOutValid
    ensures r.workMode != WorkFromHome ==>
              s.isCheckInValid == r.isCheckInValid && s.isCheckOutValid == r.isCheckOutValid
    ensures s == r.(workHours := s.workHours, isCheckInValid := s.isCheckInValid, isCheckOutValid := s.isCheckOutValid)
  {
    var timed :=
      if r.checkIn.Some? && r.checkOut.Some? then
        r.(workHours := CentiHours(r.checkOut.value.time - r.checkIn.value.time))
      else r;
    if timed.workMode == WorkFromHome then timed.(isCheckInValid := true, isCheckOutValid := true)
    else timed
  }

  /** Saving a second time changes nothing. */
  lemma SaveHookIdempotent(r: AttendanceRecord)
    ensures SaveHook(SaveHook(r)) == SaveHook(r)
  {
  }

  /** `IsComplete`: both location checks passed. */
  predicate IsComplete(r: AttendanceRecord): (complete: bool)
    ensures complete <==> r.isCheckInValid && r.isCheckOutValid
  {
    r.isCheckInValid && r.isCheckOutValid
  }

  /** Every saved work-from-home record is complete. */
  lemma SavedWorkFromHomeIsComplete(r: AttendanceRecord)
    requires r.workMode == WorkFromHome
    ensures IsComplete(SaveHook(r))
  {
  }

  /** An office record is incomplete after saving exactly when one of its
      location checks failed. */
  lemma SavedOfficeCompleteness(r: AttendanceRecord)
    requires r.workMode == Office
    ensures IsComplete(SaveHook(r)) <==> r.isCheckInValid && r.isCheckOutValid
  {
  }

  /** The records of `s` that satisfy `keep`, in their original order. */
  function Select(s: seq<AttendanceRecord>, keep: AttendanceRecord -> bool): (t: seq<AttendanceRecord>)
    ensures |t| <= |s|
    ensures forall r :: multiset(t)[r] == if keep(r) then multiset(s)[r] else 0
    ensures forall i :: 0 <= i < |t| ==> keep(t[i])
  {
    if s == [] then []
    else
      var rest := Select(s[1..], keep);
      assert s == [s[0]] + s[1..];
      if keep(s[0]) then [s[0]] + rest else rest
  }

  /** Selecting from a sequence with one more record in front. */
  lemma SelectCons(y: AttendanceRecord, s: seq<AttendanceRecord>, keep: AttendanceRecord -> bool)
    ensures Select([y] + s, keep) == (if keep(y) then [y] else []) + Select(s, keep)
  {
    assert ([y] + s)[0] == y && ([y] + s)[1..] == s;
  }

  /** Selecting from a sequence extended by one record extends the selection
      by that record when it is kept. */
  lemma {:induction false} SelectSnoc(s: seq<AttendanceRecord>, x: AttendanceRecord, keep: AttendanceRecord -> bool)
    ensures Select(s + [x], keep) == Select(s, keep) + (if keep(x) then [x] else [])
  {
    if s == [] {
      assert s + [x] == [x] + [];
      SelectCons(x, [], keep);
    } else {
      var y, rest := s[0], s[1..];
      var head, last := (if keep(y) then [y] else []), (if keep(x) then [x] else []);
      calc {
        Select(s + [x], keep);
        == { assert s + [x] == [y] + (rest + [x]); SelectCons(y, rest + [x], keep); }
        head + Select(rest + [x], keep);
        == { SelectSnoc(rest, x, keep); }
        head + (Select(rest, keep) + last);
        (head + Select(rest, keep)) + last;
        == { assert s == [y] + rest; SelectCons(y, rest, keep); }
        Select(s, keep) + last;
      }
    }
  }

  /** Newest-first or oldest-first order of record dates. */
  predicate InOrder(a: AttendanceRecord, b: AttendanceRecord, newestFirst: bool) {
    if newestFirst then DayLe(b.date, a.date) else DayLe(a.date, b.date)
  }

  predicate Ordered(s: seq<AttendanceRecord>, newestFirst: bool) {
    forall i, j :: 0 <= i < j < |s| ==> InOrder(s[i], s[j], newestFirst)
  }

  function Insert(r: AttendanceRecord, s: seq<AttendanceRecord>, newestFirst: bool): (t: seq<AttendanceRecord>)
    requires Ordered(s, newestFirst)
    ensures Ordered(t, newestFirst)
    ensures multiset(t) == multiset(s) + multiset{r}
  {
    if s == [] then [r]
    else if InOrder(r, s[0], newestFirst) then
      InsertFront(r, s, newestFirst);
      [r] + s
    else
      var rest := Insert(r, s[1..], newestFirst);
      assert s == [s[0]] + s[1..];
      InsertBehind(r, s, rest, newestFirst);
      [s[0]] + rest
  }

  /** Records of one order relate through the first record. */
  lemma InOrderTransitive(a: AttendanceRecord, b: AttendanceRecord, c: AttendanceRecord, newestFirst: bool)
    requires InOrder(a, b, newestFirst) && InOrder(b, c, newestFirst)
    ensures InOrder(a, c, newestFirst)
  {
    if newestFirst {
      DayLeTransitive(c.date, b.date, a.date);
    } else {
      DayLeTransitive(a.date, b.date, c.date);
    }
  }

  lemma InsertFront(r: AttendanceRecord, s: seq<AttendanceRecord>, newestFirst: bool)
    requires Ordered(s, newestFirst) && s != [] && InOrder(r, s[0], newestFirst)
    ensures Ordered([r] + s, newestFirst)
  {
    var t := [r] + s;
    forall i, j | 0 <= i < j < |t| ensures InOrder(t[i], t[j], newestFirst) {
      if i == 0 && j > 1 {
        InOrderTransitive(r, s[0], s[j - 1], newestFirst);
      }
    }
  }

  lemma InsertBehind(r: AttendanceRecord, s: seq<AttendanceRecord>, rest: seq<AttendanceRecord>, newestFirst: bool)
    requires Ordered(s, newestFirst) && s != [] && !InOrder(r, s[0], newestFirst)
    requires Ordered(rest, newestFirst)
    requires multiset(rest) == multiset(s[1..]) + multiset{r}
    ensures Ordered([s[0]] + rest, newestFirst)
  {
    var t := [s[0]] + rest;
    DayLeTotal(r.date, s[0].date);
    forall i, j | 0 <= i < j < |t| ensures InOrder(t[i], t[j], newestFirst) {
      if i == 0 {
        var x := rest[j - 1];
        assert x in multiset(rest);
        if x != r {
          assert x in multiset(s[1..]);
          var k :| 0 <= k < |s[1..]| && s[1..][k] == x;
          assert s[k + 1] == x;
        }
      }
    }
  }

  /** `.sort('date')` and `.sort('-date')`. */
  function SortByDate(s: seq<AttendanceRecord>, newestFirst: bool): (t: seq<AttendanceRecord>)
    ensures Ordered(t, newestFirst)
    ensures multiset(t) == multiset(s)
  {
    if s == [] then []
    else
      assert s == [s[0]] + s[1..];
      Insert(s[0], SortByDate(s[1..], newestFirst), newestFirst)
  }

  predicate IsFor(r: AttendanceRecord, employee: EmployeeId, start: Day, end: Day) {
    r.employee == employee && InRange(r.date, start, end)
  }

  /** The query `{ employee, date: { $gte: start, $lte: end } }`, in store order. */
  function FindInRange(collection: seq<AttendanceRecord>, employee: EmployeeId, start: Day, end: Day): (t: seq<AttendanceRecord>)
    ensures forall r :: multiset(t)[r] == if IsFor(r, employee, start, end) then multiset(collection)[r] else 0
  {
    Select(collection, r => IsFor(r, employee, start, end))
  }

  /** `getDateByRange`: the employee's records dated within [start, end], oldest first. */
  function GetDateByRange(collection: seq<AttendanceRecord>, employee: EmployeeId, start: Day, end: Day): (t: seq<AttendanceRecord>)
    ensures Ordered(t, false)
    ensures forall r :: multiset(t)[r] == if IsFor(r, employee, start, end) then multiset(collection)[r] else 0
    ensures forall r :: r in t <==> r in collection && IsFor(r, employee, start, end)
  {
    var found := FindInRange(collection, employee, start, end);
    var t := SortByDate(found, false);
    assert forall r :: r in t <==> r in multiset(found);
    t
  }

  /** An office record with at least one failed location check: the
      incomplete office records. */
  predicate HasInvalidLocation(r: AttendanceRecord): (invalid: bool)
    ensures invalid <==> r.workMode == Office && !IsComplete(r)
    ensures r.workMode != Office ==> !invalid
  {
    r.workMode == Office && (!r.isCheckInValid || !r.isCheckOutValid)
  }

  /** `getInvalidLocations`: office records with a failed location check that
      also pass the caller's extra filters, newest first. */
  function GetInvalidLocations(collection: seq<AttendanceRecord>, filters: AttendanceRecord -> bool): (t: seq<AttendanceRecord>)
    ensures Ordered(t, true)
    ensures forall r :: multiset(t)[r] == if HasInvalidLocation(r) && filters(r) then multiset(collection)[r] else 0
    ensures forall r :: r in t <==> r in collection && HasInvalidLocation(r) && filters(r)
  {
    var found := Select(collection, r => HasInvalidLocation(r) && filters(r));
    var t := SortByDate(found, true);
    assert forall r :: r in t <==> r in multiset(found);
    t
  }
}
