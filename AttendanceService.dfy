/** The check-in/check-out workflow of one employee-day (`checkIn`,
    `checkOut`). The pure functions `CheckInOutcome` and `CheckOutOutcome`
    define what a call answers and what it stores; the class `AttendanceBook`
    holds the records and performs the calls step by step.

    The clock is a parameter: `today` is the local midnight the service looks
    up, `now` the instant in milliseconds it stores, and `clock` the local hour
    and minute of that instant. The haversine distance is the `Metric` argument. */
module AttendanceService {
  import opened Wrappers
  import opened Calendar
  import opened Geo
  import opened Status
  import opened AttendanceModel

  /** The payload of a check-in request; `None` is a field left out. */
  datatype CheckInRequest = CheckInRequest(
    employee: EmployeeId,
    latitude: Option<real>,
    longitude: Option<real>,
    workMode: Option<WorkMode>,
    workLocation: Option<WorkLocation>,
    schedule: Schedule)
  {
    /** The work mode the request asks for, office when it is left out. */
    function Mode(): WorkMode {
      ModeOrDefault(workMode)
    }
  }

  datatype AttendanceError =
    | WorkLocationRequired    // 'Work location is required for office mode'
    | AlreadyCheckedIn        // 'Already checked in today'
    | NoRecordToday           // 'No check-in record found for today'
    | CheckOutBeforeCheckIn   // 'Cannot check out without checking in first'
    | AlreadyCheckedOut       // 'Already checked out today'
    | StoredLocationMissing   // an office record without a work location, checked out with coordinates

  datatype Message =
    | WorkFromHomeCheckIn
    | CheckedInAt(place: Option<string>)
    | CheckInOutsideArea
    | WorkFromHomeCheckOut
    | CheckedOut
    | CheckOutOutsideArea

  datatype CheckInReply = CheckInReply(success: bool, record: AttendanceRecord, validation: Validation, message: Message)

  datatype CheckOutReply = CheckOutReply(success: bool, record: AttendanceRecord, validation: Validation, workHours: int, message: Message)

  /** Office mode needs a work location with a (truthy) latitude. A request
      that leaves out its mode is an office request. */
  predicate MissingWorkLocation(req: CheckInRequest): (missing: bool)
    ensures missing ==> req.Mode() == Office
    ensures req.workMode.None? && req.workLocation.None? ==> missing
    ensures req.Mode() != Office || (req.workLocation.Some? && req.workLocation.value.latitude != 0.0) ==> !missing
  {
    req.Mode() == Office && (req.workLocation.None? || req.workLocation.value.latitude == 0.0)
  }

  predicate HasCheckedIn(existing: Option<AttendanceRecord>) {
    existing.Some? && existing.value.checkIn.Some?
  }

  /** The work location a new office record keeps, radius defaulted to 100. */
  function Snapshot(site: WorkLocation): (s: WorkLocation)
    ensures s.name == site.name && s.latitude == site.latitude && s.longitude == site.longitude
    ensures s.allowedRadius == Some(EffectiveRadius(site.allowedRadius))
  {
    site.(allowedRadius := Some(EffectiveRadius(site.allowedRadius)))
  }

  /** The check-in message: work from home first, then the validation
      decides between the place name and the outside-area notice. */
  function CheckInMessage(mode: WorkMode, validation: Validation, site: Option<WorkLocation>): (m: Message)
    ensures m == WorkFromHomeCheckIn <==> mode == WorkFromHome
    ensures mode != WorkFromHome && validation.valid ==> m.CheckedInAt? && (site.Some? ==> m.place == Some(site.value.name))
    ensures m == CheckInOutsideArea <==> mode != WorkFromHome && !validation.valid
  {
    if mode == WorkFromHome then WorkFromHomeCheckIn
    else if validation.valid then CheckedInAt(if site.Some? then Some(site.value.name) else None)
    else CheckInOutsideArea
  }

  /** The record a check-in starts from: today's record when one exists,
      otherwise a new one, which in office mode keeps a snapshot of the work
      location. */
  function CheckInBase(existing: Option<AttendanceRecord>, req: CheckInRequest, today: Day): (base: AttendanceRecord)
    requires !MissingWorkLocation(req)
    ensures existing.Some? ==> base == existing.value
    ensures existing.None? ==>
              base.employee == req.employee && base.date == today && base.workMode == req.Mode() &&
              base.workLocation == (if req.Mode() == Office then Some(Snapshot(req.workLocation.value)) else None) &&
              base.checkIn.None? && base.checkOut.None? && base.status == Absent && base.workHours == 0 &&
              base.isCheckInValid && base.isCheckOutValid
  {
    if existing.Some? then existing.value
    else
      var created := NewRecord(req.employee, today, req.Mode());
      if req.Mode() == Office then created.(workLocation := Some(Snapshot(req.workLocation.value))) else created
  }

  /** What `checkIn` answers and stores, given today's record if any. */
  function CheckInOutcome(existing: Option<AttendanceRecord>, req: CheckInRequest, today: Day, now: int, clock: Clock, distance: Metric)
    : (r: Result<CheckInReply, AttendanceError>)
    ensures r.Err? <==> MissingWorkLocation(req) || HasCheckedIn(existing)
    ensures MissingWorkLocation(req) ==> r == Err(WorkLocationRequired)
    ensures !MissingWorkLocation(req) && HasCheckedIn(existing) ==> r == Err(AlreadyCheckedIn)
    ensures r.Ok? ==>
              var rec := r.value.record;
              r.value.success &&
              rec.checkIn == Some(Punch(now, req.latitude, req.longitude)) &&
              rec.status == DetermineStatus(Some(clock), req.schedule) &&
              r.value.validation == (if req.Mode() == Office
                                     then ValidateLocation(req.latitude, req.longitude, req.workLocation.value, distance)
                                     else NotRequired) &&
              rec.isCheckInValid == ((req.Mode() != Office || r.value.validation.valid) || rec.workMode == WorkFromHome)
    ensures r.Ok? ==>
              r.value.record == SaveHook(CheckInBase(existing, req, today).(
                checkIn := Some(Punch(now, req.latitude, req.longitude)),
                status := DetermineStatus(Some(clock), req.schedule),
                isCheckInValid := req.Mode() != Office || r.value.validation.valid))
    ensures r.Ok? && req.Mode() == WorkFromHome ==> r.value.message == WorkFromHomeCheckIn
    ensures r.Ok? && req.Mode() != WorkFromHome && r.value.validation.valid ==>
              r.value.message.CheckedInAt? &&
              (req.workLocation.Some? ==> r.value.message.place == Some(req.workLocation.value.name))
    ensures r.Ok? && req.Mode() != WorkFromHome && !r.value.validation.valid ==> r.value.message == CheckInOutsideArea
    ensures r.Ok? && existing.Some? ==>
              var rec := r.value.record;
              rec.employee == existing.value.employee && rec.date == existing.value.date &&
              rec.workMode == existing.value.workMode && rec.workLocation == existing.value.workLocation &&
              rec.checkOut == existing.value.checkOut
    ensures r.Ok? && existing.None? ==>
              var rec := r.value.record;
              rec.employee == req.employee && rec.date == today && rec.workMode == req.Mode() &&
              rec.workLocation == (if req.Mode() == Office then Some(Snapshot(req.workLocation.value)) else None) &&
              rec.checkOut.None? && rec.workHours == 0 && rec.isCheckOutValid
  {
    if MissingWorkLocation(req) then Err(WorkLocationRequired)
    else if HasCheckedIn(existing) then Err(AlreadyCheckedIn)
    else
      var validation :=
        if req.Mode() == Office then ValidateLocation(req.latitude, req.longitude, req.workLocation.value, distance)
        else NotRequired;
      var updated := CheckInBase(existing, req, today).(
        checkIn := Some(Punch(now, req.latitude, req.longitude)),
        status := DetermineStatus(Some(clock), req.schedule),
        isCheckInValid := if req.Mode() == Office then validation.valid else true);
      Ok(CheckInReply(true, SaveHook(updated), validation, CheckInMessage(req.Mode(), validation, req.workLocation)))
  }

  /** `validateLocation` against the work location stored on the record. The
      source dereferences a missing work location only once both coordinates
      are present; that case is `None` (a TypeError in the source). */
  function StoredValidation(latitude: Option<real>, longitude: Option<real>, site: Option<WorkLocation>, distance: Metric)
    : (v: Option<Validation>)
    ensures v.None? <==> site.None? && Reported(latitude) && Reported(longitude)
    ensures !Reported(latitude) || !Reported(longitude) ==> v == Some(Validation(false, None, None, LocationNotProvided))
    ensures site.Some? ==> v == Some(ValidateLocation(latitude, longitude, site.value, distance))
    ensures v.Some? && v.value.valid ==> site.Some?
  {
    if !Reported(latitude) || !Reported(longitude) then Some(Validation(false, None, None, LocationNotProvided))
    else if site.None? then None
    else Some(ValidateLocation(latitude, longitude, site.value, distance))
  }

  /** The check-out message, decided the same way as at check-in. */
  function CheckOutMessage(mode: WorkMode, validation: Validation): (m: Message)
    ensures m == WorkFromHomeCheckOut <==> mode == WorkFromHome
    ensures m == CheckedOut <==> mode != WorkFromHome && validation.valid
    ensures m == CheckOutOutsideArea <==> mode != WorkFromHome && !validation.valid
  {
    if mode == WorkFromHome then WorkFromHomeCheckOut
    else if validation.valid then CheckedOut
    else CheckOutOutsideArea
  }

  /** What `checkOut` answers and stores, given today's record if any. */
  function CheckOutOutcome(existing: Option<AttendanceRecord>, latitude: Option<real>, longitude: Option<real>, now: int, distance: Metric)
    : (r: Result<CheckOutReply, AttendanceError>)
    ensures existing.None? ==> r == Err(NoRecordToday)
    ensures existing.Some? && existing.value.checkIn.None? ==> r == Err(CheckOutBeforeCheckIn)
    ensures existing.Some? && existing.value.checkIn.Some? && existing.value.checkOut.Some? ==> r == Err(AlreadyCheckedOut)
    ensures r.Ok? <==>
              HasCheckedIn(existing) && existing.value.checkOut.None? &&
              !(existing.value.workMode == Office && existing.value.workLocation.None? &&
                Reported(latitude) && Reported(longitude))
    ensures r == Err(StoredLocationMissing) <==>
              HasCheckedIn(existing) && existing.value.checkOut.None? && existing.value.workMode == Office &&
              existing.value.workLocation.None? && Reported(latitude) && Reported(longitude)
    ensures r.Ok? ==>
              var before := existing.value;
              var rec := r.value.record;
              r.value.success &&
              rec == SaveHook(before.(checkOut := rec.checkOut, isCheckOutValid := rec.isCheckOutValid)) &&
              rec.checkIn == before.checkIn && rec.status == before.status &&
              rec.checkOut == Some(Punch(now, latitude, longitude)) &&
              rec.workHours == CentiHours(now - before.checkIn.value.time) &&
              r.value.workHours == rec.workHours &&
              (before.workMode == Office ==>
                 Some(r.value.validation) == StoredValidation(latitude, longitude, before.workLocation, distance) &&
                 rec.isCheckOutValid == r.value.validation.valid) &&
              (before.workMode != Office ==> r.value.validation == NotRequired && rec.isCheckOutValid)
    ensures r.Ok? && existing.value.workMode == WorkFromHome ==> r.value.message == WorkFromHomeCheckOut
    ensures r.Ok? && existing.value.workMode != WorkFromHome ==>
              r.value.message == (if r.value.validation.valid then CheckedOut else CheckOutOutsideArea)
  {
    match existing
    case None => Err(NoRecordToday)
    case Some(rec) =>
      if rec.checkIn.None? then Err(CheckOutBeforeCheckIn)
      else if rec.checkOut.Some? then Err(AlreadyCheckedOut)
      else
        var checked := if rec.workMode == Office then StoredValidation(latitude, longitude, rec.workLocation, distance) else Some(NotRequired);
        if checked.None? then Err(StoredLocationMissing)
        else
          var validation := checked.value;
          var updated := rec.(
            checkOut := Some(Punch(now, latitude, longitude)),
            isCheckOutValid := if rec.workMode == Office then validation.valid else true);
          var saved := SaveHook(updated);
          Ok(CheckOutReply(true, saved, validation, saved.workHours, CheckOutMessage(rec.workMode, validation)))
  }

  /** Where an employee-day stands. */
  datatype DayState = NotStarted | CheckedInState | CheckedOutState

  function StateOf(r: Option<AttendanceRecord>): DayState {
    if r.None? || r.value.checkIn.None? then NotStarted
    else if r.value.checkOut.None? then CheckedInState
    else CheckedOutState
  }

  /** Check-in moves a day out of NotStarted only, check-out moves it from
      CheckedIn to CheckedOut only, and a checked-out day accepts neither. */
  lemma DayLifecycle(existing: Option<AttendanceRecord>, req: CheckInRequest, today: Day, now: int, clock: Clock,
                     latitude: Option<real>, longitude: Option<real>, distance: Metric)
    ensures CheckInOutcome(existing, req, today, now, clock, distance).Ok? ==>
              StateOf(existing) == NotStarted &&
              StateOf(Some(CheckInOutcome(existing, req, today, now, clock, distance).value.record)) ==
                (if existing.Some? && existing.value.checkOut.Some? then CheckedOutState else CheckedInState)
    ensures CheckOutOutcome(existing, latitude, longitude, now, distance).Ok? ==>
              StateOf(existing) == CheckedInState &&
              StateOf(Some(CheckOutOutcome(existing, latitude, longitude, now, distance).value.record)) == CheckedOutState
    ensures StateOf(existing) == CheckedInState &&
            (existing.value.workMode != Office || existing.value.workLocation.Some?) ==>
              CheckOutOutcome(existing, latitude, longitude, now, distance).Ok?
    ensures StateOf(existing) == CheckedOutState ==>
              CheckInOutcome(existing, req, today, now, clock, distance).Err? &&
              CheckOutOutcome(existing, latitude, longitude, now, distance).Err?
  {
  }

  /** A second check-in on the same day fails, whatever it asks for. */
  lemma SecondCheckInFails(existing: Option<AttendanceRecord>, req: CheckInRequest, today: Day, now: int, clock: Clock,
                           again: CheckInRequest, later: int, laterClock: Clock, distance: Metric)
    requires CheckInOutcome(existing, req, today, now, clock, distance).Ok?
    ensures var rec := CheckInOutcome(existing, req, today, now, clock, distance).value.record;
            CheckInOutcome(Some(rec), again, today, later, laterClock, distance) ==
              Err(if MissingWorkLocation(again) then WorkLocationRequired else AlreadyCheckedIn)
  {
  }

  /** The geofence never blocks a check-in: a request that passes the two
      guards succeeds for every distance function, and an out-of-radius office
      check-in is stored with its flag down. */
  lemma GeofenceIsAdvisory(existing: Option<AttendanceRecord>, req: CheckInRequest, today: Day, now: int, clock: Clock, distance: Metric)
    requires !MissingWorkLocation(req) && !HasCheckedIn(existing)
    requires req.Mode() == Office && Reported(req.latitude) && Reported(req.longitude)
    requires distance(req.latitude.value, req.longitude.value, req.workLocation.value.latitude, req.workLocation.value.longitude)
             > EffectiveRadius(req.workLocation.value.allowedRadius)
    requires existing.None? || existing.value.workMode != WorkFromHome
    ensures var r := CheckInOutcome(existing, req, today, now, clock, distance);
            r.Ok? && r.value.success && !r.value.record.isCheckInValid && r.value.message == CheckInOutsideArea
  {
  }

  /** Check-in overwrites a status set elsewhere, such as on-leave or holiday. */
  lemma CheckInOverridesStatus(existing: AttendanceRecord, req: CheckInRequest, today: Day, now: int, clock: Clock, distance: Metric)
    requires existing.checkIn.None? && !MissingWorkLocation(req)
    ensures var r := CheckInOutcome(Some(existing), req, today, now, clock, distance);
            r.Ok? && r.value.record.status in {Present, Late, HalfDay}
  {
  }

  /** The geofence never blocks a check-out: a checked-in day whose record
      keeps its work location checks out for every position and distance
      function, and an out-of-radius office check-out is stored with its flag
      down. */
  lemma CheckOutGeofenceIsAdvisory(existing: AttendanceRecord, latitude: Option<real>, longitude: Option<real>,
                                   now: int, distance: Metric)
    requires existing.checkIn.Some? && existing.checkOut.None?
    requires existing.workMode == Office && existing.workLocation.Some?
    requires Reported(latitude) && Reported(longitude)
    requires distance(latitude.value, longitude.value, existing.workLocation.value.latitude, existing.workLocation.value.longitude)
             > EffectiveRadius(existing.workLocation.value.allowedRadius)
    ensures var r := CheckOutOutcome(Some(existing), latitude, longitude, now, distance);
            r.Ok? && r.value.success && !r.value.record.isCheckOutValid && r.value.message == CheckOutOutsideArea
  {
  }

  /** A day checked in at `now` and checked out `span` milliseconds later
      records `span` in hundredths of an hour; 09:00 to 17:30 gives 8.50. */
  lemma CheckInThenCheckOut(req: CheckInRequest, today: Day, now: int, clock: Clock, span: int,
                            latitude: Option<real>, longitude: Option<real>, distance: Metric)
    requires !MissingWorkLocation(req)
    ensures var first := CheckInOutcome(None, req, today, now, clock, distance);
            first.Ok? &&
            var second := CheckOutOutcome(Some(first.value.record), latitude, longitude, now + span, distance);
            second.Ok? && second.value.workHours == CentiHours(span) &&
            (span == 30600000 ==> second.value.workHours == 850)
  {
    CentiHoursExamples();
  }

  /** Today's record of one employee. */
  datatype Key = Key(employee: EmployeeId, date: Day)

  /** Every record sits under its own (employee, date): the unique index. */
  ghost predicate KeyedByEmployeeDay(records: map<Key, AttendanceRecord>) {
    forall k :: k in records ==> records[k].employee == k.employee && records[k].date == k.date
  }

  /** The attendance collection, one record per employee and day. */
  class AttendanceBook {
    var records: map<Key, AttendanceRecord>

    ghost predicate Valid()
      reads this
    {
      KeyedByEmployeeDay(records)
    }

    /** Starts from records written elsewhere (for example leave management). */
    constructor (initial: map<Key, AttendanceRecord>)
      requires KeyedByEmployeeDay(initial)
      ensures Valid() && records == initial
    {
      records := initial;
    }

    /** At most one record exists for each employee and day. */
    lemma OnePerEmployeeDay(k1: Key, k2: Key)
      requires Valid() && k1 in records && k2 in records
      requires records[k1].employee == records[k2].employee && records[k1].date == records[k2].date
      ensures k1 == k2
    {
    }

    /** `findOne({ employee, date })`. */
    function Find(employee: EmployeeId, date: Day): (r: Option<AttendanceRecord>)
      reads this
      requires Valid()
      ensures r.Some? <==> Key(employee, date) in records
      ensures r.Some? ==> r.value == records[Key(employee, date)] && r.value.employee == employee && r.value.date == date
    {
      if Key(employee, date) in records then Some(records[Key(employee, date)]) else None
    }

    /** `save()`: runs the pre-save hook and writes the record under its key. */
    method Save(record: AttendanceRecord) returns (saved: AttendanceRecord)
      requires Valid()
      modifies this
      ensures Valid()
      ensures saved == SaveHook(record)
      ensures records == old(records)[Key(record.employee, record.date) := saved]
    {
      saved := SaveHook(record);
      records := records[Key(record.employee, record.date) := saved];
    }

    method CheckIn(req: CheckInRequest, today: Day, now: int, clock: Clock, distance: Metric)
      returns (result: Result<CheckInReply, AttendanceError>)
      requires Valid()
      modifies this
      ensures Valid()
      ensures result == CheckInOutcome(old(Find(req.employee, today)), req, today, now, clock, distance)
      ensures result.Ok? ==> records == old(records)[Key(req.employee, today) := result.value.record]
      ensures result.Err? ==> records == old(records)
    {
      if req.Mode() == Office && (req.workLocation.None? || req.workLocation.value.latitude == 0.0) {
        return Err(WorkLocationRequired);
      }
      var attendance := Find(req.employee, today);
      if attendance.Some? && attendance.value.checkIn.Some? {
        return Err(AlreadyCheckedIn);
      }

      var validation := NotRequired;
      if req.Mode() == Office {
        validation := ValidateLocation(req.latitude, req.longitude, req.workLocation.value, distance);
      }
      var status := DetermineStatus(Some(clock), req.schedule);

      var record: AttendanceRecord;
      if attendance.None? {
        record := NewRecord(req.employee, today, req.Mode());
        if req.Mode() == Office {
          record := record.(workLocation := Some(Snapshot(req.workLocation.value)));
        }
      } else {
        record := attendance.value;
      }
      record := record.(checkIn := Some(Punch(now, req.latitude, req.longitude)));
      record := record.(status := status);
      if req.Mode() == Office {
        record := record.(isCheckInValid := validation.valid);
      } else {
        record := record.(isCheckInValid := true);
      }

      var saved := Save(record);
      result := Ok(CheckInReply(true, saved, validation, CheckInMessage(req.Mode(), validation, req.workLocation)));
    }

    method CheckOut(employee: EmployeeId, latitude: Option<real>, longitude: Option<real>, today: Day, now: int, distance: Metric)
      returns (result: Result<CheckOutReply, AttendanceError>)
      requires Valid()
      modifies this
      ensures Valid()
      ensures result == CheckOutOutcome(old(Find(employee, today)), latitude, longitude, now, distance)
      ensures result.Ok? ==> records == old(records)[Key(employee, today) := result.value.record]
      ensures result.Err? ==> records == old(records)
    {
      var attendance := Find(employee, today);
      if attendance.None? {
        return Err(NoRecordToday);
      }
      var record := attendance.value;
      if record.checkIn.None? {
        return Err(CheckOutBeforeCheckIn);
      }
      if record.checkOut.Some? {
        return Err(AlreadyCheckedOut);
      }

      var validation := NotRequired;
      if record.workMode == Office {
        var checked := StoredValidation(latitude, longitude, record.workLocation, distance);
        if checked.None? {
          return Err(StoredLocationMissing);
        }
        validation := checked.value;
      }

      record := record.(checkOut := Some(Punch(now, latitude, longitude)));
      if record.workMode == Office {
        record := record.(isCheckOutValid := validation.valid);
      } else {
        record := record.(isCheckOutValid := true);
      }

      var saved := Save(record);
      result := Ok(CheckOutReply(true, saved, validation, saved.workHours, CheckOutMessage(saved.workMode, validation)));
    }
  }
}
