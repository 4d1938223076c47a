# Attendance engine of Company_System, modelled in Dafny

This project models the attendance engine of an employee-management back end.
It covers four things:

- **Geofence**: whether a reported position lies within a work location's allowed radius (`validateLocation`).
- **Status classifier**: present, late, half a day or absent, from the check-in time and a work schedule (`determineStatus`).
- **Check-in/check-out workflow**: the life of one record per employee per day (`checkIn`, `checkOut`).
- **Statistics**: the one-pass statistics over an employee's records and the monthly report built on them (`getStats`, `getMonthlyReport`).

It also covers the rules of the attendance record layer: the defaults, the pre-save hook that recomputes work hours and the work-from-home flags, `IsComplete`, and the two range/invalid-location queries. Two smaller rule sets come from the role and user documents: role levels and removal guards, and the password-change, reset-token and active-only rules.

Modules, leaves first:

| file | module | models |
|---|---|---|
| Wrappers.dfy | `Wrappers` | `Option`, `Result`, `Outcome` (a hook's `next()` / `next(error)`) |
| Rounding.dfy | `Rounding` | `Math.round` of a quotient, as integer arithmetic |
| Calendar.dfy | `Calendar` | calendar days, and the month range `new Date(y, m-1, 1)` .. `new Date(y, m, 0)` |
| Geo.dfy | `Geo` | `validateLocation`, `canCheckInFromLocation` |
| Status.dfy | `Status` | `determineStatus` |
| AttendanceModel.dfy | `AttendanceModel` | the record, its defaults, the pre-save hook, `IsComplete`, `getDateByRange`, `getInvalidLocations` |
| AttendanceService.dfy | `AttendanceService` | `checkIn`, `checkOut`: pure outcome functions, and the class `AttendanceBook` that performs them on a map of records |
| AttendanceStats.dfy | `AttendanceStats` | `getStats` (a loop proved against a fold), `getMonthlyReport` |
| Roles.dfy | `Roles` | role level assignment, the pre-remove guards, the find filter |
| Users.dfy | `Users` | `FullName`, `Age`, `checkAuthAfterPasswordChange`, the password pre-save hooks, `sendPasswordResetToken`, the find filter |

Representation choices:

- **Work hours** are integer hundredths of an hour. `Math.round(ms / 3600000 * 100)` becomes `RoundHalfUp(ms, 36000)`, which rounds halves up as `Math.round` does.
- **Averages and the attendance rate** are integer hundredths and integer percentages, rounded the same way.
- **Falsy values**: a missing coordinate and a coordinate of 0 are both "not provided". A missing radius and a radius of 0 both mean 100. A missing or zero schedule field takes its default (9:00, 15 minutes).
- **Dates**: a record's date is the local midnight of its day, a `Day(year, month, day)` ordered chronologically.
- **Parameters instead of clock, I/O and randomness**: the clock, the haversine distance, password hashing, SHA-256 and random bytes are all passed in as parameters.
- **Field names**: the schema spells several fields differently from the service and the hook (`WorkMode`/`workMode`, `IsCheckInIn`/`isCheckInValid`, `IsCheckInOut`/`isCheckOutValid`, `CheckIn`/`checkIn`, and the unique index on `employee`/`date` over fields named `Employee`/`Date`). The model uses one record type with the service's names. The hook and the queries therefore act on the fields the service writes.

Behaviour of the code worth knowing, which the model keeps:

- **Check-in overwrites any status.** This includes an on-leave or holiday status set elsewhere (Services/AttendanceServices.js:144). See `CheckInOverridesStatus`.
- **Nothing enforces a check-out after the check-in.** A check-out time earlier than the check-in time is stored as is, so `workHours` may be negative.
- **There is no retry when two first check-ins race.** Each call reads today's record once and saves once.
- **Work hours are computed by the pre-save hook, not by check-out.** The hook recomputes them on every save where both times are present.

## Model

| member | source | states |
|---|---|---|
| `Rounding.RoundHalfUp` | Models/AttendanceModel.js:100 | `Math.round(n/d)`: the result is within half a unit of n/d, with halves going up |
| `Calendar.MonthRange` | Services/AttendanceServices.js:294-295 | The period starts on day 1 and ends on the month's last day. Both ends are valid days of the same month, and the month given is used as is when it lies in 1..12 |
| `Calendar.MonthRangeCovers` | Services/AttendanceServices.js:294-295 | A valid day falls in the month's date range exactly when it lies in that month |
| `Geo.EffectiveRadius` | Services/AttendanceServices.js:34 | The radius is the given one unless it is missing or 0, which gives 100 |
| `Geo.ValidateLocation` | Services/AttendanceServices.js:23-43 | A falsy coordinate gives invalid, no distance, "location not provided". Otherwise valid iff distance ≤ effective radius, and the reason names the distance, the place and the radius when refused. Valid implies distance ≤ radius |
| `Geo.CanCheckInFromLocation` | Services/AttendanceServices.js:318-320 | Valid iff both coordinates are reported and the distance is within the effective radius |
| `Geo.WiderRadiusKeepsValid` | Services/AttendanceServices.js:34-35 | Widening the radius never turns an accepted position into a refused one |
| `Geo.DefaultRadiusBoundary` | Services/AttendanceServices.js:34-35 | With the default radius, 100 m is accepted and 101 m refused |
| `Status.OrDefault` | Services/AttendanceServices.js:55-57 | A schedule field is used unless it is missing or 0, which gives the fallback |
| `Status.StartMinutes` | Services/AttendanceServices.js:55-56 | Without a start hour and minute the day starts at 9:00 |
| `Status.MinutesLate` | Services/AttendanceServices.js:59-61 | Lateness plus the expected start is a minute of the day. Negative exactly when the check-in is before the start. With the default schedule it lies between -540 and 899 |
| `Status.DetermineStatus` | Services/AttendanceServices.js:48-70 | Absent iff there is no check-in. Never on-leave or holiday. Present iff minutes late ≤ grace (early arrivals included). Late iff grace < minutes late ≤ 120. Half a day beyond 120 |
| `Status.LaterNeverBetter` | Services/AttendanceServices.js:59-69 | A later check-in never gets a better status |
| `Status.DefaultBoundaries` | Services/AttendanceServices.js:55-69 | With the defaults, 09:15 is present, 09:16 late, 11:00 late and 11:01 half a day |
| `Status.ZeroSettingsReadAsDefaults` | Services/AttendanceServices.js:55-57 | A start hour or grace period of 0 acts as 9 or 15 |
| `AttendanceModel.NewRecord` | Models/AttendanceModel.js:30-78 | A new record starts absent, with 0 hours, both flags true and no times |
| `AttendanceModel.ModeOrDefault` | Models/AttendanceModel.js:30-36 | A work mode left out is office, and a given mode is kept |
| `AttendanceModel.CentiHours` | Models/AttendanceModel.js:99-100 | Work hours are the span in hundredths of an hour, rounded half up |
| `AttendanceModel.CentiHoursExamples` | Models/AttendanceModel.js:99-100 | 8 h 30 min gives 8.50 hours and 9 min gives 0.15 hours |
| `AttendanceModel.SaveHook` | Models/AttendanceModel.js:96-107 | With both times, hours are recomputed from the span; otherwise hours are unchanged. Work from home forces both flags true; other modes keep them. Nothing else changes |
| `AttendanceModel.SaveHookIdempotent` | Models/AttendanceModel.js:96-107 | Saving twice gives the same record as saving once |
| `AttendanceModel.IsComplete` | Models/AttendanceModel.js:92-94 | A record is complete exactly when both location checks passed |
| `AttendanceModel.SavedWorkFromHomeIsComplete` | Models/AttendanceModel.js:92-105 | Every saved work-from-home record is complete |
| `AttendanceModel.SavedOfficeCompleteness` | Models/AttendanceModel.js:92-105 | A saved office record is complete iff both of its location checks passed |
| `AttendanceModel.SortByDate` | Models/AttendanceModel.js:117 | The result is ordered by date in the requested direction and is a permutation of the input |
| `AttendanceModel.FindInRange` | Services/AttendanceServices.js:238-241 | Exactly the employee's records dated within [start, end], each as often as it is in the collection |
| `AttendanceModel.GetDateByRange` | Models/AttendanceModel.js:112-119 | Exactly the employee's records within [start, end], oldest first |
| `AttendanceModel.HasInvalidLocation` | Models/AttendanceModel.js:131-136 | A record has an invalid location exactly when it is an incomplete office record; other modes never have one |
| `AttendanceModel.GetInvalidLocations` | Models/AttendanceModel.js:130-142 | Exactly the office records with a failed location check that pass the extra filters, newest first |
| `AttendanceService.Snapshot` | Services/AttendanceServices.js:130-137 | The stored work location keeps the name and coordinates; its radius defaults to 100 |
| `AttendanceService.MissingWorkLocation` | Services/AttendanceServices.js:86-89 | Only office mode, which a request without a mode gets, can lack a work location. A request with neither mode nor location lacks one. A location with a nonzero latitude satisfies it |
| `AttendanceService.CheckInMessage` | Services/AttendanceServices.js:159-164 | The work-from-home message exactly for work from home. Otherwise the place name when the validation passed, and the outside-area notice exactly when it failed |
| `AttendanceService.CheckInBase` | Services/AttendanceServices.js:126-138 | Check-in starts from today's record when it exists. Otherwise from a new absent record of the request's mode with no times, 0 hours and both flags true, holding a work location snapshot only in office mode |
| `AttendanceService.CheckInOutcome` | Services/AttendanceServices.js:76-166 | Fails iff office mode lacks a work location or latitude (checked first), or today already has a check-in. On success the stored record is the pre-save hook applied to the starting record with the check-in time and position, the classifier's status and the check-in flag set. The flag is the validation result for office mode and true otherwise; the validation runs for office mode only. An existing record keeps its mode, work location and check-out. A new record takes the request's mode, and a work location snapshot only for office. The message is the work-from-home one, else the place name when valid, else the outside-area notice |
| `AttendanceService.StoredValidation` | Services/AttendanceServices.js:199-201 | The geofence runs against the stored work location. A missing coordinate gives "not provided" and invalid. It fails only when that location is missing and both coordinates are reported |
| `AttendanceService.CheckOutOutcome` | Services/AttendanceServices.js:171-230 | Succeeds exactly on a checked-in day not yet checked out, unless an office record without a work location is checked out with both coordinates (the source's TypeError); the geofence never blocks it. Fails with no record, then with no check-in, then when already checked out. On success it sets the check-out time and position, keeps the check-in and status, and sets the hours from the span. The check-out flag is the geofence result for office mode and true otherwise. The message is the work-from-home one, else plain success when valid, else the outside-area notice |
| `AttendanceService.CheckOutMessage` | Services/AttendanceServices.js:223-228 | The work-from-home message exactly for work from home. Otherwise plain success exactly when the validation passed, and the outside-area notice exactly when it failed |
| `AttendanceService.DayLifecycle` | Services/AttendanceServices.js:101-216 | Check-in succeeds only from not-started and check-out only from checked-in; each moves the day forward; a checked-in day whose record is not an office record missing its work location always checks out; a checked-out day refuses both |
| `AttendanceService.CheckOutGeofenceIsAdvisory` | Services/AttendanceServices.js:196-216 | An office check-out outside the radius succeeds, stored with its flag down and the outside-area message |
| `AttendanceService.SecondCheckInFails` | Services/AttendanceServices.js:106-108 | After a successful check-in, another check-in for the same day fails |
| `AttendanceService.GeofenceIsAdvisory` | Services/AttendanceServices.js:110-165 | An office check-in outside the radius still succeeds. It is stored with its flag down and the outside-area message |
| `AttendanceService.CheckInOverridesStatus` | Services/AttendanceServices.js:140-144 | A check-in on a record without a check-in replaces any status (on-leave, holiday) with present, late or half a day |
| `AttendanceService.CheckInThenCheckOut` | Services/AttendanceServices.js:204-222 | Checking out after a first check-in succeeds and reports the span in hundredths of an hour; 8 h 30 min gives 850 |
| `AttendanceService.AttendanceBook.constructor` | Models/AttendanceModel.js:87 | The store starts from the given records, which must already sit one per (employee, day) under their own key |
| `AttendanceService.AttendanceBook.OnePerEmployeeDay` | Models/AttendanceModel.js:87 | Two stored records with the same employee and date are the same record |
| `AttendanceService.AttendanceBook.Find` | Services/AttendanceServices.js:101-104 | Returns the record stored under (employee, day), if any |
| `AttendanceService.AttendanceBook.Save` | Services/AttendanceServices.js:153 | Runs the pre-save hook and stores the result under the record's employee and date, leaving every other record as it was |
| `AttendanceService.AttendanceBook.CheckIn` | Services/AttendanceServices.js:76-166 | Returns the check-in outcome for today's stored record. On success it stores the new record under (employee, today). On an error it changes nothing |
| `AttendanceService.AttendanceBook.CheckOut` | Services/AttendanceServices.js:171-230 | Returns the check-out outcome for today's stored record. On success it stores the new record. On an error it changes nothing |
| `AttendanceStats.TallyInvariants` | Services/AttendanceServices.js:243-281 | Status counters plus holidays equal the number of records. Mode counters equal it too. Invalid check-ins and check-outs never exceed office days |
| `AttendanceStats.Count` | Services/AttendanceServices.js:261-281 | One record adds one to exactly one status counter unless it is a holiday, one to exactly one mode counter, its hours to the total, and to an invalid counter only along with the office counter |
| `AttendanceStats.Tally` | Services/AttendanceServices.js:243-281 | The fold keeps `totalDays` as given and leaves the average at 0 |
| `AttendanceStats.TallyCounter` | Services/AttendanceServices.js:261-281 | A counter that each record moves by one exactly when a filter holds ends at the number of records the filter selects |
| `AttendanceStats.TallyHours` | Services/AttendanceServices.js:269 | The hours total is the sum of the records' hours |
| `AttendanceStats.TallyCounts` | Services/AttendanceServices.js:261-281 | Each status and mode counter is the number of records with that status or mode. Invalid check-ins and check-outs are the office records with that flag down. The total is the sum of the hours |
| `AttendanceStats.Summarize` | Services/AttendanceServices.js:243-285 | `totalDays` is the record count. Each status, mode and invalid counter is the number of records its filter selects, and the total is the sum of the hours. Status counters are at most `totalDays`, and mode counters add up to it. Invalid counts are at most `officeDays`. The average is total/days rounded half up, and 0 without records |
| `AttendanceStats.TallyPermutation` | Services/AttendanceServices.js:261-281 | The counters do not depend on the order the records come in |
| `AttendanceStats.SummarizePermutation` | Services/AttendanceServices.js:299-300 | The statistics of the sorted report records equal those of the unsorted query |
| `AttendanceStats.AverageWithin` | Services/AttendanceServices.js:283-285 | If every day's hours lie in [0, cap], so does the average |
| `AttendanceStats.CountRecord` | Services/AttendanceServices.js:262-280 | One step of the loop moves the counters exactly as one step of the fold |
| `AttendanceStats.GetStats` | Services/AttendanceServices.js:235-288 | The loop computes the fold over the employee's records in range. Its counters keep the bounds above |
| `AttendanceStats.AttendanceRate` | Services/AttendanceServices.js:310 | round(100·(present+late)/days), in 0..100, and 0 without records |
| `AttendanceStats.RateWithin` | Services/AttendanceServices.js:310 | A share of at most all days rounds to a percentage in 0..100 |
| `AttendanceStats.GetMonthlyReport` | Services/AttendanceServices.js:293-313 | Gives the month's records oldest first and the month's statistics. Those statistics agree with the listed records. The summary copies the totals, and the attendance rate lies in 0..100 |
| `AttendanceStats.ThreeDayExample` | Services/AttendanceServices.js:261-285 | Present, late and absent records count one each. The total hours are their sum, and the rate is 67 |
| `Roles.LevelFor` | Models/RoleModel.js:64-72 | The table gives a level exactly for the six names, always in 1..6 |
| `Roles.LevelsAreDistinct` | Models/RoleModel.js:64-71 | Distinct names get distinct levels |
| `Roles.PreRemove` | Models/RoleModel.js:84-103 | Removal is refused iff the role is admin, moderator or team lead (checked first) or has users assigned |
| `Roles.UnprotectedRoles` | Models/RoleModel.js:86-89 | Owner, manager and employee without users can be removed |
| `Roles.Role.constructor` | Models/RoleModel.js:34-46 | A new role without a name is named employee. Every new role has level 6 and is active |
| `Roles.NewUnnamedRoleSaves` | Models/RoleModel.js:34-72 | A role created without a name is an employee role, and its first save passes with level 6 |
| `Roles.Role.PreSave` | Models/RoleModel.js:62-82 | A new or renamed role gets its table level, and an undefined name is an error. Otherwise the level is untouched |
| `Roles.FindActive` | Models/RoleModel.js:105-107 | Returns only active roles, and every active role |
| `Users.User.constructor` | Models/UserModel.js:160-172 | A new user is active, with no password-change or reset data |
| `Users.User.FullName` | Models/UserModel.js:179-181 | The first name, one space, then the last name |
| `Users.User.Age` | Models/UserModel.js:183-187 | Null iff there is no birth date; otherwise birth year plus age is the current year |
| `Users.User.ChangedPasswordAfter` | Models/UserModel.js:213-220 | False with no change time. Otherwise true iff the change's whole second is strictly after the token's issue second |
| `Users.User.PreSave` | Models/UserModel.js:192-206 | A modified password is hashed. The change time becomes now − 1 s only for a modified password on an existing user; otherwise it is unchanged |
| `Users.User.SendPasswordResetToken` | Models/UserModel.js:222-228 | Returns the random token, stores its SHA-256 digest, and sets the expiry to now + 600000 ms |
| `Users.ChangeStampGrace` | Models/UserModel.js:200-220 | With the stamp one second back, tokens issued from that second on are accepted. Tokens issued over two seconds earlier are refused |
| `Users.FindActive` | Models/UserModel.js:188-190 | Returns only active users, and every active user |

## Left out

- `calculateDistance` (Services/AttendanceServices.js:7-18) is haversine floating-point trigonometry. The distance is the `Metric` parameter, so its symmetry, `distance(A, A) = 0` and the known 111 m pair are not proved.
- Clock and time zone: `new Date()`, `setHours(0, 0, 0, 0)`, `getHours` and `getMinutes`. The day, the instant and its local hour and minute are separate parameters, and nothing ties them to one another.
- Floating point: coordinates are reals; hours, averages and the attendance rate use exact rational rounding. Binary rounding near a half and NaN are not modelled.
- Mongoose persistence: `findOne`, `save`, `find().lean()`, `populate` and index creation are not modelled. The store is a map keyed by (employee, day). The statistics take the collection as a sequence, and their order is immaterial (`TallyPermutation`). Asynchronous I/O and transient store failures are not modelled.
- Schema validation (`required`, `enum`, `min`/`max`, `isAlpha`, `isEmail`, `isStrongPassword`, `moment`) and the lowercasing/trimming setters are not modelled. Names are taken as already normalised.
- `GetInvalidLocations`: the caller's filters are a predicate combined with the built-in conditions. A filter key that overrides `workMode` or `$or` is not modelled, and neither is the employee `populate`.
- A new document that Mongoose would give a work location object holding only the default radius is not modelled. A record without a work location is `None`. An input work location with a latitude but no longitude (which would give a NaN distance) is not modelled.
- `CheckInOutcome` follows the intended behaviour where the source fails after saving. The success message for a hybrid check-in without a work location dereferences `null` in the source (Services/AttendanceServices.js:163). The model answers with no place name.
- Defects followed by intent, not reproduced:
  - the `require('../models/Attendance')` path;
  - the call to `getByDateRange`, which is defined as `getDateByRange`;
  - `getToday` reassigning a `const` (modelled as `AttendanceBook.Find`);
  - the role pre-save hook not calling `next()` when the name is unchanged (modelled as passing);
  - the role find hook never calling `next()` (modelled as the filter).
- A role name that is a property of every JavaScript object (`constructor`, `toString`) is not modelled. The table lookup is a plain map.
- `matchUserPassword` (`bcrypt.compare`) is a foreign call and is not modelled. bcrypt, SHA-256 and `crypto.randomBytes` are parameters.
- The user count checked before removing a role (`countDocuments`) is a parameter.
- Concurrency: the code has no retry or race handling, and neither does the model.
- `Geo.CanCheckInFromLocation`: its contract states the accept/refuse decision only. It returns the same value as `ValidateLocation`, whose contract gives the full answer.
- Server.js, App.js, Configs/DbConfig.js, Controllers/ErrorController.js, Utilities/ErrorHandler.js and Models/TaskModel.js are not part of this model. They are HTTP, database and error-formatting plumbing, plus a schema declaration.
