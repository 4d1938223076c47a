/** The status classifier (`determineStatus`): how a check-in time compares
    with the expected start of the working day. */
module Status {
  import opened Wrappers

  datatype AttendanceStatus = Present | Absent | Late | HalfDay | OnLeave | Holiday

  type Hour = h: int | 0 <= h < 24
  type Minute = m: int | 0 <= m < 60

  /** The local hour and minute of a check-in instant (`getHours`, `getMinutes`). */
  datatype Clock = Clock(hour: Hour, minute: Minute)

  /** `workSchedule`; a field is `None` when the caller left it out. */
  datatype Schedule = Schedule(startHour: Option<int>, startMinute: Option<int>, gracePeriod: Option<int>)

  const DefaultStartHour := 9
  const DefaultStartMinute := 0
  const DefaultGracePeriod := 15
  /** Lateness, in minutes, beyond which a check-in counts as half a day. */
  const HalfDayAfter := 120

  /** `field || fallback`: missing and 0 are falsy in JavaScript. */
  function OrDefault(field: Option<int>, fallback: int): (v: int)
    ensures field.Some? && field.value != 0 ==> v == field.value
    ensures field.None? || field.value == 0 ==> v == fallback
  {
    if field.Some? && field.value != 0 then field.value else fallback
  }

  /** The expected start of the working day, in minutes after midnight. */
  function StartMinutes(schedule: Schedule): (m: int)
    ensures schedule.startHour.None? && schedule.startMinute.None? ==> m == DefaultStartHour * 60 + DefaultStartMinute
  {
    OrDefault(schedule.startHour, DefaultStartHour) * 60 + OrDefault(schedule.startMinute, DefaultStartMinute)
  }

  /** Minutes between the expected start and the check-in; negative when early. */
  function MinutesLate(at: Clock, schedule: Schedule): (late: int)
    ensures 0 <= late + StartMinutes(schedule) < 24 * 60
    ensures late < 0 <==> at.hour * 60 + at.minute < StartMinutes(schedule)
    ensures schedule == Schedule(None, None, None) ==> -9 * 60 <= late < 15 * 60
  {
    (at.hour * 60 + at.minute) - StartMinutes(schedule)
  }

  function Grace(schedule: Schedule): int {
    OrDefault(schedule.gracePeriod, DefaultGracePeriod)
  }

  /** No check-in means absent; otherwise present within the grace period,
      late up to 120 minutes inclusive, and half a day beyond that. */
  function DetermineStatus(checkIn: Option<Clock>, schedule: Schedule): (s: AttendanceStatus)
    ensures s == Absent <==> checkIn.None?
    ensures s != OnLeave && s != Holiday
    ensures checkIn.Some? ==>
              (s == Present <==> MinutesLate(checkIn.value, schedule) <= Grace(schedule)) &&
              (s == Late <==> Grace(schedule) < MinutesLate(checkIn.value, schedule) <= HalfDayAfter) &&
              (s == HalfDay <==> MinutesLate(checkIn.value, schedule) > HalfDayAfter && MinutesLate(checkIn.value, schedule) > Grace(schedule))
  {
    match checkIn
    case None => Absent
    case Some(at) =>
      var late := MinutesLate(at, schedule);
      if late <= Grace(schedule) then Present
      else if late <= HalfDayAfter then Late
      else HalfDay
  }

  /** How much of the day a status credits; a later check-in never ranks higher. */
  function Rank(s: AttendanceStatus): nat {
    match s
    case Present => 2
    case Late => 1
    case HalfDay => 0
    case _ => 0
  }

  /** Classification is monotone in the check-in time. */
  lemma LaterNeverBetter(a: Clock, b: Clock, schedule: Schedule)
    requires a.hour * 60 + a.minute <= b.hour * 60 + b.minute
    ensures Rank(DetermineStatus(Some(b), schedule)) <= Rank(DetermineStatus(Some(a), schedule))
  {
  }

  /** The default schedule at its boundaries: 09:15 present, 09:16 late,
      11:00 late, 11:01 half a day. */
  lemma DefaultBoundaries()
    ensures DetermineStatus(Some(Clock(9, 15)), Schedule(None, None, None)) == Present
    ensures DetermineStatus(Some(Clock(9, 16)), Schedule(None, None, None)) == Late
    ensures DetermineStatus(Some(Clock(11, 0)), Schedule(None, None, None)) == Late
    ensures DetermineStatus(Some(Clock(11, 1)), Schedule(None, None, None)) == HalfDay
  {
  }

  /** A grace period or start hour of 0 cannot be configured: 0 is falsy, so
      it reads as the default (15 minutes, 9 o'clock). */
  lemma ZeroSettingsReadAsDefaults(at: Clock, startMinute: Option<int>)
    ensures DetermineStatus(Some(at), Schedule(Some(0), startMinute, Some(0))) ==
            DetermineStatus(Some(at), Schedule(None, startMinute, None))
  {
  }
}
