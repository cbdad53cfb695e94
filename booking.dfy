/**
 * The values the booking engine works on: bookings of a car, dates, times of day,
 * the repeat options and the weekday mask of a weekly booking.
 *
 * A date is a day number counted from 0001-01-01 (day 0, a Monday), as a .NET
 * DateOnly's DayNumber is; the default date is day 0. A time of day is a TimeSpan
 * counted in ticks; its default is 0. An identifier stands for a Guid, with 0 as
 * the empty Guid.
 */
module Bookings {

  datatype Option<T> = None | Some(value: T)

  type Guid = nat
  const EmptyGuid: Guid := 0

  type Date = nat
  const DefaultDate: Date := 0

  type Time = int
  const DefaultTime: Time := 0

  /** Flags of the DaysOfWeek enumeration: bit w stands for weekday w, Sunday being 0. */
  type WeekdayMask = bv32

  datatype RepeatOption = DoesNotRepeat | Daily | Weekly

  /**
   * A stored booking row, and also the shape of a create-or-update request: both
   * carry the same fields. A request with an empty Id asks for a new booking.
   */
  datatype Booking = Booking(
    id: Guid,
    carId: Guid,
    bookingDate: Date,
    startTime: Time,
    endTime: Time,
    repeatOption: RepeatOption,
    endRepeatDate: Option<Date>,
    daysToRepeatOn: Option<WeekdayMask>)

  /** One concrete occurrence on the calendar: the fields a calendar entry carries. */
  datatype CalendarEntry = CalendarEntry(
    id: Guid,
    bookingDate: Date,
    startTime: Time,
    endTime: Time,
    endRepeatDate: Option<Date>,
    carId: Guid)

  /** The day of the week of a date, Sunday being 0 and Saturday 6. */
  function DayOfWeek(d: Date): (w: nat)
    ensures w < 7
  {
    (d + 1) % 7
  }

  /** The flag `1 << DayOfWeek(d)` that stands for the weekday of d. */
  function DayFlag(d: Date): WeekdayMask
  {
    (1 as WeekdayMask) << DayOfWeek(d)
  }

  /** Whether a weekday mask has the flag for the weekday of d set. */
  predicate MaskHasDay(mask: WeekdayMask, d: Date)
  {
    mask & DayFlag(d) != 0
  }
}
