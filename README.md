# Car bookings: calendar expansion, request validation and conflict checks

This project models the booking engine of a car-booking service, `BookingsController`. Its four parts are:

- **The calendar query.** Each stored booking, optionally only those of one car, is walked day by day over a window of dates. It yields one calendar entry per date that its repeat option includes:
  - a booking that does not repeat: its booking date only;
  - a daily booking: every date;
  - a weekly booking: the dates whose weekday flag is set in its `DaysToRepeatOn` mask, with Sunday as flag 0.
- **The create-or-update request.**
  - The request's fields are validated. Each failed rule adds its message, in a fixed order.
  - A request with an id updates the stored row of that id, unless another row of the same car on the same date overlaps it in time.
  - A request without an id walks the dates of its series and checks each against the stored rows of the car. The first blocked date stops the request. Otherwise one new row is created per date.
- **The overlap test** shared by both paths: the time ranges overlap, or they are the very same range.
- **The seed calendar.** Every booking is placed in a date-to-bookings dictionary. The dictionary is then flattened into entries that carry each booking's own date.

The modules follow these parts:

- `Bookings` (booking.dfy): the entities.
- `CalendarExpansion` (expansion.dfy): the calendar query.
- `Validation` (validation.dfy): the field rules.
- `Conflicts` (conflicts.dfy): the overlap test and the update check.
- `BookingSeries` (series.dfy): the create walk.
- `BookingRequests` (post_booking.dfy): the whole create-or-update request.
- `SeedCalendar` (seed_calendar.dfy): the seed calendar.

How the system's types and services are modelled:

- **Dates.** A `DateOnly` is a day number; day 0 is 0001-01-01, a Monday. The .NET weekday (Sunday = 0) is `(d + 1) % 7`.
- **Times.** A `TimeSpan` is an integer tick count.
- **Ids.** A `Guid` is a natural number, and `Guid.Empty` is 0.
- **Weekday masks.** The `DaysOfWeek` mask is a `bv32`.
- **The database.** It is a snapshot sequence of rows passed to each operation. An operation that saves returns the snapshot it leaves behind.
- **Fresh ids.** The ids `Guid.NewGuid()` would produce are a parameter `newId`, where `newId(k)` is the id of the k-th new row.
- **Loops.** Each loop of the source is a method with a `while` loop. The loop is proved against a function that specifies it; the properties the source promises are lemmas about those functions.

## Model

| member | source | states |
|---|---|---|
| Bookings.DayOfWeek | Controllers/BookingsController.cs:90 | the weekday of a date is one of the seven flag positions 0..6 |
| CalendarExpansion.GetCalendarBookings | Controllers/BookingsController.cs:41-124 | a window whose start is after its end is refused; otherwise the result is the calendar of the stored bookings of the requested car, reported as not found exactly when it is empty |
| CalendarExpansion.ExpandInto | Controllers/BookingsController.cs:68-116 | the day-by-day walk over one booking appends exactly that booking's expansion to the entries so far |
| CalendarExpansion.IncludesDate | Controllers/BookingsController.cs:75-94 | the switch over the repeat option decides inclusion as the per-option rule does, including the weekday bit test of the mask |
| CalendarExpansion.OccurrencesSound | Controllers/BookingsController.cs:71-108 | every entry the walk emits lies in the window, is not before the booking date or after the end repeat date (or window end), is included by the repeat option, and copies the booking's id, times, car and end repeat date |
| CalendarExpansion.OccurrencesComplete | Controllers/BookingsController.cs:71-112 | every date in range that the repeat option includes gets its entry |
| CalendarExpansion.OccurrencesAscending | Controllers/BookingsController.cs:71-115 | the walk's entries are in strictly ascending date order, so no date appears twice |
| CalendarExpansion.ExpandBookingExactly | Controllers/BookingsController.cs:68-115 | a booking's entries are exactly its occurrences in range, in strictly ascending date order |
| CalendarExpansion.NonRepeatingAfterDate | Controllers/BookingsController.cs:79-80 | after its booking date, the walk of a non-repeating booking keeps going but emits nothing |
| CalendarExpansion.NonRepeatingBooking | Controllers/BookingsController.cs:69-80 | a non-repeating booking yields its booking date exactly when that date is in the window and not after its end repeat date, and nothing else |
| CalendarExpansion.DailyOccurrences | Controllers/BookingsController.cs:71-115 | a daily walk from a date emits one entry per date from the later of that date and the window start up to its last date, in order |
| CalendarExpansion.DailyBooking | Controllers/BookingsController.cs:69-115 | a daily booking yields one entry for each date of [max(booking date, window start), min(end repeat date or window end, window end)], in ascending order |
| CalendarExpansion.WeeklyBooking | Controllers/BookingsController.cs:87-93 | a weekly booking has an entry on a date if and only if the date is in range and its weekday flag is set in the mask |
| CalendarExpansion.WeeklyWithoutMask | Controllers/BookingsController.cs:87-93 | a weekly booking without a mask yields nothing |
| CalendarExpansion.WeeklyWithoutMaskFrom | Controllers/BookingsController.cs:88-93 | a weekly walk without a mask emits nothing from any date on |
| CalendarExpansion.ForCarMembers | Controllers/BookingsController.cs:58-61 | the kept bookings are exactly the stored bookings of the requested car, or all of them when no car is given |
| CalendarExpansion.ExpandAllMembers | Controllers/BookingsController.cs:66-117 | an entry is in the expansion of several bookings exactly when it is in the expansion of one of them |
| CalendarExpansion.CalendarEntrySound | Controllers/BookingsController.cs:58-108 | every calendar entry is in the window and is the entry of a stored booking of the requested car on a date that booking emits |
| CalendarExpansion.CalendarEntryComplete | Controllers/BookingsController.cs:58-112 | every date a stored booking of the requested car emits is on the calendar |
| CalendarExpansion.CalendarAppend | Controllers/BookingsController.cs:63-117 | the calendar is grouped by booking in stored order: one more stored booking appends its own entries, and only when it is of the requested car |
| Validation.ValidateBooking | Controllers/BookingsController.cs:158-171 | the errors are exactly the rules the request fails, each once and in checking order; the list is empty exactly when the request is valid |
| Validation.FailedBeforeReports | Controllers/BookingsController.cs:158-171 | after the first k rules are checked, the list holds exactly the failed rules among them, in checking order |
| Validation.AllRulesReported | Controllers/BookingsController.cs:158-173 | once all six rules are checked, the list reports exactly the failed rules, in order, and is empty exactly when the request is valid |
| Validation.ReportsExactlyUnique | Controllers/BookingsController.cs:158-171 | the error list is determined by the request: two lists reporting exactly the failed rules in order are equal |
| Validation.ValidRequest | Controllers/BookingsController.cs:160-171 | a valid request names a car and a booking date, starts before it ends, and has an end repeat date when it recurs |
| Conflicts.OverlapsSymmetric | Controllers/BookingsController.cs:192-193 | the overlap test does not depend on which booking is the stored one |
| Conflicts.OverlapsIffSharedInstant | Controllers/BookingsController.cs:192-193 | for ranges whose start is before their end, the overlap test holds if and only if some instant lies in both half-open ranges |
| Conflicts.TouchingRanges | Controllers/BookingsController.cs:192-193 | ranges that only touch (10-12 and 12-14) overlap only when they are the same range, and never when the first has a positive length |
| Conflicts.EqualityClauseRedundant | Controllers/BookingsController.cs:226-227 | for a request whose start is before its end, the equality clause adds nothing to the overlap test |
| Conflicts.UpdateIgnoresOwnRow | Controllers/BookingsController.cs:188-194 | a row with the request's own id never blocks the update |
| Conflicts.UpdateConflictSymmetric | Controllers/BookingsController.cs:188-194 | if a row blocks updating another, the other blocks updating it |
| Conflicts.UpdateKeepsClashFree | Controllers/BookingsController.cs:188-212 | on a store with unique ids, an update that passes the check keeps the store free of clashing rows |
| BookingSeries.PlanSeries | Controllers/BookingsController.cs:218-260 | the create walk plans rows exactly when no date of the series is blocked; otherwise it reports the first blocked date; the k-th row copies the request onto the k-th date with id `newId(k)` |
| BookingSeries.PlanSeriesMeaning | Controllers/BookingsController.cs:218-260 | the outcome of the walk over the whole series: rows for every date when none is blocked, else the first blocked date |
| BookingSeries.PlanFromMeaning | Controllers/BookingsController.cs:221-246 | from any point of the walk, the outcome agrees with the conflicts on the dates visited and still to visit |
| BookingSeries.DatesFromStep | Controllers/BookingsController.cs:221-259 | a walk within its end repeat date visits the current date, then moves on by its stride, or stops when it does not repeat |
| BookingSeries.StrideDatesBounds | Controllers/BookingsController.cs:221-255 | the dates a walk visits lie between its first date and its last date, in strictly ascending order |
| BookingSeries.SeriesDatesBounds | Controllers/BookingsController.cs:219-221 | every date of a series lies between the booking date and the end repeat date, and the dates ascend strictly |
| BookingSeries.RecurringStrideDates | Controllers/BookingsController.cs:248-255 | a daily or weekly walk visits first, first + s, first + 2s, … up to its last date, (last - first) / s + 1 dates in all |
| BookingSeries.SeriesShape | Controllers/BookingsController.cs:219-259 | a series has no dates without an end repeat date, only the booking date for a booking that does not repeat, and otherwise every day or every seventh day up to the end repeat date |
| BookingSeries.DayOfWeekAfterAWeek | Controllers/BookingsController.cs:254 | a date seven days later falls on the same weekday |
| BookingSeries.WeeklyStrideSameWeekday | Controllers/BookingsController.cs:252-255 | every date of a weekly walk falls on the weekday of its first date |
| BookingSeries.WeeklySeriesIgnoresMask | Controllers/BookingsController.cs:252-255 | a weekly series is the same whatever the mask, and all its dates fall on the booking date's weekday |
| BookingSeries.CreateKeepsClashFree | Controllers/BookingsController.cs:221-246 | adding the rows of a series none of whose dates is blocked keeps a store free of clashing rows |
| BookingRequests.FindRow | Controllers/BookingsController.cs:181-185 | the lookup by id finds a row with that id, and finds none exactly when no row has it |
| BookingRequests.PostBooking | Controllers/BookingsController.cs:158-269 | validation comes first and stops the request on any error; an update is not found, rejected or applied exactly as the lookup and the update check say, replacing only that row; a create is rejected on its first blocked date or appends one row per date of the series; both keep a clash-free store clash-free |
| SeedCalendar.GetSeedData | Controllers/BookingsController.cs:305-336 | the seed calendar is the flattening of the specified buckets in key order, with one entry per booking and date its walk reaches |
| SeedCalendar.BuildBuckets | Controllers/BookingsController.cs:305-324 | the keys are the walked dates in the order first met, each bucket holds exactly the bookings reaching its date, and the buckets hold one booking per walked date |
| SeedCalendar.AddBooking | Controllers/BookingsController.cs:309-323 | one booking's walk adds it to the bucket of each date it reaches, in walk order |
| SeedCalendar.FlattenBuckets | Controllers/BookingsController.cs:326-336 | the flattening emits the entries of the buckets, bucket after bucket in key order |
| SeedCalendar.DedupMembers | Controllers/BookingsController.cs:312-313 | the bucket dates are exactly the walked dates |
| SeedCalendar.DedupDistinct | Controllers/BookingsController.cs:312-313 | no bucket date is listed twice |
| SeedCalendar.AddToBuckets | Controllers/BookingsController.cs:312-315 | adding a booking on a date changes only that date's bucket, which gains the booking at its end |
| SeedCalendar.AddToKeys | Controllers/BookingsController.cs:312-313 | adding on a date lists the date exactly when it has no bucket yet |
| SeedCalendar.AddToCount | Controllers/BookingsController.cs:312-334 | each addition adds one entry to the flattening |
| SeedCalendar.AddAllKeys | Controllers/BookingsController.cs:310-315 | a walk lists its dates in the order first met, after the dates already listed |
| SeedCalendar.AddAllBuckets | Controllers/BookingsController.cs:310-315 | a walk over distinct dates adds the booking once to each of their buckets, leaving the others unchanged |
| SeedCalendar.AddAllCount | Controllers/BookingsController.cs:310-334 | a walk adds one entry to the flattening per date it reaches |
| SeedCalendar.CollectIsSeedBuckets | Controllers/BookingsController.cs:305-324 | the buckets built booking after booking are the specified keys and buckets, with one entry per walked date |
| SeedCalendar.SeedWalkIsStride | Controllers/BookingsController.cs:310-322 | from any date of a booking's walk on, the seed walk visits the same dates as a daily, weekly or single-date stride |
| SeedCalendar.SeedDatesAreStrideDates | Controllers/BookingsController.cs:309-322 | a booking's seed walk visits every day, every seventh day or only its booking date up to its end repeat date (or its booking date), in strictly ascending order |
| SeedCalendar.BookingsOnMembers | Controllers/BookingsController.cs:307-315 | a booking is in the bucket of a date exactly when it is one of the bookings and its walk reaches that date |
| SeedCalendar.SeedBucketsExact | Controllers/BookingsController.cs:305-324 | there is a bucket exactly for each walked date, holding exactly the bookings that reach it, and no bucket date is listed twice |
| SeedCalendar.SeedEntriesMembers | Controllers/BookingsController.cs:330-333 | a bucket yields one entry per booking, in bucket order |
| SeedCalendar.FlattenFromBuckets | Controllers/BookingsController.cs:328-334 | every flattened entry is the entry of a booking in some listed bucket |
| SeedCalendar.SeedEntriesFromBookings | Controllers/BookingsController.cs:328-332 | every seed entry is the entry of one of the bookings and carries that booking's own date, not the date of its bucket |
| SeedCalendar.FlattenSingleBooking | Controllers/BookingsController.cs:328-334 | buckets that each hold one booking flatten to that booking's entry once per bucket |
| SeedCalendar.SingleBookingSeed | Controllers/BookingsController.cs:305-334 | a single booking's seed calendar is its entry repeated once per date its walk reaches, each with the booking's own date |

## Left out

- Database access and async/await are not modelled: `Include`, `ToListAsync`, `FindAsync`, `AnyAsync`, `AddRangeAsync` and `SaveChangesAsync`. Each operation takes a snapshot sequence of the stored rows; saving is the snapshot the operation returns.
- HTTP result wrapping (`BadRequest`, `NotFound`, `Ok`, `StatusCode(500)`) is replaced by result datatypes. The exception handlers (lines 128-131, 271-278) are not modelled, because nothing in the model throws.
- The null-request checks (lines 36-39, 153-156) are not modelled. A request is always a value here.
- Validation messages are the `ValidationError` rules; `Validation.Message` gives the exact text of each. The conflict date message is the date itself, not its `yyyy-MM-dd` text.
- Races between a conflict check and the save that follows it are a storage concern and are not modelled.
- `Guid.NewGuid()` is the `newId` parameter. It is not required to give distinct ids or ids absent from the store.
- `RequestedOn` and `DateTime.UtcNow` (lines 107, 209, 245) are dropped from the rows and entries.
- The car display strings `CarModel` and `CarMake` (lines 109-110, 332) are string formatting of joined car data and are left out. So are the entry fields `RepeatOption`, `DaysToRepeatOn` and `RequestedOn`.
- `GetSeedData` is modelled from line 305 on. The sample data `GetCars`/`GetBookings`, and the seeding of an empty store with it (lines 286-302), are fixture data and are left out.
- `DateOnly.AddDays` past `DateOnly.MaxValue` throws in the source. Dates here are unbounded, so that overflow is not modelled.
- SeedCalendar.GetSeedData: enumerating the dictionary is modelled as enumeration in insertion order (the `keys` sequence). The framework does not promise that order; it is what `Dictionary` does when nothing is removed.
- BookingRequests.PostBooking: an update returns the store with the row replaced by the request, which keeps the row's own id. It does not model Entity Framework tracking that row object in place.
- BookingRequests.PostBooking: the clash-freedom of an update is proved only for stores whose ids are unique. The store's primary key guarantees that, but the snapshot does not enforce it.

Behaviour modelled as the code has it:

- The overlap test's second clause compares start with start and end with end (lines 192-193, 226-227). It is an exact-range equality, not an endpoint-touch test. `Conflicts.TouchingRanges` shows that ranges which only touch never conflict unless they are the same range.
- The create walk's guard `currentBookingDate <= EndRepeatDate` (line 221) compares with a nullable date, so it is false when there is no end repeat date. A request that does not repeat and has no end repeat date therefore passes validation yet creates no rows; `BookingSeries.SeriesShape` states this.
- The create walk steps a weekly booking by seven days and ignores its weekday mask (line 254), unlike the calendar query. `BookingSeries.WeeklySeriesIgnoresMask` states this.
