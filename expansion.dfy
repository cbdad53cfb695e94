/**
 * The calendar query: every stored booking (optionally only those of one car) is
 * expanded, one day at a time, into the concrete occurrences that fall inside a
 * requested window of dates.
 */
module CalendarExpansion {
  import opened Bookings

  /** The calendar query's input: an optional car and the window [start, end] of dates. */
  datatype BookingFilter = BookingFilter(carId: Option<Guid>, startBookingDate: Date, endBookingDate: Date)

  /** What the calendar query answers. */
  datatype CalendarResult =
    | StartAfterEnd                           // the window's start lies after its end
    | NoBookingsFound                         // the expansion produced no entry
    | Found(entries: seq<CalendarEntry>)

  /** Whether the query keeps the bookings of this car. */
  predicate MatchesCar(f: BookingFilter, b: Booking)
  {
    f.carId.None? || b.carId == f.carId.value
  }

  /** The stored bookings the query keeps, in their stored order. */
  function ForCar(stored: seq<Booking>, carId: Option<Guid>): seq<Booking>
  {
    if stored == [] then []
    else
      var last := stored[|stored| - 1];
      ForCar(stored[..|stored| - 1], carId) + (if carId.None? || last.carId == carId.value then [last] else [])
  }

  /** The date up to which a booking is walked: its end repeat date, or the window's end when it has none. */
  function RepeatEnd(b: Booking, f: BookingFilter): Date
  {
    match b.endRepeatDate
    case Some(e) => e
    case None => f.endBookingDate
  }

  /** The inclusion rule of each repeat option, for a date of the walk. */
  predicate ShouldInclude(b: Booking, d: Date)
  {
    match b.repeatOption
    case DoesNotRepeat => d == b.bookingDate
    case Daily => true
    case Weekly => b.daysToRepeatOn.Some? && MaskHasDay(b.daysToRepeatOn.value, d)
  }

  /**
   * Whether booking b has an occurrence on date d inside the window of f: d is not
   * before the booking's date, not after its end repeat date or the window's end,
   * not before the window's start, and the repeat option includes it.
   */
  predicate Emits(b: Booking, f: BookingFilter, d: Date)
  {
    && b.bookingDate <= d
    && d <= RepeatEnd(b, f)
    && d <= f.endBookingDate
    && f.startBookingDate <= d
    && ShouldInclude(b, d)
  }

  /** The calendar entry of booking b on date d. */
  function EntryOn(b: Booking, d: Date): CalendarEntry
  {
    CalendarEntry(b.id, d, b.startTime, b.endTime, b.endRepeatDate, b.carId)
  }

  /** The entries the day-by-day walk over b emits from date `from` onwards. */
  function Occurrences(b: Booking, f: BookingFilter, from: Date): seq<CalendarEntry>
    decreases f.endBookingDate - from
  {
    if from <= RepeatEnd(b, f) && from <= f.endBookingDate then
      (if f.startBookingDate <= from && ShouldInclude(b, from) then [EntryOn(b, from)] else [])
      + Occurrences(b, f, from + 1)
    else
      []
  }

  /** The entries of one booking: its walk starts on its booking date. */
  function ExpandBooking(b: Booking, f: BookingFilter): seq<CalendarEntry>
  {
    Occurrences(b, f, b.bookingDate)
  }

  /** The entries of a sequence of bookings, grouped by booking in sequence order. */
  function ExpandAll(bs: seq<Booking>, f: BookingFilter): seq<CalendarEntry>
  {
    if bs == [] then [] else ExpandAll(bs[..|bs| - 1], f) + ExpandBooking(bs[|bs| - 1], f)
  }

  /** The calendar a query asks for: the expansion of the stored bookings it keeps. */
  function Calendar(stored: seq<Booking>, f: BookingFilter): seq<CalendarEntry>
  {
    ExpandAll(ForCar(stored, f.carId), f)
  }

  /**
   * The calendar query. A window whose start lies after its end is refused; an
   * empty expansion is reported as not found; otherwise the entries are the
   * calendar of the stored bookings.
   */
  method GetCalendarBookings(input: BookingFilter, stored: seq<Booking>) returns (r: CalendarResult)
    ensures r.StartAfterEnd? <==> input.startBookingDate > input.endBookingDate
    ensures r.NoBookingsFound? <==> input.startBookingDate <= input.endBookingDate && Calendar(stored, input) == []
    ensures r.Found? ==> r.entries == Calendar(stored, input) && r.entries != []
  {
    if input.startBookingDate > input.endBookingDate {
      return StartAfterEnd;
    }
    var baseBookings := ForCar(stored, input.carId);
    var expandedBookings: seq<CalendarEntry> := [];
    var i := 0;
    while i < |baseBookings|
      invariant 0 <= i <= |baseBookings|
      invariant expandedBookings == ExpandAll(baseBookings[..i], input)
    {
      expandedBookings := ExpandInto(baseBookings[i], input, expandedBookings);
      assert baseBookings[..i + 1][..i] == baseBookings[..i];
      i := i + 1;
    }
    assert baseBookings[..i] == baseBookings;
    if expandedBookings == [] {
      return NoBookingsFound;
    }
    return Found(expandedBookings);
  }

  /**
   * The day-by-day walk over one booking: from its booking date up to its end repeat
   * date (or the window's end when it has none) and no further than the window's
   * end, it appends the booking's entry on each date from the window's start on
   * that the repeat option includes.
   */
  method ExpandInto(booking: Booking, input: BookingFilter, expanded: seq<CalendarEntry>) returns (expandedBookings: seq<CalendarEntry>)
    ensures expandedBookings == expanded + ExpandBooking(booking, input)
  {
    expandedBookings := expanded;
    var currentDate := booking.bookingDate;
    var endRepeatDate := if booking.endRepeatDate.Some? then booking.endRepeatDate.value else input.endBookingDate;
    while currentDate <= endRepeatDate && currentDate <= input.endBookingDate
      invariant expandedBookings + Occurrences(booking, input, currentDate) == expanded + ExpandBooking(booking, input)
      decreases input.endBookingDate - currentDate
    {
      ghost var step := if currentDate >= input.startBookingDate && ShouldInclude(booking, currentDate)
        then [EntryOn(booking, currentDate)] else [];
      ghost var rest := Occurrences(booking, input, currentDate + 1);
      assert Occurrences(booking, input, currentDate) == step + rest;
      ghost var was := expandedBookings;
      if currentDate >= input.startBookingDate {
        var shouldInclude := IncludesDate(booking, currentDate);
        if shouldInclude {
          expandedBookings := expandedBookings + [EntryOn(booking, currentDate)];
        }
      }
      assert expandedBookings == was + step;
      assert (was + step) + rest == was + (step + rest);
      currentDate := currentDate + 1;
    }
    assert Occurrences(booking, input, currentDate) == [];
    assert expandedBookings + [] == expandedBookings;
  }

  /** The switch over the repeat option that decides whether the walk emits the booking on a date. */
  method IncludesDate(booking: Booking, currentDate: Date) returns (shouldInclude: bool)
    ensures shouldInclude == ShouldInclude(booking, currentDate)
  {
    shouldInclude := false;
    match booking.repeatOption {
      case DoesNotRepeat =>
        shouldInclude := currentDate == booking.bookingDate;
      case Daily =>
        shouldInclude := true;
      case Weekly =>
        if booking.daysToRepeatOn.Some? {
          var currentDayFlag := (1 as WeekdayMask) << DayOfWeek(currentDate);
          shouldInclude := booking.daysToRepeatOn.value & currentDayFlag != 0;
        }
    }
  }

  // ---------------------------------------------------------------------------
  // What one booking's walk emits

  /** Every entry of the walk from `from` is an occurrence of b on a date the walk emits, not before `from`. */
  lemma {:induction false} OccurrencesSound(b: Booking, f: BookingFilter, from: Date)
    ensures forall i :: 0 <= i < |Occurrences(b, f, from)| ==>
      var e := Occurrences(b, f, from)[i];
      from <= e.bookingDate && e == EntryOn(b, e.bookingDate)
      && e.bookingDate <= RepeatEnd(b, f) && e.bookingDate <= f.endBookingDate
      && f.startBookingDate <= e.bookingDate && ShouldInclude(b, e.bookingDate)
    decreases f.endBookingDate - from
  {
    if from <= RepeatEnd(b, f) && from <= f.endBookingDate {
      OccurrencesSound(b, f, from + 1);
    }
  }

  /** The walk from `from` emits every occurrence of b on a date d from `from` on. */
  lemma {:induction false} OccurrencesComplete(b: Booking, f: BookingFilter, from: Date, d: Date)
    requires from <= d && d <= RepeatEnd(b, f) && d <= f.endBookingDate
    requires f.startBookingDate <= d && ShouldInclude(b, d)
    ensures EntryOn(b, d) in Occurrences(b, f, from)
    decreases d - from
  {
    if from < d {
      OccurrencesComplete(b, f, from + 1, d);
    }
  }

  /** The walk emits its entries in strictly ascending date order, hence no date twice. */
  lemma {:induction false} OccurrencesAscending(b: Booking, f: BookingFilter, from: Date)
    ensures forall i, j :: 0 <= i < j < |Occurrences(b, f, from)| ==>
      Occurrences(b, f, from)[i].bookingDate < Occurrences(b, f, from)[j].bookingDate
    decreases f.endBookingDate - from
  {
    if from <= RepeatEnd(b, f) && from <= f.endBookingDate {
      OccurrencesAscending(b, f, from + 1);
      OccurrencesSound(b, f, from + 1);
    }
  }

  /**
   * A booking's entries are exactly its occurrences: each entry lies on a date the
   * booking emits and copies the booking's fields, every emitted date has its
   * entry, and the dates ascend strictly.
   */
  lemma ExpandBookingExactly(b: Booking, f: BookingFilter)
    ensures forall e :: e in ExpandBooking(b, f) ==> Emits(b, f, e.bookingDate) && e == EntryOn(b, e.bookingDate)
    ensures forall d :: Emits(b, f, d) ==> EntryOn(b, d) in ExpandBooking(b, f)
    ensures forall i, j :: 0 <= i < j < |ExpandBooking(b, f)| ==>
      ExpandBooking(b, f)[i].bookingDate < ExpandBooking(b, f)[j].bookingDate
  {
    OccurrencesSound(b, f, b.bookingDate);
    OccurrencesAscending(b, f, b.bookingDate);
    forall d | Emits(b, f, d)
      ensures EntryOn(b, d) in ExpandBooking(b, f)
    {
      OccurrencesComplete(b, f, b.bookingDate, d);
    }
  }

  // ---------------------------------------------------------------------------
  // Per repeat option

  /** A walk of a non-repeating booking that starts after its booking date emits nothing. */
  lemma {:induction false} NonRepeatingAfterDate(b: Booking, f: BookingFilter, from: Date)
    requires b.repeatOption == DoesNotRepeat && b.bookingDate < from
    ensures Occurrences(b, f, from) == []
    decreases f.endBookingDate - from
  {
    if from <= RepeatEnd(b, f) && from <= f.endBookingDate {
      NonRepeatingAfterDate(b, f, from + 1);
    }
  }

  /**
   * A non-repeating booking yields at most one entry, on its booking date; it yields
   * it exactly when that date is inside the window and not after its end repeat date.
   */
  lemma NonRepeatingBooking(b: Booking, f: BookingFilter)
    requires b.repeatOption == DoesNotRepeat
    ensures ExpandBooking(b, f) ==
      if f.startBookingDate <= b.bookingDate <= f.endBookingDate
         && (b.endRepeatDate.None? || b.bookingDate <= b.endRepeatDate.value)
      then [EntryOn(b, b.bookingDate)]
      else []
  {
    NonRepeatingAfterDate(b, f, b.bookingDate + 1);
  }

  function Max(x: int, y: int): int { if x < y then y else x }
  function Min(x: int, y: int): int { if x < y then x else y }

  /** The walk of a daily booking from `from` emits one entry per date of [max(from, start), last], in order. */
  lemma {:induction false} DailyOccurrences(b: Booking, f: BookingFilter, from: Date)
    requires b.repeatOption == Daily
    ensures var lo, hi := Max(from, f.startBookingDate), Min(RepeatEnd(b, f), f.endBookingDate);
      && |Occurrences(b, f, from)| == (if lo <= hi then hi - lo + 1 else 0)
      && forall i :: 0 <= i < |Occurrences(b, f, from)| ==> Occurrences(b, f, from)[i] == EntryOn(b, lo + i)
    decreases f.endBookingDate - from
  {
    if from <= RepeatEnd(b, f) && from <= f.endBookingDate {
      DailyOccurrences(b, f, from + 1);
    }
  }

  /**
   * A daily booking yields exactly one entry per date of
   * [max(booking date, window start), min(end repeat date or window end, window end)],
   * in ascending order.
   */
  lemma DailyBooking(b: Booking, f: BookingFilter)
    requires b.repeatOption == Daily
    ensures var lo, hi := Max(b.bookingDate, f.startBookingDate), Min(RepeatEnd(b, f), f.endBookingDate);
      && |ExpandBooking(b, f)| == (if lo <= hi then hi - lo + 1 else 0)
      && forall i :: 0 <= i < |ExpandBooking(b, f)| ==> ExpandBooking(b, f)[i] == EntryOn(b, lo + i)
  {
    DailyOccurrences(b, f, b.bookingDate);
  }

  /**
   * A weekly booking has an entry on date d exactly when d is in range and the
   * flag of d's weekday is set in its mask.
   */
  lemma WeeklyBooking(b: Booking, f: BookingFilter, d: Date)
    requires b.repeatOption == Weekly
    ensures EntryOn(b, d) in ExpandBooking(b, f) <==>
      && b.bookingDate <= d && d <= RepeatEnd(b, f)
      && f.startBookingDate <= d <= f.endBookingDate
      && b.daysToRepeatOn.Some? && MaskHasDay(b.daysToRepeatOn.value, d)
  {
    ExpandBookingExactly(b, f);
  }

  /** A weekly booking without a weekday mask yields nothing. */
  lemma WeeklyWithoutMask(b: Booking, f: BookingFilter)
    requires b.repeatOption == Weekly && b.daysToRepeatOn.None?
    ensures ExpandBooking(b, f) == []
  {
    WeeklyWithoutMaskFrom(b, f, b.bookingDate);
  }

  lemma {:induction false} WeeklyWithoutMaskFrom(b: Booking, f: BookingFilter, from: Date)
    requires b.repeatOption == Weekly && b.daysToRepeatOn.None?
    ensures Occurrences(b, f, from) == []
    decreases f.endBookingDate - from
  {
    if from <= RepeatEnd(b, f) && from <= f.endBookingDate {
      WeeklyWithoutMaskFrom(b, f, from + 1);
    }
  }

  // ---------------------------------------------------------------------------
  // The whole calendar

  /** The bookings the query keeps are exactly the stored bookings of the requested car. */
  lemma {:induction false} ForCarMembers(stored: seq<Booking>, f: BookingFilter)
    ensures forall b :: b in ForCar(stored, f.carId) <==> b in stored && MatchesCar(f, b)
  {
    if stored != [] {
      ForCarMembers(stored[..|stored| - 1], f);
      assert stored == stored[..|stored| - 1] + [stored[|stored| - 1]];
    }
  }

  /** An entry of the expansion of a sequence of bookings is an entry of one of them. */
  lemma {:induction false} ExpandAllMembers(bs: seq<Booking>, f: BookingFilter, e: CalendarEntry)
    ensures e in ExpandAll(bs, f) <==> exists b :: b in bs && e in ExpandBooking(b, f)
  {
    if bs != [] {
      ExpandAllMembers(bs[..|bs| - 1], f, e);
      assert bs == bs[..|bs| - 1] + [bs[|bs| - 1]];
    }
  }

  /**
   * Every calendar entry lies inside the window, comes from a stored booking of the
   * requested car, is not before that booking's date nor after its end repeat date,
   * falls on a date its repeat option includes, and copies the booking's id, times,
   * car and end repeat date.
   */
  lemma CalendarEntrySound(stored: seq<Booking>, f: BookingFilter, e: CalendarEntry)
    requires e in Calendar(stored, f)
    ensures f.startBookingDate <= e.bookingDate <= f.endBookingDate
    ensures exists b :: (b in stored && MatchesCar(f, b) && e == EntryOn(b, e.bookingDate)
      && b.bookingDate <= e.bookingDate
      && (b.endRepeatDate.Some? ==> e.bookingDate <= b.endRepeatDate.value)
      && ShouldInclude(b, e.bookingDate))
  {
    ExpandAllMembers(ForCar(stored, f.carId), f, e);
    ForCarMembers(stored, f);
    var b :| b in ForCar(stored, f.carId) && e in ExpandBooking(b, f);
    ExpandBookingExactly(b, f);
  }

  /** Every occurrence of a stored booking of the requested car has its entry on the calendar. */
  lemma CalendarEntryComplete(stored: seq<Booking>, f: BookingFilter, b: Booking, d: Date)
    requires b in stored && MatchesCar(f, b) && Emits(b, f, d)
    ensures EntryOn(b, d) in Calendar(stored, f)
  {
    ForCarMembers(stored, f);
    ExpandBookingExactly(b, f);
    ExpandAllMembers(ForCar(stored, f.carId), f, EntryOn(b, d));
  }

  /**
   * The calendar is grouped by booking in stored order: one more stored booking
   * appends its own entries, and only when it is of the requested car.
   */
  lemma CalendarAppend(stored: seq<Booking>, b: Booking, f: BookingFilter)
    ensures Calendar(stored + [b], f) ==
      Calendar(stored, f) + (if MatchesCar(f, b) then ExpandBooking(b, f) else [])
  {
    assert (stored + [b])[..|stored|] == stored;
    var kept := ForCar(stored, f.carId);
    if MatchesCar(f, b) {
      assert ForCar(stored + [b], f.carId) == kept + [b];
      assert (kept + [b])[..|kept|] == kept;
    } else {
      assert ForCar(stored + [b], f.carId) == kept;
    }
  }
}
