/**
 * The create path: a new booking is materialised as one row per date of its
 * series, after each date has been checked against the stored rows of the car.
 * The first date with a conflict stops the walk and nothing is created.
 */
module BookingSeries {
  import opened Bookings
  import opened Conflicts

  /**
   * The create walk's guard `d <= endRepeatDate`, a comparison with a nullable date:
   * it is false when there is no end repeat date.
   */
  predicate NotAfterEnd(d: Date, endRepeatDate: Option<Date>)
  {
    endRepeatDate.Some? && d <= endRepeatDate.value
  }

  /**
   * The dates a walk visits from d up to `last`: every day for a daily booking,
   * every seventh day for a weekly one, and only d for any other.
   */
  function StrideDates(d: Date, last: Date, opt: RepeatOption): seq<Date>
    decreases last - d
  {
    if d <= last then
      [d] + match opt
            case Daily => StrideDates(d + 1, last, opt)
            case Weekly => StrideDates(d + 7, last, opt)
            case DoesNotRepeat => []
    else
      []
  }

  /** The dates the create walk of a request visits, from the date still to visit. */
  function DatesFrom(dto: Booking, d: Date): seq<Date>
  {
    match dto.endRepeatDate
    case None => []
    case Some(last) => StrideDates(d, last, dto.repeatOption)
  }

  /** The dates of the series a request asks to create. */
  function SeriesDates(dto: Booking): seq<Date>
  {
    DatesFrom(dto, dto.bookingDate)
  }

  /** The row created for date d: the request's car, times, repeat settings and end repeat date, with a fresh id. */
  function NewRow(dto: Booking, id: Guid, d: Date): Booking
  {
    Booking(id, dto.carId, d, dto.startTime, dto.endTime, dto.repeatOption, dto.endRepeatDate, dto.daysToRepeatOn)
  }

  /** What the create walk ends with. */
  datatype SeriesResult =
    | ConflictOn(date: Date)        // the first date with a conflict; nothing is created
    | NewRows(rows: seq<Booking>)   // one row per date of the series

  /** Whether the k-th date of the series is the first one some stored row blocks. */
  predicate FirstConflictAt(stored: seq<Booking>, dto: Booking, dates: seq<Date>, k: nat)
  {
    && k < |dates|
    && DateConflict(stored, dto, dates[k])
    && forall j :: 0 <= j < k ==> !DateConflict(stored, dto, dates[j])
  }

  /**
   * The outcome of the create walk over the dates still to visit, given the rows
   * planned so far: the first date with a conflict stops it, and every other date
   * gets a row with the next fresh id.
   */
  function PlanFrom(stored: seq<Booking>, dto: Booking, dates: seq<Date>, rows: seq<Booking>, newId: nat -> Guid): SeriesResult
  {
    if dates == [] then NewRows(rows)
    else if DateConflict(stored, dto, dates[0]) then ConflictOn(dates[0])
    else PlanFrom(stored, dto, dates[1..], rows + [NewRow(dto, newId(|rows|), dates[0])], newId)
  }

  /**
   * The create walk. It visits the dates of the series in order; the first date
   * that some stored row of the car blocks is reported and nothing is created;
   * otherwise the k-th date gets a row with the k-th fresh id `newId(k)`.
   */
  method PlanSeries(dto: Booking, stored: seq<Booking>, newId: nat -> Guid) returns (r: SeriesResult)
    ensures r.NewRows? <==> forall k :: 0 <= k < |SeriesDates(dto)| ==> !DateConflict(stored, dto, SeriesDates(dto)[k])
    ensures r.ConflictOn? ==> exists k: nat :: FirstConflictAt(stored, dto, SeriesDates(dto), k) && SeriesDates(dto)[k] == r.date
    ensures r.NewRows? ==> |r.rows| == |SeriesDates(dto)|
    ensures r.NewRows? ==> forall k :: 0 <= k < |r.rows| ==> r.rows[k] == NewRow(dto, newId(k), SeriesDates(dto)[k])
  {
    var bookingsToAdd: seq<Booking> := [];
    var currentBookingDate := dto.bookingDate;
    ghost var outcome := PlanFrom(stored, dto, SeriesDates(dto), [], newId);
    while NotAfterEnd(currentBookingDate, dto.endRepeatDate)
      invariant PlanFrom(stored, dto, DatesFrom(dto, currentBookingDate), bookingsToAdd, newId) == outcome
      decreases if NotAfterEnd(currentBookingDate, dto.endRepeatDate)
        then dto.endRepeatDate.value - currentBookingDate + 1 else 0
    {
      DatesFromStep(dto, currentBookingDate);
      var conflictingBooking := DateConflict(stored, dto, currentBookingDate);
      if conflictingBooking {
        r := ConflictOn(currentBookingDate);
        PlanSeriesMeaning(stored, dto, newId, r);
        return;
      }
      bookingsToAdd := bookingsToAdd + [NewRow(dto, newId(|bookingsToAdd|), currentBookingDate)];
      if dto.repeatOption == Daily {
        currentBookingDate := currentBookingDate + 1;
      } else if dto.repeatOption == Weekly {
        currentBookingDate := currentBookingDate + 7;
      } else {
        break;
      }
    }
    r := NewRows(bookingsToAdd);
    PlanSeriesMeaning(stored, dto, newId, r);
  }

  /** What the outcome of the create walk over the series says. */
  lemma PlanSeriesMeaning(stored: seq<Booking>, dto: Booking, newId: nat -> Guid, r: SeriesResult)
    requires r == PlanFrom(stored, dto, SeriesDates(dto), [], newId)
    ensures r.NewRows? <==> forall k :: 0 <= k < |SeriesDates(dto)| ==> !DateConflict(stored, dto, SeriesDates(dto)[k])
    ensures r.ConflictOn? ==> exists k: nat :: FirstConflictAt(stored, dto, SeriesDates(dto), k) && SeriesDates(dto)[k] == r.date
    ensures r.NewRows? ==> |r.rows| == |SeriesDates(dto)|
    ensures r.NewRows? ==> forall k :: 0 <= k < |r.rows| ==> r.rows[k] == NewRow(dto, newId(k), SeriesDates(dto)[k])
  {
    PlanFromMeaning(stored, dto, [], SeriesDates(dto), [], newId);
    assert [] + SeriesDates(dto) == SeriesDates(dto);
  }

  /**
   * The walk over `dates`, after rows were planned for the conflict-free dates
   * `done`: it plans rows for all of `done + dates` exactly when none of them has a
   * conflict, and otherwise reports the first one that has.
   */
  lemma {:induction false} PlanFromMeaning(stored: seq<Booking>, dto: Booking, done: seq<Date>, dates: seq<Date>,
                                           rows: seq<Booking>, newId: nat -> Guid)
    requires |rows| == |done|
    requires forall k :: 0 <= k < |done| ==> rows[k] == NewRow(dto, newId(k), done[k]) && !DateConflict(stored, dto, done[k])
    ensures var r, all := PlanFrom(stored, dto, dates, rows, newId), done + dates;
      && (r.NewRows? <==> forall k :: 0 <= k < |all| ==> !DateConflict(stored, dto, all[k]))
      && (r.ConflictOn? ==> exists k: nat :: FirstConflictAt(stored, dto, all, k) && all[k] == r.date)
      && (r.NewRows? ==> |r.rows| == |all| && forall k :: 0 <= k < |all| ==> r.rows[k] == NewRow(dto, newId(k), all[k]))
    decreases |dates|
  {
    var all := done + dates;
    if dates == [] {
      assert all == done;
    } else if DateConflict(stored, dto, dates[0]) {
      assert all[|done|] == dates[0];
      assert FirstConflictAt(stored, dto, all, |done|);
    } else {
      var done', rows' := done + [dates[0]], rows + [NewRow(dto, newId(|rows|), dates[0])];
      PlanFromMeaning(stored, dto, done', dates[1..], rows', newId);
      assert done' + dates[1..] == all;
    }
  }

  // ---------------------------------------------------------------------------
  // The dates of a series

  /** A walk that has not passed the end repeat date visits the current date, then moves on by its stride, unless it does not repeat. */
  lemma DatesFromStep(dto: Booking, d: Date)
    requires NotAfterEnd(d, dto.endRepeatDate)
    ensures DatesFrom(dto, d) == [d] + if dto.repeatOption == DoesNotRepeat then [] else DatesFrom(dto, d + Stride(dto.repeatOption))
  {
  }

  /** A walk's dates lie in [d, last] and ascend strictly. */
  lemma {:induction false} StrideDatesBounds(d: Date, last: Date, opt: RepeatOption)
    ensures forall k :: 0 <= k < |StrideDates(d, last, opt)| ==> d <= StrideDates(d, last, opt)[k] <= last
    ensures forall i, j :: 0 <= i < j < |StrideDates(d, last, opt)| ==>
      StrideDates(d, last, opt)[i] < StrideDates(d, last, opt)[j]
    decreases last - d
  {
    if d <= last {
      match opt
      case Daily => StrideDatesBounds(d + 1, last, opt);
      case Weekly => StrideDatesBounds(d + 7, last, opt);
      case DoesNotRepeat =>
    }
  }

  /** Each date of a series lies between the booking date and the end repeat date, and the dates ascend strictly. */
  lemma SeriesDatesBounds(dto: Booking)
    ensures forall k :: 0 <= k < |SeriesDates(dto)| ==>
      dto.bookingDate <= SeriesDates(dto)[k] && NotAfterEnd(SeriesDates(dto)[k], dto.endRepeatDate)
    ensures forall i, j :: 0 <= i < j < |SeriesDates(dto)| ==> SeriesDates(dto)[i] < SeriesDates(dto)[j]
  {
    if dto.endRepeatDate.Some? {
      StrideDatesBounds(dto.bookingDate, dto.endRepeatDate.value, dto.repeatOption);
    }
  }

  /** The number of days between two consecutive dates of a recurring walk. */
  function Stride(opt: RepeatOption): nat
  {
    match opt
    case Daily => 1
    case Weekly => 7
    case DoesNotRepeat => 0
  }

  /** A daily walk visits d, d + 1, ... and a weekly one d, d + 7, ..., up to `last`. */
  lemma {:induction false} RecurringStrideDates(d: Date, last: Date, opt: RepeatOption)
    requires opt != DoesNotRepeat
    ensures |StrideDates(d, last, opt)| == if d <= last then (last - d) / Stride(opt) + 1 else 0
    ensures forall k :: 0 <= k < |StrideDates(d, last, opt)| ==> StrideDates(d, last, opt)[k] == d + k * Stride(opt)
    decreases last - d
  {
    if d <= last {
      var s := Stride(opt);
      RecurringStrideDates(d + s, last, opt);
      var rest := StrideDates(d + s, last, opt);
      assert StrideDates(d, last, opt) == [d] + rest;
      if opt == Daily {
        assert |rest| == last - d;
      } else {
        assert |rest| == (last - d) / 7 by {
          if d + 7 <= last {
            assert (last - d) / 7 == (last - d - 7) / 7 + 1;
          }
        }
        forall k | 1 <= k <= |rest|
          ensures StrideDates(d, last, opt)[k] == d + k * 7
        {
          assert rest[k - 1] == d + 7 + (k - 1) * 7;
        }
      }
    }
  }

  /**
   * The shape of a series: none without an end repeat date; only the booking date
   * (when it is not after the end) for a booking that does not repeat; otherwise
   * every day or every seventh day from the booking date up to the end repeat date.
   */
  lemma SeriesShape(dto: Booking)
    ensures dto.endRepeatDate.None? ==> SeriesDates(dto) == []
    ensures dto.endRepeatDate.Some? && dto.repeatOption == DoesNotRepeat ==>
      SeriesDates(dto) == if dto.bookingDate <= dto.endRepeatDate.value then [dto.bookingDate] else []
    ensures dto.endRepeatDate.Some? && dto.repeatOption != DoesNotRepeat ==>
      var first, last, s := dto.bookingDate, dto.endRepeatDate.value, Stride(dto.repeatOption);
      && |SeriesDates(dto)| == (if first <= last then (last - first) / s + 1 else 0)
      && forall k :: 0 <= k < |SeriesDates(dto)| ==> SeriesDates(dto)[k] == first + k * s
  {
    if dto.endRepeatDate.Some? && dto.repeatOption != DoesNotRepeat {
      RecurringStrideDates(dto.bookingDate, dto.endRepeatDate.value, dto.repeatOption);
    }
  }

  lemma DayOfWeekAfterAWeek(d: Date)
    ensures DayOfWeek(d + 7) == DayOfWeek(d)
  {
  }

  /** Every date of a weekly walk falls on the weekday of its first date. */
  lemma {:induction false} WeeklyStrideSameWeekday(d: Date, last: Date)
    ensures forall k :: 0 <= k < |StrideDates(d, last, Weekly)| ==> DayOfWeek(StrideDates(d, last, Weekly)[k]) == DayOfWeek(d)
    decreases last - d
  {
    if d <= last {
      WeeklyStrideSameWeekday(d + 7, last);
      DayOfWeekAfterAWeek(d);
    }
  }

  /**
   * A weekly series is created on the weekday of its booking date only, whatever
   * weekdays its mask names: the mask plays no part in the create walk.
   */
  lemma WeeklySeriesIgnoresMask(dto: Booking, mask: Option<WeekdayMask>)
    requires dto.repeatOption == Weekly
    ensures SeriesDates(dto.(daysToRepeatOn := mask)) == SeriesDates(dto)
    ensures forall k :: 0 <= k < |SeriesDates(dto)| ==> DayOfWeek(SeriesDates(dto)[k]) == DayOfWeek(dto.bookingDate)
  {
    if dto.endRepeatDate.Some? {
      WeeklyStrideSameWeekday(dto.bookingDate, dto.endRepeatDate.value);
    }
  }

  // ---------------------------------------------------------------------------
  // The rows a series adds

  /**
   * Adding the rows of a series none of whose dates has a conflict keeps a
   * clash-free store clash-free: the new rows miss every stored row, and they lie
   * on distinct dates, so they miss each other.
   */
  lemma CreateKeepsClashFree(stored: seq<Booking>, dto: Booking, rows: seq<Booking>, newId: nat -> Guid)
    requires ClashFree(stored)
    requires forall k :: 0 <= k < |SeriesDates(dto)| ==> !DateConflict(stored, dto, SeriesDates(dto)[k])
    requires |rows| == |SeriesDates(dto)|
    requires forall k :: 0 <= k < |rows| ==> rows[k] == NewRow(dto, newId(k), SeriesDates(dto)[k])
    ensures ClashFree(stored + rows)
  {
    var dates := SeriesDates(dto);
    SeriesDatesBounds(dto);
    var all := stored + rows;
    forall i, j | 0 <= i < |all| && 0 <= j < |all| && i != j
      ensures !Clash(all[i], all[j])
    {
      if i < |stored| && j >= |stored| {
        var k := j - |stored|;
        if Clash(all[i], all[j]) {
          assert BlocksDate(stored[i], dto, dates[k]);
        }
      } else if i >= |stored| && j < |stored| {
        var k := i - |stored|;
        if Clash(all[i], all[j]) {
          OverlapsSymmetric(all[i], all[j]);
          assert BlocksDate(stored[j], dto, dates[k]);
        }
      } else if i >= |stored| && j >= |stored| {
        var ki, kj := i - |stored|, j - |stored|;
        assert dates[ki] != dates[kj];
      }
    }
  }
}
