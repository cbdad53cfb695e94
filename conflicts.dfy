/**
 * When two bookings of a car collide. Both request paths compare times with one
 * overlap test; the update path looks for another row of the same car on the
 * request's date, the create path looks for a row of the car on each date of the
 * new series.
 */
module Conflicts {
  import opened Bookings

  /**
   * The overlap test of both paths, for a stored row b and a request c: the time
   * ranges overlap, or they are the very same range.
   */
  predicate Overlaps(b: Booking, c: Booking)
  {
    (b.startTime < c.endTime && b.endTime > c.startTime)
    || (b.startTime == c.startTime && b.endTime == c.endTime)
  }

  /** Whether instant t lies in the half-open time range [start, end) of a booking. */
  predicate During(t: Time, b: Booking)
  {
    b.startTime <= t < b.endTime
  }

  /** A stored row that blocks an update: same car, another id, same date, overlapping times. */
  predicate BlocksUpdate(b: Booking, dto: Booking)
  {
    b.carId == dto.carId && b.id != dto.id && b.bookingDate == dto.bookingDate && Overlaps(b, dto)
  }

  /** Whether any stored row blocks the update a request asks for. */
  predicate UpdateConflict(stored: seq<Booking>, dto: Booking)
  {
    exists i :: 0 <= i < |stored| && BlocksUpdate(stored[i], dto)
  }

  /** A stored row that blocks a new booking of the request on date d: same car, date d, overlapping times. */
  predicate BlocksDate(b: Booking, dto: Booking, d: Date)
  {
    b.carId == dto.carId && b.bookingDate == d && Overlaps(b, dto)
  }

  /** Whether any stored row blocks a new booking of the request on date d. */
  predicate DateConflict(stored: seq<Booking>, dto: Booking, d: Date)
  {
    exists i :: 0 <= i < |stored| && BlocksDate(stored[i], dto, d)
  }

  /** Two rows that clash: the same car on the same date with overlapping times. */
  predicate Clash(a: Booking, b: Booking)
  {
    a.carId == b.carId && a.bookingDate == b.bookingDate && Overlaps(a, b)
  }

  /** The schedule the conflict checks protect: no two rows clash. */
  predicate ClashFree(rows: seq<Booking>)
  {
    forall i, j :: 0 <= i < |rows| && 0 <= j < |rows| && i != j ==> !Clash(rows[i], rows[j])
  }

  /** Whether no two rows share an id (the store's primary key). */
  predicate UniqueIds(rows: seq<Booking>)
  {
    forall i, j :: 0 <= i < |rows| && 0 <= j < |rows| && i != j ==> rows[i].id != rows[j].id
  }

  // ---------------------------------------------------------------------------
  // The overlap test

  /** The overlap test does not depend on which booking is the stored one. */
  lemma OverlapsSymmetric(b: Booking, c: Booking)
    ensures Overlaps(b, c) <==> Overlaps(c, b)
  {
  }

  /**
   * For bookings whose start lies before their end, the overlap test holds exactly
   * when some instant lies in both half-open time ranges.
   */
  lemma OverlapsIffSharedInstant(b: Booking, c: Booking)
    requires b.startTime < b.endTime && c.startTime < c.endTime
    ensures Overlaps(b, c) <==> exists t :: During(t, b) && During(t, c)
  {
    if Overlaps(b, c) {
      var t := if b.startTime < c.startTime then c.startTime else b.startTime;
      assert During(t, b) && During(t, c);
    }
  }

  /**
   * Ranges that only touch (one ends where or before the other starts) overlap only
   * through the equality clause, when they are the same range; a range whose start
   * lies before its end never overlaps a range that starts where or after it ends.
   */
  lemma TouchingRanges(b: Booking, c: Booking)
    requires b.endTime <= c.startTime
    ensures Overlaps(b, c) <==> b.startTime == c.startTime && b.endTime == c.endTime
    ensures b.startTime < b.endTime ==> !Overlaps(b, c)
  {
  }

  /** For a request whose start lies before its end, the equality clause adds nothing to the overlap test. */
  lemma EqualityClauseRedundant(b: Booking, c: Booking)
    requires c.startTime < c.endTime
    ensures Overlaps(b, c) <==> b.startTime < c.endTime && b.endTime > c.startTime
  {
  }

  // ---------------------------------------------------------------------------
  // The update check

  /** A row never blocks an update of itself: rows with the request's id are passed over. */
  lemma UpdateIgnoresOwnRow(stored: seq<Booking>, own: Booking, dto: Booking)
    requires own.id == dto.id
    ensures UpdateConflict(stored + [own], dto) <==> UpdateConflict(stored, dto)
  {
    if UpdateConflict(stored + [own], dto) {
      var i :| 0 <= i < |stored + [own]| && BlocksUpdate((stored + [own])[i], dto);
      assert i < |stored| && BlocksUpdate(stored[i], dto);
    }
    if UpdateConflict(stored, dto) {
      var i :| 0 <= i < |stored| && BlocksUpdate(stored[i], dto);
      assert BlocksUpdate((stored + [own])[i], dto);
    }
  }

  /** If a row a blocks updating b, then b blocks updating a: the update check is symmetric. */
  lemma UpdateConflictSymmetric(a: Booking, b: Booking)
    ensures UpdateConflict([a], b) <==> UpdateConflict([b], a)
  {
    if UpdateConflict([a], b) {
      assert BlocksUpdate([b][0], a);
    }
    if UpdateConflict([b], a) {
      assert BlocksUpdate([a][0], b);
    }
  }

  /**
   * On a store whose ids are unique, replacing the row with the request's id by the
   * request keeps the schedule clash-free when the update check finds no conflict.
   */
  lemma UpdateKeepsClashFree(stored: seq<Booking>, k: nat, dto: Booking)
    requires ClashFree(stored) && UniqueIds(stored)
    requires k < |stored| && stored[k].id == dto.id
    requires !UpdateConflict(stored, dto)
    ensures ClashFree(stored[k := dto]) && UniqueIds(stored[k := dto])
  {
    var rows := stored[k := dto];
    forall i, j | 0 <= i < |rows| && 0 <= j < |rows| && i != j
      ensures !Clash(rows[i], rows[j])
    {
      if i == k {
        assert stored[j].id != dto.id;
        assert !BlocksUpdate(stored[j], dto);
      } else if j == k {
        assert stored[i].id != dto.id;
        assert !BlocksUpdate(stored[i], dto);
      }
    }
  }
}
