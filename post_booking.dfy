/**
 * The create-or-update request. A request first passes the field rules; one with
 * an id updates the stored row of that id unless another row of the car blocks
 * it; one without an id creates its series unless one of its dates is blocked.
 * The store is a snapshot of the rows; saving is modelled as the snapshot the
 * request leaves behind.
 */
module BookingRequests {
  import opened Bookings
  import opened Validation
  import opened Conflicts
  import opened BookingSeries

  /** What a create-or-update request answers. */
  datatype PostResult =
    | ValidationFailed(errors: seq<ValidationError>)     // the failed rules, in checking order
    | BookingNotFound                                    // an update of an id no row has
    | UpdateRejected                                     // another row of the car blocks the update
    | Updated(bookingId: Guid, store: seq<Booking>)      // the store after the update is saved
    | CreateRejected(date: Date)                         // the first date of the series that is blocked
    | Created(bookingIds: seq<Guid>, store: seq<Booking>) // the store after the new rows are saved

  /** The position of the row with a given id, looked up by primary key. */
  function FindRow(stored: seq<Booking>, id: Guid): (r: Option<nat>)
    ensures r.Some? ==> r.value < |stored| && stored[r.value].id == id
    ensures r.None? <==> forall i :: 0 <= i < |stored| ==> stored[i].id != id
  {
    if stored == [] then None
    else if stored[0].id == id then Some(0)
    else match FindRow(stored[1..], id)
      case None => None
      case Some(k) => Some(k + 1)
  }

  /**
   * Handles a create-or-update request against the stored rows; `newId(k)` is the
   * fresh id of the k-th row a create adds.
   */
  method PostBooking(dto: Booking, stored: seq<Booking>, newId: nat -> Guid) returns (r: PostResult)
    // validation comes first, and any failed rule stops the request
    ensures r.ValidationFailed? <==> !IsValid(dto)
    ensures r.ValidationFailed? ==> ReportsExactly(dto, r.errors)
    // the update path
    ensures IsValid(dto) && dto.id != EmptyGuid ==>
      && (r.BookingNotFound? <==> FindRow(stored, dto.id).None?)
      && (r.UpdateRejected? <==> FindRow(stored, dto.id).Some? && UpdateConflict(stored, dto))
      && (r.Updated? <==> FindRow(stored, dto.id).Some? && !UpdateConflict(stored, dto))
    ensures r.Updated? ==>
      && FindRow(stored, dto.id).Some? && r.bookingId == dto.id
      && r.store == stored[FindRow(stored, dto.id).value := dto]
    // the create path
    ensures IsValid(dto) && dto.id == EmptyGuid ==>
      && (r.CreateRejected? || r.Created?)
      && (r.Created? <==> forall k :: 0 <= k < |SeriesDates(dto)| ==> !DateConflict(stored, dto, SeriesDates(dto)[k]))
    ensures r.CreateRejected? ==>
      exists k: nat :: FirstConflictAt(stored, dto, SeriesDates(dto), k) && SeriesDates(dto)[k] == r.date
    ensures r.Created? ==>
      && |r.bookingIds| == |SeriesDates(dto)|
      && |r.store| == |stored| + |SeriesDates(dto)|
      && r.store[..|stored|] == stored
      && forall k :: 0 <= k < |SeriesDates(dto)| ==>
           r.bookingIds[k] == newId(k) && r.store[|stored| + k] == NewRow(dto, newId(k), SeriesDates(dto)[k])
    // what the conflict checks protect
    ensures r.Updated? && ClashFree(stored) && UniqueIds(stored) ==> ClashFree(r.store)
    ensures r.Created? && ClashFree(stored) ==> ClashFree(r.store)
  {
    var validationErrors := ValidateBooking(dto);
    if validationErrors != [] {
      return ValidationFailed(validationErrors);
    }

    if dto.id != EmptyGuid {
      var found := FindRow(stored, dto.id);
      if found.None? {
        return BookingNotFound;
      }
      var k := found.value;
      var existingBooking := stored[k];
      var conflictingBooking := UpdateConflict(stored, dto);
      if conflictingBooking {
        return UpdateRejected;
      }
      existingBooking := existingBooking.(
        bookingDate := dto.bookingDate,
        startTime := dto.startTime,
        endTime := dto.endTime,
        repeatOption := dto.repeatOption,
        endRepeatDate := dto.endRepeatDate,
        daysToRepeatOn := dto.daysToRepeatOn,
        carId := dto.carId);
      assert existingBooking == dto;
      if ClashFree(stored) && UniqueIds(stored) {
        UpdateKeepsClashFree(stored, k, dto);
      }
      return Updated(existingBooking.id, stored[k := existingBooking]);
    }

    var series := PlanSeries(dto, stored, newId);
    match series {
      case ConflictOn(d) =>
        return CreateRejected(d);
      case NewRows(bookingsToAdd) =>
        var ids := seq(|bookingsToAdd|, i requires 0 <= i < |bookingsToAdd| => bookingsToAdd[i].id);
        if ClashFree(stored) {
          CreateKeepsClashFree(stored, dto, bookingsToAdd, newId);
        }
        assert (stored + bookingsToAdd)[..|stored|] == stored;
        return Created(ids, stored + bookingsToAdd);
    }
  }
}
