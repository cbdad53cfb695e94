/**
 * The field rules a create-or-update request must pass before any conflict is
 * looked for. Each failed rule adds one error, in the fixed order of the rules.
 */
module Validation {
  import opened Bookings

  /** The rules, in the order they are checked. */
  datatype ValidationError =
    | CarIdRequired
    | BookingDateRequired
    | StartTimeRequired
    | EndTimeRequired
    | StartNotBeforeEnd
    | EndRepeatDateRequired

  /** The message reported for each failed rule. */
  function Message(e: ValidationError): string
  {
    match e
    case CarIdRequired => "CarId is required."
    case BookingDateRequired => "BookingDate is required."
    case StartTimeRequired => "StartTime is required."
    case EndTimeRequired => "EndTime is required."
    case StartNotBeforeEnd => "StartTime must be earlier than EndTime."
    case EndRepeatDateRequired => "EndRepeatDate is required for recurring bookings."
  }

  /** The position of a rule in the checking order. */
  function Rank(e: ValidationError): nat
  {
    match e
    case CarIdRequired => 0
    case BookingDateRequired => 1
    case StartTimeRequired => 2
    case EndTimeRequired => 3
    case StartNotBeforeEnd => 4
    case EndRepeatDateRequired => 5
  }

  /** Whether a request fails rule e. Default dates and times count as missing. */
  predicate Violates(dto: Booking, e: ValidationError)
  {
    match e
    case CarIdRequired => dto.carId == EmptyGuid
    case BookingDateRequired => dto.bookingDate == DefaultDate
    case StartTimeRequired => dto.startTime == DefaultTime
    case EndTimeRequired => dto.endTime == DefaultTime
    case StartNotBeforeEnd => dto.startTime >= dto.endTime
    case EndRepeatDateRequired => dto.repeatOption != DoesNotRepeat && dto.endRepeatDate.None?
  }

  /** Whether a request passes every rule. */
  predicate IsValid(dto: Booking)
  {
    forall e :: !Violates(dto, e)
  }

  /**
   * What the error list of a request is: exactly the rules it fails, each once,
   * in checking order.
   */
  predicate ReportsExactly(dto: Booking, errors: seq<ValidationError>)
  {
    && (forall e :: e in errors <==> Violates(dto, e))
    && (forall i, j :: 0 <= i < j < |errors| ==> Rank(errors[i]) < Rank(errors[j]))
  }

  /** Checks the rules one after another and collects the errors of those that fail. */
  method ValidateBooking(dto: Booking) returns (errors: seq<ValidationError>)
    ensures forall e :: e in errors <==> Violates(dto, e)
    ensures forall i, j :: 0 <= i < j < |errors| ==> Rank(errors[i]) < Rank(errors[j])
    ensures errors == [] <==> IsValid(dto)
  {
    errors := [];
    if dto.carId == EmptyGuid {
      errors := errors + [CarIdRequired];
    }
    assert errors == FailedBefore(dto, 1);
    if dto.bookingDate == DefaultDate {
      errors := errors + [BookingDateRequired];
    }
    assert errors == FailedBefore(dto, 2);
    if dto.startTime == DefaultTime {
      errors := errors + [StartTimeRequired];
    }
    assert errors == FailedBefore(dto, 3);
    if dto.endTime == DefaultTime {
      errors := errors + [EndTimeRequired];
    }
    assert errors == FailedBefore(dto, 4);
    if dto.startTime >= dto.endTime {
      errors := errors + [StartNotBeforeEnd];
    }
    assert errors == FailedBefore(dto, 5);
    if dto.repeatOption != DoesNotRepeat && dto.endRepeatDate.None? {
      errors := errors + [EndRepeatDateRequired];
    }
    assert errors == FailedBefore(dto, 6);
    AllRulesReported(dto, errors);
  }

  /** The rule checked in position k. */
  function RuleAt(k: nat): (e: ValidationError)
    requires k < 6
    ensures Rank(e) == k
  {
    match k
    case 0 => CarIdRequired
    case 1 => BookingDateRequired
    case 2 => StartTimeRequired
    case 3 => EndTimeRequired
    case 4 => StartNotBeforeEnd
    case _ => EndRepeatDateRequired
  }

  /** The errors of the failed rules among the first k checked, in checking order. */
  function FailedBefore(dto: Booking, k: nat): seq<ValidationError>
    requires k <= 6
  {
    if k == 0 then []
    else FailedBefore(dto, k - 1) + (if Violates(dto, RuleAt(k - 1)) then [RuleAt(k - 1)] else [])
  }

  /** Once every rule is checked, the errors are exactly the failed rules, in checking order. */
  lemma AllRulesReported(dto: Booking, errors: seq<ValidationError>)
    requires errors == FailedBefore(dto, 6)
    ensures forall e :: e in errors <==> Violates(dto, e)
    ensures forall i, j :: 0 <= i < j < |errors| ==> Rank(errors[i]) < Rank(errors[j])
    ensures errors == [] <==> IsValid(dto)
  {
    FailedBeforeReports(dto, 6);
    if errors != [] {
      assert Violates(dto, errors[0]);
    }
  }

  /** The first k rules report exactly the rules among them a request fails, in checking order. */
  lemma {:induction false} FailedBeforeReports(dto: Booking, k: nat)
    requires k <= 6
    ensures forall e :: e in FailedBefore(dto, k) <==> Violates(dto, e) && Rank(e) < k
    ensures forall i, j :: 0 <= i < j < |FailedBefore(dto, k)| ==> Rank(FailedBefore(dto, k)[i]) < Rank(FailedBefore(dto, k)[j])
  {
    if k > 0 {
      FailedBeforeReports(dto, k - 1);
      forall e ensures e in FailedBefore(dto, k) <==> Violates(dto, e) && Rank(e) < k {
        if Rank(e) == k - 1 {
          RankInjective(e, RuleAt(k - 1));
        }
      }
    }
  }

  /** Rank tells the rules apart. */
  lemma RankInjective(x: ValidationError, y: ValidationError)
    requires Rank(x) == Rank(y)
    ensures x == y
  {
  }

  /**
   * The error list is determined by the request: two lists that both report exactly
   * the failed rules in checking order are the same list.
   */
  lemma {:induction false} ReportsExactlyUnique(dto: Booking, xs: seq<ValidationError>, ys: seq<ValidationError>)
    requires ReportsExactly(dto, xs) && ReportsExactly(dto, ys)
    ensures xs == ys
  {
    SortedListsWithSameMembers(xs, ys);
  }

  lemma {:induction false} SortedListsWithSameMembers(xs: seq<ValidationError>, ys: seq<ValidationError>)
    requires forall e :: e in xs <==> e in ys
    requires forall i, j :: 0 <= i < j < |xs| ==> Rank(xs[i]) < Rank(xs[j])
    requires forall i, j :: 0 <= i < j < |ys| ==> Rank(ys[i]) < Rank(ys[j])
    ensures xs == ys
    decreases |xs| + |ys|
  {
    if xs != [] {
      assert xs[0] in ys;
    }
    if ys != [] {
      assert ys[0] in xs;
    }
    if xs != [] && ys != [] {
      // the head of each list is its member of least rank, so the heads agree
      assert Rank(xs[0]) <= Rank(ys[0]) by {
        assert ys[0] in ys;
        var j :| 0 <= j < |xs| && xs[j] == ys[0];
      }
      assert Rank(ys[0]) <= Rank(xs[0]) by {
        assert xs[0] in xs;
        var i :| 0 <= i < |ys| && ys[i] == xs[0];
      }
      RankInjective(xs[0], ys[0]);
      forall e ensures e in xs[1..] <==> e in ys[1..] {
        if e in xs[1..] {
          var i :| 1 <= i < |xs| && xs[i] == e;
          assert Rank(xs[0]) < Rank(e);
          assert e in ys;
        }
        if e in ys[1..] {
          var i :| 1 <= i < |ys| && ys[i] == e;
          assert Rank(ys[0]) < Rank(e);
          assert e in xs;
        }
      }
      SortedListsWithSameMembers(xs[1..], ys[1..]);
      assert xs == [xs[0]] + xs[1..];
      assert ys == [ys[0]] + ys[1..];
    }
  }

  /** A request that passes validation names a car, has a start time before its end time, and a recurring one has an end repeat date. */
  lemma ValidRequest(dto: Booking)
    requires IsValid(dto)
    ensures dto.carId != EmptyGuid && dto.bookingDate != DefaultDate
    ensures dto.startTime < dto.endTime
    ensures dto.repeatOption != DoesNotRepeat ==> dto.endRepeatDate.Some?
  {
    assert !Violates(dto, CarIdRequired);
    assert !Violates(dto, BookingDateRequired);
    assert !Violates(dto, StartNotBeforeEnd);
    assert !Violates(dto, EndRepeatDateRequired);
  }
}
