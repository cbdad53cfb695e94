/**
 * The seed calendar: every booking is walked from its booking date up to its end
 * repeat date (or only its booking date when it has none) and put in the bucket
 * of each date it reaches; the buckets are then flattened, in the order their
 * dates were first met, into calendar entries that carry each booking's own date.
 */
module SeedCalendar {
  import opened Bookings
  import opened BookingSeries

  /** The last date a booking's seed walk may reach: its end repeat date, or its booking date when it has none. */
  function SeedLimit(b: Booking): Date
  {
    match b.endRepeatDate
    case Some(e) => e
    case None => b.bookingDate
  }

  /** The date the seed walk moves to after d. */
  function SeedNext(b: Booking, d: Date): Date
  {
    match b.repeatOption
    case Daily => d + 1
    case Weekly => d + 7
    case DoesNotRepeat => if b.endRepeatDate.Some? then b.endRepeatDate.value + 1 else d + 1
  }

  /** The dates the seed walk of b reaches from d on. */
  function SeedWalk(b: Booking, d: Date): seq<Date>
    decreases SeedLimit(b) - d
  {
    if d <= SeedLimit(b) then [d] + SeedWalk(b, SeedNext(b, d)) else []
  }

  /** The dates the seed walk of b reaches. */
  function SeedDates(b: Booking): seq<Date>
  {
    SeedWalk(b, b.bookingDate)
  }

  /** The walked dates of a sequence of bookings, booking after booking. */
  function AllSeedDates(bs: seq<Booking>): seq<Date>
  {
    if bs == [] then [] else AllSeedDates(bs[..|bs| - 1]) + SeedDates(bs[|bs| - 1])
  }

  /** The distinct elements of s, in the order of their first occurrence. */
  function Dedup(s: seq<Date>): seq<Date>
  {
    if s == [] then []
    else
      var init, x := s[..|s| - 1], s[|s| - 1];
      if x in init then Dedup(init) else Dedup(init) + [x]
  }

  /** The bookings whose seed walk reaches d, in their order. */
  function BookingsOn(bs: seq<Booking>, d: Date): seq<Booking>
  {
    if bs == [] then []
    else
      var last := bs[|bs| - 1];
      BookingsOn(bs[..|bs| - 1], d) + (if d in SeedDates(last) then [last] else [])
  }

  /** The dates of the buckets, in the order they were created. */
  function SeedKeys(bs: seq<Booking>): seq<Date>
  {
    Dedup(AllSeedDates(bs))
  }

  /** The buckets: each walked date to the bookings that reach it. */
  function SeedBuckets(bs: seq<Booking>): map<Date, seq<Booking>>
  {
    map d | d in AllSeedDates(bs) :: BookingsOn(bs, d)
  }

  /** The entry flattening emits for a booking: its own date and times, the other fields left at their defaults. */
  function SeedEntry(b: Booking): CalendarEntry
  {
    CalendarEntry(EmptyGuid, b.bookingDate, b.startTime, b.endTime, None, EmptyGuid)
  }

  /** The entries of one bucket, in bucket order. */
  function SeedEntries(bucket: seq<Booking>): seq<CalendarEntry>
  {
    if bucket == [] then [] else SeedEntries(bucket[..|bucket| - 1]) + [SeedEntry(bucket[|bucket| - 1])]
  }

  /** The bucket of date k; a date without a bucket has none of its own. */
  function Bucket(cal: map<Date, seq<Booking>>, k: Date): seq<Booking>
  {
    if k in cal then cal[k] else []
  }

  /** The entries of the buckets, bucket after bucket in the order of `keys`. */
  function Flatten(keys: seq<Date>, cal: map<Date, seq<Booking>>): seq<CalendarEntry>
  {
    if keys == [] then [] else Flatten(keys[..|keys| - 1], cal) + SeedEntries(Bucket(cal, keys[|keys| - 1]))
  }

  /** The calendar under construction: the bucket dates in creation order, and the buckets. */
  datatype Buckets = Buckets(keys: seq<Date>, calendar: map<Date, seq<Booking>>)

  /** One step of a walk: the bucket of d is created if it is missing, and b is appended to it. */
  function AddTo(s: Buckets, d: Date, b: Booking): Buckets
  {
    if d in s.calendar then Buckets(s.keys, s.calendar[d := s.calendar[d] + [b]])
    else Buckets(s.keys + [d], s.calendar[d := [b]])
  }

  /** The buckets after b is added on each of the dates, in order. */
  function AddAll(s: Buckets, dates: seq<Date>, b: Booking): Buckets
  {
    if dates == [] then s else AddTo(AddAll(s, dates[..|dates| - 1], b), dates[|dates| - 1], b)
  }

  /** The buckets after every booking has been walked, in order. */
  function Collect(bs: seq<Booking>): Buckets
  {
    if bs == [] then Buckets([], map[])
    else AddAll(Collect(bs[..|bs| - 1]), SeedDates(bs[|bs| - 1]), bs[|bs| - 1])
  }

  /**
   * The seed calendar of the bookings: the buckets are built, then flattened. The
   * result holds one entry per booking and date its walk reaches.
   */
  method GetSeedData(bookings: seq<Booking>) returns (result: seq<CalendarEntry>)
    ensures result == Flatten(SeedKeys(bookings), SeedBuckets(bookings))
    ensures |result| == |AllSeedDates(bookings)|
  {
    var keys, calendar := BuildBuckets(bookings);
    result := FlattenBuckets(keys, calendar);
  }

  /**
   * Walks every booking and appends it to the bucket of each date it reaches,
   * creating a bucket the first time its date is met. `keys` lists the bucket dates
   * in the order they were created.
   */
  method BuildBuckets(bookings: seq<Booking>) returns (keys: seq<Date>, calendar: map<Date, seq<Booking>>)
    ensures keys == SeedKeys(bookings)
    ensures calendar == SeedBuckets(bookings)
    ensures |Flatten(keys, calendar)| == |AllSeedDates(bookings)|
  {
    calendar := map[];
    keys := [];
    var i := 0;
    while i < |bookings|
      invariant 0 <= i <= |bookings|
      invariant Buckets(keys, calendar) == Collect(bookings[..i])
    {
      keys, calendar := AddBooking(bookings[i], keys, calendar);
      assert bookings[..i + 1][..i] == bookings[..i];
      i := i + 1;
    }
    assert bookings[..i] == bookings;
    CollectIsSeedBuckets(bookings);
  }

  /**
   * Walks one booking from its booking date up to its end repeat date (or only its
   * booking date when it has none), appending it to the bucket of each date reached.
   */
  method AddBooking(booking: Booking, keys0: seq<Date>, calendar0: map<Date, seq<Booking>>)
    returns (keys: seq<Date>, calendar: map<Date, seq<Booking>>)
    ensures Buckets(keys, calendar) == AddAll(Buckets(keys0, calendar0), SeedDates(booking), booking)
  {
    keys, calendar := keys0, calendar0;
    ghost var walked: seq<Date> := [];
    var currentDate := booking.bookingDate;
    while currentDate <= (if booking.endRepeatDate.Some? then booking.endRepeatDate.value else booking.bookingDate)
      invariant booking.bookingDate <= currentDate
      invariant SeedDates(booking) == walked + SeedWalk(booking, currentDate)
      invariant Buckets(keys, calendar) == AddAll(Buckets(keys0, calendar0), walked, booking)
      decreases SeedLimit(booking) - currentDate
    {
      ghost var before, prev, done := Buckets(keys, calendar), currentDate, walked;
      ghost var rest := SeedWalk(booking, SeedNext(booking, currentDate));
      assert SeedWalk(booking, currentDate) == [currentDate] + rest;
      if currentDate !in calendar {
        calendar := calendar[currentDate := []];
        keys := keys + [currentDate];
        assert calendar[currentDate] + [booking] == [booking];
        assert calendar[currentDate := [booking]] == before.calendar[currentDate := [booking]];
      }
      calendar := calendar[currentDate := calendar[currentDate] + [booking]];
      assert (walked + [currentDate])[..|walked|] == walked;
      walked := walked + [currentDate];
      currentDate := match booking.repeatOption
        case Daily => currentDate + 1
        case Weekly => currentDate + 7
        case DoesNotRepeat =>
          if booking.endRepeatDate.Some? then booking.endRepeatDate.value + 1 else currentDate + 1;
      assert currentDate == SeedNext(booking, prev);
      assert (done + [prev]) + rest == done + ([prev] + rest);
    }
    assert walked == SeedDates(booking);
  }

  /** Emits the entries of the buckets, bucket after bucket in the order of `keys`. */
  method FlattenBuckets(keys: seq<Date>, calendar: map<Date, seq<Booking>>) returns (result: seq<CalendarEntry>)
    ensures result == Flatten(keys, calendar)
  {
    result := [];
    var n := 0;
    while n < |keys|
      invariant 0 <= n <= |keys|
      invariant result == Flatten(keys[..n], calendar)
    {
      var bucket := Bucket(calendar, keys[n]);
      var m := 0;
      while m < |bucket|
        invariant 0 <= m <= |bucket|
        invariant result == Flatten(keys[..n], calendar) + SeedEntries(bucket[..m])
      {
        assert bucket[..m + 1][..m] == bucket[..m];
        result := result + [SeedEntry(bucket[m])];
        m := m + 1;
      }
      assert bucket[..m] == bucket;
      assert keys[..n + 1][..n] == keys[..n];
      n := n + 1;
    }
    assert keys[..n] == keys;
  }

  // ---------------------------------------------------------------------------
  // Helpers about the buckets

  lemma {:induction false} DedupMembers(s: seq<Date>)
    ensures forall x :: x in Dedup(s) <==> x in s
  {
    if s != [] {
      DedupMembers(s[..|s| - 1]);
      assert s == s[..|s| - 1] + [s[|s| - 1]];
    }
  }

  lemma {:induction false} DedupDistinct(s: seq<Date>)
    ensures forall i, j :: 0 <= i < j < |Dedup(s)| ==> Dedup(s)[i] != Dedup(s)[j]
  {
    if s != [] {
      DedupDistinct(s[..|s| - 1]);
      DedupMembers(s[..|s| - 1]);
    }
  }

  /** A date none of the bookings reaches has an empty bucket. */
  lemma {:induction false} BookingsOnMissing(bs: seq<Booking>, d: Date)
    requires d !in AllSeedDates(bs)
    ensures BookingsOn(bs, d) == []
  {
    if bs != [] {
      BookingsOnMissing(bs[..|bs| - 1], d);
    }
  }

  lemma {:induction false} FlattenIgnoresOtherKeys(keys: seq<Date>, cal: map<Date, seq<Booking>>, k: Date, v: seq<Booking>)
    requires k !in keys
    ensures Flatten(keys, cal[k := v]) == Flatten(keys, cal)
  {
    if keys != [] {
      FlattenIgnoresOtherKeys(keys[..|keys| - 1], cal, k, v);
    }
  }

  lemma {:induction false} FlattenGrowBucket(keys: seq<Date>, cal: map<Date, seq<Booking>>, k: Date, b: Booking)
    requires k in keys && k in cal
    requires forall i, j :: 0 <= i < j < |keys| ==> keys[i] != keys[j]
    ensures |Flatten(keys, cal[k := cal[k] + [b]])| == |Flatten(keys, cal)| + 1
  {
    var init, last := keys[..|keys| - 1], keys[|keys| - 1];
    if last == k {
      assert k !in init;
      FlattenIgnoresOtherKeys(init, cal, k, cal[k] + [b]);
      assert (cal[k] + [b])[..|cal[k]|] == cal[k];
    } else {
      assert keys == init + [last];
      FlattenGrowBucket(init, cal, k, b);
    }
  }

  // ---------------------------------------------------------------------------
  // What the seed calendar holds

  /** Adding one booking on one date only changes the bucket of that date, which gains the booking. */
  lemma AddToBuckets(s: Buckets, d: Date, b: Booking)
    ensures AddTo(s, d, b).calendar[d] == Bucket(s.calendar, d) + [b]
    ensures forall x :: x in s.calendar && x != d ==> AddTo(s, d, b).calendar[x] == s.calendar[x]
  {
    if d !in s.calendar {
      assert [] + [b] == [b];
    }
  }

  /** Adding one booking on one date lists the date when it is new. */
  lemma AddToKeys(s: Buckets, seen: seq<Date>, d: Date, b: Booking)
    requires s.keys == Dedup(seen)
    requires forall x :: x in s.calendar <==> x in seen
    ensures AddTo(s, d, b).keys == Dedup(seen + [d])
    ensures forall x :: x in AddTo(s, d, b).calendar <==> x in seen + [d]
  {
    assert (seen + [d])[..|seen|] == seen;
    if d in s.calendar {
      assert Dedup(seen + [d]) == Dedup(seen);
    } else {
      assert Dedup(seen + [d]) == Dedup(seen) + [d];
    }
  }

  /** Adding one booking on one date adds one entry to the flattening. */
  lemma AddToCount(s: Buckets, d: Date, b: Booking)
    requires forall x :: x in s.calendar <==> x in s.keys
    requires forall i, j :: 0 <= i < j < |s.keys| ==> s.keys[i] != s.keys[j]
    ensures |Flatten(AddTo(s, d, b).keys, AddTo(s, d, b).calendar)| == |Flatten(s.keys, s.calendar)| + 1
  {
    if d in s.calendar {
      FlattenGrowBucket(s.keys, s.calendar, d, b);
    } else {
      FlattenNewBucket(s.keys, s.calendar, d, b);
    }
  }

  lemma FlattenNewBucket(keys: seq<Date>, cal: map<Date, seq<Booking>>, d: Date, b: Booking)
    requires d !in keys
    ensures |Flatten(keys + [d], cal[d := [b]])| == |Flatten(keys, cal)| + 1
  {
    var keys' := keys + [d];
    assert keys'[..|keys|] == keys;
    FlattenIgnoresOtherKeys(keys, cal, d, [b]);
    assert SeedEntries([b]) == [SeedEntry(b)] by {
      assert [b][..0] == [];
    }
  }

  /** Adding a booking on a sequence of dates lists the dates first met, after the ones already listed. */
  lemma {:induction false} AddAllKeys(s: Buckets, seen: seq<Date>, dates: seq<Date>, b: Booking)
    requires s.keys == Dedup(seen)
    requires forall x :: x in s.calendar <==> x in seen
    ensures AddAll(s, dates, b).keys == Dedup(seen + dates)
    ensures forall x :: x in AddAll(s, dates, b).calendar <==> x in seen + dates
  {
    if dates != [] {
      var init, d := dates[..|dates| - 1], dates[|dates| - 1];
      AddAllKeys(s, seen, init, b);
      AddToKeys(AddAll(s, init, b), seen + init, d, b);
      assert seen + init + [d] == seen + dates;
    } else {
      assert seen + dates == seen;
    }
  }

  /** Adding a booking on distinct dates: the bucket of each of the dates gains the booking once, the others are unchanged. */
  lemma {:induction false} AddAllBuckets(s: Buckets, seen: seq<Date>, dates: seq<Date>, b: Booking)
    requires s.keys == Dedup(seen)
    requires forall x :: x in s.calendar <==> x in seen
    requires forall i, j :: 0 <= i < j < |dates| ==> dates[i] != dates[j]
    ensures forall x :: x in AddAll(s, dates, b).calendar ==>
      AddAll(s, dates, b).calendar[x] == Bucket(s.calendar, x) + (if x in dates then [b] else [])
  {
    if dates != [] {
      var init, d := dates[..|dates| - 1], dates[|dates| - 1];
      AddAllBuckets(s, seen, init, b);
      AddAllKeys(s, seen, init, b);
      AddToBuckets(AddAll(s, init, b), d, b);
      assert d !in init;
      forall x | x in AddAll(s, dates, b).calendar
        ensures AddAll(s, dates, b).calendar[x] == Bucket(s.calendar, x) + (if x in dates then [b] else [])
      {
        assert x in dates <==> x in init || x == d;
      }
    }
  }

  /** Adding a booking on a sequence of dates adds one entry per date to the flattening. */
  lemma {:induction false} AddAllCount(s: Buckets, seen: seq<Date>, dates: seq<Date>, b: Booking)
    requires s.keys == Dedup(seen)
    requires forall x :: x in s.calendar <==> x in seen
    ensures |Flatten(AddAll(s, dates, b).keys, AddAll(s, dates, b).calendar)| == |Flatten(s.keys, s.calendar)| + |dates|
  {
    if dates != [] {
      var init, d := dates[..|dates| - 1], dates[|dates| - 1];
      AddAllCount(s, seen, init, b);
      AddAllKeys(s, seen, init, b);
      DedupMembers(seen + init);
      DedupDistinct(seen + init);
      AddToCount(AddAll(s, init, b), d, b);
    }
  }

  /** The buckets the walk collects are the specified ones, and their flattening has one entry per walked date. */
  lemma {:induction false} CollectIsSeedBuckets(bs: seq<Booking>)
    ensures Collect(bs).keys == SeedKeys(bs)
    ensures Collect(bs).calendar == SeedBuckets(bs)
    ensures |Flatten(Collect(bs).keys, Collect(bs).calendar)| == |AllSeedDates(bs)|
  {
    if bs != [] {
      var init, b := bs[..|bs| - 1], bs[|bs| - 1];
      CollectIsSeedBuckets(init);
      SeedDatesAreStrideDates(b);
      AddAllKeys(Collect(init), AllSeedDates(init), SeedDates(b), b);
      AddAllBuckets(Collect(init), AllSeedDates(init), SeedDates(b), b);
      AddAllCount(Collect(init), AllSeedDates(init), SeedDates(b), b);
      var m := Collect(bs).calendar;
      forall x | x in m
        ensures m[x] == BookingsOn(bs, x)
      {
        if x !in AllSeedDates(init) {
          BookingsOnMissing(init, x);
        }
      }
      BucketsAgree(m, bs);
    }
  }

  /** A map with a bucket for exactly the walked dates, each holding the bookings that reach it, is the seed buckets. */
  lemma BucketsAgree(m: map<Date, seq<Booking>>, bs: seq<Booking>)
    requires forall x :: x in m <==> x in AllSeedDates(bs)
    requires forall x :: x in m ==> m[x] == BookingsOn(bs, x)
    ensures m == SeedBuckets(bs)
  {
  }

  lemma {:induction false} SeedWalkIsStride(b: Booking, d: Date)
    requires b.bookingDate <= d
    ensures SeedWalk(b, d) == StrideDates(d, SeedLimit(b), b.repeatOption)
    decreases SeedLimit(b) - d
  {
    if d <= SeedLimit(b) {
      if b.repeatOption != DoesNotRepeat {
        SeedWalkIsStride(b, SeedNext(b, d));
      } else {
        assert SeedWalk(b, SeedNext(b, d)) == [];
      }
    }
  }

  /**
   * The seed walk visits the same dates as the create walk up to the booking's
   * end repeat date (or its own date when it has none): every day, every seventh
   * day, or only the booking date.
   */
  lemma SeedDatesAreStrideDates(b: Booking)
    ensures SeedDates(b) == StrideDates(b.bookingDate, SeedLimit(b), b.repeatOption)
    ensures forall i, j :: 0 <= i < j < |SeedDates(b)| ==> SeedDates(b)[i] < SeedDates(b)[j]
    ensures forall k :: 0 <= k < |SeedDates(b)| ==> b.bookingDate <= SeedDates(b)[k] <= SeedLimit(b)
  {
    SeedWalkIsStride(b, b.bookingDate);
    StrideDatesBounds(b.bookingDate, SeedLimit(b), b.repeatOption);
  }

  /** A booking is in the bucket of d exactly when it is one of the bookings and its walk reaches d. */
  lemma {:induction false} BookingsOnMembers(bs: seq<Booking>, d: Date)
    ensures forall b :: b in BookingsOn(bs, d) <==> b in bs && d in SeedDates(b)
  {
    if bs != [] {
      BookingsOnMembers(bs[..|bs| - 1], d);
      assert bs == bs[..|bs| - 1] + [bs[|bs| - 1]];
    }
  }

  /**
   * The buckets: there is a bucket for date d exactly when some booking's walk
   * reaches d, and it holds exactly the bookings whose walk reaches d; the bucket
   * dates are listed once each.
   */
  lemma SeedBucketsExact(bs: seq<Booking>, d: Date)
    ensures d in SeedBuckets(bs) <==> d in SeedKeys(bs)
    ensures d in SeedBuckets(bs) ==>
      forall b :: b in SeedBuckets(bs)[d] <==> b in bs && d in SeedDates(b)
    ensures forall i, j :: 0 <= i < j < |SeedKeys(bs)| ==> SeedKeys(bs)[i] != SeedKeys(bs)[j]
  {
    DedupMembers(AllSeedDates(bs));
    DedupDistinct(AllSeedDates(bs));
    BookingsOnMembers(bs, d);
  }

  lemma {:induction false} SeedEntriesMembers(bucket: seq<Booking>)
    ensures |SeedEntries(bucket)| == |bucket|
    ensures forall i :: 0 <= i < |bucket| ==> SeedEntries(bucket)[i] == SeedEntry(bucket[i])
  {
    if bucket != [] {
      SeedEntriesMembers(bucket[..|bucket| - 1]);
    }
  }

  lemma {:induction false} FlattenFromBuckets(keys: seq<Date>, cal: map<Date, seq<Booking>>, e: CalendarEntry)
    requires e in Flatten(keys, cal)
    ensures exists k :: k in keys && k in cal && exists b :: b in cal[k] && e == SeedEntry(b)
  {
    var init, last := keys[..|keys| - 1], keys[|keys| - 1];
    if e in Flatten(init, cal) {
      FlattenFromBuckets(init, cal, e);
      var k :| k in init && k in cal && exists b :: b in cal[k] && e == SeedEntry(b);
      assert k in keys;
    } else {
      var bucket := Bucket(cal, last);
      SeedEntriesMembers(bucket);
      var i :| 0 <= i < |SeedEntries(bucket)| && SeedEntries(bucket)[i] == e;
      assert bucket[i] in cal[last];
    }
  }

  /**
   * Every seed entry is the entry of one of the bookings, carrying that booking's
   * own date (not the date of the bucket it came from), and that booking's walk
   * reaches at least one date.
   */
  lemma SeedEntriesFromBookings(bs: seq<Booking>, e: CalendarEntry)
    requires e in Flatten(SeedKeys(bs), SeedBuckets(bs))
    ensures exists b :: b in bs && e == SeedEntry(b) && SeedDates(b) != []
  {
    FlattenFromBuckets(SeedKeys(bs), SeedBuckets(bs), e);
    var k :| k in SeedKeys(bs) && k in SeedBuckets(bs) && exists b :: b in SeedBuckets(bs)[k] && e == SeedEntry(b);
    var b :| b in SeedBuckets(bs)[k] && e == SeedEntry(b);
    BookingsOnMembers(bs, k);
  }

  lemma {:induction false} FlattenSingleBooking(keys: seq<Date>, cal: map<Date, seq<Booking>>, b: Booking)
    requires forall k :: k in keys ==> k in cal && cal[k] == [b]
    ensures Flatten(keys, cal) == seq(|keys|, _ => SeedEntry(b))
  {
    if keys != [] {
      FlattenSingleBooking(keys[..|keys| - 1], cal, b);
      assert SeedEntries([b]) == [SeedEntry(b)] by {
        assert [b][..0] == [];
      }
    }
  }

  /**
   * A single booking's seed calendar is its entry once per date its walk reaches,
   * each carrying the booking's own date.
   */
  lemma SingleBookingSeed(b: Booking)
    ensures Flatten(SeedKeys([b]), SeedBuckets([b])) == seq(|SeedDates(b)|, _ => SeedEntry(b))
  {
    var dates := SeedDates(b);
    assert [b][..0] == [];
    assert AllSeedDates([b]) == dates;
    assert SeedKeys([b]) == dates by {
      SeedDatesAreStrideDates(b);
      DedupOfDistinct(dates);
    }
    var m := SeedBuckets([b]);
    forall k | k in dates
      ensures k in m && m[k] == [b]
    {
      assert BookingsOn([b], k) == BookingsOn([], k) + [b];
    }
    FlattenSingleBooking(dates, m, b);
  }

  lemma {:induction false} DedupOfDistinct(s: seq<Date>)
    requires forall i, j :: 0 <= i < j < |s| ==> s[i] < s[j]
    ensures Dedup(s) == s
  {
    if s != [] {
      var init := s[..|s| - 1];
      DedupOfDistinct(init);
      assert s[|s| - 1] !in init;
      assert s == init + [s[|s| - 1]];
    }
  }
}
