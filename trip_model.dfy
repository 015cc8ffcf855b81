/** The trip document of models/Trip.js: its embedded bookings, the seat
    queries and updates it offers (isSeatAvailable, bookSeat, cancelBooking),
    its derived views (availableSeats, totalRevenue, bookingPercentage) and
    the bounds its schema puts on stored values. */
module TripModel {
  import opened Common

  /** A trip's id, matched as the path gives it. */
  type TripId = string

  datatype BookingStatus = Confirmed | Pending | Cancelled
  datatype PaymentStatus = Paid | PaymentPending | Refunded
  datatype TripStatus = Scheduled | InProgress | Completed | TripCancelled

  /** One embedded booking; `bookingDate` is a timestamp. */
  datatype Booking = Booking(
    patronId: PatronId,
    seatNumber: int,
    bookingDate: int,
    status: BookingStatus,
    paymentStatus: PaymentStatus,
    notes: Option<string>)

  /** The booking bookSeat pushes: the given patron and seat, the current
      time, and the schema defaults for the two status fields. */
  function NewBooking(patronId: PatronId, seatNumber: int, now: int): (b: Booking)
    ensures b.patronId == patronId && b.seatNumber == seatNumber && b.bookingDate == now
    ensures b.status == Confirmed && b.paymentStatus == PaymentPending && b.notes.None?
  {
    Booking(patronId, seatNumber, now, Confirmed, PaymentPending, None)
  }

  // ---------------------------------------------------------------------
  // Seat queries over a booking list
  // ---------------------------------------------------------------------

  /** isSeatAvailable: the negation of `bookings.some(b => b.seatNumber === s)`,
      scanning the list front to back. */
  function NoBookingOn(bs: seq<Booking>, seat: int): (r: bool)
    ensures r <==> forall i :: 0 <= i < |bs| ==> bs[i].seatNumber != seat
  {
    |bs| == 0 || (bs[0].seatNumber != seat && NoBookingOn(bs[1..], seat))
  }

  /** No two bookings share a seat number. */
  predicate SeatsDistinct(bs: seq<Booking>) {
    forall i, j :: 0 <= i < j < |bs| ==> bs[i].seatNumber != bs[j].seatNumber
  }

  /** Every booked seat lies in 1..capacity. */
  predicate SeatsWithin(bs: seq<Booking>, capacity: int) {
    forall i :: 0 <= i < |bs| ==> 1 <= bs[i].seatNumber <= capacity
  }

  /** cancelBooking's `bookings.filter(b => b.seatNumber !== s)`. */
  function Without(bs: seq<Booking>, seat: int): (r: seq<Booking>)
    ensures |r| <= |bs|
    ensures NoBookingOn(r, seat)
    ensures forall b :: b in r <==> b in bs && b.seatNumber != seat
    ensures NoBookingOn(bs, seat) ==> r == bs
  {
    if bs == [] then []
    else if bs[0].seatNumber != seat then [bs[0]] + Without(bs[1..], seat)
    else Without(bs[1..], seat)
  }

  /** Filtering works piece by piece, so the bookings that remain keep their
      original order. */
  lemma {:induction false} WithoutDistributes(a: seq<Booking>, b: seq<Booking>, seat: int)
    ensures Without(a + b, seat) == Without(a, seat) + Without(b, seat)
  {
    if a == [] {
      assert a + b == b;
    } else {
      assert (a + b)[1..] == a[1..] + b;
      WithoutDistributes(a[1..], b, seat);
    }
  }

  /** Cancelling the same seat twice is cancelling it once. */
  lemma WithoutIdempotent(bs: seq<Booking>, seat: int)
    ensures Without(Without(bs, seat), seat) == Without(bs, seat)
  {
  }

  /** How many bookings hold a given seat. */
  function CountOnSeat(bs: seq<Booking>, seat: int): nat {
    if bs == [] then 0
    else (if bs[0].seatNumber == seat then 1 else 0) + CountOnSeat(bs[1..], seat)
  }

  /** With distinct seats a seat is held by one booking or by none. */
  lemma {:induction false} CountOnSeatDistinct(bs: seq<Booking>, seat: int)
    requires SeatsDistinct(bs)
    ensures CountOnSeat(bs, seat) == if NoBookingOn(bs, seat) then 0 else 1
  {
    if bs != [] {
      CountOnSeatDistinct(bs[1..], seat);
      if bs[0].seatNumber == seat {
        assert NoBookingOn(bs[1..], seat);
      }
    }
  }

  /** Cancelling a seat removes exactly the bookings on it. */
  lemma {:induction false} WithoutRemovesCount(bs: seq<Booking>, seat: int)
    ensures |Without(bs, seat)| == |bs| - CountOnSeat(bs, seat)
  {
    if bs != [] {
      WithoutRemovesCount(bs[1..], seat);
    }
  }

  /** Cancelling a seat keeps the remaining seats distinct. */
  lemma {:induction false} WithoutKeepsDistinct(bs: seq<Booking>, seat: int)
    requires SeatsDistinct(bs)
    ensures SeatsDistinct(Without(bs, seat))
  {
    if bs != [] {
      assert SeatsDistinct(bs[1..]);
      WithoutKeepsDistinct(bs[1..], seat);
      var r := Without(bs, seat);
      if bs[0].seatNumber != seat {
        forall j | 0 < j < |r| ensures r[0].seatNumber != r[j].seatNumber {
          assert r[j] in Without(bs[1..], seat);
        }
      }
    }
  }

  /** Appending a booking keeps seats distinct exactly when its seat was
      free. */
  lemma AppendKeepsDistinct(bs: seq<Booking>, b: Booking)
    ensures SeatsDistinct(bs + [b]) <==> SeatsDistinct(bs) && NoBookingOn(bs, b.seatNumber)
  {
    if SeatsDistinct(bs + [b]) {
      forall i, j | 0 <= i < j < |bs| ensures bs[i].seatNumber != bs[j].seatNumber {
        assert (bs + [b])[i] == bs[i] && (bs + [b])[j] == bs[j];
      }
      forall i | 0 <= i < |bs| ensures bs[i].seatNumber != b.seatNumber {
        assert (bs + [b])[i] == bs[i] && (bs + [b])[|bs|] == b;
      }
    }
  }

  /** Revenue at one price splits over two groups of bookings. */
  lemma RevenueSplits(a: int, b: int, price: int)
    ensures (a + b) * price == a * price + b * price
  {
  }

  // ---------------------------------------------------------------------
  // Counting seats: distinct seats inside 1..capacity cannot outnumber it
  // ---------------------------------------------------------------------

  /** How many bookings hold a seat in 1..n. */
  function CountInRange(bs: seq<Booking>, n: int): nat {
    if bs == [] then 0
    else (if 1 <= bs[0].seatNumber <= n then 1 else 0) + CountInRange(bs[1..], n)
  }

  lemma {:induction false} CountInRangeStep(bs: seq<Booking>, n: int)
    requires n >= 1
    ensures CountInRange(bs, n) == CountInRange(bs, n - 1) + CountOnSeat(bs, n)
  {
    if bs != [] {
      CountInRangeStep(bs[1..], n);
    }
  }

  lemma {:induction false} CountInRangeAll(bs: seq<Booking>, capacity: int)
    requires SeatsWithin(bs, capacity)
    ensures CountInRange(bs, capacity) == |bs|
  {
    if bs != [] {
      CountInRangeAll(bs[1..], capacity);
    }
  }

  /** How many of the seats 1..n hold a booking: the booked entries of a
      seat map of n seats. */
  function BookedSeatsUpTo(bs: seq<Booking>, n: int): nat
    decreases n
  {
    if n < 1 then 0
    else BookedSeatsUpTo(bs, n - 1) + (if NoBookingOn(bs, n) then 0 else 1)
  }

  /** With distinct seats, the booked seats among 1..n are exactly the
      bookings whose seat lies in 1..n. */
  lemma {:induction false} BookedSeatsCountBookings(bs: seq<Booking>, n: int)
    requires SeatsDistinct(bs)
    ensures BookedSeatsUpTo(bs, n) == CountInRange(bs, n)
    decreases n
  {
    if n < 1 {
      EmptyRange(bs, n);
    } else {
      BookedSeatsCountBookings(bs, n - 1);
      CountInRangeStep(bs, n);
      CountOnSeatDistinct(bs, n);
    }
  }

  lemma {:induction false} EmptyRange(bs: seq<Booking>, n: int)
    requires n < 1
    ensures CountInRange(bs, n) == 0
  {
    if bs != [] {
      EmptyRange(bs[1..], n);
    }
  }

  lemma {:induction false} BookedSeatsAtMost(bs: seq<Booking>, n: int)
    ensures BookedSeatsUpTo(bs, n) <= if n < 1 then 0 else n
    decreases n
  {
    if n >= 1 {
      BookedSeatsAtMost(bs, n - 1);
    }
  }

  /** Pigeonhole: distinct seats, all inside 1..capacity, number at most
      capacity. Nothing in the source establishes the second premise (seat
      numbers are never compared with busCapacity), so this is the most the
      model can promise about availableSeats staying non-negative. */
  lemma DistinctSeatsFitCapacity(bs: seq<Booking>, capacity: int)
    requires SeatsDistinct(bs) && SeatsWithin(bs, capacity)
    ensures |bs| <= capacity || (bs == [] && capacity < 1)
    ensures BookedSeatsUpTo(bs, capacity) == |bs|
  {
    BookedSeatsCountBookings(bs, capacity);
    CountInRangeAll(bs, capacity);
    BookedSeatsAtMost(bs, capacity);
  }

  // ---------------------------------------------------------------------
  // Time of day: /^([01]?[0-9]|2[0-3]):[0-5][0-9]$/
  // ---------------------------------------------------------------------

  predicate IsHourPair(a: char, b: char) {
    ((a == '0' || a == '1') && IsDigit(b)) || (a == '2' && '0' <= b <= '3')
  }

  predicate IsMinuteText(m: string) {
    |m| == 2 && '0' <= m[0] <= '5' && IsDigit(m[1])
  }

  /** The time pattern of the `time` and `returnTime` paths: a one-digit
      hour, or a two-digit hour 00..23, then a colon and minutes 00..59. */
  predicate ValidTime(s: string)
    ensures ValidTime(s) ==> (|s| == 4 || |s| == 5) && s[|s| - 3] == ':' && IsDigit(s[|s| - 1])
  {
    (|s| == 4 && IsDigit(s[0]) && s[1] == ':' && IsMinuteText(s[2..]))
    || (|s| == 5 && IsHourPair(s[0], s[1]) && s[2] == ':' && IsMinuteText(s[3..]))
  }

  /** The hour and minute a valid time string denotes. */
  function TimeOfDay(s: string): (t: (nat, nat))
    requires ValidTime(s)
    ensures t.0 <= 23 && t.1 <= 59
  {
    var hh := s[..|s| - 3];
    var mm := s[|s| - 2..];
    assert AllDigits(hh) && AllDigits(mm);
    ShortDecimalValue(hh);
    ShortDecimalValue(mm);
    (DecimalValue(hh), DecimalValue(mm))
  }

  function DigitChar(d: nat): (c: char)
    requires d <= 9
    ensures IsDigit(c) && DigitOf(c) == d
  {
    ('0' as int + d) as char
  }

  /** The zero-padded HH:MM spelling of an hour and a minute. */
  function TimeText(hour: nat, minute: nat): (s: string)
    requires hour <= 23 && minute <= 59
    ensures |s| == 5 && ValidTime(s)
  {
    [DigitChar(hour / 10), DigitChar(hour % 10), ':', DigitChar(minute / 10), DigitChar(minute % 10)]
  }

  /** Reading the padded spelling back gives the hour and the minute. */
  lemma TimeTextRoundTrip(hour: nat, minute: nat)
    requires hour <= 23 && minute <= 59
    ensures TimeOfDay(TimeText(hour, minute)) == (hour, minute)
  {
    var s := TimeText(hour, minute);
    ShortDecimalValue(s[..2]);
    ShortDecimalValue(s[3..]);
  }

  /** Two digit characters spell the tens and the units of their value. */
  lemma DigitPairSpelling(a: char, b: char)
    requires IsDigit(a) && IsDigit(b)
    ensures var v := 10 * DigitOf(a) + DigitOf(b);
            DigitChar(v / 10) == a && DigitChar(v % 10) == b
  {
  }

  /** A valid time with a two-digit hour is the padded spelling of its
      value. */
  lemma LongTimeSpelling(s: string)
    requires ValidTime(s) && |s| == 5
    ensures var t := TimeOfDay(s); s == TimeText(t.0, t.1)
  {
    var t := TimeOfDay(s);
    ShortDecimalValue(s[..2]);
    ShortDecimalValue(s[3..]);
    DigitPairSpelling(s[0], s[1]);
    DigitPairSpelling(s[3], s[4]);
  }

  /** A valid time with a one-digit hour is the padded spelling of its
      value without the leading zero. */
  lemma ShortTimeSpelling(s: string)
    requires ValidTime(s) && |s| == 4
    ensures var t := TimeOfDay(s); t.0 <= 9 && ['0'] + s == TimeText(t.0, t.1)
  {
    var t := TimeOfDay(s);
    ShortDecimalValue(s[..1]);
    ShortDecimalValue(s[2..]);
    DigitPairSpelling('0', s[0]);
    DigitPairSpelling(s[2], s[3]);
  }

  /** Every valid time is the padded spelling of its value, or that
      spelling without the leading zero of a one-digit hour. */
  lemma TimeSpellings(s: string)
    requires ValidTime(s)
    ensures var t := TimeOfDay(s);
            s == TimeText(t.0, t.1) || (t.0 <= 9 && ['0'] + s == TimeText(t.0, t.1))
  {
    if |s| == 5 {
      LongTimeSpelling(s);
    } else {
      ShortTimeSpelling(s);
    }
  }

  // ---------------------------------------------------------------------
  // The trip document
  // ---------------------------------------------------------------------

  datatype SaveResult = Saved | SeatAlreadyBooked | ValidationError

  /** The values an update writes to a trip's own paths. */
  datatype TripFields = TripFields(
    destination: string,
    date: int,
    time: string,
    busCapacity: int,
    price: int,
    departureLocation: string,
    returnTime: Option<string>,
    description: Option<string>)

  /** The schema's validators on those paths, after the trim setters:
      required and at most 100 UTF-16 code units for the destination, a
      date after `now`, the time pattern, a capacity of 1..60, a
      non-negative price, a required departure location, the pattern on a
      return time and at most 500 code units of description. */
  predicate SchemaAccepts(f: TripFields, now: int)
    ensures SchemaAccepts(f, now) ==>
              1 <= |Trim(f.destination)| <= 100
              && (f.description.Some? ==> |f.description.value| <= 500)
  {
    && Trim(f.destination) != [] && Utf16Length(Trim(f.destination)) <= 100
    && f.date > now
    && ValidTime(f.time)
    && 1 <= f.busCapacity <= 60
    && f.price >= 0
    && Trim(f.departureLocation) != []
    && (f.returnTime.Some? ==> ValidTime(f.returnTime.value))
    && (f.description.Some? ==> Utf16Length(f.description.value) <= 500)
  }

  /** A trip's own paths, everything but its id and its bookings. An
      update replaces them together; the bookings array is what bookSeat and
      cancelBooking change in place. */
  datatype TripDetails = TripDetails(
    destination: string,
    date: int,
    time: string,
    busCapacity: int,
    price: int,
    departureLocation: string,
    returnTime: Option<string>,
    description: Option<string>,
    status: TripStatus)

  /** The bounds the schema checks on the paths of a stored trip (the
      clock-dependent "date in the future" validator aside). */
  predicate DetailsValid(d: TripDetails) {
    && d.destination != [] && Trimmed(d.destination) && Utf16Length(d.destination) <= 100
    && ValidTime(d.time)
    && 1 <= d.busCapacity <= 60
    && d.price >= 0
    && d.departureLocation != [] && Trimmed(d.departureLocation)
    && (d.returnTime.Some? ==> ValidTime(d.returnTime.value))
    && (d.description.Some? ==> Utf16Length(d.description.value) <= 500)
  }

  /** The paths after an update with `f` and an optional new status: the
      trim setters on the two required strings, the other required paths
      as given, and an optional path the body leaves out keeping its
      previous value. */
  predicate UpdatedFrom(d: TripDetails, prev: TripDetails, f: TripFields, st: Option<TripStatus>) {
    && d.destination == Trim(f.destination) && d.date == f.date && d.time == f.time
    && d.busCapacity == f.busCapacity && d.price == f.price
    && d.departureLocation == Trim(f.departureLocation)
    && d.returnTime == (if f.returnTime.Some? then f.returnTime else prev.returnTime)
    && d.description == (if f.description.Some? then f.description else prev.description)
    && d.status == (if st.Some? then st.value else prev.status)
  }

  class Trip {
    const id: TripId
    var details: TripDetails
    var bookings: seq<Booking>

    /** The schema's bounds on the paths and on every booking's seat. */
    ghost predicate Valid()
      reads this
    {
      DetailsValid(details) && forall i :: 0 <= i < |bookings| ==> bookings[i].seatNumber >= 1
    }

    /** `new Trip(body)`: the trim setters on the destination and the
        departure location, status `scheduled`, no bookings. */
    constructor (id: TripId, f: TripFields)
      ensures this.id == id && bookings == []
      ensures details == TripDetails(Trim(f.destination), f.date, f.time, f.busCapacity, f.price,
                                     Trim(f.departureLocation), f.returnTime, f.description, Scheduled)
    {
      this.id := id;
      details := TripDetails(Trim(f.destination), f.date, f.time, f.busCapacity, f.price,
                             Trim(f.departureLocation), f.returnTime, f.description, Scheduled);
      bookings := [];
    }

    /** findByIdAndUpdate with `runValidators` on this document: the trim
        setters, then the validators; an update they reject changes nothing.
        A path the body does not carry keeps its value; the bookings are not
        touched. */
    method ApplyUpdate(f: TripFields, newStatus: Option<TripStatus>, now: int) returns (r: SaveResult)
      modifies this
      ensures r != SeatAlreadyBooked
      ensures r == ValidationError <==> !SchemaAccepts(f, now)
      ensures r == Saved ==> UpdatedFrom(details, old(details), f, newStatus)
      ensures r != Saved ==> details == old(details)
      ensures bookings == old(bookings)
      ensures old(Valid()) ==> Valid()
    {
      if !SchemaAccepts(f, now) {
        return ValidationError;
      }
      var d := details;
      var rt := if f.returnTime.Some? then f.returnTime else d.returnTime;
      var desc := if f.description.Some? then f.description else d.description;
      var st := if newStatus.Some? then newStatus.value else d.status;
      details := TripDetails(Trim(f.destination), f.date, f.time, f.busCapacity, f.price,
                             Trim(f.departureLocation), rt, desc, st);
      r := Saved;
    }

    /** isSeatAvailable: no booking holds the seat. */
    function IsSeatAvailable(seatNumber: int): (r: bool)
      reads this
      ensures r <==> forall i :: 0 <= i < |bookings| ==> bookings[i].seatNumber != seatNumber
    {
      NoBookingOn(bookings, seatNumber)
    }

    /** bookSeat: refuse a taken seat; otherwise push the booking and save.
        The save validates every path of the loaded trip, so the schema's
        `min: 1` on the seat number refuses a seat below 1 and the date
        validator refuses the save once the trip's date is no longer in the
        future; a refused save stores nothing. */
    method BookSeat(patronId: PatronId, seatNumber: int, now: int) returns (r: SaveResult)
      requires Valid()
      modifies this`bookings
      ensures Valid()
      ensures r == SeatAlreadyBooked <==> !NoBookingOn(old(bookings), seatNumber)
      ensures r == ValidationError <==>
                NoBookingOn(old(bookings), seatNumber) && (seatNumber < 1 || details.date <= now)
      ensures r == Saved ==> bookings == old(bookings) + [NewBooking(patronId, seatNumber, now)]
      ensures r == Saved ==> bookings[|bookings| - 1].status == Confirmed
                             && bookings[|bookings| - 1].paymentStatus == PaymentPending
      ensures r != Saved ==> bookings == old(bookings)
      ensures r == Saved ==> TotalRevenue() == old(TotalRevenue()) + details.price
      ensures SeatsDistinct(old(bookings)) ==> SeatsDistinct(bookings)
    {
      if !IsSeatAvailable(seatNumber) {
        return SeatAlreadyBooked;
      }
      if seatNumber < 1 || details.date <= now {
        return ValidationError;
      }
      AppendKeepsDistinct(bookings, NewBooking(patronId, seatNumber, now));
      RevenueSplits(|bookings|, 1, details.price);
      bookings := bookings + [NewBooking(patronId, seatNumber, now)];
      r := Saved;
    }

    /** cancelBooking: keep every booking not on the seat, then save; the
        save is refused, and nothing stored changes, once the trip's date is
        no longer in the future. */
    method CancelBooking(seatNumber: int, now: int) returns (r: SaveResult)
      requires Valid()
      modifies this`bookings
      ensures Valid()
      ensures r != SeatAlreadyBooked
      ensures r == ValidationError <==> details.date <= now
      ensures r == Saved ==> bookings == Without(old(bookings), seatNumber)
      ensures r == Saved ==> |bookings| == |old(bookings)| - CountOnSeat(old(bookings), seatNumber)
      ensures r == Saved ==>
                TotalRevenue() == old(TotalRevenue()) - CountOnSeat(old(bookings), seatNumber) * details.price
      ensures r != Saved ==> bookings == old(bookings)
      ensures SeatsDistinct(old(bookings)) ==> SeatsDistinct(bookings)
    {
      if details.date <= now {
        return ValidationError;
      }
      var kept, dropped := Without(bookings, seatNumber), CountOnSeat(bookings, seatNumber);
      WithoutRemovesCount(bookings, seatNumber);
      RevenueSplits(|kept|, dropped, details.price);
      if SeatsDistinct(bookings) {
        WithoutKeepsDistinct(bookings, seatNumber);
      }
      forall i | 0 <= i < |kept| ensures kept[i].seatNumber >= 1 {
        assert kept[i] in bookings;
      }
      bookings := kept;
      r := Saved;
    }

    /** The availableSeats virtual: never more than the capacity, and, when
        the bookings hold distinct seats inside the bus, the number of seats
        no booking holds, so never negative. */
    function AvailableSeats(): (r: int)
      reads this
      ensures r <= details.busCapacity
      ensures details.busCapacity >= 1 && SeatsDistinct(bookings) && SeatsWithin(bookings, details.busCapacity) ==>
                0 <= r == details.busCapacity - BookedSeatsUpTo(bookings, details.busCapacity)
    {
      if details.busCapacity >= 1 && SeatsDistinct(bookings) && SeatsWithin(bookings, details.busCapacity) then
        DistinctSeatsFitCapacity(bookings, details.busCapacity);
        details.busCapacity - |bookings|
      else
        details.busCapacity - |bookings|
    }

    /** The totalRevenue virtual: no revenue without bookings, and never
        negative at a price the schema accepts. */
    function TotalRevenue(): (r: int)
      reads this
      ensures |bookings| == 0 ==> r == 0
      ensures details.price >= 0 ==> r >= 0
    {
      |bookings| * details.price
    }

    /** The bookingPercentage virtual: bookings over capacity, as a
        percentage rounded half up (Math.round). */
    function BookingPercentage(): (r: int)
      reads this
      requires details.busCapacity >= 1
      ensures details.busCapacity * (2 * r - 1) <= 200 * |bookings| < details.busCapacity * (2 * r + 1)
      ensures |bookings| == 0 ==> r == 0
      ensures |bookings| == details.busCapacity ==> r == 100
    {
      var n, c := |bookings|, details.busCapacity;
      var r := (200 * n + c) / (2 * c);
      RoundHalfUp(n, c, r);
      r
    }
  }

  /** r = (200n + c) / 2c is 100n/c rounded half up. */
  lemma RoundHalfUp(n: nat, c: int, r: int)
    requires c >= 1 && r == (200 * n + c) / (2 * c)
    ensures c * (2 * r - 1) <= 200 * n < c * (2 * r + 1)
    ensures n == 0 ==> r == 0
    ensures n == c ==> r == 100
  {
    var x, d := 200 * n + c, 2 * c;
    assert d * r + x % d == x;
    assert 0 <= x % d < d;
    assert d * r == 2 * (c * r);
    assert c * (2 * r - 1) == 2 * (c * r) - c;
    assert c * (2 * r + 1) == 2 * (c * r) + c;
    if n == 0 {
      if r >= 1 { MulMonotone(c, 1, r); }
      if r <= -1 { MulMonotone(c, r, -1); }
    }
    if n == c {
      if r >= 101 { MulMonotone(c, 101, r); }
      if r <= 99 { MulMonotone(c, r, 99); }
    }
  }

  lemma MulMonotone(c: int, a: int, b: int)
    requires c >= 1 && a <= b
    ensures c * a <= c * b
  {
    assert c * b - c * a == c * (b - a);
  }
}
