/** The trip handlers of routes/trips.js over the trip collection: create,
    update with the capacity rule, delete with the bookings rule, the booking
    handler's fixed sequence of guards, the cancel handler, the seat-map
    loop, the dashboard sums and the paged listing. */
module TripRoutes {
  import opened Common
  import opened TripModel
  import PatronRoutes
  import Pagination

  /** What a handler answers, HTTP plumbing aside. */
  datatype Outcome =
    | Ok
    | Invalid
    | TripNotFound
    | PatronNotFound
    | SeatTaken
    | AlreadyBooked
    | BookingNotFound
    | CapacityTooLow
    | HasBookings
    | ServerError

  // ---------------------------------------------------------------------
  // The seatNumber of a booking body
  // ---------------------------------------------------------------------

  /** A JSON body may carry the seat as a number or as a string. */
  datatype SeatValue = Num(n: int) | Text(s: string)

  /** isInt's pattern (leading zeros allowed): an optional sign, then at
      least one decimal digit. */
  predicate IsIntText(s: string)
    ensures IsIntText(s) ==> s != [] && (IsDigit(s[0]) || s[0] == '+' || s[0] == '-')
  {
    Unsigned(s) != [] && AllDigits(Unsigned(s))
  }

  function IntTextValue(s: string): int
    requires IsIntText(s)
  {
    var n: int := DecimalValue(Unsigned(s));
    if NegativeSign(s) then -n else n
  }

  /** isInt({ min: 1 }) applied to the value's string form. */
  predicate ValidSeatValue(v: SeatValue)
    ensures v.Text? && ValidSeatValue(v) ==> v.s != [] && !NegativeSign(v.s)
  {
    match v
    case Num(n) => n >= 1
    case Text(s) => IsIntText(s) && IntTextValue(s) >= 1
  }

  /** The number the seatNumber path stores once Mongoose casts the value. */
  function SeatNumberOf(v: SeatValue): (n: int)
    requires ValidSeatValue(v)
    ensures n >= 1
    ensures v.Num? ==> n == v.n
  {
    match v
    case Num(n) => n
    case Text(s) => IntTextValue(s)
  }

  /** The seat text "5" passes the check and is stored as seat 5. */
  lemma FiveAsText()
    ensures ValidSeatValue(Text("5")) && SeatNumberOf(Text("5")) == 5
  {
    assert Unsigned("5") == "5" && "5"[..0] == [];
  }

  // ---------------------------------------------------------------------
  // The booking guards on one trip's ledger
  // ---------------------------------------------------------------------

  /** `trip.bookings.find(b => b.patronId.toString() === id)` finds one. */
  function HasBookingFor(bs: seq<Booking>, id: string): (r: bool)
    ensures r <==> exists i :: 0 <= i < |bs| && bs[i].patronId == id
  {
    |bs| > 0 && (bs[0].patronId == id || HasBookingFor(bs[1..], id))
  }

  /** At most one booking per patron on a trip. */
  predicate OnePerPatron(bs: seq<Booking>) {
    forall i, j :: 0 <= i < j < |bs| ==> bs[i].patronId != bs[j].patronId
  }

  /** What the booking subschema accepts of every booking: a patron named
      by ObjectId text and a seat number of at least 1. */
  predicate SchemaLedger(bs: seq<Booking>) {
    forall i :: 0 <= i < |bs| ==> IsObjectIdText(bs[i].patronId) && bs[i].seatNumber >= 1
  }

  /** What the booking handler keeps true of every trip's ledger: distinct
      seats, one booking per patron, and what the subschema accepts. */
  predicate LedgerValid(bs: seq<Booking>) {
    SeatsDistinct(bs) && OnePerPatron(bs) && SchemaLedger(bs)
  }

  /** The seat check as written: `===` between the stored number and the
      body's value, so a seat sent as a string never matches. */
  predicate SeatFreeAsWritten(bs: seq<Booking>, v: SeatValue)
    ensures v.Num? ==> (SeatFreeAsWritten(bs, v) <==> NoBookingOn(bs, v.n))
    ensures ValidSeatValue(v) && NoBookingOn(bs, SeatNumberOf(v)) ==> SeatFreeAsWritten(bs, v)
  {
    match v
    case Num(n) => NoBookingOn(bs, n)
    case Text(_) => true
  }

  /** The seat check, the patron check and bookSeat, once the trip and an
      active patron were found, with the comparisons as written: the seat
      as the body sent it, the patron id as the body spelled it. The pushed
      booking holds the cast values. */
  function BookLedgerAsWritten(bs: seq<Booking>, ref: string, v: SeatValue, now: int): (r: (Outcome, seq<Booking>))
    requires IsCastableId(ref) && ValidSeatValue(v)
    ensures r.0 == SeatTaken <==> v.Num? && !NoBookingOn(bs, v.n)
    ensures r.0 == AlreadyBooked <==> SeatFreeAsWritten(bs, v) && HasBookingFor(bs, ref)
    ensures r.0 == Ok <==> SeatFreeAsWritten(bs, v) && !HasBookingFor(bs, ref)
    ensures r.0 == Ok ==> r.1 == bs + [NewBooking(CanonicalId(ref), SeatNumberOf(v), now)]
    ensures r.0 != Ok ==> r.1 == bs
  {
    if !SeatFreeAsWritten(bs, v) then (SeatTaken, bs)
    else if HasBookingFor(bs, ref) then (AlreadyBooked, bs)
    else (Ok, bs + [NewBooking(CanonicalId(ref), SeatNumberOf(v), now)])
  }

  /** The same guards comparing the cast values: the stored seat number
      with the seat number, the stored patron id with the id the body
      denotes. */
  function BookLedger(bs: seq<Booking>, id: PatronId, seat: int, now: int): (r: (Outcome, seq<Booking>))
    ensures r.0 == SeatTaken <==> !NoBookingOn(bs, seat)
    ensures r.0 == AlreadyBooked <==> NoBookingOn(bs, seat) && HasBookingFor(bs, id)
    ensures r.0 == Ok <==> NoBookingOn(bs, seat) && !HasBookingFor(bs, id)
    ensures r.0 == Ok ==> r.1 == bs + [NewBooking(id, seat, now)]
    ensures r.0 != Ok ==> r.1 == bs
  {
    if !NoBookingOn(bs, seat) then (SeatTaken, bs)
    else if HasBookingFor(bs, id) then (AlreadyBooked, bs)
    else (Ok, bs + [NewBooking(id, seat, now)])
  }

  /** The guards keep the ledger valid, and a successful booking leaves the
      patron on the trip exactly once, in the last booking. */
  lemma BookLedgerKeepsLedgerValid(bs: seq<Booking>, id: PatronId, seat: int, now: int)
    requires LedgerValid(bs) && IsObjectIdText(id) && seat >= 1
    ensures LedgerValid(BookLedger(bs, id, seat, now).1)
    ensures var r := BookLedger(bs, id, seat, now);
            r.0 == Ok ==> r.1[|r.1| - 1].patronId == id
                          && forall i :: 0 <= i < |r.1| - 1 ==> r.1[i].patronId != id
    ensures BookLedger(bs, id, seat, now).0 != Ok ==> BookLedger(bs, id, seat, now).1 == bs
  {
    var r := BookLedger(bs, id, seat, now);
    if r.0 == Ok {
      var b := NewBooking(id, seat, now);
      AppendKeepsDistinct(bs, b);
      assert forall i :: 0 <= i < |bs| ==> r.1[i] == bs[i];
    }
  }

  /** On a number and a lower-case id the two comparisons agree. */
  lemma AsWrittenAgreesOnCanonicalInput(bs: seq<Booking>, ref: string, n: int, now: int)
    requires IsObjectIdText(ref) && n >= 1
    ensures BookLedgerAsWritten(bs, ref, Num(n), now) == BookLedger(bs, ref, n, now)
  {
  }

  /** A seat sent as a string slips past the seat check: the booking is
      saved on a seat that is already booked, and the seats stop being
      distinct. */
  lemma AsWrittenDoublesSeat(bs: seq<Booking>, ref: string, s: string, now: int)
    requires IsCastableId(ref) && !HasBookingFor(bs, ref)
    requires ValidSeatValue(Text(s)) && !NoBookingOn(bs, IntTextValue(s))
    ensures var r := BookLedgerAsWritten(bs, ref, Text(s), now);
            r.0 == Ok && !SeatsDistinct(r.1)
    ensures BookLedger(bs, CanonicalId(ref), SeatNumberOf(Text(s)), now).0 == SeatTaken
  {
    var r := BookLedgerAsWritten(bs, ref, Text(s), now);
    var k :| 0 <= k < |bs| && bs[k].seatNumber == IntTextValue(s);
    assert r.1[k] == bs[k] && r.1[|bs|].seatNumber == IntTextValue(s);
  }

  /** Stored ids are lower case, so an id spelled with an upper-case hex
      digit never matches one. */
  lemma UpperCaseIdNeverMatches(bs: seq<Booking>, ref: string, k: nat)
    requires LedgerValid(bs) && k < |ref| && 'A' <= ref[k] <= 'F'
    ensures !HasBookingFor(bs, ref)
  {
    forall i | 0 <= i < |bs| ensures bs[i].patronId != ref {
      if |bs[i].patronId| == |ref| {
        assert IsLowerHexDigit(bs[i].patronId[k]);
      }
    }
  }

  /** A patron already on the trip, named by an id with an upper-case hex
      digit, slips past the patron check: the booking is saved and the
      patron holds two bookings on the trip. */
  lemma AsWrittenDoublesPatron(bs: seq<Booking>, ref: string, k: nat, seat: int, now: int)
    requires LedgerValid(bs) && IsCastableId(ref) && k < |ref| && 'A' <= ref[k] <= 'F'
    requires HasBookingFor(bs, CanonicalId(ref))
    requires seat >= 1 && NoBookingOn(bs, seat)
    ensures var r := BookLedgerAsWritten(bs, ref, Num(seat), now);
            r.0 == Ok && !OnePerPatron(r.1)
    ensures BookLedger(bs, CanonicalId(ref), seat, now).0 == AlreadyBooked
  {
    UpperCaseIdNeverMatches(bs, ref, k);
    var r := BookLedgerAsWritten(bs, ref, Num(seat), now);
    var j :| 0 <= j < |bs| && bs[j].patronId == CanonicalId(ref);
    assert r.1[j] == bs[j] && r.1[|bs|].patronId == CanonicalId(ref);
  }

  /** Nothing compares a seat number with the bus capacity: on a one-seat
      bus the guards admit seat 1 and then seat 2 for another patron, the
      ledger stays valid, and availableSeats becomes -1. */
  lemma OverbookingWithoutRangeCheck(a: PatronId, b: PatronId, now: int, t: Trip)
    requires IsObjectIdText(a) && IsObjectIdText(b) && a != b
    ensures var first := BookLedger([], a, 1, now);
            var second := BookLedger(first.1, b, 2, now);
            && first.0 == Ok && second.0 == Ok && LedgerValid(second.1)
            && |second.1| == 2 && !SeatsWithin(second.1, 1)
            && (t.details.busCapacity == 1 && t.bookings == second.1 ==> t.AvailableSeats() == -1)
  {
    var first := BookLedger([], a, 1, now);
    BookLedgerKeepsLedgerValid([], a, 1, now);
    assert first.1 == [NewBooking(a, 1, now)];
    BookLedgerKeepsLedgerValid(first.1, b, 2, now);
    var second := BookLedger(first.1, b, 2, now);
    assert second.1[1].seatNumber == 2;
  }

  // ---------------------------------------------------------------------
  // The update body's `bookings` path, as written
  // ---------------------------------------------------------------------

  /** The ledger after PUT /:id as written, whose body may carry a
      `bookings` array: the capacity rule compares the body's capacity with
      the stored count, then findByIdAndUpdate replaces the stored ledger by
      the body's one, which the update validators check only against the
      booking subschema (a refusal is a server error). */
  function UpdateLedgerAsWritten(stored: seq<Booking>, capacity: int, body: Option<seq<Booking>>): (r: (Outcome, seq<Booking>))
    ensures r.0 == CapacityTooLow <==> CapacityRefused(stored, capacity)
    ensures r.0 == ServerError <==> !CapacityRefused(stored, capacity) && body.Some? && !SchemaLedger(body.value)
    ensures r.0 == Ok <==> !CapacityRefused(stored, capacity) && (body.Some? ==> SchemaLedger(body.value))
    ensures r.0 == Ok ==> r.1 == if body.Some? then body.value else stored
    ensures r.0 != Ok ==> r.1 == stored
  {
    if CapacityRefused(stored, capacity) then (CapacityTooLow, stored)
    else if body.None? then (Ok, stored)
    else if !SchemaLedger(body.value) then (ServerError, stored)
    else (Ok, body.value)
  }

  /** On a trip without bookings, a PUT with capacity 1 and two bookings on
      seat 1 passes the capacity rule and the validators: the saved ledger
      repeats a seat and outnumbers the bus. */
  lemma UpdateAsWrittenOverbooks(a: PatronId, b: PatronId, now: int, t: Trip)
    requires IsObjectIdText(a) && IsObjectIdText(b)
    ensures var r := UpdateLedgerAsWritten([], 1, Some([NewBooking(a, 1, now), NewBooking(b, 1, now)]));
            && r.0 == Ok && !SeatsDistinct(r.1) && !LedgerValid(r.1)
            && (t.details.busCapacity == 1 && t.bookings == r.1 ==> t.AvailableSeats() == -1)
  {
    var body := [NewBooking(a, 1, now), NewBooking(b, 1, now)];
    assert SchemaLedger(body);
    var r := UpdateLedgerAsWritten([], 1, Some(body));
    assert r.1[0].seatNumber == r.1[1].seatNumber;
  }

  /** A PUT carrying `bookings: []` empties a booked trip's ledger without
      the cancel route, after which the delete guard lets the trip go. */
  lemma UpdateAsWrittenClearsLedger(stored: seq<Booking>, capacity: int)
    requires stored != [] && capacity >= |stored|
    ensures UpdateLedgerAsWritten(stored, capacity, Some([])) == (Ok, [])
  {
    assert SchemaLedger([]);
  }

  // ---------------------------------------------------------------------
  // The other guards
  // ---------------------------------------------------------------------

  /** validateTrip: trimmed destination and departure of 2..100
      characters, a date after `now`, the HH:MM pattern, a capacity of
      1..60, a non-negative price, an optional return time matching the
      pattern and an optional trimmed description of at most 500. */
  predicate ValidTripFields(f: TripFields, now: int)
    ensures ValidTripFields(f, now) ==>
              Trim(f.destination) != [] && Trim(f.departureLocation) != []
              && Utf16Length(Trim(f.destination)) <= 200
  {
    && 2 <= |Trim(f.destination)| <= 100
    && f.date > now
    && ValidTime(f.time)
    && 1 <= f.busCapacity <= 60
    && f.price >= 0
    && 2 <= |Trim(f.departureLocation)| <= 100
    && (f.returnTime.Some? ==> ValidTime(f.returnTime.value))
    && (f.description.Some? ==> |Trim(f.description.value)| <= 500)
  }

  /** The update handler's capacity rule: refuse a capacity below the
      number of bookings when there are some. */
  predicate CapacityRefused(bs: seq<Booking>, capacity: int)
    ensures bs == [] ==> !CapacityRefused(bs, capacity)
    ensures CapacityRefused(bs, capacity) ==> capacity < |bs|
  {
    |bs| > 0 && capacity < |bs|
  }

  /** A capacity the rule accepts leaves availableSeats non-negative, and a
      capacity equal to the booking count is accepted. */
  lemma CapacityRuleKeepsSeats(bs: seq<Booking>, capacity: int)
    requires capacity >= 1
    ensures !CapacityRefused(bs, capacity) <==> capacity - |bs| >= 0
    ensures !CapacityRefused(bs, |bs|)
  {
  }

  /** The body once the `.trim()` sanitizers of validateTrip have run. */
  function Sanitized(f: TripFields): TripFields {
    f.(destination := Trim(f.destination), departureLocation := Trim(f.departureLocation),
       description := TrimOption(f.description))
  }

  /** The schema's `maxlength` limits on the trimmed body, in UTF-16 code
      units, where validateTrip's `isLength` counts code points. */
  predicate FitsTripLengths(f: TripFields) {
    && Utf16Length(Trim(f.destination)) <= 100
    && (f.description.Some? ==> Utf16Length(Trim(f.description.value)) <= 500)
  }

  /** A body validateTrip accepts passes the schema's validators, once
      sanitized, exactly when its lengths also fit in UTF-16 code units; the
      trim setters leave it as it is. */
  lemma ValidatedFieldsPassSchema(f: TripFields, now: int)
    requires ValidTripFields(f, now)
    ensures SchemaAccepts(Sanitized(f), now) <==> FitsTripLengths(f)
    ensures Trim(Sanitized(f).destination) == Trim(f.destination)
    ensures Trim(Sanitized(f).departureLocation) == Trim(f.departureLocation)
  {
    TrimIdempotent(f.destination);
    TrimIdempotent(f.departureLocation);
  }

  /** Sixty bus emoji make a destination validateTrip accepts (60 code
      points) but the schema refuses (120 UTF-16 code units). */
  lemma AstralDestinationPassesOnlyValidation(now: int)
    ensures var f := TripFields(seq(60, _ => '\U{1F68C}'), now + 1, "9:30", 40, 25, "Baltimore", None, None);
            ValidTripFields(f, now) && !FitsTripLengths(f) && !SchemaAccepts(Sanitized(f), now)
  {
    SixtyAstralChars();
    var f := TripFields(seq(60, _ => '\U{1F68C}'), now + 1, "9:30", 40, 25, "Baltimore", None, None);
    assert ValidTime("9:30") by {
      assert "9:30"[2..] == "30";
    }
    assert |Trim("Baltimore")| == 9 by {
      TrimOfTrimmed("Baltimore");
    }
    ValidatedFieldsPassSchema(f, now);
  }

  // ---------------------------------------------------------------------
  // The seat map
  // ---------------------------------------------------------------------

  /** One entry of the seat map. */
  datatype SeatEntry = SeatEntry(seatNumber: int, isBooked: bool, patron: Option<PatronId>)

  /** `trip.bookings.find(b => b.seatNumber === seat)`: the first booking
      on a seat. */
  function FirstOnSeat(bs: seq<Booking>, seat: int): (r: Option<Booking>)
    ensures r.None? <==> NoBookingOn(bs, seat)
    ensures r.Some? ==> r.value in bs && r.value.seatNumber == seat
  {
    if bs == [] then None
    else if bs[0].seatNumber == seat then Some(bs[0])
    else FirstOnSeat(bs[1..], seat)
  }

  /** The entry the loop pushes for a seat. */
  function EntryFor(bs: seq<Booking>, seat: int): SeatEntry {
    var b := FirstOnSeat(bs, seat);
    SeatEntry(seat, b.Some?, if b.Some? then Some(b.value.patronId) else None)
  }

  /** The seat map of seats 1..n. */
  function SeatMapOf(bs: seq<Booking>, n: int): (r: seq<SeatEntry>)
    ensures |r| == if n < 1 then 0 else n
    ensures forall i :: 0 <= i < |r| ==> r[i] == EntryFor(bs, i + 1)
    decreases n
  {
    if n < 1 then [] else SeatMapOf(bs, n - 1) + [EntryFor(bs, n)]
  }

  /** How many entries of a seat map are free. */
  function FreeEntries(m: seq<SeatEntry>): nat {
    if m == [] then 0 else FreeEntries(m[..|m| - 1]) + (if m[|m| - 1].isBooked then 0 else 1)
  }

  /** The free entries of the map of seats 1..n are the seats no booking
      holds. */
  lemma {:induction false} SeatMapFreeSeats(bs: seq<Booking>, n: int)
    ensures FreeEntries(SeatMapOf(bs, n)) == (if n < 1 then 0 else n) - BookedSeatsUpTo(bs, n)
    decreases n
  {
    if n >= 1 {
      SeatMapFreeSeats(bs, n - 1);
      var m := SeatMapOf(bs, n);
      assert m[..|m| - 1] == SeatMapOf(bs, n - 1);
    }
  }

  /** When every booking is on a distinct seat inside the bus, the free
      entries of the seat map are the availableSeats virtual. */
  lemma SeatMapMatchesAvailableSeats(t: Trip)
    requires t.Valid() && SeatsDistinct(t.bookings) && SeatsWithin(t.bookings, t.details.busCapacity)
    ensures FreeEntries(SeatMapOf(t.bookings, t.details.busCapacity)) == t.AvailableSeats()
  {
    SeatMapFreeSeats(t.bookings, t.details.busCapacity);
  }

  /** The `for` loop of GET /:id/seats: one entry per seat 1..busCapacity,
      in order, booked exactly when some booking holds the seat, carrying
      the patron of the first such booking. */
  method SeatMap(t: Trip) returns (m: seq<SeatEntry>)
    ensures m == SeatMapOf(t.bookings, t.details.busCapacity)
    ensures |m| == if t.details.busCapacity < 1 then 0 else t.details.busCapacity
    ensures forall i :: 0 <= i < |m| ==>
              m[i].seatNumber == i + 1 && (m[i].isBooked <==> !t.IsSeatAvailable(i + 1))
    ensures forall i :: 0 <= i < |m| && m[i].isBooked ==>
              exists b :: b in t.bookings && b.seatNumber == i + 1 && m[i].patron == Some(b.patronId)
    ensures forall i :: 0 <= i < |m| && !m[i].isBooked ==> m[i].patron == None
  {
    m := [];
    var i := 1;
    while i <= t.details.busCapacity
      invariant 1 <= i <= if t.details.busCapacity >= 1 then t.details.busCapacity + 1 else 1
      invariant m == SeatMapOf(t.bookings, i - 1)
    {
      var booking := FirstOnSeat(t.bookings, i);
      m := m + [SeatEntry(i, booking.Some?, if booking.Some? then Some(booking.value.patronId) else None)];
      i := i + 1;
    }
  }

  // ---------------------------------------------------------------------
  // Dashboard sums
  // ---------------------------------------------------------------------

  /** What the dashboard reads of one trip. */
  datatype TripSummary = TripSummary(date: int, status: TripStatus, bookings: nat, price: int)

  /** `reduce((sum, trip) => sum + trip.bookings.length, 0)`, a left fold. */
  function SumBookings(s: seq<TripSummary>): (r: nat)
    ensures forall i :: 0 <= i < |s| ==> s[i].bookings <= r
    ensures r == 0 <==> forall i :: 0 <= i < |s| ==> s[i].bookings == 0
  {
    if s == [] then 0 else SumBookings(s[..|s| - 1]) + s[|s| - 1].bookings
  }

  /** `reduce((sum, trip) => sum + trip.bookings.length * trip.price, 0)`. */
  function SumRevenue(s: seq<TripSummary>): (r: int)
    ensures (forall i :: 0 <= i < |s| ==> s[i].bookings == 0) ==> r == 0
  {
    if s == [] then 0 else SumRevenue(s[..|s| - 1]) + s[|s| - 1].bookings * s[|s| - 1].price
  }

  /** Both sums split over a concatenation, so they do not depend on how
      the trips are grouped. */
  lemma {:induction false} SumsAppend(a: seq<TripSummary>, b: seq<TripSummary>)
    ensures SumBookings(a + b) == SumBookings(a) + SumBookings(b)
    ensures SumRevenue(a + b) == SumRevenue(a) + SumRevenue(b)
    decreases |b|
  {
    if b == [] {
      assert a + b == a;
    } else {
      var c := b[..|b| - 1];
      assert (a + b)[..|a + b| - 1] == a + c;
      SumsAppend(a, c);
    }
  }

  /** With non-negative prices the revenue is non-negative. */
  lemma {:induction false} SumRevenueNonNegative(s: seq<TripSummary>)
    ensures (forall i :: 0 <= i < |s| ==> s[i].price >= 0) ==> SumRevenue(s) >= 0
  {
    if s != [] {
      SumRevenueNonNegative(s[..|s| - 1]);
    }
  }

  /** When every trip has the same price, revenue is that price times the
      bookings. */
  lemma {:induction false} SumRevenueUniformPrice(s: seq<TripSummary>, price: int)
    requires forall i :: 0 <= i < |s| ==> s[i].price == price
    ensures SumRevenue(s) == price * SumBookings(s)
  {
    if s != [] {
      var t, b := s[..|s| - 1], s[|s| - 1].bookings;
      SumRevenueUniformPrice(t, price);
      assert SumBookings(s) == SumBookings(t) + b;
      assert SumRevenue(s) == SumRevenue(t) + b * price;
      Distributes(price, SumBookings(t), b);
    }
  }

  lemma Distributes(p: int, x: int, y: int)
    ensures p * (x + y) == p * x + y * p
  {
  }

  /** One more booking on trip k raises total bookings by one and total
      revenue by that trip's price. */
  lemma {:induction false} SumsAfterBooking(s: seq<TripSummary>, k: nat)
    requires k < |s|
    ensures var t := s[k := s[k].(bookings := s[k].bookings + 1)];
            SumBookings(t) == SumBookings(s) + 1
            && SumRevenue(t) == SumRevenue(s) + s[k].price
  {
    var t := s[k := s[k].(bookings := s[k].bookings + 1)];
    var n := |s| - 1;
    if k == n {
      assert t[..n] == s[..n];
      var b, p := s[k].bookings, s[k].price;
      assert (b + 1) * p == b * p + p;
    } else {
      SumsAfterBooking(s[..n], k);
      assert t[..n] == s[..n][k := s[k].(bookings := s[k].bookings + 1)];
      assert t[n] == s[n];
    }
  }

  /** The totalRevenue virtuals of the trips, added up. */
  function RevenueOf(ts: seq<Trip>): int
    reads ts
  {
    if ts == [] then 0 else RevenueOf(ts[..|ts| - 1]) + ts[|ts| - 1].TotalRevenue()
  }

  /** The dashboard's revenue reduce over the summaries is the sum of the
      trips' own totalRevenue virtuals. */
  lemma {:induction false} SumRevenueIsTotalRevenue(ts: seq<Trip>)
    ensures SumRevenue(SummariesOf(ts)) == RevenueOf(ts)
  {
    if ts != [] {
      var n := |ts| - 1;
      SumRevenueIsTotalRevenue(ts[..n]);
      var s := SummariesOf(ts);
      assert s[..n] == SummariesOf(ts[..n]);
    }
  }

  /** `{ date: { $gte: now }, status: 'scheduled' }` */
  predicate Upcoming(t: TripSummary, now: int)
    ensures Upcoming(t, now) ==> t.status != Completed && t.status != TripCancelled
  {
    t.date >= now && t.status == Scheduled
  }

  function CountUpcoming(s: seq<TripSummary>, now: int): (r: nat)
    ensures r <= |s|
    ensures r == 0 <==> forall i :: 0 <= i < |s| ==> !Upcoming(s[i], now)
  {
    if s == [] then 0 else CountUpcoming(s[..|s| - 1], now) + (if Upcoming(s[|s| - 1], now) then 1 else 0)
  }

  function CountCompleted(s: seq<TripSummary>): (r: nat)
    ensures r <= |s|
    ensures r == 0 <==> forall i :: 0 <= i < |s| ==> s[i].status != Completed
  {
    if s == [] then 0 else CountCompleted(s[..|s| - 1]) + (if s[|s| - 1].status == Completed then 1 else 0)
  }

  /** No trip is both upcoming and completed, so the two counts never add
      up to more than the total. */
  lemma {:induction false} UpcomingAndCompletedApart(s: seq<TripSummary>, now: int)
    ensures CountUpcoming(s, now) + CountCompleted(s) <= |s|
  {
    if s != [] {
      UpcomingAndCompletedApart(s[..|s| - 1], now);
    }
  }

  datatype DashboardStats = DashboardStats(
    totalTrips: nat,
    upcomingTrips: nat,
    completedTrips: nat,
    totalBookings: nat,
    totalRevenue: int)

  /** The status and date filters of the trip listing. */
  datatype TripQuery = TripQuery(status: Option<TripStatus>, dateFrom: Option<int>, dateTo: Option<int>)

  predicate Matches(t: TripSummary, q: TripQuery)
    ensures q == TripQuery(None, None, None) ==> Matches(t, q)
    ensures q.dateFrom.Some? && q.dateTo.Some? && q.dateTo.value < q.dateFrom.value ==> !Matches(t, q)
  {
    && (q.status.Some? ==> t.status == q.status.value)
    && (q.dateFrom.Some? ==> t.date >= q.dateFrom.value)
    && (q.dateTo.Some? ==> t.date <= q.dateTo.value)
  }

  /** The positions of the trips a query matches, in stored order. */
  function MatchingPositions(s: seq<TripSummary>, q: TripQuery): (r: seq<nat>)
    ensures |r| <= |s|
    ensures forall i :: 0 <= i < |r| ==> r[i] < |s| && Matches(s[r[i]], q)
    ensures forall k :: 0 <= k < |s| && Matches(s[k], q) ==> k in r
    ensures forall i, j :: 0 <= i < j < |r| ==> r[i] < r[j]
  {
    if s == [] then []
    else
      var r := MatchingPositions(s[..|s| - 1], q);
      if Matches(s[|s| - 1], q) then r + [|s| - 1] else r
  }

  /** The positions on one page of the listing, and the page count: at
      most `limit` positions, each of a matching trip, and no pages at all
      exactly when nothing matches. */
  function ListPage(s: seq<TripSummary>, q: TripQuery, page: int, limit: int): (r: (seq<nat>, nat))
    requires page >= 1 && limit >= 1
    ensures |r.0| <= limit
    ensures forall i :: 0 <= i < |r.0| ==> r.0[i] < |s| && Matches(s[r.0[i]], q)
    ensures r.1 == 0 <==> forall k :: 0 <= k < |s| ==> !Matches(s[k], q)
    ensures r == (Pagination.PageOf(MatchingPositions(s, q), page, limit),
                  Pagination.TotalPages(|MatchingPositions(s, q)|, limit))
  {
    var positions := MatchingPositions(s, q);
    var shown := Pagination.PageOf(positions, page, limit);
    var pages := Pagination.TotalPages(|positions|, limit);
    assert forall i :: 0 <= i < |shown| ==> shown[i] in positions;
    assert pages == 0 ==> forall k :: 0 <= k < |s| ==> !Matches(s[k], q);
    assert positions != [] ==> positions[0] in positions;
    (shown, pages)
  }

  // ---------------------------------------------------------------------
  // The collection and its handlers
  // ---------------------------------------------------------------------

  /** The id of a trip document. */
  function TripIdOf(t: Trip): string {
    t.id
  }

  /** What the dashboard reads of a trip. */
  function Summary(t: Trip): TripSummary
    reads t
  {
    TripSummary(t.details.date, t.details.status, |t.bookings|, t.details.price)
  }

  /** `Patron.findById(ref)` finds an active patron. */
  predicate ActivePatron(patrons: PatronRoutes.PatronCollection, ref: string)
    reads patrons
    ensures ActivePatron(patrons, ref) ==> IsCastableId(ref) && patrons.FindById(ref).Some?
    ensures ActivePatron(patrons, ref) ==> exists p :: p in PatronRoutes.ActiveOnly(patrons.docs) && p.id == CanonicalId(ref)
  {
    var found := patrons.FindById(ref);
    found.Some? && patrons.docs[found.value].isActive
  }

  function SummariesOf(ts: seq<Trip>): (s: seq<TripSummary>)
    reads ts
    ensures |s| == |ts|
    ensures forall i :: 0 <= i < |s| ==> s[i] == Summary(ts[i])
  {
    if ts == [] then [] else SummariesOf(ts[..|ts| - 1]) + [Summary(ts[|ts| - 1])]
  }

  class TripCollection {
    var trips: seq<Trip>

    /** Ids are distinct, every trip satisfies its schema and every ledger
        is valid. */
    ghost predicate Valid()
      reads this, trips
    {
      && (forall i, j :: 0 <= i < j < |trips| ==> trips[i].id != trips[j].id)
      && (forall i :: 0 <= i < |trips| ==> trips[i].Valid() && LedgerValid(trips[i].bookings))
    }

    constructor ()
      ensures Valid() && trips == []
    {
      trips := [];
    }

    /** Trip.findById(id) */
    function Find(id: TripId): (r: Option<nat>)
      reads this
      ensures r.Some? ==> r.value < |trips| && trips[r.value].id == id
      ensures r.None? ==> forall i :: 0 <= i < |trips| ==> trips[i].id != id
    {
      IndexOfKey(trips, TripIdOf, id)
    }

    /** POST /: validate, then save a new trip under the id the database
        assigns, with the sanitized strings, status `scheduled` and no
        bookings. */
    method Create(id: TripId, f: TripFields, now: int) returns (o: Outcome)
      requires Valid() && Find(id).None?
      modifies this
      ensures Valid()
      ensures o == Invalid <==> !ValidTripFields(f, now)
      ensures o == ServerError <==> ValidTripFields(f, now) && !FitsTripLengths(f)
      ensures o == Ok <==> ValidTripFields(f, now) && FitsTripLengths(f)
      ensures o != Ok ==> trips == old(trips)
      ensures o == Ok ==> |trips| == |old(trips)| + 1 && trips[..|old(trips)|] == old(trips)
      ensures o == Ok ==> var t := trips[|trips| - 1];
                && fresh(t) && t.id == id && t.bookings == []
                && t.details == TripDetails(Trim(f.destination), f.date, f.time, f.busCapacity, f.price,
                                            Trim(f.departureLocation), f.returnTime,
                                            TrimOption(f.description), Scheduled)
    {
      if !ValidTripFields(f, now) {
        return Invalid;
      }
      ValidatedFieldsPassSchema(f, now);
      if !SchemaAccepts(Sanitized(f), now) {
        return ServerError;
      }
      var t := new Trip(id, Sanitized(f));
      Append(t);
      o := Ok;
    }

    /** Saving a new, valid trip under an unused id keeps the collection
        valid. */
    method Append(t: Trip)
      requires Valid() && t.Valid() && LedgerValid(t.bookings) && Find(t.id).None?
      modifies this
      ensures Valid() && trips == old(trips) + [t]
    {
      trips := trips + [t];
    }

    /** PUT /:id: validate, find, refuse a capacity below the booking count
        when there are bookings, then overwrite the fields the body
        carries, as sanitized; an absent optional field keeps its value. */
    method Update(id: TripId, f: TripFields, status: Option<TripStatus>, now: int) returns (o: Outcome)
      requires Valid()
      modifies trips
      ensures Valid() && trips == old(trips)
      ensures o == Invalid <==> !ValidTripFields(f, now)
      ensures o == TripNotFound <==> ValidTripFields(f, now) && Find(id).None?
      ensures o == CapacityTooLow <==>
                ValidTripFields(f, now) && Find(id).Some?
                && CapacityRefused(old(trips[Find(id).value].bookings), f.busCapacity)
      ensures o == ServerError <==>
                ValidTripFields(f, now) && Find(id).Some?
                && !CapacityRefused(old(trips[Find(id).value].bookings), f.busCapacity)
                && !FitsTripLengths(f)
      ensures o == Ok <==>
                ValidTripFields(f, now) && Find(id).Some?
                && !CapacityRefused(old(trips[Find(id).value].bookings), f.busCapacity)
                && FitsTripLengths(f)
      ensures o == Ok ==> var t := trips[Find(id).value];
                && UpdatedFrom(t.details, old(t.details), Sanitized(f), status)
                && t.bookings == old(t.bookings)
                && t.AvailableSeats() >= 0
      ensures forall i :: 0 <= i < |trips| && (o != Ok || trips[i].id != id) ==> unchanged(trips[i])
    {
      if !ValidTripFields(f, now) {
        return Invalid;
      }
      var found := Find(id);
      if found.None? {
        return TripNotFound;
      }
      var t := trips[found.value];
      if |t.bookings| > 0 {
        if f.busCapacity < |t.bookings| {
          return CapacityTooLow;
        }
      }
      ValidatedFieldsPassSchema(f, now);
      if !SchemaAccepts(Sanitized(f), now) {
        return ServerError;
      }
      UpdateAt(found.value, Sanitized(f), status, now);
      o := Ok;
    }

    /** findByIdAndUpdate on the k-th trip with fields the schema accepts:
        the paths are updated, the bookings kept, and every trip stays
        valid. */
    method UpdateAt(k: nat, f: TripFields, status: Option<TripStatus>, now: int)
      requires Valid() && k < |trips| && SchemaAccepts(f, now)
      modifies trips[k]
      ensures Valid()
      ensures UpdatedFrom(trips[k].details, old(trips[k].details), f, status)
      ensures trips[k].bookings == old(trips[k].bookings)
    {
      var t := trips[k];
      var saved := t.ApplyUpdate(f, status, now);
      assert saved == Saved;
      forall i | 0 <= i < |trips| ensures trips[i].Valid() && LedgerValid(trips[i].bookings) {
        if trips[i] != t {
          assert old(trips[i].Valid());
        }
      }
    }

    /** DELETE /:id: refuse while the trip has bookings, else remove it. */
    method Delete(id: TripId) returns (o: Outcome)
      requires Valid()
      modifies this
      ensures Valid()
      ensures o == TripNotFound <==> old(Find(id)).None?
      ensures o == HasBookings <==> old(Find(id)).Some? && |old(trips)[old(Find(id)).value].bookings| > 0
      ensures o == Ok <==> old(Find(id)).Some? && |old(trips)[old(Find(id)).value].bookings| == 0
      ensures o == Ok ==> var k := old(Find(id)).value;
                trips == old(trips)[..k] + old(trips)[k + 1..] && Find(id).None?
      ensures o != Ok ==> trips == old(trips)
    {
      var found := Find(id);
      if found.None? {
        return TripNotFound;
      }
      var k := found.value;
      if |trips[k].bookings| > 0 {
        return HasBookings;
      }
      RemoveAt(k);
      o := Ok;
    }

    /** `findByIdAndDelete` on the k-th trip: the others stay, in order, and
        its id is no longer found. */
    method RemoveAt(k: nat)
      requires Valid() && k < |trips|
      modifies this
      ensures Valid() && trips == old(trips)[..k] + old(trips)[k + 1..]
      ensures Find(old(trips)[k].id).None?
    {
      var ts := trips;
      trips := ts[..k] + ts[k + 1..];
      assert forall i :: 0 <= i < |trips| ==> trips[i] == ts[if i < k then i else i + 1];
    }

    /** POST /:id/book: validate the body, find the trip, find the patron
        (an id isMongoId accepts but the ObjectId cast refuses is a server
        error), refuse an inactive or missing patron, then a taken seat,
        then a patron already on the trip, and only then book; the save
        refuses a trip whose date is no longer in the future, which is a
        server error. */
    method Book(id: TripId, ref: string, seat: SeatValue, patrons: PatronRoutes.PatronCollection, now: int)
      returns (o: Outcome)
      requires Valid()
      modifies trips
      ensures Valid() && trips == old(trips)
      ensures o == Invalid <==> !(IsMongoId(ref) && ValidSeatValue(seat))
      ensures o == TripNotFound <==> IsMongoId(ref) && ValidSeatValue(seat) && Find(id).None?
      ensures IsMongoId(ref) && ValidSeatValue(seat) && Find(id).Some? && !IsCastableId(ref) ==> o == ServerError
      ensures o == PatronNotFound <==>
                IsMongoId(ref) && ValidSeatValue(seat) && Find(id).Some? && IsCastableId(ref)
                && !ActivePatron(patrons, ref)
      ensures IsMongoId(ref) && ValidSeatValue(seat) && Find(id).Some? && IsCastableId(ref)
              && ActivePatron(patrons, ref) ==>
                var k := Find(id).value;
                var g := BookLedger(old(trips[k].bookings), CanonicalId(ref), SeatNumberOf(seat), now);
                if g.0 == Ok && old(trips[k].details.date) <= now
                then o == ServerError && trips[k].bookings == old(trips[k].bookings)
                else (o, trips[k].bookings) == g
      ensures o == Ok ==> trips[Find(id).value].details == old(trips[Find(id).value].details)
      ensures forall i :: 0 <= i < |trips| && (o != Ok || trips[i].id != id) ==> unchanged(trips[i])
    {
      if !(IsMongoId(ref) && ValidSeatValue(seat)) {
        return Invalid;
      }
      var found := Find(id);
      if found.None? {
        return TripNotFound;
      }
      if !IsCastableId(ref) {
        return ServerError;
      }
      if !ActivePatron(patrons, ref) {
        return PatronNotFound;
      }
      var t := trips[found.value];
      var patronId := CanonicalId(ref);
      var n := SeatNumberOf(seat);
      if !t.IsSeatAvailable(n) {
        return SeatTaken;
      }
      if HasBookingFor(t.bookings, patronId) {
        return AlreadyBooked;
      }
      var saved := BookAt(found.value, patronId, n, now);
      o := if saved == Saved then Ok else ServerError;
    }

    /** `trip.bookSeat(patron, seat)` on the k-th trip once the route's
        guards passed: the save succeeds exactly while the trip's date is in
        the future, the booking is then appended, and every trip stays
        valid. */
    method BookAt(k: nat, patronId: PatronId, seat: int, now: int) returns (r: SaveResult)
      requires Valid() && k < |trips| && IsObjectIdText(patronId) && seat >= 1
      requires NoBookingOn(trips[k].bookings, seat) && !HasBookingFor(trips[k].bookings, patronId)
      modifies trips[k]
      ensures Valid() && trips[k].details == old(trips[k].details)
      ensures r == Saved <==> trips[k].details.date > now
      ensures r == Saved ==> trips[k].bookings == old(trips[k].bookings) + [NewBooking(patronId, seat, now)]
      ensures r != Saved ==> unchanged(trips[k])
    {
      var t := trips[k];
      BookLedgerKeepsLedgerValid(t.bookings, patronId, seat, now);
      r := t.BookSeat(patronId, seat, now);
      assert t.Valid();
      forall i | 0 <= i < |trips| ensures trips[i].Valid() && LedgerValid(trips[i].bookings) {
        if trips[i] != t {
          assert old(trips[i].Valid());
        }
      }
    }

    /** DELETE /:id/book/:seatNumber: the path's seat is read with
        parseInt, then the booking on it is cancelled. */
    method Cancel(id: TripId, seatText: string, now: int) returns (o: Outcome)
      requires Valid()
      modifies trips
      ensures Valid() && trips == old(trips)
      ensures o == TripNotFound <==> Find(id).None?
      ensures o == BookingNotFound <==>
                Find(id).Some? && (ParseInt(seatText).None?
                                   || NoBookingOn(old(trips[Find(id).value].bookings), ParseInt(seatText).value))
      ensures o == ServerError <==>
                Find(id).Some? && ParseInt(seatText).Some?
                && !NoBookingOn(old(trips[Find(id).value].bookings), ParseInt(seatText).value)
                && old(trips[Find(id).value].details.date) <= now
      ensures o == Ok <==>
                Find(id).Some? && ParseInt(seatText).Some?
                && !NoBookingOn(old(trips[Find(id).value].bookings), ParseInt(seatText).value)
                && old(trips[Find(id).value].details.date) > now
      ensures o == Ok ==> var k := Find(id).value;
                var seat := ParseInt(seatText).value;
                trips[k].bookings == Without(old(trips[k].bookings), seat)
                && |trips[k].bookings| == |old(trips[k].bookings)| - 1
                && trips[k].details == old(trips[k].details)
      ensures forall i :: 0 <= i < |trips| && (o != Ok || trips[i].id != id) ==> unchanged(trips[i])
    {
      o := CancelSeat(id, ParseInt(seatText), now);
    }

    /** Find the trip, refuse a seat no booking holds (a NaN seat matches
        none), then remove the bookings on that seat; the save refuses a
        trip whose date is no longer in the future, a server error. */
    method CancelSeat(id: TripId, seat: Option<int>, now: int) returns (o: Outcome)
      requires Valid()
      modifies trips
      ensures Valid() && trips == old(trips)
      ensures o == TripNotFound <==> Find(id).None?
      ensures o == BookingNotFound <==>
                Find(id).Some? && (seat.None? || NoBookingOn(old(trips[Find(id).value].bookings), seat.value))
      ensures o == ServerError <==>
                Find(id).Some? && seat.Some? && !NoBookingOn(old(trips[Find(id).value].bookings), seat.value)
                && old(trips[Find(id).value].details.date) <= now
      ensures o == Ok <==>
                Find(id).Some? && seat.Some? && !NoBookingOn(old(trips[Find(id).value].bookings), seat.value)
                && old(trips[Find(id).value].details.date) > now
      ensures o == Ok ==> var k := Find(id).value;
                trips[k].bookings == Without(old(trips[k].bookings), seat.value)
                && |trips[k].bookings| == |old(trips[k].bookings)| - 1
                && trips[k].details == old(trips[k].details)
      ensures forall i :: 0 <= i < |trips| && (o != Ok || trips[i].id != id) ==> unchanged(trips[i])
    {
      var found := Find(id);
      if found.None? {
        return TripNotFound;
      }
      if seat.None? || trips[found.value].IsSeatAvailable(seat.value) {
        return BookingNotFound;
      }
      var saved := CancelAt(found.value, seat.value, now);
      o := if saved == Saved then Ok else ServerError;
    }

    /** `trip.cancelBooking(seat)` on the k-th trip, which holds a booking on
        that seat: the save succeeds exactly while the trip's date is in the
        future, the ledger then loses exactly that booking, and every trip
        stays valid. */
    method CancelAt(k: nat, seat: int, now: int) returns (r: SaveResult)
      requires Valid() && k < |trips| && !NoBookingOn(trips[k].bookings, seat)
      modifies trips[k]
      ensures Valid() && trips[k].details == old(trips[k].details)
      ensures r == Saved <==> trips[k].details.date > now
      ensures r == Saved ==> trips[k].bookings == Without(old(trips[k].bookings), seat)
      ensures r == Saved ==> |trips[k].bookings| == |old(trips[k].bookings)| - 1
      ensures r != Saved ==> unchanged(trips[k])
    {
      var t := trips[k];
      WithoutKeepsLedgerValid(t.bookings, seat);
      CountOnSeatDistinct(t.bookings, seat);
      r := t.CancelBooking(seat, now);
      assert t.Valid();
      forall i | 0 <= i < |trips| ensures trips[i].Valid() && LedgerValid(trips[i].bookings) {
        if trips[i] != t {
          assert old(trips[i].Valid());
        }
      }
    }

    /** GET /:id/seats: the seat map of a trip. */
    method SeatView(id: TripId) returns (o: Outcome, m: seq<SeatEntry>)
      requires Valid()
      ensures o == TripNotFound <==> Find(id).None?
      ensures o != TripNotFound ==> o == Ok
      ensures o == Ok ==> var t := trips[Find(id).value];
                m == SeatMapOf(t.bookings, t.details.busCapacity) && |m| == t.details.busCapacity
      ensures o != Ok ==> m == []
    {
      var found := Find(id);
      if found.None? {
        return TripNotFound, [];
      }
      m := SeatMap(trips[found.value]);
      o := Ok;
    }

    /** What the dashboard reads of every trip, in stored order. */
    function Summaries(): (s: seq<TripSummary>)
      reads this, trips
      ensures |s| == |trips|
      ensures forall i :: 0 <= i < |s| ==> s[i] == Summary(trips[i])
    {
      SummariesOf(trips)
    }

    /** GET /dashboard/stats: the counts and the two reduce sums. */
    function Dashboard(now: int): (d: DashboardStats)
      reads this, trips
      ensures d.totalTrips == |trips|
      ensures d.upcomingTrips + d.completedTrips <= d.totalTrips
      ensures (forall i :: 0 <= i < |trips| ==> trips[i].details.price >= 0) ==> d.totalRevenue >= 0
      ensures d == DashboardStats(|trips|, CountUpcoming(Summaries(), now), CountCompleted(Summaries()),
                                  SumBookings(Summaries()), SumRevenue(Summaries()))
      ensures d.totalRevenue == RevenueOf(trips)
    {
      var s := Summaries();
      UpcomingAndCompletedApart(s, now);
      SumRevenueNonNegative(s);
      SumRevenueIsTotalRevenue(trips);
      DashboardStats(|trips|, CountUpcoming(s, now), CountCompleted(s), SumBookings(s), SumRevenue(s))
    }

    /** GET /: one page of the trips the status and date filters match, in
        stored order, and the page count. */
    function List(q: TripQuery, page: int, limit: int): (r: (seq<Trip>, nat))
      reads this, trips
      requires page >= 1 && limit >= 1
      ensures |r.0| <= limit
      ensures forall i :: 0 <= i < |r.0| ==> r.0[i] in trips && Matches(Summary(r.0[i]), q)
      ensures r.1 == 0 <==> forall i :: 0 <= i < |trips| ==> !Matches(Summary(trips[i]), q)
      ensures r.0 == Pick(trips, ListPage(Summaries(), q, page, limit).0)
              && r.1 == ListPage(Summaries(), q, page, limit).1
    {
      var s := Summaries();
      var shown := ListPage(s, q, page, limit);
      PickedTripsMatch(trips, s, q, shown.0);
      (Pick(trips, shown.0), shown.1)
    }
  }

  /** The trips picked at matching positions of their summaries match. */
  lemma PickedTripsMatch(ts: seq<Trip>, s: seq<TripSummary>, q: TripQuery, shown: seq<nat>)
    requires |s| == |ts| && forall i :: 0 <= i < |s| ==> s[i] == Summary(ts[i])
    requires forall i :: 0 <= i < |shown| ==> shown[i] < |s| && Matches(s[shown[i]], q)
    ensures var r := Pick(ts, shown);
            forall i :: 0 <= i < |r| ==> r[i] in ts && Matches(Summary(r[i]), q)
  {
    var r := Pick(ts, shown);
    forall i | 0 <= i < |r| ensures r[i] in ts && Matches(Summary(r[i]), q) {
      assert r[i] == ts[shown[i]];
    }
  }

  /** The trips at the given positions. */
  function Pick(ts: seq<Trip>, positions: seq<nat>): (r: seq<Trip>)
    requires forall i :: 0 <= i < |positions| ==> positions[i] < |ts|
    ensures |r| == |positions|
    ensures forall i :: 0 <= i < |r| ==> r[i] == ts[positions[i]]
  {
    if positions == [] then [] else [ts[positions[0]]] + Pick(ts, positions[1..])
  }

  /** Cancelling a seat keeps one booking per patron. */
  lemma {:induction false} WithoutKeepsOnePerPatron(bs: seq<Booking>, seat: int)
    requires OnePerPatron(bs)
    ensures OnePerPatron(Without(bs, seat))
  {
    if bs != [] {
      assert OnePerPatron(bs[1..]) by {
        assert forall i :: 0 <= i < |bs| - 1 ==> bs[1..][i] == bs[i + 1];
      }
      WithoutKeepsOnePerPatron(bs[1..], seat);
      var r := Without(bs, seat);
      if bs[0].seatNumber != seat {
        var tail := Without(bs[1..], seat);
        assert r == [bs[0]] + tail;
        forall j | 0 < j < |r| ensures r[0].patronId != r[j].patronId {
          assert r[j] == tail[j - 1];
          assert tail[j - 1] in bs[1..];
        }
      }
    }
  }

  /** Cancelling a seat keeps a ledger valid. */
  lemma WithoutKeepsLedgerValid(bs: seq<Booking>, seat: int)
    requires LedgerValid(bs)
    ensures LedgerValid(Without(bs, seat))
  {
    WithoutKeepsDistinct(bs, seat);
    WithoutKeepsOnePerPatron(bs, seat);
    var r := Without(bs, seat);
    forall i | 0 <= i < |r| ensures IsObjectIdText(r[i].patronId) && r[i].seatNumber >= 1 {
      assert r[i] in bs;
    }
  }
}
