# Bus-tour booking backend in Dafny

This project models the core of a small Express/Mongoose back end. A tour
operator uses it to run bus trips. **Trips** have a destination, a date, a
departure time, a bus capacity and a price, and each trip embeds its list of
**bookings**. **Patrons** are the passengers. A booking ties one patron to one
seat of one trip.

The model follows four files of the source:

- `models/Trip.js` becomes module `TripModel` (`trip_model.dfy`):
  - the `Booking` datatype;
  - the schema bounds and the time pattern;
  - a `Trip` class whose `details` (the trip's own paths) and `bookings` are
    updated in place by `ApplyUpdate`, `BookSeat` and `CancelBooking`;
  - the `availableSeats`, `totalRevenue` and `bookingPercentage` virtuals.
- `models/Patron.js` becomes module `PatronModel` (`patron_model.dfy`):
  - the `Patron` datatype and the phone pattern;
  - the schema checks, the `isActive` default and the `fullInfo` virtual.
- `routes/trips.js` becomes module `TripRoutes` (`trip_routes.dfy`):
  - a `TripCollection` class holding the stored trips;
  - one method per state-changing handler (create, update, delete, book,
    cancel);
  - the seat-map loop as a method;
  - the dashboard sums and the paged listing as functions.
- `routes/patrons.js` becomes module `PatronRoutes` (`patron_routes.dfy`):
  - a `PatronCollection` class with create, update, soft delete, listing and
    quick search.
- Shared helpers:
  - `common.dfy`: JavaScript's `trim`, `parseInt` without a radix, and the
    ObjectId text forms;
  - `pagination.dfy`: the skip, limit and `Math.ceil` arithmetic that both
    listings share.

A collection is a sequence of documents in stored order. An id is the
24-character hex text of an ObjectId. The clock is a `now` parameter. Each
handler returns an `Outcome` that stands for its HTTP answer.

## Model

| member | source | states |
|---|---|---|
| Common.Trim | routes/trips.js:10-13 | `trim()` yields a string that neither starts nor ends with whitespace and is no longer than its input (with `TrimIsMiddle`, the slice it keeps) |
| Common.TrimIsMiddle | routes/trips.js:10-13 | what `trim()` keeps is a contiguous slice of the input, and everything it drops on either side is whitespace |
| Common.TrimIdempotent | models/Patron.js:4-9 | trimming twice equals trimming once, so the schema's `trim` setter leaves a value the validator already trimmed as it is |
| Common.TrimOption | routes/trips.js:40-44 | an optional value stays present or absent, and a present one is trimmed |
| Common.Utf16Length | models/Trip.js:36 | the length JavaScript gives a string counts a code point above U+FFFF twice, so it lies between the code-point count and twice it, and equals the code-point count exactly when no such character occurs |
| Common.AstralUtf16Length | models/Trip.js:36 | a string made only of characters above U+FFFF is twice as long in UTF-16 units as in code points |
| Common.SixtyAstralChars | models/Trip.js:36 | sixty bus emoji are a trimmed string of 60 code points and 120 UTF-16 units |
| Common.IndexOfKey | routes/trips.js:185 | a `findById` over stored documents finds a position whose document has the id, or reports that no document has it |
| Common.IsMongoId | routes/trips.js:249 | `isMongoId` accepts every string the ObjectId cast accepts, and what it accepts is 24 characters long and hexadecimal after its first two |
| Common.CanonicalId | routes/trips.js:266 | the ObjectId cast of 24 hex digits of either case gives lower-case ObjectId text of the same length in which each character is the input's, or the input's upper-case hex digit in lower case, so it names the same ObjectId; lower-case text is left unchanged |
| Common.ParseInt | routes/trips.js:306 | `parseInt` of an empty or all-whitespace string is NaN (None); its value on digits and signs is stated by the lemmas below |
| Common.ParseIntOfDigits | routes/trips.js:306 | `parseInt` reads a run of decimal digits as its decimal value and ignores whatever non-digit follows |
| Common.ParseIntOfNegated | routes/trips.js:306 | `parseInt` negates the value of the digits that follow a minus sign |
| Common.ParseIntOfPlus | routes/trips.js:306 | `parseInt` reads a run of decimal digits after a plus sign as their value |
| Common.ParseIntSkipsWhitespace | routes/trips.js:306 | `parseInt` skips leading whitespace: whitespace before a string does not change what it parses to |
| Common.ParseIntOfHex | routes/trips.js:306 | without a radix, `parseInt` reads `0x` or `0X` followed by hex digits as a base-16 number and ignores what follows the digits |
| Common.PlainFive | routes/trips.js:306 | the seat text "5" parses to 5 |
| Common.PlusFive | routes/trips.js:306 | "+5" parses to 5 |
| Common.SpaceFive | routes/trips.js:306 | " 5" parses to 5 |
| Common.HexFive | routes/trips.js:306 | "0x5" parses to 5 |
| Common.ParseIntNoDigit | routes/trips.js:306 | a path segment that starts with a character that is not whitespace, a sign or a digit parses to NaN (None) |
| Pagination.Skip | routes/trips.js:90 | the number of items skipped, `(page - 1) * limit`, is never negative for a page and a limit of at least 1 |
| Pagination.TotalPages | routes/trips.js:98 | `Math.ceil(count / limit)` is the least page count whose pages hold `count` items, and it is 0 exactly when there are no items |
| Pagination.PageOf | routes/trips.js:90-91 | `.skip((page - 1) * limit).limit(limit)` returns at most `limit` items, each the item at position skip + k |
| Pagination.PagesUpToIsPrefix | routes/patrons.js:58-59 | pages 1..n read one after another are exactly the first n * limit items |
| Pagination.AllPagesCoverItems | routes/patrons.js:58-66 | reading pages 1..totalPages returns every matching item once, in order |
| Pagination.ItemPage | routes/trips.js:90-98 | item i is on page i / limit + 1, which is never past totalPages |
| Pagination.PastLastPage | routes/trips.js:90-98 | a page past totalPages is empty |
| PatronModel.ValidPhone | models/Patron.js:14 | a phone the pattern accepts is 1 to 17 characters long and starts with `+` or a digit 1-9 |
| PatronModel.ValidPhoneCharacters | models/Patron.js:14 | a phone that matches `/^[\+]?[1-9][\d]{0,15}$/` is 1 to 17 characters long, all digits except a possible leading `+`, and therefore trimmed |
| PatronModel.PhonePatternExamples | models/Patron.js:14 | the hyphenated phone the seed script uses fails the pattern; 10-digit and `+1` numbers pass; a leading zero, a bare `+`, the empty string and 17 digits fail |
| PatronModel.SchemaValid | models/Patron.js:3-39 | a document the schema accepts has a name of 1 to 100 code points, a phone of 1 to 17 characters, an address of at most 200 and notes of at most 500 code points (the UTF-16 limits bound the code-point counts) |
| PatronModel.NewPatron | models/Patron.js:3-39 | a new patron is active; its name and phone are exactly `Trim` of the given ones, its address is the given one trimmed (absent when absent), and the email, emergency contact and notes are stored as given |
| PatronModel.FullInfo | models/Patron.js:48-50 | `fullInfo` is three characters longer than name and phone together, starts with the name and ends with the phone |
| PatronModel.LastWord | models/Patron.js:48-50 | yields the suffix after the last space, and that suffix contains no space |
| PatronModel.FullInfoSplits | models/Patron.js:48-50 | `fullInfo` can be taken apart again: its last word is the phone, and what precedes ` - ` is the name |
| PatronRoutes.PassesValidation | routes/patrons.js:8-32 | a body `validatePatron` accepts has a non-empty trimmed name and a trimmed phone of 1 to 17 characters |
| PatronRoutes.PhoneConflict | routes/patrons.js:151-156 | keeping the stored phone never conflicts, and a conflict means an active patron holds the phone, so the create handler's check would refuse it too |
| PatronRoutes.Edited | routes/patrons.js:158-169 | the edited document keeps its id and `isActive` flag, takes the trimmed name and phone, and takes each optional field the body carries (address and notes trimmed) while keeping a field the body leaves out |
| PatronRoutes.AdmittedIsSchemaValid | routes/patrons.js:8-32 | a body that `validatePatron` accepts becomes an active document stored under the trimmed phone that was checked for conflicts; that document satisfies the schema exactly when its name, address and notes fit the schema's `maxlength` in UTF-16 units |
| PatronRoutes.AstralNamePassesOnlyValidation | routes/patrons.js:10-13 | a name of sixty bus emoji passes `isLength({ max: 100 })`, which counts code points, but its document fails the schema's `maxlength: 100`, which counts UTF-16 units |
| PatronRoutes.EditedIsSchemaValid | routes/patrons.js:158-169 | an update with a validated body keeps the id and the `isActive` flag, and satisfies the schema exactly when the trimmed strings fit its `maxlength` in UTF-16 units |
| PatronRoutes.PhoneHeld | routes/patrons.js:110-113 | the create handler's phone query finds a patron exactly when one of the active patrons holds the phone |
| PatronRoutes.PhoneHeldByOther | routes/patrons.js:151-156 | the update handler's query, which leaves out the patron being edited, finds only phones the create query would find, and the same ones when the excluded position holds no document |
| PatronRoutes.Deactivate | routes/patrons.js:186-190 | the soft delete keeps the number of documents, clears the target's flag and keeps its id, leaves every other document as it was, and changes nothing for an already inactive patron |
| PatronRoutes.ActiveOnly | routes/patrons.js:42 | the listing query keeps exactly the active documents |
| PatronRoutes.ActiveMatching | routes/patrons.js:217-223 | the quick-search query keeps exactly the active documents the pattern matches |
| PatronRoutes.DeactivateKeepsRecords | routes/patrons.js:186-190 | a soft delete keeps every record and changes only the flag of the target; doing it twice is doing it once |
| PatronRoutes.DeleteFreesPhone | routes/patrons.js:110-113 | once the active holder of a phone is soft-deleted, a new patron may register that phone |
| PatronRoutes.CreateKeepsValid | routes/patrons.js:100-131 | a create that passes validation and the active-phone check keeps ids distinct, documents schema-valid and active phones unique |
| PatronRoutes.UpdateKeepsValid | routes/patrons.js:136-179 | an update that keeps its phone, or that moves to a phone no other active patron holds, keeps the collection invariant |
| PatronRoutes.DeactivateKeepsValid | routes/patrons.js:184-204 | a soft delete keeps the collection invariant |
| PatronRoutes.PatronCollection.constructor | routes/patrons.js:100 | an empty collection satisfies the invariant |
| PatronRoutes.PatronCollection.FindById | routes/patrons.js:146-149 | a lookup finds the document whose id is the cast of the reference, and finds nothing for a reference the cast refuses |
| PatronRoutes.PatronCollection.Create | routes/patrons.js:100-131 | answers 400 exactly on a failed validation, 400 duplicate exactly when an active patron holds the trimmed phone, a server error exactly when the schema's UTF-16 lengths refuse the document, and succeeds in every other case, appending one active patron with the trimmed phone; the invariant is kept |
| PatronRoutes.PatronCollection.Update | routes/patrons.js:136-179 | answers 400 on invalid input, 404 when the id is unknown, 400 duplicate exactly when the phone changes to one another active patron holds, a server error when the schema's UTF-16 lengths refuse the edit, and succeeds otherwise; only that document is edited |
| PatronRoutes.PatronCollection.SoftDelete | routes/patrons.js:184-204 | answers 404 exactly when the id is unknown; otherwise only the flag of that document is cleared |
| PatronRoutes.PatronCollection.List | routes/patrons.js:37-74 | the response is `PageOf` the active patrons for that page and limit (skipping `(page - 1) * limit`) with `TotalPages` of their count, so a page holds at most `limit` active patrons, the page count covers them all, and it is 0 exactly when none is active |
| PatronRoutes.PatronCollection.QuickSearch | routes/patrons.js:209-233 | a missing query or one shorter than two UTF-16 units yields nothing; otherwise at most ten active matches, the first ones in stored order |
| TripModel.NewBooking | models/Trip.js:128-132 | the pushed booking holds the given patron and seat and the current time, with the schema defaults `confirmed` and `pending` and no notes |
| TripModel.NoBookingOn | models/Trip.js:118-120 | holds exactly when no booking is on the seat |
| TripModel.Without | models/Trip.js:138-141 | the filter keeps exactly the bookings not on the seat, leaves none on it, and changes nothing when the seat is free |
| TripModel.WithoutDistributes | models/Trip.js:139 | the filter works piece by piece, so the bookings that remain keep their order |
| TripModel.WithoutIdempotent | models/Trip.js:139 | cancelling a seat twice is cancelling it once |
| TripModel.CountOnSeatDistinct | models/Trip.js:118-120 | when seats are distinct, a seat holds one booking or none |
| TripModel.WithoutRemovesCount | models/Trip.js:139 | the filter removes exactly the bookings on the seat |
| TripModel.WithoutKeepsDistinct | models/Trip.js:139 | cancelling keeps seat numbers distinct |
| TripModel.AppendKeepsDistinct | models/Trip.js:123-132 | pushing a booking keeps seats distinct exactly when its seat was free |
| TripModel.DistinctSeatsFitCapacity | models/Trip.js:103-105 | distinct seats inside 1..capacity number at most the capacity, and they are the booked seats of a seat map of that capacity |
| TripModel.ValidTime | models/Trip.js:51 | a time the pattern accepts is 4 or 5 characters long, has its colon third from the end and ends in a digit |
| TripModel.SchemaAccepts | models/Trip.js:31-82 | fields the schema accepts have a trimmed destination of 1 to 100 code points and a description of at most 500 code points |
| TripModel.TimeOfDay | models/Trip.js:48-52 | a time that matches the pattern denotes an hour of at most 23 and a minute of at most 59 |
| TripModel.TimeText | models/Trip.js:51 | the zero-padded HH:MM spelling of a valid hour and minute matches the pattern |
| TripModel.TimeTextRoundTrip | models/Trip.js:51 | reading the padded spelling back gives the hour and the minute |
| TripModel.TimeSpellings | models/Trip.js:51 | every string that matches the pattern is the padded spelling of its value, or that spelling without the leading zero of a one-digit hour |
| TripModel.Trip.constructor | models/Trip.js:31-82 | a new trip has trimmed destination and departure location, status `scheduled` and no bookings |
| TripModel.Trip.ApplyUpdate | routes/trips.js:199-203 | a validated update writes the trimmed strings and the given paths, keeps an absent optional path and the bookings, and keeps the schema bounds; a rejected update changes nothing |
| TripModel.Trip.IsSeatAvailable | models/Trip.js:118-120 | `isSeatAvailable` holds exactly when no booking of the trip is on the seat |
| TripModel.Trip.BookSeat | models/Trip.js:123-135 | on a trip whose stored paths are valid: refuses a taken seat; otherwise the save refuses a seat below 1 (`min: 1`) and a trip whose date is not in the future (the date validator), storing nothing; else it appends one confirmed, payment-pending booking and `totalRevenue` rises by the price; seats stay distinct and the trip stays valid |
| TripModel.Trip.CancelBooking | models/Trip.js:138-141 | on a trip whose stored paths are valid: the save refuses a trip whose date is not in the future and stores nothing; otherwise the bookings become the filtered list, shorter by the number of bookings on the seat, and `totalRevenue` drops by that number times the price; seats stay distinct and the trip stays valid |
| TripModel.Trip.AvailableSeats | models/Trip.js:103-105 | `availableSeats` never exceeds the capacity; with distinct seats inside the bus it is non-negative and equals the capacity minus the booked seats of the seat map |
| TripModel.Trip.TotalRevenue | models/Trip.js:108-110 | `totalRevenue` is 0 for a trip without bookings and never negative for a non-negative price; a saved `bookSeat` raises it by the price and a saved `cancelBooking` lowers it by the price times the bookings removed |
| TripModel.Trip.BookingPercentage | models/Trip.js:113-115 | the result is 100 * bookings / capacity rounded half up: 0 for no bookings and 100 for a full bus |
| TripRoutes.ValidSeatValue | routes/trips.js:250 | a seat sent as text that `isInt({ min: 1 })` accepts is non-empty and carries no minus sign |
| TripRoutes.IsIntText | routes/trips.js:250 | a string `isInt` accepts is non-empty and starts with a digit or a sign |
| TripRoutes.SeatFreeAsWritten | routes/trips.js:272 | on a numeric seat the `===` check holds exactly when no booking is on the seat, and it never refuses a free seat, whatever form the seat came in |
| TripRoutes.SeatNumberOf | routes/trips.js:250 | a seat that `isInt({ min: 1 })` accepts, as a number or as text, is stored as a seat number of at least 1 |
| TripRoutes.FiveAsText | routes/trips.js:250 | the text "5" passes the seat validator and is stored as seat 5 |
| TripRoutes.HasBookingFor | routes/trips.js:277 | the patron check finds a booking exactly when some booking holds that patron id |
| TripRoutes.BookLedgerAsWritten | routes/trips.js:271-282 | the guards as written: a seat is refused as taken only when it was sent as a number held by a booking, a patron is refused only when the id as spelled equals a stored id, and otherwise exactly the new booking is appended; a refusal leaves the ledger alone |
| TripRoutes.BookLedger | routes/trips.js:271-282 | the guards on the cast values: a taken seat is refused, then a patron already on the trip, otherwise exactly the new booking is appended; a refusal leaves the ledger alone |
| TripRoutes.BookLedgerKeepsLedgerValid | routes/trips.js:271-282 | the corrected guards and `bookSeat` keep seats distinct and one booking per patron; after a booking the patron is on the trip exactly once; a refusal leaves the ledger alone |
| TripRoutes.AsWrittenAgreesOnCanonicalInput | routes/trips.js:271-282 | for a numeric seat and a lower-case patron id, the comparisons as written agree with the corrected ones |
| TripRoutes.AsWrittenDoublesSeat | routes/trips.js:272 | a taken seat sent as a string passes the `===` seat check and is booked a second time |
| TripRoutes.UpperCaseIdNeverMatches | routes/trips.js:277 | a patron id spelled with an upper-case hex digit never equals a stored id |
| TripRoutes.AsWrittenDoublesPatron | routes/trips.js:277 | a patron already on the trip, named with an upper-case hex digit, passes the patron check and gets a second booking |
| TripRoutes.OverbookingWithoutRangeCheck | routes/trips.js:250 | nothing compares the seat with the bus capacity: from an empty ledger the guards admit seat 1 and then seat 2, the ledger stays valid, and a one-seat trip with that ledger has `availableSeats` -1 |
| TripRoutes.UpdateLedgerAsWritten | routes/trips.js:190-203 | the update as written: the capacity rule compares the body's capacity with the stored count, and a `bookings` array in the body then replaces the ledger once the booking subschema accepts it (a refusal is a server error) |
| TripRoutes.UpdateAsWrittenOverbooks | routes/trips.js:190-203 | on a trip without bookings, an update with capacity 1 and two bookings on seat 1 is accepted: the ledger repeats a seat and `availableSeats` is -1 |
| TripRoutes.UpdateAsWrittenClearsLedger | routes/trips.js:190-203 | an update carrying an empty `bookings` array empties a booked trip's ledger |
| TripRoutes.ValidTripFields | routes/trips.js:9-45 | a body `validateTrip` accepts has non-empty trimmed destination and departure location, and its destination is at most 200 UTF-16 units long, twice the limit `isLength` checks |
| TripRoutes.CapacityRefused | routes/trips.js:191-192 | a trip without bookings never refuses a capacity, and a refused capacity is below the booking count |
| TripRoutes.CapacityRuleKeepsSeats | routes/trips.js:190-197 | a capacity the rule accepts leaves `availableSeats` non-negative, and a capacity equal to the booking count is accepted |
| TripRoutes.ValidatedFieldsPassSchema | routes/trips.js:9-45 | a body `validateTrip` accepts passes the schema's validators once sanitized exactly when its destination and description fit `maxlength` in UTF-16 units, and the schema's trim setters leave it as it is |
| TripRoutes.AstralDestinationPassesOnlyValidation | routes/trips.js:10-13 | a destination of sixty bus emoji passes `isLength({ max: 100 })` but fails the schema's `maxlength: 100` |
| TripRoutes.ActivePatron | routes/trips.js:266-269 | an active patron is found only for an id the ObjectId cast accepts, and is then one of the active patrons the listing shows, under the cast id |
| TripRoutes.FirstOnSeat | routes/trips.js:338 | finds nothing exactly when the seat is free; otherwise it finds a booking on that seat |
| TripRoutes.SeatMapOf | routes/trips.js:336-344 | the map of seats 1..n has n entries, and entry i is the one the loop builds for seat i + 1 |
| TripRoutes.SeatMapFreeSeats | routes/trips.js:336-344 | the free entries of the map of seats 1..n are the seats of 1..n that no booking holds |
| TripRoutes.SeatMapMatchesAvailableSeats | routes/trips.js:346-351 | with distinct seats inside the bus, the seat map's free entries equal `availableSeats` |
| TripRoutes.SeatMap | routes/trips.js:336-344 | the loop yields one entry per seat 1..busCapacity, in order; an entry is booked exactly when the seat is taken, and then it carries the patron of a booking on that seat |
| TripRoutes.SumBookings | routes/trips.js:376 | total bookings is at least each trip's bookings, and 0 exactly when no trip has a booking |
| TripRoutes.SumRevenue | routes/trips.js:377 | total revenue is 0 when no trip has a booking |
| TripRoutes.Upcoming | routes/trips.js:368-371 | an upcoming trip is neither completed nor cancelled |
| TripRoutes.RevenueOf | models/Trip.js:108-110 | the trips' `totalRevenue` virtuals added up in stored order; `SumRevenueIsTotalRevenue` ties it to the dashboard's reduce |
| TripRoutes.SumRevenueIsTotalRevenue | routes/trips.js:375-377 | the dashboard's `bookings.length * price` reduce over the selected trips equals the sum of their `totalRevenue` virtuals |
| TripRoutes.CountUpcoming | routes/trips.js:368-371 | the upcoming count is at most the trip count, and 0 exactly when no trip is scheduled on or after now |
| TripRoutes.CountCompleted | routes/trips.js:372 | the completed count is at most the trip count, and 0 exactly when no trip is completed |
| TripRoutes.SumsAppend | routes/trips.js:376-377 | both reduce sums split over a concatenation of trip lists |
| TripRoutes.SumRevenueNonNegative | routes/trips.js:377 | with non-negative prices, the total revenue is non-negative |
| TripRoutes.SumRevenueUniformPrice | routes/trips.js:377 | when all trips have the same price, the revenue is that price times the total bookings |
| TripRoutes.SumsAfterBooking | routes/trips.js:376-377 | one more booking on a trip raises total bookings by one and total revenue by that trip's price |
| TripRoutes.UpcomingAndCompletedApart | routes/trips.js:368-372 | no trip is both upcoming and completed, so the two counts add up to at most the total |
| TripRoutes.Matches | routes/trips.js:73-81 | a query without status and dates matches every trip, and a date range whose end is before its start matches none |
| TripRoutes.MatchingPositions | routes/trips.js:73-81 | selects exactly the positions of the trips the status and date filters match, in increasing order |
| TripRoutes.ListPage | routes/trips.js:87-98 | the positions are `PageOf` the matching positions for that page and limit, and the page count is `TotalPages` of their number: at most `limit` matching positions, and no pages exactly when nothing matches |
| TripRoutes.SummariesOf | routes/trips.js:375 | yields one summary per trip, in order |
| TripRoutes.Pick | routes/trips.js:87-92 | returns the trips at the chosen positions, in order |
| TripRoutes.PickedTripsMatch | routes/trips.js:87-92 | the trips picked at matching positions match the filters |
| TripRoutes.WithoutKeepsOnePerPatron | routes/trips.js:311 | cancelling a seat keeps at most one booking per patron |
| TripRoutes.WithoutKeepsLedgerValid | routes/trips.js:311 | cancelling a seat keeps the ledger valid |
| TripRoutes.TripCollection.constructor | routes/trips.js:133 | an empty collection satisfies the invariant |
| TripRoutes.TripCollection.Find | routes/trips.js:185-188 | finds the trip with the id, or reports that no trip has it |
| TripRoutes.TripCollection.Create | routes/trips.js:133-173 | answers 400 exactly when `validateTrip` fails, a server error exactly when the schema's UTF-16 lengths refuse the body, and succeeds otherwise, appending one new trip with the trimmed strings, status `scheduled` and no bookings; the invariant is kept |
| TripRoutes.TripCollection.Append | routes/trips.js:166 | saving a valid trip under an unused id appends it and keeps the invariant |
| TripRoutes.TripCollection.Update | routes/trips.js:178-213 | answers 400 on invalid input, 404 for an unknown id, 400 exactly when bookings exist and the capacity is below their number, a server error when the schema's UTF-16 lengths refuse the body, and succeeds in every other case; then that trip's paths are updated and its bookings kept, `availableSeats` stays non-negative, and no other trip changes |
| TripRoutes.TripCollection.UpdateAt | routes/trips.js:199-203 | updating one trip's paths keeps its bookings and every trip valid |
| TripRoutes.TripCollection.Delete | routes/trips.js:218-243 | answers 404 for an unknown id, 400 while the trip has bookings, and succeeds exactly when the trip is found without bookings; then only that trip is removed and its id is no longer found |
| TripRoutes.TripCollection.RemoveAt | routes/trips.js:233 | removing one trip keeps the others in order and the invariant |
| TripRoutes.TripCollection.Book | routes/trips.js:248-292 | the guards run in the source's order (body validation, trip, ObjectId cast, active patron, seat, patron) with the outcome of each; a booking they admit is saved only while the trip's date is in the future (a server error otherwise) and then changes only that trip's ledger, as `BookLedger` says, leaving its paths as they were |
| TripRoutes.TripCollection.BookAt | routes/trips.js:282 | `bookSeat` after passed guards saves exactly while the trip's date is in the future; then it appends exactly the new booking; otherwise nothing changes; every trip stays valid |
| TripRoutes.TripCollection.Cancel | routes/trips.js:297-321 | answers 404 for an unknown trip, and 404 for a seat that `parseInt` reads as NaN or that no booking holds; a held seat on a trip whose date has passed is a server error; otherwise it succeeds, exactly one booking leaves that trip, its paths stay, and no other trip changes |
| TripRoutes.TripCollection.CancelSeat | routes/trips.js:301-311 | the same outcomes and effects on an already parsed seat |
| TripRoutes.TripCollection.CancelAt | routes/trips.js:311 | `cancelBooking` on a held seat saves exactly while the trip's date is in the future, then removes exactly one booking; otherwise nothing changes; every trip stays valid |
| TripRoutes.TripCollection.SeatView | routes/trips.js:326-360 | answers 404 for an unknown trip; otherwise it returns the seat map of that trip, with one entry per seat |
| TripRoutes.TripCollection.Summaries | routes/trips.js:375 | yields one summary per stored trip, in order |
| TripRoutes.TripCollection.Dashboard | routes/trips.js:365-400 | the total is the trip count; upcoming and completed are the two counts over the summaries, which add up to at most the total; total bookings and revenue are the two reduce sums, and the revenue equals the sum of the trips' `totalRevenue` virtuals; with non-negative prices it is non-negative |
| TripRoutes.TripCollection.List | routes/trips.js:50-106 | returns the stored trips at the positions `ListPage` gives for the summaries, with its page count: at most `limit` stored trips, each matching the filters, and no pages exactly when no trip matches |

## Left out

- HTTP plumbing, `populate`, JSON serialization, `console.error` and the generic 500 answer for database errors are not modelled; an `Outcome` stands for each answer the handlers give.
- The clock (`new Date()`, `Date.now`) is a `now` parameter, and dates are integers. The save in `bookSeat` and `cancelBooking` checks the date validator against that same `now`. `isISO8601` date parsing is not modelled: a body's date is already a number.
- Prices are JavaScript floats and `isFloat`; they are modelled as integers, so rounding in `bookings.length * price` is not captured.
- Concurrency is not modelled. Two requests that interleave between `findById` and `save` (for example, two bookings of the same seat) could both pass the guards. The model runs each handler on its own.
- The `$regex` searches with the `i` option (trip search, patron listing search, quick search) are not modelled as regular expressions. Patron quick search takes a `matches` predicate. The trip listing models the status and date filters and leaves out the text search.
- Quick search's `.sort('name')` is not modelled. It decides which ten matches `.limit(10)` returns (routes/patrons.js:225-226); the model returns the first ten in stored order.
- The `sortBy`/`sortOrder` ordering of both listings, and the dashboard's `upcomingTripsList` (sorted by date, limited to 5), are not modelled. Listings return documents in stored order.
- The email address is not modelled: the `isEmail` and `normalizeEmail` checks of the route, and the `trim`, `lowercase` and pattern of the schema. The email is stored as given.
- `driver`, `bus`, `emergencyContact` contents, timestamps (`createdAt`/`updatedAt`) and the indexes are not modelled.
- `GET /:id` of both routers is plain lookup (`TripCollection.Find`, `PatronCollection.FindById`). Trip ids in the path are matched as given and never cast, so a malformed trip id always answers `TripNotFound`, and so does a trip id written with upper-case hex digits, which the source's `findById` casts to the stored ObjectId and finds. In the source it is a 404 through `error.kind === 'ObjectId'` in the update and delete handlers, but a 500 in the book and cancel handlers, which have no such test (routes/trips.js:288-291, 317-320).
- Page and limit come from the query string and are multiplied as strings in the source. The model takes them as integers of at least 1 (`requires page >= 1 && limit >= 1`) and does not model non-numeric or zero values.
- `isInt` is modelled as an optional sign followed by decimal digits. Its handling of very large numbers and surrounding whitespace is not modelled.
- `parseInt` is modelled for the cases the cancel route meets (whitespace, sign, decimal, `0x` hexadecimal). Digits beyond 2^53 lose no precision in the model, unlike in JavaScript.
- TripModel.Trip.BookingPercentage: rounds the exact quotient `100 * bookings / capacity` half up. The source rounds a floating-point quotient, which can fall just below .5: 23 bookings on 40 seats give 57 in the source and 58 in the model, and so do 46 of 80 (57 against 58), 41 of 40 (102 against 103) and 51 of 40 (127 against 128).
- TripRoutes.TripCollection.Book: decides with the corrected `BookLedger`, so it refuses a taken seat sent as the text "5" and a patron already on the trip whose id is written in upper case; the source books both a second time (routes/trips.js:272, 277; see Findings), which `TripRoutes.BookLedgerAsWritten` models.
- PatronRoutes.Edited: assumes the update leaves out the keys the body does not carry, as Mongoose 7 and later do with `undefined` values; with the defaults of Mongoose 6 an absent optional field would be set to null instead of kept.
- TripModel.Trip.ApplyUpdate: does not apply a `bookings` array that the update body carries. This is the corrected behaviour (see Findings); `TripRoutes.UpdateLedgerAsWritten` models the ledger the source stores.
- TripRoutes.TripCollection.Update: likewise ignores a `bookings` array in the body, so it keeps the ledger, `availableSeats` non-negative and the invariant; the source as written does not (see Findings).
- `isLength` is modelled as a count of code points. Recent versions of the validator library also discount some variation selectors; that is not modelled.
- TripModel.Trip.ApplyUpdate: the update with `runValidators` is modelled on all of the trip's own paths at once (the `TripDetails` value); paths the body carries that the schema does not know are not modelled, and `status` is passed separately.
- TripRoutes.TripCollection.Update: the validated body always carries `busCapacity` (it is required by `validateTrip`), so the source's `req.body.busCapacity &&` test is taken as true.
- The seed script, `setup_atlas.js` and `fix_connection.js` are setup code and are not part of this model.

## Findings

| source | as written | input that shows it | evidently intended | confidence | as-written member | corrected member |
|---|---|---|---|---|---|---|
| models/Trip.js:119 and routes/trips.js:272 | `isSeatAvailable` compares the stored seat number with the body's `seatNumber` using `===`, but `isInt` also accepts the seat as a JSON string, which Mongoose then casts to a number when it stores it | seat 5 is booked; a second patron posts `{"seatNumber": "5"}` and is booked on seat 5 as well | a seat already held is refused, whatever form the number was sent in | not executed | TripRoutes.AsWrittenDoublesSeat | TripRoutes.BookLedgerKeepsLedgerValid |
| routes/trips.js:277 | the patron check compares `b.patronId.toString()` (lower-case hex) with the body's `patronId` as spelled, while `isMongoId` and the ObjectId cast also accept upper-case hex | a patron already on the trip posts again with the id written in upper case, and a second booking is saved for the same patron | one booking per patron per trip, whatever the case of the id | not executed | TripRoutes.AsWrittenDoublesPatron | TripRoutes.BookLedgerKeepsLedgerValid |
| routes/trips.js:190-203 and models/Trip.js:82 | the update hands the whole body to `findByIdAndUpdate`, so a `bookings` array in it replaces the ledger; the capacity rule compares the body's capacity with the stored booking count, and the update validators check only each booking's own paths | a trip with no bookings gets a PUT with `busCapacity: 1` and two bookings on seat 1: both are stored, and `availableSeats` is -1; a PUT with `bookings: []` empties a booked trip, which the delete guard then lets go | the ledger changes only through the book and cancel routes | not executed | TripRoutes.UpdateAsWrittenOverbooks | TripRoutes.TripCollection.Update |

`TripRoutes.UpdateLedgerAsWritten` models the ledger the update stores as written, and
`TripRoutes.UpdateAsWrittenClearsLedger` shows the empty array. `TripRoutes.TripCollection.Update`
keeps the ledger and proves the capacity rule leaves `availableSeats` non-negative.

`TripRoutes.BookLedgerAsWritten` models both comparisons as written. `TripRoutes.BookLedger`
compares the cast values, and `TripRoutes.TripCollection.Book` uses it.
