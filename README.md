# Booking service of the hostfully web service, in Dafny

This project models `BookingService`, the part of the hostfully web service
that creates, updates, looks up and cancels property bookings. It also models
the store that the service reads and writes through its repositories.

- `wrappers.dfy`: `Option` (a Java `null` or an empty `Optional`) and
  `Result` (a value, or the `HostfullyWSException` thrown instead).
- `entities.dfy`: bookings, blocks (shaped like `entities/Block.java`), the
  `BookingInfo` transfer record and the error types with their arguments.
  Dates are day numbers, so `plusDays(1)` is `+ 1`.
- `repository.dfy`: the store (bookings by id, blocks, the ids of existing
  properties and guests, the next generated id) and the custom queries.
- `booking_rules.dfy`: `validateBooking`, and the decision `createOrUpdate`
  makes, as functions over a store value. The auto-adjustment of the start
  date is its own function, `AutoAdjust`. This file also holds the lemmas.
- `booking_service.dfy`: class `BookingService`. Its fields are the store.
  Its methods are `createOrUpdate`, `lookupById`, `lookupByRange` and
  `deleteBooking`, written step by step and proved against the functions
  above.

The date parser (`CommonUtils.toDate`) is a parameter `toDate: string ->
Option<Day>`, where `None` is a `DateTimeParseException`. The formatter
used by `convertAndAdd` is a parameter `toText: Day -> string`.

The bodies of the custom queries are not part of this model, so
`repository.dfy` assumes a definition for each:

- `bookingInTimeRange(propertyId)` is the largest end date among the
  property's bookings, or none.
- `bookingExistsInTimeRange` and `propertyBlockedInTimeRange` ask whether a
  booking or block of the property meets the half-open range `[start, end)`.
  Two ranges meet when each starts before the other ends.
- `findAllByBookingsForRange` returns every booking, of any property, that
  meets the range.

The service's contracts are stated in terms of these query functions. The
following depend on the assumed definitions: the lemmas
`AlreadyBookedUnreachable`, `UpdateMissesOwnOldRange`, `ShiftCanInvertRange`
and `SaveKeepsInvariants`, and the no-conflict clause of `CreateOrUpdate`,
which rests on `SaveKeepsInvariants`. `DeleteKeepsInvariants` and the
no-conflict clause of `DeleteBooking` hold whatever the queries do; they are
only stated with the assumed overlap test.

What the proofs show about the code as written:

- The start date is moved to the day after the property's latest booking end
  (line 107). The order check (line 85) is not repeated after that move. So a
  request for 2024-06-05..2024-06-08 on a property whose latest booking ends on
  2024-06-10 is saved as 2024-06-11..2024-06-08, with its start after its end
  (`ShiftCanInvertRange`).
- Under the assumed query definitions, the moved start lies after every end
  date of the property's bookings. So the PROPERTY_ALREADY_BOOKED check at line
  110 can never fire (`AlreadyBookedUnreachable`).
- The booking check does not leave out the booking being updated, and the
  model follows the code here. Under the assumed query definitions, the move
  puts the new start after the updated booking's own old end, so the update
  never meets its own old range (`UpdateMissesOwnOldRange`).
- Under the assumed query definitions, saving an accepted booking keeps the
  store free of conflicts: no two bookings of one property meet, and no booking
  meets a block of its property (`SaveKeepsInvariants`). This holds because of
  the booked and blocked checks on the final range.

## Model

| member | source | states |
|---|---|---|
| `Bookings.ValidateBooking` | src/main/java/com/hostfully/webservice/services/BookingService.java:230-250 | The request passes exactly when it supplies bookingInfo, a positive propertyId, a positive guestId, a non-empty startDate and a non-empty endDate. Otherwise it fails with PARAMETER_MANDATORY naming the first missing field in that order, and every earlier field is supplied. On success the validated request carries the same fields. |
| `Bookings.Evaluate` | src/main/java/com/hostfully/webservice/services/BookingService.java:59-117 | Each error implies that every earlier check passed and its own failed, in this order: BOOKING_NOT_FOUND(id) for an unknown update id; ILLEGAL_PARAMETER_VALUE("startDate or endDate") for an unparsable date or start ≥ end; PROPERTY_NOT_FOUND(propertyId); GUEST_NOT_FOUND(guestId); PROPERTY_ALREADY_BOOKED; PROPERTY_BLOCKED. The two conflict checks use the final, possibly moved, range. On success the saved booking has the requested property, guest and end. Its start is latest end + 1 when the property has bookings; otherwise it is the requested start, which is before the end. An absent id stays absent, so a new booking is created. |
| `Bookings.SavedId` | src/main/java/com/hostfully/webservice/services/BookingService.java:126 | `save` returns a positive id: the target's id on update, and on insert an id no stored booking has. |
| `Bookings.SaveKeepsInvariants` | src/main/java/com/hostfully/webservice/services/BookingService.java:110-126 | An accepted booking can be saved. Saving it keeps the ids and references valid and keeps the store free of conflicts. |
| `Bookings.DeleteKeepsInvariants` | src/main/java/com/hostfully/webservice/services/BookingService.java:213 | Removing a booking keeps the ids and references valid and keeps the store free of conflicts. |
| `Bookings.AlreadyBookedUnreachable` | src/main/java/com/hostfully/webservice/services/BookingService.java:104-112 | Under the assumed queries, the evaluation never fails with PROPERTY_ALREADY_BOOKED. |
| `Bookings.UpdateMissesOwnOldRange` | src/main/java/com/hostfully/webservice/services/BookingService.java:104-110 | Under the assumed queries, an accepted update whose old booking has the same property never meets that old booking's range, so the booked check cannot be tripped by the booking being updated. |
| `Bookings.ShiftCanInvertRange` | src/main/java/com/hostfully/webservice/services/BookingService.java:78-108 | Take a property whose latest booking ends on day 19884, and a request for days 19879..19882. The request passes every check and is saved as 19885..19882, with its start after its end. |
| `Bookings.ParseRange` | src/main/java/com/hostfully/webservice/services/BookingService.java:78-83 | Gives both dates exactly when the parser accepts both texts, and then they are the parsed start and end. A failure of either parse gives none. |
| `Bookings.AutoAdjust` | src/main/java/com/hostfully/webservice/services/BookingService.java:104-108 | When the property has a latest booking end, the start becomes the day after it, so it is later than that end. Otherwise the requested start is kept. |
| `Bookings.Decide` | src/main/java/com/hostfully/webservice/services/BookingService.java:55-117 | A validation failure is returned unchanged. The only PARAMETER_MANDATORY errors are validation failures. On success validation passed, the update id is the requested id, and the booking carries the requested property, guest and parsed end date. |
| `Bookings.Commit` | src/main/java/com/hostfully/webservice/services/BookingService.java:126 | `save` adds or replaces exactly the booking under the returned id. Every other booking, the blocks, properties and guests are unchanged. The id counter advances only on insert. |
| `Service.ItemRevalidates` | src/main/java/com/hostfully/webservice/services/BookingService.java:218-227 | The item `convertAndAdd` builds from a stored booking with positive ids and non-empty formatted dates passes `validateBooking` again, as an update of that same booking. |
| `Service.LookupAfterSave` | src/main/java/com/hostfully/webservice/services/BookingService.java:101-126 | After an accepted create or update, the saved booking is stored under the returned positive id. Its lookup item carries that id, the requested property and guest ids, and the parsed end date. |
| `Repository.BookingExistsInTimeRange` | src/main/java/com/hostfully/webservice/services/BookingService.java:110 | Assumed definition. It can hold only if the property has a booking, and it does not hold when every booking of the property ends by the start or begins at or after the end. |
| `Repository.PropertyBlockedInTimeRange` | src/main/java/com/hostfully/webservice/services/BookingService.java:115 | Assumed definition. It can hold only if the property has a block, and it does not hold when every block of the property ends by the start or begins at or after the end. |
| `Repository.BookingsForRange` | src/main/java/com/hostfully/webservice/services/BookingService.java:193 | Assumed definition. It returns only stored booking ids, never a booking that ends by the start or begins at or after the end, and every booking lying wholly inside the range. |
| `Repository.LatestEndBelow` | src/main/java/com/hostfully/webservice/services/BookingService.java:104 | For the ids below a bound: none exactly when the property has no booking there; otherwise an end date that one of its bookings has and that no booking of the property exceeds. |
| `Repository.LatestBookingEnd` | src/main/java/com/hostfully/webservice/services/BookingService.java:104-108 | Gives none exactly when the property has no booking. Otherwise gives the largest end date among its bookings, which one of them attains. |
| `Service.BookingService.Save` | src/main/java/com/hostfully/webservice/services/BookingService.java:126 | Replaces the target booking, or inserts the booking under the next generated id and advances the counter. Returns that id. |
| `Service.BookingService.CreateOrUpdate` | src/main/java/com/hostfully/webservice/services/BookingService.java:53-131 | Returns exactly the validation or evaluation error, and then every table is unchanged. Otherwise it saves the evaluated booking through the single `save` and returns the saved id. It keeps the store valid, and keeps it free of conflicts when it was. |
| `Service.BookingService.ConvertAll` | src/main/java/com/hostfully/webservice/services/BookingService.java:218-228 | Gives one item per given booking id, with no id twice. Each item carries that booking's id, property id, guest id and formatted dates. |
| `Service.BookingService.LookupById` | src/main/java/com/hostfully/webservice/services/BookingService.java:134-163 | No id lists every stored booking once. An id ≤ 0 fails with ILLEGAL_PARAMETER_VALUE("bookingId"). A positive id gives the one stored booking under it, or an empty list, and never an error. Nothing is modified. |
| `Service.BookingService.LookupByRange` | src/main/java/com/hostfully/webservice/services/BookingService.java:165-198 | A missing startDate, then a missing endDate, fails with PARAMETER_MANDATORY. An unparsable date, or start ≥ end, fails with ILLEGAL_PARAMETER_VALUE("startDate or endDate"). Otherwise it lists once each booking the range query returns. Nothing is modified. |
| `Service.BookingService.DeleteBooking` | src/main/java/com/hostfully/webservice/services/BookingService.java:200-216 | No id fails with PARAMETER_MANDATORY("id"). An unknown id fails with BOOKING_NOT_FOUND(id). Either failure leaves the store unchanged. Otherwise exactly that booking is removed, and blocks, properties, guests, the other bookings and the id counter are unchanged. |

## Left out

- Logging (`log.info`) and the Spring wiring (`@Service`, the `@Autowired` constructor) have no behaviour. The class constructor instead takes the store's initial contents.
- The custom queries' bodies are not part of this model. `repository.dfy` gives each an assumed definition, described above.
- `CommonUtils.toDate`, `CommonUtils.isNullOrEmpty` and the `DateTimeFormatter` output are not part of this model. Parsing and formatting are parameters, and no round trip between them is claimed. `isNullOrEmpty` is taken to mean null or of length zero.
- JPA managed-entity dirty checking is not modelled. On update the source sets the fetched entity's dates (lines 79-80) before checks that may still throw. The model changes the store only through `save` and `delete`.
- Entities are values identified by id. Property and guest objects are reduced to their ids, since their names are only logged. The response wrappers are reduced to the values they carry.
- Java `Long` overflow and the `LocalDate` range limit are not modelled. Ids and day numbers are unbounded integers, so `plusDays(1)` never fails.
- Service.BookingService.ConvertAll: does not promise the list order of `findAll` and the range query, which the database decides. The model lists items in id order but states only that there is one item per booking.
- Concurrency and transaction isolation between the checks and the save are outside this sequential model.
- `entities/Block.java` serves only as the shape of `Block`. `repositories/PropertyOwnerRepository.java` declares nothing to model.
- A failed parse and a start not before the end both raise ILLEGAL_PARAMETER_VALUE("startDate or endDate") (lines 83 and 87). `bookingExistsInTimeRange` takes no booking id to leave out (line 110), so an update is checked against its own old range too. The model follows the code in both.
