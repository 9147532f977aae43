/** The decision logic of `BookingService.createOrUpdate` as functions over a
    store value: request validation, the resolution steps, the auto-adjustment
    of the start date, the conflict checks and the write that follows; and the
    properties these promise. */
module Bookings {
  import opened Wrappers
  import opened Entities
  import opened Repository

  /** The request fields `validateBooking` checks, in the order it checks them. */
  datatype Field = BookingInfoField | PropertyIdField | GuestIdField | StartDateField | EndDateField

  /** The name reported for a missing field. */
  function FieldName(f: Field): string {
    match f
    case BookingInfoField => "bookingInfo"
    case PropertyIdField => "propertyId"
    case GuestIdField => "guestId"
    case StartDateField => "startDate"
    case EndDateField => "endDate"
  }

  const RequiredFields: seq<Field> :=
    [BookingInfoField, PropertyIdField, GuestIdField, StartDateField, EndDateField]

  /** Whether the request supplies field `f` in the form `validateBooking` accepts. */
  predicate Supplied(req: Option<BookingInfo>, f: Field) {
    req.Some? &&
    match f
    case BookingInfoField => true
    case PropertyIdField => IsPositive(req.value.propertyId)
    case GuestIdField => IsPositive(req.value.guestId)
    case StartDateField => !IsNullOrEmpty(req.value.startDate)
    case EndDateField => !IsNullOrEmpty(req.value.endDate)
  }

  /** A request that passed `validateBooking`: ids positive, date texts non-empty. */
  datatype Request = Request(id: Option<int>, propertyId: int, guestId: int, startText: string, endText: string)

  /** `validateBooking`: the first missing field, in the order of
      `RequiredFields`, fails with PARAMETER_MANDATORY naming it; a request
      supplying all of them passes, unchanged. */
  function ValidateBooking(req: Option<BookingInfo>): (r: Result<Request, Error>)
    ensures r.Success? <==> forall k | 0 <= k < |RequiredFields| :: Supplied(req, RequiredFields[k])
    ensures r.Success? ==>
      && r.value.propertyId > 0 && r.value.guestId > 0
      && r.value.startText != [] && r.value.endText != []
      && req == Some(BookingInfo(r.value.id, Some(r.value.propertyId), Some(r.value.guestId),
                                 Some(r.value.startText), Some(r.value.endText)))
    ensures r.Failure? ==>
      exists k | 0 <= k < |RequiredFields| ::
        && r.error == ParameterMandatory(FieldName(RequiredFields[k]))
        && !Supplied(req, RequiredFields[k])
        && forall j | 0 <= j < k :: Supplied(req, RequiredFields[j])
  {
    if !Supplied(req, BookingInfoField) then
      assert RequiredFields[0] == BookingInfoField;
      Failure(ParameterMandatory(FieldName(BookingInfoField)))
    else if !Supplied(req, PropertyIdField) then
      assert RequiredFields[1] == PropertyIdField;
      Failure(ParameterMandatory(FieldName(PropertyIdField)))
    else if !Supplied(req, GuestIdField) then
      assert RequiredFields[2] == GuestIdField;
      Failure(ParameterMandatory(FieldName(GuestIdField)))
    else if !Supplied(req, StartDateField) then
      assert RequiredFields[3] == StartDateField;
      Failure(ParameterMandatory(FieldName(StartDateField)))
    else if !Supplied(req, EndDateField) then
      assert RequiredFields[4] == EndDateField;
      Failure(ParameterMandatory(FieldName(EndDateField)))
    else
      var info := req.value;
      Success(Request(info.id, info.propertyId.value, info.guestId.value,
                      info.startDate.value, info.endDate.value))
  }

  /** Both texts parsed to day numbers, or none when either fails to parse. */
  function ParseRange(startText: string, endText: string, toDate: string -> Option<Day>): (r: Option<(Day, Day)>)
    ensures r.Some? <==> toDate(startText).Some? && toDate(endText).Some?
    ensures r.Some? ==> r.value.0 == toDate(startText).value && r.value.1 == toDate(endText).value
  {
    match toDate(startText)
    case None => None
    case Some(start) =>
      match toDate(endText)
      case None => None
      case Some(end) => Some((start, end))
  }

  /** A parsed range whose start is strictly before its end. */
  predicate InOrder(range: Option<(Day, Day)>) {
    range.Some? && range.value.0 < range.value.1
  }

  /** An update names a stored booking; a create names none. */
  predicate TargetFound(s: Store, q: Request) {
    q.id.None? || q.id.value in s.bookings
  }

  /** Every check before the auto-adjustment passes. */
  predicate Resolvable(s: Store, q: Request, toDate: string -> Option<Day>) {
    && TargetFound(s, q)
    && InOrder(ParseRange(q.startText, q.endText, toDate))
    && q.propertyId in s.properties
    && q.guestId in s.guests
  }

  /** The auto-adjustment rule: when the property has a latest booking end,
      the start becomes the day after it, whatever was requested. */
  function AutoAdjust(latest: Option<Day>, requested: Day): (start: Day)
    ensures latest.Some? ==> start > latest.value && start - 1 == latest.value
    ensures latest.None? ==> start == requested
  {
    match latest
    case Some(last) => last + 1
    case None => requested
  }

  /** The booking `createOrUpdate` hands to `save`, and the id it was found
      under (none for a new booking). */
  datatype Saved = Saved(id: Option<int>, booking: Booking)

  /** The steps of `createOrUpdate` after validation: resolve the target,
      parse and order-check the dates, resolve property then guest, adjust the
      start, then the booked and blocked checks on the final range. Each
      error implies that every earlier check passed and its own failed. */
  function Evaluate(s: Store, q: Request, toDate: string -> Option<Day>): (r: Result<Saved, Error>)
    requires StoreValid(s)
    ensures r.Failure? ==> !r.error.ParameterMandatory?
    ensures r.Failure? && r.error.BookingNotFound? ==>
      q.id == Some(r.error.id) && r.error.id !in s.bookings
    ensures r.Failure? && r.error.IllegalParameterValue? ==>
      && TargetFound(s, q)
      && r.error.field == DatesField
      && !InOrder(ParseRange(q.startText, q.endText, toDate))
    ensures r.Failure? && r.error.PropertyNotFound? ==>
      && TargetFound(s, q)
      && InOrder(ParseRange(q.startText, q.endText, toDate))
      && r.error.id == q.propertyId && q.propertyId !in s.properties
    ensures r.Failure? && r.error.GuestNotFound? ==>
      && TargetFound(s, q)
      && InOrder(ParseRange(q.startText, q.endText, toDate))
      && q.propertyId in s.properties
      && r.error.id == q.guestId && q.guestId !in s.guests
    ensures r.Failure? && r.error.PropertyAlreadyBooked? ==>
      && Resolvable(s, q, toDate)
      && var (requested, end) := ParseRange(q.startText, q.endText, toDate).value;
         BookingExistsInTimeRange(s.bookings, q.propertyId,
                                  AutoAdjust(LatestBookingEnd(s, q.propertyId), requested), end)
    ensures r.Failure? && r.error.PropertyBlocked? ==>
      && Resolvable(s, q, toDate)
      && var (requested, end) := ParseRange(q.startText, q.endText, toDate).value;
         var start := AutoAdjust(LatestBookingEnd(s, q.propertyId), requested);
         && !BookingExistsInTimeRange(s.bookings, q.propertyId, start, end)
         && PropertyBlockedInTimeRange(s.blocks, q.propertyId, start, end)
    ensures r.Success? ==>
      && Resolvable(s, q, toDate)
      && var (requested, end) := ParseRange(q.startText, q.endText, toDate).value;
         var latest := LatestBookingEnd(s, q.propertyId);
         && r.value.id == q.id
         && r.value.booking.propertyId == q.propertyId
         && r.value.booking.guestId == q.guestId
         && r.value.booking.endDate == end
         && (latest.Some? ==> r.value.booking.startDate == latest.value + 1)
         && (latest.None? ==> r.value.booking.startDate == requested < end)
         && !BookingExistsInTimeRange(s.bookings, q.propertyId, r.value.booking.startDate, end)
         && !PropertyBlockedInTimeRange(s.blocks, q.propertyId, r.value.booking.startDate, end)
  {
    if !TargetFound(s, q) then Failure(BookingNotFound(q.id.value))
    else if !InOrder(ParseRange(q.startText, q.endText, toDate)) then Failure(IllegalParameterValue(DatesField))
    else if q.propertyId !in s.properties then Failure(PropertyNotFound(q.propertyId))
    else if q.guestId !in s.guests then Failure(GuestNotFound(q.guestId))
    else
      var (requested, end) := ParseRange(q.startText, q.endText, toDate).value;
      var start := AutoAdjust(LatestBookingEnd(s, q.propertyId), requested);
      if BookingExistsInTimeRange(s.bookings, q.propertyId, start, end) then Failure(PropertyAlreadyBooked)
      else if PropertyBlockedInTimeRange(s.blocks, q.propertyId, start, end) then Failure(PropertyBlocked)
      else Success(Saved(q.id, Booking(q.propertyId, q.guestId, start, end)))
  }

  /** `createOrUpdate` up to the write: validation, then `Evaluate`. */
  function Decide(s: Store, req: Option<BookingInfo>, toDate: string -> Option<Day>): (r: Result<Saved, Error>)
    requires StoreValid(s)
    ensures ValidateBooking(req).Failure? ==> r == Failure(ValidateBooking(req).error)
    ensures r.Failure? ==> (r.error.ParameterMandatory? <==> ValidateBooking(req).Failure?)
    ensures r.Success? ==>
      && ValidateBooking(req).Success?
      && r.value.id == req.value.id
      && Some(r.value.booking.propertyId) == req.value.propertyId
      && Some(r.value.booking.guestId) == req.value.guestId
      && Some(r.value.booking.endDate) == toDate(req.value.endDate.value)
  {
    match ValidateBooking(req)
    case Failure(e) => Failure(e)
    case Success(q) => Evaluate(s, q, toDate)
  }

  /** A decision `save` can carry out: its target exists and its references resolve. */
  predicate Savable(s: Store, d: Saved) {
    && (d.id.Some? ==> d.id.value in s.bookings)
    && d.booking.propertyId in s.properties
    && d.booking.guestId in s.guests
  }

  /** The id `save` returns: the target's on update, a freshly generated one
      on insert. */
  function SavedId(s: Store, d: Saved): (id: int)
    requires StoreValid(s) && Savable(s, d)
    ensures 0 < id
    ensures d.id.Some? ==> id == d.id.value
    ensures d.id.None? ==> id !in s.bookings
  {
    match d.id
    case Some(id) => id
    case None => s.nextId
  }

  /** The store after `save`: the booking replaces the target or is inserted
      under the generated id, which the counter then moves past. */
  function Commit(s: Store, d: Saved): (t: Store)
    requires StoreValid(s) && Savable(s, d)
    ensures t.bookings.Keys == s.bookings.Keys + {SavedId(s, d)}
    ensures t.bookings[SavedId(s, d)] == d.booking
    ensures forall id | id in s.bookings && id != SavedId(s, d) :: t.bookings[id] == s.bookings[id]
    ensures t.blocks == s.blocks && t.properties == s.properties && t.guests == s.guests
    ensures t.nextId == if d.id.None? then s.nextId + 1 else s.nextId
  {
    var id := SavedId(s, d);
    s.(bookings := s.bookings[id := d.booking],
       nextId := if d.id.None? then s.nextId + 1 else s.nextId)
  }

  /** Saving keeps the generated ids below the counter and the references resolvable. */
  lemma CommitKeepsValid(s: Store, d: Saved)
    requires StoreValid(s) && Savable(s, d)
    ensures StoreValid(Commit(s, d))
  {
  }

  /** The invariant the conflict checks are there to keep: no two bookings of
      one property intersect, and no booking intersects a block of its property. */
  ghost predicate NoConflicts(s: Store) {
    && (forall a, b | a in s.bookings && b in s.bookings && a != b
                      && s.bookings[a].propertyId == s.bookings[b].propertyId ::
          !Overlaps(s.bookings[a].startDate, s.bookings[a].endDate,
                    s.bookings[b].startDate, s.bookings[b].endDate))
    && (forall a, i | a in s.bookings && 0 <= i < |s.blocks|
                      && s.blocks[i].propertyId == s.bookings[a].propertyId ::
          !Overlaps(s.bookings[a].startDate, s.bookings[a].endDate,
                    s.blocks[i].startDate, s.blocks[i].endDate))
  }

  /** An accepted request can be saved, and saving it keeps the store valid
      and free of conflicts. */
  lemma SaveKeepsInvariants(s: Store, q: Request, toDate: string -> Option<Day>)
    requires StoreValid(s) && NoConflicts(s)
    requires Evaluate(s, q, toDate).Success?
    ensures Savable(s, Evaluate(s, q, toDate).value)
    ensures StoreValid(Commit(s, Evaluate(s, q, toDate).value))
    ensures NoConflicts(Commit(s, Evaluate(s, q, toDate).value))
  {
    var d := Evaluate(s, q, toDate).value;
    var id := SavedId(s, d);
    var t := Commit(s, d);
    var nb := d.booking;
    forall a | a in t.bookings && a != id && t.bookings[a].propertyId == nb.propertyId
      ensures !Overlaps(t.bookings[a].startDate, t.bookings[a].endDate, nb.startDate, nb.endDate)
    {
      assert t.bookings[a] == s.bookings[a];
    }
    forall a, b | a in t.bookings && b in t.bookings && a != b
                  && t.bookings[a].propertyId == t.bookings[b].propertyId
      ensures !Overlaps(t.bookings[a].startDate, t.bookings[a].endDate,
                        t.bookings[b].startDate, t.bookings[b].endDate)
    {
      if a == id {
        assert t.bookings[b] == s.bookings[b];
      } else if b == id {
        assert t.bookings[a] == s.bookings[a];
      } else {
        assert t.bookings[a] == s.bookings[a] && t.bookings[b] == s.bookings[b];
      }
    }
    forall a, i | a in t.bookings && 0 <= i < |t.blocks| && t.blocks[i].propertyId == t.bookings[a].propertyId
      ensures !Overlaps(t.bookings[a].startDate, t.bookings[a].endDate,
                        t.blocks[i].startDate, t.blocks[i].endDate)
    {
      if a != id {
        assert t.bookings[a] == s.bookings[a];
      }
    }
  }

  /** Removing a booking keeps the store valid and free of conflicts. */
  lemma DeleteKeepsInvariants(s: Store, id: int)
    requires StoreValid(s)
    ensures StoreValid(s.(bookings := s.bookings - {id}))
    ensures NoConflicts(s) ==> NoConflicts(s.(bookings := s.bookings - {id}))
  {
  }

  /** Under the assumed query definitions the PROPERTY_ALREADY_BOOKED check
      never fires: after the auto-adjustment the start lies after every end
      date of the property's bookings, and with no such booking there is
      nothing to intersect. */
  lemma AlreadyBookedUnreachable(s: Store, q: Request, toDate: string -> Option<Day>)
    requires StoreValid(s)
    ensures Evaluate(s, q, toDate) != Failure(PropertyAlreadyBooked)
  {
  }

  /** Under the assumed query definitions an update never meets its own old
      range: the adjusted start lies after every end date of the property's
      bookings, the old one included, so the `bookingExistsInTimeRange` check cannot
      be tripped by the booking being updated. */
  lemma UpdateMissesOwnOldRange(s: Store, q: Request, toDate: string -> Option<Day>)
    requires StoreValid(s) && Evaluate(s, q, toDate).Success? && q.id.Some?
    ensures var d := Evaluate(s, q, toDate).value;
      var prior := s.bookings[q.id.value];
      prior.propertyId == d.booking.propertyId ==>
        !Overlaps(prior.startDate, prior.endDate, d.booking.startDate, d.booking.endDate)
  {
    var d := Evaluate(s, q, toDate).value;
    var prior := s.bookings[q.id.value];
    if prior.propertyId == d.booking.propertyId {
      assert Resolvable(s, q, toDate) && d.booking.propertyId == q.propertyId;
      var latest := LatestBookingEnd(s, q.propertyId);
      var i := q.id.value;
      assert i in s.bookings && s.bookings[i].propertyId == q.propertyId;
      assert !(forall id | id in s.bookings :: s.bookings[id].propertyId != q.propertyId);
      assert latest.Some?;
      assert prior.endDate <= latest.value;
    }
  }

  /** The auto-adjustment is not re-checked: with a booking of the property
      ending on day 19884 (2024-06-10), a request for 19879..19882
      (2024-06-05..2024-06-08) is accepted and saved as 19885..19882, a
      booking whose start is after its end. */
  lemma ShiftCanInvertRange(toDate: string -> Option<Day>, startText: string, endText: string)
    requires startText != [] && endText != []
    requires toDate(startText) == Some(19879) && toDate(endText) == Some(19882)
    ensures
      var s := Store(map[1 := Booking(7, 3, 19880, 19884)], [], {7}, {3}, 2);
      var req := Some(BookingInfo(None, Some(7), Some(3), Some(startText), Some(endText)));
      && StoreValid(s)
      && Decide(s, req, toDate) == Success(Saved(None, Booking(7, 3, 19885, 19882)))
      && Decide(s, req, toDate).value.booking.startDate > Decide(s, req, toDate).value.booking.endDate
  {
  }
}
