/** `BookingService` as a class over the store it reads and writes: create or
    update, the two lookups and the delete. */
module Service {
  import opened Wrappers
  import opened Entities
  import opened Repository
  import opened Bookings

  /** `convertAndAdd`'s conversion of a stored booking into a lookup item. */
  function ToInfo(id: int, b: Booking, toText: Day -> string): BookingInfo {
    BookingInfo(Some(id), Some(b.propertyId), Some(b.guestId), Some(toText(b.startDate)), Some(toText(b.endDate)))
  }

  /** A lookup item whose ids are positive and whose dates format to
      non-empty text passes `validateBooking` again, as an update of the same
      booking with the same property, guest and date texts. */
  lemma ItemRevalidates(id: int, b: Booking, toText: Day -> string)
    requires id > 0 && b.propertyId > 0 && b.guestId > 0
    requires toText(b.startDate) != [] && toText(b.endDate) != []
    ensures ValidateBooking(Some(ToInfo(id, b, toText))) ==
      Success(Request(Some(id), b.propertyId, b.guestId, toText(b.startDate), toText(b.endDate)))
  {
  }

  /** `items` holds exactly one converted item for each id in `ids`. */
  ghost predicate Lists(items: seq<BookingInfo>, bookings: map<int, Booking>, ids: set<int>, toText: Day -> string) {
    && (forall i | 0 <= i < |items| ::
          && items[i].id.Some? && items[i].id.value in ids && items[i].id.value in bookings
          && items[i] == ToInfo(items[i].id.value, bookings[items[i].id.value], toText))
    && (forall i, j | 0 <= i < j < |items| :: items[i].id != items[j].id)
    && (forall id | id in ids :: exists i | 0 <= i < |items| :: items[i].id == Some(id))
  }

  /** The round trip of a create or update followed by `lookupById` of the
      returned id: the item shows that id, the requested property and guest
      ids, and the saved (possibly shifted) dates, formatted; its end date
      is the requested end date read back. */
  lemma LookupAfterSave(s: Store, req: Option<BookingInfo>,
                          toDate: string -> Option<Day>, toText: Day -> string)
    requires StoreValid(s) && Decide(s, req, toDate).Success?
    ensures
      var d := Decide(s, req, toDate).value;
      && Savable(s, d)
      && var id := SavedId(s, d);
      && var t := Commit(s, d);
      && id > 0 && id in t.bookings
      && ToInfo(id, t.bookings[id], toText) ==
         BookingInfo(Some(id), req.value.propertyId, req.value.guestId,
                     Some(toText(d.booking.startDate)), Some(toText(d.booking.endDate)))
      && Some(d.booking.endDate) == toDate(req.value.endDate.value)
  {
    var d := Decide(s, req, toDate).value;
    var q := ValidateBooking(req).value;
    assert d == Evaluate(s, q, toDate).value;
    assert Savable(s, d);
  }

  class BookingService {
    var bookings: map<int, Booking>
    var blocks: seq<Block>
    var properties: set<int>
    var guests: set<int>
    var nextId: nat

    /** The service over a store as the repositories hold it. */
    constructor (s: Store)
      requires StoreValid(s)
      ensures Valid() && Repo() == s
    {
      bookings, blocks, properties, guests, nextId := s.bookings, s.blocks, s.properties, s.guests, s.nextId;
    }

    /** The repositories' contents as one value. */
    function Repo(): Store
      reads this
    {
      Store(bookings, blocks, properties, guests, nextId)
    }

    ghost predicate Valid()
      reads this
    {
      StoreValid(Repo())
    }

    /** `bookingRepository.save`: replace the target, or insert under a newly
        generated id; returns the saved booking's id. */
    method Save(id: Option<int>, booking: Booking) returns (savedId: int)
      requires Valid() && Savable(Repo(), Saved(id, booking))
      modifies this
      ensures savedId == SavedId(old(Repo()), Saved(id, booking))
      ensures Repo() == Commit(old(Repo()), Saved(id, booking))
      ensures Valid()
    {
      CommitKeepsValid(Repo(), Saved(id, booking));
      if id.Some? {
        savedId := id.value;
      } else {
        savedId := nextId;
        nextId := nextId + 1;
      }
      bookings := bookings[savedId := booking];
    }

    /** `createOrUpdate`: the checks in the source's order, then the single
        `save`; a thrown error leaves every table as it was. */
    method CreateOrUpdate(req: Option<BookingInfo>, toDate: string -> Option<Day>) returns (r: Result<int, Error>)
      requires Valid()
      modifies this
      ensures Valid()
      ensures NoConflicts(old(Repo())) ==> NoConflicts(Repo())
      ensures match Decide(old(Repo()), req, toDate)
        case Failure(e) => r == Failure(e) && Repo() == old(Repo())
        case Success(d) =>
          && Savable(old(Repo()), d)
          && r == Success(SavedId(old(Repo()), d))
          && Repo() == Commit(old(Repo()), d)
    {
      ghost var s := Repo();
      var validated := ValidateBooking(req);
      if validated.Failure? {
        return Failure(validated.error);
      }
      var q := validated.value;
      assert Decide(s, req, toDate) == Evaluate(s, q, toDate);

      if q.id.Some? && q.id.value !in bookings {
        assert Evaluate(s, q, toDate) == Failure(BookingNotFound(q.id.value));
        return Failure(BookingNotFound(q.id.value));
      }

      var parsedStart := toDate(q.startText);
      if parsedStart.None? {
        return Failure(IllegalParameterValue(DatesField));
      }
      var parsedEnd := toDate(q.endText);
      if parsedEnd.None? {
        return Failure(IllegalParameterValue(DatesField));
      }
      var startDate, endDate := parsedStart.value, parsedEnd.value;

      if startDate == endDate || startDate > endDate {
        return Failure(IllegalParameterValue(DatesField));
      }

      assert InOrder(ParseRange(q.startText, q.endText, toDate));
      if q.propertyId !in properties {
        return Failure(PropertyNotFound(q.propertyId));
      }
      if q.guestId !in guests {
        return Failure(GuestNotFound(q.guestId));
      }

      var latestBookingEndsAt := LatestBookingEnd(Repo(), q.propertyId);
      if latestBookingEndsAt.Some? {
        startDate := latestBookingEndsAt.value + 1;
      }

      if BookingExistsInTimeRange(bookings, q.propertyId, startDate, endDate) {
        return Failure(PropertyAlreadyBooked);
      }
      if PropertyBlockedInTimeRange(blocks, q.propertyId, startDate, endDate) {
        return Failure(PropertyBlocked);
      }

      assert Evaluate(s, q, toDate) == Success(Saved(q.id, Booking(q.propertyId, q.guestId, startDate, endDate)));
      if NoConflicts(Repo()) {
        SaveKeepsInvariants(Repo(), q, toDate);
      }
      var id := Save(q.id, Booking(q.propertyId, q.guestId, startDate, endDate));
      r := Success(id);
    }

    /** The loop of `lookupById` and `lookupByRange`: one `convertAndAdd`
        per booking the query returned, taken in id order. */
    method ConvertAll(ids: set<int>, toText: Day -> string) returns (items: seq<BookingInfo>)
      requires Valid() && ids <= bookings.Keys
      ensures Lists(items, bookings, ids, toText)
    {
      items := [];
      var id := 1;
      while id < nextId
        invariant 1 <= id <= nextId
        invariant forall i | 0 <= i < |items| ::
          && items[i].id.Some? && items[i].id.value in ids && items[i].id.value < id
          && items[i] == ToInfo(items[i].id.value, bookings[items[i].id.value], toText)
        invariant forall i, j | 0 <= i < j < |items| :: items[i].id.value < items[j].id.value
        invariant forall k | k in ids && k < id :: exists i | 0 <= i < |items| :: items[i].id == Some(k)
      {
        ghost var before := items;
        if id in ids {
          items := items + [ToInfo(id, bookings[id], toText)];
        }
        forall k | k in ids && k <= id
          ensures exists i | 0 <= i < |items| :: items[i].id == Some(k)
        {
          if k == id {
            assert items[|items| - 1].id == Some(k);
          } else {
            var i :| 0 <= i < |before| && before[i].id == Some(k);
            assert items[i] == before[i];
          }
        }
        id := id + 1;
      }
    }

    /** `lookupById`: no id lists every booking; an id of zero or less is an
        illegal value; a positive id gives the booking stored under it, or
        nothing. The store is only read. */
    method LookupById(bookingId: Option<int>, toText: Day -> string) returns (r: Result<seq<BookingInfo>, Error>)
      requires Valid()
      ensures bookingId.None? ==> r.Success? && Lists(r.value, bookings, bookings.Keys, toText)
      ensures bookingId.Some? && bookingId.value <= 0 ==> r == Failure(IllegalParameterValue("bookingId"))
      ensures bookingId.Some? && bookingId.value > 0 && bookingId.value in bookings ==>
        r == Success([ToInfo(bookingId.value, bookings[bookingId.value], toText)])
      ensures bookingId.Some? && bookingId.value > 0 && bookingId.value !in bookings ==>
        r == Success([])
    {
      var items: seq<BookingInfo> := [];
      if bookingId.None? {
        items := ConvertAll(bookings.Keys, toText);
      } else if bookingId.value <= 0 {
        return Failure(IllegalParameterValue("bookingId"));
      } else if bookingId.value in bookings {
        items := [ToInfo(bookingId.value, bookings[bookingId.value], toText)];
      }
      r := Success(items);
    }

    /** `lookupByRange`: both bounds mandatory, then parsed, then strictly
        ordered; lists every booking, of any property, that the range query
        returns. The store is only read. */
    method LookupByRange(startText: Option<string>, endText: Option<string>,
                         toDate: string -> Option<Day>, toText: Day -> string)
      returns (r: Result<seq<BookingInfo>, Error>)
      requires Valid()
      ensures IsNullOrEmpty(startText) ==> r == Failure(ParameterMandatory("startDate"))
      ensures !IsNullOrEmpty(startText) && IsNullOrEmpty(endText) ==> r == Failure(ParameterMandatory("endDate"))
      ensures !IsNullOrEmpty(startText) && !IsNullOrEmpty(endText) ==>
        var range := ParseRange(startText.value, endText.value, toDate);
        && (!InOrder(range) ==> r == Failure(IllegalParameterValue(DatesField)))
        && (InOrder(range) ==>
              r.Success? && Lists(r.value, bookings, BookingsForRange(bookings, range.value.0, range.value.1), toText))
    {
      if IsNullOrEmpty(startText) {
        return Failure(ParameterMandatory("startDate"));
      }
      if IsNullOrEmpty(endText) {
        return Failure(ParameterMandatory("endDate"));
      }
      var parsedStart := toDate(startText.value);
      if parsedStart.None? {
        return Failure(IllegalParameterValue(DatesField));
      }
      var parsedEnd := toDate(endText.value);
      if parsedEnd.None? {
        return Failure(IllegalParameterValue(DatesField));
      }
      var startDate, endDate := parsedStart.value, parsedEnd.value;
      if startDate == endDate || startDate > endDate {
        return Failure(IllegalParameterValue(DatesField));
      }
      var items := ConvertAll(BookingsForRange(bookings, startDate, endDate), toText);
      r := Success(items);
    }

    /** `deleteBooking`: the id is mandatory and must name a stored booking;
        then exactly that booking is removed and nothing else changes. */
    method DeleteBooking(bookingId: Option<int>) returns (r: Result<(), Error>)
      requires Valid()
      modifies this
      ensures Valid()
      ensures NoConflicts(old(Repo())) ==> NoConflicts(Repo())
      ensures bookingId.None? ==> r == Failure(ParameterMandatory("id")) && Repo() == old(Repo())
      ensures bookingId.Some? && bookingId.value !in old(bookings) ==>
        r == Failure(BookingNotFound(bookingId.value)) && Repo() == old(Repo())
      ensures bookingId.Some? && bookingId.value in old(bookings) ==>
        r == Success(()) && Repo() == old(Repo()).(bookings := old(bookings) - {bookingId.value})
    {
      if bookingId.None? {
        return Failure(ParameterMandatory("id"));
      }
      if bookingId.value !in bookings {
        return Failure(BookingNotFound(bookingId.value));
      }
      DeleteKeepsInvariants(Repo(), bookingId.value);
      bookings := bookings - {bookingId.value};
      r := Success(());
    }
  }
}
