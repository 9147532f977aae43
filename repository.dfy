/** The persistence collaborator: the stored records and the queries the
    booking service runs against them.

    The bodies of the custom queries (`bookingInTimeRange`,
    `bookingExistsInTimeRange`, `propertyBlockedInTimeRange`,
    `findAllByBookingsForRange`) are not part of this model. The definitions
    below are ASSUMED: ranges are half-open and intersect when each starts
    before the other ends, and the latest booking end is the largest end date
    among the property's bookings. */
module Repository {
  import opened Wrappers
  import opened Entities

  /** The contents of the booking, block, property and guest tables, and the
      next identity the booking table will generate. */
  datatype Store = Store(
    bookings: map<int, Booking>,
    blocks: seq<Block>,
    properties: set<int>,
    guests: set<int>,
    nextId: nat)

  /** Generated booking ids are positive and below the counter, and every
      foreign key resolves. */
  ghost predicate StoreValid(s: Store) {
    && 0 < s.nextId
    && (forall id | id in s.bookings :: 0 < id < s.nextId)
    && (forall id | id in s.bookings ::
          s.bookings[id].propertyId in s.properties && s.bookings[id].guestId in s.guests)
    && (forall i | 0 <= i < |s.blocks| :: s.blocks[i].propertyId in s.properties)
  }

  /** Assumed: [s1, e1) and [s2, e2) intersect. */
  predicate Overlaps(s1: Day, e1: Day, s2: Day, e2: Day) {
    s1 < e2 && s2 < e1
  }

  /** Assumed body of `bookingInTimeRange` restricted to ids below `n`: the
      largest end date among the property's bookings, or none. */
  function LatestEndBelow(bookings: map<int, Booking>, propertyId: int, n: nat): (r: Option<Day>)
    ensures r.None? <==>
      forall id | 0 <= id < n && id in bookings :: bookings[id].propertyId != propertyId
    ensures r.Some? ==>
      forall id | 0 <= id < n && id in bookings && bookings[id].propertyId == propertyId ::
        bookings[id].endDate <= r.value
    ensures r.Some? ==>
      exists id | 0 <= id < n && id in bookings ::
        bookings[id].propertyId == propertyId && bookings[id].endDate == r.value
  {
    if n == 0 then None
    else
      var rest := LatestEndBelow(bookings, propertyId, n - 1);
      var k := n - 1;
      if k in bookings && bookings[k].propertyId == propertyId then
        if rest.Some? && bookings[k].endDate <= rest.value then rest
        else Some(bookings[k].endDate)
      else rest
  }

  /** `bookingInTimeRange(propertyId)`: the latest end date among all of the
      property's bookings, none when it has none. */
  function LatestBookingEnd(s: Store, propertyId: int): (r: Option<Day>)
    requires StoreValid(s)
    ensures r.None? <==> forall id | id in s.bookings :: s.bookings[id].propertyId != propertyId
    ensures r.Some? ==>
      forall id | id in s.bookings && s.bookings[id].propertyId == propertyId ::
        s.bookings[id].endDate <= r.value
    ensures r.Some? ==>
      exists id | id in s.bookings ::
        s.bookings[id].propertyId == propertyId && s.bookings[id].endDate == r.value
  {
    LatestEndBelow(s.bookings, propertyId, s.nextId)
  }

  /** Assumed body of `bookingExistsInTimeRange`: some booking of the
      property intersects [start, end). No booking is excluded. */
  predicate BookingExistsInTimeRange(bookings: map<int, Booking>, propertyId: int, start: Day, end: Day)
    ensures BookingExistsInTimeRange(bookings, propertyId, start, end) ==>
      exists id | id in bookings :: bookings[id].propertyId == propertyId
    ensures (forall id | id in bookings && bookings[id].propertyId == propertyId ::
               bookings[id].endDate <= start || end <= bookings[id].startDate) ==>
      !BookingExistsInTimeRange(bookings, propertyId, start, end)
  {
    exists id | id in bookings ::
      bookings[id].propertyId == propertyId
      && Overlaps(bookings[id].startDate, bookings[id].endDate, start, end)
  }

  /** Assumed body of `propertyBlockedInTimeRange`: some block of the
      property intersects [start, end). */
  predicate PropertyBlockedInTimeRange(blocks: seq<Block>, propertyId: int, start: Day, end: Day)
    ensures PropertyBlockedInTimeRange(blocks, propertyId, start, end) ==>
      exists i | 0 <= i < |blocks| :: blocks[i].propertyId == propertyId
    ensures (forall i | 0 <= i < |blocks| && blocks[i].propertyId == propertyId ::
               blocks[i].endDate <= start || end <= blocks[i].startDate) ==>
      !PropertyBlockedInTimeRange(blocks, propertyId, start, end)
  {
    exists i | 0 <= i < |blocks| ::
      blocks[i].propertyId == propertyId
      && Overlaps(blocks[i].startDate, blocks[i].endDate, start, end)
  }

  /** Assumed body of `findAllByBookingsForRange`: the ids of all bookings,
      of any property, that intersect [start, end). */
  function BookingsForRange(bookings: map<int, Booking>, start: Day, end: Day): (r: set<int>)
    ensures r <= bookings.Keys
    ensures forall id | id in bookings && (bookings[id].endDate <= start || end <= bookings[id].startDate) ::
      id !in r
    ensures forall id | id in bookings && start <= bookings[id].startDate < bookings[id].endDate <= end ::
      id in r
  {
    set id | id in bookings && Overlaps(bookings[id].startDate, bookings[id].endDate, start, end)
  }
}
