/** The records the booking service reads and writes, and its error taxonomy. */
module Entities {
  import opened Wrappers

  /** A calendar date as a day number, so `plusDays(1)` is `+ 1`. */
  type Day = int

  /** A stored booking: the property and guest it references and its dates.
      Its id is the key under which the store holds it. */
  datatype Booking = Booking(propertyId: int, guestId: int, startDate: Day, endDate: Day)

  /** An owner-declared unavailability window (entities/Block.java). */
  datatype Block = Block(id: int, propertyId: int, startDate: Day, endDate: Day)

  /** The transfer shape used both as request and as lookup item; a `null`
      field is `None`, dates travel as text. */
  datatype BookingInfo = BookingInfo(
    id: Option<int>,
    propertyId: Option<int>,
    guestId: Option<int>,
    startDate: Option<string>,
    endDate: Option<string>)

  /** The error types the service throws, each with the argument it reports. */
  datatype Error =
    | ParameterMandatory(field: string)
    | IllegalParameterValue(field: string)
    | BookingNotFound(id: int)
    | PropertyNotFound(id: int)
    | GuestNotFound(id: int)
    | PropertyAlreadyBooked
    | PropertyBlocked

  /** The field name reported when a date is unparsable or the range is not ordered. */
  const DatesField: string := "startDate or endDate"

  /** `CommonUtils.isNullOrEmpty` on a text field. */
  predicate IsNullOrEmpty(text: Option<string>) {
    text.None? || |text.value| == 0
  }

  /** A Long id that is present and strictly positive. */
  predicate IsPositive(id: Option<int>) {
    id.Some? && id.value > 0
  }
}
