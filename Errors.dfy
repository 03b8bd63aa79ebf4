/** What the core's operations throw, by kind and with the data their messages carry. */
module Errors {

  /** A failure surfaced by the database when `SaveChanges` runs. */
  datatype StoreError =
    | ConstraintViolation       // a unique index or a foreign key would be broken
    | ConcurrencyConflict       // an update or delete matched no row

  datatype ReservationError =
    | InvalidDateOrder                                  // check-in not before check-out
    | CheckInInPast                                     // check-in date is today or earlier
    | RoomNotFound(roomId: int)
    | CapacityExceeded(requested: int, capacity: int)
    | InvalidGuestCount                                 // fewer than one guest
    | OverlapConflict                                   // the room is booked in an overlapping window
    | GenerationExhausted                               // no free booking number in the retry budget

  /** The kinds thrown as `ArgumentException`; the others are `InvalidOperationException`s or database errors. */
  predicate IsArgumentError(e: ReservationError)
  {
    e.InvalidDateOrder? || e.CheckInInPast? || e.RoomNotFound? || e.CapacityExceeded? || e.InvalidGuestCount?
  }
}
