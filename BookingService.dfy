/**
 * `BookingService`: the creation checks and the write that follows them,
 * the capped booking-number generator, and the lookups and deletion by
 * booking number.
 */
module BookingSvc {
  import opened Wrappers
  import opened Linq
  import opened Text
  import opened Dates
  import opened Models
  import opened Errors
  import opened Dtos
  import opened Store
  import opened Mapping
  import opened BookingNumbers
  import opened BookingRepo
  import opened RoomRepo

  /** The draws the capped generator can reach: at most `MaxAttempts` of them. */
  function Attempted(draws: seq<Draw>): (r: seq<Draw>)
    ensures |r| <= MaxAttempts
    ensures |r| == if |draws| < MaxAttempts then |draws| else MaxAttempts
    ensures forall k :: 0 <= k < |r| ==> r[k] == draws[k]
  {
    if |draws| <= MaxAttempts then draws else draws[..MaxAttempts]
  }

  /** `room.RoomType.Capacity` of the room with that key, or 0 when the room or its type is not there. */
  function CapacityOfRoom(rooms: seq<Room>, hotels: seq<Hotel>, roomTypes: seq<RoomType>, roomId: int): int
  {
    match FirstWhere(rooms, (x: Room) => x.roomId == roomId)
    case None => 0
    case Some(x) =>
      var t := IncludeRoom(x, hotels, roomTypes).roomType;
      if t.Some? then t.value.capacity else 0
  }

  /**
   * The creation checks of `CreateBookingAsync`, in order, on the tables as
   * they stand before the write: the first one broken is the one reported,
   * and none is reported exactly when the request can be booked.
   */
  function CreateRequestError(dto: CreateBookingDto, today: nat, rooms: seq<Room>, hotels: seq<Hotel>,
                              roomTypes: seq<RoomType>, bookings: seq<Booking>): (e: Option<ReservationError>)
    ensures e.None? <==>
              && dto.checkInDate < dto.checkOutDate
              && !OnOrBeforeDay(dto.checkInDate, today)
              && HasRoom(rooms, dto.roomId)
              && 1 <= dto.guestCount <= CapacityOfRoom(rooms, hotels, roomTypes, dto.roomId)
              && forall i :: 0 <= i < |bookings| ==>
                   !Conflicts(bookings[i], dto.roomId, dto.checkInDate, dto.checkOutDate, None)
    ensures e.Some? ==> (IsArgumentError(e.value) <==> !e.value.OverlapConflict?)
  {
    if dto.checkInDate >= dto.checkOutDate then Some(InvalidDateOrder)
    else if OnOrBeforeDay(dto.checkInDate, today) then Some(CheckInInPast)
    else if !HasRoom(rooms, dto.roomId) then Some(RoomNotFound(dto.roomId))
    else
      var capacity := CapacityOfRoom(rooms, hotels, roomTypes, dto.roomId);
      if dto.guestCount > capacity then Some(CapacityExceeded(dto.guestCount, capacity))
      else if dto.guestCount <= 0 then Some(InvalidGuestCount)
      else if exists i :: 0 <= i < |bookings| && Conflicts(bookings[i], dto.roomId, dto.checkInDate, dto.checkOutDate, None)
      then Some(OverlapConflict)
      else None
  }

  /**
   * The order of the creation checks: the dates first, then the room, then
   * the party size against the capacity before the lower bound, and the
   * overlap last; each error is reported only when every earlier check
   * passed.
   */
  lemma CreationChecksInOrder(dto: CreateBookingDto, today: nat, rooms: seq<Room>, hotels: seq<Hotel>,
                              roomTypes: seq<RoomType>, bookings: seq<Booking>)
    ensures var e := CreateRequestError(dto, today, rooms, hotels, roomTypes, bookings);
            && (dto.checkInDate >= dto.checkOutDate ==> e == Some(InvalidDateOrder))
            && (dto.checkInDate < dto.checkOutDate && OnOrBeforeDay(dto.checkInDate, today) ==> e == Some(CheckInInPast))
            && (dto.checkInDate < dto.checkOutDate && !OnOrBeforeDay(dto.checkInDate, today) ==>
                  (e == Some(RoomNotFound(dto.roomId)) <==> !HasRoom(rooms, dto.roomId)))
            && (e.Some? && e.value.CapacityExceeded? ==>
                  && dto.checkInDate < dto.checkOutDate && HasRoom(rooms, dto.roomId)
                  && e.value.requested == dto.guestCount > e.value.capacity == CapacityOfRoom(rooms, hotels, roomTypes, dto.roomId))
            && (e == Some(InvalidGuestCount) ==>
                  dto.guestCount <= 0 && dto.guestCount <= CapacityOfRoom(rooms, hotels, roomTypes, dto.roomId))
            && (e == Some(OverlapConflict) ==>
                  && 1 <= dto.guestCount <= CapacityOfRoom(rooms, hotels, roomTypes, dto.roomId)
                  && exists i :: 0 <= i < |bookings| && Conflicts(bookings[i], dto.roomId, dto.checkInDate, dto.checkOutDate, None))
  {
  }

  /** A party exactly the room's capacity passes the capacity check; one more guest does not. */
  lemma CapacityBoundary(dto: CreateBookingDto, today: nat, rooms: seq<Room>, hotels: seq<Hotel>,
                         roomTypes: seq<RoomType>, bookings: seq<Booking>)
    requires dto.checkInDate < dto.checkOutDate && !OnOrBeforeDay(dto.checkInDate, today) && HasRoom(rooms, dto.roomId)
    ensures var e := CreateRequestError(dto, today, rooms, hotels, roomTypes, bookings);
            var capacity := CapacityOfRoom(rooms, hotels, roomTypes, dto.roomId);
            && (dto.guestCount == capacity + 1 ==> e == Some(CapacityExceeded(capacity + 1, capacity)))
            && (dto.guestCount == capacity >= 1 ==> e.None? || e == Some(OverlapConflict))
  {
  }

  /** Every booking seats at least one guest and no more than its room's capacity. */
  predicate GuestsFitRooms(bookings: seq<Booking>, rooms: seq<Room>, hotels: seq<Hotel>, roomTypes: seq<RoomType>)
  {
    forall i :: 0 <= i < |bookings| ==>
      1 <= bookings[i].guestCount <= CapacityOfRoom(rooms, hotels, roomTypes, bookings[i].roomId)
  }

  /**
   * The search and the creation checks agree: with the same dates and party
   * size, and valid dates, a room is found by the search exactly when a
   * booking of it passes every creation check.
   */
  lemma SearchAgreesWithCreation(rooms: seq<Room>, hotels: seq<Hotel>, roomTypes: seq<RoomType>, bookings: seq<Booking>,
                                 dto: CreateBookingDto, today: nat, nextRoomId: int)
    requires RoomTableValid(rooms, hotels, roomTypes, nextRoomId)
    requires dto.checkInDate < dto.checkOutDate && !OnOrBeforeDay(dto.checkInDate, today) && dto.guestCount >= 1
    ensures CreateRequestError(dto, today, rooms, hotels, roomTypes, bookings).None? <==>
              exists x :: x in AvailableRooms(rooms, hotels, roomTypes, bookings, dto.checkInDate, dto.checkOutDate,
                                              dto.guestCount, None) && x.roomId == dto.roomId
  {
    if CreateRequestError(dto, today, rooms, hotels, roomTypes, bookings).None? {
      BookableRoomIsFound(rooms, hotels, roomTypes, bookings, dto, today, nextRoomId);
    }
    if exists x :: x in AvailableRooms(rooms, hotels, roomTypes, bookings, dto.checkInDate, dto.checkOutDate,
                                       dto.guestCount, None) && x.roomId == dto.roomId {
      var x :| x in AvailableRooms(rooms, hotels, roomTypes, bookings, dto.checkInDate, dto.checkOutDate, dto.guestCount, None)
               && x.roomId == dto.roomId;
      var i :| 0 <= i < |rooms| && x == IncludeRoom(rooms[i], hotels, roomTypes) &&
                 IsAvailable(rooms[i], roomTypes, bookings, dto.checkInDate, dto.checkOutDate, dto.guestCount, None);
      FoundRoomIsBookable(rooms, hotels, roomTypes, bookings, dto, today, nextRoomId, x, i);
    }
  }

  lemma BookableRoomIsFound(rooms: seq<Room>, hotels: seq<Hotel>, roomTypes: seq<RoomType>, bookings: seq<Booking>,
                            dto: CreateBookingDto, today: nat, nextRoomId: int)
    requires RoomTableValid(rooms, hotels, roomTypes, nextRoomId)
    requires CreateRequestError(dto, today, rooms, hotels, roomTypes, bookings).None?
    ensures exists x :: x in AvailableRooms(rooms, hotels, roomTypes, bookings, dto.checkInDate, dto.checkOutDate,
                                            dto.guestCount, None) && x.roomId == dto.roomId
  {
    var first := FirstWhere(rooms, (x: Room) => x.roomId == dto.roomId);
    var j :| 0 <= j < |rooms| && rooms[j] == first.value;
    var loaded := IncludeRoom(rooms[j], hotels, roomTypes);
    assert RoomReferencesCatalog(rooms[j], hotels, roomTypes);
    var t :| 0 <= t < |roomTypes| && roomTypes[t] == loaded.roomType.value;
    assert IsAvailable(rooms[j], roomTypes, bookings, dto.checkInDate, dto.checkOutDate, dto.guestCount, None);
    assert loaded.roomId == dto.roomId;
  }

  lemma FoundRoomIsBookable(rooms: seq<Room>, hotels: seq<Hotel>, roomTypes: seq<RoomType>, bookings: seq<Booking>,
                            dto: CreateBookingDto, today: nat, nextRoomId: int, x: Room, i: nat)
    requires RoomTableValid(rooms, hotels, roomTypes, nextRoomId)
    requires dto.checkInDate < dto.checkOutDate && !OnOrBeforeDay(dto.checkInDate, today) && dto.guestCount >= 1
    requires i < |rooms| && x == IncludeRoom(rooms[i], hotels, roomTypes)
    requires IsAvailable(rooms[i], roomTypes, bookings, dto.checkInDate, dto.checkOutDate, dto.guestCount, None)
    requires x.roomType.Some? && x.roomType.value.capacity >= dto.guestCount
    requires x.roomId == dto.roomId
    ensures CreateRequestError(dto, today, rooms, hotels, roomTypes, bookings).None?
  {
    var first := FirstWhere(rooms, (y: Room) => y.roomId == dto.roomId);
    var j :| 0 <= j < |rooms| && rooms[j] == first.value;
    assert j == i by {
      assert rooms[j].roomId == rooms[i].roomId;
    }
    assert IncludeRoom(first.value, hotels, roomTypes) == x;
  }

  /** The booking `CreateBookingAsync` writes for a request once it has a number: the store's next key, no room attached. */
  function NewBooking(dto: CreateBookingDto, bookingNumber: string, utcNow: DateTime, nextBookingId: int): Booking
  {
    ToModel(dto, utcNow).(bookingNumber := bookingNumber, createdAt := utcNow, bookingId := nextBookingId)
  }

  /**
   * What `CreateBookingAsync` answers and what the Booking table holds
   * afterwards, on the tables as they stand before the call: the first
   * broken check, or an exhausted generator, leaves the table as it was;
   * otherwise the new booking is appended and returned with its room.
   */
  function CreateOutcome(dto: CreateBookingDto, today: nat, draws: seq<Draw>, utcNow: DateTime, rooms: seq<Room>,
                         hotels: seq<Hotel>, roomTypes: seq<RoomType>, bookings: seq<Booking>, nextBookingId: int)
    : (Result<BookingDto, ReservationError>, seq<Booking>)
  {
    match CreateRequestError(dto, today, rooms, hotels, roomTypes, bookings)
    case Some(e) => (Failure(e), bookings)
    case None =>
      match FirstFreeCandidate(Attempted(draws), bookings)
      case None => (Failure(GenerationExhausted), bookings)
      case Some(number) =>
        var stored := NewBooking(dto, number, utcNow, nextBookingId);
        (Success(BookingToDto(IncludeBooking(stored, rooms, hotels, roomTypes))), bookings + [stored])
  }

  /** The outcome of a request that passed every check and drew a free number. */
  lemma AdmittedOutcome(dto: CreateBookingDto, today: nat, draws: seq<Draw>, utcNow: DateTime, rooms: seq<Room>,
                        hotels: seq<Hotel>, roomTypes: seq<RoomType>, bookings: seq<Booking>, nextBookingId: int,
                        bookingNumber: string)
    requires CreateRequestError(dto, today, rooms, hotels, roomTypes, bookings).None?
    requires FirstFreeCandidate(Attempted(draws), bookings) == Some(bookingNumber)
    ensures !NumberTaken(bookings, bookingNumber) && HasRoom(rooms, dto.roomId)
    ensures var stored := NewBooking(dto, bookingNumber, utcNow, nextBookingId);
            CreateOutcome(dto, today, draws, utcNow, rooms, hotels, roomTypes, bookings, nextBookingId) ==
              (Success(BookingToDto(IncludeBooking(stored, rooms, hotels, roomTypes))), bookings + [stored])
  {
  }

  /**
   * A request is booked exactly when every check passes and the generator
   * finds a free number; a refused one reports the first broken check (or
   * the exhausted generator) and leaves the table untouched, and a booked
   * one adds exactly one row.
   */
  lemma CreateOutcomeWritesOnlyWhenAdmitted(dto: CreateBookingDto, today: nat, draws: seq<Draw>, utcNow: DateTime,
                                            rooms: seq<Room>, hotels: seq<Hotel>, roomTypes: seq<RoomType>,
                                            bookings: seq<Booking>, nextBookingId: int)
    ensures var (r, after) := CreateOutcome(dto, today, draws, utcNow, rooms, hotels, roomTypes, bookings, nextBookingId);
            var error := CreateRequestError(dto, today, rooms, hotels, roomTypes, bookings);
            && (r.Success? <==> error.None? && FirstFreeCandidate(Attempted(draws), bookings).Some?)
            && (r.Failure? ==> after == bookings && r.error == if error.Some? then error.value else GenerationExhausted)
            && (r.Success? ==> |after| == |bookings| + 1 && after[..|bookings|] == bookings)
  {
    var (r, after) := CreateOutcome(dto, today, draws, utcNow, rooms, hotels, roomTypes, bookings, nextBookingId);
    if r.Success? {
      assert after[..|bookings|] == bookings;
    }
  }

  /**
   * A booked request comes back with every field it asked for, the creation
   * time, the store's next key and a well-formed number that no earlier
   * booking carries, and the row added is the one returned.
   */
  lemma CreateOutcomeEchoesRequest(dto: CreateBookingDto, today: nat, draws: seq<Draw>, utcNow: DateTime,
                                   rooms: seq<Room>, hotels: seq<Hotel>, roomTypes: seq<RoomType>,
                                   bookings: seq<Booking>, nextBookingId: int)
    ensures var (r, after) := CreateOutcome(dto, today, draws, utcNow, rooms, hotels, roomTypes, bookings, nextBookingId);
            r.Success? ==>
              && RequestOf(r.value) == dto
              && r.value.createdAt == utcNow
              && r.value.bookingId == nextBookingId
              && WellFormedNumber(r.value.bookingNumber)
              && !NumberTaken(bookings, r.value.bookingNumber)
              && |after| > 0
              && BookingToDto(after[|after| - 1]).(roomNumber := r.value.roomNumber, hotelName := r.value.hotelName,
                                                   roomTypeName := r.value.roomTypeName) == r.value
  {
    FirstFreeCandidateWellFormed(Attempted(draws), bookings);
    if FirstFreeCandidate(Attempted(draws), bookings).Some? {
      RequestRoundTrip(dto, utcNow);
    }
  }

  /**
   * Creating a booking keeps the Booking table valid (keys, unique numbers,
   * foreign key), keeps every room free of double bookings and keeps every
   * party within its room's capacity.
   */
  lemma CreateOutcomeKeepsTables(dto: CreateBookingDto, today: nat, draws: seq<Draw>, utcNow: DateTime,
                                 rooms: seq<Room>, hotels: seq<Hotel>, roomTypes: seq<RoomType>,
                                 bookings: seq<Booking>, nextBookingId: int)
    requires BookingTableValid(bookings, rooms, nextBookingId)
    ensures var (r, after) := CreateOutcome(dto, today, draws, utcNow, rooms, hotels, roomTypes, bookings, nextBookingId);
            && BookingTableValid(after, rooms, nextBookingId + |after| - |bookings|)
            && (NoDoubleBooking(bookings) ==> NoDoubleBooking(after))
            && (GuestsFitRooms(bookings, rooms, hotels, roomTypes) ==> GuestsFitRooms(after, rooms, hotels, roomTypes))
  {
    if CreateRequestError(dto, today, rooms, hotels, roomTypes, bookings).None? {
      var number := FirstFreeCandidate(Attempted(draws), bookings);
      if number.Some? {
        AdmittedBookingKeepsTables(bookings, rooms, hotels, roomTypes, nextBookingId,
                                   NewBooking(dto, number.value, utcNow, nextBookingId));
      }
    }
  }

  /** Appending a booking that passed every check, under a free number and the next key. */
  lemma AdmittedBookingKeepsTables(bookings: seq<Booking>, rooms: seq<Room>, hotels: seq<Hotel>, roomTypes: seq<RoomType>,
                                   nextBookingId: int, stored: Booking)
    requires BookingTableValid(bookings, rooms, nextBookingId)
    requires stored.bookingId == nextBookingId && CanInsertBooking(bookings, rooms, stored)
    requires 1 <= stored.guestCount <= CapacityOfRoom(rooms, hotels, roomTypes, stored.roomId)
    requires forall i :: 0 <= i < |bookings| ==>
               !Conflicts(bookings[i], stored.roomId, stored.checkInDate, stored.checkOutDate, None)
    ensures BookingTableValid(bookings + [stored], rooms, nextBookingId + 1)
    ensures NoDoubleBooking(bookings) ==> NoDoubleBooking(bookings + [stored])
    ensures GuestsFitRooms(bookings, rooms, hotels, roomTypes) ==> GuestsFitRooms(bookings + [stored], rooms, hotels, roomTypes)
  {
    AppendKeepsBookingTable(bookings, rooms, nextBookingId, stored);
    if NoDoubleBooking(bookings) {
      NoDoubleBookingAppend(bookings, stored);
    }
  }

  class BookingService {
    const bookingRepository: BookingRepository
    const roomRepository: RoomRepository

    constructor (bookingRepository: BookingRepository, roomRepository: RoomRepository)
      ensures this.bookingRepository == bookingRepository && this.roomRepository == roomRepository
    {
      this.bookingRepository := bookingRepository;
      this.roomRepository := roomRepository;
    }

    /** Both repositories work on one valid database. */
    ghost predicate Valid()
      reads bookingRepository.context
    {
      bookingRepository.context == roomRepository.context && bookingRepository.context.Valid()
    }

    /**
     * `CreateBookingAsync`, with today's date, the clock-and-random draws and
     * `DateTime.UtcNow` passed in. A broken check or an exhausted generator
     * fails without touching the store; otherwise exactly one booking is
     * added, and no room becomes double booked or over capacity.
     */
    method CreateBooking(dto: CreateBookingDto, today: nat, draws: seq<Draw>, utcNow: DateTime)
      returns (r: Result<BookingDto, ReservationError>)
      requires Valid()
      modifies bookingRepository.context`bookings, bookingRepository.context`nextBookingId
      ensures Valid()
      ensures var ctx := bookingRepository.context;
              (r, ctx.bookings) ==
                CreateOutcome(dto, today, draws, utcNow, ctx.rooms, ctx.hotels, ctx.roomTypes, old(ctx.bookings), old(ctx.nextBookingId))
      ensures var ctx := bookingRepository.context;
              ctx.nextBookingId == old(ctx.nextBookingId) + |ctx.bookings| - old(|ctx.bookings|)
    {
      var ctx := bookingRepository.context;
      ghost var rooms, hotels, roomTypes, bookings, nextBookingId :=
        ctx.rooms, ctx.hotels, ctx.roomTypes, ctx.bookings, ctx.nextBookingId;
      var error := CheckRequest(dto, today);
      if error.Some? {
        return Failure(error.value);
      }
      var generated := GenerateUniqueBookingNumber(draws);
      if generated.Failure? {
        return Failure(generated.error);
      }
      AdmittedOutcome(dto, today, draws, utcNow, rooms, hotels, roomTypes, bookings, nextBookingId, generated.value);
      r := RecordBooking(dto, generated.value, utcNow);
    }

    /**
     * The checks at the head of `CreateBookingAsync`, in the order it makes
     * them: the dates, the room, the party size against the room type's
     * capacity, then an overlapping booking of the same room.
     */
    method CheckRequest(dto: CreateBookingDto, today: nat) returns (error: Option<ReservationError>)
      requires Valid()
      ensures var ctx := bookingRepository.context;
              error == CreateRequestError(dto, today, ctx.rooms, ctx.hotels, ctx.roomTypes, ctx.bookings)
    {
      var ctx := bookingRepository.context;
      if dto.checkInDate >= dto.checkOutDate {
        return Some(InvalidDateOrder);
      }
      if OnOrBeforeDay(dto.checkInDate, today) {
        return Some(CheckInInPast);
      }
      var room := roomRepository.GetRoomById(dto.roomId);
      if room.None? {
        return Some(RoomNotFound(dto.roomId));
      }
      RoomTypeLoaded(ctx.rooms, ctx.hotels, ctx.roomTypes, ctx.nextRoomId, dto.roomId);
      var capacity := room.value.roomType.value.capacity;
      assert capacity == CapacityOfRoom(ctx.rooms, ctx.hotels, ctx.roomTypes, dto.roomId);
      if dto.guestCount > capacity {
        return Some(CapacityExceeded(dto.guestCount, capacity));
      }
      if dto.guestCount <= 0 {
        return Some(InvalidGuestCount);
      }
      var hasOverlappingBooking := bookingRepository.HasOverlappingBooking(dto.roomId, dto.checkInDate, dto.checkOutDate, None);
      if hasOverlappingBooking {
        return Some(OverlapConflict);
      }
      return None;
    }

    /**
     * The tail of `CreateBookingAsync`, once the checks have passed and a
     * free number is drawn: the repeated existence check (which cannot fire),
     * the write, and the read-back (which cannot miss).
     */
    method RecordBooking(dto: CreateBookingDto, bookingNumber: string, utcNow: DateTime)
      returns (r: Result<BookingDto, ReservationError>)
      requires Valid()
      requires !NumberTaken(bookingRepository.context.bookings, bookingNumber)
      requires HasRoom(bookingRepository.context.rooms, dto.roomId)
      modifies bookingRepository.context`bookings, bookingRepository.context`nextBookingId
      ensures Valid()
      ensures var ctx := bookingRepository.context;
              var stored := NewBooking(dto, bookingNumber, utcNow, old(ctx.nextBookingId));
              && ctx.bookings == old(ctx.bookings) + [stored]
              && ctx.nextBookingId == old(ctx.nextBookingId) + 1
              && r == Success(BookingToDto(IncludeBooking(stored, ctx.rooms, ctx.hotels, ctx.roomTypes)))
    {
      var ctx := bookingRepository.context;
      var existingBooking := bookingRepository.BookingExists(bookingNumber);
      if existingBooking {
        assert false;
      }
      var booking := ToModel(dto, utcNow).(bookingNumber := bookingNumber, createdAt := utcNow);
      ghost var stored := NewBooking(dto, bookingNumber, utcNow, ctx.nextBookingId);
      var createdBooking := bookingRepository.CreateBooking(booking);
      if createdBooking.Failure? {
        assert false;
      }
      assert createdBooking.value == IncludeBooking(stored, ctx.rooms, ctx.hotels, ctx.roomTypes);
      assert ctx.bookings[|ctx.bookings| - 1] == stored;
      var completedBooking := bookingRepository.GetBookingByNumber(createdBooking.value.bookingNumber);
      assert completedBooking == Some(IncludeBooking(stored, ctx.rooms, ctx.hotels, ctx.roomTypes));
      if completedBooking.None? {
        assert false;
      }
      r := Success(BookingToDto(completedBooking.value));
    }

    /**
     * `GenerateUniqueBookingNumberAsync`: up to `MaxAttempts` draws, stopping
     * at the first number no booking carries; the attempt after the last one
     * fails. The draws are the readings of the clock and the random source.
     */
    method GenerateUniqueBookingNumber(draws: seq<Draw>) returns (r: Result<string, ReservationError>)
      ensures var first := FirstFreeCandidate(Attempted(draws), bookingRepository.context.bookings);
              (first.Some? ==> r == Success(first.value)) && (first.None? ==> r == Failure(GenerationExhausted))
    {
      var bookings := bookingRepository.context.bookings;
      var attempts := 0;
      while true
        invariant 0 <= attempts <= MaxAttempts && attempts <= |draws|
        invariant forall j :: 0 <= j < attempts ==> NumberTaken(bookings, Candidate(draws[j]))
        decreases MaxAttempts - attempts
      {
        attempts := attempts + 1;
        if attempts > MaxAttempts {
          return Failure(GenerationExhausted);
        }
        if attempts > |draws| {
          return Failure(GenerationExhausted);
        }
        var bookingNumber := Candidate(draws[attempts - 1]);
        var taken := bookingRepository.BookingExists(bookingNumber);
        if !taken {
          FirstFreeCandidateAt(Attempted(draws), bookings, attempts - 1);
          return Success(bookingNumber);
        }
      }
    }

    /** `GetBookingByNumberAsync`: nothing for a blank number, otherwise the stored booking as a DTO. */
    function GetBookingByNumber(bookingNumber: string): (r: Option<BookingDto>)
      reads bookingRepository.context
      ensures IsBlank(bookingNumber) ==> r.None?
      ensures !IsBlank(bookingNumber) ==> (r.Some? <==> NumberTaken(bookingRepository.context.bookings, bookingNumber))
      ensures r.Some? ==> r.value.bookingNumber == bookingNumber
      ensures bookingRepository.context.Valid() && !IsBlank(bookingNumber) ==>
                forall i ::
                  (0 <= i < |bookingRepository.context.bookings| &&
                   bookingRepository.context.bookings[i].bookingNumber == bookingNumber) ==>
                    r == Some(BookingToDto(IncludeBooking(bookingRepository.context.bookings[i], bookingRepository.context.rooms,
                                                          bookingRepository.context.hotels, bookingRepository.context.roomTypes)))
    {
      if IsBlank(bookingNumber) then None
      else
        var booking := bookingRepository.GetBookingByNumber(bookingNumber);
        if booking.Some? then Some(BookingToDto(booking.value)) else None
    }

    /** `GetBookingsByRoomIdAsync`: the room's bookings as DTOs, earliest check-in first. */
    function GetBookingsByRoomId(roomId: int): (r: seq<BookingDto>)
      reads bookingRepository.context
      ensures forall d :: d in r ==> d.roomId == roomId
      ensures forall i :: 0 <= i < |bookingRepository.context.bookings| && bookingRepository.context.bookings[i].roomId == roomId ==>
                BookingToDto(IncludeBooking(bookingRepository.context.bookings[i], bookingRepository.context.rooms,
                                            bookingRepository.context.hotels, bookingRepository.context.roomTypes)) in r
      ensures forall d :: d in r ==>
                exists i :: 0 <= i < |bookingRepository.context.bookings| &&
                  d == BookingToDto(IncludeBooking(bookingRepository.context.bookings[i], bookingRepository.context.rooms,
                                                   bookingRepository.context.hotels, bookingRepository.context.roomTypes))
      ensures var bookings := bookingRepository.GetBookingsByRoomId(roomId);
              |r| == |bookings| && forall k :: 0 <= k < |bookings| ==> r[k] == BookingToDto(bookings[k])
      ensures forall i, j :: 0 <= i < j < |r| ==> r[i].checkInDate <= r[j].checkInDate
    {
      var bookings := bookingRepository.GetBookingsByRoomId(roomId);
      var dtos := ToBookingDtos(bookings);
      RoomBookingDtos(bookingRepository.context.bookings, bookingRepository.context.rooms, bookingRepository.context.hotels,
                      bookingRepository.context.roomTypes, roomId, bookings, dtos);
      dtos
    }

    /** `DeleteBookingAsync`: false for a blank number, otherwise the repository's delete by number. */
    method DeleteBooking(bookingNumber: string) returns (deleted: bool)
      requires Valid()
      modifies bookingRepository.context`bookings
      ensures Valid()
      ensures IsBlank(bookingNumber) ==> !deleted && bookingRepository.context.bookings == old(bookingRepository.context.bookings)
      ensures !IsBlank(bookingNumber) ==>
                && deleted == old(NumberTaken(bookingRepository.context.bookings, bookingNumber))
                && !NumberTaken(bookingRepository.context.bookings, bookingNumber)
      ensures deleted ==>
                bookingRepository.context.bookings ==
                  old(RemoveAt(bookingRepository.context.bookings,
                               IndexOfFirst(bookingRepository.context.bookings, (b: Booking) => b.bookingNumber == bookingNumber)))
      ensures !deleted ==> bookingRepository.context.bookings == old(bookingRepository.context.bookings)
    {
      if IsBlank(bookingNumber) {
        return false;
      }
      deleted := bookingRepository.DeleteBookingByNumber(bookingNumber);
    }
  }

  /** Under the foreign keys, a room found by its key always comes with its room type, whose capacity is the room's. */
  lemma RoomTypeLoaded(rooms: seq<Room>, hotels: seq<Hotel>, roomTypes: seq<RoomType>, nextRoomId: int, roomId: int)
    requires RoomTableValid(rooms, hotels, roomTypes, nextRoomId) && HasRoom(rooms, roomId)
    ensures var first := FirstWhere(rooms, (x: Room) => x.roomId == roomId);
            first.Some? && IncludeRoom(first.value, hotels, roomTypes).roomType.Some?
  {
    var first := FirstWhere(rooms, (x: Room) => x.roomId == roomId);
    var j :| 0 <= j < |rooms| && rooms[j] == first.value;
    assert RoomReferencesCatalog(rooms[j], hotels, roomTypes);
  }

  /** What the room listing's DTOs inherit from the bookings they are made from. */
  lemma RoomBookingDtos(allBookings: seq<Booking>, rooms: seq<Room>, hotels: seq<Hotel>, roomTypes: seq<RoomType>,
                        roomId: int, bookings: seq<Booking>, dtos: seq<BookingDto>)
    requires forall x :: x in bookings ==> x.roomId == roomId
    requires forall x :: x in bookings ==>
               exists i :: 0 <= i < |allBookings| && x == IncludeBooking(allBookings[i], rooms, hotels, roomTypes)
    requires Sorted(bookings, ByCheckIn)
    requires |dtos| == |bookings| && forall k :: 0 <= k < |bookings| ==> dtos[k] == BookingToDto(bookings[k])
    ensures forall d :: d in dtos ==> d.roomId == roomId
    ensures forall d :: d in dtos ==>
              exists i :: 0 <= i < |allBookings| && d == BookingToDto(IncludeBooking(allBookings[i], rooms, hotels, roomTypes))
    ensures forall x :: x in bookings ==> BookingToDto(x) in dtos
    ensures forall i, j :: 0 <= i < j < |dtos| ==> dtos[i].checkInDate <= dtos[j].checkInDate
  {
    forall d | d in dtos
      ensures d.roomId == roomId
      ensures exists i :: 0 <= i < |allBookings| && d == BookingToDto(IncludeBooking(allBookings[i], rooms, hotels, roomTypes))
    {
      var k :| 0 <= k < |dtos| && dtos[k] == d;
      assert bookings[k] in bookings;
      var i :| 0 <= i < |allBookings| && bookings[k] == IncludeBooking(allBookings[i], rooms, hotels, roomTypes);
    }
    forall x | x in bookings ensures BookingToDto(x) in dtos {
      var k :| 0 <= k < |bookings| && bookings[k] == x;
      assert dtos[k] == BookingToDto(x);
    }
    forall i, j | 0 <= i < j < |dtos| ensures dtos[i].checkInDate <= dtos[j].checkInDate {
      assert ByCheckIn(bookings[i], bookings[j]);
    }
  }
}
