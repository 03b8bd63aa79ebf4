/**
 * `BookingRepository`: queries and writes on the Booking table, and the
 * half-open overlap test that decides double booking.
 */
module BookingRepo {
  import opened Wrappers
  import opened Linq
  import opened Dates
  import opened Models
  import opened Errors
  import opened Store
  import opened BookingNumbers

  /**
   * The overlap test written at BookingRepository.cs:53 and again at
   * RoomRepository.cs:41-42: a stay `[checkIn, checkOut)` clashes with a
   * booking `[otherIn, otherOut)` unless it ends before the booking starts or
   * starts after the booking ends.
   */
  predicate Overlaps(checkIn: DateTime, checkOut: DateTime, otherIn: DateTime, otherOut: DateTime)
  {
    !(checkOut <= otherIn || checkIn >= otherOut)
  }

  /** The test is the intersection of two half-open intervals. */
  lemma OverlapsIsHalfOpenIntersection(checkIn: DateTime, checkOut: DateTime, otherIn: DateTime, otherOut: DateTime)
    ensures Overlaps(checkIn, checkOut, otherIn, otherOut) <==> checkIn < otherOut && otherIn < checkOut
  {
  }

  lemma OverlapsSymmetric(a: DateTime, b: DateTime, c: DateTime, d: DateTime)
    ensures Overlaps(a, b, c, d) <==> Overlaps(c, d, a, b)
  {
  }

  /** Back-to-back stays, one checking out the day the other checks in, do not clash. */
  lemma AdjacentStaysDoNotOverlap(a: DateTime, b: DateTime, c: DateTime)
    ensures !Overlaps(a, b, b, c) && !Overlaps(b, c, a, b)
  {
  }

  /**
   * The test does not reject empty or inverted windows by itself: two of them
   * never clash, but `[t, t)` clashes with every booking that has `t` strictly
   * inside it.
   */
  lemma EmptyWindows(a: DateTime, b: DateTime, c: DateTime, d: DateTime, t: DateTime)
    ensures b <= a && d <= c ==> !Overlaps(a, b, c, d)
    ensures Overlaps(t, t, c, d) <==> c < t < d
  {
  }

  /** One booking stands in the way of a stay: same room, not the excluded booking, overlapping dates. */
  predicate Conflicts(b: Booking, roomId: int, checkIn: DateTime, checkOut: DateTime, excludeBookingId: Option<int>)
  {
    && b.roomId == roomId
    && (excludeBookingId.None? || b.bookingId != excludeBookingId.value)
    && Overlaps(checkIn, checkOut, b.checkInDate, b.checkOutDate)
  }

  /** No two bookings of the same room overlap. */
  predicate NoDoubleBooking(bs: seq<Booking>)
  {
    forall i, j :: 0 <= i < |bs| && 0 <= j < |bs| && i != j && bs[i].roomId == bs[j].roomId ==>
      !Overlaps(bs[i].checkInDate, bs[i].checkOutDate, bs[j].checkInDate, bs[j].checkOutDate)
  }

  /** Adding a booking that conflicts with none of the others keeps the rooms free of double bookings. */
  lemma NoDoubleBookingAppend(bs: seq<Booking>, b: Booking)
    requires NoDoubleBooking(bs)
    requires forall i :: 0 <= i < |bs| ==> !Conflicts(bs[i], b.roomId, b.checkInDate, b.checkOutDate, None)
    ensures NoDoubleBooking(bs + [b])
  {
    var s := bs + [b];
    forall i, j | 0 <= i < |s| && 0 <= j < |s| && i != j && s[i].roomId == s[j].roomId
      ensures !Overlaps(s[i].checkInDate, s[i].checkOutDate, s[j].checkInDate, s[j].checkOutDate)
    {
      if j == |bs| {
        OverlapsSymmetric(s[i].checkInDate, s[i].checkOutDate, b.checkInDate, b.checkOutDate);
      }
    }
  }

  /** Removing a booking keeps the rooms free of double bookings. */
  lemma NoDoubleBookingRemoveAt(bs: seq<Booking>, k: nat)
    requires k < |bs| && NoDoubleBooking(bs)
    ensures NoDoubleBooking(RemoveAt(bs, k))
  {
    var s := RemoveAt(bs, k);
    forall i, j | 0 <= i < |s| && 0 <= j < |s| && i != j && s[i].roomId == s[j].roomId
      ensures !Overlaps(s[i].checkInDate, s[i].checkOutDate, s[j].checkInDate, s[j].checkOutDate)
    {
      var i' := if i < k then i else i + 1;
      var j' := if j < k then j else j + 1;
      assert s[i] == bs[i'] && s[j] == bs[j'];
    }
  }

  /** Removing one row keeps every key, unique index and foreign key of the Booking table intact. */
  lemma RemoveAtKeepsBookingTable(bs: seq<Booking>, rooms: seq<Room>, next: int, k: nat)
    requires k < |bs| && BookingTableValid(bs, rooms, next)
    ensures BookingTableValid(RemoveAt(bs, k), rooms, next)
  {
    var s := RemoveAt(bs, k);
    forall i, j | 0 <= i < |s| && 0 <= j < |s| && i != j
      ensures s[i].bookingId != s[j].bookingId && s[i].bookingNumber != s[j].bookingNumber
    {
      var i' := if i < k then i else i + 1;
      var j' := if j < k then j else j + 1;
      assert s[i] == bs[i'] && s[j] == bs[j'];
    }
    forall i | 0 <= i < |s| ensures s[i].bookingId < next && HasRoom(rooms, s[i].roomId) {
      assert s[i] == bs[if i < k then i else i + 1];
    }
  }

  class BookingRepository {
    const context: HotelBookingDbContext

    constructor (context: HotelBookingDbContext)
      ensures this.context == context
    {
      this.context := context;
    }

    /** `GetBookingByIdAsync`: the booking with that key, with its room, hotel and room type. */
    function GetBookingById(id: int): (r: Option<Booking>)
      reads context
      ensures r.None? <==> forall i :: 0 <= i < |context.bookings| ==> context.bookings[i].bookingId != id
      ensures context.Valid() ==> forall i :: 0 <= i < |context.bookings| && context.bookings[i].bookingId == id ==>
                r == Some(IncludeBooking(context.bookings[i], context.rooms, context.hotels, context.roomTypes))
    {
      match FirstWhere(context.bookings, (b: Booking) => b.bookingId == id)
      case None => None
      case Some(b) => Some(IncludeBooking(b, context.rooms, context.hotels, context.roomTypes))
    }

    /** `GetBookingByNumberAsync`: the booking with that number, with its room, hotel and room type. */
    function GetBookingByNumber(bookingNumber: string): (r: Option<Booking>)
      reads context
      ensures r.Some? <==> NumberTaken(context.bookings, bookingNumber)
      ensures r.Some? ==> r.value.bookingNumber == bookingNumber
      ensures context.Valid() ==> forall i :: 0 <= i < |context.bookings| && context.bookings[i].bookingNumber == bookingNumber ==>
                r == Some(IncludeBooking(context.bookings[i], context.rooms, context.hotels, context.roomTypes))
    {
      match FirstWhere(context.bookings, (b: Booking) => b.bookingNumber == bookingNumber)
      case None => None
      case Some(b) => Some(IncludeBooking(b, context.rooms, context.hotels, context.roomTypes))
    }

    /** `GetBookingsByRoomIdAsync`: the room's bookings, loaded, earliest check-in first. */
    function GetBookingsByRoomId(roomId: int): (r: seq<Booking>)
      reads context
      ensures forall x :: x in r ==> x.roomId == roomId
      ensures forall x :: x in r ==>
                exists i :: 0 <= i < |context.bookings| &&
                  x == IncludeBooking(context.bookings[i], context.rooms, context.hotels, context.roomTypes)
      ensures forall i :: 0 <= i < |context.bookings| && context.bookings[i].roomId == roomId ==>
                IncludeBooking(context.bookings[i], context.rooms, context.hotels, context.roomTypes) in r
      ensures forall x :: multiset(r)[x] ==
                if x.roomId == roomId then multiset(LoadBookings(context.bookings, context.rooms, context.hotels, context.roomTypes))[x] else 0
      ensures Sorted(r, ByCheckIn)
    {
      LoadedOfRoomOrdered(context.bookings, context.rooms, context.hotels, context.roomTypes, roomId);
      OrderBy(LoadedOfRoom(context.bookings, context.rooms, context.hotels, context.roomTypes, roomId), ByCheckIn)
    }

    /** `HasOverlappingBookingAsync`: some booking of the room, other than the excluded one, overlaps the stay. */
    function HasOverlappingBooking(roomId: int, checkIn: DateTime, checkOut: DateTime, excludeBookingId: Option<int>): (r: bool)
      reads context
      ensures r <==> exists i :: 0 <= i < |context.bookings| && Conflicts(context.bookings[i], roomId, checkIn, checkOut, excludeBookingId)
    {
      var ofRoom := Where(context.bookings, (b: Booking) => b.roomId == roomId);
      var others := Where(ofRoom, (b: Booking) => excludeBookingId.None? || b.bookingId != excludeBookingId.value);
      Any(others, (b: Booking) => Overlaps(checkIn, checkOut, b.checkInDate, b.checkOutDate))
    }

    /** `BookingExistsAsync`. */
    function BookingExists(bookingNumber: string): (r: bool)
      reads context
      ensures r <==> NumberTaken(context.bookings, bookingNumber)
    {
      AnyAt(context.bookings, (b: Booking) => b.bookingNumber == bookingNumber);
      Any(context.bookings, (b: Booking) => b.bookingNumber == bookingNumber)
    }

    /**
     * `CreateBookingAsync`: add the row and save. The database assigns the
     * key; a number already in use or an unknown room breaks a constraint and
     * nothing is written. The result is the row read back by its number, or
     * the added entity if that read finds nothing.
     */
    method CreateBooking(booking: Booking) returns (r: Result<Booking, StoreError>)
      requires context.Valid()
      modifies context`bookings, context`nextBookingId
      ensures context.Valid()
      ensures !CanInsertBooking(old(context.bookings), context.rooms, booking) ==>
                r == Failure(ConstraintViolation) && context.bookings == old(context.bookings)
                && context.nextBookingId == old(context.nextBookingId)
      ensures CanInsertBooking(old(context.bookings), context.rooms, booking) ==>
                var stored := booking.(bookingId := old(context.nextBookingId));
                && context.bookings == old(context.bookings) + [stored]
                && context.nextBookingId == old(context.nextBookingId) + 1
                && r == Success(IncludeBooking(stored, context.rooms, context.hotels, context.roomTypes))
      ensures r.Success? ==> NumberTaken(context.bookings, booking.bookingNumber)
    {
      if !CanInsertBooking(context.bookings, context.rooms, booking) {
        return Failure(ConstraintViolation);
      }
      var stored := booking.(bookingId := context.nextBookingId);
      AppendKeepsBookingTable(context.bookings, context.rooms, context.nextBookingId, stored);
      context.bookings := context.bookings + [stored];
      context.nextBookingId := context.nextBookingId + 1;
      var created := GetBookingByNumber(booking.bookingNumber);
      assert context.bookings[|context.bookings| - 1] == stored;
      r := Success(if created.Some? then created.value else stored);
    }

    /**
     * `UpdateBookingAsync`: `Update` on a booking whose key is unset (0) adds
     * it; otherwise the row with that key is overwritten, and saving fails
     * when there is no such row or when the new values break a constraint.
     * No overlap check is made here.
     */
    method UpdateBooking(booking: Booking) returns (r: Result<Booking, StoreError>)
      requires context.Valid()
      modifies context`bookings, context`nextBookingId
      ensures context.Valid()
      ensures booking.bookingId == 0 && CanInsertBooking(old(context.bookings), context.rooms, booking) ==>
                var stored := booking.(bookingId := old(context.nextBookingId));
                && context.bookings == old(context.bookings) + [stored]
                && context.nextBookingId == old(context.nextBookingId) + 1
                && r == Success(stored)
      ensures booking.bookingId == 0 && !CanInsertBooking(old(context.bookings), context.rooms, booking) ==>
                && r == Failure(ConstraintViolation) && context.bookings == old(context.bookings)
                && context.nextBookingId == old(context.nextBookingId)
      ensures booking.bookingId != 0 && !old(exists i :: 0 <= i < |context.bookings| && context.bookings[i].bookingId == booking.bookingId) ==>
                r == Failure(ConcurrencyConflict) && context.bookings == old(context.bookings)
      ensures booking.bookingId != 0 && old(exists i :: 0 <= i < |context.bookings| && context.bookings[i].bookingId == booking.bookingId) ==>
                var k := IndexOfFirst(old(context.bookings), (b: Booking) => b.bookingId == booking.bookingId);
                if CanReplaceBooking(old(context.bookings), context.rooms, booking) then
                  k < |old(context.bookings)| && context.bookings == old(context.bookings)[k := booking] && r == Success(booking)
                else
                  r == Failure(ConstraintViolation) && context.bookings == old(context.bookings)
      ensures booking.bookingId != 0 ==> context.nextBookingId == old(context.nextBookingId)
    {
      if booking.bookingId == 0 {
        if !CanInsertBooking(context.bookings, context.rooms, booking) {
          return Failure(ConstraintViolation);
        }
        var stored := booking.(bookingId := context.nextBookingId);
        AppendKeepsBookingTable(context.bookings, context.rooms, context.nextBookingId, stored);
        context.bookings := context.bookings + [stored];
        context.nextBookingId := context.nextBookingId + 1;
        return Success(stored);
      }
      var k := IndexOfFirst(context.bookings, (b: Booking) => b.bookingId == booking.bookingId);
      if k == |context.bookings| {
        return Failure(ConcurrencyConflict);
      }
      if !CanReplaceBooking(context.bookings, context.rooms, booking) {
        return Failure(ConstraintViolation);
      }
      ReplaceKeepsBookingTable(context.bookings, context.rooms, context.nextBookingId, k, booking);
      context.bookings := context.bookings[k := booking];
      r := Success(booking);
    }

    /** `DeleteBookingAsync`: remove the booking with that key, if there is one. */
    method DeleteBooking(id: int) returns (deleted: bool)
      requires context.Valid()
      modifies context`bookings
      ensures context.Valid()
      ensures deleted <==> old(exists i :: 0 <= i < |context.bookings| && context.bookings[i].bookingId == id)
      ensures deleted ==>
                (context.bookings == old(RemoveAt(context.bookings, IndexOfFirst(context.bookings, (b: Booking) => b.bookingId == id))))
      ensures !deleted ==> context.bookings == old(context.bookings)
      ensures forall i :: 0 <= i < |context.bookings| ==> context.bookings[i].bookingId != id
    {
      var k := IndexOfFirst(context.bookings, (b: Booking) => b.bookingId == id);
      if k == |context.bookings| {
        return false;
      }
      RemoveAtKeepsBookingTable(context.bookings, context.rooms, context.nextBookingId, k);
      RemoveAtRemovesKey(context.bookings, k);
      context.bookings := RemoveAt(context.bookings, k);
      deleted := true;
    }

    /** `DeleteBookingByNumberAsync`: remove the booking with that number, if there is one. */
    method DeleteBookingByNumber(bookingNumber: string) returns (deleted: bool)
      requires context.Valid()
      modifies context`bookings
      ensures context.Valid()
      ensures deleted == old(NumberTaken(context.bookings, bookingNumber))
      ensures deleted ==>
                (context.bookings ==
                   old(RemoveAt(context.bookings, IndexOfFirst(context.bookings, (b: Booking) => b.bookingNumber == bookingNumber))))
      ensures !deleted ==> context.bookings == old(context.bookings)
      ensures !NumberTaken(context.bookings, bookingNumber)
    {
      var k := IndexOfFirst(context.bookings, (b: Booking) => b.bookingNumber == bookingNumber);
      if k == |context.bookings| {
        return false;
      }
      RemoveAtKeepsBookingTable(context.bookings, context.rooms, context.nextBookingId, k);
      RemoveAtRemovesNumber(context.bookings, k);
      context.bookings := RemoveAt(context.bookings, k);
      deleted := true;
    }

    /**
     * The repository's own `GenerateUniqueBookingNumberAsync`: draw until a
     * number is free, with no cap. Over a finite oracle it gives up (`None`)
     * only when every draw was taken, where the source would keep drawing.
     */
    method GenerateUniqueBookingNumber(draws: seq<Draw>) returns (r: Option<string>)
      ensures r == FirstFreeCandidate(draws, context.bookings)
    {
      var i := 0;
      while i < |draws|
        invariant 0 <= i <= |draws|
        invariant forall j :: 0 <= j < i ==> NumberTaken(context.bookings, Candidate(draws[j]))
      {
        var bookingNumber := Candidate(draws[i]);
        var isUnique := !BookingExists(bookingNumber);
        if isUnique {
          FirstFreeCandidateAt(draws, context.bookings, i);
          return Some(bookingNumber);
        }
        i := i + 1;
      }
      return None;
    }
  }

  /**
   * The loaded Booking table filtered by `Where(b => b.RoomId == roomId)`:
   * every loaded row of the room, as many times as the table holds it, and
   * nothing else.
   */
  function LoadedOfRoom(bs: seq<Booking>, rooms: seq<Room>, hotels: seq<Hotel>, roomTypes: seq<RoomType>, roomId: int): (r: seq<Booking>)
    ensures forall x :: multiset(r)[x] == if x.roomId == roomId then multiset(LoadBookings(bs, rooms, hotels, roomTypes))[x] else 0
    ensures forall x :: x in r ==> x.roomId == roomId
    ensures forall x :: x in r ==> exists i :: 0 <= i < |bs| && x == IncludeBooking(bs[i], rooms, hotels, roomTypes)
    ensures forall i :: 0 <= i < |bs| && bs[i].roomId == roomId ==> IncludeBooking(bs[i], rooms, hotels, roomTypes) in r
  {
    var loaded := LoadBookings(bs, rooms, hotels, roomTypes);
    var p := (b: Booking) => b.roomId == roomId;
    var r := Where(loaded, p);
    WhereMultiplicity(loaded, p);
    LoadedOfRoomMembers(bs, rooms, hotels, roomTypes, roomId, loaded, r);
    r
  }

  lemma LoadedOfRoomMembers(bs: seq<Booking>, rooms: seq<Room>, hotels: seq<Hotel>, roomTypes: seq<RoomType>, roomId: int,
                            loaded: seq<Booking>, r: seq<Booking>)
    requires |loaded| == |bs| && forall i :: 0 <= i < |bs| ==> loaded[i] == IncludeBooking(bs[i], rooms, hotels, roomTypes)
    requires forall x :: multiset(r)[x] == if x.roomId == roomId then multiset(loaded)[x] else 0
    ensures forall x :: x in r ==> x.roomId == roomId
    ensures forall x :: x in r ==> exists i :: 0 <= i < |bs| && x == IncludeBooking(bs[i], rooms, hotels, roomTypes)
    ensures forall i :: 0 <= i < |bs| && bs[i].roomId == roomId ==> IncludeBooking(bs[i], rooms, hotels, roomTypes) in r
  {
    forall x | x in r
      ensures x.roomId == roomId
      ensures exists i :: 0 <= i < |bs| && x == IncludeBooking(bs[i], rooms, hotels, roomTypes)
    {
      assert x in multiset(r);
      assert x in multiset(loaded);
      var i :| 0 <= i < |loaded| && loaded[i] == x;
    }
    forall i | 0 <= i < |bs| && bs[i].roomId == roomId ensures IncludeBooking(bs[i], rooms, hotels, roomTypes) in r {
      assert loaded[i] in multiset(loaded);
      assert loaded[i] in multiset(r);
    }
  }

  /** Sorting the room's loaded bookings by check-in keeps exactly the same bookings, each as often. */
  lemma LoadedOfRoomOrdered(bs: seq<Booking>, rooms: seq<Room>, hotels: seq<Hotel>, roomTypes: seq<RoomType>, roomId: int)
    ensures var r := OrderBy(LoadedOfRoom(bs, rooms, hotels, roomTypes, roomId), ByCheckIn);
            && (forall x :: x in r ==> x.roomId == roomId)
            && (forall x :: x in r ==> exists i :: 0 <= i < |bs| && x == IncludeBooking(bs[i], rooms, hotels, roomTypes))
            && (forall i :: 0 <= i < |bs| && bs[i].roomId == roomId ==> IncludeBooking(bs[i], rooms, hotels, roomTypes) in r)
            && (forall x :: multiset(r)[x] == if x.roomId == roomId then multiset(LoadBookings(bs, rooms, hotels, roomTypes))[x] else 0)
            && Sorted(r, ByCheckIn)
  {
    var loaded := LoadedOfRoom(bs, rooms, hotels, roomTypes, roomId);
    ByCheckInIsTotalOrder();
    OrderBySorted(loaded, ByCheckIn);
    OrderByMembers(loaded, ByCheckIn);
  }

  /** `OrderBy(b => b.CheckInDate)`. */
  predicate ByCheckIn(a: Booking, b: Booking)
  {
    a.checkInDate <= b.checkInDate
  }

  lemma ByCheckInIsTotalOrder()
    ensures Total(ByCheckIn) && Transitive(ByCheckIn)
  {
  }

  /** What the database accepts as a new booking row: its number is unused and its room exists. */
  predicate CanInsertBooking(bs: seq<Booking>, rooms: seq<Room>, b: Booking)
  {
    !NumberTaken(bs, b.bookingNumber) && HasRoom(rooms, b.roomId)
  }

  /** What the database accepts as new values for an existing row: as for an insert, ignoring the row itself. */
  predicate CanReplaceBooking(bs: seq<Booking>, rooms: seq<Room>, b: Booking)
  {
    && HasRoom(rooms, b.roomId)
    && forall j :: 0 <= j < |bs| && bs[j].bookingId != b.bookingId ==> bs[j].bookingNumber != b.bookingNumber
  }

  lemma ReplaceKeepsBookingTable(bs: seq<Booking>, rooms: seq<Room>, next: int, k: nat, b: Booking)
    requires BookingTableValid(bs, rooms, next)
    requires k < |bs| && bs[k].bookingId == b.bookingId && CanReplaceBooking(bs, rooms, b)
    ensures BookingTableValid(bs[k := b], rooms, next)
  {
  }

  /** A row with a fresh key, a free number and an existing room keeps the Booking table valid. */
  lemma AppendKeepsBookingTable(bs: seq<Booking>, rooms: seq<Room>, next: int, b: Booking)
    requires BookingTableValid(bs, rooms, next)
    requires b.bookingId == next && CanInsertBooking(bs, rooms, b)
    ensures BookingTableValid(bs + [b], rooms, next + 1)
  {
  }

  /** With unique keys, removing the row found by its key leaves no row with that key. */
  lemma RemoveAtRemovesKey(bs: seq<Booking>, k: nat)
    requires k < |bs| && UniqueBookingIds(bs)
    ensures forall i :: 0 <= i < |RemoveAt(bs, k)| ==> RemoveAt(bs, k)[i].bookingId != bs[k].bookingId
  {
    var s := RemoveAt(bs, k);
    forall i | 0 <= i < |s| ensures s[i].bookingId != bs[k].bookingId {
      assert s[i] == bs[if i < k then i else i + 1];
    }
  }

  /** With unique numbers, removing the row found by its number leaves no row with that number. */
  lemma RemoveAtRemovesNumber(bs: seq<Booking>, k: nat)
    requires k < |bs| && UniqueBookingNumbers(bs)
    ensures !NumberTaken(RemoveAt(bs, k), bs[k].bookingNumber)
  {
    var s := RemoveAt(bs, k);
    forall i | 0 <= i < |s| ensures s[i].bookingNumber != bs[k].bookingNumber {
      assert s[i] == bs[if i < k then i else i + 1];
    }
  }
}
