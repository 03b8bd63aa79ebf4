/**
 * `RoomRepository`: room queries, the availability search, and room writes
 * (deleting a room deletes its bookings, as the Booking foreign key cascades).
 */
module RoomRepo {
  import opened Wrappers
  import opened Linq
  import opened Text
  import opened Dates
  import opened Models
  import opened Errors
  import opened Store
  import opened Mapping
  import BookingRepo

  /** `OrderBy(r => r.RoomNumber)`, ordinal string order. */
  predicate ByRoomNumber(a: Room, b: Room)
  {
    OrdinalLe(a.roomNumber, b.roomNumber)
  }

  /** `OrderBy(r => r.Hotel.Name).ThenBy(r => r.RoomNumber)`, ordinal string order. */
  predicate ByHotelNameThenRoomNumber(a: Room, b: Room)
  {
    var ha, hb := HotelName(a.hotel), HotelName(b.hotel);
    (OrdinalLe(ha, hb) && ha != hb) || (ha == hb && OrdinalLe(a.roomNumber, b.roomNumber))
  }

  /** Both room orders are total preorders, so sorting by them is well defined. */
  lemma RoomOrdersAreTotal()
    ensures Total(ByRoomNumber) && Transitive(ByRoomNumber)
    ensures Total(ByHotelNameThenRoomNumber) && Transitive(ByHotelNameThenRoomNumber)
  {
    forall a: Room, b: Room ensures ByRoomNumber(a, b) || ByRoomNumber(b, a) {
      OrdinalLeTotal(a.roomNumber, b.roomNumber);
    }
    forall a: Room, b: Room, c: Room | ByRoomNumber(a, b) && ByRoomNumber(b, c) ensures ByRoomNumber(a, c) {
      OrdinalLeTransitive(a.roomNumber, b.roomNumber, c.roomNumber);
    }
    forall a: Room, b: Room ensures ByHotelNameThenRoomNumber(a, b) || ByHotelNameThenRoomNumber(b, a) {
      OrdinalLeTotal(HotelName(a.hotel), HotelName(b.hotel));
      OrdinalLeTotal(a.roomNumber, b.roomNumber);
    }
    forall a: Room, b: Room, c: Room | ByHotelNameThenRoomNumber(a, b) && ByHotelNameThenRoomNumber(b, c)
      ensures ByHotelNameThenRoomNumber(a, c)
    {
      var ha, hb, hc := HotelName(a.hotel), HotelName(b.hotel), HotelName(c.hotel);
      if ha == hb == hc {
        OrdinalLeTransitive(a.roomNumber, b.roomNumber, c.roomNumber);
      } else {
        OrdinalLeTotal(ha, ha);
        OrdinalLeTotal(hb, hb);
        OrdinalLeTransitive(ha, hb, hc);
        if ha == hc {
          OrdinalLeAntisymmetric(ha, hb);
        }
      }
    }
  }

  /**
   * The availability rule stated on the tables: the room's type seats the
   * party, the room is in the requested hotel when one is given, and no
   * booking of the room conflicts with the stay as the booking store decides
   * conflicts.
   */
  predicate IsAvailable(room: Room, roomTypes: seq<RoomType>, bookings: seq<Booking>,
                        checkIn: DateTime, checkOut: DateTime, guestCount: int, hotelId: Option<int>)
  {
    && (exists t :: 0 <= t < |roomTypes| && roomTypes[t].roomTypeId == room.roomTypeId && roomTypes[t].capacity >= guestCount)
    && (hotelId.None? || room.hotelId == hotelId.value)
    && forall i :: 0 <= i < |bookings| ==> !BookingRepo.Conflicts(bookings[i], room.roomId, checkIn, checkOut, None)
  }

  /**
   * `r.Bookings.Any(...)`: the room side's own copy of the overlap test. It
   * agrees with the booking store's test with no booking excluded.
   */
  function HasClash(bookings: seq<Booking>, roomId: int, checkIn: DateTime, checkOut: DateTime): (r: bool)
    ensures r <==> exists i :: 0 <= i < |bookings| && BookingRepo.Conflicts(bookings[i], roomId, checkIn, checkOut, None)
  {
    var ofRoom := Where(bookings, (b: Booking) => b.roomId == roomId);
    Any(ofRoom, (b: Booking) => !(checkOut <= b.checkInDate || checkIn >= b.checkOutDate))
  }

  /**
   * `Where(r => r.HotelId == hotelId)` over the loaded rooms, before sorting:
   * every loaded room of the hotel, as many times as the table holds it, and
   * nothing else.
   */
  function RoomsOfHotel(rooms: seq<Room>, hotels: seq<Hotel>, roomTypes: seq<RoomType>, hotelId: int): (r: seq<Room>)
    ensures forall x :: multiset(r)[x] == if x.hotelId == hotelId then multiset(LoadRooms(rooms, hotels, roomTypes))[x] else 0
    ensures forall x :: x in r ==> x.hotelId == hotelId
    ensures forall x :: x in r ==> exists i :: 0 <= i < |rooms| && x == IncludeRoom(rooms[i], hotels, roomTypes)
    ensures forall i :: 0 <= i < |rooms| && rooms[i].hotelId == hotelId ==> IncludeRoom(rooms[i], hotels, roomTypes) in r
  {
    var loaded := LoadRooms(rooms, hotels, roomTypes);
    var p := (x: Room) => x.hotelId == hotelId;
    var r := Where(loaded, p);
    WhereMultiplicity(loaded, p);
    RoomsOfHotelMembers(rooms, hotels, roomTypes, hotelId, loaded, r);
    r
  }

  lemma RoomsOfHotelMembers(rooms: seq<Room>, hotels: seq<Hotel>, roomTypes: seq<RoomType>, hotelId: int,
                            loaded: seq<Room>, r: seq<Room>)
    requires |loaded| == |rooms| && forall i :: 0 <= i < |rooms| ==> loaded[i] == IncludeRoom(rooms[i], hotels, roomTypes)
    requires forall x :: multiset(r)[x] == if x.hotelId == hotelId then multiset(loaded)[x] else 0
    ensures forall x :: x in r ==> x.hotelId == hotelId
    ensures forall x :: x in r ==> exists i :: 0 <= i < |rooms| && x == IncludeRoom(rooms[i], hotels, roomTypes)
    ensures forall i :: 0 <= i < |rooms| && rooms[i].hotelId == hotelId ==> IncludeRoom(rooms[i], hotels, roomTypes) in r
  {
    forall x | x in r
      ensures x.hotelId == hotelId
      ensures exists i :: 0 <= i < |rooms| && x == IncludeRoom(rooms[i], hotels, roomTypes)
    {
      assert x in multiset(r);
      assert x in multiset(loaded);
      var k :| 0 <= k < |loaded| && loaded[k] == x;
    }
    forall i | 0 <= i < |rooms| && rooms[i].hotelId == hotelId ensures IncludeRoom(rooms[i], hotels, roomTypes) in r {
      assert loaded[i] in multiset(loaded);
      assert loaded[i] in multiset(r);
    }
  }

  /** Sorting the hotel's loaded rooms by room number keeps exactly the same rooms, each as often. */
  lemma RoomsOfHotelOrdered(rooms: seq<Room>, hotels: seq<Hotel>, roomTypes: seq<RoomType>, hotelId: int)
    ensures var r := OrderBy(RoomsOfHotel(rooms, hotels, roomTypes, hotelId), ByRoomNumber);
            && (forall x :: x in r ==> x.hotelId == hotelId)
            && (forall x :: x in r ==> exists i :: 0 <= i < |rooms| && x == IncludeRoom(rooms[i], hotels, roomTypes))
            && (forall i :: 0 <= i < |rooms| && rooms[i].hotelId == hotelId ==> IncludeRoom(rooms[i], hotels, roomTypes) in r)
            && (forall x :: multiset(r)[x] == if x.hotelId == hotelId then multiset(LoadRooms(rooms, hotels, roomTypes))[x] else 0)
            && Sorted(r, ByRoomNumber)
  {
    var ofHotel := RoomsOfHotel(rooms, hotels, roomTypes, hotelId);
    RoomOrdersAreTotal();
    OrderBySorted(ofHotel, ByRoomNumber);
    OrderByMembers(ofHotel, ByRoomNumber);
  }

  /**
   * The three filters of the availability search, applied to one loaded
   * room: its type seats the party, it lies in the requested hotel if any,
   * and none of its bookings overlaps the stay.
   */
  predicate PassesFilters(x: Room, bookings: seq<Booking>, checkIn: DateTime, checkOut: DateTime, guestCount: int, hotelId: Option<int>)
  {
    && x.roomType.Some? && x.roomType.value.capacity >= guestCount
    && (hotelId.None? || x.hotelId == hotelId.value)
    && !HasClash(bookings, x.roomId, checkIn, checkOut)
  }

  /** The search's three `Where` filters in the order the query applies them: what passes all three, each as often. */
  function FilterRooms(loaded: seq<Room>, bookings: seq<Booking>, checkIn: DateTime, checkOut: DateTime, guestCount: int,
                       hotelId: Option<int>): (r: seq<Room>)
    ensures forall x :: multiset(r)[x] ==
              if PassesFilters(x, bookings, checkIn, checkOut, guestCount, hotelId) then multiset(loaded)[x] else 0
  {
    var fitsParty := (x: Room) => x.roomType.Some? && x.roomType.value.capacity >= guestCount;
    var inHotel := (x: Room) => hotelId.None? || x.hotelId == hotelId.value;
    var free := (x: Room) => !HasClash(bookings, x.roomId, checkIn, checkOut);
    var s1 := Where(loaded, fitsParty);
    var s2 := Where(s1, inHotel);
    WhereMultiplicity(loaded, fitsParty);
    WhereMultiplicity(s1, inHotel);
    WhereMultiplicity(s2, free);
    Where(s2, free)
  }

  /**
   * The three `Where` filters of the availability search over the loaded
   * rooms, before sorting: every loaded room that passes them, as many times
   * as the table holds it, and nothing else.
   */
  function AvailableRooms(rooms: seq<Room>, hotels: seq<Hotel>, roomTypes: seq<RoomType>, bookings: seq<Booking>,
                          checkIn: DateTime, checkOut: DateTime, guestCount: int, hotelId: Option<int>): (r: seq<Room>)
    ensures forall x :: multiset(r)[x] ==
              if PassesFilters(x, bookings, checkIn, checkOut, guestCount, hotelId) then multiset(LoadRooms(rooms, hotels, roomTypes))[x] else 0
    ensures forall x :: x in r ==>
              x.roomType.Some? && x.roomType.value.capacity >= guestCount && (hotelId.None? || x.hotelId == hotelId.value)
    ensures forall x :: x in r ==>
              exists i :: 0 <= i < |rooms| && x == IncludeRoom(rooms[i], hotels, roomTypes) &&
                IsAvailable(rooms[i], roomTypes, bookings, checkIn, checkOut, guestCount, hotelId)
    ensures UniqueRoomTypeIds(roomTypes) ==>
              forall i :: 0 <= i < |rooms| && IsAvailable(rooms[i], roomTypes, bookings, checkIn, checkOut, guestCount, hotelId) ==>
                IncludeRoom(rooms[i], hotels, roomTypes) in r
  {
    var loaded := LoadRooms(rooms, hotels, roomTypes);
    var free := FilterRooms(loaded, bookings, checkIn, checkOut, guestCount, hotelId);
    AvailableRoomsSound(rooms, hotels, roomTypes, bookings, checkIn, checkOut, guestCount, hotelId, loaded, free);
    AvailableRoomsComplete(rooms, hotels, roomTypes, bookings, checkIn, checkOut, guestCount, hotelId, loaded, free);
    free
  }

  /** A loaded room that passed the three filters satisfies the availability rule. */
  lemma LoadedRoomIsAvailable(room: Room, hotels: seq<Hotel>, roomTypes: seq<RoomType>, bookings: seq<Booking>,
                              checkIn: DateTime, checkOut: DateTime, guestCount: int, hotelId: Option<int>)
    requires var x := IncludeRoom(room, hotels, roomTypes);
             && x.roomType.Some? && x.roomType.value.capacity >= guestCount
             && (hotelId.None? || x.hotelId == hotelId.value)
             && !HasClash(bookings, x.roomId, checkIn, checkOut)
    ensures IsAvailable(room, roomTypes, bookings, checkIn, checkOut, guestCount, hotelId)
  {
    var x := IncludeRoom(room, hotels, roomTypes);
    var t :| 0 <= t < |roomTypes| && roomTypes[t] == x.roomType.value;
    assert roomTypes[t].roomTypeId == room.roomTypeId && roomTypes[t].capacity >= guestCount;
  }

  lemma AvailableRoomsSound(rooms: seq<Room>, hotels: seq<Hotel>, roomTypes: seq<RoomType>, bookings: seq<Booking>,
                            checkIn: DateTime, checkOut: DateTime, guestCount: int, hotelId: Option<int>,
                            loaded: seq<Room>, free: seq<Room>)
    requires |loaded| == |rooms| && forall i :: 0 <= i < |rooms| ==> loaded[i] == IncludeRoom(rooms[i], hotels, roomTypes)
    requires forall x :: multiset(free)[x] ==
               if PassesFilters(x, bookings, checkIn, checkOut, guestCount, hotelId) then multiset(loaded)[x] else 0
    ensures forall x :: x in free ==>
              x.roomType.Some? && x.roomType.value.capacity >= guestCount && (hotelId.None? || x.hotelId == hotelId.value)
    ensures forall x :: x in free ==>
              exists i :: 0 <= i < |rooms| && x == IncludeRoom(rooms[i], hotels, roomTypes) &&
                IsAvailable(rooms[i], roomTypes, bookings, checkIn, checkOut, guestCount, hotelId)
  {
    forall x | x in free
      ensures x.roomType.Some? && x.roomType.value.capacity >= guestCount && (hotelId.None? || x.hotelId == hotelId.value)
      ensures exists i :: 0 <= i < |rooms| && x == IncludeRoom(rooms[i], hotels, roomTypes) &&
                IsAvailable(rooms[i], roomTypes, bookings, checkIn, checkOut, guestCount, hotelId)
    {
      assert x in multiset(free);
      assert PassesFilters(x, bookings, checkIn, checkOut, guestCount, hotelId) && x in multiset(loaded);
      var i :| 0 <= i < |loaded| && loaded[i] == x;
      LoadedRoomIsAvailable(rooms[i], hotels, roomTypes, bookings, checkIn, checkOut, guestCount, hotelId);
    }
  }

  lemma AvailableRoomsComplete(rooms: seq<Room>, hotels: seq<Hotel>, roomTypes: seq<RoomType>, bookings: seq<Booking>,
                               checkIn: DateTime, checkOut: DateTime, guestCount: int, hotelId: Option<int>,
                               loaded: seq<Room>, free: seq<Room>)
    requires |loaded| == |rooms| && forall i :: 0 <= i < |rooms| ==> loaded[i] == IncludeRoom(rooms[i], hotels, roomTypes)
    requires forall x :: multiset(free)[x] ==
               if PassesFilters(x, bookings, checkIn, checkOut, guestCount, hotelId) then multiset(loaded)[x] else 0
    ensures UniqueRoomTypeIds(roomTypes) ==>
              forall i :: 0 <= i < |rooms| && IsAvailable(rooms[i], roomTypes, bookings, checkIn, checkOut, guestCount, hotelId) ==>
                IncludeRoom(rooms[i], hotels, roomTypes) in free
  {
    if UniqueRoomTypeIds(roomTypes) {
      forall i | 0 <= i < |rooms| && IsAvailable(rooms[i], roomTypes, bookings, checkIn, checkOut, guestCount, hotelId)
        ensures IncludeRoom(rooms[i], hotels, roomTypes) in free
      {
        var x := loaded[i];
        assert x == IncludeRoom(rooms[i], hotels, roomTypes);
        var t :| 0 <= t < |roomTypes| && roomTypes[t].roomTypeId == rooms[i].roomTypeId && roomTypes[t].capacity >= guestCount;
        assert HasRoomType(roomTypes, rooms[i].roomTypeId);
        var u :| 0 <= u < |roomTypes| && roomTypes[u] == x.roomType.value;
        assert u == t;
        assert PassesFilters(x, bookings, checkIn, checkOut, guestCount, hotelId);
        assert x in multiset(loaded);
        assert x in multiset(free);
      }
    }
  }

  class RoomRepository {
    const context: HotelBookingDbContext

    constructor (context: HotelBookingDbContext)
      ensures this.context == context
    {
      this.context := context;
    }

    /** `GetRoomByIdAsync`: the room with that key, with its hotel and room type. */
    function GetRoomById(id: int): (r: Option<Room>)
      reads context
      ensures r.None? <==> !HasRoom(context.rooms, id)
      ensures r.Some? ==> r.value.roomId == id
      ensures context.Valid() ==> forall i :: 0 <= i < |context.rooms| && context.rooms[i].roomId == id ==>
                r == Some(IncludeRoom(context.rooms[i], context.hotels, context.roomTypes))
    {
      match FirstWhere(context.rooms, (x: Room) => x.roomId == id)
      case None => None
      case Some(x) => Some(IncludeRoom(x, context.hotels, context.roomTypes))
    }

    /** `GetRoomsByHotelIdAsync`: the hotel's rooms, loaded, ordered by room number. */
    function GetRoomsByHotelId(hotelId: int): (r: seq<Room>)
      reads context
      ensures forall x :: x in r ==> x.hotelId == hotelId
      ensures forall x :: x in r ==>
                exists i :: 0 <= i < |context.rooms| && x == IncludeRoom(context.rooms[i], context.hotels, context.roomTypes)
      ensures forall i :: 0 <= i < |context.rooms| && context.rooms[i].hotelId == hotelId ==>
                IncludeRoom(context.rooms[i], context.hotels, context.roomTypes) in r
      ensures forall x :: multiset(r)[x] ==
                if x.hotelId == hotelId then multiset(LoadRooms(context.rooms, context.hotels, context.roomTypes))[x] else 0
      ensures Sorted(r, ByRoomNumber)
    {
      RoomsOfHotelOrdered(context.rooms, context.hotels, context.roomTypes, hotelId);
      OrderBy(RoomsOfHotel(context.rooms, context.hotels, context.roomTypes, hotelId), ByRoomNumber)
    }

    /**
     * `GetAvailableRoomsAsync`: the loaded rooms that seat the party, lie in
     * the requested hotel if any, and have no booking overlapping the stay,
     * ordered by hotel name and then room number.
     */
    function GetAvailableRooms(checkIn: DateTime, checkOut: DateTime, guestCount: int, hotelId: Option<int>): (r: seq<Room>)
      reads context
      ensures forall x :: x in r ==>
                x.roomType.Some? && x.roomType.value.capacity >= guestCount && (hotelId.None? || x.hotelId == hotelId.value)
      ensures forall x :: x in r ==>
                exists i :: 0 <= i < |context.rooms| && x == IncludeRoom(context.rooms[i], context.hotels, context.roomTypes) &&
                  IsAvailable(context.rooms[i], context.roomTypes, context.bookings, checkIn, checkOut, guestCount, hotelId)
      ensures context.Valid() ==>
                forall i ::
                  (0 <= i < |context.rooms| &&
                   IsAvailable(context.rooms[i], context.roomTypes, context.bookings, checkIn, checkOut, guestCount, hotelId)) ==>
                    IncludeRoom(context.rooms[i], context.hotels, context.roomTypes) in r
      ensures forall x :: multiset(r)[x] ==
                if PassesFilters(x, context.bookings, checkIn, checkOut, guestCount, hotelId)
                then multiset(LoadRooms(context.rooms, context.hotels, context.roomTypes))[x] else 0
      ensures Sorted(r, ByHotelNameThenRoomNumber)
    {
      var free := AvailableRooms(context.rooms, context.hotels, context.roomTypes, context.bookings,
                                 checkIn, checkOut, guestCount, hotelId);
      RoomOrdersAreTotal();
      OrderBySorted(free, ByHotelNameThenRoomNumber);
      OrderByMembers(free, ByHotelNameThenRoomNumber);
      OrderBy(free, ByHotelNameThenRoomNumber)
    }

    /** `RoomExistsAsync`. */
    function RoomExists(id: int): (r: bool)
      reads context
      ensures r <==> HasRoom(context.rooms, id)
    {
      AnyAt(context.rooms, (x: Room) => x.roomId == id);
      Any(context.rooms, (x: Room) => x.roomId == id)
    }

    /**
     * `CreateRoomAsync`: add the row and save. The database assigns the key;
     * an unknown hotel or room type, or a room number the hotel already uses,
     * breaks a constraint and nothing is written.
     */
    method CreateRoom(room: Room) returns (r: Result<Room, StoreError>)
      requires context.Valid()
      modifies context`rooms, context`nextRoomId
      ensures context.Valid()
      ensures !CanInsertRoom(old(context.rooms), context.hotels, context.roomTypes, room) ==>
                r == Failure(ConstraintViolation) && context.rooms == old(context.rooms)
                && context.nextRoomId == old(context.nextRoomId)
      ensures CanInsertRoom(old(context.rooms), context.hotels, context.roomTypes, room) ==>
                var stored := room.(roomId := old(context.nextRoomId));
                && context.rooms == old(context.rooms) + [stored]
                && context.nextRoomId == old(context.nextRoomId) + 1
                && r == Success(stored)
    {
      if !CanInsertRoom(context.rooms, context.hotels, context.roomTypes, room) {
        return Failure(ConstraintViolation);
      }
      var stored := room.(roomId := context.nextRoomId);
      AppendKeepsTables(context.rooms, context.hotels, context.roomTypes, context.bookings, context.nextRoomId,
                        context.nextBookingId, stored);
      context.rooms := context.rooms + [stored];
      context.nextRoomId := context.nextRoomId + 1;
      r := Success(stored);
    }

    /**
     * `UpdateRoomAsync`: `Update` on a room whose key is unset (0) adds it;
     * otherwise the row with that key is overwritten, and saving fails when
     * there is no such row or when the new values break a constraint.
     */
    method UpdateRoom(room: Room) returns (r: Result<Room, StoreError>)
      requires context.Valid()
      modifies context`rooms, context`nextRoomId
      ensures context.Valid()
      ensures room.roomId == 0 && CanInsertRoom(old(context.rooms), context.hotels, context.roomTypes, room) ==>
                var stored := room.(roomId := old(context.nextRoomId));
                && context.rooms == old(context.rooms) + [stored]
                && context.nextRoomId == old(context.nextRoomId) + 1
                && r == Success(stored)
      ensures room.roomId == 0 && !CanInsertRoom(old(context.rooms), context.hotels, context.roomTypes, room) ==>
                && r == Failure(ConstraintViolation) && context.rooms == old(context.rooms)
                && context.nextRoomId == old(context.nextRoomId)
      ensures room.roomId != 0 && !old(HasRoom(context.rooms, room.roomId)) ==>
                r == Failure(ConcurrencyConflict) && context.rooms == old(context.rooms)
      ensures room.roomId != 0 && old(HasRoom(context.rooms, room.roomId)) ==>
                var k := IndexOfFirst(old(context.rooms), (x: Room) => x.roomId == room.roomId);
                if CanReplaceRoom(old(context.rooms), context.hotels, context.roomTypes, room) then
                  k < |old(context.rooms)| && context.rooms == old(context.rooms)[k := room] && r == Success(room)
                else
                  r == Failure(ConstraintViolation) && context.rooms == old(context.rooms)
      ensures room.roomId != 0 ==> context.nextRoomId == old(context.nextRoomId)
    {
      if room.roomId == 0 {
        r := CreateRoom(room);
        return;
      }
      var k := IndexOfFirst(context.rooms, (x: Room) => x.roomId == room.roomId);
      if k == |context.rooms| {
        return Failure(ConcurrencyConflict);
      }
      if !CanReplaceRoom(context.rooms, context.hotels, context.roomTypes, room) {
        return Failure(ConstraintViolation);
      }
      ReplaceKeepsTables(context.rooms, context.hotels, context.roomTypes, context.bookings, context.nextRoomId,
                         context.nextBookingId, k, room);
      context.rooms := context.rooms[k := room];
      r := Success(room);
    }

    /** `DeleteRoomAsync`: remove the room with that key, and with it its bookings. */
    method DeleteRoom(id: int) returns (deleted: bool)
      requires context.Valid()
      modifies context`rooms, context`bookings
      ensures context.Valid()
      ensures deleted == old(HasRoom(context.rooms, id))
      ensures deleted ==>
                && context.rooms == old(RemoveAt(context.rooms, IndexOfFirst(context.rooms, (x: Room) => x.roomId == id)))
                && context.bookings == old(Where(context.bookings, (b: Booking) => b.roomId != id))
      ensures !deleted ==> context.rooms == old(context.rooms) && context.bookings == old(context.bookings)
      ensures !HasRoom(context.rooms, id)
      ensures forall i :: 0 <= i < |context.bookings| ==> context.bookings[i].roomId != id
    {
      var k := IndexOfFirst(context.rooms, (x: Room) => x.roomId == id);
      if k == |context.rooms| {
        return false;
      }
      var remaining := Where(context.bookings, (b: Booking) => b.roomId != id);
      DeleteKeepsTables(context.rooms, context.hotels, context.roomTypes, context.bookings, context.nextRoomId,
                        context.nextBookingId, k);
      context.rooms := RemoveAt(context.rooms, k);
      context.bookings := remaining;
      deleted := true;
    }
  }

  /** What the database accepts as a new room row: its hotel and room type exist and its number is new in the hotel. */
  predicate CanInsertRoom(rooms: seq<Room>, hotels: seq<Hotel>, roomTypes: seq<RoomType>, room: Room)
  {
    && RoomReferencesCatalog(room, hotels, roomTypes)
    && forall j :: 0 <= j < |rooms| ==> !(rooms[j].hotelId == room.hotelId && rooms[j].roomNumber == room.roomNumber)
  }

  /** What the database accepts as new values for an existing row: as for an insert, ignoring the row itself. */
  predicate CanReplaceRoom(rooms: seq<Room>, hotels: seq<Hotel>, roomTypes: seq<RoomType>, room: Room)
  {
    && RoomReferencesCatalog(room, hotels, roomTypes)
    && forall j :: 0 <= j < |rooms| && rooms[j].roomId != room.roomId ==>
         !(rooms[j].hotelId == room.hotelId && rooms[j].roomNumber == room.roomNumber)
  }

  lemma AppendKeepsTables(rooms: seq<Room>, hotels: seq<Hotel>, roomTypes: seq<RoomType>, bookings: seq<Booking>,
                          nextRoomId: int, nextBookingId: int, room: Room)
    requires RoomTableValid(rooms, hotels, roomTypes, nextRoomId) && BookingTableValid(bookings, rooms, nextBookingId)
    requires room.roomId == nextRoomId && CanInsertRoom(rooms, hotels, roomTypes, room)
    ensures RoomTableValid(rooms + [room], hotels, roomTypes, nextRoomId + 1)
    ensures BookingTableValid(bookings, rooms + [room], nextBookingId)
  {
    var s := rooms + [room];
    forall i | 0 <= i < |bookings| ensures HasRoom(s, bookings[i].roomId) {
      var j :| 0 <= j < |rooms| && rooms[j].roomId == bookings[i].roomId;
      assert s[j] == rooms[j];
    }
  }

  lemma ReplaceKeepsTables(rooms: seq<Room>, hotels: seq<Hotel>, roomTypes: seq<RoomType>, bookings: seq<Booking>,
                           nextRoomId: int, nextBookingId: int, k: nat, room: Room)
    requires RoomTableValid(rooms, hotels, roomTypes, nextRoomId) && BookingTableValid(bookings, rooms, nextBookingId)
    requires k < |rooms| && rooms[k].roomId == room.roomId && CanReplaceRoom(rooms, hotels, roomTypes, room)
    ensures RoomTableValid(rooms[k := room], hotels, roomTypes, nextRoomId)
    ensures BookingTableValid(bookings, rooms[k := room], nextBookingId)
  {
    var s := rooms[k := room];
    forall i | 0 <= i < |bookings| ensures HasRoom(s, bookings[i].roomId) {
      var j :| 0 <= j < |rooms| && rooms[j].roomId == bookings[i].roomId;
      assert s[j].roomId == rooms[j].roomId;
    }
  }

  lemma DeleteKeepsTables(rooms: seq<Room>, hotels: seq<Hotel>, roomTypes: seq<RoomType>, bookings: seq<Booking>,
                          nextRoomId: int, nextBookingId: int, k: nat)
    requires RoomTableValid(rooms, hotels, roomTypes, nextRoomId) && BookingTableValid(bookings, rooms, nextBookingId)
    requires k < |rooms|
    ensures RoomTableValid(RemoveAt(rooms, k), hotels, roomTypes, nextRoomId)
    ensures BookingTableValid(Where(bookings, (b: Booking) => b.roomId != rooms[k].roomId), RemoveAt(rooms, k), nextBookingId)
    ensures !HasRoom(RemoveAt(rooms, k), rooms[k].roomId)
  {
    RemoveAtKeepsRoomTable(rooms, hotels, roomTypes, nextRoomId, k);
    CascadeKeepsBookingTable(rooms, bookings, nextBookingId, k);
  }

  lemma RemoveAtKeepsRoomTable(rooms: seq<Room>, hotels: seq<Hotel>, roomTypes: seq<RoomType>, nextRoomId: int, k: nat)
    requires RoomTableValid(rooms, hotels, roomTypes, nextRoomId) && k < |rooms|
    ensures RoomTableValid(RemoveAt(rooms, k), hotels, roomTypes, nextRoomId)
    ensures forall i :: 0 <= i < |RemoveAt(rooms, k)| ==> RemoveAt(rooms, k)[i].roomId != rooms[k].roomId
  {
    var s := RemoveAt(rooms, k);
    forall i, j | 0 <= i < |s| && 0 <= j < |s| && i != j
      ensures s[i].roomId != s[j].roomId
      ensures s[i].hotelId == s[j].hotelId ==> s[i].roomNumber != s[j].roomNumber
    {
      assert s[i] == rooms[if i < k then i else i + 1] && s[j] == rooms[if j < k then j else j + 1];
    }
    forall i | 0 <= i < |s|
      ensures s[i].roomId < nextRoomId && RoomReferencesCatalog(s[i], hotels, roomTypes) && s[i].roomId != rooms[k].roomId
    {
      assert s[i] == rooms[if i < k then i else i + 1];
    }
  }

  /** Deleting a room's bookings with it keeps the Booking table valid against the remaining rooms. */
  lemma CascadeKeepsBookingTable(rooms: seq<Room>, bookings: seq<Booking>, nextBookingId: int, k: nat)
    requires k < |rooms| && UniqueRoomIds(rooms) && BookingTableValid(bookings, rooms, nextBookingId)
    ensures BookingTableValid(Where(bookings, (b: Booking) => b.roomId != rooms[k].roomId), RemoveAt(rooms, k), nextBookingId)
  {
    var s := RemoveAt(rooms, k);
    var id := rooms[k].roomId;
    var p := (b: Booking) => b.roomId != id;
    var kept := Where(bookings, p);
    WherePairwise(bookings, p, (a: Booking, b: Booking) => a.bookingId != b.bookingId);
    WherePairwise(bookings, p, (a: Booking, b: Booking) => a.bookingNumber != b.bookingNumber);
    forall i | 0 <= i < |kept| ensures kept[i].bookingId < nextBookingId && HasRoom(s, kept[i].roomId) {
      assert kept[i] in kept;
      var j :| 0 <= j < |rooms| && rooms[j].roomId == kept[i].roomId;
      assert j != k;
      assert s[if j < k then j else j - 1] == rooms[j];
    }
  }
}
