/**
 * The database behind the repositories, held in memory: one sequence per
 * table and the next identity value of each table with a store-generated key.
 * `Valid()` is what the database's keys, unique indexes and foreign keys
 * guarantee about the rows.
 */
module Store {
  import opened Wrappers
  import opened Linq
  import opened Models

  predicate UniqueBookingNumbers(bs: seq<Booking>)
  {
    forall i, j :: 0 <= i < |bs| && 0 <= j < |bs| && i != j ==> bs[i].bookingNumber != bs[j].bookingNumber
  }

  predicate UniqueBookingIds(bs: seq<Booking>)
  {
    forall i, j :: 0 <= i < |bs| && 0 <= j < |bs| && i != j ==> bs[i].bookingId != bs[j].bookingId
  }

  predicate BookingIdsBelow(bs: seq<Booking>, next: int)
  {
    forall i :: 0 <= i < |bs| ==> bs[i].bookingId < next
  }

  predicate HasRoom(rooms: seq<Room>, roomId: int)
  {
    exists j :: 0 <= j < |rooms| && rooms[j].roomId == roomId
  }

  predicate BookingsReferenceRooms(bs: seq<Booking>, rooms: seq<Room>)
  {
    forall i :: 0 <= i < |bs| ==> HasRoom(rooms, bs[i].roomId)
  }

  predicate UniqueRoomIds(rooms: seq<Room>)
  {
    forall i, j :: 0 <= i < |rooms| && 0 <= j < |rooms| && i != j ==> rooms[i].roomId != rooms[j].roomId
  }

  predicate RoomIdsBelow(rooms: seq<Room>, next: int)
  {
    forall i :: 0 <= i < |rooms| ==> rooms[i].roomId < next
  }

  /** The unique index on (HotelId, RoomNumber). */
  predicate UniqueRoomNumbers(rooms: seq<Room>)
  {
    forall i, j :: 0 <= i < |rooms| && 0 <= j < |rooms| && i != j && rooms[i].hotelId == rooms[j].hotelId
      ==> rooms[i].roomNumber != rooms[j].roomNumber
  }

  predicate UniqueHotelIds(hotels: seq<Hotel>)
  {
    forall i, j :: 0 <= i < |hotels| && 0 <= j < |hotels| && i != j ==> hotels[i].hotelId != hotels[j].hotelId
  }

  predicate UniqueRoomTypeIds(roomTypes: seq<RoomType>)
  {
    forall i, j :: 0 <= i < |roomTypes| && 0 <= j < |roomTypes| && i != j ==> roomTypes[i].roomTypeId != roomTypes[j].roomTypeId
  }

  predicate HasHotel(hotels: seq<Hotel>, hotelId: int)
  {
    exists j :: 0 <= j < |hotels| && hotels[j].hotelId == hotelId
  }

  predicate HasRoomType(roomTypes: seq<RoomType>, roomTypeId: int)
  {
    exists j :: 0 <= j < |roomTypes| && roomTypes[j].roomTypeId == roomTypeId
  }

  /** Every room row is valid against the catalogue: its hotel and its room type exist. */
  predicate RoomReferencesCatalog(room: Room, hotels: seq<Hotel>, roomTypes: seq<RoomType>)
  {
    HasHotel(hotels, room.hotelId) && HasRoomType(roomTypes, room.roomTypeId)
  }

  predicate RoomsReferenceCatalog(rooms: seq<Room>, hotels: seq<Hotel>, roomTypes: seq<RoomType>)
  {
    forall i :: 0 <= i < |rooms| ==> RoomReferencesCatalog(rooms[i], hotels, roomTypes)
  }

  predicate RoomTableValid(rooms: seq<Room>, hotels: seq<Hotel>, roomTypes: seq<RoomType>, nextRoomId: int)
  {
    && UniqueHotelIds(hotels)
    && UniqueRoomTypeIds(roomTypes)
    && UniqueRoomIds(rooms)
    && RoomIdsBelow(rooms, nextRoomId)
    && UniqueRoomNumbers(rooms)
    && RoomsReferenceCatalog(rooms, hotels, roomTypes)
  }

  predicate BookingTableValid(bookings: seq<Booking>, rooms: seq<Room>, nextBookingId: int)
  {
    && UniqueBookingIds(bookings)
    && BookingIdsBelow(bookings, nextBookingId)
    && UniqueBookingNumbers(bookings)
    && BookingsReferenceRooms(bookings, rooms)
  }

  /** `.Include(r => r.Hotel).Include(r => r.RoomType)`: the room with its related rows attached. */
  function IncludeRoom(room: Room, hotels: seq<Hotel>, roomTypes: seq<RoomType>): (r: Room)
    ensures r.hotel.Some? <==> HasHotel(hotels, room.hotelId)
    ensures r.roomType.Some? <==> HasRoomType(roomTypes, room.roomTypeId)
    ensures r.hotel.Some? ==> r.hotel.value in hotels && r.hotel.value.hotelId == room.hotelId
    ensures r.roomType.Some? ==> r.roomType.value in roomTypes && r.roomType.value.roomTypeId == room.roomTypeId
    ensures r == room.(hotel := r.hotel, roomType := r.roomType)
  {
    room.(hotel := FirstWhere(hotels, (h: Hotel) => h.hotelId == room.hotelId),
          roomType := FirstWhere(roomTypes, (t: RoomType) => t.roomTypeId == room.roomTypeId))
  }

  /** `.Include(b => b.Room).ThenInclude(...)`: the booking with its room, hotel and room type attached. */
  function IncludeBooking(b: Booking, rooms: seq<Room>, hotels: seq<Hotel>, roomTypes: seq<RoomType>): (r: Booking)
    ensures r.room.Some? <==> HasRoom(rooms, b.roomId)
    ensures r.room.Some? ==> r.room.value.roomId == b.roomId
    ensures r == b.(room := r.room)
  {
    var room := FirstWhere(rooms, (x: Room) => x.roomId == b.roomId);
    b.(room := if room.Some? then Some(IncludeRoom(room.value, hotels, roomTypes)) else None)
  }

  /** The whole Room table read with `.Include(r => r.Hotel).Include(r => r.RoomType)`, row by row. */
  function LoadRooms(rooms: seq<Room>, hotels: seq<Hotel>, roomTypes: seq<RoomType>): (r: seq<Room>)
    ensures |r| == |rooms| && forall i :: 0 <= i < |rooms| ==> r[i] == IncludeRoom(rooms[i], hotels, roomTypes)
  {
    Select(rooms, (x: Room) => IncludeRoom(x, hotels, roomTypes))
  }

  /** The whole Booking table read with its room, hotel and room type included, row by row. */
  function LoadBookings(bs: seq<Booking>, rooms: seq<Room>, hotels: seq<Hotel>, roomTypes: seq<RoomType>): (r: seq<Booking>)
    ensures |r| == |bs| && forall i :: 0 <= i < |bs| ==> r[i] == IncludeBooking(bs[i], rooms, hotels, roomTypes)
  {
    Select(bs, (b: Booking) => IncludeBooking(b, rooms, hotels, roomTypes))
  }

  class HotelBookingDbContext {
    var hotels: seq<Hotel>
    var roomTypes: seq<RoomType>
    var rooms: seq<Room>
    var bookings: seq<Booking>
    var nextRoomId: int
    var nextBookingId: int

    ghost predicate Valid()
      reads this
    {
      RoomTableValid(rooms, hotels, roomTypes, nextRoomId) && BookingTableValid(bookings, rooms, nextBookingId)
    }

    /** A database holding the given rows. */
    constructor (hotels: seq<Hotel>, roomTypes: seq<RoomType>, rooms: seq<Room>, bookings: seq<Booking>,
                 nextRoomId: int, nextBookingId: int)
      requires RoomTableValid(rooms, hotels, roomTypes, nextRoomId)
      requires BookingTableValid(bookings, rooms, nextBookingId)
      ensures Valid()
      ensures this.hotels == hotels && this.roomTypes == roomTypes && this.rooms == rooms && this.bookings == bookings
      ensures this.nextRoomId == nextRoomId && this.nextBookingId == nextBookingId
    {
      this.hotels := hotels;
      this.roomTypes := roomTypes;
      this.rooms := rooms;
      this.bookings := bookings;
      this.nextRoomId := nextRoomId;
      this.nextBookingId := nextBookingId;
    }
  }
}
