/**
 * Copies between the entities and the DTOs. Missing navigation data maps to
 * `""` for names and `0` for a capacity.
 */
module Mapping {
  import opened Wrappers
  import opened Dates
  import opened Models
  import opened Dtos
  import Linq

  function HotelName(h: Option<Hotel>): string
  {
    if h.Some? then h.value.name else ""
  }

  function RoomTypeName(t: Option<RoomType>): string
  {
    if t.Some? then t.value.name else ""
  }

  /**
   * `Hotel.ToDto()`. The hotel's `Rooms` collection is passed in, `None` when
   * it is null; a null collection maps to an empty room list.
   */
  function HotelToDto(hotel: Hotel, rooms: Option<seq<Room>>): (d: HotelDto)
    ensures d.hotelId == hotel.hotelId && d.name == hotel.name && d.address == hotel.address
    ensures rooms.None? ==> d.rooms == []
    ensures rooms.Some? ==>
              |d.rooms| == |rooms.value| && forall i :: 0 <= i < |rooms.value| ==> d.rooms[i] == RoomToDto(rooms.value[i])
  {
    HotelDto(hotel.hotelId, hotel.name, hotel.address, if rooms.Some? then ToRoomDtos(rooms.value) else [])
  }

  /** `Hotel.ToSearchDto()`. */
  function HotelToSearchDto(hotel: Hotel): HotelSearchDto
  {
    HotelSearchDto(hotel.hotelId, hotel.name, hotel.address)
  }

  /** The search projection is the full projection without its rooms. */
  lemma SearchDtoIsDtoWithoutRooms(hotel: Hotel, rooms: Option<seq<Room>>)
    ensures var s, d := HotelToSearchDto(hotel), HotelToDto(hotel, rooms);
            s.hotelId == d.hotelId == hotel.hotelId && s.name == d.name == hotel.name && s.address == d.address == hotel.address
  {
  }

  /** `ToSearchDtos()`. */
  function ToSearchDtos(hotels: seq<Hotel>): (ds: seq<HotelSearchDto>)
    ensures |ds| == |hotels|
    ensures forall i :: 0 <= i < |hotels| ==> ds[i] == HotelToSearchDto(hotels[i])
  {
    Linq.Select(hotels, HotelToSearchDto)
  }

  /** `Room.ToDto()`. */
  function RoomToDto(room: Room): RoomDto
  {
    RoomDto(
      room.roomId,
      room.hotelId,
      HotelName(room.hotel),
      room.roomTypeId,
      RoomTypeName(room.roomType),
      if room.roomType.Some? then room.roomType.value.capacity else 0,
      room.roomNumber)
  }

  /** `Room.ToAvailableRoomDto()`. */
  function ToAvailableRoomDto(room: Room): AvailableRoomDto
  {
    AvailableRoomDto(
      room.roomId,
      room.hotelId,
      HotelName(room.hotel),
      if room.hotel.Some? && room.hotel.value.address.Some? then room.hotel.value.address.value else "",
      room.roomNumber,
      RoomTypeName(room.roomType),
      if room.roomType.Some? then room.roomType.value.capacity else 0)
  }

  /** `Booking.ToDto()`. */
  function BookingToDto(b: Booking): BookingDto
  {
    BookingDto(
      b.bookingId,
      b.bookingNumber,
      b.roomId,
      if b.room.Some? then b.room.value.roomNumber else "",
      if b.room.Some? then HotelName(b.room.value.hotel) else "",
      if b.room.Some? then RoomTypeName(b.room.value.roomType) else "",
      b.checkInDate,
      b.checkOutDate,
      b.guestCount,
      b.guestName,
      b.createdAt)
  }

  /**
   * `CreateBookingDto.ToModel()`, with the `DateTime.UtcNow` it reads passed
   * in. The booking number (left null in the source) is empty and the id is
   * the default 0 until the store assigns one.
   */
  function ToModel(dto: CreateBookingDto, utcNow: DateTime): Booking
  {
    Booking(0, "", dto.roomId, dto.checkInDate, dto.checkOutDate, dto.guestCount, dto.guestName, utcNow, None)
  }

  /** The request fields a booking DTO carries. */
  function RequestOf(d: BookingDto): CreateBookingDto
  {
    CreateBookingDto(d.roomId, d.checkInDate, d.checkOutDate, d.guestCount, d.guestName)
  }

  /** `ToModel` followed by `ToDto` gives back every field of the request. */
  lemma RequestRoundTrip(dto: CreateBookingDto, utcNow: DateTime)
    ensures RequestOf(BookingToDto(ToModel(dto, utcNow))) == dto
    ensures BookingToDto(ToModel(dto, utcNow)).createdAt == utcNow
  {
  }

  /** `ToDto` copies the booking's own fields and defaults the names when the room is not loaded. */
  lemma BookingDtoCopies(b: Booking)
    ensures var d := BookingToDto(b);
            && d.bookingId == b.bookingId && d.bookingNumber == b.bookingNumber && d.roomId == b.roomId
            && d.checkInDate == b.checkInDate && d.checkOutDate == b.checkOutDate
            && d.guestCount == b.guestCount && d.guestName == b.guestName && d.createdAt == b.createdAt
    ensures b.room.None? ==> var d := BookingToDto(b); d.roomNumber == "" && d.hotelName == "" && d.roomTypeName == ""
    ensures b.room.Some? && b.room.value.hotel.None? ==> BookingToDto(b).hotelName == ""
    ensures b.room.Some? && b.room.value.roomType.None? ==> BookingToDto(b).roomTypeName == ""
  {
  }

  /** The capacity shown is the room type's, or 0 when the type is not loaded, in both room DTOs. */
  lemma RoomDtoCapacity(room: Room)
    ensures room.roomType.Some? ==> RoomToDto(room).capacity == room.roomType.value.capacity
    ensures room.roomType.None? ==> RoomToDto(room).capacity == 0 && RoomToDto(room).roomTypeName == ""
    ensures ToAvailableRoomDto(room).capacity == RoomToDto(room).capacity
  {
  }

  /** The two room projections agree on every field they share. */
  lemma AvailableRoomDtoAgrees(room: Room)
    ensures var a, d := ToAvailableRoomDto(room), RoomToDto(room);
            && a.roomId == d.roomId == room.roomId && a.hotelId == d.hotelId == room.hotelId
            && a.roomNumber == d.roomNumber == room.roomNumber
            && a.hotelName == d.hotelName && a.roomTypeName == d.roomTypeName
    ensures room.hotel.None? ==> ToAvailableRoomDto(room).hotelName == "" && ToAvailableRoomDto(room).hotelAddress == ""
  {
  }

  /** `ToRoomDtos()`. */
  function ToRoomDtos(rooms: seq<Room>): (ds: seq<RoomDto>)
    ensures |ds| == |rooms|
    ensures forall i :: 0 <= i < |rooms| ==> ds[i] == RoomToDto(rooms[i])
  {
    Linq.Select(rooms, RoomToDto)
  }

  /** `ToAvailableRoomDtos()`. */
  function ToAvailableRoomDtos(rooms: seq<Room>): (ds: seq<AvailableRoomDto>)
    ensures |ds| == |rooms|
    ensures forall i :: 0 <= i < |rooms| ==> ds[i] == ToAvailableRoomDto(rooms[i])
  {
    Linq.Select(rooms, ToAvailableRoomDto)
  }

  /** `ToBookingDtos()`. */
  function ToBookingDtos(bookings: seq<Booking>): (ds: seq<BookingDto>)
    ensures |ds| == |bookings|
    ensures forall i :: 0 <= i < |bookings| ==> ds[i] == BookingToDto(bookings[i])
  {
    Linq.Select(bookings, BookingToDto)
  }
}
