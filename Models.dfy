/**
 * The entities of the reservation store. Navigation properties (`Room.Hotel`,
 * `Room.RoomType`, `Booking.Room`) are optional: they hold a value only when a
 * query has included them.
 */
module Models {
  import opened Wrappers
  import opened Dates

  datatype Hotel = Hotel(hotelId: int, name: string, address: Option<string>)

  datatype RoomType = RoomType(roomTypeId: int, name: string, capacity: int)

  datatype Room = Room(
    roomId: int,
    hotelId: int,
    roomTypeId: int,
    roomNumber: string,
    hotel: Option<Hotel>,
    roomType: Option<RoomType>)

  datatype Booking = Booking(
    bookingId: int,
    bookingNumber: string,
    roomId: int,
    checkInDate: DateTime,
    checkOutDate: DateTime,
    guestCount: int,
    guestName: string,
    createdAt: DateTime,
    room: Option<Room>)
}
