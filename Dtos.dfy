/** The shapes the services accept and return. */
module Dtos {
  import opened Wrappers
  import opened Dates

  datatype HotelDto = HotelDto(hotelId: int, name: string, address: Option<string>, rooms: seq<RoomDto>)

  datatype HotelSearchDto = HotelSearchDto(hotelId: int, name: string, address: Option<string>)

  datatype CreateBookingDto = CreateBookingDto(
    roomId: int,
    checkInDate: DateTime,
    checkOutDate: DateTime,
    guestCount: int,
    guestName: string)

  datatype BookingDto = BookingDto(
    bookingId: int,
    bookingNumber: string,
    roomId: int,
    roomNumber: string,
    hotelName: string,
    roomTypeName: string,
    checkInDate: DateTime,
    checkOutDate: DateTime,
    guestCount: int,
    guestName: string,
    createdAt: DateTime)

  datatype RoomDto = RoomDto(
    roomId: int,
    hotelId: int,
    hotelName: string,
    roomTypeId: int,
    roomTypeName: string,
    capacity: int,
    roomNumber: string)

  datatype AvailableRoomDto = AvailableRoomDto(
    roomId: int,
    hotelId: int,
    hotelName: string,
    hotelAddress: string,
    roomNumber: string,
    roomTypeName: string,
    capacity: int)
}
