/**
 * `RoomService`: the availability search behind its three request checks,
 * and the room lookups, answered as DTOs.
 */
module RoomSvc {
  import opened Wrappers
  import opened Linq
  import opened Text
  import opened Dates
  import opened Models
  import opened Errors
  import opened Dtos
  import opened Store
  import opened Mapping
  import opened RoomRepo

  /** The search's request checks, in order; the first one broken is the one reported. */
  function SearchRequestError(checkIn: DateTime, checkOut: DateTime, guestCount: int, today: nat): (e: Option<ReservationError>)
    ensures e.None? <==> checkIn < checkOut && !OnOrBeforeDay(checkIn, today) && guestCount >= 1
    ensures checkIn >= checkOut ==> e == Some(InvalidDateOrder)
    ensures checkIn < checkOut && OnOrBeforeDay(checkIn, today) ==> e == Some(CheckInInPast)
    ensures checkIn < checkOut && !OnOrBeforeDay(checkIn, today) && guestCount < 1 ==> e == Some(InvalidGuestCount)
    ensures e.Some? ==> IsArgumentError(e.value)
  {
    if checkIn >= checkOut then Some(InvalidDateOrder)
    else if OnOrBeforeDay(checkIn, today) then Some(CheckInInPast)
    else if guestCount < 1 then Some(InvalidGuestCount)
    else None
  }

  /** The order of the search result, seen on the DTOs: hotel name, then room number. */
  predicate DtoByHotelNameThenRoomNumber(a: AvailableRoomDto, b: AvailableRoomDto)
  {
    (OrdinalLe(a.hotelName, b.hotelName) && a.hotelName != b.hotelName)
    || (a.hotelName == b.hotelName && OrdinalLe(a.roomNumber, b.roomNumber))
  }

  /** The order of the hotel listing, seen on the DTOs. */
  predicate DtoByRoomNumber(a: RoomDto, b: RoomDto)
  {
    OrdinalLe(a.roomNumber, b.roomNumber)
  }

  class RoomService {
    const roomRepository: RoomRepository

    constructor (roomRepository: RoomRepository)
      ensures this.roomRepository == roomRepository
    {
      this.roomRepository := roomRepository;
    }

    /**
     * `GetAvailableRoomsAsync`, with today's date passed in as a day number:
     * the request checks, then the repository's search mapped room by room.
     */
    function GetAvailableRooms(checkIn: DateTime, checkOut: DateTime, guestCount: int, hotelId: Option<int>, today: nat)
      : (r: Result<seq<AvailableRoomDto>, ReservationError>)
      reads roomRepository.context
      ensures r.Success? <==> SearchRequestError(checkIn, checkOut, guestCount, today).None?
      ensures SearchRequestError(checkIn, checkOut, guestCount, today).Some? ==>
                r == Failure(SearchRequestError(checkIn, checkOut, guestCount, today).value)
      ensures r.Success? ==>
                var rooms := roomRepository.GetAvailableRooms(checkIn, checkOut, guestCount, hotelId);
                |r.value| == |rooms| && forall k :: 0 <= k < |rooms| ==> r.value[k] == ToAvailableRoomDto(rooms[k])
      ensures r.Success? ==>
                forall d :: d in r.value ==>
                  && d.capacity >= guestCount >= 1
                  && (hotelId.None? || d.hotelId == hotelId.value)
                  && exists i :: 0 <= i < |roomRepository.context.rooms| && d.roomId == roomRepository.context.rooms[i].roomId &&
                       IsAvailable(roomRepository.context.rooms[i], roomRepository.context.roomTypes, roomRepository.context.bookings,
                                   checkIn, checkOut, guestCount, hotelId)
      ensures r.Success? ==> Sorted(r.value, DtoByHotelNameThenRoomNumber)
    {
      var error := SearchRequestError(checkIn, checkOut, guestCount, today);
      if error.Some? then Failure(error.value)
      else
        var rooms := roomRepository.GetAvailableRooms(checkIn, checkOut, guestCount, hotelId);
        var dtos := ToAvailableRoomDtos(rooms);
        AvailableDtos(roomRepository.context.rooms, roomRepository.context.hotels, roomRepository.context.roomTypes,
                      roomRepository.context.bookings, checkIn, checkOut, guestCount, hotelId, rooms, dtos);
        Success(dtos)
    }

    /** `GetRoomByIdAsync`: the room as a DTO, or nothing when there is no such room. */
    function GetRoomById(id: int): (r: Option<RoomDto>)
      reads roomRepository.context
      ensures r.None? <==> !HasRoom(roomRepository.context.rooms, id)
      ensures r.Some? ==> r.value.roomId == id
      ensures roomRepository.context.Valid() ==>
                forall i :: 0 <= i < |roomRepository.context.rooms| && roomRepository.context.rooms[i].roomId == id ==>
                  r == Some(RoomToDto(IncludeRoom(roomRepository.context.rooms[i], roomRepository.context.hotels,
                                                  roomRepository.context.roomTypes)))
    {
      var room := roomRepository.GetRoomById(id);
      if room.Some? then Some(RoomToDto(room.value)) else None
    }

    /** `GetRoomsByHotelIdAsync`: the hotel's rooms as DTOs, ordered by room number. */
    function GetRoomsByHotelId(hotelId: int): (r: seq<RoomDto>)
      reads roomRepository.context
      ensures forall d :: d in r ==> d.hotelId == hotelId
      ensures forall i :: 0 <= i < |roomRepository.context.rooms| && roomRepository.context.rooms[i].hotelId == hotelId ==>
                RoomToDto(IncludeRoom(roomRepository.context.rooms[i], roomRepository.context.hotels,
                                      roomRepository.context.roomTypes)) in r
      ensures forall d :: d in r ==>
                exists i :: 0 <= i < |roomRepository.context.rooms| &&
                  d == RoomToDto(IncludeRoom(roomRepository.context.rooms[i], roomRepository.context.hotels,
                                             roomRepository.context.roomTypes))
      ensures var rooms := roomRepository.GetRoomsByHotelId(hotelId);
              |r| == |rooms| && forall k :: 0 <= k < |rooms| ==> r[k] == RoomToDto(rooms[k])
      ensures Sorted(r, DtoByRoomNumber)
    {
      var rooms := roomRepository.GetRoomsByHotelId(hotelId);
      var dtos := ToRoomDtos(rooms);
      HotelRoomDtos(roomRepository.context.rooms, roomRepository.context.hotels, roomRepository.context.roomTypes,
                    hotelId, rooms, dtos);
      dtos
    }
  }

  /** What the search's DTOs inherit from the rooms they are made from. */
  lemma AvailableDtos(allRooms: seq<Room>, hotels: seq<Hotel>, roomTypes: seq<RoomType>, bookings: seq<Booking>,
                      checkIn: DateTime, checkOut: DateTime, guestCount: int, hotelId: Option<int>,
                      rooms: seq<Room>, dtos: seq<AvailableRoomDto>)
    requires guestCount >= 1
    requires forall x :: x in rooms ==>
               x.roomType.Some? && x.roomType.value.capacity >= guestCount && (hotelId.None? || x.hotelId == hotelId.value)
    requires forall x :: x in rooms ==>
               exists i :: 0 <= i < |allRooms| && x == IncludeRoom(allRooms[i], hotels, roomTypes) &&
                 IsAvailable(allRooms[i], roomTypes, bookings, checkIn, checkOut, guestCount, hotelId)
    requires Sorted(rooms, ByHotelNameThenRoomNumber)
    requires |dtos| == |rooms| && forall k :: 0 <= k < |rooms| ==> dtos[k] == ToAvailableRoomDto(rooms[k])
    ensures forall d :: d in dtos ==>
              && d.capacity >= guestCount >= 1
              && (hotelId.None? || d.hotelId == hotelId.value)
              && exists i :: 0 <= i < |allRooms| && d.roomId == allRooms[i].roomId &&
                   IsAvailable(allRooms[i], roomTypes, bookings, checkIn, checkOut, guestCount, hotelId)
    ensures Sorted(dtos, DtoByHotelNameThenRoomNumber)
  {
    forall d | d in dtos
      ensures && d.capacity >= guestCount >= 1
              && (hotelId.None? || d.hotelId == hotelId.value)
              && exists i :: 0 <= i < |allRooms| && d.roomId == allRooms[i].roomId &&
                   IsAvailable(allRooms[i], roomTypes, bookings, checkIn, checkOut, guestCount, hotelId)
    {
      var k :| 0 <= k < |dtos| && dtos[k] == d;
      assert rooms[k] in rooms;
      var i :| 0 <= i < |allRooms| && rooms[k] == IncludeRoom(allRooms[i], hotels, roomTypes) &&
                 IsAvailable(allRooms[i], roomTypes, bookings, checkIn, checkOut, guestCount, hotelId);
      assert d.roomId == allRooms[i].roomId;
    }
    forall i, j | 0 <= i < j < |dtos| ensures DtoByHotelNameThenRoomNumber(dtos[i], dtos[j]) {
      assert ByHotelNameThenRoomNumber(rooms[i], rooms[j]);
    }
  }

  /** What the hotel listing's DTOs inherit from the rooms they are made from. */
  lemma HotelRoomDtos(allRooms: seq<Room>, hotels: seq<Hotel>, roomTypes: seq<RoomType>,
                      hotelId: int, rooms: seq<Room>, dtos: seq<RoomDto>)
    requires forall x :: x in rooms ==> x.hotelId == hotelId
    requires forall x :: x in rooms ==> exists i :: 0 <= i < |allRooms| && x == IncludeRoom(allRooms[i], hotels, roomTypes)
    requires Sorted(rooms, ByRoomNumber)
    requires |dtos| == |rooms| && forall k :: 0 <= k < |rooms| ==> dtos[k] == RoomToDto(rooms[k])
    ensures forall d :: d in dtos ==> d.hotelId == hotelId
    ensures forall d :: d in dtos ==>
              exists i :: 0 <= i < |allRooms| && d == RoomToDto(IncludeRoom(allRooms[i], hotels, roomTypes))
    ensures forall x :: x in rooms ==> RoomToDto(x) in dtos
    ensures Sorted(dtos, DtoByRoomNumber)
  {
    forall d | d in dtos
      ensures d.hotelId == hotelId
      ensures exists i :: 0 <= i < |allRooms| && d == RoomToDto(IncludeRoom(allRooms[i], hotels, roomTypes))
    {
      var k :| 0 <= k < |dtos| && dtos[k] == d;
      assert rooms[k] in rooms;
      var i :| 0 <= i < |allRooms| && rooms[k] == IncludeRoom(allRooms[i], hotels, roomTypes);
    }
    forall x | x in rooms ensures RoomToDto(x) in dtos {
      var k :| 0 <= k < |rooms| && rooms[k] == x;
      assert dtos[k] == RoomToDto(x);
    }
    forall i, j | 0 <= i < j < |dtos| ensures DtoByRoomNumber(dtos[i], dtos[j]) {
      assert ByRoomNumber(rooms[i], rooms[j]);
    }
  }
}
