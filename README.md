# Hotel reservation core, modelled in Dafny

This project models the reservation core of the hotel booking API:

- the booking service's creation checks and the single write that follows them;
- its capped booking-number generator;
- the booking and room repositories over the database;
- the room service's availability search;
- the mappings between the entities and the DTOs the services return.

The database is held in memory. `Store.HotelBookingDbContext` is a class with one sequence per table (`hotels`, `roomTypes`, `rooms`, `bookings`) and the next identity value of the Room and Booking tables. Its `Valid()` is what the schema guarantees:

- unique primary keys;
- the unique index on `BookingNumber`;
- the unique index on (`HotelId`, `RoomNumber`);
- every booking's room exists;
- every room's hotel and room type exist.

The repositories are classes holding that context. Their queries are functions that read it. Their writes are methods that modify it and state the whole new table. Every write keeps `Valid()`: a write the database would refuse fails with a `StoreError` and changes nothing.

The service methods `CreateBooking`, `GenerateUniqueBookingNumber` and `DeleteBooking` are methods over the repositories. The lookups and the availability search are functions.

Values the source reads from its environment are parameters:

- "today" is a day number, and `DateTime.UtcNow` is a tick count;
- each attempt of a generator reads the clock and the random source, and these readings are an oracle `seq<Draw>`, one draw per attempt;
- `Random.Next(1000, 9999)` is `1000 + roll % 8999`, so every suffix lies in [1000, 9998].

`BookingSvc.CreateOutcome` specifies booking creation as a pair of values computed from the tables before the call:

- the answer: a DTO, or the first broken check, or an exhausted generator;
- the Booking table afterwards.

The lemmas beside it prove four things:
- A refused request leaves the table untouched.
- A booked request adds exactly one row, and that row carries everything the request asked for.
- The booking number is well formed and was free.
- No room becomes double booked or over capacity.

The availability search is proved sound, complete and sorted against `RoomRepo.IsAvailable`, a rule stated directly on the tables. `BookingSvc.SearchAgreesWithCreation` proves that, for valid dates and party sizes, the search finds a room exactly when booking that room passes every creation check.

The overlap test at `Repositories/BookingRepository.cs:53` and its copy at `Repositories/RoomRepository.cs:41-42` are two copies of one formula. The first is `BookingRepo.Overlaps`; the second is written out again inside `RoomRepo.HasClash`, whose contract proves the two copies equivalent. The test is the intersection of half-open intervals, it is symmetric, and it lets back-to-back stays through. It does not reject an empty window by itself: `[t, t)` clashes with every booking that has `t` strictly inside it (`BookingRepo.EmptyWindows`). Both services reject such windows with their date-order check before the test is ever reached.

## Model

| member | source | states |
|---|---|---|
| Text.ParsePadDigits | WaracleTestAPI/WaracleTestAPI/Services/BookingService.cs:135-137 | a number below 10^width, written with exactly `width` zero-padded digits, is all digits and reads back as the same number |
| Text.PadDigitsAllDigits | WaracleTestAPI/WaracleTestAPI/Services/BookingService.cs:135-137 | a zero-padded rendering is made of decimal digits only |
| Text.PadDigitsLeading | WaracleTestAPI/WaracleTestAPI/Services/BookingService.cs:136-137 | the padded rendering starts with '0' exactly when the number is below the weight of its top digit, so a suffix of at least 1000 prints as itself |
| Text.IsBlank | WaracleTestAPI/WaracleTestAPI/Services/BookingService.cs:86 | no contract of its own; `GetBookingByNumber` and `DeleteBooking` state what a blank number leads to |
| Text.OrdinalLeTotal | WaracleTestAPI/WaracleTestAPI/Repositories/RoomRepository.cs:43-44 | any two strings are comparable in ordinal order |
| Text.OrdinalLeAntisymmetric | WaracleTestAPI/WaracleTestAPI/Repositories/RoomRepository.cs:43-44 | two strings each ordinally at most the other are equal |
| Text.OrdinalLeTransitive | WaracleTestAPI/WaracleTestAPI/Repositories/RoomRepository.cs:43-44 | ordinal order is transitive |
| Dates.OnOrBeforeDayByTicks | WaracleTestAPI/WaracleTestAPI/Services/BookingService.cs:32 | `checkIn.Date <= Today` holds exactly when the instant lies before the start of the next day, so the time of day never rescues a check-in on today's date |
| Dates.FormatYyyyMmDd | WaracleTestAPI/WaracleTestAPI/Services/BookingService.cs:135 | the date part of a booking number is eight characters long |
| Dates.FormatYyyyMmDdParses | WaracleTestAPI/WaracleTestAPI/Services/BookingService.cs:135 | the eight characters are digits and give back the year, month and day they were made from |
| Dates.FormatYyyyMmDdInjective | WaracleTestAPI/WaracleTestAPI/Services/BookingService.cs:135 | two dates print the same exactly when they are the same date |
| Linq.IndexOfFirst | WaracleTestAPI/WaracleTestAPI/Repositories/BookingRepository.cs:86-87 | the index found holds the first match, with no match before it, or is the length when nothing matches |
| Linq.FirstWhere | WaracleTestAPI/WaracleTestAPI/Repositories/BookingRepository.cs:23 | `FirstOrDefault` is empty exactly when nothing matches; otherwise it is the element at the first matching position |
| Linq.AnyAt | WaracleTestAPI/WaracleTestAPI/Repositories/BookingRepository.cs:99 | `Any` holds exactly when some position of the sequence satisfies the predicate |
| Linq.Where | WaracleTestAPI/WaracleTestAPI/Repositories/BookingRepository.cs:43 | the filter keeps exactly the elements that satisfy the predicate and never grows the sequence |
| Linq.WhereMultiplicity | WaracleTestAPI/WaracleTestAPI/Repositories/BookingRepository.cs:43 | each element that satisfies the predicate is kept as many times as the input holds it, and every other element not at all |
| Linq.WhereConcat | WaracleTestAPI/WaracleTestAPI/Repositories/BookingRepository.cs:43 | filtering a concatenation is the concatenation of the filtered parts, so the filter keeps the input's order |
| Linq.WherePairwise | WaracleTestAPI/WaracleTestAPI/Data/HotelBookingDbContext.cs:89-92 | filtering keeps any property held between every two distinct rows, such as unique keys and unique numbers after a cascade |
| Linq.PairwiseCons | WaracleTestAPI/WaracleTestAPI/Data/HotelBookingDbContext.cs:89-92 | a row related both ways to every row of a pairwise-related sequence can be put in front of it |
| Linq.Select | WaracleTestAPI/WaracleTestAPI/Utilities/MappingExtensions.cs:97-100 | the projection keeps the length and maps position by position |
| Linq.RemoveAt | WaracleTestAPI/WaracleTestAPI/Repositories/BookingRepository.cs:92 | removing one row keeps every other row, in order |
| Linq.Insert | WaracleTestAPI/WaracleTestAPI/Repositories/BookingRepository.cs:44 | inserting adds exactly that element to the multiset of rows |
| Linq.OrderBy | WaracleTestAPI/WaracleTestAPI/Repositories/BookingRepository.cs:44 | sorting is a permutation of its input |
| Linq.InsertSorted | WaracleTestAPI/WaracleTestAPI/Repositories/BookingRepository.cs:44 | inserting into a sorted sequence under a total preorder keeps it sorted |
| Linq.OrderBySorted | WaracleTestAPI/WaracleTestAPI/Repositories/BookingRepository.cs:44 | `OrderBy` under a total preorder yields a sorted sequence |
| Linq.OrderByMembers | WaracleTestAPI/WaracleTestAPI/Repositories/BookingRepository.cs:44 | the sorted result has the input's length and exactly its elements |
| Store.IncludeRoom | WaracleTestAPI/WaracleTestAPI/Repositories/RoomRepository.cs:18-19 | the room is returned with its own fields unchanged, its hotel and room type attached exactly when they exist, and each attached row being the one its foreign key names |
| Store.IncludeBooking | WaracleTestAPI/WaracleTestAPI/Repositories/BookingRepository.cs:19-22 | the booking is returned with its own fields unchanged and its room attached exactly when the room exists, that room carrying the booking's room id |
| Store.LoadRooms | WaracleTestAPI/WaracleTestAPI/Repositories/RoomRepository.cs:26-28 | the loaded Room table has one row per stored room, in table order, each with its hotel and room type attached |
| Store.LoadBookings | WaracleTestAPI/WaracleTestAPI/Repositories/BookingRepository.cs:38-42 | the loaded Booking table has one row per stored booking, in table order, each with its room attached |
| Store.HotelBookingDbContext.constructor | WaracleTestAPI/WaracleTestAPI/Data/HotelBookingDbContext.cs:48-95 | a database built from rows that meet the keys, unique indexes and foreign keys holds exactly those rows and is valid |
| BookingNumbers.RandomNext | WaracleTestAPI/WaracleTestAPI/Services/BookingService.cs:136 | `Random.Next(lo, hi)` lies in [lo, hi), the upper bound excluded |
| BookingNumbers.RandomNextCoversRange | WaracleTestAPI/WaracleTestAPI/Services/BookingService.cs:136 | every value of [lo, hi) is drawn by some roll |
| BookingNumbers.Candidate | WaracleTestAPI/WaracleTestAPI/Services/BookingService.cs:135-137 | no contract of its own; `CandidateWellFormed` and `CandidateInjective` state its shape and injectivity |
| BookingNumbers.CandidateWellFormed | WaracleTestAPI/WaracleTestAPI/Services/BookingService.cs:135-137 | every candidate is `BK`, then the eight-digit date read from the clock, then a four-digit suffix in [1000, 9998] with no leading zero |
| BookingNumbers.CandidateInjective | WaracleTestAPI/WaracleTestAPI/Services/BookingService.cs:135-137 | two draws give the same number exactly when they read the same date and drew the same suffix |
| BookingNumbers.FirstFreeCandidate | WaracleTestAPI/WaracleTestAPI/Services/BookingService.cs:128-146 | the number a generator settles on is the candidate of the first draw whose number no booking carries, every earlier candidate being taken; there is none exactly when every draw's candidate is taken |
| BookingNumbers.FirstFreeCandidateWellFormed | WaracleTestAPI/WaracleTestAPI/Services/BookingService.cs:135-137 | any number a generator settles on has the booking-number shape |
| BookingNumbers.FirstFreeCandidateAt | WaracleTestAPI/WaracleTestAPI/Services/BookingService.cs:140-142 | stopping at a free draw after a run of taken ones settles on that draw's number |
| BookingRepo.Overlaps | WaracleTestAPI/WaracleTestAPI/Repositories/BookingRepository.cs:53 | no contract of its own; `OverlapsIsHalfOpenIntersection`, `OverlapsSymmetric`, `AdjacentStaysDoNotOverlap` and `EmptyWindows` state what it means |
| BookingRepo.OverlapsIsHalfOpenIntersection | WaracleTestAPI/WaracleTestAPI/Repositories/BookingRepository.cs:53 | the overlap test holds exactly when `checkIn < otherOut` and `otherIn < checkOut` |
| BookingRepo.OverlapsSymmetric | WaracleTestAPI/WaracleTestAPI/Repositories/BookingRepository.cs:53 | the overlap test is symmetric in its two intervals |
| BookingRepo.AdjacentStaysDoNotOverlap | WaracleTestAPI/WaracleTestAPI/Repositories/BookingRepository.cs:53 | a stay that checks out when the next checks in does not clash with it, in either order |
| BookingRepo.EmptyWindows | WaracleTestAPI/WaracleTestAPI/Repositories/BookingRepository.cs:53 | two empty or inverted windows never clash, while an empty window `[t, t)` clashes with exactly the bookings that have `t` strictly inside them |
| BookingRepo.NoDoubleBookingAppend | WaracleTestAPI/WaracleTestAPI/Services/BookingService.cs:48-69 | adding a booking that conflicts with no booking of its room keeps every room free of overlapping bookings |
| BookingRepo.NoDoubleBookingRemoveAt | WaracleTestAPI/WaracleTestAPI/Repositories/BookingRepository.cs:92-93 | removing a booking keeps every room free of overlapping bookings |
| BookingRepo.RemoveAtKeepsBookingTable | WaracleTestAPI/WaracleTestAPI/Repositories/BookingRepository.cs:79-80 | removing a row keeps the Booking table's keys, unique numbers and foreign keys |
| BookingRepo.BookingRepository.constructor | WaracleTestAPI/WaracleTestAPI/Repositories/BookingRepository.cs:11-14 | the repository works on the context it is given |
| BookingRepo.BookingRepository.GetBookingById | WaracleTestAPI/WaracleTestAPI/Repositories/BookingRepository.cs:16-24 | nothing exactly when no row has that key; otherwise the row with that key, with its room, hotel and room type loaded |
| BookingRepo.BookingRepository.GetBookingByNumber | WaracleTestAPI/WaracleTestAPI/Repositories/BookingRepository.cs:26-34 | something exactly when the number is taken; then the row with that number, fully loaded |
| BookingRepo.BookingRepository.GetBookingsByRoomId | WaracleTestAPI/WaracleTestAPI/Repositories/BookingRepository.cs:36-46 | every loaded booking of the room, as many times as the table holds it, and nothing else, sorted by check-in date |
| BookingRepo.BookingRepository.HasOverlappingBooking | WaracleTestAPI/WaracleTestAPI/Repositories/BookingRepository.cs:48-54 | true exactly when some booking of that room, other than the excluded one, overlaps the stay |
| BookingRepo.BookingRepository.BookingExists | WaracleTestAPI/WaracleTestAPI/Repositories/BookingRepository.cs:97-100 | true exactly when some booking carries the number |
| BookingRepo.BookingRepository.CreateBooking | WaracleTestAPI/WaracleTestAPI/Repositories/BookingRepository.cs:56-64 | a booking with a free number and an existing room is appended under the next key and returned as read back, and its number is then taken; otherwise the write fails with a constraint violation and nothing changes; the store stays valid |
| BookingRepo.BookingRepository.UpdateBooking | WaracleTestAPI/WaracleTestAPI/Repositories/BookingRepository.cs:66-71 | an unset key adds the booking as a create does, and a refused add leaves the table and the next key unchanged; a key no row has fails as a concurrency conflict; otherwise the row with that key is overwritten, or the write fails and nothing changes when the new values break a constraint; the store stays valid |
| BookingRepo.BookingRepository.DeleteBooking | WaracleTestAPI/WaracleTestAPI/Repositories/BookingRepository.cs:73-82 | true exactly when a row has that key; then that one row is removed and every other row kept in order; no row has the key afterwards |
| BookingRepo.BookingRepository.DeleteBookingByNumber | WaracleTestAPI/WaracleTestAPI/Repositories/BookingRepository.cs:84-95 | true exactly when the number was taken; then that one row is removed and every other row kept; false leaves the table unchanged; afterwards the number is free, so a second delete returns false |
| BookingRepo.BookingRepository.GenerateUniqueBookingNumber | WaracleTestAPI/WaracleTestAPI/Repositories/BookingRepository.cs:102-120 | the uncapped loop returns the first free candidate among the draws it is given |
| BookingRepo.LoadedOfRoom | WaracleTestAPI/WaracleTestAPI/Repositories/BookingRepository.cs:38-43 | each loaded booking of the room occurs as often as in the loaded table, every other booking not at all; hence exactly the loaded bookings of that room |
| BookingRepo.LoadedOfRoomMembers | WaracleTestAPI/WaracleTestAPI/Repositories/BookingRepository.cs:38-43 | a filter with those multiplicities keeps only bookings of the room, each a loaded stored row, and keeps every loaded row of the room |
| BookingRepo.LoadedOfRoomOrdered | WaracleTestAPI/WaracleTestAPI/Repositories/BookingRepository.cs:43-44 | sorting the room's loaded bookings by check-in keeps each of them exactly as often and yields check-in order |
| BookingRepo.ByCheckInIsTotalOrder | WaracleTestAPI/WaracleTestAPI/Repositories/BookingRepository.cs:44 | ordering by check-in date is a total preorder |
| BookingRepo.ReplaceKeepsBookingTable | WaracleTestAPI/WaracleTestAPI/Repositories/BookingRepository.cs:68-69 | overwriting a row with values the database accepts keeps the Booking table valid |
| BookingRepo.AppendKeepsBookingTable | WaracleTestAPI/WaracleTestAPI/Repositories/BookingRepository.cs:58-59 | appending a row with the next key, a free number and an existing room keeps the Booking table valid |
| BookingRepo.RemoveAtRemovesKey | WaracleTestAPI/WaracleTestAPI/Repositories/BookingRepository.cs:75-80 | with unique keys, removing the row found by its key leaves no row with that key |
| BookingRepo.RemoveAtRemovesNumber | WaracleTestAPI/WaracleTestAPI/Repositories/BookingRepository.cs:86-93 | with unique numbers, removing the row found by its number leaves the number free |
| BookingSvc.Attempted | WaracleTestAPI/WaracleTestAPI/Services/BookingService.cs:125-132 | the capped generator reaches at most the first ten draws |
| BookingSvc.CreateRequestError | WaracleTestAPI/WaracleTestAPI/Services/BookingService.cs:29-54 | no error exactly when the dates are ordered, check-in is after today, the room exists, the party is between 1 and the room's capacity, and no booking of the room overlaps; only the overlap error is not an argument error |
| BookingSvc.CreationChecksInOrder | WaracleTestAPI/WaracleTestAPI/Services/BookingService.cs:29-54 | each error is reported only when every earlier check passed: dates, then the past, then the room, then capacity before the lower bound, with the overlap last; the capacity error carries the requested count and the capacity |
| BookingSvc.CapacityBoundary | WaracleTestAPI/WaracleTestAPI/Services/BookingService.cs:41-45 | a party exactly the room's capacity passes the capacity check, and one guest more fails it with both numbers |
| BookingSvc.SearchAgreesWithCreation | WaracleTestAPI/WaracleTestAPI/Services/BookingService.cs:36-54 | with valid dates and party size, the availability search finds a room exactly when booking that room passes every creation check |
| BookingSvc.BookableRoomIsFound | WaracleTestAPI/WaracleTestAPI/Services/BookingService.cs:36-54 | a request that passes every check names a room the search returns |
| BookingSvc.FoundRoomIsBookable | WaracleTestAPI/WaracleTestAPI/Services/BookingService.cs:36-54 | a room the search returns passes every creation check |
| BookingSvc.CreateOutcome | WaracleTestAPI/WaracleTestAPI/Services/BookingService.cs:26-77 | no contract of its own; it is the specification of creation, and `CreateOutcomeWritesOnlyWhenAdmitted`, `CreateOutcomeEchoesRequest` and `CreateOutcomeKeepsTables` state its properties |
| BookingSvc.AdmittedOutcome | WaracleTestAPI/WaracleTestAPI/Services/BookingService.cs:56-76 | once the checks pass and a free number is drawn, that number is free and the room exists, so the write is accepted and the outcome is the appended booking |
| BookingSvc.CreateOutcomeWritesOnlyWhenAdmitted | WaracleTestAPI/WaracleTestAPI/Services/BookingService.cs:26-77 | creation succeeds exactly when every check passes and a free number is found; a failure reports the first broken check, or the exhausted generator, and leaves the table as it was; a success adds exactly one row after the existing ones |
| BookingSvc.CreateOutcomeEchoesRequest | WaracleTestAPI/WaracleTestAPI/Services/BookingService.cs:64-76 | a booked request comes back with every field of the request, the creation time, the next key and a well-formed number no earlier booking had, and the row added is the booking returned |
| BookingSvc.CreateOutcomeKeepsTables | WaracleTestAPI/WaracleTestAPI/Services/BookingService.cs:47-69 | creation keeps the Booking table valid, keeps every room free of double bookings and keeps every party within its room's capacity |
| BookingSvc.AdmittedBookingKeepsTables | WaracleTestAPI/WaracleTestAPI/Services/BookingService.cs:47-69 | a booking that passed the checks, stored under a free number and the next key, keeps the table valid, free of double bookings and within capacity |
| BookingSvc.BookingService.constructor | WaracleTestAPI/WaracleTestAPI/Services/BookingService.cs:12-16 | the service works on the repositories it is given |
| BookingSvc.BookingService.CreateBooking | WaracleTestAPI/WaracleTestAPI/Services/BookingService.cs:26-77 | the answer and the Booking table afterwards are exactly those `CreateOutcome` specifies, the next key advances by the number of rows added, and the store stays valid |
| BookingSvc.BookingService.CheckRequest | WaracleTestAPI/WaracleTestAPI/Services/BookingService.cs:28-54 | the guard chain, run against the repositories, reports exactly the error `CreateRequestError` specifies |
| BookingSvc.BookingService.RecordBooking | WaracleTestAPI/WaracleTestAPI/Services/BookingService.cs:59-76 | with a free number and an existing room, the repeated existence check and the failed read-back cannot happen; exactly one booking is appended and returned fully loaded |
| BookingSvc.BookingService.GenerateUniqueBookingNumber | WaracleTestAPI/WaracleTestAPI/Services/BookingService.cs:122-147 | the first free candidate among at most ten draws, or the exhausted-generator error when there is none |
| BookingSvc.BookingService.GetBookingByNumber | WaracleTestAPI/WaracleTestAPI/Services/BookingService.cs:84-91 | nothing for a blank number; otherwise something exactly when the number is taken, and then the DTO of that loaded booking |
| BookingSvc.BookingService.GetBookingsByRoomId | WaracleTestAPI/WaracleTestAPI/Services/BookingService.cs:98-102 | the repository's result mapped to DTOs position by position: every DTO is the DTO of a stored booking of the room, every booking of the room is there, in check-in order |
| BookingSvc.BookingService.DeleteBooking | WaracleTestAPI/WaracleTestAPI/Services/BookingService.cs:109-115 | false and no change for a blank number; otherwise the repository's delete by number, after which the number is free |
| BookingSvc.RoomTypeLoaded | WaracleTestAPI/WaracleTestAPI/Services/BookingService.cs:36-42 | under the foreign keys, a room found by its key always has its room type loaded, so dereferencing its capacity is safe |
| BookingSvc.RoomBookingDtos | WaracleTestAPI/WaracleTestAPI/Services/BookingService.cs:100-101 | mapping the room's sorted bookings keeps the room id, every booking, the check-in order, and yields only DTOs of stored bookings |
| Mapping.HotelToDto | WaracleTestAPI/WaracleTestAPI/Utilities/MappingExtensions.cs:9-18 | the id, name and address are copied, and the rooms are mapped one by one, or are empty when the collection is null |
| Mapping.SearchDtoIsDtoWithoutRooms | WaracleTestAPI/WaracleTestAPI/Utilities/MappingExtensions.cs:20-28 | the search projection agrees with the full projection on the id, name and address |
| Mapping.ToSearchDtos | WaracleTestAPI/WaracleTestAPI/Utilities/MappingExtensions.cs:92-95 | the length is kept and each hotel is mapped in place |
| Mapping.HotelToSearchDto | WaracleTestAPI/WaracleTestAPI/Utilities/MappingExtensions.cs:20-28 | no contract of its own; `SearchDtoIsDtoWithoutRooms` states it |
| Mapping.RoomToDto | WaracleTestAPI/WaracleTestAPI/Utilities/MappingExtensions.cs:31-43 | no contract of its own; `RoomDtoCapacity` and `AvailableRoomDtoAgrees` state it |
| Mapping.ToAvailableRoomDto | WaracleTestAPI/WaracleTestAPI/Utilities/MappingExtensions.cs:45-57 | no contract of its own; `AvailableRoomDtoAgrees` and `RoomDtoCapacity` state it |
| Mapping.BookingToDto | WaracleTestAPI/WaracleTestAPI/Utilities/MappingExtensions.cs:60-76 | no contract of its own; `BookingDtoCopies` and `RequestRoundTrip` state it |
| Mapping.ToModel | WaracleTestAPI/WaracleTestAPI/Utilities/MappingExtensions.cs:78-89 | no contract of its own; `RequestRoundTrip` states it |
| Mapping.RequestRoundTrip | WaracleTestAPI/WaracleTestAPI/Utilities/MappingExtensions.cs:78-89 | `ToModel` followed by `ToDto` gives back the room id, both dates, the guest count and the guest name of the request, with the creation time it was stamped with |
| Mapping.BookingDtoCopies | WaracleTestAPI/WaracleTestAPI/Utilities/MappingExtensions.cs:60-76 | the booking's own fields are copied unchanged, and the room number, hotel name and room type name are `""` when their navigation data is missing |
| Mapping.RoomDtoCapacity | WaracleTestAPI/WaracleTestAPI/Utilities/MappingExtensions.cs:31-57 | the capacity shown is the room type's, or 0 without a loaded type, the same in both room projections |
| Mapping.AvailableRoomDtoAgrees | WaracleTestAPI/WaracleTestAPI/Utilities/MappingExtensions.cs:45-57 | the room id, hotel id and room number are copied unchanged, the names agree with the plain room DTO, and a missing hotel gives `""` name and address |
| Mapping.ToRoomDtos | WaracleTestAPI/WaracleTestAPI/Utilities/MappingExtensions.cs:97-100 | the length and order are kept and each room is mapped in place |
| Mapping.ToAvailableRoomDtos | WaracleTestAPI/WaracleTestAPI/Utilities/MappingExtensions.cs:102-105 | the length and order are kept and each room is mapped in place |
| Mapping.ToBookingDtos | WaracleTestAPI/WaracleTestAPI/Utilities/MappingExtensions.cs:107-110 | the length and order are kept and each booking is mapped in place |
| RoomRepo.RoomOrdersAreTotal | WaracleTestAPI/WaracleTestAPI/Repositories/RoomRepository.cs:43-44 | ordering by room number, and by hotel name then room number, are total preorders |
| RoomRepo.HasClash | WaracleTestAPI/WaracleTestAPI/Repositories/RoomRepository.cs:41-42 | the room side's overlap test holds exactly when the booking store's test, with no booking excluded, finds a conflicting booking of the room |
| RoomRepo.RoomsOfHotel | WaracleTestAPI/WaracleTestAPI/Repositories/RoomRepository.cs:26-29 | each loaded room of the hotel occurs as often as in the loaded table, every other room not at all; hence exactly the hotel's rooms, loaded |
| RoomRepo.RoomsOfHotelMembers | WaracleTestAPI/WaracleTestAPI/Repositories/RoomRepository.cs:26-29 | a filter with those multiplicities keeps only rooms of the hotel, each a loaded stored room, and keeps every loaded room of the hotel |
| RoomRepo.RoomsOfHotelOrdered | WaracleTestAPI/WaracleTestAPI/Repositories/RoomRepository.cs:29-30 | sorting the hotel's loaded rooms by room number keeps each of them exactly as often and yields room-number order |
| RoomRepo.FilterRooms | WaracleTestAPI/WaracleTestAPI/Repositories/RoomRepository.cs:39-42 | the three filters in sequence keep each room that passes all three as often as the input holds it, and no other room |
| RoomRepo.AvailableRooms | WaracleTestAPI/WaracleTestAPI/Repositories/RoomRepository.cs:36-42 | each loaded room passing the three filters occurs as often as in the loaded table, no other room; every room kept seats the party, lies in the requested hotel and is available by the table rule; with unique room type keys every available room is kept |
| RoomRepo.LoadedRoomIsAvailable | WaracleTestAPI/WaracleTestAPI/Repositories/RoomRepository.cs:39-42 | a loaded room that passes the three filters is available by the table rule |
| RoomRepo.AvailableRoomsSound | WaracleTestAPI/WaracleTestAPI/Repositories/RoomRepository.cs:36-42 | every room a filter with those multiplicities keeps seats the party, lies in the requested hotel, and is some room of the table, loaded, that is available |
| RoomRepo.AvailableRoomsComplete | WaracleTestAPI/WaracleTestAPI/Repositories/RoomRepository.cs:36-42 | with unique room type keys, every available room of the table is kept by a filter with those multiplicities |
| RoomRepo.RoomRepository.constructor | WaracleTestAPI/WaracleTestAPI/Repositories/RoomRepository.cs:11-14 | the repository works on the context it is given |
| RoomRepo.RoomRepository.GetRoomById | WaracleTestAPI/WaracleTestAPI/Repositories/RoomRepository.cs:16-22 | nothing exactly when no room has that key; otherwise that room with its hotel and room type loaded |
| RoomRepo.RoomRepository.GetRoomsByHotelId | WaracleTestAPI/WaracleTestAPI/Repositories/RoomRepository.cs:24-32 | every loaded room of the hotel, as many times as the table holds it, and nothing else, sorted by room number |
| RoomRepo.RoomRepository.GetAvailableRooms | WaracleTestAPI/WaracleTestAPI/Repositories/RoomRepository.cs:34-46 | every loaded room passing the three filters, as often as the table holds it, and nothing else; sound: each seats the party, lies in the requested hotel and has no overlapping booking; complete: on a valid store every such room is returned; sorted by hotel name, then room number |
| RoomRepo.RoomRepository.RoomExists | WaracleTestAPI/WaracleTestAPI/Repositories/RoomRepository.cs:73-76 | true exactly when some room has that key |
| RoomRepo.RoomRepository.CreateRoom | WaracleTestAPI/WaracleTestAPI/Repositories/RoomRepository.cs:48-53 | a room with an existing hotel and room type and a room number new in its hotel is appended under the next key and returned; otherwise the write fails and nothing changes; the store stays valid |
| RoomRepo.RoomRepository.UpdateRoom | WaracleTestAPI/WaracleTestAPI/Repositories/RoomRepository.cs:55-60 | an unset key adds the room as a create does, and a refused add leaves the table and the next key unchanged; a key no row has fails as a concurrency conflict; otherwise the row is overwritten, or the write fails and nothing changes when a constraint would break |
| RoomRepo.RoomRepository.DeleteRoom | WaracleTestAPI/WaracleTestAPI/Repositories/RoomRepository.cs:62-71 | true exactly when the room existed; then that room and all of its bookings are removed and the rest kept; false changes nothing; afterwards the room does not exist and no booking refers to it |
| RoomRepo.AppendKeepsTables | WaracleTestAPI/WaracleTestAPI/Repositories/RoomRepository.cs:50-51 | appending an acceptable room under the next key keeps both tables valid |
| RoomRepo.ReplaceKeepsTables | WaracleTestAPI/WaracleTestAPI/Repositories/RoomRepository.cs:57-58 | overwriting a room with acceptable values, under the same key, keeps both tables valid |
| RoomRepo.DeleteKeepsTables | WaracleTestAPI/WaracleTestAPI/Repositories/RoomRepository.cs:68-69 | removing a room together with its bookings keeps both tables valid and leaves no room with that key |
| RoomRepo.RemoveAtKeepsRoomTable | WaracleTestAPI/WaracleTestAPI/Repositories/RoomRepository.cs:68-69 | removing a room keeps the Room table valid and leaves no room with its key |
| RoomRepo.CascadeKeepsBookingTable | WaracleTestAPI/WaracleTestAPI/Data/HotelBookingDbContext.cs:89-92 | the bookings that survive the cascading delete still have unique keys and numbers and refer only to remaining rooms |
| RoomSvc.SearchRequestError | WaracleTestAPI/WaracleTestAPI/Services/RoomService.cs:28-35 | no error exactly when the dates are ordered, check-in is after today and at least one guest is asked for; otherwise the first broken check, in that order, and always an argument error |
| RoomSvc.RoomService.constructor | WaracleTestAPI/WaracleTestAPI/Services/RoomService.cs:11-14 | the service works on the repository it is given |
| RoomSvc.RoomService.GetAvailableRooms | WaracleTestAPI/WaracleTestAPI/Services/RoomService.cs:25-39 | fails exactly when a request check breaks, with that error; otherwise the repository's result mapped in place, possibly empty, every DTO seating the party in the requested hotel with an available room, sorted by hotel name and room number |
| RoomSvc.RoomService.GetRoomById | WaracleTestAPI/WaracleTestAPI/Services/RoomService.cs:46-50 | nothing exactly when the room is absent; otherwise the DTO of that loaded room |
| RoomSvc.RoomService.GetRoomsByHotelId | WaracleTestAPI/WaracleTestAPI/Services/RoomService.cs:57-61 | the repository's result mapped to DTOs position by position: every DTO is the DTO of a stored room of the hotel, every room of the hotel is there, in room-number order |
| RoomSvc.AvailableDtos | WaracleTestAPI/WaracleTestAPI/Services/RoomService.cs:37-38 | mapping the search result keeps the capacity bound, the hotel filter, availability and the order |
| RoomSvc.HotelRoomDtos | WaracleTestAPI/WaracleTestAPI/Services/RoomService.cs:59-60 | mapping the hotel's sorted rooms keeps the hotel, every room, the room-number order, and yields only DTOs of stored rooms |

## Left out

- Asynchrony and concurrency: every call is synchronous and there is a single writer. The race between the overlap check and the insert in `CreateBookingAsync` is not modelled.
- The clock and the random source are parameters:
  - `DateTime.Today` is a day number;
  - `DateTime.UtcNow` is one tick count, used for both of the source's writes of `CreatedAt`;
  - each generator attempt's `DateTime.Now` date and random roll form one `Draw`.
- BookingRepo.BookingRepository.GenerateUniqueBookingNumber: over a finite sequence of draws it returns `None` once the draws run out, where the source would keep drawing. It does not model non-termination.
- BookingSvc.BookingService.GenerateUniqueBookingNumber: when fewer than ten draws are supplied and all are taken, it fails early with the exhausted-generator error.
- Dates and times are tick counts. Time zones and `DateTimeKind` are not modelled. `DateTime.Now` yields any calendar date with a year in 1..9999, a month in 1..12 and a day in 1..31; calendar validity of the day is not checked.
- String comparison is ordinal and exact. The database collation is not modelled: SQL Server, the provider the application configures (`WaracleTestAPI/WaracleTestAPI/Program.cs:28`), ignores trailing spaces in `=` and, under a case-insensitive collation, case. This affects:
  - the `OrderBy` over hotel names and room numbers;
  - the lookups by booking number (`GetBookingByNumber`, `DeleteBookingByNumber`, `BookingExists`);
  - both unique indexes, on `BookingNumber` and on (`HotelId`, `RoomNumber`).
- Strings are never null. `string.IsNullOrWhiteSpace` is modelled for non-null strings only.
- BookingRepo.BookingRepository.CreateBooking: the key is always the store's next identity value. A key set by the caller is ignored, and navigation objects attached to the added entity are not inserted.
- RoomRepo.RoomRepository.CreateRoom: as for bookings, the key is always the store's next identity value.
- RoomRepo.RoomRepository.GetAvailableRooms: completeness is stated for a valid store, since unique room type keys are what make the loaded type the room's own.
- The unique indexes on hotel and room type names are not modelled. The core never writes hotels or room types.
- The room type's `Restrict` delete rule and the hotel's cascading delete are not modelled, for the same reason. The cascade from a room to its bookings is modelled.
- Data-annotation ranges on the models and DTOs (`GuestCount`, `Capacity`, string lengths) are not enforced. They are checked by the framework, not by this code; the creation checks are modelled as written.
- `DateTimeConverter.cs` is not part of this model (culture-dependent parsing).
- The controllers, `DataRepository.cs`, `DataService.cs`, `HotelRepository.cs`, `HotelService.cs` and both `Program.cs` files are not part of this model (transport, raw SQL, plain lookups, hosting).
