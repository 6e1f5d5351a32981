/**
 * The in-memory store behind the booking API (`MemStorage`): four tables keyed by
 * numeric id, each with its own id counter that starts at 1 and only grows. The
 * store is seeded with one administrator and four rooms.
 *
 * Listing a table follows the insertion order of the JavaScript `Map` behind it.
 * Ids come from the counter, re-setting an existing key keeps its place and a
 * deleted id is never handed out again, so that order is ascending id order:
 * every listing below is `InIdOrder(table, counter)`.
 *
 * The clock is a parameter: `now` is the current instant, `dayStart` the midnight
 * that starts the day of the `date` argument, `todayStart` the midnight of the
 * current day.
 */
module Storage {
  import opened Collections
  import opened Schema

  // ---------------------------------------------------------------------------
  // Callbacks given to `filter`, `find`, `some` and `sort`

  function IsActiveRoom(r: Room): bool { r.isActive }

  function UserId(u: User): int { u.id }

  function HasUsername(username: string): User -> bool { (u: User) => u.username == username }

  function HasEmail(email: string): User -> bool { (u: User) => u.email == email }

  function OnRoom(roomId: int): Booking -> bool { (b: Booking) => b.roomId == roomId }

  function InWindow(startDate: int, endDate: int): Booking -> bool
  {
    (b: Booking) => b.startTime < endDate && b.endTime > startDate
  }

  function ConfirmedOnRoomExcept(roomId: int, exclude: Option<int>): Booking -> bool
  {
    (b: Booking) => b.roomId == roomId && IsConfirmed(b) && exclude != Some(b.id)
  }

  function OverlapsSlot(startTime: int, endTime: int): Booking -> bool
  {
    (b: Booking) => Overlaps(b, startTime, endTime)
  }

  function OngoingAt(now: int): Booking -> bool
  {
    (b: Booking) => b.startTime <= now && b.endTime > now && IsConfirmed(b)
  }

  function StartsAfter(now: int): Booking -> bool
  {
    (b: Booking) => b.startTime > now && IsConfirmed(b)
  }

  function StartOf(b: Booking): int { b.startTime }

  function OfUser(userId: int): BookingWithDetails -> bool { (d: BookingWithDetails) => d.booking.userId == userId }

  function StartsOnDay(dayStart: int): BookingWithDetails -> bool
  {
    (d: BookingWithDetails) => dayStart <= d.booking.startTime < dayStart + END_OF_DAY_OFFSET
  }

  function DetailsStart(d: BookingWithDetails): int { d.booking.startTime }

  function IsConfirmedDetails(d: BookingWithDetails): bool { IsConfirmed(d.booking) }

  function ConfirmedOnDay(dayStart: int): BookingWithDetails -> bool
  {
    (d: BookingWithDetails) => IsConfirmed(d.booking) && dayStart <= d.booking.startTime < dayStart + END_OF_DAY_OFFSET
  }

  function CostOf(d: BookingWithDetails): int { d.booking.totalCost }

  function IsAvailable(s: RoomWithStatus): bool { s.isAvailable }

  /** An active room that is free at `now` according to the bookings `bs`. */
  function AvailableIn(bs: seq<Booking>, now: int, dayStart: int): Room -> bool
  {
    (room: Room) => room.isActive && StatusOf(room, bs, now, dayStart).isAvailable
  }

  /** Sorting by `Recency` puts the newest activity first. */
  function Recency(a: Activity): int { -a.createdAt }

  // ---------------------------------------------------------------------------
  // Facts about single bookings, used to state the contracts

  /** A booking that makes an availability query for this slot answer false. */
  predicate Blocks(b: Booking, roomId: int, startTime: int, endTime: int, exclude: Option<int>)
  {
    b.roomId == roomId && IsConfirmed(b) && exclude != Some(b.id) && Overlaps(b, startTime, endTime)
  }

  /** The booking meets the day window `[dayStart, dayStart + 23:59:59.999]`. */
  predicate MeetsDay(b: Booking, dayStart: int)
  {
    b.startTime < dayStart + END_OF_DAY_OFFSET && b.endTime > dayStart
  }

  /** A confirmed booking of the room, meeting the day, that is under way at `now`. */
  predicate OccupiesAt(b: Booking, roomId: int, now: int, dayStart: int)
  {
    b.roomId == roomId && MeetsDay(b, dayStart) && b.startTime <= now && b.endTime > now && IsConfirmed(b)
  }

  /** A confirmed booking of the room, meeting the day, that starts after `now`. */
  predicate UpcomingAt(b: Booking, roomId: int, now: int, dayStart: int)
  {
    b.roomId == roomId && MeetsDay(b, dayStart) && b.startTime > now && IsConfirmed(b)
  }

  /** A confirmed booking starting on the day whose room and user both exist. */
  predicate BookedOnDay(b: Booking, rooms: map<int, Room>, users: map<int, User>, dayStart: int)
  {
    b.roomId in rooms && b.userId in users && IsConfirmed(b)
    && dayStart <= b.startTime < dayStart + END_OF_DAY_OFFSET
  }

  function BookedOnDayIn(rooms: map<int, Room>, users: map<int, User>, dayStart: int): Booking -> bool
  {
    (b: Booking) => BookedOnDay(b, rooms, users, dayStart)
  }

  /** `d` joins its booking with the booking's room and user as they are stored. */
  predicate Resolves(d: BookingWithDetails, rooms: map<int, Room>, users: map<int, User>)
  {
    d.booking.roomId in rooms && d.booking.userId in users
    && d.room == rooms[d.booking.roomId] && d.user == users[d.booking.userId]
  }

  // ---------------------------------------------------------------------------
  // Joining bookings with their room and user

  /** The bookings of `s`, in order, joined with room and user; a booking whose room or user is missing is dropped. */
  function WithDetails(s: seq<Booking>, rooms: map<int, Room>, users: map<int, User>): (r: seq<BookingWithDetails>)
    ensures |r| <= |s|
    ensures forall d :: d in r <==> d.booking in s && Resolves(d, rooms, users)
  {
    if s == [] then []
    else
      var init, b := s[..|s| - 1], s[|s| - 1];
      assert s == init + [b];
      var prev := WithDetails(init, rooms, users);
      var tail := if b.roomId in rooms && b.userId in users
        then [BookingWithDetails(b, rooms[b.roomId], users[b.userId])] else [];
      prev + tail
  }

  /** Counting joined bookings that pass `p` is counting bookings that resolve and whose join passes `p`. */
  lemma {:induction false} WithDetailsCount(
    s: seq<Booking>, rooms: map<int, Room>, users: map<int, User>,
    p: BookingWithDetails -> bool, q: Booking -> bool)
    requires forall b :: q(b) == (b.roomId in rooms && b.userId in users
                                  && p(BookingWithDetails(b, rooms[b.roomId], users[b.userId])))
    ensures |Filter(WithDetails(s, rooms, users), p)| == |Filter(s, q)|
  {
    if s != [] {
      var init, b := s[..|s| - 1], s[|s| - 1];
      assert s == init + [b];
      WithDetailsCount(init, rooms, users, p, q);
      FilterSnoc(init, b, q);
      var tail := if b.roomId in rooms && b.userId in users
        then [BookingWithDetails(b, rooms[b.roomId], users[b.userId])] else [];
      assert WithDetails(s, rooms, users) == WithDetails(init, rooms, users) + tail;
      FilterAppend(WithDetails(init, rooms, users), tail, p);
      if tail != [] {
        FilterSnoc([], tail[0], p);
        assert [] + [tail[0]] == tail;
      }
    }
  }

  /** `futureBookings[0]`: sort the confirmed bookings of `s` that start after `now` by start time, and take the first. */
  function NextBooking(s: seq<Booking>, now: int): Option<Booking>
  {
    var future := SortBy(Filter(s, StartsAfter(now)), StartOf);
    if |future| > 0 then Some(future[0]) else None
  }

  /** The next booking is the earliest-starting confirmed booking of `s` after `now`; none exactly when there is no such booking. */
  lemma NextBookingSpec(s: seq<Booking>, now: int)
    ensures var r := NextBooking(s, now);
      && (r.None? <==> forall b :: b in s ==> !(b.startTime > now && IsConfirmed(b)))
      && (r.Some? ==> r.value in s && r.value.startTime > now && IsConfirmed(r.value))
      && (r.Some? ==> forall b :: b in s && b.startTime > now && IsConfirmed(b) ==> r.value.startTime <= b.startTime)
  {
    var upcoming := Filter(s, StartsAfter(now));
    var future := SortBy(upcoming, StartOf);
    SortBySpec(upcoming, StartOf);
    PermutationMembers(future, upcoming);
    SortedHeadIsLeast(future, StartOf);
  }

  /** `roomBookings.find(...)` for the booking under way at `now`. */
  function OngoingBooking(s: seq<Booking>, now: int): Option<Booking>
  {
    Find(s, OngoingAt(now))
  }

  /** `getBookingsByRoom` over the listed bookings `bs`. */
  function BookingsOfRoom(bs: seq<Booking>, roomId: int, startDate: Option<int>, endDate: Option<int>): seq<Booking>
  {
    var ofRoom := Filter(bs, OnRoom(roomId));
    if startDate.Some? && endDate.Some? then Filter(ofRoom, InWindow(startDate.value, endDate.value))
    else ofRoom
  }

  /** A room's bookings are those of `bs` on the room; the window applies only when both bounds are given. */
  lemma BookingsOfRoomMembers(bs: seq<Booking>, roomId: int, startDate: Option<int>, endDate: Option<int>)
    ensures forall b :: b in BookingsOfRoom(bs, roomId, startDate, endDate) <==> (
      && b in bs && b.roomId == roomId
      && (startDate.Some? && endDate.Some? ==> b.startTime < endDate.value && b.endTime > startDate.value))
  {
  }

  /** `currentBooking`, over the listed bookings `bs`. */
  function CurrentBooking(bs: seq<Booking>, roomId: int, now: int, dayStart: int): Option<Booking>
  {
    OngoingBooking(BookingsOfRoom(bs, roomId, Some(dayStart), Some(dayStart + END_OF_DAY_OFFSET)), now)
  }

  /** The current booking is one of `bs` that occupies the room at `now`; there is none exactly when no booking does. */
  lemma CurrentBookingSpec(bs: seq<Booking>, roomId: int, now: int, dayStart: int)
    ensures var r := CurrentBooking(bs, roomId, now, dayStart);
      && (r.Some? ==> r.value in bs && OccupiesAt(r.value, roomId, now, dayStart))
      && (r.None? <==> forall b :: b in bs ==> !OccupiesAt(b, roomId, now, dayStart))
  {
    BookingsOfRoomMembers(bs, roomId, Some(dayStart), Some(dayStart + END_OF_DAY_OFFSET));
    assert CurrentBooking(bs, roomId, now, dayStart)
        == Find(BookingsOfRoom(bs, roomId, Some(dayStart), Some(dayStart + END_OF_DAY_OFFSET)), OngoingAt(now));
  }

  /** `nextBooking`, over the listed bookings `bs`. */
  function UpcomingBooking(bs: seq<Booking>, roomId: int, now: int, dayStart: int): Option<Booking>
  {
    NextBooking(BookingsOfRoom(bs, roomId, Some(dayStart), Some(dayStart + END_OF_DAY_OFFSET)), now)
  }

  /**
   * The next booking is the earliest-starting booking of `bs` that is upcoming for the
   * room; there is none exactly when no booking is upcoming.
   */
  lemma UpcomingBookingSpec(bs: seq<Booking>, roomId: int, now: int, dayStart: int)
    ensures var r := UpcomingBooking(bs, roomId, now, dayStart);
      && (r.Some? ==> r.value in bs && UpcomingAt(r.value, roomId, now, dayStart))
      && (r.Some? ==> forall b :: b in bs && UpcomingAt(b, roomId, now, dayStart) ==> r.value.startTime <= b.startTime)
      && (r.None? <==> forall b :: b in bs ==> !UpcomingAt(b, roomId, now, dayStart))
  {
    BookingsOfRoomMembers(bs, roomId, Some(dayStart), Some(dayStart + END_OF_DAY_OFFSET));
    NextBookingSpec(BookingsOfRoom(bs, roomId, Some(dayStart), Some(dayStart + END_OF_DAY_OFFSET)), now);
  }

  /** One entry of `getRoomsWithStatus`, computed over the listed bookings `bs`. */
  function StatusOf(room: Room, bs: seq<Booking>, now: int, dayStart: int): (s: RoomWithStatus)
    ensures s.room == room
  {
    var current := CurrentBooking(bs, room.id, now, dayStart);
    RoomWithStatus(room, current.None?, current, UpcomingBooking(bs, room.id, now, dayStart))
  }

  function StatusIn(bs: seq<Booking>, now: int, dayStart: int): Room -> RoomWithStatus
  {
    (room: Room) => StatusOf(room, bs, now, dayStart)
  }

  /** The `for (const room of rooms)` loop of `getRoomsWithStatus`, one room at a time. */
  method EachStatus(rs: seq<Room>, bs: seq<Booking>, now: int, dayStart: int) returns (result: seq<RoomWithStatus>)
    ensures result == MapSeq(rs, StatusIn(bs, now, dayStart))
  {
    var status := StatusIn(bs, now, dayStart);
    result := [];
    var i := 0;
    while i < |rs|
      invariant 0 <= i <= |rs|
      invariant result == MapSeq(rs[..i], status)
    {
      assert rs[..i + 1][..i] == rs[..i];
      result := result + [status(rs[i])];
      i := i + 1;
    }
    assert rs[..|rs|] == rs;
  }

  // ---------------------------------------------------------------------------
  // The store's state and its invariant

  /** Every field of the store, so that a contract can say that nothing else changed. */
  datatype Tables = Tables(
    users: map<int, User>, rooms: map<int, Room>, bookings: map<int, Booking>,
    activities: map<int, Activity>,
    nextUserId: nat, nextRoomId: nat, nextBookingId: nat, nextActivityId: nat)

  /** No two distinct confirmed bookings of one room overlap. */
  ghost predicate NoOverlap(bookings: map<int, Booking>)
  {
    forall i, j :: i in bookings && j in bookings && i != j
      && IsConfirmed(bookings[i]) && IsConfirmed(bookings[j])
      && bookings[i].roomId == bookings[j].roomId
      ==> !Overlaps(bookings[i], bookings[j].startTime, bookings[j].endTime)
  }

  function SeedUser(now: int): User
  {
    User(1, "johndoe", "password123", "admin", "John Doe", "john@example.com", now)
  }

  // Image URLs and descriptions of the seeded rooms.
  const CONFERENCE_A_IMAGE: string :=
    "https://images.unsplash.com/photo-1497366216548-37526070297c?ixlib=rb-4.0.3&auto=format&fit=crop&w=120&h=80"
  const CONFERENCE_A_DESCRIPTION: string := "Large conference room with modern amenities"
  const MEETING_B_IMAGE: string :=
    "https://images.unsplash.com/photo-1560472354-b33ff0c44a43?ixlib=rb-4.0.3&auto=format&fit=crop&w=120&h=80"
  const MEETING_B_DESCRIPTION: string := "Cozy meeting room perfect for small teams"
  const EVENT_C_IMAGE: string :=
    "https://images.unsplash.com/photo-1511578314322-379afb476865?ixlib=rb-4.0.3&auto=format&fit=crop&w=120&h=80"
  const EVENT_C_DESCRIPTION: string := "Large event space for presentations and gatherings"
  const HUDDLE_D_IMAGE: string :=
    "https://images.unsplash.com/photo-1542744173-05336fcc7ad4?ixlib=rb-4.0.3&auto=format&fit=crop&w=120&h=80"
  const HUDDLE_D_DESCRIPTION: string := "Small huddle room for quick meetings"

  function SeedRooms(now: int): map<int, Room>
  {
    map[
      1 := Room(1, "Conference Room A", 12, "conference", ["Projector", "Whiteboard", "WiFi"], 5000,
                Some(CONFERENCE_A_IMAGE), Some(CONFERENCE_A_DESCRIPTION), true, now),
      2 := Room(2, "Meeting Room B", 6, "meeting", ["Video Conf", "Screen"], 3000,
                Some(MEETING_B_IMAGE), Some(MEETING_B_DESCRIPTION), true, now),
      3 := Room(3, "Event Space C", 50, "event", ["Sound System", "Stage", "Catering"], 15000,
                Some(EVENT_C_IMAGE), Some(EVENT_C_DESCRIPTION), true, now),
      4 := Room(4, "Huddle Room D", 4, "huddle", ["Monitor", "Cozy"], 2000,
                Some(HUDDLE_D_IMAGE), Some(HUDDLE_D_DESCRIPTION), true, now)
    ]
  }

  /** The seeded rooms are stored under their own ids 1 to 4. */
  lemma SeedRoomsKeys(now: int)
    ensures SeedRooms(now).Keys == {1, 2, 3, 4}
    ensures forall id :: id in SeedRooms(now) ==> SeedRooms(now)[id].id == id && SeedRooms(now)[id].isActive
  {
  }

  class MemStorage {
    var users: map<int, User>
    var rooms: map<int, Room>
    var bookings: map<int, Booking>
    var activities: map<int, Activity>
    var currentUserId: nat
    var currentRoomId: nat
    var currentBookingId: nat
    var currentActivityId: nat

    /** Each record is stored under its own id, and every id is positive and below its table's counter. */
    ghost predicate Valid()
      reads this
    {
      && 1 <= currentUserId && 1 <= currentRoomId && 1 <= currentBookingId && 1 <= currentActivityId
      && KeysBelow(users, currentUserId) && KeysBelow(rooms, currentRoomId)
      && KeysBelow(bookings, currentBookingId) && KeysBelow(activities, currentActivityId)
      && (forall id :: id in users ==> 1 <= id && users[id].id == id)
      && (forall id :: id in rooms ==> 1 <= id && rooms[id].id == id)
      && (forall id :: id in bookings ==> 1 <= id && bookings[id].id == id)
      && (forall id :: id in activities ==> 1 <= id && activities[id].id == id)
    }

    ghost function State(): Tables
      reads this
    {
      Tables(users, rooms, bookings, activities,
             currentUserId, currentRoomId, currentBookingId, currentActivityId)
    }

    /** A new store holds the seeded administrator and the four seeded rooms, and nothing else. */
    constructor (now: int)
      ensures Valid()
      ensures users == map[1 := SeedUser(now)] && rooms == SeedRooms(now)
      ensures bookings == map[] && activities == map[]
      ensures currentUserId == 2 && currentRoomId == 5 && currentBookingId == 1 && currentActivityId == 1
    {
      SeedRoomsKeys(now);
      users := map[1 := SeedUser(now)];
      rooms := SeedRooms(now);
      bookings := map[];
      activities := map[];
      currentUserId := 2;
      currentRoomId := 5;
      currentBookingId := 1;
      currentActivityId := 1;
    }

    // -------------------------------------------------------------------------
    // Table listings, in insertion (= id) order

    function UserList(): (r: seq<User>)
      reads this
      requires Valid()
      ensures forall u :: u in r <==> u in users.Values
    {
      InIdOrderValues(users, currentUserId);
      InIdOrder(users, currentUserId)
    }

    function RoomList(): (r: seq<Room>)
      reads this
      requires Valid()
      ensures forall x :: x in r <==> x in rooms.Values
    {
      InIdOrderValues(rooms, currentRoomId);
      InIdOrder(rooms, currentRoomId)
    }

    function BookingList(): (r: seq<Booking>)
      reads this
      requires Valid()
      ensures forall b :: b in r <==> b in bookings.Values
    {
      InIdOrderValues(bookings, currentBookingId);
      InIdOrder(bookings, currentBookingId)
    }

    function ActivityList(): (r: seq<Activity>)
      reads this
      requires Valid()
      ensures forall a :: a in r <==> a in activities.Values
      ensures |r| == |activities|
    {
      InIdOrderValues(activities, currentActivityId);
      InIdOrderLength(activities, currentActivityId);
      InIdOrder(activities, currentActivityId)
    }

    // -------------------------------------------------------------------------
    // Users

    function GetUser(id: int): (r: Option<User>)
      reads this
      requires Valid()
      ensures r.Some? <==> id in users
      ensures r.Some? ==> r.value == users[id] && r.value.id == id
    {
      if id in users then Some(users[id]) else None
    }

    /** The first user, in insertion order, with this username; none exactly when no user has it. */
    function GetUserByUsername(username: string): (r: Option<User>)
      reads this
      requires Valid()
      ensures r.Some? ==> r.value in users.Values && r.value.username == username
      ensures r.None? <==> forall u :: u in users.Values ==> u.username != username
      ensures r.Some? ==> forall id :: id in users && users[id].username == username ==> r.value.id <= id
    {
      InIdOrderSorted(users, currentUserId, UserId);
      FindLeast(UserList(), HasUsername(username), UserId);
      Find(UserList(), HasUsername(username))
    }

    /** The first user, in insertion order, with this email; none exactly when no user has it. */
    function GetUserByEmail(email: string): (r: Option<User>)
      reads this
      requires Valid()
      ensures r.Some? ==> r.value in users.Values && r.value.email == email
      ensures r.None? <==> forall u :: u in users.Values ==> u.email != email
      ensures r.Some? ==> forall id :: id in users && users[id].email == email ==> r.value.id <= id
    {
      InIdOrderSorted(users, currentUserId, UserId);
      FindLeast(UserList(), HasEmail(email), UserId);
      Find(UserList(), HasEmail(email))
    }

    method CreateUser(data: InsertUser, now: int) returns (user: User)
      requires Valid()
      modifies this
      ensures Valid()
      ensures user == NewUser(data, old(currentUserId), now)
      ensures forall id :: id in old(users) ==> id < user.id
      ensures State() == old(State()).(users := old(users)[user.id := user],
                                       nextUserId := old(currentUserId) + 1)
    {
      user := NewUser(data, currentUserId, now);
      currentUserId := currentUserId + 1;
      users := users[user.id := user];
    }

    // -------------------------------------------------------------------------
    // Rooms

    /** The active rooms, in insertion order: every active room once, and no inactive one. */
    function GetAllRooms(): (r: seq<Room>)
      reads this
      requires Valid()
      ensures forall x :: x in r <==> x in rooms.Values && x.isActive
    {
      Filter(RoomList(), IsActiveRoom)
    }

    /** There are as many active rooms listed as there are ids of active rooms. */
    lemma ActiveRoomCount()
      requires Valid()
      ensures |GetAllRooms()| == |set id | id in rooms && rooms[id].isActive|
    {
      InIdOrderFilterCount(rooms, currentRoomId, IsActiveRoom, set id | id in rooms && rooms[id].isActive);
    }

    function GetRoom(id: int): (r: Option<Room>)
      reads this
      requires Valid()
      ensures r.Some? <==> id in rooms
      ensures r.Some? ==> r.value == rooms[id] && r.value.id == id
    {
      if id in rooms then Some(rooms[id]) else None
    }

    method CreateRoom(data: InsertRoom, now: int) returns (room: Room)
      requires Valid()
      modifies this
      ensures Valid()
      ensures room == NewRoom(data, old(currentRoomId), now)
      ensures forall id :: id in old(rooms) ==> id < room.id
      ensures State() == old(State()).(rooms := old(rooms)[room.id := room],
                                       nextRoomId := old(currentRoomId) + 1)
    {
      room := NewRoom(data, currentRoomId, now);
      currentRoomId := currentRoomId + 1;
      rooms := rooms[room.id := room];
    }

    /** Merges the patch into a stored room; a missing room changes nothing. */
    method UpdateRoom(id: int, patch: RoomPatch) returns (r: Option<Room>)
      requires Valid()
      modifies this
      ensures Valid()
      ensures id !in old(rooms) ==> r == None && State() == old(State())
      ensures id in old(rooms) ==>
        && r == Some(PatchRoom(old(rooms)[id], patch))
        && State() == old(State()).(rooms := old(rooms)[id := r.value])
    {
      if id !in rooms {
        return None;
      }
      var updated := PatchRoom(rooms[id], patch);
      rooms := rooms[id := updated];
      r := Some(updated);
    }

    /** Removes the room and tells whether it was there; its bookings stay. */
    method DeleteRoom(id: int) returns (deleted: bool)
      requires Valid()
      modifies this
      ensures Valid()
      ensures deleted <==> id in old(rooms)
      ensures State() == old(State()).(rooms := old(rooms) - {id})
    {
      deleted := id in rooms;
      rooms := rooms - {id};
    }

    // -------------------------------------------------------------------------
    // Bookings

    /** Every booking whose room and user exist, in insertion order, joined with them. */
    function AllBookings(): (r: seq<BookingWithDetails>)
      reads this
      requires Valid()
      ensures forall d :: d in r <==> d.booking in bookings.Values && Resolves(d, rooms, users)
    {
      WithDetails(BookingList(), rooms, users)
    }

    /** The loop of `getAllBookings`, which builds `AllBookings()` one booking at a time. */
    method GetAllBookings() returns (result: seq<BookingWithDetails>)
      requires Valid()
      ensures result == AllBookings()
    {
      var list := BookingList();
      result := [];
      var i := 0;
      while i < |list|
        invariant 0 <= i <= |list|
        invariant result == WithDetails(list[..i], rooms, users)
      {
        var b := list[i];
        var room := GetRoom(b.roomId);
        var user := GetUser(b.userId);
        assert list[..i + 1][..i] == list[..i];
        if room.Some? && user.Some? {
          result := result + [BookingWithDetails(b, room.value, user.value)];
        }
        i := i + 1;
      }
      assert list[..|list|] == list;
    }

    /** The booking joined with its room and user; none when the booking, its room or its user is missing. */
    function GetBooking(id: int): (r: Option<BookingWithDetails>)
      reads this
      requires Valid()
      ensures r.Some? <==> id in bookings && bookings[id].roomId in rooms && bookings[id].userId in users
      ensures r.Some? ==> r.value.booking == bookings[id] && r.value.booking.id == id && Resolves(r.value, rooms, users)
    {
      if id !in bookings then None
      else
        var b := bookings[id];
        var room := GetRoom(b.roomId);
        var user := GetUser(b.userId);
        if room.None? || user.None? then None
        else Some(BookingWithDetails(b, room.value, user.value))
    }

    /** The joined bookings of one user, in insertion order. */
    function GetBookingsByUser(userId: int): (r: seq<BookingWithDetails>)
      reads this
      requires Valid()
      ensures forall d :: d in r <==> d in AllBookings() && d.booking.userId == userId
      ensures IsSubsequence(r, AllBookings())
    {
      FilterIsSubsequence(AllBookings(), OfUser(userId));
      Filter(AllBookings(), OfUser(userId))
    }

    /**
     * The bookings of one room, in insertion order; when both bounds are given, only those
     * that meet the window `(startDate, endDate)`. Rooms and users are not joined.
     */
    function GetBookingsByRoom(roomId: int, startDate: Option<int>, endDate: Option<int>): (r: seq<Booking>)
      reads this
      requires Valid()
      ensures forall b :: b in r <==> (
        && b in bookings.Values && b.roomId == roomId
        && (startDate.Some? && endDate.Some? ==> b.startTime < endDate.value && b.endTime > startDate.value))
    {
      BookingsOfRoomMembers(BookingList(), roomId, startDate, endDate);
      BookingsOfRoom(BookingList(), roomId, startDate, endDate)
    }

    /** Today's joined bookings sorted by start time: those starting in `[todayStart, todayStart + 23:59:59.999)`. */
    function GetTodaysBookings(todayStart: int): (r: seq<BookingWithDetails>)
      reads this
      requires Valid()
      ensures SortedBy(r, DetailsStart)
      ensures multiset(r) == multiset(Filter(AllBookings(), StartsOnDay(todayStart)))
      ensures forall d :: d in r <==> (
        d in AllBookings() && todayStart <= d.booking.startTime < todayStart + END_OF_DAY_OFFSET)
    {
      var onDay := Filter(AllBookings(), StartsOnDay(todayStart));
      var r := SortBy(onDay, DetailsStart);
      SortBySpec(onDay, DetailsStart);
      assert forall d :: d in r <==> d in onDay by {
        PermutationMembers(r, onDay);
      }
      r
    }

    method CreateBooking(data: InsertBooking, now: int) returns (booking: Booking)
      requires Valid()
      modifies this
      ensures Valid()
      ensures booking == NewBooking(data, old(currentBookingId), now)
      ensures forall id :: id in old(bookings) ==> id < booking.id
      ensures State() == old(State()).(bookings := old(bookings)[booking.id := booking],
                                       nextBookingId := old(currentBookingId) + 1)
    {
      booking := NewBooking(data, currentBookingId, now);
      currentBookingId := currentBookingId + 1;
      bookings := bookings[booking.id := booking];
    }

    /** Merges the patch into a stored booking; a missing booking changes nothing. */
    method UpdateBooking(id: int, patch: BookingPatch) returns (r: Option<Booking>)
      requires Valid()
      modifies this
      ensures Valid()
      ensures id !in old(bookings) ==> r == None && State() == old(State())
      ensures id in old(bookings) ==>
        && r == Some(PatchBooking(old(bookings)[id], patch))
        && State() == old(State()).(bookings := old(bookings)[id := r.value])
    {
      if id !in bookings {
        return None;
      }
      var updated := PatchBooking(bookings[id], patch);
      bookings := bookings[id := updated];
      r := Some(updated);
    }

    /** Removes the booking and tells whether it was there. */
    method DeleteBooking(id: int) returns (deleted: bool)
      requires Valid()
      modifies this
      ensures Valid()
      ensures deleted <==> id in old(bookings)
      ensures State() == old(State()).(bookings := old(bookings) - {id})
    {
      deleted := id in bookings;
      bookings := bookings - {id};
    }

    /**
     * The slot is free exactly when no stored booking blocks it: none that is confirmed,
     * on the room, not the excluded one, and overlapping the slot. Pending and cancelled
     * bookings never block.
     */
    function CheckRoomAvailability(roomId: int, startTime: int, endTime: int, exclude: Option<int>): (free: bool)
      reads this
      requires Valid()
      ensures free <==> forall id :: id in bookings ==> !Blocks(bookings[id], roomId, startTime, endTime, exclude)
    {
      var candidates := Filter(BookingList(), ConfirmedOnRoomExcept(roomId, exclude));
      var free := !Any(candidates, OverlapsSlot(startTime, endTime));
      assert free <==> forall b :: b in bookings.Values ==> !Blocks(b, roomId, startTime, endTime, exclude);
      free
    }

    // -------------------------------------------------------------------------
    // Room status

    /**
     * A room's status on the day starting at `dayStart`, seen at `now`: the current
     * booking is a confirmed booking of the room under way at `now`, and the room is
     * available exactly when there is none; the next booking is the earliest-starting
     * confirmed booking of the room that starts after `now`.
     */
    lemma RoomStatusSpec(room: Room, now: int, dayStart: int, s: RoomWithStatus)
      requires Valid() && s == StatusOf(room, BookingList(), now, dayStart)
      ensures s.room == room
      ensures s.isAvailable <==> s.currentBooking.None?
      ensures s.isAvailable <==> forall b :: b in bookings.Values ==> !OccupiesAt(b, room.id, now, dayStart)
      ensures s.currentBooking.Some? ==>
        s.currentBooking.value in bookings.Values && OccupiesAt(s.currentBooking.value, room.id, now, dayStart)
      ensures s.nextBooking.None? <==> forall b :: b in bookings.Values ==> !UpcomingAt(b, room.id, now, dayStart)
      ensures s.nextBooking.Some? ==>
        && s.nextBooking.value in bookings.Values
        && UpcomingAt(s.nextBooking.value, room.id, now, dayStart)
        && forall b :: b in bookings.Values && UpcomingAt(b, room.id, now, dayStart) ==>
             s.nextBooking.value.startTime <= b.startTime
    {
      CurrentBookingSpec(BookingList(), room.id, now, dayStart);
      UpcomingBookingSpec(BookingList(), room.id, now, dayStart);
    }

    /** The status of every active room, in insertion order. */
    function RoomsWithStatus(now: int, dayStart: int): (r: seq<RoomWithStatus>)
      reads this
      requires Valid()
      ensures |r| == |GetAllRooms()|
      ensures forall s :: s in r ==> s.room in rooms.Values && s.room.isActive
      ensures forall k :: 0 <= k < |r| ==> r[k] == StatusOf(GetAllRooms()[k], BookingList(), now, dayStart)
    {
      MapSeqEach(GetAllRooms(), StatusIn(BookingList(), now, dayStart));
      MapSeq(GetAllRooms(), StatusIn(BookingList(), now, dayStart))
    }

    /** The loop of `getRoomsWithStatus`, which builds `RoomsWithStatus` one room at a time. */
    method GetRoomsWithStatus(now: int, dayStart: int) returns (result: seq<RoomWithStatus>)
      requires Valid()
      ensures result == RoomsWithStatus(now, dayStart)
    {
      result := EachStatus(GetAllRooms(), BookingList(), now, dayStart);
    }

    // -------------------------------------------------------------------------
    // Activities

    method CreateActivity(data: InsertActivity, now: int) returns (activity: Activity)
      requires Valid()
      modifies this
      ensures Valid()
      ensures activity == NewActivity(data, old(currentActivityId), now)
      ensures forall id :: id in old(activities) ==> id < activity.id
      ensures State() == old(State()).(activities := old(activities)[activity.id := activity],
                                       nextActivityId := old(currentActivityId) + 1)
    {
      activity := NewActivity(data, currentActivityId, now);
      currentActivityId := currentActivityId + 1;
      activities := activities[activity.id := activity];
    }

    /**
     * The newest activities first, cut to `limit` as `slice(0, limit)` does (a negative
     * limit drops that many from the end); every activity left out is no newer than
     * every one returned.
     */
    function GetRecentActivities(limit: int): (r: seq<Activity>)
      reads this
      requires Valid()
      ensures limit >= 0 ==> |r| == Min(limit, |activities|)
      ensures limit < 0 ==> |r| == Max(0, |activities| + limit)
      ensures forall i, j :: 0 <= i < j < |r| ==> r[i].createdAt >= r[j].createdAt
      ensures forall a :: a in r ==> a in activities.Values
      ensures multiset(r) <= multiset(ActivityList())
      ensures forall a, x :: a in activities.Values && a !in r && x in r ==> a.createdAt <= x.createdAt
    {
      var sorted := SortBy(ActivityList(), Recency);
      SortBySpec(ActivityList(), Recency);
      var r := SliceTo(sorted, limit);
      PermutationMembers(sorted, ActivityList());
      SortedPrefixIsLeast(sorted, Recency, |r|);
      PrefixSubMultiset(sorted, |r|);
      assert forall i, j :: 0 <= i < j < |r| ==> Recency(sorted[i]) <= Recency(sorted[j]);
      r
    }

    // -------------------------------------------------------------------------
    // Dashboard

    /**
     * The dashboard figures: active rooms, how many of them are free at `now`, how many
     * confirmed bookings (with an existing room and user) start today, how many bookings
     * are pending, and the summed cost of today's confirmed bookings.
     */
    function GetDashboardStats(now: int, dayStart: int, todayStart: int): (s: DashboardStats)
      reads this
      requires Valid()
      ensures 0 <= s.availableRooms <= s.totalRooms
      ensures s.availableRooms == |set id | id in rooms && rooms[id].isActive
                                   && (forall b :: b in bookings.Values ==> !OccupiesAt(b, id, now, dayStart))|
      ensures s.totalRooms == |set id | id in rooms && rooms[id].isActive|
      ensures s.pendingBookings == |set id | id in bookings && IsPending(bookings[id])|
      ensures s.bookedToday == |set id | id in bookings && BookedOnDay(bookings[id], rooms, users, todayStart)|
      ensures s.revenueToday == Sum(Filter(AllBookings(), ConfirmedOnDay(todayStart)), CostOf)
    {
      var confirmedToday := Filter(GetTodaysBookings(todayStart), IsConfirmedDetails);
      ActiveRoomCount();
      AvailableCount(now, dayStart);
      PendingCount();
      TodayCount(todayStart);
      DashboardStats(
        |Filter(RoomsWithStatus(now, dayStart), IsAvailable)|,
        |GetAllRooms()|,
        |confirmedToday|,
        |Filter(BookingList(), IsPending)|,
        Sum(confirmedToday, CostOf))
    }

    /** The rooms counted as available are the active rooms no confirmed booking occupies at `now`. */
    lemma AvailableCount(now: int, dayStart: int)
      requires Valid()
      ensures |Filter(RoomsWithStatus(now, dayStart), IsAvailable)|
              == |set id | id in rooms && rooms[id].isActive
                           && (forall b :: b in bookings.Values ==> !OccupiesAt(b, id, now, dayStart))|
    {
      var f := StatusIn(BookingList(), now, dayStart);
      var q := AvailableIn(BookingList(), now, dayStart);
      FilterMapSeqCount(GetAllRooms(), f, IsAvailable);
      FilterFilter(RoomList(), IsActiveRoom, AfterMap(f, IsAvailable), q);
      forall id | id in rooms
        ensures q(rooms[id]) <==> rooms[id].isActive
                                  && forall b :: b in bookings.Values ==> !OccupiesAt(b, id, now, dayStart)
      {
        RoomStatusSpec(rooms[id], now, dayStart, StatusOf(rooms[id], BookingList(), now, dayStart));
      }
      InIdOrderFilterCount(rooms, currentRoomId, q,
        set id | id in rooms && rooms[id].isActive
                 && (forall b :: b in bookings.Values ==> !OccupiesAt(b, id, now, dayStart)));
    }

    lemma PendingCount()
      requires Valid()
      ensures |Filter(BookingList(), IsPending)| == |set id | id in bookings && IsPending(bookings[id])|
    {
      InIdOrderFilterCount(bookings, currentBookingId, IsPending, set id | id in bookings && IsPending(bookings[id]));
    }

    /** Today's confirmed bookings, counted and summed, are those of the whole table. */
    lemma TodayCount(todayStart: int)
      requires Valid()
      ensures var confirmedToday := Filter(GetTodaysBookings(todayStart), IsConfirmedDetails);
        && |confirmedToday| == |set id | id in bookings && BookedOnDay(bookings[id], rooms, users, todayStart)|
        && Sum(confirmedToday, CostOf) == Sum(Filter(AllBookings(), ConfirmedOnDay(todayStart)), CostOf)
    {
      var onDay := Filter(AllBookings(), StartsOnDay(todayStart));
      var confirmedToday := Filter(GetTodaysBookings(todayStart), IsConfirmedDetails);
      FilterPermutation(GetTodaysBookings(todayStart), onDay, IsConfirmedDetails);
      FilterFilter(AllBookings(), StartsOnDay(todayStart), IsConfirmedDetails, ConfirmedOnDay(todayStart));
      var q := BookedOnDayIn(rooms, users, todayStart);
      WithDetailsCount(BookingList(), rooms, users, ConfirmedOnDay(todayStart), q);
      InIdOrderFilterCount(bookings, currentBookingId, q,
        set id | id in bookings && BookedOnDay(bookings[id], rooms, users, todayStart));
      SumPermutation(confirmedToday, Filter(onDay, IsConfirmedDetails), CostOf);
    }
  }

  // ---------------------------------------------------------------------------
  // The no-double-booking invariant

  /** Storing a booking under a fresh id keeps the invariant when no stored booking blocks its slot. */
  lemma CreateKeepsNoOverlap(bookings: map<int, Booking>, b: Booking)
    requires NoOverlap(bookings) && b.id !in bookings
    requires forall id :: id in bookings ==> !Blocks(bookings[id], b.roomId, b.startTime, b.endTime, None)
    ensures NoOverlap(bookings[b.id := b])
  {
    var bs := bookings[b.id := b];
    forall i, j | i in bs && j in bs && i != j && IsConfirmed(bs[i]) && IsConfirmed(bs[j]) && bs[i].roomId == bs[j].roomId
      ensures !Overlaps(bs[i], bs[j].startTime, bs[j].endTime)
    {
      if i == b.id {
        assert !Blocks(bookings[j], b.roomId, b.startTime, b.endTime, None);
      } else if j == b.id {
        assert !Blocks(bookings[i], b.roomId, b.startTime, b.endTime, None);
      }
    }
  }

  /**
   * Replacing a stored booking keeps the invariant when no other stored booking blocks
   * the replacement's slot (the replaced booking itself is excluded from the query).
   */
  lemma UpdateKeepsNoOverlap(bookings: map<int, Booking>, b: Booking)
    requires NoOverlap(bookings) && b.id in bookings
    requires forall id :: id in bookings ==> bookings[id].id == id
    requires forall id :: id in bookings ==> !Blocks(bookings[id], b.roomId, b.startTime, b.endTime, Some(b.id))
    ensures NoOverlap(bookings[b.id := b])
  {
    var bs := bookings[b.id := b];
    forall i, j | i in bs && j in bs && i != j && IsConfirmed(bs[i]) && IsConfirmed(bs[j]) && bs[i].roomId == bs[j].roomId
      ensures !Overlaps(bs[i], bs[j].startTime, bs[j].endTime)
    {
      if i == b.id {
        assert !Blocks(bookings[j], b.roomId, b.startTime, b.endTime, Some(b.id));
      } else if j == b.id {
        assert !Blocks(bookings[i], b.roomId, b.startTime, b.endTime, Some(b.id));
      }
    }
  }

  /** Removing bookings keeps the invariant. */
  lemma DeleteKeepsNoOverlap(bookings: map<int, Booking>, id: int)
    requires NoOverlap(bookings)
    ensures NoOverlap(bookings - {id})
  {
  }
}
