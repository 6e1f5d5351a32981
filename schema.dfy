/**
 * The records of the booking system (users, rooms, bookings, activities), the
 * insert shapes the store accepts (a record without `id` and `createdAt`), the
 * partial patches of the update operations, and the response shapes
 * (`BookingWithDetails`, `RoomWithStatus`, `DashboardStats`).
 *
 * Timestamps are integers (milliseconds since the epoch). Nullable columns are
 * `Option`s; a patch field is `None` when the request leaves it out, so a
 * nullable column in a patch is an `Option<Option<_>>` (present-and-null is
 * `Some(None)`).
 */
module Schema {
  import opened Collections

  // Booking status values stored in `bookings.status`.
  const CONFIRMED: string := "confirmed"
  const PENDING: string := "pending"
  const CANCELLED: string := "cancelled"

  // Activity type tags written by the request handlers.
  const BOOKING_CREATED: string := "booking_created"
  const BOOKING_UPDATED: string := "booking_updated"
  const BOOKING_CANCELLED: string := "booking_cancelled"
  const ROOM_CREATED: string := "room_created"
  const ROOM_UPDATED: string := "room_updated"
  const ROOM_DELETED: string := "room_deleted"

  // One hour, and the offset of 23:59:59.999 from midnight, in milliseconds.
  const HOUR_MS: int := 3_600_000
  const END_OF_DAY_OFFSET: int := 86_399_999

  datatype User = User(
    id: int, username: string, password: string, role: string,
    name: string, email: string, createdAt: int)

  datatype InsertUser = InsertUser(
    username: string, password: string, role: string, name: string, email: string)

  datatype Room = Room(
    id: int, name: string, capacity: int, roomType: string, amenities: seq<string>,
    hourlyRate: int, imageUrl: Option<string>, description: Option<string>,
    isActive: bool, createdAt: int)

  datatype InsertRoom = InsertRoom(
    name: string, capacity: int, roomType: string, amenities: seq<string>,
    hourlyRate: int, imageUrl: Option<string>, description: Option<string>, isActive: bool)

  datatype RoomPatch = RoomPatch(
    name: Option<string>, capacity: Option<int>, roomType: Option<string>,
    amenities: Option<seq<string>>, hourlyRate: Option<int>,
    imageUrl: Option<Option<string>>, description: Option<Option<string>>,
    isActive: Option<bool>)

  datatype Booking = Booking(
    id: int, roomId: int, userId: int, title: string, description: Option<string>,
    startTime: int, endTime: int, status: string, isRecurring: bool,
    recurringType: Option<string>, recurringEndDate: Option<int>,
    googleCalendarEventId: Option<string>, totalCost: int, createdAt: int)

  datatype InsertBooking = InsertBooking(
    roomId: int, userId: int, title: string, description: Option<string>,
    startTime: int, endTime: int, status: string, isRecurring: bool,
    recurringType: Option<string>, recurringEndDate: Option<int>,
    googleCalendarEventId: Option<string>, totalCost: int)

  datatype BookingPatch = BookingPatch(
    roomId: Option<int>, userId: Option<int>, title: Option<string>,
    description: Option<Option<string>>, startTime: Option<int>, endTime: Option<int>,
    status: Option<string>, isRecurring: Option<bool>,
    recurringType: Option<Option<string>>, recurringEndDate: Option<Option<int>>,
    googleCalendarEventId: Option<Option<string>>, totalCost: Option<int>)

  datatype Activity = Activity(
    id: int, userId: Option<int>, activityType: string, description: string,
    metadata: map<string, int>, createdAt: int)

  datatype InsertActivity = InsertActivity(
    userId: Option<int>, activityType: string, description: string, metadata: map<string, int>)

  datatype BookingWithDetails = BookingWithDetails(booking: Booking, room: Room, user: User)

  datatype RoomWithStatus = RoomWithStatus(
    room: Room, isAvailable: bool, currentBooking: Option<Booking>, nextBooking: Option<Booking>)

  datatype DashboardStats = DashboardStats(
    availableRooms: int, totalRooms: int, bookedToday: int, pendingBookings: int, revenueToday: int)

  // ---------------------------------------------------------------------------
  // `{ ...insert, id, createdAt }`

  function NewUser(u: InsertUser, id: int, createdAt: int): User
  {
    User(id, u.username, u.password, u.role, u.name, u.email, createdAt)
  }

  function NewRoom(r: InsertRoom, id: int, createdAt: int): Room
  {
    Room(id, r.name, r.capacity, r.roomType, r.amenities, r.hourlyRate, r.imageUrl,
         r.description, r.isActive, createdAt)
  }

  function NewBooking(b: InsertBooking, id: int, createdAt: int): Booking
  {
    Booking(id, b.roomId, b.userId, b.title, b.description, b.startTime, b.endTime, b.status,
            b.isRecurring, b.recurringType, b.recurringEndDate, b.googleCalendarEventId,
            b.totalCost, createdAt)
  }

  function NewActivity(a: InsertActivity, id: int, createdAt: int): Activity
  {
    Activity(id, a.userId, a.activityType, a.description, a.metadata, createdAt)
  }

  // ---------------------------------------------------------------------------
  // `{ ...existing, ...patch }`

  function Or<T>(patch: Option<T>, current: T): T
  {
    if patch.Some? then patch.value else current
  }

  function PatchRoom(r: Room, p: RoomPatch): Room
  {
    r.(name := Or(p.name, r.name), capacity := Or(p.capacity, r.capacity),
       roomType := Or(p.roomType, r.roomType), amenities := Or(p.amenities, r.amenities),
       hourlyRate := Or(p.hourlyRate, r.hourlyRate), imageUrl := Or(p.imageUrl, r.imageUrl),
       description := Or(p.description, r.description), isActive := Or(p.isActive, r.isActive))
  }

  function PatchBooking(b: Booking, p: BookingPatch): Booking
  {
    b.(roomId := Or(p.roomId, b.roomId), userId := Or(p.userId, b.userId),
       title := Or(p.title, b.title), description := Or(p.description, b.description),
       startTime := Or(p.startTime, b.startTime), endTime := Or(p.endTime, b.endTime),
       status := Or(p.status, b.status), isRecurring := Or(p.isRecurring, b.isRecurring),
       recurringType := Or(p.recurringType, b.recurringType),
       recurringEndDate := Or(p.recurringEndDate, b.recurringEndDate),
       googleCalendarEventId := Or(p.googleCalendarEventId, b.googleCalendarEventId),
       totalCost := Or(p.totalCost, b.totalCost))
  }

  const EmptyRoomPatch := RoomPatch(None, None, None, None, None, None, None, None)

  const EmptyBookingPatch :=
    BookingPatch(None, None, None, None, None, None, None, None, None, None, None, None)

  /** A room patch keeps the id and the creation time, overwrites exactly the fields it supplies, and is idempotent. */
  lemma PatchRoomSpec(r: Room, p: RoomPatch)
    ensures var r' := PatchRoom(r, p);
      && r'.id == r.id && r'.createdAt == r.createdAt
      && (p.name.Some? ==> r'.name == p.name.value) && (p.name.None? ==> r'.name == r.name)
      && (p.capacity.Some? ==> r'.capacity == p.capacity.value) && (p.capacity.None? ==> r'.capacity == r.capacity)
      && (p.isActive.Some? ==> r'.isActive == p.isActive.value) && (p.isActive.None? ==> r'.isActive == r.isActive)
      && PatchRoom(r', p) == r'
    ensures PatchRoom(r, EmptyRoomPatch) == r
  {
  }

  /**
   * A booking patch keeps the id and the creation time, overwrites exactly the fields it
   * supplies (the interval and the room are spelled out), and applying it twice is applying it once.
   */
  lemma PatchBookingSpec(b: Booking, p: BookingPatch)
    ensures var b' := PatchBooking(b, p);
      && b'.id == b.id && b'.createdAt == b.createdAt
      && b'.roomId == (if p.roomId.Some? then p.roomId.value else b.roomId)
      && b'.startTime == (if p.startTime.Some? then p.startTime.value else b.startTime)
      && b'.endTime == (if p.endTime.Some? then p.endTime.value else b.endTime)
      && b'.status == (if p.status.Some? then p.status.value else b.status)
      && PatchBooking(b', p) == b'
    ensures PatchBooking(b, EmptyBookingPatch) == b
  {
  }

  /** Two intervals overlap exactly as `existing.startTime < endTime && existing.endTime > startTime`. */
  predicate Overlaps(b: Booking, startTime: int, endTime: int)
  {
    b.startTime < endTime && b.endTime > startTime
  }

  predicate IsConfirmed(b: Booking) { b.status == CONFIRMED }

  predicate IsPending(b: Booking) { b.status == PENDING }
}
