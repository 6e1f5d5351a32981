/**
 * The mutating request handlers of the booking API (POST/PUT/DELETE on `/api/bookings`
 * and `/api/rooms`) as sequences of store calls, plus the two query rules of the read
 * handlers that go beyond a store call (the recent-activities limit and the bookings
 * owner filter).
 *
 * A handler takes the validated request body and `now` (the creation time given to the
 * store); it returns the HTTP outcome and leaves the store changed exactly as the
 * sequence of store calls does. Every successful mutation appends exactly one activity.
 */
module Routes {
  import opened Collections
  import opened Schema
  import opened Storage

  /** An HTTP outcome: 200 with a body, 201 with a body, 204, 404, 409. */
  datatype Response<T> = Ok(body: T) | Created(body: T) | NoContent | NotFound | Conflict

  // ---------------------------------------------------------------------------
  // Activity records written by the handlers

  /** `Booking "<title>" was <verb>`, logged for the booking's owner with `{ bookingId, roomId }`. */
  function BookingActivity(activityType: string, verb: string, bookingId: int, b: Booking): InsertActivity
  {
    InsertActivity(Some(b.userId), activityType, "Booking \"" + b.title + "\" was " + verb,
                   map["bookingId" := bookingId, "roomId" := b.roomId])
  }

  /** `Room "<name>" was <verb>`, logged without a user and with `{ roomId }`. */
  function RoomActivity(activityType: string, verb: string, roomId: int, r: Room): InsertActivity
  {
    InsertActivity(None, activityType, "Room \"" + r.name + "\" was " + verb, map["roomId" := roomId])
  }

  // ---------------------------------------------------------------------------
  // The availability check of PUT /api/bookings/:id

  /** The room and interval an availability check is asked about. */
  datatype Slot = Slot(roomId: int, startTime: int, endTime: int)

  function SlotOf(b: Booking): Slot { Slot(b.roomId, b.startTime, b.endTime) }

  /**
   * The guard of the update handler as written: `startTime || endTime || roomId`. The times
   * are `Date` objects, so a present time is always truthy; a room id of 0 is falsy.
   */
  predicate NeedsCheckAsWritten(p: BookingPatch)
  {
    p.startTime.Some? || p.endTime.Some? || (p.roomId.Some? && p.roomId.value != 0)
  }

  /** The slot the update handler checks as written: each value `|| existing`, so a room id of 0 falls back. */
  function CheckedSlotAsWritten(existing: Booking, p: BookingPatch): Slot
  {
    Slot(if p.roomId.Some? && p.roomId.value != 0 then p.roomId.value else existing.roomId,
         Or(p.startTime, existing.startTime), Or(p.endTime, existing.endTime))
  }

  /** The guard as intended: the request supplies a new start, end or room. */
  predicate NeedsCheck(p: BookingPatch)
  {
    p.startTime.Some? || p.endTime.Some? || p.roomId.Some?
  }

  /** The slot as intended: every supplied value, else the stored one, exactly as the merge writes them. */
  function CheckedSlot(existing: Booking, p: BookingPatch): (s: Slot)
    ensures s.roomId == (if p.roomId.Some? then p.roomId.value else existing.roomId)
    ensures s.startTime == (if p.startTime.Some? then p.startTime.value else existing.startTime)
    ensures s.endTime == (if p.endTime.Some? then p.endTime.value else existing.endTime)
  {
    Slot(Or(p.roomId, existing.roomId), Or(p.startTime, existing.startTime), Or(p.endTime, existing.endTime))
  }

  /**
   * The intended check covers what is written: the slot checked is the slot the merged
   * booking occupies, and an update that skips the check leaves the slot as it was.
   */
  lemma CheckedSlotIsWritten(existing: Booking, p: BookingPatch)
    ensures CheckedSlot(existing, p) == SlotOf(PatchBooking(existing, p))
    ensures !NeedsCheck(p) ==> SlotOf(PatchBooking(existing, p)) == SlotOf(existing)
  {
    PatchBookingSpec(existing, p);
  }

  /** Away from a room id of 0, the guard and the checked slot as written are the intended ones. */
  lemma AsWrittenAgreesOffRoomZero(existing: Booking, p: BookingPatch)
    requires p.roomId != Some(0)
    ensures NeedsCheckAsWritten(p) == NeedsCheck(p)
    ensures CheckedSlotAsWritten(existing, p) == CheckedSlot(existing, p)
  {
  }

  /**
   * As written, a room id of 0 escapes the check: on its own it skips the guard, and next to
   * a new time it checks the stored room; either way the merge stores room 0.
   */
  lemma RoomZeroEscapesCheck(existing: Booking, p: BookingPatch)
    requires p.roomId == Some(0) && existing.roomId != 0
    ensures SlotOf(PatchBooking(existing, p)).roomId == 0
    ensures p.startTime.None? && p.endTime.None? ==> !NeedsCheckAsWritten(p)
    ensures NeedsCheckAsWritten(p) ==> CheckedSlotAsWritten(existing, p).roomId == existing.roomId
  {
    PatchBookingSpec(existing, p);
  }

  /**
   * The as-written update breaks the no-double-booking invariant: booking 2 on room 1 is
   * moved to room 0 at the time of booking 1 there; the check is made on room 1, which
   * only booking 2 itself (excluded) occupies, so it passes.
   */
  lemma AsWrittenUpdateDoubleBooks()
    ensures
      var a := Booking(1, 0, 1, "A", None, 0, 10, CONFIRMED, false, None, None, None, 0, 0);
      var b := a.(id := 2, roomId := 1, title := "B");
      var before := map[1 := a, 2 := b];
      var p := EmptyBookingPatch.(roomId := Some(0), startTime := Some(0));
      var slot := CheckedSlotAsWritten(b, p);
      && NoOverlap(before)
      && NeedsCheckAsWritten(p)
      && (forall id :: id in before ==> !Blocks(before[id], slot.roomId, slot.startTime, slot.endTime, Some(2)))
      && !NoOverlap(before[2 := PatchBooking(b, p)])
  {
    var a := Booking(1, 0, 1, "A", None, 0, 10, CONFIRMED, false, None, None, None, 0, 0);
    var b := a.(id := 2, roomId := 1, title := "B");
    var p := EmptyBookingPatch.(roomId := Some(0), startTime := Some(0));
    var after := map[1 := a, 2 := b][2 := PatchBooking(b, p)];
    assert after[1] == a && after[2].roomId == 0 && after[2].startTime == 0 && after[2].endTime == 10;
    assert !Overlaps(a, b.startTime, b.endTime) ==> a.roomId != b.roomId;
    assert Overlaps(after[1], after[2].startTime, after[2].endTime);
  }

  /**
   * With the intended check, an update that passes it keeps the invariant: the merged
   * booking's slot is free of every other confirmed booking of its room.
   */
  lemma CheckedUpdateKeepsNoOverlap(bookings: map<int, Booking>, id: int, p: BookingPatch)
    requires NoOverlap(bookings) && id in bookings
    requires forall k :: k in bookings ==> bookings[k].id == k
    requires var slot := CheckedSlot(bookings[id], p);
      forall k :: k in bookings ==> !Blocks(bookings[k], slot.roomId, slot.startTime, slot.endTime, Some(id))
    ensures NoOverlap(bookings[id := PatchBooking(bookings[id], p)])
  {
    var b := PatchBooking(bookings[id], p);
    CheckedSlotIsWritten(bookings[id], p);
    PatchBookingSpec(bookings[id], p);
    UpdateKeepsNoOverlap(bookings, b);
  }

  /**
   * An update that changes neither the slot nor the status keeps the invariant, so the
   * only unchecked way to break it is a status change (a pending booking confirmed).
   */
  lemma UncheckedUpdateKeepsNoOverlap(bookings: map<int, Booking>, id: int, p: BookingPatch)
    requires NoOverlap(bookings) && id in bookings
    requires !NeedsCheck(p) && p.status.None?
    ensures NoOverlap(bookings[id := PatchBooking(bookings[id], p)])
  {
    var prev, b := bookings[id], PatchBooking(bookings[id], p);
    PatchBookingSpec(prev, p);
    var after := bookings[id := b];
    forall i, j | i in after && j in after && i != j && IsConfirmed(after[i]) && IsConfirmed(after[j])
        && after[i].roomId == after[j].roomId
      ensures !Overlaps(after[i], after[j].startTime, after[j].endTime)
    {
      assert SlotOf(after[i]) == SlotOf(bookings[i]) && after[i].status == bookings[i].status;
      assert SlotOf(after[j]) == SlotOf(bookings[j]) && after[j].status == bookings[j].status;
    }
  }

  /**
   * A status-only update is never checked and can double-book: confirming a pending
   * booking that overlaps a confirmed one on the same room.
   */
  lemma StatusOnlyUpdateCanDoubleBook()
    ensures
      var a := Booking(1, 1, 1, "A", None, 0, 10, CONFIRMED, false, None, None, None, 0, 0);
      var b := a.(id := 2, title := "B", status := PENDING);
      var before := map[1 := a, 2 := b];
      var p := EmptyBookingPatch.(status := Some(CONFIRMED));
      && NoOverlap(before)
      && !NeedsCheck(p) && !NeedsCheckAsWritten(p)
      && !NoOverlap(before[2 := PatchBooking(b, p)])
  {
    var a := Booking(1, 1, 1, "A", None, 0, 10, CONFIRMED, false, None, None, None, 0, 0);
    var b := a.(id := 2, title := "B", status := PENDING);
    var p := EmptyBookingPatch.(status := Some(CONFIRMED));
    var after := map[1 := a, 2 := b][2 := PatchBooking(b, p)];
    assert after[1] == a && after[2].status == CONFIRMED && after[2].roomId == 1;
    assert Overlaps(after[1], after[2].startTime, after[2].endTime);
  }

  // ---------------------------------------------------------------------------
  // Booking handlers

  /** Whether the store has room for `data`: no confirmed booking on its room overlaps it. */
  predicate CreateIsFree(store: MemStorage, data: InsertBooking)
    reads store
    requires store.Valid()
  {
    store.CheckRoomAvailability(data.roomId, data.startTime, data.endTime, None)
  }

  /**
   * POST /api/bookings: check the slot (409 and no change when taken), store the booking
   * under the next id, read it back joined, log `booking_created`, answer 201.
   */
  method PostBooking(store: MemStorage, data: InsertBooking, now: int) returns (resp: Response<Option<BookingWithDetails>>)
    requires store.Valid()
    modifies store
    ensures store.Valid()
    ensures !old(CreateIsFree(store, data)) ==> resp == Conflict && store.State() == old(store.State())
    ensures old(CreateIsFree(store, data)) ==>
      var b := NewBooking(data, old(store.currentBookingId), now);
      var aid := old(store.currentActivityId);
      && resp == Created(store.GetBooking(b.id))
      && store.State() == old(store.State()).(
           bookings := old(store.bookings)[b.id := b], nextBookingId := b.id + 1,
           activities := old(store.activities)[aid := NewActivity(BookingActivity(BOOKING_CREATED, "created", b.id, b), aid, now)],
           nextActivityId := aid + 1)
    ensures NoOverlap(old(store.bookings)) ==> NoOverlap(store.bookings)
  {
    var free := store.CheckRoomAvailability(data.roomId, data.startTime, data.endTime, None);
    if !free {
      return Conflict;
    }
    ghost var before := store.bookings;
    var booking := store.CreateBooking(data, now);
    var details := store.GetBooking(booking.id);
    var activity := store.CreateActivity(BookingActivity(BOOKING_CREATED, "created", booking.id, booking), now);
    if NoOverlap(before) {
      CreateKeepsNoOverlap(before, booking);
    }
    resp := Created(details);
  }

  /** Whether the intended update check passes: the merged slot is free apart from the booking itself. */
  predicate UpdateIsFree(store: MemStorage, existing: Booking, id: int, p: BookingPatch)
    reads store
    requires store.Valid()
  {
    var slot := CheckedSlot(existing, p);
    store.CheckRoomAvailability(slot.roomId, slot.startTime, slot.endTime, Some(id))
  }

  /** Whether the update handler goes through to the write. */
  predicate UpdateProceeds(store: MemStorage, id: int, p: BookingPatch)
    reads store
    requires store.Valid()
  {
    id in store.bookings
    && (NeedsCheck(p) ==> store.GetBooking(id).Some? && UpdateIsFree(store, store.bookings[id], id, p))
  }

  /**
   * PUT /api/bookings/:id, with the intended check. When the request supplies a start, end
   * or room: 404 unless the booking reads back joined, 409 unless the merged slot is free
   * apart from the booking itself. Then merge (404 for a missing booking), log
   * `booking_updated`, answer 200 with the joined booking.
   */
  method PutBooking(store: MemStorage, id: int, p: BookingPatch, now: int) returns (resp: Response<Option<BookingWithDetails>>)
    requires store.Valid()
    modifies store
    ensures store.Valid()
    ensures !old(UpdateProceeds(store, id, p)) ==> store.State() == old(store.State())
    ensures !old(UpdateProceeds(store, id, p)) ==>
      (resp == Conflict <==> NeedsCheck(p) && old(store.GetBooking(id)).Some?)
    ensures !old(UpdateProceeds(store, id, p)) && !resp.Conflict? ==> resp == NotFound
    ensures old(UpdateProceeds(store, id, p)) ==>
      var b := PatchBooking(old(store.bookings)[id], p);
      var aid := old(store.currentActivityId);
      && resp == Ok(store.GetBooking(id))
      && store.State() == old(store.State()).(
           bookings := old(store.bookings)[id := b],
           activities := old(store.activities)[aid := NewActivity(BookingActivity(BOOKING_UPDATED, "updated", b.id, b), aid, now)],
           nextActivityId := aid + 1)
    ensures NoOverlap(old(store.bookings)) && (NeedsCheck(p) || p.status.None?) ==> NoOverlap(store.bookings)
  {
    if NeedsCheck(p) {
      var existing := store.GetBooking(id);
      if existing.None? {
        return NotFound;
      }
      var slot := CheckedSlot(existing.value.booking, p);
      var free := store.CheckRoomAvailability(slot.roomId, slot.startTime, slot.endTime, Some(id));
      if !free {
        return Conflict;
      }
    }
    ghost var before := store.bookings;
    var booking := store.UpdateBooking(id, p);
    if booking.None? {
      return NotFound;
    }
    var details := store.GetBooking(booking.value.id);
    PatchBookingSpec(before[id], p);
    var activity := store.CreateActivity(BookingActivity(BOOKING_UPDATED, "updated", booking.value.id, booking.value), now);
    if NoOverlap(before) {
      if NeedsCheck(p) {
        CheckedUpdateKeepsNoOverlap(before, id, p);
      } else if p.status.None? {
        UncheckedUpdateKeepsNoOverlap(before, id, p);
      }
    }
    resp := Ok(details);
  }

  /**
   * DELETE /api/bookings/:id: 404 unless the booking reads back joined (so a booking whose
   * room or user is gone cannot be deleted), then a hard delete, a `booking_cancelled`
   * activity and 204.
   */
  method DeleteBooking(store: MemStorage, id: int, now: int) returns (resp: Response<()>)
    requires store.Valid()
    modifies store
    ensures store.Valid()
    ensures old(store.GetBooking(id)).None? ==> resp == NotFound && store.State() == old(store.State())
    ensures old(store.GetBooking(id)).Some? ==>
      var b := old(store.bookings)[id];
      var aid := old(store.currentActivityId);
      && resp == NoContent
      && id !in store.bookings
      && store.State() == old(store.State()).(
           bookings := old(store.bookings) - {id},
           activities := old(store.activities)[aid := NewActivity(BookingActivity(BOOKING_CANCELLED, "cancelled", id, b), aid, now)],
           nextActivityId := aid + 1)
    ensures NoOverlap(old(store.bookings)) ==> NoOverlap(store.bookings)
  {
    var existing := store.GetBooking(id);
    if existing.None? {
      return NotFound;
    }
    ghost var before := store.bookings;
    var booking := existing.value.booking;
    var deleted := store.DeleteBooking(id);
    if !deleted {
      assert false;
      return NotFound;
    }
    var activity := store.CreateActivity(BookingActivity(BOOKING_CANCELLED, "cancelled", id, booking), now);
    if NoOverlap(before) {
      DeleteKeepsNoOverlap(before, id);
    }
    resp := NoContent;
  }

  // ---------------------------------------------------------------------------
  // Room handlers

  /** POST /api/rooms: store the room under the next id, log `room_created`, answer 201 with it. */
  method PostRoom(store: MemStorage, data: InsertRoom, now: int) returns (resp: Response<Room>)
    requires store.Valid()
    modifies store
    ensures store.Valid()
    ensures
      var r := NewRoom(data, old(store.currentRoomId), now);
      var aid := old(store.currentActivityId);
      && resp == Created(r)
      && store.State() == old(store.State()).(
           rooms := old(store.rooms)[r.id := r], nextRoomId := r.id + 1,
           activities := old(store.activities)[aid := NewActivity(RoomActivity(ROOM_CREATED, "created", r.id, r), aid, now)],
           nextActivityId := aid + 1)
  {
    var room := store.CreateRoom(data, now);
    var activity := store.CreateActivity(RoomActivity(ROOM_CREATED, "created", room.id, room), now);
    resp := Created(room);
  }

  /** PUT /api/rooms/:id: merge the patch (404 and no change for a missing room), log `room_updated`, answer 200. */
  method PutRoom(store: MemStorage, id: int, p: RoomPatch, now: int) returns (resp: Response<Room>)
    requires store.Valid()
    modifies store
    ensures store.Valid()
    ensures id !in old(store.rooms) ==> resp == NotFound && store.State() == old(store.State())
    ensures id in old(store.rooms) ==>
      var r := PatchRoom(old(store.rooms)[id], p);
      var aid := old(store.currentActivityId);
      && resp == Ok(r)
      && store.State() == old(store.State()).(
           rooms := old(store.rooms)[id := r],
           activities := old(store.activities)[aid := NewActivity(RoomActivity(ROOM_UPDATED, "updated", id, r), aid, now)],
           nextActivityId := aid + 1)
  {
    var room := store.UpdateRoom(id, p);
    if room.None? {
      return NotFound;
    }
    PatchRoomSpec(old(store.rooms)[id], p);
    var activity := store.CreateActivity(RoomActivity(ROOM_UPDATED, "updated", room.value.id, room.value), now);
    resp := Ok(room.value);
  }

  /**
   * DELETE /api/rooms/:id: 404 for a missing room, else remove it (its bookings stay),
   * log `room_deleted` with the room's name, answer 204.
   */
  method DeleteRoom(store: MemStorage, id: int, now: int) returns (resp: Response<()>)
    requires store.Valid()
    modifies store
    ensures store.Valid()
    ensures id !in old(store.rooms) ==> resp == NotFound && store.State() == old(store.State())
    ensures id in old(store.rooms) ==>
      var aid := old(store.currentActivityId);
      var a := NewActivity(RoomActivity(ROOM_DELETED, "deleted", id, old(store.rooms)[id]), aid, now);
      && resp == NoContent
      && store.State() == old(store.State()).(
           rooms := old(store.rooms) - {id},
           activities := old(store.activities)[aid := a],
           nextActivityId := aid + 1)
  {
    var room := store.GetRoom(id);
    if room.None? {
      return NotFound;
    }
    var deleted := store.DeleteRoom(id);
    if !deleted {
      assert false;
      return NotFound;
    }
    var activity := store.CreateActivity(RoomActivity(ROOM_DELETED, "deleted", id, room.value), now);
    resp := NoContent;
  }

  // ---------------------------------------------------------------------------
  // Query rules of the read handlers

  /**
   * `parseInt(limit) || 10` for GET /api/dashboard/recent-activities, where `None` is a missing
   * or unparsable limit: the default applies to those and to 0, never to another number.
   */
  function RecentActivitiesLimit(parsed: Option<int>): (limit: int)
    ensures limit != 0
    ensures parsed.Some? && parsed.value != 0 ==> limit == parsed.value
    ensures parsed.None? || parsed.value == 0 ==> limit == 10
  {
    if parsed.Some? && parsed.value != 0 then parsed.value else 10
  }

  /** Asking for 0 recent activities returns up to ten of them. */
  lemma ZeroLimitReturnsTen(store: MemStorage)
    requires store.Valid()
    ensures |store.GetRecentActivities(RecentActivitiesLimit(Some(0)))| == Min(10, |store.activities|)
  {
  }

  /**
   * GET /api/bookings: `userId ? parseInt(userId) : undefined`, then `if (userId)`. `None` is a
   * missing or unparsable id; it and the id 0 list every joined booking, any other id only
   * that user's.
   */
  function ListBookings(store: MemStorage, userId: Option<int>): (r: seq<BookingWithDetails>)
    reads store
    requires store.Valid()
    ensures forall d :: d in r <==> (
      && d.booking in store.bookings.Values && Resolves(d, store.rooms, store.users)
      && (userId.None? || userId.value == 0 || d.booking.userId == userId.value))
  {
    if userId.Some? && userId.value != 0 then store.GetBookingsByUser(userId.value) else store.AllBookings()
  }
}
