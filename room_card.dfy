/**
 * The room card: the status badge, message and book button derived from a room's current
 * and next booking, and the amenity badges it shows.
 *
 * Times are milliseconds; the message keeps the times it formats rather than the
 * formatted text.
 */
module RoomCard {
  import opened Collections
  import opened Schema

  const OCCUPIED: string := "Occupied"
  const SOON_AVAILABLE: string := "Soon Available"
  const AVAILABLE: string := "Available"

  /** The line under the badge. */
  datatype Message = Until(endTime: int) | FreeAt(startTime: int) | Next(startTime: int, endTime: int) | FreeAllDay

  datatype ButtonVariant = Default | Secondary

  datatype StatusInfo = StatusInfo(
    status: string, color: string, bgColor: string, message: Message,
    buttonText: string, buttonDisabled: bool, buttonVariant: ButtonVariant)

  /** `Math.ceil((next.startTime - now) / hour)`: whole hours, rounded up, until the next booking. */
  function HoursUntil(startTime: int, now: int): int
  {
    CeilDiv(startTime - now, HOUR_MS)
  }

  /** "At most two hours, rounded up" is "no more than two hours away". */
  lemma HoursUntilAtMostTwo(startTime: int, now: int)
    ensures HoursUntil(startTime, now) <= 2 <==> startTime - now <= 2 * HOUR_MS
  {
    var q := HoursUntil(startTime, now);
    assert (q - 1) * HOUR_MS < startTime - now <= q * HOUR_MS;
    if q <= 2 {
      assert q * HOUR_MS <= 2 * HOUR_MS;
    }
    if startTime - now <= 2 * HOUR_MS {
      assert (q - 1) * HOUR_MS < 2 * HOUR_MS;
    }
  }

  /**
   * `getStatusInfo`: occupied while a booking is running; otherwise "soon available" when the
   * next booking starts within two hours (or has already started); otherwise available.
   */
  function GetStatusInfo(room: RoomWithStatus, now: int): (s: StatusInfo)
    ensures s.status == OCCUPIED <==> room.currentBooking.Some?
    ensures s.status == SOON_AVAILABLE <==>
              room.currentBooking.None? && room.nextBooking.Some?
              && room.nextBooking.value.startTime - now <= 2 * HOUR_MS
    ensures s.status == AVAILABLE <==>
              room.currentBooking.None?
              && (room.nextBooking.None? || room.nextBooking.value.startTime - now > 2 * HOUR_MS)
    ensures s.buttonDisabled <==> s.status == OCCUPIED
    ensures s.status == OCCUPIED ==> s.message == Until(room.currentBooking.value.endTime)
    ensures s.status == SOON_AVAILABLE ==> s.message == FreeAt(room.nextBooking.value.startTime)
    ensures s.message == FreeAllDay <==> room.currentBooking.None? && room.nextBooking.None?
    ensures s.status == AVAILABLE && room.nextBooking.Some? ==>
              s.message == Next(room.nextBooking.value.startTime, room.nextBooking.value.endTime)
  {
    if room.currentBooking.Some? then
      StatusInfo(OCCUPIED, "text-error", "bg-error/10", Until(room.currentBooking.value.endTime),
                 "Unavailable", true, Secondary)
    else if room.nextBooking.Some? && HoursUntil(room.nextBooking.value.startTime, now) <= 2 then
      HoursUntilAtMostTwo(room.nextBooking.value.startTime, now);
      StatusInfo(SOON_AVAILABLE, "text-warning", "bg-warning/10", FreeAt(room.nextBooking.value.startTime),
                 "Book Later", false, Default)
    else if room.nextBooking.Some? then
      HoursUntilAtMostTwo(room.nextBooking.value.startTime, now);
      Available(Next(room.nextBooking.value.startTime, room.nextBooking.value.endTime))
    else
      Available(FreeAllDay)
  }

  function Available(message: Message): StatusInfo
  {
    StatusInfo(AVAILABLE, "text-success", "bg-success/10", message, "Book Now", false, Default)
  }

  /** The amenities shown as badges: all of them in detail view, the first three otherwise. */
  function ShownAmenities(amenities: seq<string>, showDetails: bool): (shown: seq<string>)
    ensures |shown| <= |amenities| && shown == amenities[..|shown|]
    ensures showDetails ==> shown == amenities
    ensures !showDetails ==> |shown| == Min(3, |amenities|)
  {
    SliceTo(amenities, if showDetails then |amenities| else 3)
  }

  /** The "+n more" badge: shown only in the compact view when more than three amenities exist. */
  function MoreBadge(amenities: seq<string>, showDetails: bool): (more: Option<int>)
    ensures more.Some? <==> !showDetails && |amenities| > 3
    ensures more.Some? ==> more.value > 0
  {
    if !showDetails && |amenities| > 3 then Some(|amenities| - 3) else None
  }

  /** The badges account for every amenity: the ones shown plus the count in "+n more". */
  lemma AmenityBadgesCoverAll(amenities: seq<string>, showDetails: bool)
    ensures |ShownAmenities(amenities, showDetails)|
            + (if MoreBadge(amenities, showDetails).Some? then MoreBadge(amenities, showDetails).value else 0)
            == |amenities|
  {
  }
}
