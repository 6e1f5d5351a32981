/**
 * The booking dialog's two computations: the cost shown while the form is filled in
 * (hours billed, rounded up, at least one, times the room's hourly rate) and the request
 * body built on submit, which drops the recurrence fields of a one-off booking.
 *
 * Date and time strings are parsed elsewhere: the cost takes the parsed duration in
 * milliseconds, the submission the parsed start, end and recurrence end.
 */
module BookingModal {
  import opened Collections
  import opened Schema

  // ---------------------------------------------------------------------------
  // Cost

  /** `Math.max(1, Math.ceil(duration / 3_600_000))`. */
  function BilledHours(durationMs: int): (h: int)
    ensures h >= 1
    ensures durationMs > 0 ==> (h - 1) * HOUR_MS < durationMs <= h * HOUR_MS
    ensures durationMs <= HOUR_MS ==> h == 1
  {
    Max(1, CeilDiv(durationMs, HOUR_MS))
  }

  /** `hours * room.hourlyRate`. */
  function Cost(durationMs: int, hourlyRate: int): int
  {
    BilledHours(durationMs) * hourlyRate
  }

  /** A 90-minute booking is billed two hours, a 60-minute one one hour, an empty or inverted one one hour. */
  lemma BilledHoursExamples(durationMs: int)
    ensures BilledHours(90 * 60 * 1000) == 2
    ensures BilledHours(60 * 60 * 1000) == 1
    ensures durationMs <= 0 ==> BilledHours(durationMs) == 1
  {
    assert CeilDiv(90 * 60 * 1000, HOUR_MS) == 2;
  }

  /**
   * The cost is a whole number of hours at the room's rate, never less than one hour's
   * worth for a non-negative rate, and never lower for a longer booking.
   */
  lemma CostSpec(d1: int, d2: int, hourlyRate: int)
    ensures exists h :: h >= 1 && Cost(d1, hourlyRate) == h * hourlyRate
    ensures hourlyRate >= 0 ==> Cost(d1, hourlyRate) >= hourlyRate
    ensures hourlyRate >= 0 && d1 <= d2 ==> Cost(d1, hourlyRate) <= Cost(d2, hourlyRate)
  {
    var h1 := BilledHours(d1);
    assert h1 >= 1 && Cost(d1, hourlyRate) == h1 * hourlyRate;
    if hourlyRate >= 0 {
      assert h1 * hourlyRate >= 1 * hourlyRate;
      if d1 <= d2 {
        CeilDivMonotone(d1, d2, HOUR_MS);
        var h2 := BilledHours(d2);
        assert h1 <= h2;
        assert h1 * hourlyRate <= h2 * hourlyRate;
      }
    }
  }

  /** The form fields the cost effect watches. */
  datatype CostInputs = CostInputs(roomId: Option<int>, date: string, startTime: string, endTime: string)

  function HasRoomId(id: int): Room -> bool { (r: Room) => r.id == id }

  /**
   * The `form.watch` effect: when room, date, start and end are all filled in (a room id
   * of 0 counts as missing) and the room is among `rooms`, the cost for `durationMs` at the
   * first such room's rate; otherwise the current `totalCost`, untouched.
   */
  function WatchedCost(v: CostInputs, rooms: seq<Room>, durationMs: int, totalCost: int): (c: int)
    ensures (v.roomId.None? || v.roomId.value == 0 || v.date == "" || v.startTime == "" || v.endTime == "")
            ==> c == totalCost
    ensures v.roomId.Some? && (forall r :: r in rooms ==> r.id != v.roomId.value) ==> c == totalCost
    ensures v.roomId.Some? && v.roomId.value != 0 && v.date != "" && v.startTime != "" && v.endTime != ""
            && (exists r :: r in rooms && r.id == v.roomId.value)
            ==> exists r :: r in rooms && r.id == v.roomId.value && c == Cost(durationMs, r.hourlyRate)
  {
    if v.roomId.Some? && v.roomId.value != 0 && v.date != "" && v.startTime != "" && v.endTime != "" then
      var room := Find(rooms, HasRoomId(v.roomId.value));
      if room.Some? then Cost(durationMs, room.value.hourlyRate) else totalCost
    else totalCost
  }

  // ---------------------------------------------------------------------------
  // Submission

  /** The dialog's form values; the recurrence end is a `yyyy-MM-dd` string or null. */
  datatype BookingForm = BookingForm(
    roomId: int, userId: int, title: string, description: string, date: string,
    startTime: string, endTime: string, status: string, isRecurring: bool,
    recurringType: Option<string>, recurringEndDate: Option<string>, totalCost: int)

  /** The request body sent to the server, times in milliseconds. */
  datatype BookingRequest = BookingRequest(
    roomId: int, userId: int, title: string, description: string,
    startTime: int, endTime: int, status: string, isRecurring: bool,
    recurringType: Option<string>, recurringEndDate: Option<int>, totalCost: int)

  /**
   * `onSubmit`'s body: the form with the parsed times and the dialog's own recurring flag; a
   * one-off booking sends no recurrence type or end, and a recurring one sends its end only
   * when one was entered.
   */
  function SubmitRequest(data: BookingForm, isRecurring: bool, startMs: int, endMs: int, recurringEndMs: int): (r: BookingRequest)
    ensures r.isRecurring == isRecurring
    ensures !isRecurring ==> r.recurringType.None? && r.recurringEndDate.None?
    ensures isRecurring ==> r.recurringType == data.recurringType
    ensures r.recurringEndDate.Some? <==> isRecurring && data.recurringEndDate.Some? && data.recurringEndDate.value != ""
    ensures r.recurringEndDate.Some? ==> r.recurringEndDate.value == recurringEndMs
    ensures r.startTime == startMs && r.endTime == endMs
    ensures r.roomId == data.roomId && r.userId == data.userId && r.title == data.title
    ensures r.status == data.status && r.totalCost == data.totalCost
  {
    BookingRequest(
      data.roomId, data.userId, data.title, data.description, startMs, endMs, data.status, isRecurring,
      if isRecurring then data.recurringType else None,
      if isRecurring && data.recurringEndDate.Some? && data.recurringEndDate.value != "" then Some(recurringEndMs) else None,
      data.totalCost)
  }

  /** Where the body goes: PUT to the edited booking, else POST. */
  datatype Submission = UpdateBooking(id: int, body: BookingRequest) | CreateBooking(body: BookingRequest)

  function Submit(editing: Option<int>, body: BookingRequest): (s: Submission)
    ensures s.body == body
    ensures s.UpdateBooking? <==> editing.Some?
    ensures s.UpdateBooking? ==> s.id == editing.value
  {
    if editing.Some? then UpdateBooking(editing.value, body) else CreateBooking(body)
  }

  /** The update the server receives from the dialog: every field present. */
  function AsPatch(r: BookingRequest): BookingPatch
  {
    BookingPatch(Some(r.roomId), Some(r.userId), Some(r.title), Some(Some(r.description)),
                 Some(r.startTime), Some(r.endTime), Some(r.status), Some(r.isRecurring),
                 Some(r.recurringType), Some(r.recurringEndDate), None, Some(r.totalCost))
  }

  /** An edit made through the dialog always carries a start time, so the server always checks it. */
  lemma DialogEditIsChecked(r: BookingRequest, existing: Booking)
    ensures AsPatch(r).startTime.Some? && AsPatch(r).endTime.Some?
    ensures PatchBooking(existing, AsPatch(r)).startTime == r.startTime
    ensures PatchBooking(existing, AsPatch(r)).endTime == r.endTime
  {
    PatchBookingSpec(existing, AsPatch(r));
  }
}
