# Room booking: a verified model

This project models the core of a meeting-room booking application. The core has three parts:

- **The in-memory store** (`MemStorage`). It holds four tables (users, rooms, bookings and the activity log), each keyed by a numeric id handed out by its own counter.
- **The mutating request handlers.** These are POST, PUT and DELETE on bookings and rooms. Each one writes to the store and logs one activity. Only POST and PUT on bookings check the room's availability first.
- **The client logic around them:**
  - the booking dialog's cost and request body;
  - the room card's status badge;
  - the rooms and dashboard filters;
  - the "my bookings" visibility and button rules;
  - the admin panel's forms.

The central invariant is that no two confirmed bookings of one room overlap (`Storage.NoOverlap`).

- Creating a booking preserves it.
- Deleting one preserves it.
- Updating the room or time of a booking preserves it, once the update is checked as intended (see Findings).

The model is organised as follows:

- `collections.dfy` gives the array operations the code relies on:
  - `filter`, `find`, `some` and `reduce`;
  - a stable sort, `slice(0, n)` and ceiling division;
  - the iteration order of a JavaScript `Map` whose keys come from a counter, which is ascending id order.
- `schema.dfy` holds the records, the insert shapes and the partial updates. An object spread `{ ...old, ...patch }` becomes `PatchRoom` and `PatchBooking`.
- `storage.dfy` holds the class `MemStorage`. Its map fields and counters are updated in place by its methods. Queries are functions over a `Valid()` store.
- `routes.dfy` holds the handlers. Each is a method over a store that returns the HTTP outcome.
- `text.dfy`, `booking_modal.dfy`, `room_card.dfy`, `rooms_page.dfy`, `dashboard_page.dfy`, `bookings_page.dfy` and `admin_page.dfy` hold the client logic.

Time is an integer number of milliseconds. The clock is a parameter:

- `now` is the current instant;
- `dayStart` is the midnight of the day asked about;
- `todayStart` is the midnight of the current day.

## Model

| member | source | states |
|---|---|---|
| Collections.CeilDiv | client/src/components/bookings/booking-modal.tsx:119 | the quotient rounded up: the least `q` with `n <= q * d` |
| Text.LowerSpec | client/src/pages/rooms.tsx:23-25 | lower-casing keeps the length, leaves no capital letter and is idempotent |
| Text.ContainsAt | client/src/pages/rooms.tsx:23-25 | `includes` holds exactly when the term starts some suffix of the text |
| Text.LowerKeepsLowerCase | client/src/pages/rooms.tsx:23-25 | a string without capitals is unchanged by lower-casing |
| Text.ContainsLength | client/src/pages/rooms.tsx:23-25 | a string only occurs in strings at least as long |
| Schema.PatchRoomSpec | server/storage.ts:170-177 | the merged room takes name, capacity and active flag from the update when present and keeps them otherwise; id and creation time never change; applying an update twice is applying it once; an empty update changes nothing |
| Schema.PatchBookingSpec | server/storage.ts:282-289 | the merged booking takes room, start, end and status from the update when present and keeps them otherwise; id and creation time never change; applying twice is applying once; an empty update changes nothing |
| Storage.WithDetails | server/storage.ts:216-229 | the joined list holds exactly the bookings whose room and user both exist, each joined with them |
| Storage.WithDetailsCount | server/storage.ts:216-229 | counting joined bookings that pass a test equals counting the bookings that resolve and whose join passes it |
| Storage.NextBookingSpec | server/storage.ts:198-206 | the next booking is a confirmed one starting after `now` with the least start; there is none iff no such booking exists |
| Storage.BookingsOfRoomMembers | server/storage.ts:247-257 | a room's bookings are those on the room that meet the window, and the window applies only when both bounds are given |
| Storage.CurrentBookingSpec | server/storage.ts:187-196 | the current booking is confirmed, meets the day and is under way at `now`; there is none iff no booking is |
| Storage.UpcomingBookingSpec | server/storage.ts:187-206 | the next booking is the earliest upcoming confirmed booking of the room that day; there is none iff none is upcoming |
| Storage.StatusOf | server/storage.ts:201-206 | an entry describes the room it was computed for |
| Storage.EachStatus | server/storage.ts:187-210 | the loop produces one status per room, in room order, each computed from the room's bookings |
| Storage.SeedRoomsKeys | server/storage.ts:72-126 | the seed rooms are 1 to 4, each active and stored under its own id |
| Storage.MemStorage.constructor | server/storage.ts:47-127 | the store starts with the admin user 1 and rooms 1-4, no bookings and no activities; the next ids are 2, 5, 1 and 1 |
| Storage.MemStorage.UserList | server/storage.ts:134 | the listing holds exactly the stored users |
| Storage.MemStorage.RoomList | server/storage.ts:153 | the listing holds exactly the stored rooms |
| Storage.MemStorage.BookingList | server/storage.ts:217 | the listing holds exactly the stored bookings |
| Storage.MemStorage.ActivityList | server/storage.ts:309 | the listing holds exactly the stored activities, once each |
| Storage.MemStorage.GetUser | server/storage.ts:129-131 | found iff the id is stored, and then it is that user |
| Storage.MemStorage.GetUserByUsername | server/storage.ts:133-135 | a stored user with that username, with the least id of all such users (the first in insertion order); none iff no user has it |
| Storage.MemStorage.GetUserByEmail | server/storage.ts:137-139 | a stored user with that email, with the least id of all such users (the first in insertion order); none iff no user has it |
| Storage.MemStorage.CreateUser | server/storage.ts:141-149 | the user gets the next id, above every existing one; only the users table and its counter change |
| Storage.MemStorage.GetAllRooms | server/storage.ts:152-154 | exactly the active stored rooms |
| Storage.MemStorage.ActiveRoomCount | server/storage.ts:152-154 | the listing has one entry per active room id |
| Storage.MemStorage.GetRoom | server/storage.ts:156-158 | found iff the id is stored, and then it is that room |
| Storage.MemStorage.CreateRoom | server/storage.ts:160-168 | the room gets the next id, above every existing one; only the rooms table and its counter change |
| Storage.MemStorage.UpdateRoom | server/storage.ts:170-177 | unknown id: nothing changes; otherwise the merged room replaces the old one under the same id |
| Storage.MemStorage.DeleteRoom | server/storage.ts:179-181 | reports whether the id was stored and removes it; nothing else changes |
| Storage.MemStorage.AllBookings | server/storage.ts:216-229 | the joined bookings: every stored booking whose room and user exist |
| Storage.MemStorage.GetAllBookings | server/storage.ts:216-229 | the loop builds exactly `AllBookings()` |
| Storage.MemStorage.GetBooking | server/storage.ts:231-240 | found iff the booking, its room and its user are all stored, and then it is that booking joined with them |
| Storage.MemStorage.GetBookingsByUser | server/storage.ts:242-245 | the joined bookings of that user, as an order-preserving subsequence |
| Storage.MemStorage.GetBookingsByRoom | server/storage.ts:247-257 | the stored bookings on that room that meet the window when both bounds are given |
| Storage.MemStorage.GetTodaysBookings | server/storage.ts:259-270 | a permutation of the joined bookings starting in today's window, sorted by start time |
| Storage.MemStorage.CreateBooking | server/storage.ts:272-280 | the booking gets the next id, above every existing one; only the bookings table and its counter change |
| Storage.MemStorage.UpdateBooking | server/storage.ts:282-289 | unknown id: nothing changes; otherwise the merged booking replaces the old one under the same id |
| Storage.MemStorage.DeleteBooking | server/storage.ts:291-293 | reports whether the id was stored and removes it (a hard delete); nothing else changes |
| Storage.MemStorage.CheckRoomAvailability | server/storage.ts:295-305 | free iff no stored confirmed booking on the room, other than the excluded id, overlaps the half-open slot |
| Storage.MemStorage.RoomStatusSpec | server/storage.ts:183-213 | available iff no current booking; the current booking occupies the room at `now`; the next booking is the earliest upcoming one; none iff none exists |
| Storage.MemStorage.RoomsWithStatus | server/storage.ts:183-213 | one entry per active room, in listing order: entry k is the status of the k-th active room over the stored bookings, each about a stored active room |
| Storage.MemStorage.GetRoomsWithStatus | server/storage.ts:183-213 | the loop builds exactly `RoomsWithStatus` |
| Storage.MemStorage.CreateActivity | server/storage.ts:314-322 | the activity gets the next id, above every existing one; only the log and its counter change |
| Storage.MemStorage.GetRecentActivities | server/storage.ts:308-312 | newest first; `limit` entries, or all of them (a negative limit drops that many from the end); each stored activity appears at most as often as it is listed, so nothing repeats; no omitted activity is newer than a returned one |
| Storage.MemStorage.GetDashboardStats | server/storage.ts:325-343 | available ≤ total = the number of active rooms; available = the number of active rooms that no confirmed booking occupies at `now`; pending and booked-today are counts over the tables; revenue is the cost sum of today's confirmed joined bookings |
| Storage.MemStorage.AvailableCount | server/storage.ts:327-330 | the status entries marked available are as many as the active room ids no stored confirmed booking occupies at `now` |
| Storage.MemStorage.PendingCount | server/storage.ts:332 | the filtered listing counts the pending booking ids |
| Storage.MemStorage.TodayCount | server/storage.ts:331-335 | today's confirmed bookings, counted from the sorted list, are as many as the confirmed booking ids that resolve and start today, and their cost sum is that of the unsorted list |
| Storage.NoOverlap | server/storage.ts:295-305 | the invariant the availability check guards: no two distinct confirmed bookings of one room overlap |
| Storage.CreateKeepsNoOverlap | server/routes.ts:214-224 | adding a booking whose slot passed the availability check keeps the no-overlap invariant, whatever its status |
| Storage.UpdateKeepsNoOverlap | server/routes.ts:263-272 | replacing a booking by one whose slot passed the check that excludes it keeps the invariant |
| Storage.DeleteKeepsNoOverlap | server/routes.ts:307 | removing a booking keeps the invariant |
| Routes.NeedsCheckAsWritten | server/routes.ts:253 | the guard as written: a start, an end, or a truthy (non-zero) room id in the update |
| Routes.CheckedSlotAsWritten | server/routes.ts:259-261 | the slot checked as written: a room id of 0 falls back to the stored room |
| Routes.NeedsCheck | server/routes.ts:253 | the guard as intended: a start, an end or a room id present in the update |
| Routes.AsWrittenAgreesOffRoomZero | server/routes.ts:253-261 | for any update whose room id is not 0, the as-written guard and checked slot equal the intended ones, so room 0 is the only discrepancy |
| Routes.CheckedSlot | server/routes.ts:259-261 | the slot to check takes each of room, start and end from the update when present, else from the booking |
| Routes.CheckedSlotIsWritten | server/routes.ts:259-272 | that slot is the slot the update writes; an update that names none of the three keeps the slot |
| Routes.RoomZeroEscapesCheck | server/routes.ts:253-261 | as written, moving a booking to room 0 alone is not checked, and when checked the old room is the one checked |
| Routes.AsWrittenUpdateDoubleBooks | server/routes.ts:253-272 | a concrete update that passes the as-written check and leaves two confirmed bookings overlapping on one room |
| Routes.CheckedUpdateKeepsNoOverlap | server/routes.ts:259-272 | an update that passes the intended check keeps the invariant |
| Routes.UncheckedUpdateKeepsNoOverlap | server/routes.ts:253 | an update naming neither room, times nor status keeps the invariant without a check |
| Routes.StatusOnlyUpdateCanDoubleBook | server/routes.ts:253 | confirming an overlapping pending booking is not checked and breaks the invariant |
| Routes.PostBooking | server/routes.ts:209-245 | taken slot: 409 and no change; otherwise the booking is stored under the next id, one `booking_created` activity is logged and the answer is 201 with the joined booking; the invariant is kept |
| Routes.PutBooking | server/routes.ts:247-296 | 404 or 409 leave the store unchanged; otherwise the merged booking is stored, one `booking_updated` activity is logged and the answer is 200; the invariant is kept unless only the status changes |
| Routes.DeleteBooking | server/routes.ts:298-328 | 404 and no change unless the booking reads back joined; otherwise it is removed, one `booking_cancelled` activity is logged with its booking and room, and the answer is 204; the invariant is kept |
| Routes.PostRoom | server/routes.ts:92-114 | the room is stored under the next id, one `room_created` activity is logged, and the answer is 201 |
| Routes.PutRoom | server/routes.ts:116-143 | unknown id: 404 and no change; otherwise the merged room is stored and one `room_updated` activity is logged |
| Routes.DeleteRoom | server/routes.ts:145-174 | unknown id: 404 and no change; otherwise the room is removed, one `room_deleted` activity is logged, and the answer is 204 |
| Routes.RecentActivitiesLimit | server/routes.ts:60 | a missing, unparsable or zero limit becomes 10; any other number is kept |
| Routes.ZeroLimitReturnsTen | server/routes.ts:60-61 | asking for 0 recent activities returns up to ten |
| Routes.ListBookings | server/routes.ts:178-189 | without a user id, or with id 0, every joined booking; otherwise that user's |
| BookingModal.BilledHours | client/src/components/bookings/booking-modal.tsx:119 | at least one hour; for a positive duration, the whole hours rounded up; one hour for anything up to an hour |
| BookingModal.BilledHoursExamples | client/src/components/bookings/booking-modal.tsx:119 | 90 minutes bill 2 hours, 60 minutes 1 hour, an empty or inverted slot 1 hour |
| BookingModal.Cost | client/src/components/bookings/booking-modal.tsx:120 | the billed hours times the room's hourly rate (its properties are stated by `BookingModal.CostSpec`) |
| BookingModal.CostSpec | client/src/components/bookings/booking-modal.tsx:119-120 | the cost is a whole number (≥ 1) of hours at the rate, at least one hour's rate, and never lower for a longer slot at a non-negative rate |
| BookingModal.WatchedCost | client/src/components/bookings/booking-modal.tsx:112-126 | with a missing room (or room 0), date, start or end, or an unknown room, the cost is left unchanged; otherwise it is the cost at a matching room's rate |
| BookingModal.SubmitRequest | client/src/components/bookings/booking-modal.tsx:171-184 | a one-off booking sends no recurrence type or end; a recurring one sends its type, and its end iff one was entered; the times are the parsed ones |
| BookingModal.Submit | client/src/components/bookings/booking-modal.tsx:186-190 | an edit is sent as an update of that booking, otherwise as a creation, with the same body |
| BookingModal.DialogEditIsChecked | client/src/components/bookings/booking-modal.tsx:175-187 | an edit from the dialog always names start and end, which the update then writes |
| RoomCard.HoursUntilAtMostTwo | client/src/components/rooms/room-card.tsx:29-31 | the rounded-up hours are at most 2 iff the next booking is at most two hours away |
| RoomCard.GetStatusInfo | client/src/components/rooms/room-card.tsx:15-55 | Occupied iff a booking is under way; Soon Available iff none is and the next starts within two hours; Available otherwise (exactly one); the button is disabled iff Occupied; "Free all day" iff there is neither a current nor a next booking |
| RoomCard.ShownAmenities | client/src/components/rooms/room-card.tsx:84 | a prefix of the amenities: all in detail view, at most three otherwise |
| RoomCard.MoreBadge | client/src/components/rooms/room-card.tsx:89-93 | "+n more" appears iff compact and more than three, with a positive count |
| RoomCard.AmenityBadgesCoverAll | client/src/components/rooms/room-card.tsx:84-93 | the amenities shown plus the "+n more" count add up to all of them |
| RoomsPage.FilteredRooms | client/src/pages/rooms.tsx:22-33 | a room is shown iff it matches the search, the type and the capacity bucket; the result is an order-preserving subsequence |
| RoomsPage.NoFilterShowsAll | client/src/pages/rooms.tsx:22-33 | an empty search with both filters on "all" shows every room in order |
| RoomsPage.CapacityBucketsPartition | client/src/pages/rooms.tsx:27-30 | every capacity is in exactly one of small, medium and large |
| RoomsPage.SearchIgnoresCase | client/src/pages/rooms.tsx:23-25 | the search gives the same answer for a term and its lower-case form |
| RoomsPage.SearchFindsSubstrings | client/src/pages/rooms.tsx:23 | a term occurring in the lower-cased name is found |
| DashboardPage.FilteredRooms | client/src/pages/dashboard.tsx:24-29 | a room is shown iff its name or type matches the search and it matches the type; an order-preserving subsequence |
| DashboardPage.NoFilterShowsAll | client/src/pages/dashboard.tsx:24-29 | an empty search with type "all" shows every room in order |
| DashboardPage.DashboardShowsNoMoreThanRoomsPage | client/src/pages/dashboard.tsx:25-26 | every room the dashboard shows, the rooms page shows for the same search and type |
| DashboardPage.AmenityOnlyMatchIsNotOnDashboard | client/src/pages/dashboard.tsx:25-26 | a room matching only by amenity is on the rooms page but not on the dashboard |
| BookingsPage.UserBookings | client/src/pages/bookings.tsx:27-29 | an admin sees all; signed out, none; anyone else exactly their own; an order-preserving subsequence |
| BookingsPage.CanEdit | client/src/pages/bookings.tsx:69 | the edit button shows on a pending booking, or on any booking to an admin |
| BookingsPage.CanCancel | client/src/pages/bookings.tsx:80 | the cancel button shows while the booking's start is after `now` |
| BookingsPage.EditableByNonAdmin | client/src/pages/bookings.tsx:69 | a non-admin can edit only their own pending bookings |
| AdminPage.OpenUserDialog | client/src/pages/admin.tsx:193-215 | blank for a new user; for an existing one its fields with the password cleared |
| AdminPage.HandleUserSubmit | client/src/pages/admin.tsx:175-183 | no selection: create with the whole form; an edit updates the selected user and leaves the password out iff it is empty |
| AdminPage.ValidUserForm | client/src/pages/admin.tsx:21-28 | the user schema: a username, a password of at least six characters, a name, a valid e-mail and the role user or admin |
| AdminPage.AcceptedEditAlwaysSendsPassword | client/src/pages/admin.tsx:21-28 | under the user schema, an accepted edit always sends a password, and the edit dialog as opened is rejected |
| AdminPage.EditKeepsPassword | client/src/pages/admin.tsx:175-179 | under an edit schema that allows an empty password, an unchanged edit is accepted and leaves the password out |
| AdminPage.OpenRoomDialog | client/src/pages/admin.tsx:217-243 | defaults for a new room (capacity 1, conference, rate 0, no amenities, active); for an existing one its fields, with a missing image URL or description as empty text |
| AdminPage.DefaultRoomFormNeedsOnlyAName | client/src/pages/admin.tsx:30-39 | the default form is rejected for its empty name only |
| AdminPage.ValidRoomForm | client/src/pages/admin.tsx:30-39 | the room schema: a name, capacity at least 1, a known type, a non-negative rate, and an image URL absent, empty or valid |
| AdminPage.HandleRoomSubmit | client/src/pages/admin.tsx:185-191 | an update of the selected room iff one is selected, otherwise a creation, with the form unchanged |
| AdminPage.UnchangedEditRoundTrip | client/src/pages/admin.tsx:217-229 | saving a room unedited gives it back, except that a missing image URL or description becomes empty text |

## Left out

- Real-time notifications to the connected WebSocket clients. They are network output after the store write, with no effect on the store.
- HTTP plumbing: request parsing, schema validation of the request body, JSON serialisation and the 500 answers on exceptions. A handler receives an already-validated body.
- Dates, time zones and string parsing. `new Date()`, local midnight and `HH:mm` parsing are replaced by millisecond parameters. A handler is given one `now`, where the code reads the clock several times.
- `getTodaysBookings` takes `todayStart` from the real clock even when the dashboard is asked about another date. The model keeps this as the separate `todayStart` parameter.
- Text.Lower: lower-cases the ASCII letters only, where `toLowerCase` covers all of Unicode.
- AdminPage.ValidUserForm: the e-mail format check is a boolean parameter; the rule itself is the form library's.
- AdminPage.ValidRoomForm: the URL format check is a boolean parameter, for the same reason.
- Cents-to-dollars formatting and the presentation of times (`format(…, 'p')`). They are display only; `RoomCard.Message` keeps the times themselves.
- The image and description lines of the room card. They are shown when present and have no logic.
- Sign-in, password hashing and tokens (server/auth.ts is not part of this model). The GET handlers that only forward a store call and the availability-check endpoint are also not part of this model. Their store calls are modelled.
- The server side of the admin panel's user dialog. The dialog sends its requests to `/api/users` paths, and neither server/routes.ts nor server/auth.ts registers any. The model covers what the dialog sends, not what becomes of it.
- The calendar page, the toast, the header, the dashboard widgets and the mock calendar API. They are presentation or simulated services.
- Routes.PutBooking: a status-only update is not checked, as in the code. Its invariant clause is therefore conditioned on the update not changing only the status (see `Routes.StatusOnlyUpdateCanDoubleBook`).
- Routes.PutBooking: models the corrected check (see Findings). The as-written check is modelled separately by `Routes.NeedsCheckAsWritten` and `Routes.CheckedSlotAsWritten`.
- BookingModal.SubmitRequest: the `date` field that the spread also copies is not part of the modelled body. The booking dialog's fixed user id 1 is whatever the form holds.
- BookingModal.WatchedCost: the rooms searched are the rooms listed to the dialog. Its last clause is stated as "some matching room", because the first match is not singled out.
- Storage.StatusOf: states only which room an entry is about. The rest of the entry is stated by `Storage.MemStorage.RoomStatusSpec`.

## Findings

| source | as written | input that shows it | evidently intended | confidence | as-written member | corrected member |
|---|---|---|---|---|---|---|
| server/routes.ts:253-261 | the update check falls back to the booking's room whenever the new room id is falsy, so a room id of 0 counts as absent: a room-only move to room 0 is not checked, and a move to room 0 with new times is checked against the old room; the write then stores room 0 | bookings 1 (room 0) and 2 (room 1), both confirmed at [0, 10); PUT booking 2 with `{roomId: 0, startTime: 0}` | check whenever room, start or end is present, against the room and times the update writes | low: room 0 is never handed out, so only bookings naming no existing room are affected; not executed | Routes.AsWrittenUpdateDoubleBooks | Routes.CheckedUpdateKeepsNoOverlap |
| client/src/pages/admin.tsx:21-28 | the user form requires a password of at least six characters, while the edit dialog clears the password, so editing a user without retyping one is rejected and the "leave the password out" branch of the submit handler can never run | open the dialog on any user and submit it unchanged | an edit accepts an empty password and keeps the current one | medium, not executed | AdminPage.AcceptedEditAlwaysSendsPassword | AdminPage.EditKeepsPassword |
