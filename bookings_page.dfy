/**
 * The "my bookings" page: which fetched bookings are listed for the signed-in user, and
 * when each one offers its edit and cancel buttons.
 */
module BookingsPage {
  import opened Collections
  import opened Schema

  const ADMIN: string := "admin"

  /** `user?.role === 'admin'`. */
  predicate IsAdmin(user: Option<User>)
  {
    user.Some? && user.value.role == ADMIN
  }

  /** The callback of `bookings.filter` (client/src/pages/bookings.tsx:27-29): an admin sees every booking, anyone else their own. */
  function VisibleTo(user: Option<User>): BookingWithDetails -> bool
  {
    (d: BookingWithDetails) => IsAdmin(user) || (user.Some? && d.booking.userId == user.value.id)
  }

  /** `userBookings`: every booking for an admin, one's own otherwise, none when signed out. */
  function UserBookings(bookings: seq<BookingWithDetails>, user: Option<User>): (shown: seq<BookingWithDetails>)
    ensures IsAdmin(user) ==> shown == bookings
    ensures user.None? ==> shown == []
    ensures user.Some? && !IsAdmin(user) ==>
              forall d :: d in shown <==> d in bookings && d.booking.userId == user.value.id
    ensures IsSubsequence(shown, bookings)
  {
    FilterIsSubsequence(bookings, VisibleTo(user));
    if IsAdmin(user) then
      FilterKeepsAll(bookings, VisibleTo(user));
      Filter(bookings, VisibleTo(user))
    else if user.None? then
      NothingPasses(bookings, VisibleTo(user));
      Filter(bookings, VisibleTo(user))
    else
      Filter(bookings, VisibleTo(user))
  }

  /** A filter nothing passes keeps nothing. */
  lemma NothingPasses(bookings: seq<BookingWithDetails>, p: BookingWithDetails -> bool)
    requires forall d :: !p(d)
    ensures Filter(bookings, p) == []
  {
  }

  /** The edit button (client/src/pages/bookings.tsx:69): offered on pending bookings, and on every booking to an admin. */
  predicate CanEdit(d: BookingWithDetails, user: Option<User>)
  {
    d.booking.status == PENDING || IsAdmin(user)
  }

  /** The cancel button (client/src/pages/bookings.tsx:80): offered while the booking has not started, whoever is looking. */
  predicate CanCancel(d: BookingWithDetails, now: int)
  {
    d.booking.startTime > now
  }

  /** Of the bookings a non-admin sees, the ones they can edit are their own pending ones. */
  lemma EditableByNonAdmin(bookings: seq<BookingWithDetails>, user: Option<User>)
    ensures forall d :: d in UserBookings(bookings, user) && CanEdit(d, user) && !IsAdmin(user) ==>
              d.booking.status == PENDING && d.booking.userId == user.value.id
  {
  }
}
