/**
 * The rooms page's filter: a case-insensitive search over a room's name, type and
 * amenities, a room-type filter and a capacity-bucket filter, all three required.
 */
module RoomsPage {
  import opened Collections
  import opened Schema
  import opened Text

  const ALL: string := "all"
  const SMALL: string := "small"
  const MEDIUM: string := "medium"
  const LARGE: string := "large"

  /** One field of the search (client/src/pages/rooms.tsx:23-25): the lower-cased term occurs in the lower-cased text. */
  predicate MatchesText(text: string, term: string)
  {
    Contains(Lower(text), Lower(term))
  }

  /** The amenity callback of `some` (client/src/pages/rooms.tsx:25). */
  function MatchesTextOf(term: string): string -> bool
  {
    (text: string) => MatchesText(text, term)
  }

  /** `matchesSearch` (client/src/pages/rooms.tsx:23-25): the term is in the name, the type or some amenity. */
  predicate MatchesSearch(room: Room, term: string)
  {
    MatchesText(room.name, term) || MatchesText(room.roomType, term) || Any(room.amenities, MatchesTextOf(term))
  }

  /** `matchesType` (client/src/pages/rooms.tsx:26): the filter is "all" or the room's own type. */
  predicate MatchesType(room: Room, typeFilter: string)
  {
    typeFilter == ALL || room.roomType == typeFilter
  }

  /** `matchesCapacity` (client/src/pages/rooms.tsx:27-30): small rooms seat up to 6, medium 7 to 20, large more than 20. */
  predicate MatchesCapacity(room: Room, capacityFilter: string)
  {
    || capacityFilter == ALL
    || (capacityFilter == SMALL && room.capacity <= 6)
    || (capacityFilter == MEDIUM && room.capacity > 6 && room.capacity <= 20)
    || (capacityFilter == LARGE && room.capacity > 20)
  }

  /** The callback of `rooms.filter` (client/src/pages/rooms.tsx:22-33): all three filters pass. */
  function Keeps(term: string, typeFilter: string, capacityFilter: string): RoomWithStatus -> bool
  {
    (r: RoomWithStatus) =>
      MatchesSearch(r.room, term) && MatchesType(r.room, typeFilter) && MatchesCapacity(r.room, capacityFilter)
  }

  /** `filteredRooms`: the rooms passing all three filters, in the order the server listed them. */
  function FilteredRooms(rooms: seq<RoomWithStatus>, term: string, typeFilter: string, capacityFilter: string)
    : (shown: seq<RoomWithStatus>)
    ensures forall r :: r in shown <==>
              r in rooms && MatchesSearch(r.room, term) && MatchesType(r.room, typeFilter)
              && MatchesCapacity(r.room, capacityFilter)
    ensures IsSubsequence(shown, rooms)
  {
    FilterIsSubsequence(rooms, Keeps(term, typeFilter, capacityFilter));
    Filter(rooms, Keeps(term, typeFilter, capacityFilter))
  }

  /** With an empty search and both filters on "all", every room is shown, in order. */
  lemma NoFilterShowsAll(rooms: seq<RoomWithStatus>)
    ensures FilteredRooms(rooms, "", ALL, ALL) == rooms
  {
    forall r | r in rooms
      ensures Keeps("", ALL, ALL)(r)
    {
      ContainsTrivial(Lower(r.room.name));
    }
    FilterKeepsAll(rooms, Keeps("", ALL, ALL));
  }

  /** Every capacity falls in exactly one of the three buckets. */
  lemma CapacityBucketsPartition(room: Room)
    ensures MatchesCapacity(room, SMALL) || MatchesCapacity(room, MEDIUM) || MatchesCapacity(room, LARGE)
    ensures !(MatchesCapacity(room, SMALL) && MatchesCapacity(room, MEDIUM))
    ensures !(MatchesCapacity(room, SMALL) && MatchesCapacity(room, LARGE))
    ensures !(MatchesCapacity(room, MEDIUM) && MatchesCapacity(room, LARGE))
  {
  }

  /** The search ignores the case of what is typed. */
  lemma SearchIgnoresCase(room: Room, term: string)
    ensures MatchesSearch(room, Lower(term)) <==> MatchesSearch(room, term)
  {
    LowerSpec(term);
    forall a | a in room.amenities
      ensures MatchesTextOf(Lower(term))(a) == MatchesTextOf(term)(a)
    {
    }
  }

  /** A term that occurs, lower-cased, in a room's lower-cased name is found by the search. */
  lemma SearchFindsSubstrings(room: Room, term: string, i: nat)
    requires i <= |room.name| && IsPrefix(Lower(term), Lower(room.name)[i..])
    ensures MatchesSearch(room, term)
  {
    LowerSpec(room.name);
    ContainsAt(Lower(room.name), Lower(term));
  }
}
