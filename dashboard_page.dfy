/**
 * The dashboard's room filter: the same search box and room-type filter as the rooms
 * page, but the search looks at name and type only and there is no capacity filter.
 */
module DashboardPage {
  import opened Collections
  import opened Schema
  import opened Text
  import RoomsPage

  /** `matchesSearch` on the dashboard (client/src/pages/dashboard.tsx:25-26): the term is in the name or the type. */
  predicate MatchesSearch(room: Room, term: string)
  {
    RoomsPage.MatchesText(room.name, term) || RoomsPage.MatchesText(room.roomType, term)
  }

  /** The callback of `rooms.filter` (client/src/pages/dashboard.tsx:24-29): search and type pass. */
  function Keeps(term: string, typeFilter: string): RoomWithStatus -> bool
  {
    (r: RoomWithStatus) => MatchesSearch(r.room, term) && RoomsPage.MatchesType(r.room, typeFilter)
  }

  /** `filteredRooms` on the dashboard: rooms matching the search and the type, in order. */
  function FilteredRooms(rooms: seq<RoomWithStatus>, term: string, typeFilter: string): (shown: seq<RoomWithStatus>)
    ensures forall r :: r in shown <==>
              r in rooms && MatchesSearch(r.room, term) && RoomsPage.MatchesType(r.room, typeFilter)
    ensures IsSubsequence(shown, rooms)
  {
    FilterIsSubsequence(rooms, Keeps(term, typeFilter));
    Filter(rooms, Keeps(term, typeFilter))
  }

  /** With an empty search and the type filter on "all", every room is shown, in order. */
  lemma NoFilterShowsAll(rooms: seq<RoomWithStatus>)
    ensures FilteredRooms(rooms, "", RoomsPage.ALL) == rooms
  {
    forall r | r in rooms
      ensures Keeps("", RoomsPage.ALL)(r)
    {
      ContainsTrivial(Lower(r.room.name));
    }
    FilterKeepsAll(rooms, Keeps("", RoomsPage.ALL));
  }

  /**
   * Every room the dashboard shows, the rooms page shows for the same search and type with
   * any capacity: the dashboard's search is the rooms page's without amenities.
   */
  lemma DashboardShowsNoMoreThanRoomsPage(rooms: seq<RoomWithStatus>, term: string, typeFilter: string)
    ensures forall r :: r in FilteredRooms(rooms, term, typeFilter) ==>
              r in RoomsPage.FilteredRooms(rooms, term, typeFilter, RoomsPage.ALL)
  {
  }

  /** A room whose only match is an amenity is on the rooms page but not on the dashboard. */
  lemma AmenityOnlyMatchIsNotOnDashboard()
    ensures var room := Room(1, "A", 4, "event", ["tv"], 0, None, None, true, 0);
            var rs := [RoomWithStatus(room, true, None, None)];
            FilteredRooms(rs, "tv", RoomsPage.ALL) == []
            && RoomsPage.FilteredRooms(rs, "tv", RoomsPage.ALL, RoomsPage.ALL) == rs
  {
    var room := Room(1, "A", 4, "event", ["tv"], 0, None, None, true, 0);
    var rs := [RoomWithStatus(room, true, None, None)];
    LowerKeepsLowerCase("tv");
    LowerKeepsLowerCase("event");
    assert Lower("A") == "a";
    assert RoomsPage.MatchesText("tv", "tv") by { ContainsTrivial("tv"); }
    assert !Contains("a", "tv");
    assert !Contains("event", "tv");
    assert !MatchesSearch(room, "tv");
    assert Any(room.amenities, RoomsPage.MatchesTextOf("tv"));
    assert RoomsPage.FilteredRooms(rs, "tv", RoomsPage.ALL, RoomsPage.ALL) == rs by {
      FilterKeepsAll(rs, RoomsPage.Keeps("tv", RoomsPage.ALL, RoomsPage.ALL));
    }
  }
}
