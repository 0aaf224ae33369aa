/**
 * Favourites tab state: the favourite events loaded from the API, the set of favourite slugs
 * used for quick membership tests, and the list cursor.
 */
module Favorites {
  import opened Wrappers
  import opened Gamma
  import opened ListWindow

  /** `FavoritesState`: the favourites tab. */
  class FavoritesState {
    var events: seq<Event>
    var favoriteIds: seq<FavoriteEvent>
    var favoriteEventSlugs: set<string>
    var selectedIndex: nat
    var scroll: nat
    var isLoading: bool
    var errorMessage: Option<string>

    /** `new`: nothing loaded, nothing favourite, the cursor at the top. */
    constructor ()
      ensures events == [] && favoriteIds == [] && favoriteEventSlugs == {}
      ensures selectedIndex == 0 && scroll == 0 && !isLoading && errorMessage == None
    {
      events := [];
      favoriteIds := [];
      favoriteEventSlugs := {};
      selectedIndex := 0;
      scroll := 0;
      isLoading := false;
      errorMessage := None;
    }

    /** `selected_event`: the event under the cursor, or none when the cursor is past the end. */
    function SelectedEvent(): (r: Option<Event>)
      reads this
      ensures r.Some? <==> selectedIndex < |events|
      ensures r.Some? ==> r.value == events[selectedIndex]
    {
      Get(events, selectedIndex)
    }

    /** `is_favorite`: whether `slug` is among the favourite slugs. */
    function IsFavorite(slug: string): (r: bool)
      reads this
      ensures r <==> slug in favoriteEventSlugs
    {
      slug in favoriteEventSlugs
    }

    /** The cursor as a list-window value. */
    function Position(): Cursor
      reads this
    {
      Cursor(selectedIndex, scroll)
    }

    /** `move_up`: the previous event, scrolling up to keep it on screen. */
    method MoveUp()
      modifies this`selectedIndex, this`scroll
      ensures Position() == Up(old(Position()))
      ensures old(selectedIndex) > 0 ==> selectedIndex == old(selectedIndex) - 1
      ensures old(selectedIndex) == 0 ==> selectedIndex == 0 && scroll == old(scroll)
      ensures forall h: nat :: InView(old(Position()), h) ==> InView(Position(), h)
    {
      if selectedIndex > 0 {
        selectedIndex := selectedIndex - 1;
        if selectedIndex < scroll {
          scroll := selectedIndex;
        }
      }
    }

    /** `move_down`: the next event if there is one, scrolling down to keep it on screen. */
    method MoveDown(visibleHeight: nat)
      modifies this`selectedIndex, this`scroll
      ensures Position() == Down(old(Position()), |events|, visibleHeight)
      ensures old(selectedIndex) + 1 < |events| ==> selectedIndex == old(selectedIndex) + 1
      ensures old(selectedIndex) + 1 >= |events| ==>
        selectedIndex == old(selectedIndex) && scroll == old(scroll)
      ensures old(selectedIndex) < |events| ==> selectedIndex < |events|
      ensures visibleHeight >= 1 && InView(old(Position()), visibleHeight) ==>
        InView(Position(), visibleHeight)
    {
      if selectedIndex + 1 < |events| {
        selectedIndex := selectedIndex + 1;
        if selectedIndex >= scroll + visibleHeight {
          scroll := selectedIndex - visibleHeight + 1;
        }
      }
    }

    /**
     * `clear`: drop the loaded events and favourite entries and reset the cursor and the
     * error. The slug set and the loading flag are left as they were.
     */
    method Clear()
      modifies this`events, this`favoriteIds, this`selectedIndex, this`scroll, this`errorMessage
      ensures events == [] && favoriteIds == []
      ensures selectedIndex == 0 && scroll == 0 && errorMessage == None
      ensures SelectedEvent() == None
    {
      events := [];
      favoriteIds := [];
      selectedIndex := 0;
      scroll := 0;
      errorMessage := None;
    }
  }
}
