/**
 * Navigation state: the focused panel, the top-level tabs, the event list's filter and its
 * sort order, with the cyclic next/previous steps the key bindings use.
 */
module Navigation {
  import opened Wrappers

  datatype FocusedPanel = Header | EventsList | EventDetails | Markets | Trades | Logs

  /** The top-level tab: a cycle of three. */
  datatype MainTab = Trending | Favorites | Yield {
    function Label(): (r: string)
      ensures r != []
    {
      match this
      case Trending => "Trending"
      case Favorites => "Favorites"
      case Yield => "Yield"
    }

    /** Distinct values show distinct labels, so a label identifies its value. */
    lemma LabelInjective(other: MainTab)
      ensures Label() == other.Label() ==> this == other
    {
    }

    function Next(): (r: MainTab)
      ensures r != this
    {
      match this
      case Trending => Favorites
      case Favorites => Yield
      case Yield => MainTab.Trending
    }

    function Prev(): (r: MainTab)
      ensures r != this
    {
      match this
      case Trending => Yield
      case Favorites => MainTab.Trending
      case Yield => Favorites
    }
  }

  /** `next` and `prev` undo each other, and three steps come back to the start. */
  lemma MainTabCycle(t: MainTab)
    ensures t.Next().Prev() == t && t.Prev().Next() == t
    ensures t.Next().Next().Next() == t
    ensures t.Next().Next() == t.Prev()
  {
  }

  /** The event list filter; each names the API field the list is ordered by. */
  datatype EventFilter = Trending | Breaking {
    /**
     * `order_by`: trending lists order by the field the default sort asks for; breaking lists
     * order by a field that no sort option asks for.
     */
    function OrderBy(): (r: string)
      ensures this == EventFilter.Trending <==> r == EventSortBy.Volume24hr.ApiOrderParam()
      ensures this == Breaking ==> forall s: EventSortBy :: r != s.ApiOrderParam()
    {
      match this
      case Trending => "volume24hr"
      case Breaking => "oneDayPriceChange"
    }

    function Label(): (r: string)
      ensures r != []
    {
      match this
      case Trending => "Events"
      case Breaking => "Breaking"
    }

    /** Distinct values show distinct labels, so a label identifies its value. */
    lemma LabelInjective(other: EventFilter)
      ensures Label() == other.Label() ==> this == other
    {
    }

    function Next(): (r: EventFilter)
      ensures r != this
    {
      match this
      case Trending => Breaking
      case Breaking => EventFilter.Trending
    }

    function Prev(): (r: EventFilter)
      ensures r != this
    {
      match this
      case Trending => Breaking
      case Breaking => EventFilter.Trending
    }
  }

  /** With two filters, stepping forward and back are the same involution. */
  lemma EventFilterNextIsPrev(f: EventFilter)
    ensures f.Next() == f.Prev()
    ensures f.Next().Next() == f && f.Prev().Prev() == f
  {
  }

  /** The sort order of the event list, in the order the sort key cycles through them. */
  datatype EventSortBy = Volume24hr | VolumeTotal | Liquidity | Newest | EndingSoon | Competitive {

    /** The position of this order in the cycle. */
    function Index(): (i: nat)
      ensures i < SORT_ORDERS
    {
      match this
      case Volume24hr => 0
      case VolumeTotal => 1
      case Liquidity => 2
      case Newest => 3
      case EndingSoon => 4
      case Competitive => 5
    }

    function Label(): (r: string)
      ensures r != []
    {
      match this
      case Volume24hr => "24h Vol"
      case VolumeTotal => "Total Vol"
      case Liquidity => "Liquidity"
      case Newest => "Newest"
      case EndingSoon => "Ending Soon"
      case Competitive => "Competitive"
    }

    /** Distinct values show distinct labels, so a label identifies its value. */
    lemma LabelInjective(other: EventSortBy)
      ensures Label() == other.Label() ==> this == other
    {
    }

    /** `next`: the following order, wrapping from the last to the first. */
    function Next(): (r: EventSortBy)
      ensures r.Index() == (Index() + 1) % SORT_ORDERS
    {
      match this
      case Volume24hr => VolumeTotal
      case VolumeTotal => Liquidity
      case Liquidity => Newest
      case Newest => EndingSoon
      case EndingSoon => Competitive
      case Competitive => Volume24hr
    }

    /** `api_order_param`: the API field name the order asks the server to sort by. */
    function ApiOrderParam(): (r: string)
      ensures r != []
      ensures r == "volume24hr" <==> this == Volume24hr
    {
      match this
      case Volume24hr => "volume24hr"
      case VolumeTotal => "volume"
      case Liquidity => "liquidity"
      case Newest => "createdAt"
      case EndingSoon => "endDate"
      case Competitive => "competitive"
    }

    /** `is_ascending`: only "ending soon" lists the smallest value first. */
    function IsAscending(): (r: bool)
      ensures r <==> this == EndingSoon
    {
      match this
      case EndingSoon => true
      case Newest => false
      case _ => false
    }
  }

  const SORT_ORDERS: nat := 6

  /** The order `k` steps of `next` away from `s`. */
  function NextN(s: EventSortBy, k: nat): EventSortBy
  {
    if k == 0 then s else NextN(s, k - 1).Next()
  }

  lemma IndexInjective(a: EventSortBy, b: EventSortBy)
    ensures a.Index() == b.Index() ==> a == b
  {
  }

  lemma {:induction false} NextNIndex(s: EventSortBy, k: nat)
    ensures NextN(s, k).Index() == (s.Index() + k) % SORT_ORDERS
  {
    if k > 0 {
      NextNIndex(s, k - 1);
    }
  }

  /**
   * `next` is a single cycle through all six orders: six steps return to the start, no fewer
   * do, and every order is reached within six steps from any other.
   */
  lemma SortOrderCycle(s: EventSortBy, t: EventSortBy)
    ensures NextN(s, SORT_ORDERS) == s
    ensures forall k | 0 < k < SORT_ORDERS :: NextN(s, k) != s
    ensures exists k | 0 <= k < SORT_ORDERS :: NextN(s, k) == t
  {
    NextNIndex(s, SORT_ORDERS);
    IndexInjective(NextN(s, SORT_ORDERS), s);
    forall k | 0 < k < SORT_ORDERS
      ensures NextN(s, k) != s
    {
      NextNIndex(s, k);
    }
    var k := (t.Index() - s.Index() + SORT_ORDERS) % SORT_ORDERS;
    NextNIndex(s, k);
    IndexInjective(NextN(s, k), t);
  }

  /** The order an API sort parameter names, if any. */
  function OrderFromApiParam(p: string): Option<EventSortBy> {
    if p == "volume24hr" then Some(Volume24hr)
    else if p == "volume" then Some(VolumeTotal)
    else if p == "liquidity" then Some(Liquidity)
    else if p == "createdAt" then Some(Newest)
    else if p == "endDate" then Some(EndingSoon)
    else if p == "competitive" then Some(Competitive)
    else None
  }

  /**
   * The API parameter determines the order it came from, so no two orders send the same
   * parameter to the API.
   */
  lemma ApiOrderParamInjective(a: EventSortBy, b: EventSortBy)
    ensures OrderFromApiParam(a.ApiOrderParam()) == Some(a)
    ensures a.ApiOrderParam() == b.ApiOrderParam() ==> a == b
  {
  }

  /** `NavigationState`: the selected event and the focused panel. */
  class NavigationState {
    var selectedIndex: nat
    var focusedPanel: FocusedPanel

    /** `new`: the first event selected, the event list focused. */
    constructor ()
      ensures selectedIndex == 0 && focusedPanel == EventsList
    {
      selectedIndex := 0;
      focusedPanel := EventsList;
    }
  }
}
