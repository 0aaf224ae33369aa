/**
 * Order book panel state: the selected market and outcome side, the cached book snapshot for
 * them, and the pull-based freshness check. Instants are readings of a monotonic clock in
 * nanoseconds; the caller passes the current reading.
 */
module Orderbook {
  import opened Wrappers

  /** The outcome side whose book is shown; `Yes` is the default. */
  datatype OrderbookOutcome = Yes | No {
    function Toggle(): (r: OrderbookOutcome)
      ensures r != this
    {
      match this
      case Yes => No
      case No => Yes
    }

    function Label(): (r: string)
      ensures r != []
    {
      match this
      case Yes => "Yes"
      case No => "No"
    }

    /** Distinct values show distinct labels, so a label identifies its value. */
    lemma LabelInjective(other: OrderbookOutcome)
      ensures Label() == other.Label() ==> this == other
    {
    }
  }

  const DEFAULT_OUTCOME: OrderbookOutcome := Yes

  lemma OutcomeToggleInvolution(o: OrderbookOutcome)
    ensures o.Toggle().Toggle() == o
  {
  }

  /** One price level; `total` is the running sum of price times size from the best level. */
  datatype OrderbookLevel = OrderbookLevel(price: real, size: real, total: real)

  datatype OrderbookData = OrderbookData(
    asks: seq<OrderbookLevel>,
    bids: seq<OrderbookLevel>,
    spread: Option<real>,
    lastPrice: Option<real>)

  /** How old a snapshot may get before the panel asks for a new one: five seconds. */
  const REFRESH_INTERVAL_NANOS: int := 5_000_000_000

  /** The initial height of the panel, its minimum. */
  const MIN_HEIGHT: nat := 5

  /** `Instant::elapsed`: the time since `since`, never negative. */
  function Elapsed(since: int, now: int): (d: nat)
    ensures now >= since ==> d == now - since
    ensures now < since ==> d == 0
  {
    if now >= since then now - since else 0
  }

  /** `OrderbookState`: what the order book panel shows and when it last fetched. */
  class OrderbookState {
    var selectedMarketIndex: nat
    var selectedOutcome: OrderbookOutcome
    var orderbook: Option<OrderbookData>
    var isLoading: bool
    var lastFetch: Option<int>
    var tokenId: Option<string>
    var lastHeight: nat

    /** `new`: first market, `Yes` side, nothing fetched yet, minimum height. */
    constructor ()
      ensures selectedMarketIndex == 0 && selectedOutcome == DEFAULT_OUTCOME
      ensures orderbook == None && tokenId == None && !isLoading
      ensures lastFetch == None && lastHeight == MIN_HEIGHT
      ensures forall now :: NeedsRefresh(now)
    {
      selectedMarketIndex := 0;
      selectedOutcome := DEFAULT_OUTCOME;
      orderbook := None;
      isLoading := false;
      lastFetch := None;
      tokenId := None;
      lastHeight := MIN_HEIGHT;
    }

    /**
     * `reset` (the selected event changed): back to the first market with the snapshot and
     * its token dropped and no load in progress. The side, the last fetch time and the last
     * height are kept.
     */
    method Reset()
      modifies this`selectedMarketIndex, this`orderbook, this`isLoading, this`tokenId
      ensures selectedMarketIndex == 0 && orderbook == None && tokenId == None && !isLoading
    {
      selectedMarketIndex := 0;
      orderbook := None;
      isLoading := false;
      tokenId := None;
    }

    /**
     * `toggle_outcome`: show the other side. The snapshot and its token belong to the old
     * side, so both are dropped at once; everything else is kept.
     */
    method ToggleOutcome()
      modifies this`selectedOutcome, this`orderbook, this`tokenId
      ensures selectedOutcome == old(selectedOutcome).Toggle()
      ensures orderbook == None && tokenId == None
    {
      selectedOutcome := selectedOutcome.Toggle();
      orderbook := None;
      tokenId := None;
    }

    /**
     * `needs_refresh`: true when nothing was ever fetched, otherwise exactly when at least
     * five seconds have passed since the last fetch.
     */
    predicate NeedsRefresh(now: int)
      reads this
      ensures lastFetch.None? ==> NeedsRefresh(now)
      ensures lastFetch.Some? ==>
        (NeedsRefresh(now) <==> now - lastFetch.value >= REFRESH_INTERVAL_NANOS)
    {
      match lastFetch
      case Some(last) => Elapsed(last, now) >= REFRESH_INTERVAL_NANOS
      case None => true
    }
  }

  /**
   * Staleness over time: a snapshot fetched at `t` is fresh at `t` and for five seconds
   * after, and stale from then on.
   */
  lemma FreshForFiveSeconds(s: OrderbookState, t: int, now: int)
    requires s.lastFetch == Some(t)
    ensures t <= now < t + REFRESH_INTERVAL_NANOS ==> !s.NeedsRefresh(now)
    ensures now >= t + REFRESH_INTERVAL_NANOS ==> s.NeedsRefresh(now)
  {
  }
}
