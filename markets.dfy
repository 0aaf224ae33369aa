/**
 * The markets panel of an event: the clamped scroll offset, open markets listed before closed
 * ones, and for each visible row its status icon, best yield return, the winner of a resolved
 * market and the prices on its two buy buttons.
 */
module RenderMarkets {
  import opened Wrappers
  import opened Text
  import opened Gamma
  import opened ListWindow
  import opened RenderUtils
  import opened Orderbook
  import opened MarketOrder

  /** The return, in percent, of buying at `price` and being paid 1 at resolution. */
  function ReturnAt(price: real): real
    requires price > 0.0
  {
    (1.0 / price - 1.0) * 100.0
  }

  /** A higher price returns less. */
  lemma ReturnAtDecreasing(p: real, q: real)
    requires 0.0 < p <= q
    ensures ReturnAt(q) <= ReturnAt(p)
  {
    assert 1.0 / q <= 1.0 / p by {
      assert 1.0 / p - 1.0 / q == (q - p) / (p * q);
    }
  }

  /**
   * The smallest return over the price texts that parse to a yield price: the `filter_map`,
   * `filter`, `map` and `min_by` pipeline.
   */
  function MinReturn(prices: seq<string>, parse: string -> Option<real>): (r: Option<real>)
    ensures r.Some? <==> exists i | 0 <= i < |prices| :: ParsesToYield(prices[i], parse)
    ensures r.Some? ==> exists i | 0 <= i < |prices| ::
      ParsesToYield(prices[i], parse) && r.value == ReturnAt(parse(prices[i]).value)
    ensures r.Some? ==> forall i | 0 <= i < |prices| && ParsesToYield(prices[i], parse) ::
      r.value <= ReturnAt(parse(prices[i]).value)
  {
    if prices == [] then None
    else
      var rest := MinReturn(prices[1..], parse);
      assert forall i | 1 <= i < |prices| :: prices[i] == prices[1..][i - 1];
      if ParsesToYield(prices[0], parse) then
        var here := ReturnAt(parse(prices[0]).value);
        if rest.Some? && rest.value < here then rest else Some(here)
      else rest
  }

  /**
   * `yield_return`: present exactly for markets with a yield opportunity, and then the smallest
   * return over the qualifying prices.
   */
  function YieldReturn(m: Market, parse: string -> Option<real>): (r: Option<real>)
    ensures r.Some? <==> MarketHasYield(m, parse)
    ensures r.Some? ==> r == MinReturn(m.outcomePrices, parse)
  {
    if MarketHasYield(m, parse) then MinReturn(m.outcomePrices, parse) else None
  }

  /** The best yield is the return of the largest qualifying price. */
  lemma YieldReturnFromLargestPrice(m: Market, parse: string -> Option<real>)
    requires MarketHasYield(m, parse)
    ensures exists i | 0 <= i < |m.outcomePrices| ::
      && ParsesToYield(m.outcomePrices[i], parse)
      && (forall j | 0 <= j < |m.outcomePrices| && ParsesToYield(m.outcomePrices[j], parse) ::
            parse(m.outcomePrices[j]).value <= parse(m.outcomePrices[i]).value)
      && YieldReturn(m, parse) == Some(ReturnAt(parse(m.outcomePrices[i]).value))
  {
    var r := YieldReturn(m, parse).value;
    var i :| 0 <= i < |m.outcomePrices| && ParsesToYield(m.outcomePrices[i], parse)
      && r == ReturnAt(parse(m.outcomePrices[i]).value);
    forall j | 0 <= j < |m.outcomePrices| && ParsesToYield(m.outcomePrices[j], parse)
      ensures parse(m.outcomePrices[j]).value <= parse(m.outcomePrices[i]).value
    {
      var p, q := parse(m.outcomePrices[i]).value, parse(m.outcomePrices[j]).value;
      if q > p {
        assert r <= ReturnAt(q);
        ReturnAtStrict(p, q);
        assert false;
      }
    }
  }

  lemma ReturnAtStrict(p: real, q: real)
    requires 0.0 < p < q
    ensures ReturnAt(q) < ReturnAt(p)
  {
    assert 1.0 / p - 1.0 / q == (q - p) / (p * q);
  }

  /** The status icon of a market row, in priority order. */
  datatype StatusIcon = Resolved | YieldOpportunity | InReview | Active {
    function Glyph(): (r: string)
      ensures |r| == 2 && r[1] == ' '
    {
      match this
      case Resolved => "○ "
      case YieldOpportunity => "$ "
      case InReview => "◐ "
      case Active => "● "
    }
  }

  /** Closed first, then a yield opportunity, then in review, else active. */
  function Icon(m: Market, parse: string -> Option<real>): (r: StatusIcon)
    ensures r == Resolved <==> m.closed
    ensures r == YieldOpportunity <==> !m.closed && MarketHasYield(m, parse)
    ensures r == InReview <==> !m.closed && !MarketHasYield(m, parse) && m.inReview
    ensures r == Active <==> !m.closed && !MarketHasYield(m, parse) && !m.inReview
  {
    if m.closed then Resolved
    else if MarketHasYield(m, parse) then YieldOpportunity
    else if m.inReview then InReview
    else Active
  }

  /** The parsed price at the position of outcome `i`, when there is one and it parses. */
  function CandidatePrice(m: Market, i: nat, parse: string -> Option<real>): Option<real> {
    match Get(m.outcomePrices, i)
    case Some(text) => parse(text)
    case None => None
  }

  /**
   * The `max_by` over the first `n` outcomes that have a parseable price: the index of the
   * highest price, the later one winning a tie.
   */
  function WinnerAmong(m: Market, n: nat, parse: string -> Option<real>): (r: Option<nat>)
    ensures r.Some? <==> exists i | 0 <= i < n :: CandidatePrice(m, i, parse).Some?
    ensures r.Some? ==> r.value < n && CandidatePrice(m, r.value, parse).Some?
    ensures r.Some? ==> forall i | 0 <= i < n && CandidatePrice(m, i, parse).Some? ::
      CandidatePrice(m, i, parse).value <= CandidatePrice(m, r.value, parse).value
    ensures r.Some? ==> forall i | r.value < i < n && CandidatePrice(m, i, parse).Some? ::
      CandidatePrice(m, i, parse).value < CandidatePrice(m, r.value, parse).value
  {
    if n == 0 then None
    else
      var best := WinnerAmong(m, n - 1, parse);
      var here := CandidatePrice(m, n - 1, parse);
      if here.None? then best
      else if best.None? || CandidatePrice(m, best.value, parse).value <= here.value then Some(n - 1)
      else best
  }

  /** The index of the winning outcome of a market, over all its outcomes. */
  function Winner(m: Market, parse: string -> Option<real>): (r: Option<nat>)
    ensures r.Some? <==> exists i | 0 <= i < |m.outcomes| :: CandidatePrice(m, i, parse).Some?
    ensures r.Some? ==> r.value < |m.outcomes| && CandidatePrice(m, r.value, parse).Some?
    ensures r.Some? ==> forall i | 0 <= i < |m.outcomes| && CandidatePrice(m, i, parse).Some? ::
      CandidatePrice(m, i, parse).value <= CandidatePrice(m, r.value, parse).value
  {
    WinnerAmong(m, |m.outcomes|, parse)
  }

  /**
   * The outcome text of a row: for a closed market "Winner: " and the winning outcome, or
   * "Resolved" when no outcome has a parseable price; nothing for an open market.
   */
  function OutcomesText(m: Market, parse: string -> Option<real>): (r: string)
    ensures !m.closed ==> r == []
    ensures m.closed && Winner(m, parse).None? ==> r == "Resolved"
    ensures m.closed && Winner(m, parse).Some? ==> r == "Winner: " + m.outcomes[Winner(m, parse).value]
  {
    if m.closed then
      match Winner(m, parse)
      case Some(i) => "Winner: " + m.outcomes[i]
      case None => "Resolved"
    else []
  }

  /** The best ask of the order book snapshot, if there is a snapshot with asks. */
  function BestAsk(book: Option<OrderbookData>): (r: Option<real>)
    ensures r.Some? <==> book.Some? && book.value.asks != []
    ensures r.Some? ==> r.value == book.value.asks[0].price
  {
    match book
    case Some(ob) => if ob.asks != [] then Some(ob.asks[0].price) else None
    case None => None
  }

  /**
   * The price of outcome `k` without the order book: the latest price of its token when the
   * market lists tokens and one is known, else its parsed outcome price.
   */
  function FallbackPrice(m: Market, k: nat, marketPrices: map<string, real>, parse: string -> Option<real>): (r: Option<real>)
    ensures m.clobTokenIds.Some? && k < |m.clobTokenIds.value| && m.clobTokenIds.value[k] in marketPrices ==>
      r == Some(marketPrices[m.clobTokenIds.value[k]])
    ensures !(m.clobTokenIds.Some? && k < |m.clobTokenIds.value| && m.clobTokenIds.value[k] in marketPrices) ==>
      r == CandidatePrice(m, k, parse)
  {
    var fromOutcomes := CandidatePrice(m, k, parse);
    match m.clobTokenIds
    case Some(ids) =>
      var fromToken := match Get(ids, k)
        case Some(id) => if id in marketPrices then Some(marketPrices[id]) else None
        case None => None;
      fromToken.OrElse(fromOutcomes)
    case None => fromOutcomes
  }

  /**
   * The prices on a row's two buy buttons. A closed market has none. For the row whose index in
   * the sorted list is the order book's selected market, the best ask of the shown side replaces
   * that side's price; otherwise, and for the other side, the fallback applies.
   */
  function ButtonPrices(
    m: Market, rowIndex: nat,
    selectedMarketIndex: nat, selectedOutcome: OrderbookOutcome, book: Option<OrderbookData>,
    marketPrices: map<string, real>, parse: string -> Option<real>): (r: (Option<real>, Option<real>))
    ensures m.closed ==> r == (None, None)
    ensures !m.closed && rowIndex == selectedMarketIndex && selectedOutcome == Yes && BestAsk(book).Some? ==>
      r.0 == BestAsk(book)
    ensures !m.closed && !(rowIndex == selectedMarketIndex && selectedOutcome == Yes && BestAsk(book).Some?) ==>
      r.0 == FallbackPrice(m, 0, marketPrices, parse)
    ensures !m.closed && rowIndex == selectedMarketIndex && selectedOutcome == No && BestAsk(book).Some? ==>
      r.1 == BestAsk(book)
    ensures !m.closed && !(rowIndex == selectedMarketIndex && selectedOutcome == No && BestAsk(book).Some?) ==>
      r.1 == FallbackPrice(m, 1, marketPrices, parse)
  {
    if !m.closed then
      var selected := rowIndex == selectedMarketIndex;
      var bookPrice := if selected then BestAsk(book) else None;
      var yesFromBook := if selected && selectedOutcome == Yes then bookPrice else None;
      var noFromBook := if selected && selectedOutcome == No then bookPrice else None;
      (yesFromBook.OrElse(FallbackPrice(m, 0, marketPrices, parse)),
       noFromBook.OrElse(FallbackPrice(m, 1, marketPrices, parse)))
    else (None, None)
  }

  /** The order book prices at most one of the two buttons of a row: the side it shows. */
  lemma BookPricesOneButton(
    m: Market, rowIndex: nat,
    selectedMarketIndex: nat, selectedOutcome: OrderbookOutcome, book: Option<OrderbookData>,
    marketPrices: map<string, real>, parse: string -> Option<real>)
    ensures var r := ButtonPrices(m, rowIndex, selectedMarketIndex, selectedOutcome, book, marketPrices, parse);
      !m.closed && selectedOutcome == Yes ==> r.1 == FallbackPrice(m, 1, marketPrices, parse)
    ensures var r := ButtonPrices(m, rowIndex, selectedMarketIndex, selectedOutcome, book, marketPrices, parse);
      !m.closed && selectedOutcome == No ==> r.0 == FallbackPrice(m, 0, marketPrices, parse)
    ensures var r := ButtonPrices(m, rowIndex, selectedMarketIndex, selectedOutcome, book, marketPrices, parse);
      !m.closed && rowIndex != selectedMarketIndex ==>
        r == (FallbackPrice(m, 0, marketPrices, parse), FallbackPrice(m, 1, marketPrices, parse))
  {
  }

  /** The background of a row: the order book's market highlighted, the rest striped. */
  datatype RowBackground = Highlight | Plain | Stripe

  function Background(rowIndex: nat, selectedMarketIndex: nat): (r: RowBackground)
    ensures r == Highlight <==> rowIndex == selectedMarketIndex
    ensures r == Plain <==> rowIndex != selectedMarketIndex && rowIndex % 2 == 0
  {
    if rowIndex == selectedMarketIndex then Highlight
    else if rowIndex % 2 == 0 then Plain
    else Stripe
  }

  /** What one market row shows, apart from volume text and layout. */
  datatype MarketRow = MarketRow(
    index: nat,
    market: Market,
    name: string,
    icon: StatusIcon,
    yieldReturn: Option<real>,
    outcomes: string,
    yesPrice: Option<real>,
    noPrice: Option<real>,
    background: RowBackground)

  function RowFor(
    index: nat, m: Market,
    selectedMarketIndex: nat, selectedOutcome: OrderbookOutcome, book: Option<OrderbookData>,
    marketPrices: map<string, real>, parse: string -> Option<real>): (r: MarketRow)
    ensures r.index == index && r.market == m
    ensures r.icon == Resolved <==> m.closed
    ensures r.yieldReturn.Some? <==> MarketHasYield(m, parse)
    ensures m.closed ==> r.yieldReturn.None? && r.yesPrice.None? && r.noPrice.None?
    ensures r.background == Highlight <==> index == selectedMarketIndex
  {
    var prices := ButtonPrices(m, index, selectedMarketIndex, selectedOutcome, book, marketPrices, parse);
    MarketRow(index, m, ShortName(m), Icon(m, parse), YieldReturn(m, parse), OutcomesText(m, parse),
      prices.0, prices.1, Background(index, selectedMarketIndex))
  }

  /**
   * The rows of `render_markets` for a panel `areaHeight` cells high: the markets sorted open
   * first, from the clamped scroll offset, one per inner row, each with its index in the sorted
   * list.
   */
  function Rows(
    markets: seq<Market>, scroll: nat, areaHeight: nat,
    selectedMarketIndex: nat, selectedOutcome: OrderbookOutcome, book: Option<OrderbookData>,
    marketPrices: map<string, real>, parse: string -> Option<real>): (rows: seq<MarketRow>)
    ensures var start := ClampScroll(scroll, |markets|, SatSub(areaHeight, 2));
      && |rows| == Min(SatSub(areaHeight, 2), |markets| - start)
      && rows == RowsFrom(ActiveFirst(markets), start, |rows|,
        selectedMarketIndex, selectedOutcome, book, marketPrices, parse)
    ensures markets == [] ==> rows == []
  {
    var visible := SatSub(areaHeight, 2);
    var start := ClampScroll(scroll, |markets|, visible);
    RowsFrom(ActiveFirst(markets), start, Min(visible, |markets| - start),
      selectedMarketIndex, selectedOutcome, book, marketPrices, parse)
  }

  /** One row for each of the `count` markets of `sorted` from position `start`. */
  function RowsFrom(
    sorted: seq<Market>, start: nat, count: nat,
    selectedMarketIndex: nat, selectedOutcome: OrderbookOutcome, book: Option<OrderbookData>,
    marketPrices: map<string, real>, parse: string -> Option<real>): (rows: seq<MarketRow>)
    requires start + count <= |sorted|
    ensures |rows| == count
    ensures forall i | 0 <= i < count ::
      rows[i] == RowFor(start + i, sorted[start + i], selectedMarketIndex, selectedOutcome, book, marketPrices, parse)
  {
    seq(count, i requires 0 <= i < count =>
      RowFor(start + i, sorted[start + i], selectedMarketIndex, selectedOutcome, book, marketPrices, parse))
  }

  /** Whatever the window, no open market is listed below a closed one. */
  lemma RowsClosedLast(
    markets: seq<Market>, scroll: nat, areaHeight: nat,
    selectedMarketIndex: nat, selectedOutcome: OrderbookOutcome, book: Option<OrderbookData>,
    marketPrices: map<string, real>, parse: string -> Option<real>, i: nat, j: nat)
    requires i < j < |Rows(markets, scroll, areaHeight, selectedMarketIndex, selectedOutcome, book, marketPrices, parse)|
    requires Rows(markets, scroll, areaHeight, selectedMarketIndex, selectedOutcome, book, marketPrices, parse)[i].market.closed
    ensures Rows(markets, scroll, areaHeight, selectedMarketIndex, selectedOutcome, book, marketPrices, parse)[j].market.closed
  {
    var start := ClampScroll(scroll, |markets|, SatSub(areaHeight, 2));
    var count := |Rows(markets, scroll, areaHeight, selectedMarketIndex, selectedOutcome, book, marketPrices, parse)|;
    WindowClosedLast(ActiveFirst(markets), start, count,
      selectedMarketIndex, selectedOutcome, book, marketPrices, parse, i, j);
  }

  /** Rows taken in order from a list with no open market after a closed one keep that order. */
  lemma WindowClosedLast(
    sorted: seq<Market>, start: nat, count: nat,
    selectedMarketIndex: nat, selectedOutcome: OrderbookOutcome, book: Option<OrderbookData>,
    marketPrices: map<string, real>, parse: string -> Option<real>, i: nat, j: nat)
    requires start + count <= |sorted|
    requires forall a, b | 0 <= a < b < |sorted| :: sorted[a].closed ==> sorted[b].closed
    requires i < j < count
    requires RowsFrom(sorted, start, count, selectedMarketIndex, selectedOutcome, book, marketPrices, parse)[i].market.closed
    ensures RowsFrom(sorted, start, count, selectedMarketIndex, selectedOutcome, book, marketPrices, parse)[j].market.closed
  {
    assert sorted[start + i].closed;
  }
}
