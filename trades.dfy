/**
 * The trades panel: the message shown while there are no trades, and otherwise the visible
 * window of trade rows with the market each trade belongs to and who made it.
 */
module RenderTrades {
  import opened Wrappers
  import opened Text
  import opened Gamma
  import opened ListWindow
  import opened RenderUtils
  import TradeState

  /** Rows of the panel taken by its border and table header. */
  const CHROME_ROWS: nat := 3

  /** The widest market and trader cells, in characters. */
  const MARKET_CELL_CHARS: nat := 30
  const TRADER_CELL_CHARS: nat := 15

  /** Who made a trade: the user name, else the pseudonym, else "-". */
  function TraderDisplay(t: TradeState.Trade): (r: string)
    ensures t.user != [] ==> r == t.user
    ensures t.user == [] && t.pseudonym != [] ==> r == t.pseudonym
    ensures t.user == [] && t.pseudonym == [] ==> r == "-"
    ensures r != []
  {
    if t.user != [] then t.user
    else if t.pseudonym != [] then t.pseudonym
    else "-"
  }

  /** Market `m` lists `assetId` among its token ids. */
  predicate TradesToken(m: Market, assetId: string) {
    m.clobTokenIds.Some? && assetId in m.clobTokenIds.value
  }

  /** `iter().find(..)`: the first market listing `assetId`, by position. */
  function FindMarket(ms: seq<Market>, assetId: string): (r: Option<nat>)
    ensures r.Some? ==> r.value < |ms| && TradesToken(ms[r.value], assetId)
    ensures r.Some? ==> forall k | 0 <= k < r.value :: !TradesToken(ms[k], assetId)
    ensures r.None? ==> forall k | 0 <= k < |ms| :: !TradesToken(ms[k], assetId)
  {
    if ms == [] then None
    else if TradesToken(ms[0], assetId) then Some(0)
    else
      match FindMarket(ms[1..], assetId)
      case Some(k) => Some(k + 1)
      case None => None
  }

  /**
   * The market name of a trade row: the short name of the event's first market trading the
   * trade's asset, or the trade's own title when there is no event or no such market.
   */
  function MarketName(t: TradeState.Trade, event: Option<Event>): (r: string)
    ensures event.None? ==> r == t.title
    ensures event.Some? && FindMarket(event.value.markets, t.assetId).None? ==> r == t.title
    ensures event.Some? && FindMarket(event.value.markets, t.assetId).Some? ==>
      r == ShortName(event.value.markets[FindMarket(event.value.markets, t.assetId).value])
  {
    match event
    case None => t.title
    case Some(e) =>
      match FindMarket(e.markets, t.assetId)
      case Some(i) => ShortName(e.markets[i])
      case None => t.title
  }

  /**
   * What one trade row shows apart from the formatted numbers and times: the side in green
   * for a buy (red otherwise), the outcome in green for "Yes", and every other row (odd
   * positions of the whole log) on a darker background.
   */
  datatype TradeRow = TradeRow(
    index: nat, trade: TradeState.Trade, market: string, trader: string,
    buyColored: bool, yesColored: bool, striped: bool)

  /** The panel: a status message when there are no trades, else a table of rows. */
  datatype TradesView =
    | Waiting(message: string, count: nat)
    | Table(rows: seq<TradeRow>, count: nat)

  const WATCHING_MESSAGE: string := "Watching for trades... (Press Enter to stop)"
  const NOT_WATCHING_MESSAGE: string := "Not watching. Press Enter to start watching this event."

  function EmptyMessage(isWatching: bool): (r: string)
    ensures r == WATCHING_MESSAGE <==> isWatching
    ensures r == NOT_WATCHING_MESSAGE <==> !isWatching
  {
    if isWatching then WATCHING_MESSAGE else NOT_WATCHING_MESSAGE
  }

  /** The row for the trade at `index` of the log, with the market found through `event`. */
  function RowFor(index: nat, t: TradeState.Trade, event: Option<Event>): (r: TradeRow)
    ensures r.index == index && r.trade == t
    ensures |r.market| <= MARKET_CELL_CHARS && |r.trader| <= TRADER_CELL_CHARS
    ensures r.trader == Truncate(TraderDisplay(t), TRADER_CELL_CHARS)
    ensures r.market == Truncate(MarketName(t, event), MARKET_CELL_CHARS)
    ensures event.None? ==> r.market == Truncate(t.title, MARKET_CELL_CHARS)
    ensures r.buyColored <==> t.side == "BUY"
    ensures r.yesColored <==> t.outcome == "Yes"
    ensures r.striped <==> index % 2 == 1
  {
    TradeRow(index, t, Truncate(MarketName(t, event), MARKET_CELL_CHARS),
      Truncate(TraderDisplay(t), TRADER_CELL_CHARS), t.side == "BUY", t.outcome == "Yes", index % 2 == 1)
  }

  /** The first row shown: the stored offset clamped so the last page stays full. */
  function FirstRow(trades: seq<TradeState.Trade>, scroll: nat, areaHeight: nat): (r: nat)
    ensures r <= scroll && r <= |trades|
    ensures |trades| - r >= Min(Max(SatSub(areaHeight, CHROME_ROWS), 1), |trades|)
  {
    ClampScroll(scroll, |trades|, SatSub(areaHeight, CHROME_ROWS))
  }

  /**
   * `render_trades_table` without the drawing: with no trades the watching status message,
   * else the trades from the clamped offset, in stored order (newest first), one per inner
   * row. The title counts every trade.
   */
  function TradesTable(
    trades: seq<TradeState.Trade>, event: Option<Event>, isWatching: bool,
    scroll: nat, areaHeight: nat): (v: TradesView)
    ensures v.count == |trades|
    ensures trades == [] <==> v.Waiting?
    ensures v.Waiting? ==> v.message == EmptyMessage(isWatching)
    ensures v.Table? ==>
      var start := FirstRow(trades, scroll, areaHeight);
      && |v.rows| == Min(SatSub(areaHeight, CHROME_ROWS), |trades| - start)
      && forall i | 0 <= i < |v.rows| :: v.rows[i] == RowFor(start + i, trades[start + i], event)
  {
    if trades == [] then Waiting(EmptyMessage(isWatching), 0)
    else
      var start := FirstRow(trades, scroll, areaHeight);
      Table(TableRows(trades, start, Min(SatSub(areaHeight, CHROME_ROWS), |trades| - start), event), |trades|)
  }

  /** The rows for `count` trades from `start` on. */
  function TableRows(trades: seq<TradeState.Trade>, start: nat, count: nat, event: Option<Event>): (rows: seq<TradeRow>)
    requires start + count <= |trades|
    ensures |rows| == count
    ensures forall i | 0 <= i < count :: rows[i] == RowFor(start + i, trades[start + i], event)
  {
    seq(count, i requires 0 <= i < count => RowFor(start + i, trades[start + i], event))
  }

  /**
   * `render_trades_panel`: the same panel without an event to look markets up in, so each
   * row names the trade's own title.
   */
  function TradesPanel(trades: seq<TradeState.Trade>, isWatching: bool, scroll: nat, areaHeight: nat): (v: TradesView)
    ensures v.count == |trades|
    ensures trades == [] <==> v.Waiting?
  {
    if trades == [] then Waiting(EmptyMessage(isWatching), 0)
    else
      var start := FirstRow(trades, scroll, areaHeight);
      var shown := Window(trades, start, SatSub(areaHeight, CHROME_ROWS));
      Table(seq(|shown|, i requires 0 <= i < |shown| =>
        TradeRow(start + i, shown[i], Truncate(shown[i].title, MARKET_CELL_CHARS),
          Truncate(TraderDisplay(shown[i]), TRADER_CELL_CHARS),
          shown[i].side == "BUY", shown[i].outcome == "Yes", (start + i) % 2 == 1)), |trades|)
  }

  /** The event-free panel is the table with no event to consult. */
  lemma PanelIsTableWithoutEvent(trades: seq<TradeState.Trade>, isWatching: bool, scroll: nat, areaHeight: nat)
    ensures TradesPanel(trades, isWatching, scroll, areaHeight) == TradesTable(trades, None, isWatching, scroll, areaHeight)
  {
    if trades != [] {
      var start := FirstRow(trades, scroll, areaHeight);
      var shown := Window(trades, start, SatSub(areaHeight, CHROME_ROWS));
      var a := TradesPanel(trades, isWatching, scroll, areaHeight).rows;
      var b := TradesTable(trades, None, isWatching, scroll, areaHeight).rows;
      assert |a| == |b|;
      forall i | 0 <= i < |a|
        ensures a[i] == b[i]
      {
        assert shown[i] == trades[start + i];
        assert b[i] == RowFor(start + i, trades[start + i], None);
      }
    }
  }

  /** Neighbouring rows of the table never share a background, wherever the window starts. */
  lemma ZebraAlternates(
    trades: seq<TradeState.Trade>, event: Option<Event>, isWatching: bool, scroll: nat, areaHeight: nat, i: nat)
    requires TradesTable(trades, event, isWatching, scroll, areaHeight).Table?
    requires i + 1 < |TradesTable(trades, event, isWatching, scroll, areaHeight).rows|
    ensures TradesTable(trades, event, isWatching, scroll, areaHeight).rows[i].striped
      != TradesTable(trades, event, isWatching, scroll, areaHeight).rows[i + 1].striped
  {
    var v := TradesTable(trades, event, isWatching, scroll, areaHeight);
    var k := FirstRow(trades, scroll, areaHeight) + i;
    assert v.rows[i] == RowFor(k, trades[k], event);
    assert v.rows[i + 1] == RowFor(k + 1, trades[k + 1], event);
    ParityAlternates(k);
  }

  lemma ParityAlternates(k: nat)
    ensures (k % 2 == 1) != ((k + 1) % 2 == 1)
  {
  }
}
