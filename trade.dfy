/**
 * Trade state: the per-event log of live trades (newest first, at most 500 records) and the
 * order-entry form with its field cursor, numeric text entry and outcome selection.
 */
module TradeState {
  import opened Wrappers
  import opened Text

  /** The per-event cap on stored trades. */
  const MAX_TRADES: nat := 500

  /** The payload of one live trade message from the real-time data stream. */
  datatype TradePayload = TradePayload(
    timestamp: int,
    side: string,
    outcome: string,
    price: real,
    size: real,
    title: string,
    asset: string,
    name: string,
    pseudonym: string)

  /** One stored trade; built once per message and never changed. */
  datatype Trade = Trade(
    timestamp: int,
    side: string,
    outcome: string,
    price: real,
    shares: real,
    totalValue: real,
    title: string,
    assetId: string,
    user: string,
    pseudonym: string)

  /** `f64::round`: the nearest integer, halfway cases rounded away from zero. */
  function RoundHalfAwayFromZero(x: real): (r: int)
    ensures x >= 0.0 ==> x - 0.5 < r as real <= x + 0.5
    ensures x < 0.0 ==> x - 0.5 <= r as real < x + 0.5
  {
    if x >= 0.0 then (x + 0.5).Floor else -((-x + 0.5).Floor)
  }

  /** `(size * 100.0).round() / 100.0`: the size rounded to whole cents of a share. */
  function RoundToCents(size: real): (r: real)
    ensures size - 0.005 <= r <= size + 0.005
  {
    var cents := RoundHalfAwayFromZero(size * 100.0) as real;
    assert size * 100.0 - 0.5 <= cents <= size * 100.0 + 0.5;
    cents / 100.0
  }

  /**
   * The record `add_trade` stores for a message: the share count is rounded to cents, but the
   * total value is the price times the size as received, not times the rounded count.
   */
  function BuildTrade(p: TradePayload): (t: Trade)
    ensures t.totalValue == p.price * p.size
    ensures t.shares == RoundToCents(p.size)
    ensures t.price == p.price && t.timestamp == p.timestamp
    ensures t.side == p.side && t.outcome == p.outcome && t.title == p.title
    ensures t.assetId == p.asset && t.user == p.name && t.pseudonym == p.pseudonym
  {
    Trade(p.timestamp, p.side, p.outcome, p.price, RoundToCents(p.size), p.price * p.size,
          p.title, p.asset, p.name, p.pseudonym)
  }

  /**
   * The log after one insertion: the new trade in front, the previous records behind it in
   * their order, and whatever lies beyond the cap cut from the tail.
   */
  function Ingest(trades: seq<Trade>, t: Trade): (r: seq<Trade>)
    ensures |r| == Min(|trades| + 1, MAX_TRADES)
    ensures r[0] == t
    ensures r[1..] == trades[..|r| - 1]
  {
    var grown := [t] + trades;
    if |grown| > MAX_TRADES then grown[..MAX_TRADES] else grown
  }

  /** The log after a sequence of insertions, first element of `ts` inserted first. */
  function IngestAll(log: seq<Trade>, ts: seq<Trade>): seq<Trade>
    decreases |ts|
  {
    if ts == [] then log else IngestAll(Ingest(log, ts[0]), ts[1..])
  }

  function Reversed<T>(s: seq<T>): (r: seq<T>)
    ensures |r| == |s|
    ensures forall k | 0 <= k < |s| :: r[k] == s[|s| - 1 - k]
  {
    if s == [] then [] else Reversed(s[1..]) + [s[0]]
  }

  lemma TruncatedTail<T>(a: seq<T>, b: seq<T>, k: nat, m: nat)
    requires k <= |b| && m <= |a| + k
    ensures (a + b[..k])[..m] == (a + b)[..m]
  {
    assert forall i | 0 <= i < m :: (a + b[..k])[i] == (a + b)[i];
  }

  /**
   * Bounded history with arrival order: after any number of insertions into a log holding at
   * most 500 records, the log holds the newest arrivals first (latest in front), followed by
   * the previous records, cut to 500. Embedded timestamps play no part.
   */
  lemma {:induction false} IngestAllKeepsNewest(log: seq<Trade>, ts: seq<Trade>)
    requires |log| <= MAX_TRADES
    ensures IngestAll(log, ts) == (Reversed(ts) + log)[..Min(|ts| + |log|, MAX_TRADES)]
    decreases |ts|
  {
    if ts != [] {
      var t, rest := ts[0], ts[1..];
      var next := Ingest(log, t);
      var m1 := Min(|log| + 1, MAX_TRADES);
      calc {
        IngestAll(log, ts);
        IngestAll(next, rest);
        { IngestAllKeepsNewest(next, rest); }
        (Reversed(rest) + next)[..Min(|rest| + m1, MAX_TRADES)];
        { assert next == ([t] + log)[..m1];
          TruncatedTail(Reversed(rest), [t] + log, m1, Min(|rest| + m1, MAX_TRADES)); }
        (Reversed(rest) + ([t] + log))[..Min(|rest| + m1, MAX_TRADES)];
        { assert Reversed(ts) == Reversed(rest) + [t];
          assert Reversed(rest) + ([t] + log) == Reversed(ts) + log; }
        (Reversed(ts) + log)[..Min(|ts| + |log|, MAX_TRADES)];
      }
    }
  }

  /** From an empty log, N insertions leave exactly min(N, 500) records, newest first. */
  lemma {:induction false} BoundedHistory(ts: seq<Trade>)
    ensures |IngestAll([], ts)| == Min(|ts|, MAX_TRADES)
    ensures forall k | 0 <= k < |IngestAll([], ts)| :: IngestAll([], ts)[k] == ts[|ts| - 1 - k]
  {
    IngestAllKeepsNewest([], ts);
    assert Reversed(ts) + [] == Reversed(ts);
  }

  /** `EventTrades`: the trades received for one event and whether it is being watched. */
  class EventTrades {
    var trades: seq<Trade>
    var isWatching: bool

    constructor ()
      ensures trades == [] && !isWatching
    {
      trades := [];
      isWatching := false;
    }

    /** `add_trade`: insert at the front, then truncate the tail to the cap. */
    method AddTrade(msg: TradePayload)
      modifies this`trades
      ensures trades == Ingest(old(trades), BuildTrade(msg))
      ensures |trades| <= MAX_TRADES
    {
      var t := BuildTrade(msg);
      trades := [t] + trades;
      if |trades| > MAX_TRADES {
        trades := trades[..MAX_TRADES];
      }
    }
  }

  datatype TradeSide = Buy | Sell {
    function Toggle(): (r: TradeSide)
      ensures r != this
    {
      match this
      case Buy => Sell
      case Sell => Buy
    }

    function Label(): (r: string)
      ensures r != []
    {
      match this
      case Buy => "BUY"
      case Sell => "SELL"
    }

    /** Distinct values show distinct labels, so a label identifies its value. */
    lemma LabelInjective(other: TradeSide)
      ensures Label() == other.Label() ==> this == other
    {
    }
  }

  /** The order type; `Limit` is the default. */
  datatype OrderType = Limit | Market {
    function Toggle(): (r: OrderType)
      ensures r != this
    {
      match this
      case Limit => Market
      case Market => Limit
    }

    function Label(): (r: string)
      ensures r != []
    {
      match this
      case Limit => "LIMIT"
      case Market => "MARKET"
    }

    /** Distinct values show distinct labels, so a label identifies its value. */
    lemma LabelInjective(other: OrderType)
      ensures Label() == other.Label() ==> this == other
    {
    }
  }

  lemma ToggleInvolutions(s: TradeSide, o: OrderType)
    ensures s.Toggle().Toggle() == s
    ensures o.Toggle().Toggle() == o
  {
  }

  /** The form field under edit. */
  datatype TradeField = OrderType | LimitPrice | Shares | Amount {

    /** `next`: the following field of the cycle the order type uses. */
    function Next(ot: OrderType): (r: TradeField)
      ensures InCycle(r, ot)
    {
      match ot
      case Limit =>
        (match this
         case OrderType => LimitPrice
         case LimitPrice => Shares
         case Shares => TradeField.OrderType
         case Amount => TradeField.OrderType)
      case Market =>
        (match this
         case OrderType => Amount
         case Amount => TradeField.OrderType
         case LimitPrice => TradeField.OrderType
         case Shares => TradeField.OrderType)
    }

    /** `prev`: the preceding field of the cycle the order type uses. */
    function Prev(ot: OrderType): (r: TradeField)
      ensures InCycle(r, ot)
    {
      match ot
      case Limit =>
        (match this
         case OrderType => Shares
         case LimitPrice => TradeField.OrderType
         case Shares => LimitPrice
         case Amount => Shares)
      case Market =>
        (match this
         case OrderType => Amount
         case Amount => TradeField.OrderType
         case LimitPrice => TradeField.OrderType
         case Shares => TradeField.OrderType)
    }
  }

  /**
   * The fields a focus cycle visits: order type, limit price and shares for limit orders;
   * order type and amount for market orders.
   */
  predicate InCycle(f: TradeField, ot: OrderType) {
    match ot
    case Limit => f == TradeField.OrderType || f == LimitPrice || f == Shares
    case Market => f == TradeField.OrderType || f == Amount
  }

  /** On the fields of its cycle, `prev` undoes `next` and `next` undoes `prev`. */
  lemma NextPrevInverse(f: TradeField, ot: OrderType)
    requires InCycle(f, ot)
    ensures f.Next(ot).Prev(ot) == f
    ensures f.Prev(ot).Next(ot) == f
  {
  }

  /** The limit cycle has length three, the market cycle length two. */
  lemma CycleLengths(f: TradeField)
    ensures InCycle(f, Limit) ==> f.Next(Limit).Next(Limit).Next(Limit) == f
    ensures InCycle(f, Limit) ==> f.Next(Limit) != f && f.Next(Limit).Next(Limit) != f
    ensures InCycle(f, Market) ==> f.Next(Market).Next(Market) == f && f.Next(Market) != f
  {
  }

  /** An outcome offered by the form, with its token and its price. */
  datatype OutcomeInfo = OutcomeInfo(name: string, tokenId: string, price: real)

  /** Text the numeric inputs may hold: digits and at most one decimal point. */
  predicate NumericText(s: string) {
    && (forall i | 0 <= i < |s| :: IsAsciiDigit(s[i]) || s[i] == '.')
    && (forall i, j | 0 <= i < j < |s| :: !(s[i] == '.' && s[j] == '.'))
  }

  /**
   * The keystroke filter of `add_char` on the edited input: a digit is appended, a decimal
   * point only when the text has none yet, anything else is dropped.
   */
  function AcceptNumeric(field: string, c: char): (r: string)
    ensures r == field + [c] || r == field
    ensures r == field + [c] <==> (IsAsciiDigit(c) || (c == '.' && '.' !in field))
    ensures NumericText(field) ==> NumericText(r)
  {
    if IsAsciiDigit(c) || (c == '.' && '.' !in field) then
      assert forall i | 0 <= i < |field| :: (field + [c])[i] == field[i];
      field + [c]
    else field
  }

  lemma DropLastKeepsNumeric(s: string)
    ensures NumericText(s) ==> NumericText(DropLast(s))
  {
  }

  /** `TradeFormState`: the order form opened on one market. */
  class TradeFormState {
    var marketQuestion: string
    var outcomes: seq<OutcomeInfo>
    var selectedOutcomeIdx: nat
    var side: TradeSide
    var orderType: OrderType
    var limitPrice: real
    var shares: string
    var amount: string
    var activeField: TradeField
    var errorMessage: Option<string>
    var isSubmitting: bool

    /** Both numeric inputs hold numeric text. */
    predicate NumericInputs()
      reads this
    {
      NumericText(shares) && NumericText(amount)
    }

    /** `new`: a buy limit order on the given outcome, priced at that outcome's price. */
    constructor (marketQuestion: string, outcomes: seq<OutcomeInfo>, selectedIdx: nat)
      ensures this.marketQuestion == marketQuestion && this.outcomes == outcomes
      ensures selectedOutcomeIdx == selectedIdx
      ensures side == Buy && orderType == Limit && activeField == Shares
      ensures limitPrice == (if selectedIdx < |outcomes| then outcomes[selectedIdx].price else 0.5)
      ensures shares == [] && amount == []
      ensures errorMessage == None && !isSubmitting
      ensures NumericInputs() && InCycle(activeField, orderType)
    {
      this.marketQuestion := marketQuestion;
      this.outcomes := outcomes;
      selectedOutcomeIdx := selectedIdx;
      side := Buy;
      orderType := Limit;
      limitPrice := Get(outcomes, selectedIdx).UnwrapOr(OutcomeInfo([], [], 0.5)).price;
      shares := [];
      amount := [];
      activeField := Shares;
      errorMessage := None;
      isSubmitting := false;
    }

    function SelectedOutcome(): (r: Option<OutcomeInfo>)
      reads this
      ensures r.Some? <==> selectedOutcomeIdx < |outcomes|
      ensures r.Some? ==> r.value == outcomes[selectedOutcomeIdx]
    {
      Get(outcomes, selectedOutcomeIdx)
    }

    /** The name of the selected outcome, "Unknown" when the index is out of range. */
    function OutcomeName(): (r: string)
      reads this
      ensures selectedOutcomeIdx < |outcomes| ==> r == outcomes[selectedOutcomeIdx].name
      ensures selectedOutcomeIdx >= |outcomes| ==> r == "Unknown"
    {
      match SelectedOutcome()
      case Some(o) => o.name
      case None => "Unknown"
    }

    function TokenId(): (r: Option<string>)
      reads this
      ensures r.Some? <==> selectedOutcomeIdx < |outcomes|
      ensures r.Some? ==> r.value == outcomes[selectedOutcomeIdx].tokenId
    {
      match SelectedOutcome()
      case Some(o) => Some(o.tokenId)
      case None => None
    }

    /** The selected outcome's price, 0.5 when the index is out of range. */
    function BestAsk(): (r: real)
      reads this
      ensures selectedOutcomeIdx < |outcomes| ==> r == outcomes[selectedOutcomeIdx].price
      ensures selectedOutcomeIdx >= |outcomes| ==> r == 0.5
    {
      match SelectedOutcome()
      case Some(o) => o.price
      case None => 0.5
    }

    /**
     * `select_outcome`: a different, existing outcome becomes selected, the limit price takes
     * its price and the error is cleared; any other index changes nothing.
     */
    method SelectOutcome(idx: nat)
      modifies this`selectedOutcomeIdx, this`limitPrice, this`errorMessage
      ensures idx < |outcomes| && idx != old(selectedOutcomeIdx) ==>
        selectedOutcomeIdx == idx && limitPrice == outcomes[idx].price && errorMessage == None
      ensures !(idx < |outcomes| && idx != old(selectedOutcomeIdx)) ==>
        selectedOutcomeIdx == old(selectedOutcomeIdx) && limitPrice == old(limitPrice)
        && errorMessage == old(errorMessage)
    {
      if idx < |outcomes| && idx != selectedOutcomeIdx {
        selectedOutcomeIdx := idx;
        var chosen := Get(outcomes, idx);
        if chosen.Some? {
          limitPrice := chosen.value.price;
        }
        errorMessage := None;
      }
    }

    /**
     * `add_char`: the keystroke goes through the numeric filter into the shares or amount
     * input, whichever is active; on the other fields it is ignored. The error is cleared.
     */
    method AddChar(c: char)
      modifies this`shares, this`amount, this`errorMessage
      ensures activeField == Shares ==> shares == AcceptNumeric(old(shares), c) && amount == old(amount)
      ensures activeField == Amount ==> amount == AcceptNumeric(old(amount), c) && shares == old(shares)
      ensures activeField != Shares && activeField != Amount ==>
        shares == old(shares) && amount == old(amount)
      ensures errorMessage == None
      ensures old(NumericInputs()) ==> NumericInputs()
    {
      if activeField == Shares {
        shares := AcceptNumeric(shares, c);
      } else if activeField == Amount {
        amount := AcceptNumeric(amount, c);
      }
      errorMessage := None;
    }

    /** `delete_char`: drop the last character of the active numeric input, clear the error. */
    method DeleteChar()
      modifies this`shares, this`amount, this`errorMessage
      ensures activeField == Shares ==> shares == DropLast(old(shares)) && amount == old(amount)
      ensures activeField == Amount ==> amount == DropLast(old(amount)) && shares == old(shares)
      ensures activeField != Shares && activeField != Amount ==>
        shares == old(shares) && amount == old(amount)
      ensures errorMessage == None
      ensures old(NumericInputs()) ==> NumericInputs()
    {
      if activeField == Shares {
        DropLastKeepsNumeric(shares);
        shares := DropLast(shares);
      } else if activeField == Amount {
        DropLastKeepsNumeric(amount);
        amount := DropLast(amount);
      }
      errorMessage := None;
    }

    method ToggleSide()
      modifies this`side, this`errorMessage
      ensures side == old(side).Toggle() && errorMessage == None
    {
      side := side.Toggle();
      errorMessage := None;
    }

    /**
     * `toggle_order_type`: switch the order type and focus its default input, shares for a
     * limit order and amount for a market order.
     */
    method ToggleOrderType()
      modifies this`orderType, this`activeField, this`errorMessage
      ensures orderType == old(orderType).Toggle()
      ensures orderType == Limit ==> activeField == Shares
      ensures orderType == Market ==> activeField == Amount
      ensures InCycle(activeField, orderType)
      ensures errorMessage == None
    {
      orderType := orderType.Toggle();
      activeField := match orderType
        case Limit => Shares
        case Market => Amount;
      errorMessage := None;
    }

    method NextField()
      modifies this`activeField
      ensures activeField == old(activeField).Next(orderType)
      ensures InCycle(activeField, orderType)
    {
      activeField := activeField.Next(orderType);
    }

    method PrevField()
      modifies this`activeField
      ensures activeField == old(activeField).Prev(orderType)
      ensures InCycle(activeField, orderType)
    {
      activeField := activeField.Prev(orderType);
    }

    /**
     * `clear`: empty both inputs, reprice at the selected outcome, and return to a buy limit
     * order focused on shares, with no error and no submission in progress. The market, the
     * outcomes and the selection are kept.
     */
    method Clear()
      modifies this`shares, this`amount, this`limitPrice, this`side, this`orderType,
        this`activeField, this`errorMessage, this`isSubmitting
      ensures shares == [] && amount == []
      ensures limitPrice == BestAsk()
      ensures side == Buy && orderType == Limit && activeField == Shares
      ensures errorMessage == None && !isSubmitting
      ensures NumericInputs() && InCycle(activeField, orderType)
    {
      shares := [];
      amount := [];
      limitPrice := BestAsk();
      side := Buy;
      orderType := Limit;
      activeField := Shares;
      errorMessage := None;
      isSubmitting := false;
    }
  }
}
