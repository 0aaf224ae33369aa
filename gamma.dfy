/**
 * The event and market records of the Polymarket "gamma" API as the terminal UI reads them.
 * Only the fields the modelled code consults are kept.
 */
module Gamma {
  import opened Wrappers

  datatype Market = Market(
    question: string,
    groupItemTitle: Option<string>,
    outcomes: seq<string>,
    /** Prices as the API sends them: decimal text, parsed on use. */
    outcomePrices: seq<string>,
    clobTokenIds: Option<seq<string>>,
    closed: bool,
    /** The answer of the API crate's `Market::is_in_review()`. */
    inReview: bool,
    volume24hr: Option<real>,
    volumeTotal: Option<real>)

  datatype Event = Event(
    slug: string,
    title: string,
    active: bool,
    closed: bool,
    markets: seq<Market>)

  /** A favourite entry as returned by the favourites API; kept as an opaque record. */
  datatype FavoriteEvent = FavoriteEvent(record: string)

  /** The name a market row shows: its non-empty group item title, else its question. */
  function ShortName(m: Market): (r: string)
    ensures m.groupItemTitle.Some? && m.groupItemTitle.value != [] ==> r == m.groupItemTitle.value
    ensures (m.groupItemTitle.None? || m.groupItemTitle.value == []) ==> r == m.question
  {
    match m.groupItemTitle
    case Some(t) => if t != [] then t else m.question
    case None => m.question
  }
}
