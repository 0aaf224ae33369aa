/**
 * The order the markets panel lists an event's markets in: a stable sort on whether each
 * market is closed, so the open markets come first and each group keeps its order.
 */
module MarketOrder {
  import opened Gamma

  /** The open markets of `ms`, in order. */
  function OpenMarkets(ms: seq<Market>): (r: seq<Market>)
    ensures forall k | 0 <= k < |r| :: !r[k].closed
    ensures |r| <= |ms|
  {
    if ms == [] then []
    else (if ms[0].closed then [] else [ms[0]]) + OpenMarkets(ms[1..])
  }

  /** The closed markets of `ms`, in order. */
  function ClosedMarkets(ms: seq<Market>): (r: seq<Market>)
    ensures forall k | 0 <= k < |r| :: r[k].closed
    ensures |r| <= |ms|
  {
    if ms == [] then []
    else (if ms[0].closed then [ms[0]] else []) + ClosedMarkets(ms[1..])
  }

  lemma {:induction false} SplitByClosed(ms: seq<Market>)
    ensures multiset(OpenMarkets(ms)) + multiset(ClosedMarkets(ms)) == multiset(ms)
    ensures |OpenMarkets(ms)| + |ClosedMarkets(ms)| == |ms|
  {
    if ms != [] {
      SplitByClosed(ms[1..]);
      assert ms == [ms[0]] + ms[1..];
    }
  }

  /** The open markets of a list with a given head. */
  lemma OpenMarketsCons(m: Market, rest: seq<Market>)
    ensures OpenMarkets([m] + rest) == (if m.closed then [] else [m]) + OpenMarkets(rest)
  {
    assert ([m] + rest)[1..] == rest;
  }

  /** The closed markets of a list with a given head. */
  lemma ClosedMarketsCons(m: Market, rest: seq<Market>)
    ensures ClosedMarkets([m] + rest) == (if m.closed then [m] else []) + ClosedMarkets(rest)
  {
    assert ([m] + rest)[1..] == rest;
  }

  lemma {:induction false} OpenMarketsAppend(a: seq<Market>, b: seq<Market>)
    ensures OpenMarkets(a + b) == OpenMarkets(a) + OpenMarkets(b)
  {
    if a == [] {
      assert a + b == b;
    } else {
      var m, tail := a[0], a[1..];
      assert a == [m] + tail;
      assert a + b == [m] + (tail + b);
      OpenMarketsAppend(tail, b);
      OpenMarketsCons(m, tail + b);
      OpenMarketsCons(m, tail);
    }
  }

  lemma {:induction false} ClosedMarketsAppend(a: seq<Market>, b: seq<Market>)
    ensures ClosedMarkets(a + b) == ClosedMarkets(a) + ClosedMarkets(b)
  {
    if a == [] {
      assert a + b == b;
    } else {
      var m, tail := a[0], a[1..];
      assert a == [m] + tail;
      assert a + b == [m] + (tail + b);
      ClosedMarketsAppend(tail, b);
      ClosedMarketsCons(m, tail + b);
      ClosedMarketsCons(m, tail);
    }
  }

  lemma {:induction false} FilterIdempotent(ms: seq<Market>)
    ensures (forall k | 0 <= k < |ms| :: !ms[k].closed) ==> OpenMarkets(ms) == ms && ClosedMarkets(ms) == []
    ensures (forall k | 0 <= k < |ms| :: ms[k].closed) ==> ClosedMarkets(ms) == ms && OpenMarkets(ms) == []
  {
    if ms != [] {
      FilterIdempotent(ms[1..]);
      assert ms == [ms[0]] + ms[1..];
    }
  }

  /**
   * `sort_by_key(|m| m.closed)`, a stable sort on a boolean key: the open markets in their
   * order, then the closed ones in theirs. No closed market precedes an open one.
   */
  function ActiveFirst(ms: seq<Market>): (r: seq<Market>)
    ensures |r| == |ms|
    ensures forall i, j | 0 <= i < j < |r| :: r[i].closed ==> r[j].closed
  {
    var open, closed := OpenMarkets(ms), ClosedMarkets(ms);
    SplitByClosed(ms);
    var r := open + closed;
    assert forall i | 0 <= i < |r| :: r[i].closed <==> i >= |open|;
    r
  }

  /**
   * The sort does what a stable sort by `closed` promises: the markets are the same, and each
   * group keeps its relative order.
   */
  lemma ActiveFirstIsStableSort(ms: seq<Market>)
    ensures multiset(ActiveFirst(ms)) == multiset(ms)
    ensures OpenMarkets(ActiveFirst(ms)) == OpenMarkets(ms)
    ensures ClosedMarkets(ActiveFirst(ms)) == ClosedMarkets(ms)
  {
    assert ActiveFirst(ms) == OpenMarkets(ms) + ClosedMarkets(ms);
    SplitByClosed(ms);
    OpenOfSplit(ms);
    ClosedOfSplit(ms);
  }

  /** The open markets of the split list are the open markets of `ms`. */
  lemma OpenOfSplit(ms: seq<Market>)
    ensures OpenMarkets(OpenMarkets(ms) + ClosedMarkets(ms)) == OpenMarkets(ms)
  {
    var open, closed := OpenMarkets(ms), ClosedMarkets(ms);
    OpenMarketsAppend(open, closed);
    FilterIdempotent(open);
    FilterIdempotent(closed);
    assert open + [] == open;
  }

  /** The closed markets of the split list are the closed markets of `ms`. */
  lemma ClosedOfSplit(ms: seq<Market>)
    ensures ClosedMarkets(OpenMarkets(ms) + ClosedMarkets(ms)) == ClosedMarkets(ms)
  {
    var open, closed := OpenMarkets(ms), ClosedMarkets(ms);
    ClosedMarketsAppend(open, closed);
    FilterIdempotent(open);
    FilterIdempotent(closed);
    assert [] + closed == closed;
  }
}
