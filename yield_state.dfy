/**
 * Yield tab state: high-probability market opportunities, their sort orders and text filter,
 * the API search mode and its results, and the list cursor. Lower-casing (`to_lowercase`) is a
 * parameter of the operations that need it.
 */
module YieldTab {
  import opened Wrappers
  import opened Text
  import opened ListWindow

  /** A high-probability outcome of one market and what buying it would return. */
  datatype YieldOpportunity = YieldOpportunity(
    marketName: string,
    marketStatus: string,
    outcome: string,
    price: real,
    estReturn: real,
    volume: real,
    eventSlug: string,
    eventTitle: string,
    /** The event's end date as a timestamp, if it has one. */
    endDate: Option<int>)

  /** An event found by the API search and its best opportunity, if any. */
  datatype YieldSearchResult = YieldSearchResult(eventSlug: string, bestYield: Option<YieldOpportunity>)

  /** The sort order of the opportunity list, in the order the sort key cycles through them. */
  datatype YieldSortBy = Return | Volume | EndDate {
    function Label(): (r: string)
      ensures r != []
    {
      match this
      case Return => "Return"
      case Volume => "Volume"
      case EndDate => "End Date"
    }

    /** Distinct values show distinct labels, so a label identifies its value. */
    lemma LabelInjective(other: YieldSortBy)
      ensures Label() == other.Label() ==> this == other
    {
    }

    function Next(): (r: YieldSortBy)
      ensures r != this
    {
      match this
      case Return => Volume
      case Volume => EndDate
      case EndDate => Return
    }
  }

  /** `next` is a cycle of three that visits every order. */
  lemma SortByCycle(s: YieldSortBy, t: YieldSortBy)
    ensures s.Next().Next().Next() == s
    ensures t == s || t == s.Next() || t == s.Next().Next()
  {
  }

  datatype Ordering = Less | Equal | Greater

  /** The ordering of two reals (`partial_cmp`, never undefined on reals). */
  function CompareReal(x: real, y: real): Ordering {
    if x < y then Less else if x == y then Equal else Greater
  }

  /**
   * The comparator `sort_opportunities` hands to the library sort: highest return first,
   * highest volume first, or soonest end date first with undated opportunities last.
   */
  function Compare(key: YieldSortBy, a: YieldOpportunity, b: YieldOpportunity): Ordering {
    match key
    case Return => CompareReal(b.estReturn, a.estReturn)
    case Volume => CompareReal(b.volume, a.volume)
    case EndDate =>
      match (a.endDate, b.endDate)
      case (Some(x), Some(y)) => if x < y then Less else if x == y then Equal else Greater
      case (Some(_), None) => Less
      case (None, Some(_)) => Greater
      case (None, None) => Equal
  }

  /** `a` may stand before `b` in a list sorted with the comparator. */
  predicate LessEq(key: YieldSortBy, a: YieldOpportunity, b: YieldOpportunity) {
    Compare(key, a, b) != Greater
  }

  /** `a` and `b` tie under the comparator. */
  predicate Tied(key: YieldSortBy, a: YieldOpportunity, b: YieldOpportunity) {
    Compare(key, a, b) == Equal
  }

  /** What `LessEq` means for each order, spelled out on the fields. */
  lemma LessEqMeaning(key: YieldSortBy, a: YieldOpportunity, b: YieldOpportunity)
    ensures key == Return ==> (LessEq(key, a, b) <==> a.estReturn >= b.estReturn)
    ensures key == Volume ==> (LessEq(key, a, b) <==> a.volume >= b.volume)
    ensures key == EndDate ==>
      (LessEq(key, a, b) <==>
        (b.endDate.None? || (a.endDate.Some? && a.endDate.value <= b.endDate.value)))
  {
  }

  /** The comparator is a total preorder, so a stable sort with it is well defined. */
  lemma LessEqTotalPreorder(key: YieldSortBy, a: YieldOpportunity, b: YieldOpportunity, c: YieldOpportunity)
    ensures LessEq(key, a, b) || LessEq(key, b, a)
    ensures LessEq(key, a, b) && LessEq(key, b, c) ==> LessEq(key, a, c)
    ensures Tied(key, a, b) <==> LessEq(key, a, b) && LessEq(key, b, a)
  {
  }

  predicate Sorted(key: YieldSortBy, s: seq<YieldOpportunity>) {
    forall i, j | 0 <= i < j < |s| :: LessEq(key, s[i], s[j])
  }

  /** Insert `x` before the first element it may precede. */
  function Insert(key: YieldSortBy, x: YieldOpportunity, t: seq<YieldOpportunity>): (r: seq<YieldOpportunity>)
    ensures multiset(r) == multiset(t) + multiset{x}
    ensures |r| == |t| + 1
  {
    if t == [] then [x]
    else if LessEq(key, x, t[0]) then [x] + t
    else
      assert t == [t[0]] + t[1..];
      [t[0]] + Insert(key, x, t[1..])
  }

  /**
   * The library's stable sort with the comparator, as a reference: each element is inserted
   * in front of every later element it ties with.
   */
  function SortBy(key: YieldSortBy, s: seq<YieldOpportunity>): (r: seq<YieldOpportunity>)
    ensures multiset(r) == multiset(s)
    ensures |r| == |s|
  {
    if s == [] then []
    else
      assert s == [s[0]] + s[1..];
      Insert(key, s[0], SortBy(key, s[1..]))
  }

  lemma {:induction false} InsertSorted(key: YieldSortBy, x: YieldOpportunity, t: seq<YieldOpportunity>)
    requires Sorted(key, t)
    ensures Sorted(key, Insert(key, x, t))
  {
    if t == [] {
    } else if LessEq(key, x, t[0]) {
      InsertFrontSorted(key, x, t);
    } else {
      InsertSorted(key, x, t[1..]);
      InsertLaterSorted(key, x, t);
    }
  }

  /** Putting `x` in front of a sorted list it may precede keeps it sorted. */
  lemma InsertFrontSorted(key: YieldSortBy, x: YieldOpportunity, t: seq<YieldOpportunity>)
    requires Sorted(key, t) && t != [] && LessEq(key, x, t[0])
    ensures Sorted(key, [x] + t)
  {
    var r := [x] + t;
    forall i, j | 0 <= i < j < |r|
      ensures LessEq(key, r[i], r[j])
    {
      if i == 0 && j > 1 {
        LessEqTotalPreorder(key, x, t[0], t[j - 1]);
      }
    }
  }

  /** Every element of the list `x` was inserted into further down follows the head. */
  lemma HeadPrecedesInserted(key: YieldSortBy, x: YieldOpportunity, t: seq<YieldOpportunity>)
    requires Sorted(key, t) && t != [] && !LessEq(key, x, t[0])
    ensures forall j | 0 <= j < |Insert(key, x, t[1..])| :: LessEq(key, t[0], Insert(key, x, t[1..])[j])
  {
    var rest := Insert(key, x, t[1..]);
    forall j | 0 <= j < |rest|
      ensures LessEq(key, t[0], rest[j])
    {
      assert rest[j] in multiset(rest);
      if rest[j] == x {
        LessEqTotalPreorder(key, x, t[0], t[0]);
      } else {
        assert rest[j] in multiset(t[1..]);
        var k :| 0 <= k < |t[1..]| && t[1..][k] == rest[j];
        assert t[k + 1] == rest[j];
      }
    }
  }

  /** Inserting `x` past the head keeps the list sorted once the rest is. */
  lemma InsertLaterSorted(key: YieldSortBy, x: YieldOpportunity, t: seq<YieldOpportunity>)
    requires Sorted(key, t) && t != [] && !LessEq(key, x, t[0])
    requires Sorted(key, Insert(key, x, t[1..]))
    ensures Sorted(key, Insert(key, x, t))
  {
    var rest := Insert(key, x, t[1..]);
    HeadPrecedesInserted(key, x, t);
    ConsSorted(key, t[0], rest);
    assert Insert(key, x, t) == [t[0]] + rest;
  }

  /** A sorted list stays sorted with a head that may precede each of its elements. */
  lemma ConsSorted(key: YieldSortBy, h: YieldOpportunity, rest: seq<YieldOpportunity>)
    requires Sorted(key, rest)
    requires forall j | 0 <= j < |rest| :: LessEq(key, h, rest[j])
    ensures Sorted(key, [h] + rest)
  {
    var r := [h] + rest;
    forall i, j | 0 <= i < j < |r|
      ensures LessEq(key, r[i], r[j])
    {
      if i > 0 {
        assert r[i] == rest[i - 1] && r[j] == rest[j - 1];
      }
    }
  }

  /** The reference sort orders its output by the comparator. */
  lemma {:induction false} SortBySorted(key: YieldSortBy, s: seq<YieldOpportunity>)
    ensures Sorted(key, SortBy(key, s))
  {
    if s != [] {
      SortBySorted(key, s[1..]);
      InsertSorted(key, s[0], SortBy(key, s[1..]));
    }
  }

  /** The elements of `s` that tie with `e`, in their order in `s`. */
  function TiedWith(key: YieldSortBy, e: YieldOpportunity, s: seq<YieldOpportunity>): (r: seq<YieldOpportunity>)
    ensures |r| <= |s|
  {
    if s == [] then []
    else (if Tied(key, e, s[0]) then [s[0]] else []) + TiedWith(key, e, s[1..])
  }

  lemma {:induction false} TiedWithAppend(key: YieldSortBy, e: YieldOpportunity, a: seq<YieldOpportunity>, b: seq<YieldOpportunity>)
    ensures TiedWith(key, e, a + b) == TiedWith(key, e, a) + TiedWith(key, e, b)
  {
    if a == [] {
      assert a + b == b;
    } else {
      assert (a + b)[1..] == a[1..] + b;
      TiedWithAppend(key, e, a[1..], b);
    }
  }

  /** The tie filter of a one-element list. */
  lemma TiedWithSingleton(key: YieldSortBy, e: YieldOpportunity, y: YieldOpportunity)
    ensures TiedWith(key, e, [y]) == if Tied(key, e, y) then [y] else []
  {
    assert [y][1..] == [];
  }

  /** Two elements out of order under the comparator cannot both tie with a third. */
  lemma NotBothTied(key: YieldSortBy, e: YieldOpportunity, x: YieldOpportunity, y: YieldOpportunity)
    requires !LessEq(key, x, y)
    ensures !(Tied(key, e, x) && Tied(key, e, y))
  {
    LessEqTotalPreorder(key, e, x, y);
    LessEqTotalPreorder(key, e, y, x);
    LessEqTotalPreorder(key, x, e, y);
  }

  /** Two pieces that commute can be swapped in front of any tail. */
  lemma SwapFront<T>(a: seq<T>, b: seq<T>, rest: seq<T>)
    requires a + b == b + a
    ensures a + (b + rest) == b + (a + rest)
  {
    assert a + (b + rest) == (a + b) + rest;
    assert b + (a + rest) == (b + a) + rest;
  }

  lemma {:induction false} InsertStable(key: YieldSortBy, e: YieldOpportunity, x: YieldOpportunity, t: seq<YieldOpportunity>)
    ensures TiedWith(key, e, Insert(key, x, t)) == TiedWith(key, e, [x] + t)
  {
    if t != [] && !LessEq(key, x, t[0]) {
      InsertStable(key, e, x, t[1..]);
      InsertStableStep(key, e, x, t);
    }
  }

  /** Moving `x` past a head it must follow does not reorder the elements tied with `e`. */
  lemma InsertStableStep(key: YieldSortBy, e: YieldOpportunity, x: YieldOpportunity, t: seq<YieldOpportunity>)
    requires t != [] && !LessEq(key, x, t[0])
    requires TiedWith(key, e, Insert(key, x, t[1..])) == TiedWith(key, e, [x] + t[1..])
    ensures TiedWith(key, e, Insert(key, x, t)) == TiedWith(key, e, [x] + t)
  {
    var a, b, rest := TiedWith(key, e, [t[0]]), TiedWith(key, e, [x]), TiedWith(key, e, t[1..]);
    var inserted := Insert(key, x, t[1..]);
    assert TiedWith(key, e, Insert(key, x, t)) == a + (b + rest) by {
      assert Insert(key, x, t) == [t[0]] + inserted;
      TiedWithAppend(key, e, [t[0]], inserted);
      TiedWithAppend(key, e, [x], t[1..]);
    }
    assert TiedWith(key, e, [x] + t) == b + (a + rest) by {
      assert t == [t[0]] + t[1..];
      TiedWithAppend(key, e, [x], t);
      TiedWithAppend(key, e, [t[0]], t[1..]);
    }
    assert a + b == b + a by {
      TiedWithSingleton(key, e, x);
      TiedWithSingleton(key, e, t[0]);
      NotBothTied(key, e, x, t[0]);
    }
    SwapFront(a, b, rest);
  }

  /**
   * The reference sort is stable: the opportunities that tie with any given one keep their
   * relative order.
   */
  lemma {:induction false} SortByStable(key: YieldSortBy, e: YieldOpportunity, s: seq<YieldOpportunity>)
    ensures TiedWith(key, e, SortBy(key, s)) == TiedWith(key, e, s)
  {
    if s != [] {
      SortByStable(key, e, s[1..]);
      SortByStableStep(key, e, s);
    }
  }

  /** Inserting the head into the sorted tail keeps the ties in their order in `s`. */
  lemma SortByStableStep(key: YieldSortBy, e: YieldOpportunity, s: seq<YieldOpportunity>)
    requires s != []
    requires TiedWith(key, e, SortBy(key, s[1..])) == TiedWith(key, e, s[1..])
    ensures TiedWith(key, e, SortBy(key, s)) == TiedWith(key, e, s)
  {
    var sorted := SortBy(key, s[1..]);
    assert SortBy(key, s) == Insert(key, s[0], sorted);
    InsertStable(key, e, s[0], sorted);
    TiedWithAppend(key, e, [s[0]], sorted);
    TiedWithAppend(key, e, [s[0]], s[1..]);
    assert s == [s[0]] + s[1..];
  }

  /** `YieldOpportunity` matches a lower-cased query in its event title, slug or market name. */
  predicate Matches(o: YieldOpportunity, queryLower: string, lower: string -> string) {
    || Contains(lower(o.eventTitle), queryLower)
    || Contains(lower(o.eventSlug), queryLower)
    || Contains(lower(o.marketName), queryLower)
  }

  /** The opportunities matching `queryLower`, in list order. */
  function Matching(opps: seq<YieldOpportunity>, queryLower: string, lower: string -> string): (r: seq<YieldOpportunity>)
    ensures |r| <= |opps|
    ensures forall o :: o in r <==> o in opps && Matches(o, queryLower, lower)
  {
    if opps == [] then []
    else
      var rest := Matching(opps[1..], queryLower, lower);
      assert opps == [opps[0]] + opps[1..];
      if Matches(opps[0], queryLower, lower) then [opps[0]] + rest else rest
  }

  /** `filtered_opportunities`: everything for an empty query, else the matching ones. */
  function Filtered(opps: seq<YieldOpportunity>, query: string, lower: string -> string): (r: seq<YieldOpportunity>)
    ensures query == [] ==> r == opps
    ensures query != [] ==> forall o :: o in r <==> o in opps && Matches(o, lower(query), lower)
    ensures |r| <= |opps|
  {
    if query == [] then opps else Matching(opps, lower(query), lower)
  }

  /** Filtering a concatenation filters each part: the matches keep their relative order. */
  lemma {:induction false} MatchingAppend(
    a: seq<YieldOpportunity>, b: seq<YieldOpportunity>, queryLower: string, lower: string -> string)
    ensures Matching(a + b, queryLower, lower) == Matching(a, queryLower, lower) + Matching(b, queryLower, lower)
  {
    if a == [] {
      assert a + b == b;
    } else {
      assert (a + b)[1..] == a[1..] + b;
      MatchingAppend(a[1..], b, queryLower, lower);
    }
  }

  /** A matching opportunity is kept as many times as it occurs; any other is dropped. */
  lemma {:induction false} MatchingCount(
    opps: seq<YieldOpportunity>, queryLower: string, lower: string -> string, o: YieldOpportunity)
    ensures multiset(Matching(opps, queryLower, lower))[o] ==
      if Matches(o, queryLower, lower) then multiset(opps)[o] else 0
  {
    if opps != [] {
      MatchingCount(opps[1..], queryLower, lower, o);
      assert opps == [opps[0]] + opps[1..];
    }
  }

  /** Filtering a sorted list leaves it sorted. */
  lemma {:induction false} MatchingKeepsSorted(
    key: YieldSortBy, opps: seq<YieldOpportunity>, queryLower: string, lower: string -> string)
    requires Sorted(key, opps)
    ensures Sorted(key, Matching(opps, queryLower, lower))
  {
    if opps != [] {
      var rest := Matching(opps[1..], queryLower, lower);
      assert Sorted(key, opps[1..]) by {
        forall i, j | 0 <= i < j < |opps[1..]|
          ensures LessEq(key, opps[1..][i], opps[1..][j])
        {
          assert opps[1..][i] == opps[i + 1] && opps[1..][j] == opps[j + 1];
        }
      }
      MatchingKeepsSorted(key, opps[1..], queryLower, lower);
      if Matches(opps[0], queryLower, lower) {
        HeadPrecedesMatches(key, opps, queryLower, lower);
        var r := [opps[0]] + rest;
        forall i, j | 0 <= i < j < |r|
          ensures LessEq(key, r[i], r[j])
        {
          if i > 0 {
            assert r[i] == rest[i - 1] && r[j] == rest[j - 1];
          }
        }
      }
    }
  }

  /** The head of a sorted list may precede every match taken from its tail. */
  lemma HeadPrecedesMatches(
    key: YieldSortBy, opps: seq<YieldOpportunity>, queryLower: string, lower: string -> string)
    requires Sorted(key, opps) && opps != []
    ensures forall j | 0 <= j < |Matching(opps[1..], queryLower, lower)| ::
      LessEq(key, opps[0], Matching(opps[1..], queryLower, lower)[j])
  {
    var rest := Matching(opps[1..], queryLower, lower);
    forall j | 0 <= j < |rest|
      ensures LessEq(key, opps[0], rest[j])
    {
      assert rest[j] in rest;
      var k :| 0 <= k < |opps[1..]| && opps[1..][k] == rest[j];
      assert opps[k + 1] == rest[j];
    }
  }

  /** `filtered_opportunities` of a concatenation is the concatenation of the two filters. */
  lemma FilteredAppend(a: seq<YieldOpportunity>, b: seq<YieldOpportunity>, query: string, lower: string -> string)
    ensures Filtered(a + b, query, lower) == Filtered(a, query, lower) + Filtered(b, query, lower)
  {
    if query != [] {
      MatchingAppend(a, b, lower(query), lower);
    }
  }

  /**
   * `filtered_opportunities` keeps every copy of each opportunity that passes the filter and
   * no copy of any other.
   */
  lemma FilteredCount(opps: seq<YieldOpportunity>, query: string, lower: string -> string, o: YieldOpportunity)
    ensures multiset(Filtered(opps, query, lower))[o] ==
      if query == [] || Matches(o, lower(query), lower) then multiset(opps)[o] else 0
  {
    if query != [] {
      MatchingCount(opps, lower(query), lower, o);
    }
  }

  /** Filtering runs after the sort and does not disturb its order. */
  lemma FilteredKeepsSorted(key: YieldSortBy, opps: seq<YieldOpportunity>, query: string, lower: string -> string)
    ensures Sorted(key, opps) ==> Sorted(key, Filtered(opps, query, lower))
  {
    if query != [] && Sorted(key, opps) {
      MatchingKeepsSorted(key, opps, lower(query), lower);
    }
  }

  /** A window of `hay` that holds `needle` also holds every prefix of `needle`. */
  lemma ContainsPrefix(hay: string, needle: string, p: string)
    requires Contains(hay, needle) && StartsWith(needle, p)
    ensures Contains(hay, p)
  {
    var i :| 0 <= i <= |hay| - |needle| && OccursAt(hay, needle, i);
    assert hay[i..i + |p|] == hay[i..i + |needle|][..|p|];
    assert OccursAt(hay, p, i);
  }

  /**
   * Typing one more character into the filter only narrows the list, provided lower-casing
   * the longer query extends the lower-cased shorter one (as it does for every character
   * whose lower case does not depend on what follows it).
   */
  lemma FilterNarrows(opps: seq<YieldOpportunity>, query: string, c: char, lower: string -> string)
    requires query != [] ==> StartsWith(lower(query + [c]), lower(query))
    ensures forall o :: o in Filtered(opps, query + [c], lower) ==> o in Filtered(opps, query, lower)
  {
    if query != [] {
      forall o | o in Filtered(opps, query + [c], lower)
        ensures o in Filtered(opps, query, lower)
      {
        var q, p := lower(query + [c]), lower(query);
        if Contains(lower(o.eventTitle), q) {
          ContainsPrefix(lower(o.eventTitle), q, p);
        } else if Contains(lower(o.eventSlug), q) {
          ContainsPrefix(lower(o.eventSlug), q, p);
        } else {
          ContainsPrefix(lower(o.marketName), q, p);
        }
      }
    }
  }

  /** `YieldState`: the yield tab. */
  class YieldState {
    var opportunities: seq<YieldOpportunity>
    var selectedIndex: nat
    var scroll: nat
    var isLoading: bool
    var minProb: real
    var maxProb: real
    var minVolume: real
    var sortBy: YieldSortBy
    var filterQuery: string
    var isFiltering: bool
    var searchQuery: string
    var searchResults: seq<YieldSearchResult>
    var isSearching: bool
    var isSearchLoading: bool
    var lastSearchedQuery: string

    /** `new`: nothing loaded, probabilities from 0.95 to 1.0, sorted by return, no filter or search. */
    constructor ()
      ensures opportunities == [] && selectedIndex == 0 && scroll == 0 && !isLoading
      ensures minProb == 0.95 && maxProb == 1.0 && minVolume == 0.0 && sortBy == Return
      ensures filterQuery == [] && !isFiltering
      ensures searchQuery == [] && searchResults == [] && !isSearching && !isSearchLoading
      ensures lastSearchedQuery == []
    {
      opportunities := [];
      selectedIndex := 0;
      scroll := 0;
      isLoading := false;
      minProb := 0.95;
      maxProb := 1.0;
      minVolume := 0.0;
      sortBy := Return;
      filterQuery := [];
      isFiltering := false;
      searchQuery := [];
      searchResults := [];
      isSearching := false;
      isSearchLoading := false;
      lastSearchedQuery := [];
    }

    function Position(): Cursor
      reads this
    {
      Cursor(selectedIndex, scroll)
    }

    /** `filtered_opportunities` on the current list and filter query. */
    function FilteredOpportunities(lower: string -> string): (r: seq<YieldOpportunity>)
      reads this
      ensures r == Filtered(opportunities, filterQuery, lower)
      ensures |r| <= |opportunities|
      ensures filterQuery == [] ==> r == opportunities
      ensures filterQuery != [] ==>
        forall o :: o in r <==> o in opportunities && Matches(o, lower(filterQuery), lower)
      ensures Sorted(sortBy, opportunities) ==> Sorted(sortBy, r)
    {
      FilteredKeepsSorted(sortBy, opportunities, filterQuery, lower);
      Filtered(opportunities, filterQuery, lower)
    }

    /**
     * `sort_opportunities`: reorder the list by the current sort key with a stable sort: the
     * result is ordered by the key, holds the same opportunities, and keeps ties in their
     * previous order.
     */
    method SortOpportunities()
      modifies this`opportunities
      ensures opportunities == SortBy(sortBy, old(opportunities))
      ensures Sorted(sortBy, opportunities)
      ensures multiset(opportunities) == multiset(old(opportunities))
      ensures forall e :: TiedWith(sortBy, e, opportunities) == TiedWith(sortBy, e, old(opportunities))
      ensures sortBy == Return ==>
        forall i, j | 0 <= i < j < |opportunities| ::
          opportunities[i].estReturn >= opportunities[j].estReturn
      ensures sortBy == Volume ==>
        forall i, j | 0 <= i < j < |opportunities| :: opportunities[i].volume >= opportunities[j].volume
      ensures sortBy == EndDate ==>
        forall i, j | 0 <= i < j < |opportunities| && opportunities[j].endDate.Some? ::
          opportunities[i].endDate.Some? && opportunities[i].endDate.value <= opportunities[j].endDate.value
    {
      var before := opportunities;
      opportunities := SortBy(sortBy, opportunities);
      SortBySorted(sortBy, before);
      forall e
        ensures TiedWith(sortBy, e, opportunities) == TiedWith(sortBy, e, before)
      {
        SortByStable(sortBy, e, before);
      }
      forall i, j | 0 <= i < j < |opportunities|
        ensures LessEq(sortBy, opportunities[i], opportunities[j])
      {
        LessEqMeaning(sortBy, opportunities[i], opportunities[j]);
      }
    }

    /** `move_up`: nothing when the filtered list is empty, else the previous row. */
    method MoveUp(lower: string -> string)
      modifies this`selectedIndex, this`scroll
      ensures FilteredOpportunities(lower) == [] ==> Position() == old(Position())
      ensures FilteredOpportunities(lower) != [] ==> Position() == Up(old(Position()))
      ensures forall h: nat :: InView(old(Position()), h) ==> InView(Position(), h)
    {
      var filteredLen := |FilteredOpportunities(lower)|;
      if filteredLen == 0 {
        return;
      }
      if selectedIndex > 0 {
        selectedIndex := selectedIndex - 1;
        if selectedIndex < scroll {
          scroll := selectedIndex;
        }
      }
    }

    /**
     * `move_down`: the next row of the filtered list, if there is one. The early return on an
     * empty list and the `saturating_sub` bound amount to the same step as the favourites
     * list's, so the selection stays inside the filtered list and on screen.
     */
    method MoveDown(lower: string -> string, visibleHeight: nat)
      modifies this`selectedIndex, this`scroll
      ensures Position() == Down(old(Position()), |FilteredOpportunities(lower)|, visibleHeight)
      ensures old(selectedIndex) < |FilteredOpportunities(lower)| ==>
        selectedIndex < |FilteredOpportunities(lower)|
      ensures visibleHeight >= 1 && InView(old(Position()), visibleHeight) ==>
        InView(Position(), visibleHeight)
    {
      var filteredLen := |FilteredOpportunities(lower)|;
      if filteredLen == 0 {
        return;
      }
      if selectedIndex < SatSub(filteredLen, 1) {
        selectedIndex := selectedIndex + 1;
        if selectedIndex >= scroll + visibleHeight {
          scroll := selectedIndex - visibleHeight + 1;
        }
      }
    }

    /** `selected_opportunity`: the filtered row under the cursor, if any. */
    function SelectedOpportunity(lower: string -> string): (r: Option<YieldOpportunity>)
      reads this
      ensures r.Some? <==> selectedIndex < |FilteredOpportunities(lower)|
      ensures r.Some? ==> r.value == FilteredOpportunities(lower)[selectedIndex]
      ensures r.Some? ==> r.value in opportunities
      ensures r.Some? && filterQuery != [] ==> Matches(r.value, lower(filterQuery), lower)
    {
      Get(FilteredOpportunities(lower), selectedIndex)
    }

    /** `enter_filter_mode`: start typing a new filter. */
    method EnterFilterMode()
      modifies this`isFiltering, this`filterQuery
      ensures isFiltering && filterQuery == []
      ensures IsInInputMode()
    {
      isFiltering := true;
      filterQuery := [];
    }

    /** `exit_filter_mode`: stop typing but keep the filter applied. */
    method ExitFilterMode()
      modifies this`isFiltering
      ensures !isFiltering
    {
      isFiltering := false;
    }

    /** `clear_filter`: show everything again from the top. */
    method ClearFilter(lower: string -> string)
      modifies this`filterQuery, this`selectedIndex, this`scroll
      ensures filterQuery == [] && selectedIndex == 0 && scroll == 0
      ensures FilteredOpportunities(lower) == opportunities
    {
      filterQuery := [];
      selectedIndex := 0;
      scroll := 0;
    }

    /** `add_filter_char`: extend the filter and go back to the top of the list. */
    method AddFilterChar(c: char)
      modifies this`filterQuery, this`selectedIndex, this`scroll
      ensures filterQuery == old(filterQuery) + [c]
      ensures selectedIndex == 0 && scroll == 0
    {
      filterQuery := filterQuery + [c];
      selectedIndex := 0;
      scroll := 0;
    }

    /** `delete_filter_char`: drop the filter's last character and go back to the top. */
    method DeleteFilterChar()
      modifies this`filterQuery, this`selectedIndex, this`scroll
      ensures filterQuery == DropLast(old(filterQuery))
      ensures selectedIndex == 0 && scroll == 0
    {
      filterQuery := DropLast(filterQuery);
      selectedIndex := 0;
      scroll := 0;
    }

    /** `enter_search_mode`: start a new API search with nothing typed and no results. */
    method EnterSearchMode()
      modifies this`isSearching, this`searchQuery, this`searchResults, this`lastSearchedQuery
      ensures isSearching && searchQuery == [] && searchResults == [] && lastSearchedQuery == []
      ensures IsInInputMode()
    {
      isSearching := true;
      searchQuery := [];
      searchResults := [];
      lastSearchedQuery := [];
    }

    /** `exit_search_mode`: leave the search, dropping query and results, back to the top. */
    method ExitSearchMode()
      modifies this`isSearching, this`searchQuery, this`searchResults, this`lastSearchedQuery,
        this`selectedIndex, this`scroll
      ensures !isSearching && searchQuery == [] && searchResults == [] && lastSearchedQuery == []
      ensures selectedIndex == 0 && scroll == 0
      ensures SelectedSearchResult() == None
    {
      isSearching := false;
      searchQuery := [];
      searchResults := [];
      lastSearchedQuery := [];
      selectedIndex := 0;
      scroll := 0;
    }

    /** `hide_search_input`: stop typing but keep the query and the results shown. */
    method HideSearchInput()
      modifies this`isSearching
      ensures !isSearching
    {
      isSearching := false;
    }

    /** `add_search_char`: extend the search query and go back to the top. */
    method AddSearchChar(c: char)
      modifies this`searchQuery, this`selectedIndex, this`scroll
      ensures searchQuery == old(searchQuery) + [c]
      ensures selectedIndex == 0 && scroll == 0
    {
      searchQuery := searchQuery + [c];
      selectedIndex := 0;
      scroll := 0;
    }

    /** `delete_search_char`: drop the query's last character and go back to the top. */
    method DeleteSearchChar()
      modifies this`searchQuery, this`selectedIndex, this`scroll
      ensures searchQuery == DropLast(old(searchQuery))
      ensures selectedIndex == 0 && scroll == 0
    {
      searchQuery := DropLast(searchQuery);
      selectedIndex := 0;
      scroll := 0;
    }

    /** `set_search_results`: store the answer to `query`, end the load, select the first result. */
    method SetSearchResults(results: seq<YieldSearchResult>, query: string)
      modifies this`searchResults, this`lastSearchedQuery, this`isSearchLoading,
        this`selectedIndex, this`scroll
      ensures searchResults == results && lastSearchedQuery == query && !isSearchLoading
      ensures selectedIndex == 0 && scroll == 0
      ensures results != [] ==> SelectedSearchResult() == Some(results[0])
    {
      searchResults := results;
      lastSearchedQuery := query;
      isSearchLoading := false;
      selectedIndex := 0;
      scroll := 0;
    }

    /** `is_in_input_mode`: typing a filter or a search query. */
    function IsInInputMode(): (r: bool)
      reads this
      ensures r <==> isFiltering || isSearching
    {
      isFiltering || isSearching
    }

    /**
     * `displayed_count`: the number of search results while searching with results, else the
     * number of filtered opportunities.
     */
    function DisplayedCount(lower: string -> string): (r: nat)
      reads this
      ensures isSearching && searchResults != [] ==> r == |searchResults|
      ensures !(isSearching && searchResults != []) ==> r == |FilteredOpportunities(lower)|
      ensures r <= Max(|searchResults|, |opportunities|)
      ensures r == 0 ==> searchResults == [] || !isSearching
    {
      if isSearching && searchResults != [] then |searchResults|
      else |FilteredOpportunities(lower)|
    }

    /**
     * `selected_search_result`: the result under the cursor. The guard on the search mode is
     * redundant: without results the lookup finds nothing anyway, so this is exactly the
     * result at the cursor whenever there is one.
     */
    function SelectedSearchResult(): (r: Option<YieldSearchResult>)
      reads this
      ensures r.Some? <==> selectedIndex < |searchResults|
      ensures r.Some? ==> r.value == searchResults[selectedIndex]
    {
      if isSearching || searchResults != [] then Get(searchResults, selectedIndex) else None
    }
  }
}
