# Trending TUI state and rendering logic, in Dafny

This project models the core of the `trending` terminal interface of polymarket-tui. That
interface browses Polymarket events, their markets and order books, live trades, favourites,
a yield-opportunity tab, logs and a login form. The model covers two parts:

- **The UI state** (`crates/cli/src/trending_tui/state`). The structs whose fields the key
  handlers update are Dafny classes with `modifies` frames:
  - the per-event trade log, capped at 500 records, newest first;
  - the order-entry form: a field cursor that depends on the order type, numeric text entry,
    outcome selection and reset;
  - the favourites list and the yield tab: cursor and scroll, filtering, search mode, and a
    stable sort by return, volume or end date;
  - the login form;
  - the order-book panel state, with its five-second refresh rule.

  The small enums (tabs, filters, sort orders, sides, fields) are datatypes with their cycles
  proved.
- **The pure logic of the renderers** (`crates/cli/src/trending_tui/render`), written as
  functions that compute what a panel shows, with the drawing left out:
  - character truncation, width truncation and thousands grouping;
  - the yield test on markets and events;
  - the log panel's scroll rule and line wrapping;
  - the market rows: open markets first, status icon, best yield, the resolved winner, and the
    buy-button price priority;
  - the trade rows: market lookup by asset id, trader name, clamped window.

Calls the code makes into libraries become parameters of the model:

- `str::parse::<f64>` becomes `parse: string -> Option<real>`;
- `to_lowercase` becomes `lower: string -> string`;
- `unicode-width` becomes `charWidth: char -> nat`, and a string's width is the sum of its
  characters' widths;
- the clock becomes `now`, an integer number of nanoseconds.

Floating-point numbers are modelled as `real`. `usize` values are modelled as `nat`, and the
source's `saturating_sub` is written out explicitly.

Module layout, one file per concern:

| file | contents |
|---|---|
| `wrappers.dfy` | `Option` |
| `text.dfy` | string helpers, saturating subtraction, UTF-8 length |
| `gamma.dfy` | the API's `Event` and `Market` records |
| `list_window.dfy` | the cursor and scroll steps shared by the lists |
| `trade.dfy`, `navigation.dfy`, `orderbook.dfy`, `auth.dfy`, `favorites.dfy`, `yield_state.dfy` | the state files |
| `utils.dfy`, `logs.dfy`, `market_order.dfy`, `markets.dfy`, `trades.dfy` | the renderers; `market_order.dfy` holds the open-first order of the markets panel |

## Model

| member | source | states |
|---|---|---|
| TradeState.RoundHalfAwayFromZero | crates/cli/src/trending_tui/state/trade.rs:35 | `f64::round`: the result is within one half of x, halfway cases going away from zero |
| TradeState.RoundToCents | crates/cli/src/trending_tui/state/trade.rs:35 | rounded shares are within half a cent of the size |
| TradeState.BuildTrade | crates/cli/src/trending_tui/state/trade.rs:34-50 | a stored trade copies the message's fields, with total value = price × size and shares rounded to cents |
| TradeState.Ingest | crates/cli/src/trending_tui/state/trade.rs:51-55 | the new trade is first, the old trades follow in order, and the length is min(old + 1, 500) |
| TradeState.IngestAllKeepsNewest | crates/cli/src/trending_tui/state/trade.rs:51-55 | after any number of insertions, the log is the first min(n, 500) of the new trades (newest first) followed by the old log |
| TradeState.BoundedHistory | crates/cli/src/trending_tui/state/trade.rs:51-55 | from empty, N insertions leave exactly min(N, 500) records, the k-th being the k-th newest |
| TradeState.EventTrades.constructor | crates/cli/src/trending_tui/state/trade.rs:27-32 | no trades, not watching |
| TradeState.EventTrades.AddTrade | crates/cli/src/trending_tui/state/trade.rs:34-56 | the log becomes `Ingest` of the built trade and never exceeds 500 |
| TradeState.TradeSide.Toggle | crates/cli/src/trending_tui/state/trade.rs:66-73 | toggling always changes the side |
| TradeState.TradeSide.Label | crates/cli/src/trending_tui/state/trade.rs:76-81 | each side has a non-empty label |
| TradeState.TradeSide.LabelInjective | crates/cli/src/trending_tui/state/trade.rs:76-81 | buy and sell have distinct labels |
| TradeState.OrderType.Toggle | crates/cli/src/trending_tui/state/trade.rs:92-98 | toggling always changes the order type |
| TradeState.OrderType.Label | crates/cli/src/trending_tui/state/trade.rs:101-106 | each order type has a non-empty label |
| TradeState.OrderType.LabelInjective | crates/cli/src/trending_tui/state/trade.rs:101-106 | limit and market have distinct labels |
| TradeState.ToggleInvolutions | crates/cli/src/trending_tui/state/trade.rs:66-98 | toggling twice restores the side and the order type |
| TradeState.TradeField.Next | crates/cli/src/trending_tui/state/trade.rs:121-137 | the next field is one the order type's form shows (limit: type, price, shares; market: type, amount) |
| TradeState.TradeField.Prev | crates/cli/src/trending_tui/state/trade.rs:139-155 | the previous field is one the order type's form shows |
| TradeState.NextPrevInverse | crates/cli/src/trending_tui/state/trade.rs:121-155 | on the fields of its form, next and previous undo each other |
| TradeState.CycleLengths | crates/cli/src/trending_tui/state/trade.rs:121-137 | a limit form cycles through 3 fields, a market form through 2 |
| TradeState.AcceptNumeric | crates/cli/src/trending_tui/state/trade.rs:236-250 | a character is appended iff it is a digit, or a dot when there is none yet; text that has the form of a decimal number keeps that form |
| TradeState.DropLastKeepsNumeric | crates/cli/src/trending_tui/state/trade.rs:252-263 | backspace keeps text that has the form of a decimal number in that form |
| TradeState.TradeFormState.constructor | crates/cli/src/trending_tui/state/trade.rs:184-199 | buy, limit, shares field active, limit price = the selected outcome's price or 0.5, empty inputs |
| TradeState.TradeFormState.SelectedOutcome | crates/cli/src/trending_tui/state/trade.rs:202-206 | present exactly when the index is in range, and then it is that outcome |
| TradeState.TradeFormState.TokenId | crates/cli/src/trending_tui/state/trade.rs:208-211 | the selected outcome's token id, present exactly when the index is in range |
| TradeState.TradeFormState.OutcomeName | crates/cli/src/trending_tui/state/trade.rs:213-218 | the selected outcome's name, or "Unknown" |
| TradeState.TradeFormState.BestAsk | crates/cli/src/trending_tui/state/trade.rs:220-223 | the selected outcome's price, or 0.5 |
| TradeState.TradeFormState.SelectOutcome | crates/cli/src/trending_tui/state/trade.rs:225-234 | an in-range new index selects it and resets the limit price to its price; anything else changes nothing |
| TradeState.TradeFormState.AddChar | crates/cli/src/trending_tui/state/trade.rs:236-250 | only the active shares or amount field takes the character (digits, one dot); the error is cleared; the numeric form is preserved |
| TradeState.TradeFormState.DeleteChar | crates/cli/src/trending_tui/state/trade.rs:252-263 | the active numeric field loses its last character; the other field is unchanged; the error is cleared |
| TradeState.TradeFormState.ToggleSide | crates/cli/src/trending_tui/state/trade.rs:266-269 | the side flips and the error is cleared |
| TradeState.TradeFormState.ToggleOrderType | crates/cli/src/trending_tui/state/trade.rs:271-279 | the type flips and the active field jumps to shares (limit) or amount (market), always a field of the new form |
| TradeState.TradeFormState.NextField | crates/cli/src/trending_tui/state/trade.rs:342-344 | moves to the next field of the current form and stays on the form |
| TradeState.TradeFormState.PrevField | crates/cli/src/trending_tui/state/trade.rs:346-348 | moves to the previous field of the current form and stays on the form |
| TradeState.TradeFormState.Clear | crates/cli/src/trending_tui/state/trade.rs:351-360 | inputs emptied, limit price back to the best ask, buy / limit / shares, error cleared |
| Navigation.MainTab.Next | crates/cli/src/trending_tui/state/navigation.rs:32-39 | the next tab differs from the current one |
| Navigation.MainTab.Prev | crates/cli/src/trending_tui/state/navigation.rs:41-48 | the previous tab differs from the current one |
| Navigation.MainTabCycle | crates/cli/src/trending_tui/state/navigation.rs:32-48 | next and prev are inverse, and three steps return to the start |
| Navigation.MainTab.Label | crates/cli/src/trending_tui/state/navigation.rs:22-28 | every tab has a non-empty label |
| Navigation.MainTab.LabelInjective | crates/cli/src/trending_tui/state/navigation.rs:22-28 | distinct tabs have distinct labels |
| Navigation.EventFilter.OrderBy | crates/cli/src/trending_tui/state/navigation.rs:58-63 | trending lists are ordered by the field the default sort (24h volume) asks for; breaking lists by a field no sort option asks for, so the two filters never order alike |
| Navigation.EventFilter.Next | crates/cli/src/trending_tui/state/navigation.rs:74-80 | switching always changes the filter |
| Navigation.EventFilter.Prev | crates/cli/src/trending_tui/state/navigation.rs:82-88 | switching back always changes the filter |
| Navigation.EventFilterNextIsPrev | crates/cli/src/trending_tui/state/navigation.rs:74-88 | with two filters, next and prev coincide and each is an involution |
| Navigation.EventFilter.Label | crates/cli/src/trending_tui/state/navigation.rs:66-71 | every filter has a non-empty label |
| Navigation.EventFilter.LabelInjective | crates/cli/src/trending_tui/state/navigation.rs:66-71 | the two filters have distinct labels |
| Navigation.EventSortBy.Index | crates/cli/src/trending_tui/state/navigation.rs:92-100 | each sort order has a position below 6 in the declared order |
| Navigation.EventSortBy.Next | crates/cli/src/trending_tui/state/navigation.rs:114-123 | next moves one position forward, modulo 6 |
| Navigation.EventSortBy.IsAscending | crates/cli/src/trending_tui/state/navigation.rs:140-146 | only "ending soon" sorts ascending |
| Navigation.EventSortBy.Label | crates/cli/src/trending_tui/state/navigation.rs:103-112 | every sort order has a non-empty label |
| Navigation.EventSortBy.LabelInjective | crates/cli/src/trending_tui/state/navigation.rs:103-112 | distinct sort orders have distinct labels |
| Navigation.IndexInjective | crates/cli/src/trending_tui/state/navigation.rs:92-100 | distinct sort orders have distinct positions |
| Navigation.NextNIndex | crates/cli/src/trending_tui/state/navigation.rs:114-123 | k presses of next advance the position by k modulo 6 |
| Navigation.SortOrderCycle | crates/cli/src/trending_tui/state/navigation.rs:114-123 | next cycles through all 6 sort orders: back after 6 presses and not before, every order reachable |
| Navigation.EventSortBy.ApiOrderParam | crates/cli/src/trending_tui/state/navigation.rs:127-136 | every order names a non-empty API field, and only the default order asks for 24h volume |
| Navigation.ApiOrderParamInjective | crates/cli/src/trending_tui/state/navigation.rs:127-136 | distinct sort orders send distinct API parameters, and the parameter identifies the order |
| Navigation.NavigationState.constructor | crates/cli/src/trending_tui/state/navigation.rs:180-185 | first event selected, the events list focused |
| Orderbook.OrderbookOutcome.Toggle | crates/cli/src/trending_tui/state/orderbook.rs:12-17 | toggling always changes the outcome |
| Orderbook.OutcomeToggleInvolution | crates/cli/src/trending_tui/state/orderbook.rs:12-17 | toggling twice restores the outcome |
| Orderbook.OrderbookOutcome.Label | crates/cli/src/trending_tui/state/orderbook.rs:20-25 | each outcome has a non-empty label |
| Orderbook.OrderbookOutcome.LabelInjective | crates/cli/src/trending_tui/state/orderbook.rs:20-25 | yes and no have distinct labels |
| Orderbook.Elapsed | crates/cli/src/trending_tui/state/orderbook.rs:87 | `Instant::elapsed`: the time since the instant, or zero for an instant in the future |
| Orderbook.OrderbookState.constructor | crates/cli/src/trending_tui/state/orderbook.rs:59-69 | the default state, which needs a refresh at every instant |
| Orderbook.OrderbookState.Reset | crates/cli/src/trending_tui/state/orderbook.rs:71-76 | first market, no book, no token, not loading; the outcome is kept |
| Orderbook.OrderbookState.ToggleOutcome | crates/cli/src/trending_tui/state/orderbook.rs:78-83 | the outcome flips and the book and token are dropped |
| Orderbook.OrderbookState.NeedsRefresh | crates/cli/src/trending_tui/state/orderbook.rs:85-90 | a refresh is needed when nothing was fetched, or at least five seconds have passed |
| Orderbook.FreshForFiveSeconds | crates/cli/src/trending_tui/state/orderbook.rs:85-90 | after a fetch there is no refresh for five seconds, and then there always is one |
| Auth.LoginField.Index | crates/cli/src/trending_tui/state/auth.rs:5-15 | each of the 7 fields has a position below 7 |
| Auth.LoginField.Next | crates/cli/src/trending_tui/state/auth.rs:18-28 | tab moves one position forward, modulo 7 |
| Auth.LoginField.Prev | crates/cli/src/trending_tui/state/auth.rs:30-40 | shift-tab moves one position back, modulo 7 |
| Auth.FieldIndexInjective | crates/cli/src/trending_tui/state/auth.rs:5-15 | distinct fields have distinct positions |
| Auth.NextPrevInverse | crates/cli/src/trending_tui/state/auth.rs:18-40 | next and prev undo each other |
| Auth.NextNIndex | crates/cli/src/trending_tui/state/auth.rs:18-28 | k presses of tab advance the position by k modulo 7 |
| Auth.SevenCycle | crates/cli/src/trending_tui/state/auth.rs:18-28 | tab visits every field: back after 7 presses and not before |
| Auth.LoginFormState.constructor | crates/cli/src/trending_tui/state/auth.rs:61-74 | all fields empty, the first field active, no error, auth type "magic" |
| Auth.LoginFormState.AddChar | crates/cli/src/trending_tui/state/auth.rs:88-99 | the active field gains the character, every other field is unchanged, the error is cleared |
| Auth.LoginFormState.DeleteChar | crates/cli/src/trending_tui/state/auth.rs:101-126 | the active field loses its last character, every other field is unchanged, the error is cleared |
| Auth.LoginFormState.Clear | crates/cli/src/trending_tui/state/auth.rs:128-139 | back to the blank form |
| Auth.AuthState.DisplayName | crates/cli/src/trending_tui/state/auth.rs:180-188 | the username, else the address, else "Unknown" |
| Favorites.FavoritesState.constructor | crates/cli/src/trending_tui/state/favorites.rs:19-29 | empty, at the top, not loading |
| Favorites.FavoritesState.SelectedEvent | crates/cli/src/trending_tui/state/favorites.rs:31-33 | present exactly when the index is in range, and then that event |
| Favorites.FavoritesState.IsFavorite | crates/cli/src/trending_tui/state/favorites.rs:36-38 | true exactly when the slug is among the favourite slugs |
| Favorites.FavoritesState.MoveUp | crates/cli/src/trending_tui/state/favorites.rs:40-47 | the shared cursor-up step; the selection stays in view |
| Favorites.FavoritesState.MoveDown | crates/cli/src/trending_tui/state/favorites.rs:49-56 | the shared cursor-down step; the selection stays in range and in view |
| Favorites.FavoritesState.Clear | crates/cli/src/trending_tui/state/favorites.rs:58-64 | no events or ids, at the top, nothing selected |
| Gamma.ShortName | crates/cli/src/trending_tui/render/markets.rs:258-262 | a market's group item title when non-empty, else its question |
| ListWindow.Up | crates/cli/src/trending_tui/state/favorites.rs:40-47 | the selection moves up one unless at the top; the scroll follows it up; a selection in view stays in view |
| ListWindow.Down | crates/cli/src/trending_tui/state/favorites.rs:49-56 | the selection moves down one unless at the end; the scroll follows it down; a selection in view stays in view |
| ListWindow.ClampScroll | crates/cli/src/trending_tui/render/markets.rs:41-45 | the offset never grows and is kept when a full page follows it; past the last full page it becomes the start of that page, and with fewer items than a page it is 0 |
| ListWindow.Window | crates/cli/src/trending_tui/render/markets.rs:66-70 | `skip(start).take(count)`: the right length, element i being element start + i |
| YieldTab.YieldSortBy.Next | crates/cli/src/trending_tui/state/yield_state.rs:68-75 | the next key differs from the current one |
| YieldTab.SortByCycle | crates/cli/src/trending_tui/state/yield_state.rs:68-75 | three steps return to the start, and every key is reached |
| YieldTab.YieldSortBy.Label | crates/cli/src/trending_tui/state/yield_state.rs:60-66 | every sort key has a non-empty label |
| YieldTab.YieldSortBy.LabelInjective | crates/cli/src/trending_tui/state/yield_state.rs:60-66 | distinct sort keys have distinct labels |
| YieldTab.LessEqMeaning | crates/cli/src/trending_tui/state/yield_state.rs:98-118 | the comparator orders by return descending, volume descending, and end date ascending with missing dates last |
| YieldTab.LessEqTotalPreorder | crates/cli/src/trending_tui/state/yield_state.rs:98-118 | the comparator is total and transitive, so the sort is well defined |
| YieldTab.Insert | crates/cli/src/trending_tui/state/yield_state.rs:98-118 | the reference stable sort's insertion step is a permutation adding one element |
| YieldTab.SortBy | crates/cli/src/trending_tui/state/yield_state.rs:98-118 | the reference sort is a permutation of its input |
| YieldTab.InsertSorted | crates/cli/src/trending_tui/state/yield_state.rs:98-118 | insertion keeps a list sorted |
| YieldTab.InsertFrontSorted | crates/cli/src/trending_tui/state/yield_state.rs:98-118 | an element that may precede the head of a sorted list extends it sorted |
| YieldTab.InsertLaterSorted | crates/cli/src/trending_tui/state/yield_state.rs:98-118 | an element moved past the head keeps the list sorted once the tail is |
| YieldTab.SortBySorted | crates/cli/src/trending_tui/state/yield_state.rs:98-118 | the reference sort's output is sorted by the key |
| YieldTab.InsertStable | crates/cli/src/trending_tui/state/yield_state.rs:98-118 | insertion keeps elements that tie in their original order |
| YieldTab.SortByStable | crates/cli/src/trending_tui/state/yield_state.rs:98-118 | `sort_by` is stable: the elements tied with any given element keep their relative order |
| YieldTab.InsertStableStep | crates/cli/src/trending_tui/state/yield_state.rs:98-118 | moving an element past a head it must follow does not reorder the ties of any element |
| YieldTab.SortByStableStep | crates/cli/src/trending_tui/state/yield_state.rs:98-118 | inserting the head into the stably sorted tail keeps every element's ties in order |
| YieldTab.Matching | crates/cli/src/trending_tui/state/yield_state.rs:158-166 | an opportunity is kept iff its event title, event slug or market name contains the query |
| YieldTab.MatchingAppend | crates/cli/src/trending_tui/state/yield_state.rs:158-166 | filtering a concatenation filters each part, so the kept opportunities stay in list order |
| YieldTab.MatchingCount | crates/cli/src/trending_tui/state/yield_state.rs:158-166 | a matching opportunity is kept as often as it occurs, any other never |
| YieldTab.MatchingKeepsSorted | crates/cli/src/trending_tui/state/yield_state.rs:158-166 | filtering a sorted list leaves it sorted |
| YieldTab.HeadPrecedesMatches | crates/cli/src/trending_tui/state/yield_state.rs:158-166 | the head of a sorted list may precede every match from its tail |
| YieldTab.Filtered | crates/cli/src/trending_tui/state/yield_state.rs:153-167 | an empty query keeps everything; otherwise exactly the matching opportunities |
| YieldTab.FilteredAppend | crates/cli/src/trending_tui/state/yield_state.rs:153-167 | `filtered_opportunities` of a concatenation is the concatenation of the filters |
| YieldTab.FilteredCount | crates/cli/src/trending_tui/state/yield_state.rs:153-167 | every copy of a passing opportunity is kept and no copy of another |
| YieldTab.FilteredKeepsSorted | crates/cli/src/trending_tui/state/yield_state.rs:153-167 | filtering a list sorted by a key leaves it sorted by that key |
| YieldTab.ContainsPrefix | crates/cli/src/trending_tui/state/yield_state.rs:160-165 | text containing a string contains each prefix of it |
| YieldTab.FilterNarrows | crates/cli/src/trending_tui/state/yield_state.rs:186-190 | typing one more filter character never adds an opportunity |
| YieldTab.YieldState.constructor | crates/cli/src/trending_tui/state/yield_state.rs:78-96 | the default thresholds 0.95–1.0, zero volume, sort by return, empty filter and search |
| YieldTab.YieldState.FilteredOpportunities | crates/cli/src/trending_tui/state/yield_state.rs:153-167 | the filter of the current list: all of it for an empty query, else exactly the matching opportunities, in the sorted order the list is kept in |
| YieldTab.YieldState.SortOpportunities | crates/cli/src/trending_tui/state/yield_state.rs:98-118 | the opportunities become a sorted, stable permutation of themselves, by the key's direction |
| YieldTab.YieldState.MoveUp | crates/cli/src/trending_tui/state/yield_state.rs:120-131 | nothing happens on an empty filtered list; otherwise the shared cursor-up step |
| YieldTab.YieldState.MoveDown | crates/cli/src/trending_tui/state/yield_state.rs:133-144 | the shared cursor-down step over the filtered list; it stays in range and in view |
| YieldTab.YieldState.SelectedOpportunity | crates/cli/src/trending_tui/state/yield_state.rs:146-150 | present exactly when the index is within the filtered list, and then the filtered entry at the index, an opportunity that matches the filter |
| YieldTab.YieldState.EnterFilterMode | crates/cli/src/trending_tui/state/yield_state.rs:169-172 | filtering, with an empty query, and so in input mode |
| YieldTab.YieldState.ExitFilterMode | crates/cli/src/trending_tui/state/yield_state.rs:174-177 | not filtering; the query is kept |
| YieldTab.YieldState.IsInInputMode | crates/cli/src/trending_tui/state/yield_state.rs:243-245 | the tab takes text input exactly while a filter or a search query is being typed |
| YieldTab.YieldState.ClearFilter | crates/cli/src/trending_tui/state/yield_state.rs:180-184 | the query is empty, the cursor is at the top, and the filtered list is every opportunity |
| YieldTab.YieldState.AddFilterChar | crates/cli/src/trending_tui/state/yield_state.rs:186-190 | the query gains the character; the cursor resets |
| YieldTab.YieldState.DeleteFilterChar | crates/cli/src/trending_tui/state/yield_state.rs:192-196 | the query loses its last character; the cursor resets |
| YieldTab.YieldState.EnterSearchMode | crates/cli/src/trending_tui/state/yield_state.rs:199-204 | searching, with query, results and last query empty, and so in input mode |
| YieldTab.YieldState.ExitSearchMode | crates/cli/src/trending_tui/state/yield_state.rs:206-213 | not searching, everything cleared, the cursor at the top, no selected result |
| YieldTab.YieldState.HideSearchInput | crates/cli/src/trending_tui/state/yield_state.rs:216-219 | the input is hidden; the results are kept |
| YieldTab.YieldState.AddSearchChar | crates/cli/src/trending_tui/state/yield_state.rs:221-225 | the query gains the character; the cursor resets |
| YieldTab.YieldState.DeleteSearchChar | crates/cli/src/trending_tui/state/yield_state.rs:227-231 | the query loses its last character; the cursor resets |
| YieldTab.YieldState.SetSearchResults | crates/cli/src/trending_tui/state/yield_state.rs:233-239 | results and query stored, loading over, the first result selected |
| YieldTab.YieldState.DisplayedCount | crates/cli/src/trending_tui/state/yield_state.rs:249-255 | the number of search results while searching with results, else the filtered count |
| YieldTab.YieldState.SelectedSearchResult | crates/cli/src/trending_tui/state/yield_state.rs:258-264 | the result at the cursor, present exactly when the cursor is in range; the mode test never changes the answer |
| RenderUtils.Truncate | crates/cli/src/trending_tui/render/utils.rs:74-82 | a string that fits is returned unchanged; a longer one keeps its first max − 3 characters and gains "..."; the result fits whenever max ≥ 3 and exceeds max otherwise |
| RenderUtils.StrWidthMonotone | crates/cli/src/trending_tui/render/utils.rs:111-118 | a longer prefix is never narrower |
| RenderUtils.TruncateToWidth | crates/cli/src/trending_tui/render/utils.rs:99-121 | a string that fits is returned unchanged; otherwise the result is the longest prefix that fits in max − 1 columns, followed by "…", and it fits in max columns |
| RenderUtils.StripCommasNoCommas | crates/cli/src/trending_tui/render/utils.rs:23-30 | removing separators from text that has none changes nothing |
| RenderUtils.GroupThousands | crates/cli/src/trending_tui/render/utils.rs:23-30 | a comma goes before each position whose distance to the end is a positive multiple of three, and removing the commas gives back the digits |
| RenderUtils.GroupingStripsBack | crates/cli/src/trending_tui/render/utils.rs:23-30 | the grouping of comma-free text strips back to that text |
| RenderUtils.MinusSignGrouped | crates/cli/src/trending_tui/render/utils.rs:23-30 | the sign counts as a digit: "-123" groups as "-,123" |
| RenderUtils.IntPart | crates/cli/src/trending_tui/render/utils.rs:19-20 | the text before the first dot |
| RenderUtils.FractionPart | crates/cli/src/trending_tui/render/utils.rs:19 | present iff there is a dot: the text between the first dot and any following dot |
| RenderUtils.FractionSuffix | crates/cli/src/trending_tui/render/utils.rs:32-36 | "." and the fraction, only when decimals are asked for and present |
| RenderUtils.FormatWithThousands | crates/cli/src/trending_tui/render/utils.rs:17-37 | the output is the grouped integer part followed by the fraction suffix |
| RenderUtils.AnyYieldPrice | crates/cli/src/trending_tui/render/utils.rs:133-138 | true iff some price text parses into [0.95, 1) |
| RenderUtils.MarketHasYield | crates/cli/src/trending_tui/render/utils.rs:127-139 | a closed market never has yield; an open one has it iff some price parses into [0.95, 1) |
| RenderUtils.EventHasYield | crates/cli/src/trending_tui/render/utils.rs:142-144 | true iff some market of the event has yield |
| RenderUtils.AnyMarketHasYield | crates/cli/src/trending_tui/render/utils.rs:142-144 | true iff some market in the list has yield |
| RenderUtils.CenterMargins | crates/cli/src/trending_tui/render/utils.rs:183-184 | the margins and the width fill the total, and the right margin exceeds the left by at most one |
| RenderLogs.LogsState.constructor | crates/cli/src/trending_tui/state/logs.rs:11-16 | no messages, scrolled to the top |
| RenderLogs.ScrollAfter | crates/cli/src/trending_tui/render/logs.rs:24-46 | unfocused: follow the bottom when within one message of it, or show from the top when everything fits; focused: clamp; the bottom stays visible when it was near |
| RenderLogs.AdjustScroll | crates/cli/src/trending_tui/render/logs.rs:24-46 | the stored offset becomes `ScrollAfter` of the old one |
| RenderLogs.Chunks | crates/cli/src/trending_tui/render/logs.rs:59-63 | the pieces concatenate back to the message, are non-empty and at most the width, and all but the last are full |
| RenderLogs.MessageLines | crates/cli/src/trending_tui/render/logs.rs:55-67 | one line when the byte length fits; otherwise non-empty chunks, every one but the last exactly the width; the lines rebuild the message and fit the width |
| RenderLogs.AllLines | crates/cli/src/trending_tui/render/logs.rs:50-67 | wrapping all messages keeps their text in order, with at least one line each |
| RenderLogs.WrappedLines | crates/cli/src/trending_tui/render/logs.rs:50-69 | the lazy pipeline yields at most the budget of lines |
| RenderLogs.WrappedLinesFit | crates/cli/src/trending_tui/render/logs.rs:55-68 | every line the pipeline yields fits the width |
| RenderLogs.WrappedIsTakeOfAll | crates/cli/src/trending_tui/render/logs.rs:50-69 | the lazy pipeline equals taking the first lines of the full wrapping |
| RenderLogs.FromScroll | crates/cli/src/trending_tui/render/logs.rs:54 | the messages after the first `scroll`, in order, and none once the offset passes the end |
| RenderLogs.LineColor | crates/cli/src/trending_tui/render/logs.rs:74-80 | yellow iff "[WARN]", red iff "[ERROR]" without "[WARN]", gray otherwise |
| RenderLogs.RenderLogs | crates/cli/src/trending_tui/render/logs.rs:16-82 | the offset is adjusted, then at most one wrapped line per inner row, each within the inner width and coloured by its prefix |
| RenderLogs.NarrowPanelCannotDraw | crates/cli/src/trending_tui/render/logs.rs:57-61 | a panel two cells wide holding one message would chunk by zero |
| MarketOrder.OpenMarkets | crates/cli/src/trending_tui/render/markets.rs:47-49 | only open markets, never more than the input |
| MarketOrder.ClosedMarkets | crates/cli/src/trending_tui/render/markets.rs:47-49 | only closed markets, never more than the input |
| MarketOrder.SplitByClosed | crates/cli/src/trending_tui/render/markets.rs:47-49 | the open and closed markets together are the whole list |
| MarketOrder.OpenMarketsAppend | crates/cli/src/trending_tui/render/markets.rs:47-49 | picking the open markets distributes over concatenation |
| MarketOrder.ClosedMarketsAppend | crates/cli/src/trending_tui/render/markets.rs:47-49 | picking the closed markets distributes over concatenation |
| MarketOrder.OpenOfSplit | crates/cli/src/trending_tui/render/markets.rs:47-49 | the open markets of the open-then-closed list are those of the original |
| MarketOrder.ClosedOfSplit | crates/cli/src/trending_tui/render/markets.rs:47-49 | the closed markets of the open-then-closed list are those of the original |
| MarketOrder.FilterIdempotent | crates/cli/src/trending_tui/render/markets.rs:47-49 | the split of an all-open or all-closed list is that list |
| MarketOrder.ActiveFirst | crates/cli/src/trending_tui/render/markets.rs:47-49 | `sort_by_key(closed)` keeps the length and puts no closed market before an open one |
| MarketOrder.ActiveFirstIsStableSort | crates/cli/src/trending_tui/render/markets.rs:47-49 | the sort is a permutation that keeps the order within the open and within the closed markets |
| RenderMarkets.ReturnAtDecreasing | crates/cli/src/trending_tui/render/markets.rs:100 | a higher price never returns more |
| RenderMarkets.ReturnAtStrict | crates/cli/src/trending_tui/render/markets.rs:100 | a strictly higher price returns strictly less |
| RenderMarkets.MinReturn | crates/cli/src/trending_tui/render/markets.rs:95-101 | present iff some price qualifies, and then the smallest return over qualifying prices |
| RenderMarkets.YieldReturn | crates/cli/src/trending_tui/render/markets.rs:94-104 | present exactly for markets with yield, and then the smallest return |
| RenderMarkets.YieldReturnFromLargestPrice | crates/cli/src/trending_tui/render/markets.rs:94-104 | the shown yield is the return of the largest qualifying price |
| RenderMarkets.Icon | crates/cli/src/trending_tui/render/markets.rs:110-118 | resolved iff closed; yield iff open with yield; in review iff open, no yield and in review; active otherwise |
| RenderMarkets.StatusIcon.Glyph | crates/cli/src/trending_tui/render/markets.rs:110-118 | each status is drawn as one symbol followed by a space |
| RenderMarkets.WinnerAmong | crates/cli/src/trending_tui/render/markets.rs:123-134 | present iff some outcome has a parsable price; then an outcome with the highest price, the last one on ties |
| RenderMarkets.Winner | crates/cli/src/trending_tui/render/markets.rs:123-134 | present iff some outcome has a parsable price; then an outcome index whose price is the highest |
| RenderMarkets.OutcomesText | crates/cli/src/trending_tui/render/markets.rs:121-138 | empty for open markets; for closed ones "Winner: " and the winner, or "Resolved" |
| RenderMarkets.BestAsk | crates/cli/src/trending_tui/render/markets.rs:147-151 | the first ask's price, present iff there is a book with asks |
| RenderMarkets.FallbackPrice | crates/cli/src/trending_tui/render/markets.rs:168-203 | the live price of the side's token when known, else the side's listed outcome price |
| RenderMarkets.ButtonPrices | crates/cli/src/trending_tui/render/markets.rs:145-207 | closed markets have none; the selected row's shown side takes the best ask when there is one; everything else falls back |
| RenderMarkets.BookPricesOneButton | crates/cli/src/trending_tui/render/markets.rs:155-166 | the book prices only the side it shows, and only on the selected row |
| RenderMarkets.Background | crates/cli/src/trending_tui/render/markets.rs:341-347 | the selected row is highlighted; the rest alternate by index |
| RenderMarkets.Rows | crates/cli/src/trending_tui/render/markets.rs:36-70 | as many rows as the inner height holds or the list has left after the clamped offset, and they are the rows of the open-first list from that offset |
| RenderMarkets.RowsFrom | crates/cli/src/trending_tui/render/markets.rs:64-70 | row k is built from the market at position start + k of the sorted list, with that position as its index |
| RenderMarkets.RowFor | crates/cli/src/trending_tui/render/markets.rs:71-349 | the row keeps its market and index; resolved icon iff closed; a yield cell iff the market has yield; closed markets show no yield and no prices; highlighted iff it is the selected row |
| RenderMarkets.RowsClosedLast | crates/cli/src/trending_tui/render/markets.rs:36-70 | no open market is listed below a closed one, wherever the window starts |
| RenderTrades.TraderDisplay | crates/cli/src/trending_tui/render/trades.rs:110-116 | the user name, else the pseudonym, else "-"; never empty |
| RenderTrades.FindMarket | crates/cli/src/trending_tui/render/trades.rs:93-98 | the first market whose token ids contain the asset, or none when no market does |
| RenderTrades.MarketName | crates/cli/src/trending_tui/render/trades.rs:90-106 | the short name of that market, else the trade's own title |
| RenderTrades.EmptyMessage | crates/cli/src/trending_tui/render/trades.rs:35-39 | the "watching" text exactly when watching, the "not watching" text otherwise |
| RenderTrades.RowFor | crates/cli/src/trending_tui/render/trades.rs:72-137 | the row keeps the trade and its index; market and trader cells are that market name and trader truncated to 30 and 15 characters; the side takes the buy colour iff it is "BUY", the outcome the yes colour iff it is "Yes"; striped iff the index is odd |
| RenderTrades.FirstRow | crates/cli/src/trending_tui/render/trades.rs:59-65 | the first row never passes the stored offset, and at least a page of trades (or all of them) follows it |
| RenderTrades.TradesTable | crates/cli/src/trending_tui/render/trades.rs:35-72 | the status message by watching state when empty; else as many rows as the inner height holds from the clamped offset, row k being the row of the trade at offset + k |
| RenderTrades.TradesPanel | crates/cli/src/trending_tui/render/trades.rs:236-285 | the table title counts every trade; there is a table iff there are trades |
| RenderTrades.PanelIsTableWithoutEvent | crates/cli/src/trending_tui/render/trades.rs:271 | the event-free panel is the table with no event, the market cell falling back to the trade title |
| RenderTrades.ZebraAlternates | crates/cli/src/trending_tui/render/trades.rs:120-124 | neighbouring rows never share a background |

## Left out

- `state/trades_ws.rs` holds task handles for the websocket; spawning and aborting tasks is concurrency, outside the model.
- `state/pagination.rs`, `state/popup.rs` and `state/search.rs` are plain holders of flags and counters that the key handlers set directly. They are not modelled.
- `LogsState::save_to_file` writes to the file system (I/O).
- Floating-point formatting is not modelled: `format!("{:.N}")`, `format_price_cents`, `format_volume`, `format_pnl`, and the dollar and time cells of trade rows. `RenderUtils.FormatWithThousands` starts from the already formatted text.
- TradeState.TradeFormState: `increment_limit_price`, `decrement_limit_price`, `shares_f64`, `amount_f64`, `total_cost`, `estimated_shares` and `potential_profit` are floating-point arithmetic on parsed text. They are not modelled.
- `f64` NaN and rounding error are not modelled. Prices are `real`, so the `partial_cmp(..).unwrap()` in the yield sort cannot panic in the model.
- `usize` overflow is not modelled: counts and offsets are unbounded `nat`.
- The unicode-width table, `str::parse::<f64>` and `to_lowercase` are parameters.
- `Instant` is an integer number of nanoseconds supplied by the caller.
- Drawing with ratatui is not modelled: layouts, widgets, styles, `centered_rect`, popups, the header, `main_render`, the favourites panel, `build_event_info_lines` and `render_search_input`. Only the margin arithmetic of `centered_rect_fixed_width` is modelled.
- RenderUtils.TruncateToWidth: the width of a string is modelled as the sum of its characters' widths. The source tests the fit with the string width of `unicode-width` but builds the prefix from per-character widths. Recent versions of that library give some sequences (emoji presentation selectors, joiner sequences) a string width that differs from that sum. For such text the model does not capture the source's result, and "fits in max columns" and "unchanged iff it fits" are promised only under the additive width.
- RenderMarkets.Rows: the volume text, the width layout of the question, and the buy-button labels are not modelled.
- RenderLogs.RenderLogs requires a positive inner width whenever a reached message is non-empty. The source panics there, because `chunks(0)` panics. `RenderLogs.NarrowPanelCannotDraw` shows that such a panel is reachable.
- RenderLogs.MessageLines compares the UTF-8 byte length to the width, as the source does, and then chunks by characters.
