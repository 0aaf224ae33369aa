/**
 * Rendering helpers: character truncation, display-width truncation, digit grouping for
 * thousands separators, the yield test on markets and events, and the margin arithmetic of a
 * horizontally centred popup. The display width of a character (the `unicode-width` table) is a
 * parameter; the width of a string is the sum of the widths of its characters.
 */
module RenderUtils {
  import opened Wrappers
  import opened Text
  import opened Gamma

  /** The horizontal ellipsis `…` that closes a width-truncated string. */
  const ELLIPSIS: char := '…'

  /**
   * `truncate`: `s` itself when it has at most `maxChars` characters, else its first
   * `maxChars - 3` characters (none when `maxChars < 3`) followed by "...".
   */
  function Truncate(s: string, maxChars: nat): (r: string)
    ensures |s| <= maxChars ==> r == s
    ensures |s| > maxChars ==> |r| == Max(maxChars, 3)
    ensures |s| > maxChars ==> r[..|r| - 3] == s[..|r| - 3] && r[|r| - 3..] == "..."
    ensures maxChars >= 3 ==> |r| <= maxChars
    ensures maxChars < 3 && |s| > maxChars ==> |r| > maxChars
  {
    if |s| <= maxChars then s
    else s[..SatSub(maxChars, 3)] + "..."
  }

  /** The display width of `s`: the sum of the widths of its characters. */
  function StrWidth(s: string, charWidth: char -> nat): nat {
    if s == [] then 0 else StrWidth(s[..|s| - 1], charWidth) + charWidth(s[|s| - 1])
  }

  lemma StrWidthSnoc(s: string, c: char, charWidth: char -> nat)
    ensures StrWidth(s + [c], charWidth) == StrWidth(s, charWidth) + charWidth(c)
  {
    assert (s + [c])[..|s|] == s;
  }

  /** Widths never shrink as a prefix grows. */
  lemma {:induction false} StrWidthMonotone(s: string, i: nat, j: nat, charWidth: char -> nat)
    requires i <= j <= |s|
    ensures StrWidth(s[..i], charWidth) <= StrWidth(s[..j], charWidth)
    decreases j - i
  {
    if i < j {
      StrWidthMonotone(s, i, j - 1, charWidth);
      assert s[..j] == s[..j - 1] + [s[j - 1]];
      StrWidthSnoc(s[..j - 1], s[j - 1], charWidth);
    }
  }

  /**
   * `truncate_to_width`: `s` itself when it fits in `maxWidth` columns; otherwise the longest
   * prefix of `s` whose width is at most `maxWidth - 1`, followed by `…`. When `…` is one
   * column wide and `maxWidth >= 1`, the result fits in `maxWidth` columns.
   */
  method TruncateToWidth(s: string, maxWidth: nat, charWidth: char -> nat) returns (r: string)
    ensures StrWidth(s, charWidth) <= maxWidth ==> r == s
    ensures StrWidth(s, charWidth) > maxWidth ==>
      && |r| >= 1 && r[|r| - 1] == ELLIPSIS
      && r[..|r| - 1] <= s
      && StrWidth(r[..|r| - 1], charWidth) <= SatSub(maxWidth, 1)
      && (forall k | |r| - 1 < k <= |s| :: StrWidth(s[..k], charWidth) > SatSub(maxWidth, 1))
    ensures charWidth(ELLIPSIS) == 1 && maxWidth >= 1 ==> StrWidth(r, charWidth) <= maxWidth
  {
    if StrWidth(s, charWidth) <= maxWidth {
      return s;
    }
    var targetWidth := SatSub(maxWidth, 1);
    var result: string := [];
    var width := 0;
    var i := 0;
    while i < |s|
      invariant 0 <= i <= |s|
      invariant result == s[..i]
      invariant width == StrWidth(s[..i], charWidth) <= targetWidth
    {
      var c := s[i];
      var w := charWidth(c);
      if width + w > targetWidth {
        break;
      }
      assert s[..i + 1] == s[..i] + [c];
      StrWidthSnoc(s[..i], c, charWidth);
      result := result + [c];
      width := width + w;
      i := i + 1;
    }
    assert s[..|s|] == s;
    if i < |s| {
      assert s[..i + 1] == s[..i] + [s[i]];
      StrWidthSnoc(s[..i], s[i], charWidth);
    }
    forall k | i < k <= |s|
      ensures StrWidth(s[..k], charWidth) > targetWidth
    {
      StrWidthMonotone(s, i + 1, k, charWidth);
    }
    r := result + [ELLIPSIS];
    assert r[..|r| - 1] == result;
    StrWidthSnoc(result, ELLIPSIS, charWidth);
  }

  /** `s` with every comma removed. */
  function StripCommas(s: string): string {
    if s == [] then []
    else StripCommas(s[..|s| - 1]) + (if s[|s| - 1] == ',' then [] else [s[|s| - 1]])
  }

  lemma StripCommasSnoc(s: string, c: char)
    ensures StripCommas(s + [c]) == StripCommas(s) + (if c == ',' then [] else [c])
  {
    assert (s + [c])[..|s|] == s;
  }

  /** A string without commas is its own comma-free form. */
  lemma {:induction false} StripCommasNoCommas(s: string)
    requires ',' !in s
    ensures StripCommas(s) == s
  {
    if s != [] {
      StripCommasNoCommas(s[..|s| - 1]);
      assert s == s[..|s| - 1] + [s[|s| - 1]];
    }
  }

  /**
   * How many separators stand before character `i` of an `n`-character integer part: one
   * before each later-than-first character whose distance from the end is a multiple of three.
   */
  function CommasBefore(n: nat, i: nat): int {
    (n - 1) / 3 - (n - 1 - i) / 3
  }

  /** `CommasBefore` counts one separator for each grouping boundary passed. */
  lemma CommasBeforeStep(n: nat, i: nat)
    requires 0 < i < n
    ensures CommasBefore(n, 0) == 0
    ensures CommasBefore(n, i) == CommasBefore(n, i - 1) + (if (n - i) % 3 == 0 then 1 else 0)
  {
  }

  /**
   * `r` is `s` with a separator before every character (but the first) whose distance from the
   * end is a multiple of three: each character of `s` sits after the separators before it, and
   * a comma fills the gap in front of each boundary character.
   */
  predicate IsGrouping(s: string, r: string) {
    && |r| == (if |s| == 0 then 0 else |s| + (|s| - 1) / 3)
    && (forall i | 0 <= i < |s| :: 0 <= i + CommasBefore(|s|, i) < |r| && r[i + CommasBefore(|s|, i)] == s[i])
    && (forall i | 0 < i < |s| && (|s| - i) % 3 == 0 :: r[i + CommasBefore(|s|, i) - 1] == ',')
  }

  /** `r` is what the grouping loop has built after copying the first `i` characters of `s`. */
  predicate GroupedPrefix(s: string, i: nat, r: string) {
    && i <= |s|
    && |r| == (if i == 0 then 0 else i + CommasBefore(|s|, i - 1))
    && (forall j | 0 <= j < i :: 0 <= j + CommasBefore(|s|, j) < |r| && r[j + CommasBefore(|s|, j)] == s[j])
    && (forall j | 0 < j < i && (|s| - j) % 3 == 0 :: r[j + CommasBefore(|s|, j) - 1] == ',')
  }

  /** One turn of the grouping loop extends a grouped prefix by one character. */
  lemma GroupedPrefixStep(s: string, i: nat, r: string)
    requires GroupedPrefix(s, i, r) && i < |s|
    ensures GroupedPrefix(s, i + 1, r + (if i > 0 && (|s| - i) % 3 == 0 then [','] else []) + [s[i]])
  {
    var n := |s|;
    var sep: string := if i > 0 && (n - i) % 3 == 0 then [','] else [];
    if i > 0 {
      CommasBeforeStep(n, i);
    }
    assert |r| + |sep| == i + CommasBefore(n, i);
    StepKeepsDigits(s, i, r, sep);
    StepKeepsCommas(s, i, r, sep);
  }

  /** The characters already placed stay put, and the new one lands after its separators. */
  lemma StepKeepsDigits(s: string, i: nat, r: string, sep: string)
    requires GroupedPrefix(s, i, r) && i < |s|
    requires |r| + |sep| == i + CommasBefore(|s|, i)
    ensures forall j | 0 <= j < i + 1 ::
      0 <= j + CommasBefore(|s|, j) < |r + sep + [s[i]]| && (r + sep + [s[i]])[j + CommasBefore(|s|, j)] == s[j]
  {
    var r' := r + sep + [s[i]];
    forall j | 0 <= j < i + 1
      ensures 0 <= j + CommasBefore(|s|, j) < |r'| && r'[j + CommasBefore(|s|, j)] == s[j]
    {
      if j < i {
        assert r'[j + CommasBefore(|s|, j)] == r[j + CommasBefore(|s|, j)];
      }
    }
  }

  /** The separators already placed stay put, and a boundary character gets its own. */
  lemma StepKeepsCommas(s: string, i: nat, r: string, sep: string)
    requires GroupedPrefix(s, i, r) && i < |s|
    requires sep == (if i > 0 && (|s| - i) % 3 == 0 then [','] else [])
    requires |r| + |sep| == i + CommasBefore(|s|, i)
    ensures forall j | 0 < j < i + 1 && (|s| - j) % 3 == 0 :: (r + sep + [s[i]])[j + CommasBefore(|s|, j) - 1] == ','
  {
    var r' := r + sep + [s[i]];
    forall j | 0 < j < i + 1 && (|s| - j) % 3 == 0
      ensures r'[j + CommasBefore(|s|, j) - 1] == ','
    {
      if j < i {
        assert r'[j + CommasBefore(|s|, j) - 1] == r[j + CommasBefore(|s|, j) - 1];
      }
    }
  }

  /**
   * The digit-grouping loop of `format_with_thousands`: copy the integer part character by
   * character, pushing a comma first whenever the characters left (this one included) are a
   * non-zero multiple of three.
   */
  method GroupThousands(intPart: string) returns (result: string)
    ensures IsGrouping(intPart, result)
    ensures StripCommas(result) == StripCommas(intPart)
  {
    var n := |intPart|;
    result := [];
    var i := 0;
    while i < n
      invariant i <= n
      invariant GroupedPrefix(intPart, i, result)
      invariant StripCommas(result) == StripCommas(intPart[..i])
    {
      var c := intPart[i];
      var sep: string := if i > 0 && (n - i) % 3 == 0 then [','] else [];
      LoopStep(intPart, i, result, sep);
      result := result + sep + [c];
      i := i + 1;
    }
    GroupedPrefixComplete(intPart, result);
  }

  /** One turn of the grouping loop keeps both loop invariants. */
  lemma LoopStep(s: string, i: nat, r: string, sep: string)
    requires i < |s| && GroupedPrefix(s, i, r) && StripCommas(r) == StripCommas(s[..i])
    requires sep == (if i > 0 && (|s| - i) % 3 == 0 then [','] else [])
    ensures GroupedPrefix(s, i + 1, r + sep + [s[i]])
    ensures StripCommas(r + sep + [s[i]]) == StripCommas(s[..i + 1])
  {
    GroupedPrefixStep(s, i, r);
    GroupedStripStep(r, sep, s[..i], s[i]);
    assert s[..i + 1] == s[..i] + [s[i]];
  }

  /** One turn of the loop keeps the comma-free forms of the output and the input equal. */
  lemma GroupedStripStep(r: string, sep: string, prefix: string, c: char)
    requires sep == [] || sep == [',']
    requires StripCommas(r) == StripCommas(prefix)
    ensures StripCommas(r + sep + [c]) == StripCommas(prefix + [c])
  {
    if sep == [] {
      assert r + sep == r;
    } else {
      StripCommasSnoc(r, ',');
    }
    StripCommasSnoc(r + sep, c);
    StripCommasSnoc(prefix, c);
  }

  /** Once every character is copied, the grouped prefix is the whole grouping. */
  lemma GroupedPrefixComplete(s: string, r: string)
    requires GroupedPrefix(s, |s|, r)
    ensures IsGrouping(s, r)
    ensures StripCommas(s[..|s|]) == StripCommas(s)
  {
    assert s[..|s|] == s;
  }

  /** For an integer part without commas, removing the separators gives it back. */
  lemma GroupingStripsBack(s: string, r: string)
    requires ',' !in s
    requires StripCommas(r) == StripCommas(s)
    ensures StripCommas(r) == s
  {
    StripCommasNoCommas(s);
  }

  /**
   * A leading minus sign counts as a digit when grouping, so "-123" is grouped as "-,123":
   * the sign is separated from the first three digits.
   */
  lemma MinusSignGrouped(r: string)
    requires IsGrouping("-123", r)
    ensures r == "-,123"
  {
    assert CommasBefore(4, 0) == 0 && CommasBefore(4, 1) == 1;
    assert CommasBefore(4, 2) == 1 && CommasBefore(4, 3) == 1;
    assert r[0] == '-' && r[1] == ',' && r[2] == '1' && r[3] == '2' && r[4] == '3';
  }

  /** The position of the first `c` in `s`, if any. */
  function IndexOf(s: string, c: char): (r: Option<nat>)
    ensures r.Some? ==> r.value < |s| && s[r.value] == c && c !in s[..r.value]
    ensures r.None? ==> c !in s
  {
    if s == [] then None
    else if s[0] == c then Some(0)
    else
      match IndexOf(s[1..], c)
      case Some(k) =>
        assert s[..k + 1] == [s[0]] + s[1..][..k];
        Some(k + 1)
      case None =>
        assert s == [s[0]] + s[1..];
        None
  }

  /** `parts[0]` of `s.split('.')`: everything before the first dot. */
  function IntPart(s: string): (r: string)
    ensures r <= s && '.' !in r
    ensures |r| < |s| ==> s[|r|] == '.'
  {
    match IndexOf(s, '.')
    case Some(k) => s[..k]
    case None => s
  }

  /**
   * `parts[1]` of `s.split('.')`, when there is one: the text between the first dot and the
   * next dot or the end.
   */
  function FractionPart(s: string): (r: Option<string>)
    ensures r.Some? <==> '.' in s
    ensures r.Some? ==> '.' !in r.value && IntPart(s) + "." + r.value <= s
  {
    match IndexOf(s, '.')
    case None => None
    case Some(k) =>
      var rest := s[k + 1..];
      var frac := IntPart(rest);
      assert s[..k] + "." + frac == s[..k + 1 + |frac|];
      Some(frac)
  }

  /** What `format_with_thousands` puts after the grouped integer part. */
  function FractionSuffix(formatted: string, decimals: nat): (r: string)
    ensures decimals == 0 || '.' !in formatted ==> r == []
    ensures decimals > 0 && '.' in formatted ==> r == "." + FractionPart(formatted).value
  {
    if decimals > 0 then
      match FractionPart(formatted)
      case Some(frac) => "." + frac
      case None => []
    else []
  }

  /**
   * `format_with_thousands`, given the already formatted number: the integer part (up to the
   * first dot) grouped with separators, then "." and the fraction only when decimals were asked
   * for and the text has a dot.
   */
  method FormatWithThousands(formatted: string, decimals: nat) returns (out: string)
    ensures |out| >= |FractionSuffix(formatted, decimals)|
    ensures IsGrouping(IntPart(formatted), out[..|out| - |FractionSuffix(formatted, decimals)|])
    ensures out[|out| - |FractionSuffix(formatted, decimals)|..] == FractionSuffix(formatted, decimals)
  {
    var grouped := GroupThousands(IntPart(formatted));
    var suffix := FractionSuffix(formatted, decimals);
    out := grouped + suffix;
    assert out[..|out| - |suffix|] == grouped;
  }

  /** The lowest probability counted as a yield opportunity. */
  const YIELD_MIN_PROB: real := 0.95

  /** A price in `[0.95, 1.0)`: likely but not yet certain. */
  predicate IsYieldPrice(p: real) {
    YIELD_MIN_PROB <= p < 1.0
  }

  /** A price text that parses to a yield price; text that does not parse never counts. */
  predicate ParsesToYield(text: string, parse: string -> Option<real>) {
    parse(text).Some? && IsYieldPrice(parse(text).value)
  }

  /** `iter().any(..)` over the price texts. */
  function AnyYieldPrice(prices: seq<string>, parse: string -> Option<real>): (r: bool)
    ensures r <==> exists i | 0 <= i < |prices| :: ParsesToYield(prices[i], parse)
  {
    if prices == [] then false
    else
      var rest := AnyYieldPrice(prices[1..], parse);
      assert forall i | 1 <= i < |prices| :: prices[i] == prices[1..][i - 1];
      ParsesToYield(prices[0], parse) || rest
  }

  /**
   * `market_has_yield`: never for a closed market; otherwise exactly when some outcome price
   * parses to a value in `[0.95, 1.0)`.
   */
  function MarketHasYield(m: Market, parse: string -> Option<real>): (r: bool)
    ensures m.closed ==> !r
    ensures !m.closed ==> (r <==> exists i | 0 <= i < |m.outcomePrices| :: ParsesToYield(m.outcomePrices[i], parse))
  {
    if m.closed then false else AnyYieldPrice(m.outcomePrices, parse)
  }

  /** `event_has_yield`: some market of the event has a yield opportunity. */
  function EventHasYield(e: Event, parse: string -> Option<real>): (r: bool)
    ensures r <==> exists i | 0 <= i < |e.markets| :: MarketHasYield(e.markets[i], parse)
  {
    AnyMarketHasYield(e.markets, parse)
  }

  function AnyMarketHasYield(ms: seq<Market>, parse: string -> Option<real>): (r: bool)
    ensures r <==> exists i | 0 <= i < |ms| :: MarketHasYield(ms[i], parse)
  {
    if ms == [] then false
    else
      var rest := AnyMarketHasYield(ms[1..], parse);
      assert forall i | 1 <= i < |ms| :: ms[i] == ms[1..][i - 1];
      MarketHasYield(ms[0], parse) || rest
  }

  /**
   * The side margins of `centered_rect_fixed_width` for a popup `width` columns wide in an area
   * `total` columns wide: the spare columns split in two, the odd one going to the right.
   */
  function CenterMargins(total: nat, width: nat): (margins: (nat, nat))
    ensures width <= total ==> margins.0 + width + margins.1 == total
    ensures width <= total ==> margins.0 <= margins.1 <= margins.0 + 1
    ensures width > total ==> margins == (0, 0)
  {
    var left := SatSub(total, width) / 2;
    (left, SatSub(SatSub(total, width), left))
  }
}
