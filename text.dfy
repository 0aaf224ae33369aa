/**
 * Helpers over strings and machine integers shared by the state and render modules:
 * `usize::saturating_sub`, `str::starts_with`, `str::contains`, UTF-8 byte length
 * (`str::len`) and the `Vec::pop`/`String::pop` of a sequence.
 */
module Text {

  /** `a.saturating_sub(b)` on unsigned integers. */
  function SatSub(a: nat, b: nat): (r: nat)
    ensures a >= b ==> r + b == a
    ensures a < b ==> r == 0
  {
    if a >= b then a - b else 0
  }

  function Min(a: int, b: int): int { if a <= b then a else b }

  function Max(a: int, b: int): int { if a >= b then a else b }

  /** `s.starts_with(p)`. */
  predicate StartsWith(s: string, p: string) {
    |p| <= |s| && s[..|p|] == p
  }

  /** `hay.contains(needle)` for a string needle: some window of `hay` equals `needle`. */
  predicate Contains(hay: string, needle: string) {
    exists i | 0 <= i <= |hay| - |needle| :: OccursAt(hay, needle, i)
  }

  /** `needle` occurs in `hay` starting at byte/char position `i`. */
  predicate OccursAt(hay: string, needle: string, i: nat) {
    i + |needle| <= |hay| && hay[i..i + |needle|] == needle
  }

  /** `char::is_ascii_digit`. */
  predicate IsAsciiDigit(c: char) {
    '0' <= c <= '9'
  }

  /** Number of bytes `c` takes in UTF-8 (`char::len_utf8`). */
  function Utf8CharLen(c: char): (r: nat)
    ensures 1 <= r <= 4
  {
    if c as int < 0x80 then 1
    else if c as int < 0x800 then 2
    else if c as int < 0x10000 then 3
    else 4
  }

  /** `str::len`: the number of bytes of the UTF-8 encoding of `s`. */
  function Utf8Len(s: string): (r: nat)
    ensures |s| <= r <= 4 * |s|
  {
    if s == [] then 0 else Utf8Len(s[..|s| - 1]) + Utf8CharLen(s[|s| - 1])
  }

  /** `String::pop` / `Vec::pop` seen on the value: the last element removed, if any. */
  function DropLast<T>(s: seq<T>): (r: seq<T>)
    ensures s == [] ==> r == []
    ensures s != [] ==> r + [s[|s| - 1]] == s
  {
    if s == [] then s else s[..|s| - 1]
  }
}
