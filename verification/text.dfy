/**
 * The handful of .NET string and integer primitives the bridge relies on:
 * `IndexOf`, `Split`, `Replace(char, char)`, `StartsWith` (ordinal),
 * `char.IsWhiteSpace`, `int.ToString()` and the unchecked wrap-around of
 * 32- and 64-bit integer arithmetic.
 */
module Text {
  import opened Wrappers

  /** An octet of a stream's content. */
  newtype Byte = x: int | 0 <= x < 256

  /** The whole content of a stream. */
  type Bytes = seq<Byte>

  /** Position of the first `c` in `s`, or -1 (`string.IndexOf(char)`). */
  function IndexOf(s: string, c: char): (r: int)
    ensures -1 <= r < |s|
    ensures r == -1 <==> c !in s
    ensures r >= 0 ==> s[r] == c && c !in s[..r]
  {
    if |s| == 0 then -1
    else if s[0] == c then 0
    else
      var k := IndexOf(s[1..], c);
      assert s[1..][..if k < 0 then 0 else k] == s[1..1 + (if k < 0 then 0 else k)];
      if k == -1 then -1 else k + 1
  }

  /** `string.Split(char)`: every piece, empty ones included, in order. */
  function Split(s: string, c: char): (r: seq<string>)
    ensures |r| >= 1
    ensures forall i :: 0 <= i < |r| ==> c !in r[i]
    decreases |s|
  {
    var i := IndexOf(s, c);
    if i == -1 then [s] else [s[..i]] + Split(s[i + 1..], c)
  }

  /** The inverse of `Split`: the pieces glued back together with `c`. */
  function Join(pieces: seq<string>, c: char): string
    requires |pieces| >= 1
  {
    if |pieces| == 1 then pieces[0] else pieces[0] + [c] + Join(pieces[1..], c)
  }

  /** Splitting and re-joining on the same character gives the input back. */
  lemma {:induction false} JoinSplit(s: string, c: char)
    ensures Join(Split(s, c), c) == s
    decreases |s|
  {
    var i := IndexOf(s, c);
    if i != -1 {
      SliceAround(s, i);
      JoinSplit(s[i + 1..], c);
    }
  }

  /** A string is the part before position `i`, the character there, and the part after. */
  lemma SliceAround(s: string, i: nat)
    requires i < |s|
    ensures s == s[..i] + [s[i]] + s[i + 1..]
  {
  }

  /** A string without `c` splits into itself alone. */
  lemma SplitWithout(s: string, c: char)
    requires c !in s
    ensures Split(s, c) == [s]
  {
  }

  /** `prefix + [c] + rest` with `c` not in `prefix` splits off `prefix` first. */
  lemma SplitCons(prefix: string, c: char, rest: string)
    requires c !in prefix
    ensures Split(prefix + [c] + rest, c) == [prefix] + Split(rest, c)
  {
    var s := prefix + [c] + rest;
    var i := IndexOf(s, c);
    assert forall j :: 0 <= j < |prefix| ==> s[j] == prefix[j];
    assert s[|prefix|] == c;
    assert i == |prefix|;
    assert s[..i] == prefix;
    assert s[i + 1..] == rest;
  }

  /**
   * The positions from `start` on whose element satisfies `matches`, in
   * increasing order: the scan behind LINQ's `Single` and reflection's
   * `GetMethod`, which both need to tell none, one and several apart.
   */
  function PositionsFrom<T>(xs: seq<T>, matches: T -> bool, start: nat): (r: seq<nat>)
    requires start <= |xs|
    ensures forall k :: k in r <==> start <= k < |xs| && matches(xs[k])
    ensures forall i, j :: 0 <= i < j < |r| ==> r[i] < r[j]
    ensures forall i :: 0 <= i < |r| ==> start <= r[i] < |xs|
    decreases |xs| - start
  {
    if start == |xs| then []
    else (if matches(xs[start]) then [start] else []) + PositionsFrom(xs, matches, start + 1)
  }

  /** `string.Replace(char, char)`: every `from` becomes `to`. */
  function ReplaceChar(s: string, from: char, to: char): (r: string)
    ensures |r| == |s|
    ensures forall i :: 0 <= i < |s| ==> r[i] == (if s[i] == from then to else s[i])
  {
    if |s| == 0 then [] else [if s[0] == from then to else s[0]] + ReplaceChar(s[1..], from, to)
  }

  /** Ordinal, case-sensitive `StartsWith`. */
  predicate StartsWith(s: string, prefix: string) {
    |prefix| <= |s| && s[..|prefix|] == prefix
  }

  /** `char.IsWhiteSpace`: the Unicode space separators plus the control characters .NET counts. */
  predicate IsWhiteSpace(c: char) {
    c == ' ' || ('\t' <= c <= '\r') || c == '\U{85}' || c == '\U{A0}' || c == '\U{1680}'
    || ('\U{2000}' <= c <= '\U{200A}') || c == '\U{2028}' || c == '\U{2029}' || c == '\U{202F}'
    || c == '\U{205F}' || c == '\U{3000}'
  }

  /** `string.IsNullOrWhiteSpace` on a non-null string. */
  predicate IsEmptyOrWhiteSpace(s: string) {
    forall i :: 0 <= i < |s| ==> IsWhiteSpace(s[i])
  }

  /** `string.IsNullOrWhiteSpace`, with `None` for null. */
  predicate IsNullOrWhiteSpace(s: Option<string>) {
    s.None? || IsEmptyOrWhiteSpace(s.value)
  }

  predicate IsDigit(c: char) {
    '0' <= c <= '9'
  }

  function DigitChar(d: nat): (c: char)
    requires d < 10
    ensures IsDigit(c)
  {
    ['0', '1', '2', '3', '4', '5', '6', '7', '8', '9'][d]
  }

  /** The number a string of decimal digits denotes. */
  function DigitsValue(s: string): nat
    requires forall i :: 0 <= i < |s| ==> IsDigit(s[i])
  {
    if |s| == 0 then 0
    else
      assert IsDigit(s[|s| - 1]);
      10 * DigitsValue(s[..|s| - 1]) + (s[|s| - 1] as int - '0' as int)
  }

  /** `s` is a string of decimal digits denoting `n`. */
  predicate IsDecimalOf(s: string, n: nat) {
    (forall i :: 0 <= i < |s| ==> IsDigit(s[i])) && DigitsValue(s) == n
  }

  /** `int.ToString(CultureInfo.InvariantCulture)` for a non-negative value. */
  function NatToString(n: nat): (r: string)
    ensures |r| >= 1
    ensures forall i :: 0 <= i < |r| ==> IsDigit(r[i])
    ensures |r| > 1 ==> r[0] != '0'
  {
    if n < 10 then [DigitChar(n)] else NatToString(n / 10) + [DigitChar(n % 10)]
  }

  /** Decimal rendering loses nothing: reading the digits back gives the number. */
  lemma {:induction false} NatToStringValue(n: nat)
    ensures DigitsValue(NatToString(n)) == n
  {
    var r := NatToString(n);
    if n >= 10 {
      NatToStringValue(n / 10);
      assert r[..|r| - 1] == NatToString(n / 10);
    }
  }

  /** `int.ToString(CultureInfo.InvariantCulture)`: a leading '-' for negatives. */
  function IntToString(i: int): (r: string)
    ensures |r| >= 1
    ensures (r[0] == '-') <==> i < 0
    ensures forall k :: 0 <= k < |r| ==> r[k] == '-' || IsDigit(r[k])
  {
    if i < 0 then "-" + NatToString(-i) else NatToString(i)
  }

  const TwoTo32: int := 0x1_0000_0000
  const TwoTo64: int := 0x1_0000_0000_0000_0000

  predicate IsInt32(x: int) {
    -TwoTo32 / 2 <= x < TwoTo32 / 2
  }

  predicate IsInt64(x: int) {
    -TwoTo64 / 2 <= x < TwoTo64 / 2
  }

  /** Two's-complement wrap-around of unchecked 32-bit arithmetic. */
  function Wrap32(x: int): (r: int)
    ensures IsInt32(r)
    ensures (r - x) % TwoTo32 == 0
    ensures IsInt32(x) ==> r == x
  {
    var m := x % TwoTo32;
    if m >= TwoTo32 / 2 then m - TwoTo32 else m
  }

  /** Two's-complement wrap-around of unchecked 64-bit arithmetic. */
  function Wrap64(x: int): (r: int)
    ensures IsInt64(r)
    ensures (r - x) % TwoTo64 == 0
    ensures IsInt64(x) ==> r == x
  {
    var m := x % TwoTo64;
    if m >= TwoTo64 / 2 then m - TwoTo64 else m
  }

  /** Adding already-wrapped operands wraps to the same value as adding the exact ones. */
  lemma Wrap32Add(a: int, b: int)
    ensures Wrap32(Wrap32(a) + Wrap32(b)) == Wrap32(a + b)
  {
    var ra, rb := Wrap32(a), Wrap32(b);
    assert (ra + rb - (a + b)) % TwoTo32 == 0 by {
      assert (ra - a) % TwoTo32 == 0;
      assert (rb - b) % TwoTo32 == 0;
    }
    Wrap32Congruent(ra + rb, a + b);
  }

  lemma Wrap32Congruent(x: int, y: int)
    requires (x - y) % TwoTo32 == 0
    ensures Wrap32(x) == Wrap32(y)
  {
    var k := (x - y) / TwoTo32;
    assert x == y + k * TwoTo32;
    assert x % TwoTo32 == y % TwoTo32;
  }

  /** Shifting by a whole number of 2^64 periods does not change the wrapped value. */
  lemma Wrap64Shift(x: int, k: int)
    ensures Wrap64(x + k * TwoTo64) == Wrap64(x)
  {
    assert (x + k * TwoTo64) % TwoTo64 == x % TwoTo64;
  }

  /** Subtracting from `m` twice, with 64-bit wrap-around, gives back any 64-bit `y`. */
  lemma Wrap64Reflect(m: int, y: int)
    requires IsInt64(y)
    ensures Wrap64(m - Wrap64(m - y)) == y
  {
    var once := Wrap64(m - y);
    var k := (once - (m - y)) / TwoTo64;
    assert once == m - y + k * TwoTo64;
    assert m - once == y + (-k) * TwoTo64;
    Wrap64Shift(y, -k);
  }
}
