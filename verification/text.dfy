/** The pieces of Kotlin/JVM string and integer behaviour the core relies on:
    `isBlank`, `startsWith`, `split(delimiter, limit)`, `String.toInt()`,
    integer-to-text conversion, UTF-16 length, `String.hashCode` and 32-bit
    wrap-around. */
module Text {
  import opened Types

  const INT_MIN: int := -0x8000_0000
  const INT_MAX: int := 0x7FFF_FFFF
  const LONG_MIN: int := -0x8000_0000_0000_0000
  const LONG_MAX: int := 0x7FFF_FFFF_FFFF_FFFF

  /** A value of Kotlin's 32-bit `Int`. */
  predicate IsInt(n: int) { INT_MIN <= n <= INT_MAX }

  /** Kotlin's `Int` as a type. */
  type Int32 = n: int | INT_MIN <= n <= INT_MAX

  /** A value of Kotlin's 64-bit `Long`. */
  predicate IsLong(n: int) { LONG_MIN <= n <= LONG_MAX }

  /** Two's-complement wrap-around of Kotlin `Int` arithmetic. */
  function Wrap32(x: int): (r: int)
    ensures IsInt(r)
    ensures (r - x) % 0x1_0000_0000 == 0
    ensures IsInt(x) ==> r == x
  {
    (x - INT_MIN) % 0x1_0000_0000 + INT_MIN
  }

  // ---------------------------------------------------------------------------
  // Blank text

  /** Kotlin's `Char.isWhitespace()` on the JVM: Java whitespace (tab, line feed,
      vertical tab, form feed, carriage return, U+001C..U+001F) or a Unicode
      space, line or paragraph separator. */
  predicate IsWhitespace(c: char) {
    || ('\t' <= c <= '\r')
    || ('\U{1C}' <= c <= ' ')
    || c == '\U{A0}'
    || c == '\U{1680}'
    || ('\U{2000}' <= c <= '\U{200A}')
    || c == '\U{2028}'
    || c == '\U{2029}'
    || c == '\U{202F}'
    || c == '\U{205F}'
    || c == '\U{3000}'
  }

  /** Kotlin's `isBlank()`: empty or whitespace only. */
  predicate IsBlank(s: string) {
    forall i :: 0 <= i < |s| ==> IsWhitespace(s[i])
  }

  /** Java's `String.trim()` leaves nothing: every character is at most U+0020.
      This is the blank test of bean validation's `@NotBlank`. Unlike `isBlank`,
      it counts U+0000..U+0008 and U+000E..U+001B as blank and U+00A0 and the
      other Unicode spaces as content. */
  predicate TrimsToEmpty(s: string) {
    forall i :: 0 <= i < |s| ==> s[i] <= ' '
  }

  predicate StartsWith(s: string, prefix: string) {
    |prefix| <= |s| && s[..|prefix|] == prefix
  }

  // ---------------------------------------------------------------------------
  // Searching and splitting

  /** Position of the first occurrence of `c` in `s`. */
  function IndexOf(s: string, c: char): (r: Option<nat>)
    ensures r.None? <==> c !in s
    ensures r.Some? ==> r.value < |s| && s[r.value] == c && c !in s[..r.value]
  {
    if |s| == 0 then None
    else if s[0] == c then Some(0)
    else
      match IndexOf(s[1..], c)
      case None => None
      case Some(i) =>
        assert s[..i + 1] == [s[0]] + s[1..][..i];
        Some(i + 1)
  }

  /** The index of the first occurrence is fixed by any occurrence that has none before it. */
  lemma IndexOfFirst(s: string, c: char, i: nat)
    requires i < |s| && s[i] == c && c !in s[..i]
    ensures IndexOf(s, c) == Some(i)
  {
  }

  /** Re-assembles split pieces, putting `d` between neighbours. */
  function Join(parts: seq<string>, d: char): string
    requires |parts| >= 1
  {
    if |parts| == 1 then parts[0] else parts[0] + [d] + Join(parts[1..], d)
  }

  /** Kotlin's `s.split(d.toString(), limit = limit)` for a positive limit: at most
      `limit` pieces, cut at the first `limit - 1` occurrences of `d`; the last
      piece keeps every later `d`. */
  function Split(s: string, d: char, limit: nat): (parts: seq<string>)
    requires limit >= 1
    ensures 1 <= |parts| <= limit
    decreases limit
  {
    if limit == 1 then [s]
    else
      match IndexOf(s, d)
      case None => [s]
      case Some(i) => [s[..i]] + Split(s[i + 1..], d, limit - 1)
  }

  /** Putting `d` back between the pieces gives the original text. */
  lemma {:induction false} SplitJoin(s: string, d: char, limit: nat)
    requires limit >= 1
    ensures Join(Split(s, d, limit), d) == s
    decreases limit
  {
    if limit > 1 && d in s {
      var i := IndexOf(s, d).value;
      var tail := s[i + 1..];
      SplitAt(s, d, limit, i);
      SplitJoin(tail, d, limit - 1);
      JoinCons(s[..i], Split(tail, d, limit - 1), d);
      CutAround(s, i);
    }
  }

  /** Every piece but the last is free of `d`. */
  lemma {:induction false} SplitPiecesFree(s: string, d: char, limit: nat)
    requires limit >= 1
    ensures var parts := Split(s, d, limit);
            forall i :: 0 <= i < |parts| - 1 ==> d !in parts[i]
    decreases limit
  {
    if limit > 1 && d in s {
      var i := IndexOf(s, d).value;
      var tail := s[i + 1..];
      SplitAt(s, d, limit, i);
      SplitPiecesFree(tail, d, limit - 1);
      ConsPiecesFree(s[..i], Split(tail, d, limit - 1), d);
    }
  }

  /** The last piece is free of `d` when the split stopped before its limit. */
  lemma {:induction false} SplitLastPieceFree(s: string, d: char, limit: nat)
    requires limit >= 1
    ensures var parts := Split(s, d, limit);
            |parts| < limit ==> d !in parts[|parts| - 1]
    decreases limit
  {
    if limit > 1 && d in s {
      var i := IndexOf(s, d).value;
      var tail := s[i + 1..];
      SplitAt(s, d, limit, i);
      SplitLastPieceFree(tail, d, limit - 1);
      ConsLastPiece(s[..i], Split(tail, d, limit - 1));
    }
  }

  /** Putting a piece in front leaves the last piece last. */
  lemma ConsLastPiece(first: string, rest: seq<string>)
    requires |rest| >= 1
    ensures |[first] + rest| == |rest| + 1 && ([first] + rest)[|rest|] == rest[|rest| - 1]
  {
  }

  /** Putting a piece without `d` in front of pieces whose non-last ones lack `d` keeps that so. */
  lemma ConsPiecesFree(first: string, rest: seq<string>, d: char)
    requires d !in first && |rest| >= 1
    requires forall j :: 0 <= j < |rest| - 1 ==> d !in rest[j]
    ensures forall j :: 0 <= j < |rest| ==> d !in ([first] + rest)[j]
  {
    assert forall j :: 1 <= j < |rest| ==> ([first] + rest)[j] == rest[j - 1];
  }

  /** Joining a piece in front of at least one more puts `d` after it. */
  lemma JoinCons(first: string, rest: seq<string>, d: char)
    requires |rest| >= 1
    ensures Join([first] + rest, d) == first + [d] + Join(rest, d)
  {
    assert ([first] + rest)[1..] == rest;
  }

  /** Cutting around one position and putting it back gives the text. */
  lemma CutAround(s: string, i: nat)
    requires i < |s|
    ensures s[..i] + [s[i]] + s[i + 1..] == s
  {
  }

  /** One step of a split: cut at the first `d`, then split the rest with one piece fewer. */
  lemma SplitAt(s: string, d: char, limit: nat, i: nat)
    requires limit >= 2 && i < |s| && s[i] == d && d !in s[..i]
    ensures Split(s, d, limit) == [s[..i]] + Split(s[i + 1..], d, limit - 1)
  {
    IndexOfFirst(s, d, i);
  }

  /** The first piece of a split is the text before the first `d` (all of `s` when there is none). */
  lemma SplitFirstPiece(s: string, d: char, limit: nat)
    requires limit >= 2
    ensures d !in s ==> Split(s, d, limit) == [s]
    ensures d in s ==> |Split(s, d, limit)| >= 2 && Split(s, d, limit)[0] == s[..IndexOf(s, d).value]
    ensures d !in Split(s, d, limit)[0]
    ensures StartsWith(s, Split(s, d, limit)[0])
  {
  }

  // ---------------------------------------------------------------------------
  // Decimal integers

  predicate IsDigit(c: char) { '0' <= c <= '9' }

  predicate AllDigits(s: string) {
    forall i :: 0 <= i < |s| ==> IsDigit(s[i])
  }

  function DigitValue(c: char): nat
    requires IsDigit(c)
  {
    c as int - '0' as int
  }

  function DigitChar(n: nat): (c: char)
    requires n < 10
    ensures IsDigit(c) && DigitValue(c) == n
  {
    ('0' as int + n) as char
  }

  /** The number a string of decimal digits denotes. */
  function DigitsValue(s: string): nat
    requires AllDigits(s)
  {
    if |s| == 0 then 0
    else 10 * DigitsValue(s[..|s| - 1]) + DigitValue(s[|s| - 1])
  }

  /** Kotlin's `String.toInt()`: an optional `+` or `-` sign, then at least one
      decimal digit, with a value that fits in an `Int`; `None` stands for the
      `NumberFormatException` thrown otherwise. */
  function ParseInt(s: string): (r: Option<int>)
    ensures r.Some? ==> IsInt(r.value)
    ensures r.Some? ==> 0 < |s| && (AllDigits(s) || (1 < |s| && (s[0] == '-' || s[0] == '+') && AllDigits(s[1..])))
    ensures 0 < |s| && AllDigits(s) ==> r == (if DigitsValue(s) <= INT_MAX then Some(DigitsValue(s)) else None)
    ensures 1 < |s| && s[0] == '+' && AllDigits(s[1..]) ==>
              r == (if DigitsValue(s[1..]) <= INT_MAX then Some(DigitsValue(s[1..])) else None)
    ensures 1 < |s| && s[0] == '-' && AllDigits(s[1..]) ==>
              r == (if DigitsValue(s[1..]) <= -INT_MIN then Some(-(DigitsValue(s[1..]) as int)) else None)
  {
    if |s| == 0 then None
    else
      var digits := if s[0] == '-' || s[0] == '+' then s[1..] else s;
      if |digits| == 0 || !AllDigits(digits) then None
      else
        var v: int := if s[0] == '-' then -(DigitsValue(digits) as int) else DigitsValue(digits);
        if IsInt(v) then Some(v) else None
  }

  /** Decimal digits of a natural number, most significant first, no leading zeros. */
  function NatDigits(n: nat): (s: string)
    ensures |s| >= 1 && AllDigits(s)
    ensures s[0] != '0' || n == 0
  {
    if n < 10 then [DigitChar(n)] else NatDigits(n / 10) + [DigitChar(n % 10)]
  }

  /** Kotlin's `toString()` of an `Int` or a `Long` (also string templates `"${n}"`). */
  function FormatInt(n: int): string {
    if n < 0 then "-" + NatDigits(-n) else NatDigits(n)
  }

  lemma {:induction false} DigitsValueOfNatDigits(n: nat)
    ensures DigitsValue(NatDigits(n)) == n
  {
    var s := NatDigits(n);
    if n >= 10 {
      DigitsValueOfNatDigits(n / 10);
      assert s[..|s| - 1] == NatDigits(n / 10);
    }
  }

  /** `toInt()` reads back exactly what `toString()` wrote, for every `Int`. */
  lemma ParseFormatRoundTrip(n: int)
    requires IsInt(n)
    ensures ParseInt(FormatInt(n)) == Some(n)
  {
    var s := FormatInt(n);
    if n < 0 {
      var digits := NatDigits(-n);
      DigitsValueOfNatDigits(-n);
      assert s == "-" + digits && s[0] == '-' && s[1..] == digits;
    } else {
      DigitsValueOfNatDigits(n);
      assert IsDigit(s[0]);
    }
  }

  /** Kotlin's string template for a nullable `Long`: the number, or `"null"`. */
  function OptionText(n: Option<int>): string {
    match n
    case Some(v) => FormatInt(v)
    case None => "null"
  }

  // ---------------------------------------------------------------------------
  // UTF-16 view of a string (JVM strings are UTF-16)

  /** The UTF-16 code units of a character: one unit in the Basic Multilingual
      Plane, a surrogate pair above it. */
  function CharUnits(c: char): (u: seq<int>)
    ensures 1 <= |u| <= 2
    ensures forall i :: 0 <= i < |u| ==> 0 <= u[i] <= 0xFFFF
    ensures |u| == 1 <==> c as int <= 0xFFFF
  {
    var v := c as int;
    if v <= 0xFFFF then [v]
    else [0xD800 + (v - 0x1_0000) / 0x400, 0xDC00 + (v - 0x1_0000) % 0x400]
  }

  function Utf16Units(s: string): (u: seq<int>)
    ensures |s| <= |u| <= 2 * |s|
    ensures (forall i :: 0 <= i < |s| ==> s[i] as int <= 0xFFFF) ==> |u| == |s|
    ensures forall i :: 0 <= i < |u| ==> 0 <= u[i] <= 0xFFFF
  {
    if |s| == 0 then [] else Utf16Units(s[..|s| - 1]) + CharUnits(s[|s| - 1])
  }

  /** Java's `String.length()`: the number of UTF-16 code units. */
  function Utf16Length(s: string): nat {
    |Utf16Units(s)|
  }

  /** Java's `String.hashCode()`: `h = 31 * h + unit` over the UTF-16 units, in `Int` arithmetic. */
  function StringHash(s: string): (h: int)
    ensures IsInt(h)
  {
    UnitsHash(Utf16Units(s))
  }

  function UnitsHash(u: seq<int>): (h: int)
    ensures IsInt(h)
  {
    if |u| == 0 then 0 else Wrap32(31 * UnitsHash(u[..|u| - 1]) + u[|u| - 1])
  }

  // ---------------------------------------------------------------------------
  // Case

  /** Upper-casing restricted to ASCII letters; every other character is kept. */
  function AsciiUpper(s: string): (r: string)
    ensures |r| == |s|
    ensures forall i :: 0 <= i < |s| && !('a' <= s[i] <= 'z') ==> r[i] == s[i]
    ensures forall i :: 0 <= i < |s| && 'a' <= s[i] <= 'z' ==> r[i] as int == s[i] as int - 32
  {
    seq(|s|, i requires 0 <= i < |s| =>
      if 'a' <= s[i] <= 'z' then (s[i] as int - 32) as char else s[i])
  }
}
