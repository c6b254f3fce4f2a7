/**
 * The JavaScript string operations the backend relies on: `toLowerCase`, `includes`,
 * `split` on one character, `trim`, and `parseInt` without a radix.
 */
module Text {
  import opened Wrappers

  // ---------------------------------------------------------------------------
  // Case

  predicate IsUpper(c: char) { 'A' <= c <= 'Z' }

  /** Lower-cases an ASCII capital; every other character is kept. */
  function LowerChar(c: char): (r: char)
    ensures !IsUpper(r)
    ensures !IsUpper(c) ==> r == c
    ensures IsUpper(c) ==> r as int == c as int + 32
  {
    if IsUpper(c) then (c as int + 32) as char else c
  }

  predicate IsLowerCase(s: string) {
    forall i :: 0 <= i < |s| ==> !IsUpper(s[i])
  }

  /** `String.prototype.toLowerCase`, restricted to the ASCII letters. */
  function ToLower(s: string): (r: string)
    ensures |r| == |s|
    ensures forall i :: 0 <= i < |s| ==> r[i] == LowerChar(s[i])
  {
    if s == [] then [] else [LowerChar(s[0])] + ToLower(s[1..])
  }

  /** Lower-casing yields a lower-case string and leaves a lower-case string alone. */
  lemma ToLowerNormalizes(s: string)
    ensures IsLowerCase(ToLower(s))
    ensures ToLower(ToLower(s)) == ToLower(s)
    ensures IsLowerCase(s) ==> ToLower(s) == s
  {
  }

  // ---------------------------------------------------------------------------
  // Substrings (`String.prototype.includes`), case-sensitive

  predicate MatchAt(s: string, sub: string, i: nat) {
    i + |sub| <= |s| && s[i..i + |sub|] == sub
  }

  predicate Contains(s: string, sub: string) {
    exists i: nat | i <= |s| :: MatchAt(s, sub, i)
  }

  /** A text contains a word it holds at some position. */
  lemma ContainsAt(s: string, sub: string, i: nat)
    requires MatchAt(s, sub, i)
    ensures Contains(s, sub)
  {
  }

  /** A text in which the first two letters of a word never stand side by side does not contain it. */
  lemma NoBigram(s: string, sub: string)
    requires |sub| >= 2
    requires forall k: nat :: k + 1 < |s| ==> s[k] != sub[0] || s[k + 1] != sub[1]
    ensures !Contains(s, sub)
  {
    forall i: nat | i <= |s| ensures !MatchAt(s, sub, i) {
      if i + |sub| <= |s| {
        assert s[i..i + |sub|][0] == s[i] && s[i..i + |sub|][1] == s[i + 1];
      }
    }
  }

  // ---------------------------------------------------------------------------
  // Splitting on one character (`String.prototype.split(c)`)

  /** Concatenates the parts with the separator between them (`Array.prototype.join`). */
  function Join(parts: seq<string>, sep: char): string
    requires |parts| >= 1
  {
    if |parts| == 1 then parts[0] else parts[0] + [sep] + Join(parts[1..], sep)
  }

  /** `s.split(sep)`: the maximal separator-free pieces, empty ones included. */
  function Split(s: string, sep: char): (parts: seq<string>)
    ensures |parts| >= 1
    ensures forall i :: 0 <= i < |parts| ==> sep !in parts[i]
    ensures Join(parts, sep) == s
    decreases |s|
  {
    if s == [] then [""]
    else
      var rest := Split(s[1..], sep);
      if s[0] == sep then
        assert ([""] + rest)[1..] == rest;
        [""] + rest
      else
        var parts := [[s[0]] + rest[0]] + rest[1..];
        assert parts[1..] == rest[1..];
        assert |rest| > 1 ==> Join(rest, sep) == rest[0] + [sep] + Join(rest[1..], sep);
        parts
  }

  /** A text without the separator is one piece. */
  lemma {:induction false} SplitWithout(a: string, sep: char)
    requires sep !in a
    ensures Split(a, sep) == [a]
    decreases |a|
  {
    if a != [] {
      SplitWithout(a[1..], sep);
    }
  }

  /** Splitting at the first separator peels off the first piece. */
  lemma {:induction false} SplitAtFirst(a: string, sep: char, b: string)
    requires sep !in a
    ensures Split(a + [sep] + b, sep) == [a] + Split(b, sep)
    decreases |a|
  {
    if a == [] {
      assert (a + [sep] + b)[1..] == b;
    } else {
      assert (a + [sep] + b)[1..] == a[1..] + [sep] + b;
      SplitAtFirst(a[1..], sep, b);
      var rest := Split(a[1..] + [sep] + b, sep);
      assert rest[0] == a[1..] && rest[1..] == Split(b, sep);
      assert [a[0]] + a[1..] == a;
    }
  }

  // ---------------------------------------------------------------------------
  // Whitespace (`String.prototype.trim`)

  /** ECMAScript WhiteSpace and LineTerminator code points. */
  predicate IsSpace(c: char) {
    var n := c as int;
    n == 0x09 || n == 0x0A || n == 0x0B || n == 0x0C || n == 0x0D || n == 0x20 ||
    n == 0xA0 || n == 0x1680 || (0x2000 <= n <= 0x200A) || n == 0x2028 || n == 0x2029 ||
    n == 0x202F || n == 0x205F || n == 0x3000 || n == 0xFEFF
  }

  function TrimStart(s: string): (r: string)
    ensures |r| <= |s| && r == s[|s| - |r|..]
    ensures forall i :: 0 <= i < |s| - |r| ==> IsSpace(s[i])
    ensures r == [] || !IsSpace(r[0])
  {
    if s != [] && IsSpace(s[0]) then TrimStart(s[1..]) else s
  }

  function TrimEnd(s: string): (r: string)
    ensures |r| <= |s| && r == s[..|r|]
    ensures forall i :: |r| <= i < |s| ==> IsSpace(s[i])
    ensures r == [] || !IsSpace(r[|r| - 1])
  {
    if s != [] && IsSpace(s[|s| - 1]) then TrimEnd(s[..|s| - 1]) else s
  }

  /** `s.trim()`. */
  function Trim(s: string): string {
    TrimEnd(TrimStart(s))
  }

  // ---------------------------------------------------------------------------
  // Numbers (`parseInt(s)` and `String(n)`)

  predicate IsDigit(c: char) { '0' <= c <= '9' }

  predicate AllDigits(s: string) {
    forall i :: 0 <= i < |s| ==> IsDigit(s[i])
  }

  function DigitChar(d: nat): (c: char)
    requires d < 10
    ensures IsDigit(c)
  {
    ('0' as int + d) as char
  }

  function DigitsValue(ds: string): nat
    requires AllDigits(ds)
    decreases |ds|
  {
    if ds == [] then 0
    else DigitsValue(ds[..|ds| - 1]) * 10 + (ds[|ds| - 1] as int - '0' as int)
  }

  /** The decimal spelling of a natural number. */
  function NatToString(n: nat): (r: string)
    ensures |r| >= 1 && AllDigits(r)
    ensures DigitsValue(r) == n
  {
    if n < 10 then [DigitChar(n)]
    else
      var r := NatToString(n / 10) + [DigitChar(n % 10)];
      assert r[..|r| - 1] == NatToString(n / 10);
      r
  }

  /** The longest run of digits at the start of a text. */
  function DigitPrefix(s: string): (r: string)
    ensures |r| <= |s| && r == s[..|r|] && AllDigits(r)
    ensures |r| == |s| || !IsDigit(s[|r|])
  {
    if s != [] && IsDigit(s[0]) then
      var r := [s[0]] + DigitPrefix(s[1..]);
      assert r == s[..|r|];
      r
    else []
  }

  predicate IsHexDigit(c: char) { IsDigit(c) || 'a' <= c <= 'f' || 'A' <= c <= 'F' }

  predicate AllHexDigits(s: string) {
    forall i :: 0 <= i < |s| ==> IsHexDigit(s[i])
  }

  function HexDigitValue(c: char): (d: nat)
    requires IsHexDigit(c)
    ensures d < 16
  {
    if IsDigit(c) then c as int - '0' as int
    else if 'a' <= c <= 'f' then c as int - 'a' as int + 10
    else c as int - 'A' as int + 10
  }

  function HexValue(hs: string): nat
    requires AllHexDigits(hs)
    decreases |hs|
  {
    if hs == [] then 0
    else HexValue(hs[..|hs| - 1]) * 16 + HexDigitValue(hs[|hs| - 1])
  }

  /** The longest run of hexadecimal digits at the start of a text. */
  function HexPrefix(s: string): (r: string)
    ensures |r| <= |s| && r == s[..|r|] && AllHexDigits(r)
    ensures |r| == |s| || !IsHexDigit(s[|r|])
  {
    if s != [] && IsHexDigit(s[0]) then
      var r := [s[0]] + HexPrefix(s[1..]);
      assert r == s[..|r|];
      r
    else []
  }

  /** The text after the sign starts with `0x` or `0X`, which switches `parseInt` to base 16. */
  predicate HexMarked(body: string) {
    |body| >= 2 && body[0] == '0' && (body[1] == 'x' || body[1] == 'X')
  }

  /**
   * The number the text after the sign spells: the longest run of hexadecimal digits after a
   * `0x` or `0X`, else the longest run of decimal digits; `None` when that run is empty.
   */
  function Magnitude(body: string): Option<nat> {
    if HexMarked(body) then
      var hs := HexPrefix(body[2..]);
      if |hs| == 0 then None else Some(HexValue(hs))
    else
      var ds := DigitPrefix(body);
      if |ds| == 0 then None else Some(DigitsValue(ds))
  }

  /**
   * `parseInt(s)` without a radix: leading whitespace skipped, an optional sign, then a
   * hexadecimal number after `0x` or `0X` and a decimal one otherwise; `None` stands for
   * `NaN` (no digits at all).
   */
  function ParseInt(s: string): Option<int> {
    var t := TrimStart(s);
    var negative := |t| > 0 && t[0] == '-';
    var body := if |t| > 0 && (t[0] == '-' || t[0] == '+') then t[1..] else t;
    match Magnitude(body)
    case None => None
    case Some(m) => var v: int := m; if negative then Some(-v) else Some(v)
  }

  /** `parseInt` reads back what `String(n)` writes. */
  lemma ParseIntOfNatToString(n: nat)
    ensures ParseInt(NatToString(n)) == Some(n)
  {
    ParseIntStopsAtNonDigit(n, []);
    assert NatToString(n) + [] == NatToString(n);
  }

  /**
   * `parseInt` stops at the first character that is not a digit, unless the number is 0 and
   * an `x` follows it.
   */
  lemma ParseIntStopsAtNonDigit(n: nat, tail: string)
    requires tail == [] || !IsDigit(tail[0])
    requires n == 0 && tail != [] ==> tail[0] != 'x' && tail[0] != 'X'
    ensures ParseInt(NatToString(n) + tail) == Some(n)
  {
    var ds := NatToString(n);
    var s := ds + tail;
    assert s[0] == ds[0];
    DigitIsNoSpace(s[0]);
    assert TrimStart(s) == s;
    assert s[0] != '-' && s[0] != '+';
    if n > 0 {
      LeadingDigit(n);
    } else if tail != [] {
      assert s[1] == tail[0];
    }
    assert !HexMarked(s);
    DigitPrefixOf(ds, tail);
    assert DigitPrefix(s) == ds;
  }

  /** The decimal spelling of a positive number does not start with 0. */
  lemma {:induction false} LeadingDigit(n: nat)
    requires n > 0
    ensures NatToString(n)[0] != '0'
  {
    if n >= 10 {
      LeadingDigit(n / 10);
      assert NatToString(n)[0] == NatToString(n / 10)[0];
    }
  }

  /** After `0x`, `parseInt` reads the hexadecimal digits up to the first character that is not one. */
  lemma ParseIntHex(hs: string, tail: string)
    requires |hs| >= 1 && AllHexDigits(hs)
    requires tail == [] || !IsHexDigit(tail[0])
    ensures ParseInt(['0', 'x'] + (hs + tail)) == Some(HexValue(hs))
  {
    var s := ['0', 'x'] + (hs + tail);
    DigitIsNoSpace(s[0]);
    assert TrimStart(s) == s;
    MagnitudeHex(hs, tail);
  }

  lemma MagnitudeHex(hs: string, tail: string)
    requires |hs| >= 1 && AllHexDigits(hs)
    requires tail == [] || !IsHexDigit(tail[0])
    ensures Magnitude(['0', 'x'] + (hs + tail)) == Some(HexValue(hs))
  {
    var s := ['0', 'x'] + (hs + tail);
    assert HexMarked(s);
    assert s[2..] == hs + tail;
    HexPrefixOf(hs, tail);
  }

  lemma {:induction false} HexPrefixOf(hs: string, tail: string)
    requires AllHexDigits(hs)
    requires tail == [] || !IsHexDigit(tail[0])
    ensures HexPrefix(hs + tail) == hs
    decreases |hs|
  {
    if hs == [] {
      assert hs + tail == tail;
    } else {
      assert (hs + tail)[1..] == hs[1..] + tail;
      HexPrefixOf(hs[1..], tail);
    }
  }

  lemma DigitIsNoSpace(c: char)
    requires IsDigit(c)
    ensures !IsSpace(c) && c != '-' && c != '+'
  {
  }

  lemma {:induction false} DigitPrefixOf(ds: string, tail: string)
    requires AllDigits(ds)
    requires tail == [] || !IsDigit(tail[0])
    ensures DigitPrefix(ds + tail) == ds
    decreases |ds|
  {
    if ds == [] {
      assert ds + tail == tail;
    } else {
      assert (ds + tail)[1..] == ds[1..] + tail;
      DigitPrefixOf(ds[1..], tail);
    }
  }
}
