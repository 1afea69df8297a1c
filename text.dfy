/** The string primitives the codecs are written with: Python's `str.split`
    and `str.join` on a one-character separator, `str.split(sep, 1)`, `str()`
    and `int()` on integers, and the percent-decoding of `unquote`
    (section 2.1 of RFC 3986). */
module Text {
  import opened Wrappers

  /** Position of the first occurrence of `c` in `s`. */
  function FirstIndex(s: string, c: char): (i: nat)
    requires c in s
    ensures i < |s| && s[i] == c && c !in s[..i]
  {
    if s[0] == c then 0
    else
      var k := FirstIndex(s[1..], c);
      assert s[..k + 1] == [s[0]] + s[1..][..k];
      k + 1
  }

  /** Any split of `s` around a `c` that leaves no `c` before it is the split
      at the first occurrence. */
  lemma FirstIndexOf(a: string, c: char, b: string)
    requires c !in a
    ensures c in a + [c] + b && FirstIndex(a + [c] + b, c) == |a|
  {
    var s := a + [c] + b;
    assert s[|a|] == c;
    assert s[..|a|] == a;
  }

  /** Python's `s.split(sep)`: the pieces between separators, always at least one. */
  function Split(s: string, sep: char): (parts: seq<string>)
    ensures |parts| >= 1
    ensures forall k :: 0 <= k < |parts| ==> sep !in parts[k]
    ensures Join(parts, sep) == s
    decreases |s|
  {
    if sep in s then
      var i := FirstIndex(s, sep);
      var rest := Split(s[i + 1..], sep);
      assert ([s[..i]] + rest)[1..] == rest;
      assert s == s[..i] + [sep] + s[i + 1..];
      [s[..i]] + rest
    else
      [s]
  }

  /** Python's `sep.join(parts)`. */
  function Join(parts: seq<string>, sep: char): string
  {
    if |parts| == 0 then ""
    else if |parts| == 1 then parts[0]
    else parts[0] + [sep] + Join(parts[1..], sep)
  }

  /** Splitting `piece + sep + rest` where the piece has no separator gives
      the piece and then the pieces of the rest. */
  lemma SplitCons(piece: string, rest: string, sep: char)
    requires sep !in piece
    ensures Split(piece + [sep] + rest, sep) == [piece] + Split(rest, sep)
  {
    var s := piece + [sep] + rest;
    FirstIndexOf(piece, sep, rest);
    assert s[..|piece|] == piece;
    assert s[|piece| + 1..] == rest;
  }

  /** Splitting what was joined gives the pieces back, provided none of them
      holds the separator. */
  lemma {:induction false} SplitJoin(parts: seq<string>, sep: char)
    requires |parts| >= 1
    requires forall k :: 0 <= k < |parts| ==> sep !in parts[k]
    ensures Split(Join(parts, sep), sep) == parts
  {
    if |parts| > 1 {
      var tail := parts[1..];
      assert forall k :: 0 <= k < |tail| ==> tail[k] == parts[k + 1];
      SplitJoin(tail, sep);
      assert sep !in parts[0];
      SplitCons(parts[0], Join(tail, sep), sep);
      assert parts == [parts[0]] + tail;
    }
  }

  /** A character that is not the separator and is in none of the pieces is
      not in their join. */
  lemma {:induction false} JoinAvoids(parts: seq<string>, sep: char, c: char)
    requires c != sep
    requires forall k :: 0 <= k < |parts| ==> c !in parts[k]
    ensures c !in Join(parts, sep)
  {
    if |parts| > 1 {
      JoinAvoids(parts[1..], sep, c);
    }
  }

  /** Python's `s.split(sep, 1)` on a string that holds `sep`: the text before
      the first separator and everything after it. */
  function SplitOnce(s: string, sep: char): (kv: (string, string))
    requires sep in s
    ensures kv.0 + [sep] + kv.1 == s && sep !in kv.0
  {
    var i := FirstIndex(s, sep);
    assert s == s[..i] + [sep] + s[i + 1..];
    (s[..i], s[i + 1..])
  }

  lemma SplitOnceOf(a: string, sep: char, b: string)
    requires sep !in a
    ensures sep in a + [sep] + b && SplitOnce(a + [sep] + b, sep) == (a, b)
  {
    FirstIndexOf(a, sep, b);
    var s := a + [sep] + b;
    assert s[..|a|] == a;
    assert s[|a| + 1..] == b;
  }

  // ---------------------------------------------------------------------------
  // Decimal integers

  predicate IsDigit(c: char) {
    '0' <= c <= '9'
  }

  predicate AllDigits(s: string) {
    forall k :: 0 <= k < |s| ==> IsDigit(s[k])
  }

  function DigitChar(d: nat): (c: char)
    requires d < 10
    ensures IsDigit(c)
  {
    ('0' as int + d) as char
  }

  function DigitValue(c: char): (d: nat)
    requires IsDigit(c)
    ensures d < 10 && DigitChar(d) == c
  {
    c as int - '0' as int
  }

  lemma DigitsAvoid(s: string, c: char)
    requires AllDigits(s) && !IsDigit(c)
    ensures c !in s
  {
  }

  /** Decimal digits of `n` without leading zeros, as Python's `str` writes them. */
  function NatToDigits(n: nat): (s: string)
    ensures |s| >= 1 && AllDigits(s)
  {
    if n < 10 then [DigitChar(n)] else NatToDigits(n / 10) + [DigitChar(n % 10)]
  }

  /** The number a string of decimal digits denotes. */
  function DigitsValue(s: string): nat
    requires AllDigits(s)
  {
    if s == [] then 0 else 10 * DigitsValue(s[..|s| - 1]) + DigitValue(s[|s| - 1])
  }

  lemma {:induction false} DigitsRoundTrip(n: nat)
    ensures DigitsValue(NatToDigits(n)) == n
  {
    var s := NatToDigits(n);
    if n >= 10 {
      assert s[..|s| - 1] == NatToDigits(n / 10);
      DigitsRoundTrip(n / 10);
    }
  }

  /** Python's `str(n)` for an integer. */
  function IntToString(n: int): string
  {
    if n < 0 then "-" + NatToDigits(-n) else NatToDigits(n)
  }

  /** Python's `int(s)` restricted to an optional sign followed by ASCII digits;
      `None` where `int` raises `ValueError`. */
  function ParseInt(s: string): Option<int>
  {
    if |s| > 1 && (s[0] == '-' || s[0] == '+') && AllDigits(s[1..]) then
      var magnitude: int := DigitsValue(s[1..]);
      Some(if s[0] == '-' then -magnitude else magnitude)
    else if |s| > 0 && AllDigits(s) then
      Some(DigitsValue(s))
    else
      None
  }

  /** The digits of `n` parse back as `n`. */
  lemma ParseDigits(n: nat)
    ensures ParseInt(NatToDigits(n)) == Some(n)
  {
    var s := NatToDigits(n);
    DigitsRoundTrip(n);
    assert IsDigit(s[0]);
  }

  /** A minus sign before the digits of `m` parses back as `-m`. */
  lemma ParseNegative(m: nat)
    ensures ParseInt("-" + NatToDigits(m)) == Some(-(m as int))
  {
    var d := NatToDigits(m);
    DigitsRoundTrip(m);
    var s := "-" + d;
    assert s[0] == '-' && s[1..] == d;
  }

  /** `int(str(n)) == n`. */
  lemma ParseIntRoundTrip(n: int)
    ensures ParseInt(IntToString(n)) == Some(n)
  {
    if n < 0 {
      ParseNegative(-n);
    } else {
      ParseDigits(n);
    }
  }

  /** The characters `str(n)` is made of: digits and a leading minus sign. */
  lemma IntToStringChars(n: int, c: char)
    requires c in IntToString(n)
    ensures c == '-' || IsDigit(c)
  {
    if n < 0 {
      var s := NatToDigits(-n);
      assert IntToString(n) == ['-'] + s;
    }
  }

  // ---------------------------------------------------------------------------
  // Percent-decoding

  function HexValue(c: char): Option<nat>
  {
    if '0' <= c <= '9' then Some(c as int - '0' as int)
    else if 'a' <= c <= 'f' then Some(c as int - 'a' as int + 10)
    else if 'A' <= c <= 'F' then Some(c as int - 'A' as int + 10)
    else None
  }

  /** The character a `%HH` escape at the start of `s` stands for, when it is
      one of the 128 ASCII characters. */
  function Escape(s: string): Option<char>
  {
    if |s| >= 3 && s[0] == '%' && HexValue(s[1]).Some? && HexValue(s[2]).Some?
       && 16 * HexValue(s[1]).value + HexValue(s[2]).value < 128
    then Some((16 * HexValue(s[1]).value + HexValue(s[2]).value) as char)
    else None
  }

  /** `urllib.parse.unquote` over ASCII: each `%HH` escape of an ASCII
      character becomes that character, every other character is kept. */
  function Unquote(s: string): (r: string)
    ensures '%' !in s ==> r == s
    ensures |r| <= |s|
  {
    if s == [] then []
    else if Escape(s).Some? then [Escape(s).value] + Unquote(s[3..])
    else [s[0]] + Unquote(s[1..])
  }

  /** An escape at the front becomes its character. */
  lemma UnquoteFront(h1: char, h2: char, b: string, ch: char)
    requires Escape(['%', h1, h2]) == Some(ch)
    ensures Unquote(['%', h1, h2] + b) == [ch] + Unquote(b)
  {
    var s := ['%', h1, h2] + b;
    assert s[0] == '%' && s[1] == h1 && s[2] == h2 && |s| >= 3;
    assert s[3..] == b;
  }

  /** A character other than `%` at the front is copied. */
  lemma UnquoteCopy(c: char, t: string)
    requires c != '%'
    ensures Unquote([c] + t) == [c] + Unquote(t)
  {
    assert ([c] + t)[1..] == t;
  }

  /** Splitting off the first character of a concatenation. */
  lemma ConsSplit(a: string, u: string)
    requires a != []
    ensures a + u == [a[0]] + (a[1..] + u)
    ensures [a[0]] + a[1..] == a
  {
  }

  lemma ConsJoin(c: char, rest: string, x: string)
    ensures [c] + (rest + x) == ([c] + rest) + x
  {
  }

  /** Text without `%` in front of anything is copied as it is. */
  lemma {:induction false} UnquotePlain(a: string, u: string)
    requires '%' !in a
    ensures Unquote(a + u) == a + Unquote(u)
    decreases |a|
  {
    if a == [] {
      assert a + u == u;
    } else {
      var c, rest := a[0], a[1..];
      ConsSplit(a, u);
      UnquoteCopy(c, rest + u);
      UnquotePlain(rest, u);
      ConsJoin(c, rest, Unquote(u));
    }
  }

  /** Text without `%` is copied, and an escape after it becomes its
      character, the rest being decoded on its own. */
  lemma UnquoteEscape(a: string, h1: char, h2: char, b: string, ch: char)
    requires '%' !in a
    requires Escape(['%', h1, h2]) == Some(ch)
    ensures Unquote(a + ['%', h1, h2] + b) == a + [ch] + Unquote(b)
  {
    var u := ['%', h1, h2] + b;
    assert a + ['%', h1, h2] + b == a + u;
    UnquotePlain(a, u);
    UnquoteFront(h1, h2, b, ch);
  }
}
