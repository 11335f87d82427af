/**
 * The few ECMAScript string built-ins the wallet relies on:
 * `String.prototype.trim`, `String.prototype.toLowerCase` (on ASCII),
 * `String(n)` for an integral number and the global `parseInt` without a radix.
 */
module JsStrings {
  import opened Wrappers

  /** The WhiteSpace and LineTerminator code points that `trim` and `parseInt` skip (ECMAScript 2023, sections 12.2 and 12.3). */
  predicate IsJsWhitespace(c: char) {
    || c == '\t' || c == '\n' || c == '\U{000B}' || c == '\U{000C}' || c == '\r'
    || c == ' ' || c == '\U{00A0}' || c == '\U{1680}'
    || ('\U{2000}' <= c <= '\U{200A}')
    || c == '\U{2028}' || c == '\U{2029}' || c == '\U{202F}' || c == '\U{205F}'
    || c == '\U{3000}' || c == '\U{FEFF}'
  }

  /** Every character of `s` is white space (true of the empty string). */
  predicate AllWhitespace(s: string) {
    forall i :: 0 <= i < |s| ==> IsJsWhitespace(s[i])
  }

  /** `s.trimStart()`: the suffix of `s` left after its leading white space. */
  function TrimStart(s: string): (r: string)
    ensures |r| <= |s| && r == s[|s| - |r|..]
    ensures AllWhitespace(s[..|s| - |r|])
    ensures r != [] ==> !IsJsWhitespace(r[0])
  {
    if s != [] && IsJsWhitespace(s[0]) then
      var r := TrimStart(s[1..]);
      assert s[..|s| - |r|] == [s[0]] + s[1..][..|s[1..]| - |r|];
      r
    else s
  }

  /** `s.trimEnd()`: the prefix of `s` left after its trailing white space. */
  function TrimEnd(s: string): (r: string)
    ensures |r| <= |s| && r == s[..|r|]
    ensures AllWhitespace(s[|r|..])
    ensures r != [] ==> !IsJsWhitespace(r[|r| - 1])
  {
    if s != [] && IsJsWhitespace(s[|s| - 1]) then
      var r := TrimEnd(s[..|s| - 1]);
      assert s[|r|..] == s[..|s| - 1][|r|..] + [s[|s| - 1]];
      r
    else s
  }

  /** `s.trim()` */
  function Trim(s: string): string {
    TrimEnd(TrimStart(s))
  }

  /** `trim` leaves no white space at either end. */
  lemma TrimIsTrimmed(s: string)
    ensures var r := Trim(s); r != [] ==> !IsJsWhitespace(r[0]) && !IsJsWhitespace(r[|r| - 1])
  {
    var t := TrimStart(s);
    var r := TrimEnd(t);
    if r != [] {
      assert r == t[..|r|];
      assert r[0] == t[0];
    }
  }

  /** An all-white-space string trims to the empty string. */
  lemma {:induction false} TrimStartOfBlank(s: string)
    requires AllWhitespace(s)
    ensures TrimStart(s) == ""
  {
    if s != [] {
      TrimStartOfBlank(s[1..]);
    }
  }

  /** `trim` yields the empty string exactly when `s` is all white space. */
  lemma TrimEmptyIffBlank(s: string)
    ensures Trim(s) == "" <==> AllWhitespace(s)
  {
    var t := TrimStart(s);
    if AllWhitespace(s) {
      TrimStartOfBlank(s);
    }
    if Trim(s) == "" {
      assert AllWhitespace(t[0..]);
      assert t == [];
      assert s[..|s|] == s;
    }
  }

  /** A string without white space at its ends is its own trimmed form. */
  lemma TrimOfTrimmed(s: string)
    requires s != [] ==> !IsJsWhitespace(s[0]) && !IsJsWhitespace(s[|s| - 1])
    ensures Trim(s) == s
  {
  }

  /** Leading white space is exactly what `trimStart` removes. */
  lemma {:induction false} TrimStartOfPadded(w: string, x: string)
    requires AllWhitespace(w) && (x != [] ==> !IsJsWhitespace(x[0]))
    ensures TrimStart(w + x) == x
  {
    if w == [] {
      assert w + x == x;
    } else {
      assert (w + x)[1..] == w[1..] + x;
      TrimStartOfPadded(w[1..], x);
    }
  }

  /** Trailing white space is exactly what `trimEnd` removes. */
  lemma {:induction false} TrimEndOfPadded(x: string, w: string)
    requires AllWhitespace(w) && (x != [] ==> !IsJsWhitespace(x[|x| - 1]))
    ensures TrimEnd(x + w) == x
  {
    if w == [] {
      assert x + w == x;
    } else {
      var w' := w[..|w| - 1];
      assert (x + w)[..|x + w| - 1] == x + w';
      TrimEndOfPadded(x, w');
    }
  }

  /** `trim` takes off exactly the white space around a string that has none at its ends. */
  lemma TrimOfPadded(w1: string, x: string, w2: string)
    requires AllWhitespace(w1) && AllWhitespace(w2)
    requires x != [] && !IsJsWhitespace(x[0]) && !IsJsWhitespace(x[|x| - 1])
    ensures Trim(w1 + x + w2) == x
  {
    assert w1 + x + w2 == w1 + (x + w2);
    TrimStartOfPadded(w1, x + w2);
    TrimEndOfPadded(x, w2);
  }

  /** `trim` is idempotent. */
  lemma TrimIdempotent(s: string)
    ensures Trim(Trim(s)) == Trim(s)
  {
    TrimIsTrimmed(s);
    TrimOfTrimmed(Trim(s));
  }

  /** `c.toLowerCase()` for an ASCII letter; every other character is left alone. */
  function LowerChar(c: char): char {
    if 'A' <= c <= 'Z' then (c as int + 32) as char else c
  }

  /** `s.toLowerCase()`, restricted to the ASCII upper-case letters. */
  function ToLower(s: string): (r: string)
    ensures |r| == |s|
    ensures forall i :: 0 <= i < |r| ==> !('A' <= r[i] <= 'Z')
    ensures forall i :: 0 <= i < |s| && !('A' <= s[i] <= 'Z') ==> r[i] == s[i]
  {
    seq(|s|, i requires 0 <= i < |s| => LowerChar(s[i]))
  }

  /** Lowering a lowered string changes nothing. */
  lemma ToLowerIdempotent(s: string)
    ensures ToLower(ToLower(s)) == ToLower(s)
  {
  }

  function DigitChar(d: nat): char
    requires d < 10
  {
    "0123456789"[d]
  }

  /** The decimal numeral of a natural number, without leading zeros. */
  function NatToDecimal(n: nat): (s: string)
    ensures s != [] && forall i :: 0 <= i < |s| ==> '0' <= s[i] <= '9'
    ensures |s| > 1 ==> s[0] != '0'
  {
    if n < 10 then [DigitChar(n)] else NatToDecimal(n / 10) + [DigitChar(n % 10)]
  }

  /** `String(n)` for an integral number. */
  function NumberToString(n: int): string {
    if n < 0 then "-" + NatToDecimal(-n) else NatToDecimal(n)
  }

  /** The value of `c` as a digit in base `radix` (10 or 16), or -1. */
  function DigitValue(c: char, radix: nat): int {
    if '0' <= c <= '9' then c as int - '0' as int
    else if radix == 16 && 'a' <= c <= 'f' then c as int - 'a' as int + 10
    else if radix == 16 && 'A' <= c <= 'F' then c as int - 'A' as int + 10
    else -1
  }

  predicate IsDigit(c: char, radix: nat) {
    0 <= DigitValue(c, radix) < radix
  }

  /** The longest prefix of `s` made of digits in base `radix`. */
  function DigitPrefix(s: string, radix: nat): (d: string)
    ensures forall i :: 0 <= i < |d| ==> IsDigit(d[i], radix)
  {
    if s != [] && IsDigit(s[0], radix) then [s[0]] + DigitPrefix(s[1..], radix) else []
  }

  /** The value of a string of digits in base `radix`, most significant first. */
  function DigitsValue(s: string, radix: nat): nat
    requires forall i :: 0 <= i < |s| ==> IsDigit(s[i], radix)
  {
    if s == [] then 0
    else
      var front := s[..|s| - 1];
      assert forall i :: 0 <= i < |front| ==> front[i] == s[i];
      var v: nat := DigitsValue(front, radix);
      assert IsDigit(s[|s| - 1], radix);
      var d := DigitValue(s[|s| - 1], radix);
      assert 0 <= v * radix;
      v * radix + d
  }

  /** The unsigned part of `parseInt`: an optional `0x`/`0X` prefix selects base 16, then the longest run of digits. */
  function ParseUnsigned(u: string): Option<nat> {
    var hex := |u| >= 2 && u[0] == '0' && (u[1] == 'x' || u[1] == 'X');
    var radix: nat := if hex then 16 else 10;
    var digits := DigitPrefix(if hex then u[2..] else u, radix);
    if digits == [] then None else Some(DigitsValue(digits, radix))
  }

  /**
   * `parseInt(s)` without a radix: skip leading white space, read an optional sign,
   * then the unsigned part. `None` stands for NaN, the result when there is no digit at all.
   */
  function ParseInt(s: string): Option<int> {
    ParseSigned(TrimStart(s))
  }

  /** `parseInt` after the leading white space: an optional sign, then the unsigned part. */
  function ParseSigned(t: string): Option<int> {
    var negative := t != [] && t[0] == '-';
    var magnitude := ParseUnsigned(if t != [] && (t[0] == '-' || t[0] == '+') then t[1..] else t);
    if magnitude.None? then None
    else if negative then Some(0 - magnitude.value)
    else Some(magnitude.value as int)
  }

  /** A string made only of digits is its own digit prefix. */
  lemma {:induction false} DigitPrefixOfDigits(s: string, radix: nat)
    requires forall i :: 0 <= i < |s| ==> IsDigit(s[i], radix)
    ensures DigitPrefix(s, radix) == s
  {
    if s != [] {
      DigitPrefixOfDigits(s[1..], radix);
    }
  }

  /** Reading back the decimal numeral of `n` gives `n`. */
  lemma {:induction false} DecimalValue(n: nat)
    ensures var s := NatToDecimal(n);
      (forall i :: 0 <= i < |s| ==> IsDigit(s[i], 10)) && DigitsValue(s, 10) == n
  {
    var s := NatToDecimal(n);
    if n >= 10 {
      DecimalValue(n / 10);
      assert s[..|s| - 1] == NatToDecimal(n / 10);
    }
  }

  lemma ParseUnsignedOfDecimal(n: nat)
    ensures ParseUnsigned(NatToDecimal(n)) == Some(n)
  {
    var d := NatToDecimal(n);
    DecimalValue(n);
    DigitPrefixOfDigits(d, 10);
    assert |d| >= 2 ==> d[1] != 'x' && d[1] != 'X';
  }

  /** The digits of `d` are the whole digit prefix of `d + rest` when `rest` does not start with a digit. */
  lemma {:induction false} DigitPrefixStops(d: string, rest: string, radix: nat)
    requires forall i :: 0 <= i < |d| ==> IsDigit(d[i], radix)
    requires rest == [] || !IsDigit(rest[0], radix)
    ensures DigitPrefix(d + rest, radix) == d
  {
    if d == [] {
      assert d + rest == rest;
    } else {
      assert (d + rest)[0] == d[0] && (d + rest)[1..] == d[1..] + rest;
      DigitPrefixStops(d[1..], rest, radix);
    }
  }

  /** A string that starts with a digit or a sign has no leading white space to skip. */
  lemma TrimStartOfUnpadded(s: string)
    requires s != [] && ('0' <= s[0] <= '9' || s[0] == '-')
    ensures TrimStart(s) == s
  {
    assert !IsJsWhitespace(s[0]);
  }

  /** Without white space or a sign in front, `parseInt` is its unsigned part. */
  lemma ParseIntOfUnsigned(s: string)
    requires TrimStart(s) == s && s != [] && s[0] != '-' && s[0] != '+'
    ensures ParseInt(s) == if ParseUnsigned(s).None? then None else Some(ParseUnsigned(s).value)
  {
    assert ParseInt(s) == ParseSigned(s);
  }

  /** A leading `-` negates the unsigned part that follows it. */
  lemma ParseIntOfNegative(s: string)
    requires TrimStart(s) == s && s != [] && s[0] == '-'
    ensures ParseInt(s) == if ParseUnsigned(s[1..]).None? then None else Some(0 - ParseUnsigned(s[1..]).value)
  {
    var m := ParseUnsigned(s[1..]);
    var negated: Option<int> := if m.None? then None else Some(0 - m.value as int);
    assert ParseSigned(s) == negated;
    assert ParseInt(s) == ParseSigned(s);
  }

  /** Without a `0x` prefix, the unsigned part is read in base 10. */
  lemma ParseUnsignedDecimal(u: string)
    requires !(|u| >= 2 && u[0] == '0' && (u[1] == 'x' || u[1] == 'X'))
    ensures ParseUnsigned(u) == if DigitPrefix(u, 10) == [] then None else Some(DigitsValue(DigitPrefix(u, 10), 10))
  {
  }

  /**
   * `parseInt` reads a decimal numeral up to the first character that is not a digit (and,
   * after a lone `0`, not the `x` of a hexadecimal prefix): `parseInt('57abc')` is 57.
   */
  lemma ParseIntStopsAtNonDigit(n: nat, rest: string)
    requires rest == [] || (!IsDigit(rest[0], 10) && rest[0] != 'x' && rest[0] != 'X')
    ensures ParseInt(NatToDecimal(n) + rest) == Some(n)
  {
    var d := NatToDecimal(n);
    var s := d + rest;
    assert s[0] == d[0];
    TrimStartOfUnpadded(s);
    ParseIntOfUnsigned(s);
    assert |s| >= 2 ==> s[1] != 'x' && s[1] != 'X' by {
      if |d| >= 2 { assert s[1] == d[1]; } else if |s| >= 2 { assert s[1] == rest[0]; }
    }
    ParseUnsignedDecimal(s);
    DecimalValue(n);
    DigitPrefixStops(d, rest, 10);
  }

  /**
   * `parseInt(String(n)) === n` for every integral `n`: the convention by which a
   * custom network's key is its chain ID written in decimal.
   */
  lemma ParseIntOfNumberToString(n: int)
    ensures ParseInt(NumberToString(n)) == Some(n)
  {
    var m: nat := if n < 0 then -n else n;
    var d := NatToDecimal(m);
    ParseIntStopsAtNonDigit(m, []);
    assert d + [] == d;
    if n < 0 {
      var s := NumberToString(n);
      assert s == "-" + d && s[0] == '-' && s[1..] == d;
      TrimStartOfUnpadded(s);
      ParseIntOfNegative(s);
      assert d[0] != '-' && d[0] != '+';
      TrimStartOfUnpadded(d);
      ParseIntOfUnsigned(d);
    }
  }

  /** With a `0x` prefix, the hexadecimal digits that follow are read in base 16. */
  lemma ParseIntReadsHex(d: string)
    requires d != [] && forall i :: 0 <= i < |d| ==> IsDigit(d[i], 16)
    ensures ParseInt("0x" + d) == Some(DigitsValue(d, 16))
  {
    var s := "0x" + d;
    assert s[0] == '0' && s[1] == 'x' && s[2..] == d;
    TrimStartOfUnpadded(s);
    ParseIntOfUnsigned(s);
    DigitPrefixOfDigits(d, 16);
  }

  /** The hexadecimal digits `39` are worth 57. */
  lemma HexValueOfSyscoin(d: string)
    requires d == "39"
    ensures forall i :: 0 <= i < |d| ==> IsDigit(d[i], 16)
    ensures DigitsValue(d, 16) == 57
  {
    assert d[..1] == "3" && "3"[..0] == [];
  }

  /** `parseInt('0x39')` is 57, the Syscoin chain ID. */
  lemma ParseIntOfHexSyscoin(d: string)
    requires d == "39"
    ensures ParseInt("0x" + d) == Some(57)
  {
    HexValueOfSyscoin(d);
    ParseIntReadsHex(d);
  }
}
