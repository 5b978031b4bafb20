/**
 * The JavaScript string operations the handlers rely on: `toUpperCase`,
 * `Buffer.toString('hex')`, `startsWith`, and the global `parseInt` with no
 * radix argument. A `char` of the model is a Unicode scalar value; inside the
 * Basic Multilingual Plane that is one UTF-16 code unit, which is what
 * JavaScript's `length` counts.
 */
module JsText {
  import opened Foreign

  // ---------------------------------------------------------------- case

  function UpperChar(c: char): char {
    if 'a' <= c <= 'z' then (c as int - 32) as char else c
  }

  /** String.prototype.toUpperCase, for the ASCII letters. */
  function ToUpperCase(s: string): (r: string)
    ensures |r| == |s|
    ensures forall i :: 0 <= i < |s| ==> r[i] == UpperChar(s[i])
  {
    if s == [] then [] else [UpperChar(s[0])] + ToUpperCase(s[1..])
  }

  function StartsWith(s: string, prefix: string): bool {
    |prefix| <= |s| && s[..|prefix|] == prefix
  }

  // ---------------------------------------------------------------- hex

  const LOWER_HEX := "0123456789abcdef"
  const UPPER_HEX := "0123456789ABCDEF"

  /** Buffer.toString('hex'): two lower-case digits per byte, high nibble first. */
  function HexLower(bytes: seq<byte>): (r: string)
    ensures |r| == 2 * |bytes|
  {
    if bytes == [] then []
    else [LOWER_HEX[bytes[0] as int / 16], LOWER_HEX[bytes[0] as int % 16]] + HexLower(bytes[1..])
  }

  /** The digits of HexLower written in upper case. */
  function HexUpper(bytes: seq<byte>): (r: string)
    ensures |r| == 2 * |bytes|
    ensures forall i :: 0 <= i < |r| ==> r[i] in UPPER_HEX
  {
    if bytes == [] then []
    else [UPPER_HEX[bytes[0] as int / 16], UPPER_HEX[bytes[0] as int % 16]] + HexUpper(bytes[1..])
  }

  /** Upper-casing the output of toString('hex') gives the upper-case digits. */
  lemma {:induction false} UpperOfHexLower(bytes: seq<byte>)
    ensures ToUpperCase(HexLower(bytes)) == HexUpper(bytes)
  {
    if bytes != [] {
      var hi, lo := bytes[0] as int / 16, bytes[0] as int % 16;
      var pair, upperPair := [LOWER_HEX[hi], LOWER_HEX[lo]], [UPPER_HEX[hi], UPPER_HEX[lo]];
      assert ToUpperCase(pair) == upperPair by {
        UpperOfHexDigit(hi);
        UpperOfHexDigit(lo);
      }
      assert HexLower(bytes) == pair + HexLower(bytes[1..]);
      assert HexUpper(bytes) == upperPair + HexUpper(bytes[1..]);
      ToUpperOfConcat(pair, HexLower(bytes[1..]));
      UpperOfHexLower(bytes[1..]);
    }
  }

  lemma UpperOfHexDigit(d: int)
    requires 0 <= d < 16
    ensures UpperChar(LOWER_HEX[d]) == UPPER_HEX[d]
  {
  }

  lemma ToUpperOfConcat(a: string, b: string)
    ensures ToUpperCase(a + b) == ToUpperCase(a) + ToUpperCase(b)
  {
    var l, r := ToUpperCase(a + b), ToUpperCase(a) + ToUpperCase(b);
    assert |l| == |r|;
    forall i | 0 <= i < |l| ensures l[i] == r[i] {
      if i < |a| { assert (a + b)[i] == a[i]; } else { assert (a + b)[i] == b[i - |a|]; }
    }
  }

  /** Upper-case hex digits are left alone by toUpperCase. */
  lemma {:induction false} HexUpperIsUpperCase(bytes: seq<byte>)
    ensures ToUpperCase(HexUpper(bytes)) == HexUpper(bytes)
  {
    var s := HexUpper(bytes);
    forall i | 0 <= i < |s| ensures UpperChar(s[i]) == s[i] {
      UpperOfUpperHexDigit(s[i]);
    }
  }

  lemma UpperOfUpperHexDigit(c: char)
    requires c in UPPER_HEX
    ensures UpperChar(c) == c
  {
  }

  /** Different bytes give different hex strings. */
  lemma {:induction false} HexUpperInjective(a: seq<byte>, b: seq<byte>)
    requires |a| == |b|
    requires HexUpper(a) == HexUpper(b)
    ensures a == b
  {
    if a != [] {
      var ha, hb := HexUpper(a), HexUpper(b);
      assert ha[0] == hb[0] && ha[1] == hb[1];
      DigitIndexUnique(a[0] as int / 16, b[0] as int / 16);
      DigitIndexUnique(a[0] as int % 16, b[0] as int % 16);
      assert a[0] == b[0];
      assert ha[2..] == HexUpper(a[1..]) && hb[2..] == HexUpper(b[1..]);
      HexUpperInjective(a[1..], b[1..]);
      assert a == [a[0]] + a[1..];
      assert b == [b[0]] + b[1..];
    }
  }

  lemma DigitIndexUnique(i: int, j: int)
    requires 0 <= i < 16 && 0 <= j < 16 && UPPER_HEX[i] == UPPER_HEX[j]
    ensures i == j
  {
  }

  // ---------------------------------------------------------------- parseInt

  /** The characters `parseInt` skips before the number: WhiteSpace and
      LineTerminator of ECMA-262 (the Zs category written out). */
  predicate IsJsWhitespace(c: char) {
    c == '\t' || c == '\n' || c == '\U{B}' || c == '\U{C}' || c == '\r' || c == ' '
    || c == '\U{A0}' || c == '\U{1680}' || ('\U{2000}' <= c <= '\U{200A}')
    || c == '\U{2028}' || c == '\U{2029}' || c == '\U{202F}' || c == '\U{205F}'
    || c == '\U{3000}' || c == '\U{FEFF}'
  }

  function TrimStart(s: string): (r: string)
    ensures |r| <= |s| && r == s[|s| - |r|..]
    ensures r == [] || !IsJsWhitespace(r[0])
  {
    if s != [] && IsJsWhitespace(s[0]) then TrimStart(s[1..]) else s
  }

  /** The value of `c` as a digit in base `radix` (10 or 16), if it is one. */
  function DigitValue(c: char, radix: nat): (r: Option<nat>)
    ensures r.Some? ==> r.value < radix
  {
    if '0' <= c <= '9' && (c as int - '0' as int) < radix then Some(c as int - '0' as int)
    else if radix == 16 && 'a' <= c <= 'f' then Some(c as int - 'a' as int + 10)
    else if radix == 16 && 'A' <= c <= 'F' then Some(c as int - 'A' as int + 10)
    else None
  }

  /** The longest prefix of `s` made of base-`radix` digits. */
  function DigitPrefix(s: string, radix: nat): (r: string)
    ensures |r| <= |s| && r == s[..|r|]
    ensures forall i :: 0 <= i < |r| ==> DigitValue(r[i], radix).Some?
    ensures |r| < |s| ==> DigitValue(s[|r|], radix).None?
  {
    if s != [] && DigitValue(s[0], radix).Some? then [s[0]] + DigitPrefix(s[1..], radix) else []
  }

  /** The number written by a string of digits, most significant first. */
  function DigitsValue(digits: string, radix: nat): nat
    requires forall i :: 0 <= i < |digits| ==> DigitValue(digits[i], radix).Some?
  {
    if digits == [] then 0
    else DigitsValue(digits[..|digits| - 1], radix) * radix + DigitValue(digits[|digits| - 1], radix).value
  }

  /** parseInt(s) with no radix; None stands for NaN. */
  function ParseInt(s: string): (r: Option<int>)
  {
    ParseSigned(TrimStart(s))
  }

  /** An optional sign, then the magnitude. */
  function ParseSigned(u: string): Option<int> {
    if u != [] && (u[0] == '-' || u[0] == '+') then
      match ParseMagnitude(u[1..])
      case None => None
      case Some(m) => Some(if u[0] == '-' then -(m as int) else m)
    else
      match ParseMagnitude(u)
      case None => None
      case Some(m) => Some(m)
  }

  /** A leading "0x" or "0X" switches to base 16; whatever follows the digits
      is ignored; no digit at all is NaN. */
  function ParseMagnitude(v: string): Option<nat> {
    var hex := |v| >= 2 && v[0] == '0' && (v[1] == 'x' || v[1] == 'X');
    var radix := if hex then 16 else 10;
    var digits := DigitPrefix(if hex then v[2..] else v, radix);
    if digits == [] then None else Some(DigitsValue(digits, radix))
  }

  // ---------------------------------------------------------------- decimal rendering

  function DecimalDigits(n: nat): (r: string)
    ensures |r| >= 1
    ensures forall i :: 0 <= i < |r| ==> '0' <= r[i] <= '9'
    decreases n
  {
    if n < 10 then ["0123456789"[n]] else DecimalDigits(n / 10) + ["0123456789"[n % 10]]
  }

  /** Number.prototype.toString() of an integer. */
  function DecimalString(n: int): string {
    if n < 0 then "-" + DecimalDigits(-n) else DecimalDigits(n)
  }

  lemma {:induction false} DecimalDigitsValue(n: nat)
    ensures forall i :: 0 <= i < |DecimalDigits(n)| ==> DigitValue(DecimalDigits(n)[i], 10).Some?
    ensures DigitsValue(DecimalDigits(n), 10) == n
    decreases n
  {
    var d := DecimalDigits(n);
    forall i | 0 <= i < |d| ensures DigitValue(d[i], 10).Some? {
      assert '0' <= d[i] <= '9';
    }
    if n < 10 {
      DecimalDigitOf(n);
      assert d == ["0123456789"[n]];
    } else {
      var last := "0123456789"[n % 10];
      assert d == DecimalDigits(n / 10) + [last];
      assert d[..|d| - 1] == DecimalDigits(n / 10);
      assert d[|d| - 1] == last;
      DecimalDigitOf(n % 10);
      DecimalDigitsValue(n / 10);
    }
  }

  lemma DecimalDigitOf(v: nat)
    requires v < 10
    ensures DigitValue("0123456789"[v], 10) == Some(v)
  {
  }

  lemma {:induction false} DigitPrefixOfDigits(digits: string, rest: string, radix: nat)
    requires forall i :: 0 <= i < |digits| ==> DigitValue(digits[i], radix).Some?
    requires rest == [] || DigitValue(rest[0], radix).None?
    ensures DigitPrefix(digits + rest, radix) == digits
  {
    if digits != [] {
      assert (digits + rest)[0] == digits[0];
      assert (digits + rest)[1..] == digits[1..] + rest;
      DigitPrefixOfDigits(digits[1..], rest, radix);
      assert digits == [digits[0]] + digits[1..];
    } else {
      assert digits + rest == rest;
    }
  }

  /** A magnitude written in decimal, without leading zeros, followed by text
      that does not continue it, reads back as itself. */
  lemma {:induction false} MagnitudeOfDecimal(m: nat, rest: string)
    requires rest == [] || !('0' <= rest[0] <= '9')
    requires m == 0 && rest != [] ==> rest[0] != 'x' && rest[0] != 'X'
    ensures ParseMagnitude(DecimalDigits(m) + rest) == Some(m)
  {
    var digits := DecimalDigits(m);
    var v := digits + rest;
    DecimalDigitsValue(m);
    assert rest == [] || DigitValue(rest[0], 10).None?;
    DigitPrefixOfDigits(digits, rest, 10);
    assert v[0] == digits[0];
    if m >= 10 {
      LeadingDigitNonZero(m);
    } else {
      assert |digits| == 1;
      assert rest != [] ==> v[1] == rest[0];
    }
    assert !(|v| >= 2 && v[0] == '0' && (v[1] == 'x' || v[1] == 'X'));
  }

  /**
   * parseInt reads back the decimal rendering of every non-negative integer,
   * after any run of whitespace and before any text that does not continue
   * the number: parseInt("  12abc") is 12.
   */
  lemma {:induction false} ParseIntOfDecimal(ws: string, n: nat, rest: string)
    requires forall i :: 0 <= i < |ws| ==> IsJsWhitespace(ws[i])
    requires rest == [] || !('0' <= rest[0] <= '9')
    requires n == 0 && rest != [] ==> rest[0] != 'x' && rest[0] != 'X'
    ensures ParseInt(ws + DecimalString(n) + rest) == Some(n)
  {
    var body := DecimalString(n) + rest;
    Reassociate(ws, DecimalString(n), rest);
    assert ParseSigned(body) == Some(n) by { NonNegativeOfDecimal(n, rest); }
    assert TrimStart(ws + body) == body by {
      DecimalStartsWithDigit(n, rest);
      TrimStartOfWhitespace(ws, body);
    }
  }

  /** The decimal rendering of a non-negative integer, alone, is non-empty and reads back as itself. */
  lemma ParseDecimal(n: nat)
    ensures DecimalString(n) != ""
    ensures ParseInt(DecimalString(n)) == Some(n)
  {
    DecimalStartsWithDigit(n, []);
    ParseIntOfDecimal([], n, []);
    Unpadded(DecimalString(n));
  }

  lemma Reassociate(a: string, b: string, c: string)
    ensures a + b + c == a + (b + c)
  {
  }

  lemma Unpadded(s: string)
    ensures [] + s + [] == s
  {
  }

  lemma DecimalStartsWithDigit(n: nat, rest: string)
    ensures |DecimalString(n) + rest| >= 1
    ensures '0' <= (DecimalString(n) + rest)[0] <= '9'
  {
    assert (DecimalString(n) + rest)[0] == DecimalDigits(n)[0];
  }

  lemma {:induction false} NonNegativeOfDecimal(n: nat, rest: string)
    requires rest == [] || !('0' <= rest[0] <= '9')
    requires n == 0 && rest != [] ==> rest[0] != 'x' && rest[0] != 'X'
    ensures ParseSigned(DecimalString(n) + rest) == Some(n)
  {
    var unsigned := DecimalDigits(n) + rest;
    MagnitudeOfDecimal(n, rest);
    assert unsigned[0] == DecimalDigits(n)[0];
    assert '0' <= unsigned[0] <= '9';
    assert DecimalString(n) + rest == unsigned;
  }

  lemma {:induction false} LeadingDigitNonZero(n: nat)
    requires n >= 1
    ensures DecimalDigits(n)[0] != '0'
    decreases n
  {
    if n >= 10 { LeadingDigitNonZero(n / 10); }
  }

  lemma {:induction false} TrimStartOfWhitespace(ws: string, s: string)
    requires forall i :: 0 <= i < |ws| ==> IsJsWhitespace(ws[i])
    requires s == [] || !IsJsWhitespace(s[0])
    ensures TrimStart(ws + s) == s
  {
    if ws != [] {
      assert (ws + s)[0] == ws[0];
      assert (ws + s)[1..] == ws[1..] + s;
      TrimStartOfWhitespace(ws[1..], s);
    }
  }
}
