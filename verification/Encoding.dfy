/** Bytes, UTF-8, hexadecimal and decimal text. */
module Encoding {
  import opened Wrappers
  import opened Text

  type Byte = b: int | 0 <= b < 256

  // ----- UTF-8 -----

  function Utf8Char(c: char): (r: seq<Byte>)
    ensures |r| >= 1
    ensures c as int < 128 ==> r == [c as int]
    ensures c as int >= 128 ==> forall i :: 0 <= i < |r| ==> r[i] >= 128
  {
    var n := c as int;
    if n < 0x80 then [n]
    else if n < 0x800 then [0xC0 + n / 0x40, 0x80 + n % 0x40]
    else if n < 0x10000 then [0xE0 + n / 0x1000, 0x80 + n / 0x40 % 0x40, 0x80 + n % 0x40]
    else [0xF0 + n / 0x40000, 0x80 + n / 0x1000 % 0x40, 0x80 + n / 0x40 % 0x40, 0x80 + n % 0x40]
  }

  function Utf8(s: string): seq<Byte> {
    if s == [] then [] else Utf8Char(s[0]) + Utf8(s[1..])
  }

  /** The low bits of a continuation byte. */
  function Continued(b: Byte): Option<int> {
    if 0x80 <= b < 0xC0 then Some(b - 0x80) else None
  }

  function CharOf(n: int): Option<char> {
    if 0 <= n < 0xD800 || 0xE000 <= n < 0x110000 then Some(n as char) else None
  }

  /** The first character and how many bytes spell it, by section 3 of RFC 3629: shortest forms only, no surrogates. */
  function FirstChar(bytes: seq<Byte>): (r: Option<(char, nat)>)
    requires bytes != []
    ensures r.Some? ==> 1 <= r.value.1 <= |bytes|
  {
    var b := bytes[0];
    var more := if b < 0x80 then 0 else if 0xC2 <= b < 0xE0 then 1 else if 0xE0 <= b < 0xF0 then 2
                else if 0xF0 <= b < 0xF5 then 3 else 4;
    if more == 4 || |bytes| <= more then None
    else if more == 0 then Some((b as char, 1))
    else
      match Continued(bytes[1])
      case None => None
      case Some(x) =>
        if more == 1 then Some((((b - 0xC0) * 0x40 + x) as char, 2))
        else
          match Continued(bytes[2])
          case None => None
          case Some(y) =>
            if more == 2 then
              var n := (b - 0xE0) * 0x1000 + x * 0x40 + y;
              if n < 0x800 then None else match CharOf(n) case Some(c) => Some((c, 3)) case None => None
            else
              match Continued(bytes[3])
              case None => None
              case Some(z) =>
                var n := (b - 0xF0) * 0x40000 + x * 0x1000 + y * 0x40 + z;
                if n < 0x10000 then None else match CharOf(n) case Some(c) => Some((c, 4)) case None => None
  }

  /** The text some bytes spell, or None when they are not UTF-8. */
  function ReadUtf8(bytes: seq<Byte>): Option<string>
    decreases |bytes|
  {
    if bytes == [] then Some("")
    else
      match FirstChar(bytes)
      case None => None
      case Some((c, n)) => match ReadUtf8(bytes[n..]) case Some(rest) => Some([c] + rest) case None => None
  }

  lemma TwoBytes(c: char, rest: seq<Byte>)
    requires 0x80 <= c as int < 0x800
    ensures FirstChar(Utf8Char(c) + rest) == Some((c, 2))
  {
  }

  lemma ThreeBytes(c: char, rest: seq<Byte>)
    requires 0x800 <= c as int < 0x10000
    ensures FirstChar(Utf8Char(c) + rest) == Some((c, 3))
  {
    var n := c as int;
    assert n / 0x1000 * 0x1000 + n / 0x40 % 0x40 * 0x40 + n % 0x40 == n;
  }

  lemma FourBytes(c: char, rest: seq<Byte>)
    requires 0x10000 <= c as int
    ensures FirstChar(Utf8Char(c) + rest) == Some((c, 4))
  {
    var n := c as int;
    assert n / 0x40000 * 0x40000 + n / 0x1000 % 0x40 * 0x1000 + n / 0x40 % 0x40 * 0x40 + n % 0x40 == n;
  }

  lemma FirstCharOf(c: char, rest: seq<Byte>)
    ensures FirstChar(Utf8Char(c) + rest) == Some((c, |Utf8Char(c)|))
  {
    var n := c as int;
    if 0x80 <= n < 0x800 {
      TwoBytes(c, rest);
    } else if 0x800 <= n < 0x10000 {
      ThreeBytes(c, rest);
    } else if n >= 0x10000 {
      FourBytes(c, rest);
    }
  }

  /** Every text is the text its bytes spell. */
  lemma {:induction false} ReadUtf8Text(text: string)
    ensures ReadUtf8(Utf8(text)) == Some(text)
  {
    if text != [] {
      hide FirstChar, Utf8Char;
      var rest := Utf8(text[1..]);
      FirstCharOf(text[0], rest);
      assert (Utf8Char(text[0]) + rest)[|Utf8Char(text[0])|..] == rest;
      ReadUtf8Text(text[1..]);
      assert [text[0]] + text[1..] == text;
    }
  }

  // ----- Hexadecimal -----

  function HexDigit(n: int): char
    requires 0 <= n < 16
  {
    "0123456789abcdef"[n]
  }

  function HexValue(c: char): Option<int> {
    if '0' <= c <= '9' then Some(c as int - '0' as int)
    else if 'a' <= c <= 'f' then Some(c as int - 'a' as int + 10)
    else if 'A' <= c <= 'F' then Some(c as int - 'A' as int + 10)
    else None
  }

  function HexOf(bytes: seq<Byte>): string {
    if bytes == [] then [] else [HexDigit(bytes[0] / 16), HexDigit(bytes[0] % 16)] + HexOf(bytes[1..])
  }

  /** The server's reading of hex text: two digits a byte, anything else is not hex text. */
  function UnHex(text: string): Option<seq<Byte>> {
    if text == [] then Some([])
    else if |text| == 1 then None
    else
      match (HexValue(text[0]), HexValue(text[1]), UnHex(text[2..]))
      case (Some(hi), Some(lo), Some(rest)) => Some([16 * hi + lo] + rest)
      case _ => None
  }

  lemma {:induction false} HexIsLower(bytes: seq<Byte>)
    ensures forall i :: 0 <= i < |HexOf(bytes)| ==> IsDigit(HexOf(bytes)[i]) || 'a' <= HexOf(bytes)[i] <= 'f'
  {
    if bytes != [] {
      HexIsLower(bytes[1..]);
    }
  }

  method ToHex(bytes: seq<Byte>) returns (out: string)
    ensures out == HexOf(bytes)
    ensures UnHex(out) == Some(bytes)
    ensures forall i :: 0 <= i < |out| ==> IsDigit(out[i]) || 'a' <= out[i] <= 'f'
  {
    out := "";
    for i := 0 to |bytes|
      invariant out + HexOf(bytes[i..]) == HexOf(bytes)
    {
      out := out + [HexDigit(bytes[i] / 16), HexDigit(bytes[i] % 16)];
      assert bytes[i..][1..] == bytes[i + 1..];
    }
    assert out + [] == out;
    UnHexHex(bytes);
    HexIsLower(bytes);
  }

  lemma HexDigitValue(n: int)
    requires 0 <= n < 16
    ensures HexValue(HexDigit(n)) == Some(n)
  {
  }

  lemma UnHexByte(b: Byte, text: string)
    ensures UnHex([HexDigit(b / 16), HexDigit(b % 16)] + text) ==
            if UnHex(text).Some? then Some([b] + UnHex(text).value) else None
  {
    var full := [HexDigit(b / 16), HexDigit(b % 16)] + text;
    HexDigitValue(b / 16);
    HexDigitValue(b % 16);
    assert full[2..] == text;
    assert 16 * (b / 16) + b % 16 == b;
  }

  lemma {:induction false} UnHexHex(bytes: seq<Byte>)
    ensures UnHex(HexOf(bytes)) == Some(bytes)
  {
    if bytes != [] {
      UnHexHex(bytes[1..]);
      UnHexByte(bytes[0], HexOf(bytes[1..]));
      assert [bytes[0]] + bytes[1..] == bytes;
    }
  }

  // ----- Decimal -----

  predicate IsDigit(c: char) {
    '0' <= c <= '9'
  }

  predicate AllDigits(s: string) {
    forall i :: 0 <= i < |s| ==> IsDigit(s[i])
  }

  function DigitChar(n: int): (c: char)
    requires 0 <= n < 10
    ensures IsDigit(c) && c as int - '0' as int == n
  {
    "0123456789"[n]
  }

  function Decimal(n: nat): (s: string)
    ensures s != [] && AllDigits(s)
  {
    if n < 10 then [DigitChar(n)] else Decimal(n / 10) + [DigitChar(n % 10)]
  }

  /** The number a run of digits stands for. */
  function DigitsValue(s: string): nat
    requires AllDigits(s)
  {
    if s == [] then 0 else 10 * DigitsValue(Init(s)) + (Last(s) as int - '0' as int)
  }

  lemma {:induction false} DecimalValue(n: nat)
    ensures DigitsValue(Decimal(n)) == n
  {
    if n >= 10 {
      DecimalValue(n / 10);
      assert Init(Decimal(n)) == Decimal(n / 10);
    } else {
      assert Init(Decimal(n)) == "";
    }
  }

  lemma DecimalInjective(m: nat, n: nat)
    requires Decimal(m) == Decimal(n)
    ensures m == n
  {
    DecimalValue(m);
    DecimalValue(n);
  }

  const U64_MAX: nat := 0xFFFF_FFFF_FFFF_FFFF
  const I64_MIN: int := -0x8000_0000_0000_0000
  const I64_MAX: int := 0x7FFF_FFFF_FFFF_FFFF

  /** Reading an unsigned 64-bit number: digits, with a plus sign allowed in front. */
  function ParseU64(s: string): (r: Option<nat>)
    ensures r.Some? ==> r.value <= U64_MAX
  {
    var digits := if s != [] && s[0] == '+' then s[1..] else s;
    if digits != [] && AllDigits(digits) && DigitsValue(digits) <= U64_MAX then Some(DigitsValue(digits)) else None
  }

  lemma ParseDecimal(n: nat)
    requires n <= U64_MAX
    ensures ParseU64(Decimal(n)) == Some(n)
  {
    DecimalValue(n);
    assert IsDigit(Decimal(n)[0]);
  }
}
