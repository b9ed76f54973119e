/**
 * Byte-level building blocks shared by every decoder: the byte type, Python's
 * `int.from_bytes` in both byte orders, the `format` renderings the decoders
 * use (`{:02x}`, `{:08b}`, decimal) and ASCII decoding with `errors='ignore'`.
 */
module Bytes {

  /** One byte of the input stream. */
  type Byte = b: int | 0 <= b < 256

  function Pow256(n: nat): (r: nat)
    ensures r >= 1
  {
    if n == 0 then 1 else 256 * Pow256(n - 1)
  }

  /** `int.from_bytes(s, byteorder='big')`; the empty sequence gives 0. */
  function BE(s: seq<Byte>): (r: nat)
    ensures r < Pow256(|s|)
  {
    if s == [] then 0 else BE(s[..|s| - 1]) * 256 + s[|s| - 1]
  }

  /** `int.from_bytes(s, byteorder='little')`; the empty sequence gives 0. */
  function LE(s: seq<Byte>): (r: nat)
    ensures r < Pow256(|s|)
  {
    if s == [] then 0 else s[0] + 256 * LE(s[1..])
  }

  /** `int.from_bytes(s, byteorder='big', signed=True)`: two's complement. */
  function BESigned(s: seq<Byte>): (r: int)
    ensures s != [] && s[0] < 128 ==> r == BE(s)
    ensures s != [] && s[0] >= 128 ==> r < 0
  {
    if s == [] then 0
    else if s[0] >= 128 then BE(s) - Pow256(|s|)
    else BE(s)
  }

  /** `x & (1 << k) != 0` for a non-negative integer x. */
  function Bit(x: nat, k: nat): bool
  {
    if k == 0 then x % 2 == 1 else Bit(x / 2, k - 1)
  }

  lemma {:induction false} BitLowUnaffected(a: nat, hi: nat, k: nat, m: nat)
    requires k < m
    ensures Bit(a + Pow2(m) * hi, k) == Bit(a, k)
  {
    var h := Pow2(m - 1) * hi;
    assert Pow2(m) * hi == 2 * h by {
      assert Pow2(m) == 2 * Pow2(m - 1);
    }
    if k > 0 {
      assert (a + 2 * h) / 2 == a / 2 + h;
      BitLowUnaffected(a / 2, hi, k - 1, m - 1);
    }
  }

  lemma BitAbove8(x: nat, k: nat)
    ensures Bit(x, k + 8) == Bit(x / 256, k)
  {
    var x1, x2, x3, x4 := x / 2, x / 4, x / 8, x / 16;
    var x5, x6, x7 := x / 32, x / 64, x / 128;
    assert Bit(x, k + 8) == Bit(x1, k + 7);
    assert x1 / 2 == x2 && Bit(x1, k + 7) == Bit(x2, k + 6);
    assert x2 / 2 == x3 && Bit(x2, k + 6) == Bit(x3, k + 5);
    assert x3 / 2 == x4 && Bit(x3, k + 5) == Bit(x4, k + 4);
    assert x4 / 2 == x5 && Bit(x4, k + 4) == Bit(x5, k + 3);
    assert x5 / 2 == x6 && Bit(x5, k + 3) == Bit(x6, k + 2);
    assert x6 / 2 == x7 && Bit(x6, k + 2) == Bit(x7, k + 1);
    assert x7 / 2 == x / 256 && Bit(x7, k + 1) == Bit(x / 256, k);
  }

  function Pow2(n: nat): (r: nat)
    ensures r >= 1
  {
    if n == 0 then 1 else 2 * Pow2(n - 1)
  }

  /**
   * Bit k of the little-endian integer of d is bit (k mod 8) of byte d[k div 8]:
   * testing a flag in the decoded integer and in the raw bytes agree.
   */
  lemma {:induction false} LEBit(d: seq<Byte>, k: nat)
    requires k < 8 * |d|
    ensures Bit(LE(d), k) == Bit(d[k / 8], k % 8)
  {
    if k < 8 {
      assert Pow2(8) == 256;
      BitLowUnaffected(d[0], LE(d[1..]), k, 8);
    } else {
      BitAbove8(LE(d), k - 8);
      assert LE(d) / 256 == LE(d[1..]);
      LEBit(d[1..], k - 8);
      assert d[1..][(k - 8) / 8] == d[k / 8];
    }
  }

  /** The lower-case hexadecimal digit of d. */
  function HexDigit(d: nat): (c: char)
    requires d < 16
  {
    "0123456789abcdef"[d]
  }

  /**
   * `format(n, '0<width>x')` for n below 16^width. Larger values keep only
   * their low `width` digits here, whereas Python prints them all; no caller
   * passes one.
   */
  function Hex(n: nat, width: nat): (s: string)
    ensures |s| == width
  {
    if width == 0 then "" else Hex(n / 16, width - 1) + [HexDigit(n % 16)]
  }

  /** `f'{b:02x}'`. */
  function Hex2(b: Byte): (s: string)
    ensures |s| == 2
  {
    Hex(b, 2)
  }

  /** The value of a lower-case hexadecimal digit, the inverse of HexDigit. */
  function HexValue(c: char): (d: nat)
    ensures d < 16
  {
    if '0' <= c <= '9' then (c - '0') as nat
    else if 'a' <= c <= 'f' then (c - 'a') as nat + 10
    else 0
  }

  lemma HexDigitInverse(d: nat)
    requires d < 16
    ensures HexValue(HexDigit(d)) == d
  {
  }

  /** Two lower-case hex digits back to the byte they render. */
  function ParseHex2(s: string): (b: Byte)
    requires |s| == 2
  {
    HexValue(s[0]) * 16 + HexValue(s[1])
  }

  lemma Hex2Digits(b: Byte)
    ensures Hex2(b) == [HexDigit(b / 16 % 16), HexDigit(b % 16)]
  {
    assert Hex(b / 16, 1) == Hex(b / 16 / 16, 0) + [HexDigit(b / 16 % 16)];
  }

  lemma Hex2Inverse(b: Byte)
    ensures ParseHex2(Hex2(b)) == b
  {
    Hex2Digits(b);
    HexDigitInverse(b % 16);
    HexDigitInverse(b / 16 % 16);
  }

  /** Rendering 2 more hex digits splits off the low byte. */
  lemma HexSplitByte(n: nat, width: nat)
    ensures Hex(n, width + 2) == Hex(n / 256, width) + Hex2(n % 256)
  {
    assert n / 16 / 16 == n / 256;
    assert Hex(n / 16, width + 1) == Hex(n / 256, width) + [HexDigit(n / 16 % 16)];
    assert (n % 256) / 16 % 16 == n / 16 % 16 && n % 256 % 16 == n % 16;
    Hex2Digits(n % 256);
  }

  /** `format(b, '08b')`: eight binary digits, most significant first. */
  function Binary(n: nat, width: nat): (s: string)
    ensures |s| == width
  {
    if width == 0 then "" else Binary(n / 2, width - 1) + [if n % 2 == 1 then '1' else '0']
  }

  /** The value of a string of binary digits, the inverse of Binary. */
  function BinaryValue(s: string): (n: nat)
  {
    if s == [] then 0 else 2 * BinaryValue(s[..|s| - 1]) + (if s[|s| - 1] == '1' then 1 else 0)
  }

  lemma {:induction false} BinaryInverse(n: nat, width: nat)
    requires n < Pow2(width)
    ensures BinaryValue(Binary(n, width)) == n
  {
    if width > 0 {
      BinaryInverse(n / 2, width - 1);
      assert Binary(n, width)[..width - 1] == Binary(n / 2, width - 1);
    }
  }

  /** Character width-1-k of Binary(n, width) is '1' exactly when bit k of n is set. */
  lemma {:induction false} BinaryDigit(n: nat, width: nat, k: nat)
    requires k < width
    ensures (Binary(n, width)[width - 1 - k] == '1') == Bit(n, k)
  {
    if k > 0 {
      BinaryDigit(n / 2, width - 1, k - 1);
    }
  }

  function DecimalDigit(d: nat): (c: char)
    requires d < 10
  {
    "0123456789"[d]
  }

  /** `str(n)` for a non-negative integer. */
  function NatToString(n: nat): (s: string)
    ensures |s| >= 1
  {
    if n < 10 then [DecimalDigit(n)] else NatToString(n / 10) + [DecimalDigit(n % 10)]
  }

  /** `str(n)` for any integer. */
  function IntToString(n: int): (s: string)
  {
    if n < 0 then "-" + NatToString(-n) else NatToString(n)
  }

  /** `bytes.decode('ascii', errors='ignore')`: bytes above 127 are dropped. */
  function AsciiIgnore(s: seq<Byte>): (r: string)
    ensures |r| <= |s|
    ensures (forall i :: 0 <= i < |s| ==> s[i] < 128) ==> |r| == |s|
  {
    if s == [] then ""
    else (if s[0] < 128 then [s[0] as char] else []) + AsciiIgnore(s[1..])
  }

  /** One byte as Python's `repr` of a bytes object writes it, given the quote in use. */
  function ReprByte(b: Byte, quote: Byte): (s: string)
    ensures |s| >= 1
  {
    if b == quote || b == 0x5C then ['\\', b as char]
    else if b == 0x09 then "\\t"
    else if b == 0x0A then "\\n"
    else if b == 0x0D then "\\r"
    else if b < 0x20 || b >= 0x7F then "\\x" + Hex2(b)
    else [b as char]
  }

  function ReprBody(s: seq<Byte>, quote: Byte): string
  {
    if s == [] then "" else ReprByte(s[0], quote) + ReprBody(s[1..], quote)
  }

  /** `str(b)` of a bytes object: `b'...'`, or `b"..."` when only the single quote occurs. */
  function BytesRepr(s: seq<Byte>): (r: string)
    ensures |r| >= 3 && r[0] == 'b'
    ensures (r[1] == '\'' || r[1] == '"') && r[|r| - 1] == r[1]
    ensures r[1] == '"' <==> 0x27 in s && 0x22 !in s
  {
    var quote: Byte := if 0x27 in s && 0x22 !in s then 0x22 else 0x27;
    "b" + [quote as char] + ReprBody(s, quote) + [quote as char]
  }
}
