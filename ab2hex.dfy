/** utils/ab2hex.js: a byte buffer as a lower-case hexadecimal string. */
module Ab2Hex {
  import opened ByteCodec

  const HexDigits: string := "0123456789abcdef"

  function HexDigit(n: nat): char
    requires n < 16
  {
    HexDigits[n]
  }

  /** Number.prototype.toString(16) on a non-negative integer: no leading zeros. */
  function ToRadix16(n: nat): (r: string)
    ensures |r| >= 1
  {
    if n < 16 then [HexDigit(n)] else ToRadix16(n / 16) + [HexDigit(n % 16)]
  }

  /** `('00' + bit.toString(16)).slice(-2)` */
  function ByteToHex(b: Byte): string {
    var t := "00" + ToRadix16(b);
    t[|t| - 2..]
  }

  /** `hexArr.join('')` over the mapped bytes. */
  function Ab2hex(buffer: seq<Byte>): (r: string)
    ensures |r| == 2 * |buffer|
  {
    if buffer == [] then "" else ByteToHex(buffer[0]) + Ab2hex(buffer[1..])
  }

  /** Each byte becomes exactly two lower-case digits, the high nibble first and zero-padded. */
  lemma ByteToHexDigits(b: Byte)
    ensures ByteToHex(b) == [HexDigit(b / 16), HexDigit(b % 16)]
  {
    if b >= 16 {
      assert ToRadix16(b) == [HexDigit(b / 16), HexDigit(b % 16)];
    }
  }

  /** Byte `i` of the input is the pair of characters at `2i`, in order, with no separator. */
  lemma {:induction false} Ab2hexAt(buffer: seq<Byte>, i: nat)
    requires i < |buffer|
    ensures Ab2hex(buffer)[2 * i..2 * i + 2] == [HexDigit(buffer[i] / 16), HexDigit(buffer[i] % 16)]
  {
    Ab2hexCons(buffer);
    if i > 0 {
      var rest := Ab2hex(buffer[1..]);
      Ab2hexAt(buffer[1..], i - 1);
      assert Ab2hex(buffer)[2 * i..2 * i + 2] == rest[2 * (i - 1)..2 * (i - 1) + 2];
    }
  }

  /** The character at `k` is one of the digits of byte `k / 2`. */
  lemma CharAt(buffer: seq<Byte>, k: nat)
    requires k < |Ab2hex(buffer)|
    ensures Ab2hex(buffer)[k] in HexDigits
  {
    var i := k / 2;
    var pair := Ab2hex(buffer)[2 * i..2 * i + 2];
    Ab2hexAt(buffer, i);
    assert Ab2hex(buffer)[k] == pair[k - 2 * i];
  }

  /** Every output character is a lower-case hexadecimal digit. */
  lemma Ab2hexLowerCase(buffer: seq<Byte>)
    ensures forall k :: 0 <= k < |Ab2hex(buffer)| ==> Ab2hex(buffer)[k] in HexDigits
  {
    forall k | 0 <= k < |Ab2hex(buffer)| ensures Ab2hex(buffer)[k] in HexDigits {
      CharAt(buffer, k);
    }
  }

  /** Value of a lower-case hexadecimal digit. */
  function HexValue(c: char): (n: nat)
    ensures n < 16
  {
    if '0' <= c <= '9' then c as int - '0' as int
    else if 'a' <= c <= 'f' then c as int - 'a' as int + 10
    else 0
  }

  /** The byte two hexadecimal digits stand for, the high one first. */
  function PairValue(high: char, low: char): Byte {
    HexValue(high) * 16 + HexValue(low)
  }

  /** Reads the string back two characters at a time. */
  function HexToBytes(s: string): (r: seq<Byte>)
    requires |s| % 2 == 0
    ensures |r| == |s| / 2
  {
    if s == [] then [] else [PairValue(s[0], s[1])] + HexToBytes(s[2..])
  }

  /** Each digit reads back as its own value. */
  lemma HexDigitValue(n: nat)
    requires n < 16
    ensures HexValue(HexDigit(n)) == n
  {
  }

  /** A byte's two digits read back as the byte. */
  lemma ByteRoundTrip(b: Byte)
    ensures PairValue(HexDigit(b / 16), HexDigit(b % 16)) == b
  {
    HexDigitValue(b / 16);
    HexDigitValue(b % 16);
  }

  /** The first byte's two digits come first. */
  lemma Ab2hexCons(buffer: seq<Byte>)
    requires buffer != []
    ensures Ab2hex(buffer) == [HexDigit(buffer[0] / 16), HexDigit(buffer[0] % 16)] + Ab2hex(buffer[1..])
  {
    ByteToHexDigits(buffer[0]);
  }

  /** Reading back takes the first two characters as one byte. */
  lemma HexToBytesCons(c0: char, c1: char, rest: string)
    requires |rest| % 2 == 0
    ensures HexToBytes([c0, c1] + rest) == [PairValue(c0, c1)] + HexToBytes(rest)
  {
    var s := [c0, c1] + rest;
    assert s[0] == c0 && s[1] == c1;
    assert s[2..] == rest;
  }

  /** Decoding each pair of characters as hexadecimal recovers the original bytes. */
  lemma {:induction false} Ab2hexRoundTrip(buffer: seq<Byte>)
    ensures HexToBytes(Ab2hex(buffer)) == buffer
  {
    if buffer != [] {
      var b := buffer[0];
      Ab2hexCons(buffer);
      HexToBytesCons(HexDigit(b / 16), HexDigit(b % 16), Ab2hex(buffer[1..]));
      Ab2hexRoundTrip(buffer[1..]);
      ByteRoundTrip(b);
      assert buffer == [b] + buffer[1..];
    }
  }

  /** The empty buffer gives the empty string. */
  lemma Ab2hexEmpty()
    ensures Ab2hex([]) == ""
  {
  }
}
