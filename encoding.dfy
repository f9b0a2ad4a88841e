/**
 * The two text conversions around password hashing: `String.toByteArray()`
 * (UTF-8) on the way into the digest, and `joinToString("") { "%02x".format(it) }`
 * (two lower-case hex digits per byte) on the way out.
 */
module Encoding {
  /** A byte as `%02x` sees it: Java's signed byte is formatted as its unsigned value. */
  type byte = x: int | 0 <= x < 256

  /** The UTF-8 encoding of one Unicode scalar value. */
  function EncodeChar(c: char): (b: seq<byte>)
    ensures 1 <= |b| <= 4
  {
    var n := c as int;
    if n < 0x80 then [n]
    else if n < 0x800 then [0xC0 + n / 64, 0x80 + n % 64]
    else if n < 0x10000 then [0xE0 + n / 4096, 0x80 + (n / 64) % 64, 0x80 + n % 64]
    else [0xF0 + n / 262144, 0x80 + (n / 4096) % 64, 0x80 + (n / 64) % 64, 0x80 + n % 64]
  }

  /** `String.toByteArray()`: UTF-8, character by character. */
  function Utf8(s: string): (b: seq<byte>)
    ensures |s| <= |b| <= 4 * |s|
  {
    if s == [] then [] else EncodeChar(s[0]) + Utf8(s[1..])
  }

  /** The length of the sequence a UTF-8 lead byte starts. */
  function SequenceLength(lead: byte): nat
  {
    if lead < 0x80 then 1 else if lead < 0xE0 then 2 else if lead < 0xF0 then 3 else 4
  }

  /** Reads code points back from UTF-8 bytes (stopping at a truncated sequence). */
  function DecodeCodePoints(b: seq<byte>): seq<int>
    decreases |b|
  {
    if b == [] then []
    else
      var len := SequenceLength(b[0]);
      if len > |b| then []
      else
        var v: int :=
          if len == 1 then b[0] as int
          else if len == 2 then (b[0] as int - 0xC0) * 64 + (b[1] as int - 0x80)
          else if len == 3 then (b[0] as int - 0xE0) * 4096 + (b[1] as int - 0x80) * 64 + (b[2] as int - 0x80)
          else (b[0] as int - 0xF0) * 262144 + (b[1] as int - 0x80) * 4096 + (b[2] as int - 0x80) * 64 + (b[3] as int - 0x80);
        [v] + DecodeCodePoints(b[len..])
  }

  function CodePoints(s: string): seq<int>
  {
    seq(|s|, i requires 0 <= i < |s| => s[i] as int)
  }

  lemma DecodeOneChar(c: char, rest: seq<byte>)
    ensures DecodeCodePoints(EncodeChar(c) + rest) == [c as int] + DecodeCodePoints(rest)
  {
    var e := EncodeChar(c);
    var n := c as int;
    assert (e + rest)[..|e|] == e && (e + rest)[|e|..] == rest;
    if n >= 0x800 {
      assert n / 4096 == (n / 64) / 64;
      assert n == (n / 64) * 64 + n % 64;
      assert n / 64 == (n / 4096) * 64 + (n / 64) % 64;
      if n >= 0x10000 {
        assert n / 262144 == (n / 4096) / 64;
        assert n / 4096 == (n / 262144) * 64 + (n / 4096) % 64;
      }
    }
  }

  /** UTF-8 decoding undoes `toByteArray()`. */
  lemma {:induction false} DecodeUtf8(s: string)
    ensures DecodeCodePoints(Utf8(s)) == CodePoints(s)
  {
    if s != [] {
      DecodeOneChar(s[0], Utf8(s[1..]));
      DecodeUtf8(s[1..]);
      assert CodePoints(s) == [s[0] as int] + CodePoints(s[1..]);
    }
  }

  /** Distinct strings of Unicode scalar values have distinct UTF-8 encodings. */
  lemma Utf8Injective(s: string, t: string)
    ensures Utf8(s) == Utf8(t) <==> s == t
  {
    if Utf8(s) == Utf8(t) {
      DecodeUtf8(s);
      DecodeUtf8(t);
      assert |CodePoints(s)| == |s| && |CodePoints(t)| == |t|;
      forall i | 0 <= i < |s|
        ensures s[i] == t[i]
      {
        assert CodePoints(s)[i] == CodePoints(t)[i];
      }
    }
  }

  /** Text of ASCII characters encodes to one byte per character. */
  lemma {:induction false} Utf8Ascii(s: string)
    requires forall i :: 0 <= i < |s| ==> s[i] as int < 0x80
    ensures Utf8(s) == CodePoints(s)
  {
    if s != [] {
      Utf8Ascii(s[1..]);
      assert CodePoints(s) == [s[0] as int] + CodePoints(s[1..]);
    }
  }

  const HEX_DIGITS: string := "0123456789abcdef"

  /** `"%02x".format(b)`. */
  function HexByte(b: byte): string
  {
    [HEX_DIGITS[b / 16], HEX_DIGITS[b % 16]]
  }

  /** `joinToString("") { "%02x".format(it) }`. */
  function Hex(bytes: seq<byte>): (s: string)
    ensures |s| == 2 * |bytes|
  {
    if bytes == [] then "" else HexByte(bytes[0]) + Hex(bytes[1..])
  }

  /** Hex text uses only the lower-case hex digits. */
  lemma {:induction false} HexAlphabet(bytes: seq<byte>)
    ensures forall i :: 0 <= i < |Hex(bytes)| ==> Hex(bytes)[i] in HEX_DIGITS
  {
    if bytes != [] {
      HexAlphabet(bytes[1..]);
      var h := Hex(bytes);
      assert h == HexByte(bytes[0]) + Hex(bytes[1..]);
      forall i | 0 <= i < |h|
        ensures h[i] in HEX_DIGITS
      {
        if i >= 2 {
          assert h[i] == Hex(bytes[1..])[i - 2];
        }
      }
    }
  }

  function HexValue(c: char): (v: int)
    ensures 0 <= v < 16
  {
    if '0' <= c <= '9' then c as int - '0' as int
    else if 'a' <= c <= 'f' then c as int - 'a' as int + 10
    else 0
  }

  /** Reads bytes back from pairs of hex digits. */
  function UnHex(s: string): seq<byte>
    decreases |s|
  {
    if |s| < 2 then [] else [HexValue(s[0]) * 16 + HexValue(s[1])] + UnHex(s[2..])
  }

  /** The digit `HEX_DIGITS` writes for a value reads back as that value. */
  lemma HexDigitValue(x: int)
    requires 0 <= x < 16
    ensures HexValue(HEX_DIGITS[x]) == x
  {
    if x < 10 {
      assert HEX_DIGITS[..10] == "0123456789";
      assert HEX_DIGITS[x] == "0123456789"[x];
    } else {
      assert HEX_DIGITS[10..] == "abcdef";
      assert HEX_DIGITS[x] == "abcdef"[x - 10];
    }
  }

  /** Hex text names its bytes: reading it back gives them again. */
  lemma {:induction false} UnHexHex(bytes: seq<byte>)
    ensures UnHex(Hex(bytes)) == bytes
  {
    if bytes != [] {
      var b, rest := bytes[0], bytes[1..];
      var h := Hex(bytes);
      assert h == HexByte(b) + Hex(rest);
      assert h[0] == HEX_DIGITS[b / 16] && h[1] == HEX_DIGITS[b % 16] && h[2..] == Hex(rest);
      HexDigitValue(b / 16);
      HexDigitValue(b % 16);
      var v := HexValue(h[0]) * 16 + HexValue(h[1]);
      assert v == b;
      assert UnHex(h) == [v] + UnHex(h[2..]);
      UnHexHex(rest);
      assert bytes == [b] + rest;
    }
  }

  /** Two digests give the same hex text exactly when they are the same bytes. */
  lemma HexInjective(a: seq<byte>, b: seq<byte>)
    ensures Hex(a) == Hex(b) <==> a == b
  {
    UnHexHex(a);
    UnHexHex(b);
  }
}
