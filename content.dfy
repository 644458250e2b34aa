/**
 * File content encodings: the decode-time syntax of hex and bit strings
 * (fschema-lib/src/parse.rs) and their conversion to the bytes that are
 * written (the Hex and Bits arms of `FSchema::create` in fschema-lib/src/lib.rs).
 * Characters stand for the source's chars; data is taken to be ASCII.
 */
module Content {

  newtype byte = b: int | 0 <= b < 256

  // ---------------------------------------------------------------------------
  // Hex

  /** `c.is_ascii_digit()` or `c.to_ascii_lowercase()` one of `a`..`f`. */
  predicate IsHexDigit(c: char) {
    ('0' <= c <= '9') || ('a' <= c <= 'f') || ('A' <= c <= 'F')
  }

  predicate AllHexDigits(s: string) {
    forall i :: 0 <= i < |s| ==> IsHexDigit(s[i])
  }

  /** What the decoder accepts as the data of a Hex file. */
  predicate ValidHex(s: string) {
    |s| % 2 == 0 && AllHexDigits(s)
  }

  function HexDigitValue(c: char): (v: nat)
    requires IsHexDigit(c)
    ensures v < 16
  {
    if '0' <= c <= '9' then (c - '0') as nat
    else if 'a' <= c <= 'f' then (c - 'a') as nat + 10
    else (c - 'A') as nat + 10
  }

  /** The lower-case digit of a nibble. */
  function HexDigit(v: nat): (c: char)
    requires v < 16
    ensures IsHexDigit(c) && HexDigitValue(c) == v
  {
    if v < 10 then ('0' as int + v) as char else ('a' as int + v - 10) as char
  }

  /**
   * The bytes of a Hex file: one byte per two-character chunk, high nibble
   * first (`u8::from_str_radix(chunk, 16)`). The source unwraps the parse,
   * so it demands data the decoder accepted.
   */
  function HexBytes(s: string): (r: seq<byte>)
    requires ValidHex(s)
    ensures |r| == |s| / 2
  {
    if s == [] then []
    else [(16 * HexDigitValue(s[0]) + HexDigitValue(s[1])) as byte] + HexBytes(s[2..])
  }

  /** Byte `k` of a Hex file is the chunk `s[2k]`, `s[2k+1]`, high nibble first. */
  lemma {:induction false} HexBytesAt(s: string, k: nat)
    requires ValidHex(s) && k < |s| / 2
    ensures HexBytes(s)[k] as int == 16 * HexDigitValue(s[2 * k]) + HexDigitValue(s[2 * k + 1])
  {
    if k > 0 {
      HexBytesAt(s[2..], k - 1);
      assert s[2..][2 * (k - 1)] == s[2 * k];
      assert s[2..][2 * (k - 1) + 1] == s[2 * k + 1];
    }
  }

  /** Inverse of HexBytes: two lower-case digits per byte. */
  function ToHex(bytes: seq<byte>): (s: string)
    ensures ValidHex(s) && |s| == 2 * |bytes|
  {
    if bytes == [] then ""
    else [HexDigit(bytes[0] as nat / 16), HexDigit(bytes[0] as nat % 16)] + ToHex(bytes[1..])
  }

  lemma {:induction false} HexRoundTrip(bytes: seq<byte>)
    ensures HexBytes(ToHex(bytes)) == bytes
  {
    if bytes != [] {
      HexRoundTrip(bytes[1..]);
      var s := ToHex(bytes);
      assert s[2..] == ToHex(bytes[1..]);
    }
  }

  /** The example of the source's own test: "00aF" is the two bytes 0x00, 0xAF. */
  lemma HexExample()
    ensures ValidHex("00aF") && HexBytes("00aF") == [0x00, 0xAF]
  {
    HexBytesAt("00aF", 0);
    HexBytesAt("00aF", 1);
  }

  // ---------------------------------------------------------------------------
  // Bits

  predicate IsBitDigit(c: char) {
    c == '0' || c == '1'
  }

  predicate AllBitDigits(s: string) {
    forall i :: 0 <= i < |s| ==> IsBitDigit(s[i])
  }

  /** What the decoder accepts as the data of a Bits file. */
  predicate ValidBits(s: string) {
    |s| % 8 == 0 && AllBitDigits(s)
  }

  function Pow2(n: nat): (p: nat)
    ensures p >= 1
  {
    if n == 0 then 1 else 2 * Pow2(n - 1)
  }

  /** A bit string read as a binary number, most significant bit first. */
  function BitsValue(s: string): (v: nat)
    requires AllBitDigits(s)
    ensures v < Pow2(|s|)
  {
    if s == [] then 0
    else 2 * BitsValue(s[..|s| - 1]) + (if s[|s| - 1] == '1' then 1 else 0)
  }

  /**
   * The bytes of a Bits file: one byte per eight-character chunk, most
   * significant bit first (`u8::from_str_radix(chunk, 2)`).
   */
  function BitsBytes(s: string): (r: seq<byte>)
    requires ValidBits(s)
    ensures |r| == |s| / 8
    ensures forall k :: 0 <= k < |r| ==> r[k] as int == BitsValue(s[8 * k .. 8 * k + 8])
  {
    if s == [] then []
    else
      var rest := BitsBytes(s[8..]);
      assert forall k :: 0 <= k < |rest| ==> s[8..][8 * k .. 8 * k + 8] == s[8 * (k + 1) .. 8 * (k + 1) + 8];
      assert Pow2(8) == 256;
      [BitsValue(s[..8]) as byte] + rest
  }

  /** The `n` low bits of `v`, most significant first. */
  function BitString(v: nat, n: nat): (s: string)
    ensures |s| == n && AllBitDigits(s)
  {
    if n == 0 then "" else BitString(v / 2, n - 1) + [if v % 2 == 1 then '1' else '0']
  }

  lemma {:induction false} BitStringValue(v: nat, n: nat)
    requires v < Pow2(n)
    ensures BitsValue(BitString(v, n)) == v
  {
    if n > 0 {
      BitStringValue(v / 2, n - 1);
      var s := BitString(v, n);
      assert s[..|s| - 1] == BitString(v / 2, n - 1);
    }
  }

  /** Inverse of BitsBytes: eight bit characters per byte. */
  function ToBits(bytes: seq<byte>): (s: string)
    ensures ValidBits(s) && |s| == 8 * |bytes|
  {
    if bytes == [] then "" else BitString(bytes[0] as nat, 8) + ToBits(bytes[1..])
  }

  lemma {:induction false} BitsRoundTrip(bytes: seq<byte>)
    ensures BitsBytes(ToBits(bytes)) == bytes
  {
    if bytes != [] {
      BitsRoundTrip(bytes[1..]);
      var s := ToBits(bytes);
      assert s[..8] == BitString(bytes[0] as nat, 8);
      assert s[8..] == ToBits(bytes[1..]);
      assert Pow2(8) == 256;
      BitStringValue(bytes[0] as nat, 8);
    }
  }

  /** "01100001" is the single byte 0x61. */
  lemma BitsExample()
    ensures ValidBits("01100001") && BitsBytes("01100001") == [0x61]
  {
    var s := "01100001";
    assert s[..8] == s;
    assert BitsValue(s) == 0x61 by {
      assert s[..7] == "0110000";
      assert "0110000"[..6] == "011000";
      assert "011000"[..5] == "01100";
      assert "01100"[..4] == "0110";
      assert "0110"[..3] == "011";
      assert "011"[..2] == "01";
      assert "01"[..1] == "0";
      assert "0"[..0] == "";
    }
  }
}
