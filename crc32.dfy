/** The byte view of a Go string and the CRC-32 checksum of Go's
    `hash/crc32.ChecksumIEEE`: the reflected IEEE 802.3 polynomial
    0xEDB88320, initial value all ones, final complement. Go computes it with
    a lookup table; this module states the bit-at-a-time definition that the
    table implements. */
module Crc32 {

  /** A Unicode scalar value as the 1 to 4 bytes of its UTF-8 encoding,
      which is what `[]byte(s)` yields for a Go string. */
  function EncodeChar(c: char): (r: seq<bv8>)
    ensures 1 <= |r| <= 4
    ensures (c as int < 0x80) <==> |r| == 1
  {
    var v := c as int;
    if v < 0x80 then [v as bv8]
    else if v < 0x800 then [(0xC0 + v / 0x40) as bv8, (0x80 + v % 0x40) as bv8]
    else if v < 0x10000 then
      [(0xE0 + v / 0x1000) as bv8, (0x80 + (v / 0x40) % 0x40) as bv8, (0x80 + v % 0x40) as bv8]
    else
      [(0xF0 + v / 0x40000) as bv8, (0x80 + (v / 0x1000) % 0x40) as bv8,
       (0x80 + (v / 0x40) % 0x40) as bv8, (0x80 + v % 0x40) as bv8]
  }

  /** `[]byte(s)`: the UTF-8 bytes of a string. */
  function Utf8(s: string): (r: seq<bv8>)
    ensures |s| <= |r| <= 4 * |s|
  {
    if s == "" then [] else EncodeChar(s[0]) + Utf8(s[1..])
  }

  /** `len(s)` in Go: the length of a string in bytes. */
  function ByteLen(s: string): nat {
    |Utf8(s)|
  }

  predicate IsAscii(s: string) {
    forall k :: 0 <= k < |s| ==> s[k] as int < 0x80
  }

  /** For text made of ASCII characters only (ids and most names), the byte
      length is the character count. */
  lemma {:induction false} AsciiByteLen(s: string)
    requires IsAscii(s)
    ensures ByteLen(s) == |s|
  {
    if s != "" {
      AsciiByteLen(s[1..]);
    }
  }

  const Polynomial: bv32 := 0xEDB8_8320

  /** `n` rounds of the reflected shift-and-divide step. */
  function Shift(crc: bv32, n: nat): bv32
    decreases n
  {
    if n == 0 then crc
    else Shift(if crc & 1 == 1 then (crc >> 1) ^ Polynomial else crc >> 1, n - 1)
  }

  /** Folds the bytes into a running (already complemented) register. */
  function Update(crc: bv32, data: seq<bv8>): bv32
    decreases |data|
  {
    if data == [] then crc else Update(Shift(crc ^ (data[0] as bv32), 8), data[1..])
  }

  /** `crc32.ChecksumIEEE(data)`. */
  function ChecksumIEEE(data: seq<bv8>): bv32 {
    !Update(0xFFFF_FFFF, data)
  }


  /** One byte of `Update`: a register that the first byte turns into
      `next`, and `next` folded with the rest gives `v`. */
  lemma UpdateStep(crc: bv32, data: seq<bv8>, next: bv32, v: bv32)
    requires data != [] && Shift(crc ^ (data[0] as bv32), 8) == next
    requires Update(next, data[1..]) == v
    ensures Update(crc, data) == v
  {
  }

  /** The standard check value: the checksum of the ASCII text "123456789"
      is 0xCBF43926. */
  lemma CheckValue()
    ensures ChecksumIEEE(Utf8("123456789")) == 0xCBF4_3926
  {
    var data: seq<bv8> := [0x31, 0x32, 0x33, 0x34, 0x35, 0x36, 0x37, 0x38, 0x39];
    DigitBytes("123456789", data);
    CheckRegister(data);
  }

  /** An ASCII string encodes to one byte per character, its code point. */
  lemma {:induction false} AsciiBytes(s: string)
    requires IsAscii(s)
    ensures |Utf8(s)| == |s|
    ensures forall k :: 0 <= k < |s| ==> [Utf8(s)[k]] == EncodeChar(s[k])
  {
    if s != "" {
      var tail := s[1..];
      assert IsAscii(tail) by {
        forall k | 0 <= k < |tail| ensures tail[k] as int < 0x80 {
          assert tail[k] == s[k + 1];
        }
      }
      AsciiBytes(tail);
      var r := Utf8(s);
      assert r == EncodeChar(s[0]) + Utf8(tail);
      assert |EncodeChar(s[0])| == 1;
      forall k | 0 <= k < |s| ensures [r[k]] == EncodeChar(s[k]) {
        if k > 0 {
          assert r[k] == Utf8(tail)[k - 1];
          assert s[k] == tail[k - 1];
        }
      }
    }
  }

  lemma DigitsAscii(s: string)
    requires s == "123456789"
    ensures IsAscii(s)
  {
    forall k | 0 <= k < |s| ensures s[k] as int < 0x80 {
      assert s[k] in "123456789";
    }
  }

  /** The bytes of the check string. */
  lemma DigitBytes(s: string, data: seq<bv8>)
    requires s == "123456789"
    requires data == [0x31, 0x32, 0x33, 0x34, 0x35, 0x36, 0x37, 0x38, 0x39]
    ensures Utf8(s) == data
  {
    DigitsAscii(s);
    DigitEncodings(s, data);
    AsciiUtf8(s, data);
  }

  lemma DigitEncodings(s: string, data: seq<bv8>)
    requires s == "123456789"
    requires data == [0x31, 0x32, 0x33, 0x34, 0x35, 0x36, 0x37, 0x38, 0x39]
    ensures |data| == |s| && forall k :: 0 <= k < |s| ==> [data[k]] == EncodeChar(s[k])
  {
    assert EncodeChar(s[0]) == [0x31];
    assert EncodeChar(s[1]) == [0x32];
    assert EncodeChar(s[2]) == [0x33];
    assert EncodeChar(s[3]) == [0x34];
    assert EncodeChar(s[4]) == [0x35];
    assert EncodeChar(s[5]) == [0x36];
    assert EncodeChar(s[6]) == [0x37];
    assert EncodeChar(s[7]) == [0x38];
    assert EncodeChar(s[8]) == [0x39];
  }

  /** ASCII text encodes to the bytes that encode its characters one by one. */
  lemma AsciiUtf8(s: string, data: seq<bv8>)
    requires IsAscii(s) && |data| == |s|
    requires forall k :: 0 <= k < |s| ==> [data[k]] == EncodeChar(s[k])
    ensures Utf8(s) == data
  {
    AsciiBytes(s);
    forall k | 0 <= k < |s| ensures Utf8(s)[k] == data[k] {
      assert [Utf8(s)[k]] == [data[k]];
    }
  }

  /** The register after folding the nine digits, before the complement. */
  lemma CheckRegister(data: seq<bv8>)
    requires data == [0x31, 0x32, 0x33, 0x34, 0x35, 0x36, 0x37, 0x38, 0x39]
    ensures Update(0xFFFF_FFFF, data) == 0x340B_C6D9
  {
    CheckSteps123();
    CheckSteps456();
    CheckSteps789();
    var v: bv32 := 0x340B_C6D9;
    assert Update(v, data[9..]) == v;
    UpdateStep(0x651F_2550, data[8..], v, v);
    UpdateStep(0xAFFC_9660, data[7..], 0x651F_2550, v);
    UpdateStep(0xF68D_2C9E, data[6..], 0xAFFC_9660, v);
    UpdateStep(0x340A_C5E3, data[5..], 0xF68D_2C9E, v);
    UpdateStep(0x641C_1F5C, data[4..], 0x340A_C5E3, v);
    UpdateStep(0x77B7_9C2D, data[3..], 0x641C_1F5C, v);
    UpdateStep(0xB0AC_BB32, data[2..], 0x77B7_9C2D, v);
    UpdateStep(0x7C23_1048, data[1..], 0xB0AC_BB32, v);
    UpdateStep(0xFFFF_FFFF, data, 0x7C23_1048, v);
  }

  lemma CheckSteps123()
    ensures Shift(0xFFFF_FFFF ^ 0x31, 8) == 0x7C23_1048
    ensures Shift(0x7C23_1048 ^ 0x32, 8) == 0xB0AC_BB32
    ensures Shift(0xB0AC_BB32 ^ 0x33, 8) == 0x77B7_9C2D
  {
  }

  lemma CheckSteps456()
    ensures Shift(0x77B7_9C2D ^ 0x34, 8) == 0x641C_1F5C
    ensures Shift(0x641C_1F5C ^ 0x35, 8) == 0x340A_C5E3
    ensures Shift(0x340A_C5E3 ^ 0x36, 8) == 0xF68D_2C9E
  {
  }

  lemma CheckSteps789()
    ensures Shift(0xF68D_2C9E ^ 0x37, 8) == 0xAFFC_9660
    ensures Shift(0xAFFC_9660 ^ 0x38, 8) == 0x651F_2550
    ensures Shift(0x651F_2550 ^ 0x39, 8) == 0x340B_C6D9
  {
  }
}
