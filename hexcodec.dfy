/** The hex encoding of binary frame bodies: what decodeBinary accepts and
    produces (zap_protocol.hpp:481-498, the same code as Zap.hpp:316-333) and
    what writeBinary sends (zap_protocol.hpp:137-142). */
module HexCodec {
  import opened Helpers
  import opened HelpersCpp
  import opened Wrappers

  /** The byte that a pair of hex digits stands for: `(high << 4) | low`. */
  function PairValue(hi: char, lo: char): (b: byte)
    requires IsHexit(hi) && IsHexit(lo)
    ensures b as int / 16 == DecodeHexit(hi) && b as int % 16 == DecodeHexit(lo)
  {
    (16 * DecodeHexit(hi) + DecodeHexit(lo)) as char
  }

  /** The bytes the decoder writes before it stops: one per leading pair of hex
      digits, up to the first pair that holds a non-digit. */
  function DecodedPrefix(s: seq<char>): (d: seq<byte>)
    ensures 2 * |d| <= |s|
  {
    if |s| < 2 || !(IsHexit(s[0]) && IsHexit(s[1])) then
      []
    else
      [PairValue(s[0], s[1])] + DecodedPrefix(s[2..])
  }

  /** What decodeBinary makes of the hex text after the '#': the decoded bytes when
      every pair decoded, otherwise failure. */
  function DecodeHex(s: seq<char>): (r: Option<seq<byte>>)
    ensures r.Some? ==> |s| % 2 == 0 && |r.value| == |s| / 2
  {
    var d := DecodedPrefix(s);
    if |s| % 2 == 0 && 2 * |d| == |s| then Some(d) else None
  }

  /** Decoding succeeds exactly on an even number of hex digits. */
  lemma {:induction false} DecodeHexSucceedsIff(s: seq<char>)
    ensures DecodeHex(s).Some? <==> |s| % 2 == 0 && forall i :: 0 <= i < |s| ==> IsHexit(s[i])
  {
    if |s| % 2 == 0 {
      AllPairsDecode(s);
    }
  }

  lemma {:induction false} AllPairsDecode(s: seq<char>)
    requires |s| % 2 == 0
    ensures 2 * |DecodedPrefix(s)| == |s| <==> forall i :: 0 <= i < |s| ==> IsHexit(s[i])
  {
    if |s| >= 2 {
      AllPairsDecode(s[2..]);
      assert forall i :: 2 <= i < |s| ==> s[i] == s[2..][i - 2];
    }
  }

  /** Byte k of a successful decode is the pair of digits at 2k and 2k+1. */
  lemma {:induction false} DecodedByte(s: seq<char>, k: nat)
    requires k < |DecodedPrefix(s)|
    ensures 2 * k + 1 < |s| && IsHexit(s[2 * k]) && IsHexit(s[2 * k + 1])
    ensures DecodedPrefix(s)[k] == PairValue(s[2 * k], s[2 * k + 1])
  {
    if k > 0 {
      DecodedByte(s[2..], k - 1);
    }
  }

  /** The hex digits writeBinary sends for data: two upper-case digits per byte. */
  function HexEncode(data: seq<byte>): (s: seq<byte>)
    ensures |s| == 2 * |data|
    ensures forall i :: 0 <= i < |s| ==> ('0' <= s[i] <= '9') || ('A' <= s[i] <= 'F')
  {
    if data == [] then [] else [ToHex(data[0] as int / 16), ToHex(data[0] as int % 16)] + HexEncode(data[1..])
  }

  /** Decoding stops at the first pair that is not two hex digits: with the bytes
      before position i decoded, the whole input does not decode. */
  lemma {:induction false} DecodeStopsAt(s: seq<char>, i: nat, prefix: seq<byte>)
    requires i + 2 <= |s| && 2 * |prefix| == i
    requires DecodedPrefix(s) == prefix + DecodedPrefix(s[i..])
    requires !(IsHexit(s[i]) && IsHexit(s[i + 1]))
    ensures DecodeHex(s).None?
  {
    assert DecodedPrefix(s[i..]) == [];
  }

  /** A pair of hex digits at position i decodes to one byte, and decoding goes on after it. */
  lemma {:induction false} DecodeContinuesAt(s: seq<char>, i: nat, prefix: seq<byte>)
    requires i + 2 <= |s| && IsHexit(s[i]) && IsHexit(s[i + 1])
    requires DecodedPrefix(s) == prefix + DecodedPrefix(s[i..])
    ensures DecodedPrefix(s) == prefix + [PairValue(s[i], s[i + 1])] + DecodedPrefix(s[i + 2..])
  {
    var rest := s[i..];
    assert rest[0] == s[i] && rest[1] == s[i + 1] && rest[2..] == s[i + 2..];
  }

  /** With an even number of digits after the 3-byte header, a pair that starts
      before the end also ends before it. */
  lemma {:induction false} PairFits(wp: nat, end: nat)
    requires 3 + 2 * wp < end && end % 2 == 1
    ensures 3 + 2 * wp + 1 < end
  {
  }

  /** One step of the decoding loop, with wp bytes decoded and the digits hi and lo
      read next: either they decode and the loop goes on, or the input does not decode. */
  lemma {:induction false} DecodeStep(s: seq<char>, wp: nat, done: seq<byte>, hi: char, lo: char)
    requires 2 * wp + 2 <= |s| && |done| == wp && s[2 * wp] == hi && s[2 * wp + 1] == lo
    requires DecodedPrefix(s) == done + DecodedPrefix(s[2 * wp..])
    ensures IsHexit(hi) && IsHexit(lo) ==>
              DecodedPrefix(s) == done + [PairValue(hi, lo)] + DecodedPrefix(s[2 * (wp + 1)..])
    ensures !(IsHexit(hi) && IsHexit(lo)) ==> DecodeHex(s).None?
  {
    if IsHexit(hi) && IsHexit(lo) {
      DecodeContinuesAt(s, 2 * wp, done);
    } else {
      DecodeStopsAt(s, 2 * wp, done);
    }
  }

  /** decodeBinary(), on the receive buffer `buf` holding `end` bytes: hex-decodes
      buf[3..end] into the front of buf. A negative result reports failure: an odd
      number of digits, or a pair that is not two hex digits. */
  method DecodeInPlace(buf: array<byte>, end: nat) returns (len: int)
    requires 3 <= end <= buf.Length
    modifies buf
    ensures var decoded := DecodeHex(old(buf[3..end]));
            && (len < 0 <==> decoded.None?)
            && (len >= 0 ==> len == (end - 3) / 2 && buf[..len] == decoded.value)
    ensures forall k :: (end - 3) / 2 <= k < buf.Length ==> buf[k] == old(buf[k])
  {
    if end % 2 != 1 {
      return -1;
    }
    len := DecodePairs(buf, end);
  }

  /** The loop of decodeBinary(): two digits read for every byte written, so writing
      never overtakes reading. */
  method DecodePairs(buf: array<byte>, end: nat) returns (len: int)
    requires 3 <= end <= buf.Length && end % 2 == 1
    modifies buf
    ensures var decoded := DecodeHex(old(buf[3..end]));
            && (len < 0 <==> decoded.None?)
            && (len >= 0 ==> len == (end - 3) / 2 && buf[..len] == decoded.value)
    ensures forall k :: (end - 3) / 2 <= k < buf.Length ==> buf[k] == old(buf[k])
  {
    ghost var s := buf[3..end];
    ghost var done: seq<byte> := [];
    var wp := 0;
    var rp := 3;
    while rp < end
      invariant rp == 3 + 2 * wp && rp <= end && |done| == wp
      invariant forall k :: rp <= k < end ==> buf[k] == s[k - 3]
      invariant buf[..wp] == done
      invariant DecodedPrefix(s) == done + DecodedPrefix(s[2 * wp..])
      invariant forall k :: wp <= k < buf.Length ==> buf[k] == old(buf[k])
    {
      PairFits(wp, end);
      var hi, lo := buf[rp], buf[rp + 1];
      DecodeStep(s, wp, done, hi, lo);
      var high := DecodeHexit(hi);
      var low := DecodeHexit(lo);
      var invalid := PairIsInvalid(high, low);
      if invalid {
        return -1;
      }
      var b := PairValue(hi, lo);
      buf[wp] := b;
      done := done + [b];
      assert buf[..wp + 1] == done;
      wp := wp + 1;
      rp := rp + 2;
    }
    assert s[2 * wp..] == [];
    len := wp;
  }

  /** Encoding one more byte appends its two digits. */
  lemma {:induction false} HexEncodeAppend(data: seq<byte>, d: byte)
    ensures HexEncode(data + [d]) == HexEncode(data) + [ToHex(d as int / 16), ToHex(d as int % 16)]
  {
    if data != [] {
      assert (data + [d])[1..] == data[1..] + [d];
      HexEncodeAppend(data[1..], d);
    } else {
      assert HexEncode([d][1..]) == [];
    }
  }

  /** Decoding what writeBinary sends gives back exactly the bytes that were sent. */
  lemma {:induction false} HexRoundTrip(data: seq<byte>)
    ensures DecodeHex(HexEncode(data)) == Some(data)
  {
    PrefixOfEncoding(data);
  }

  lemma {:induction false} PrefixOfEncoding(data: seq<byte>)
    ensures DecodedPrefix(HexEncode(data)) == data
  {
    if data != [] {
      var s := HexEncode(data);
      var hi, lo := ToHex(data[0] as int / 16), ToHex(data[0] as int % 16);
      assert s[0] == hi && s[1] == lo && s[2..] == HexEncode(data[1..]);
      PrefixOfEncoding(data[1..]);
      assert PairValue(hi, lo) == data[0];
    }
  }

  /** A C `char` read as a signed 8-bit number, as avr-gcc reads it. */
  function SignedChar(c: byte): (x: int)
    ensures -128 <= x < 128 && x % 256 == c as int
  {
    if c as int < 128 then c as int else c as int - 256
  }

  /** writeBinary as written: `toHex(*data >> 4)` shifts a signed char, so the high
      nibble of a byte with bit 7 set comes out of the shift negative and toHex,
      given it as a uint8_t, writes a digit that is not the nibble. */
  function HexEncodeAsWritten(data: seq<byte>): (s: seq<byte>)
    ensures |s| == 2 * |data|
  {
    if data == [] then []
    else [ToHex((SignedChar(data[0]) / 16) % 256), ToHex(SignedChar(data[0]) % 16)] + HexEncodeAsWritten(data[1..])
  }

  /** For bytes below 0x80 the code as written sends the right digits. */
  lemma {:induction false} AsWrittenAgreesBelow0x80(data: seq<byte>)
    requires forall i :: 0 <= i < |data| ==> data[i] as int < 128
    ensures HexEncodeAsWritten(data) == HexEncode(data)
  {
    if data != [] {
      var d := data[0] as int;
      assert SignedChar(data[0]) == d && (d / 16) % 256 == d / 16;
      assert forall i :: 0 <= i < |data[1..]| ==> data[1..][i] == data[i + 1];
      AsWrittenAgreesBelow0x80(data[1..]);
    }
  }

  /** The byte 0xAB is sent as "1B", which decodes to 0x1B. */
  lemma {:induction false} SignedHighNibbleBreaksRoundTrip()
    ensures HexEncodeAsWritten([0xAB as char]) == ['1', 'B']
    ensures DecodeHex(['1', 'B']) == Some([0x1B as char])
    ensures DecodeHex(HexEncodeAsWritten([0xAB as char])) != Some([0xAB as char])
  {
    assert SignedChar(0xAB as char) == -85;
    assert (-85 / 16) % 256 == 250;
    assert ToHex(250) == '1';
    var s: seq<char> := ['1', 'B'];
    assert s[2..] == [];
    assert DecodedPrefix(s) == [PairValue('1', 'B')];
  }
}
