/** Character classes and single hex digits, as declared in zap_helpers.hpp.
    The implementation unit zap_helpers.cpp repeats isAlpha, isNumeric, isHexit
    and decodeHexit word for word; the few members in which it differs are in
    module HelpersCpp below. */
module Helpers {

  /** One byte of the serial link or of the receive buffer: a C `char`, 8 bits wide. */
  type byte = c: char | c as int < 256

  /** The value `decodeHexit` returns for a character that is not a hex digit. */
  const INVALID_HEXIT: nat := 0xFF

  /** `isAlpha`: an ASCII letter. */
  predicate IsAlpha(ch: char) {
    ('a' <= ch <= 'z') || ('A' <= ch <= 'Z')
  }

  /** `isNumeric`: an ASCII decimal digit. */
  predicate IsNumeric(ch: char) {
    '0' <= ch <= '9'
  }

  /** `isHexit`: a decimal digit or a letter a-f in either case. */
  function IsHexit(ch: char): (r: bool)
    ensures IsNumeric(ch) ==> r
    ensures r ==> !IsAlpha(ch) || ('a' <= ch <= 'f') || ('A' <= ch <= 'F')
  {
    IsNumeric(ch) || ('a' <= ch <= 'f') || ('A' <= ch <= 'F')
  }

  /** `decodeHexit`: the value of one hex digit, or INVALID_HEXIT. */
  function DecodeHexit(ch: char): (v: nat)
    ensures v < 16 || v == INVALID_HEXIT
    ensures v < 16 <==> IsHexit(ch)
  {
    if '0' <= ch <= '9' then
      ch as int - '0' as int
    else if 'A' <= ch <= 'F' then
      ch as int - 'A' as int + 10
    else if 'a' <= ch <= 'f' then
      ch as int - 'a' as int + 10
    else
      INVALID_HEXIT
  }

  /** The test `(high | low) & 0x80` that decodeBinary applies to two decoded
      digits: it is nonzero exactly when one of them is INVALID_HEXIT, because
      every digit value has bit 7 clear and INVALID_HEXIT has it set. */
  method PairIsInvalid(high: nat, low: nat) returns (invalid: bool)
    requires high < 16 || high == INVALID_HEXIT
    requires low < 16 || low == INVALID_HEXIT
    ensures invalid <==> high == INVALID_HEXIT || low == INVALID_HEXIT
  {
    assert high < 16 ==> (high as bv8) & 0x80 == 0;
    assert low < 16 ==> (low as bv8) & 0x80 == 0;
    invalid := (high as bv8 | low as bv8) & 0x80 != 0;
  }

  /** `isWordStartChar`: a character that may begin a bare word. */
  function IsWordStartChar(ch: char): (r: bool)
    ensures r ==> IsWordTailChar(ch)
    ensures r ==> !IsNumeric(ch) && ch != '-'
  {
    IsAlpha(ch) || ch == '_' || ch == '!'
  }

  /** `isWordTailChar`: a character that may continue a bare word. */
  predicate IsWordTailChar(ch: char) {
    IsAlpha(ch) || IsNumeric(ch) || ch == '_' || ch == '.' || ch == '/' || ch == '?' || ch == '!'
  }
}

/** The members of zap_helpers.cpp that differ from, or are missing in, the header. */
module HelpersCpp {
  import opened Helpers

  /** `toHex`: the hex digit of a nibble. The argument is a uint8_t and the result a
      char, so for v > 15 the sum 'A' + v - 10 is cut to 8 bits. */
  function ToHex(v: nat): (ch: byte)
    requires v < 256
    ensures v < 16 ==> ('0' <= ch <= '9') || ('A' <= ch <= 'F')
    ensures v < 16 ==> DecodeHexit(ch) == v
  {
    if v <= 9 then ('0' as int + v) as char else (('A' as int + v - 10) % 256) as char
  }

  /** Decoding then re-encoding a hex digit gives it back in upper case. */
  lemma {:induction false} ToHexOfDecodeHexit(ch: char)
    requires IsHexit(ch)
    ensures ToHex(DecodeHexit(ch)) == if 'a' <= ch <= 'f' then (ch as int - 32) as char else ch
  {
  }

  /** `isWordStartChar` of the .cpp file: unlike the header, '!' does not start a word. */
  function IsWordStartChar(ch: char): (r: bool)
    ensures r <==> Helpers.IsWordStartChar(ch) && ch != '!'
  {
    IsAlpha(ch) || ch == '_'
  }

  /** `isWordChar`: the header's word-tail set plus '-'. */
  function IsWordChar(ch: char): (r: bool)
    ensures r <==> Helpers.IsWordTailChar(ch) || ch == '-'
    ensures IsWordStartChar(ch) ==> r
  {
    IsAlpha(ch) || IsNumeric(ch) || ch == '_' || ch == '.' || ch == '/' ||
    ch == '?' || ch == '!' || ch == '-'
  }
}

/** An optional value, for lookups that can miss and decoders that can fail. */
module Wrappers {
  datatype Option<+T> = None | Some(value: T)
}

/** The C integer types the engines store into. */
module CNumbers {
  /** 2^16 and 2^32: the ranges of reportInterval_ (uint16_t) and nextReportAt_ (uint32_t). */
  const U16: nat := 0x1_0000
  const U32: nat := 0x1_0000_0000

  /** An int stored into a uint16_t: reduced modulo 2^16. */
  function Uint16(x: int): (r: nat)
    ensures r < U16 && (0 <= x < U16 ==> r == x)
  {
    x % U16
  }

  /** A sum stored into a uint32_t: reduced modulo 2^32. */
  function Uint32(x: int): (r: nat)
    ensures r < U32 && (0 <= x < U32 ==> r == x)
  {
    x % U32
  }
}
