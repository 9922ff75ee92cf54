/** The argument tokenizer ArgParser (zap_arg_parser.hpp): a cursor that moves
    forward over a frame body held in a mutable buffer, classifying one token per
    call and writing a 0 terminator after words and keys in place.

    The pure functions below say what one call of lex() yields for a body `s`
    (the len_ bytes of the frame) and a cursor `rp`; the class ArgParser runs
    the source's loops over the buffer and is proved to agree with them.
    At(s, i) is curr() reading 0 at and past the end of the body: the source
    reads the buffer past len_ there (see LexAsWritten). */
module Tokenizer {
  import opened Helpers
  import opened Wrappers

  /** What lex() reports. TOK_STRING and TOK_HEX are declared in the source but
      never produced: a `0x` number is reported as an integer. */
  datatype Token =
    | Error
    | Word(text: seq<byte>)
    | Key(text: seq<byte>)
    | Int(value: int)
    | Float            // the source stores the stub value 0.0
    | Bool(flag: bool)

  /** One call of lex(): the token, where the cursor ends, and where a 0 was written. */
  datatype Scan = Scan(token: Token, next: nat, mark: Option<nat>)

  /** curr() with the cursor at i: the byte of the body, or 0 at and past its end. */
  function At(s: seq<byte>, i: nat): byte {
    if i < |s| then s[i] else '\0'
  }

  /** The bytes skipSpace() steps over. */
  predicate IsBlank(ch: char) {
    ch == ' ' || ch == '\t'
  }

  /** An `int` result on AVR: 16-bit two's complement, so accumulating past 32767 wraps. */
  function Wrap16(x: int): (r: int)
    ensures -32768 <= r < 32768
    ensures 0 <= x < 32768 ==> r == x
  {
    (x + 32768) % 65536 - 32768
  }

  /** Where skipSpace() leaves the cursor. */
  function SkipBlanks(s: seq<byte>, i: nat): (j: nat)
    decreases |s| - i
    ensures i <= j && !IsBlank(At(s, j))
    ensures i <= |s| ==> j <= |s|
  {
    if IsBlank(At(s, i)) then SkipBlanks(s, i + 1) else i
  }

  /** Where the loop of lexWord() stops: the first byte from i on that cannot continue a word. */
  function WordEnd(s: seq<byte>, i: nat): (j: nat)
    decreases |s| - i
    ensures i <= j && !IsWordTailChar(At(s, j))
    ensures i <= |s| ==> j <= |s|
  {
    if IsWordTailChar(At(s, i)) then WordEnd(s, i + 1) else i
  }

  /** Where the loop of lexDecInt() stops. */
  function DecEnd(s: seq<byte>, i: nat): (j: nat)
    decreases |s| - i
    ensures i <= j && !IsNumeric(At(s, j))
    ensures i <= |s| ==> j <= |s|
  {
    if IsNumeric(At(s, i)) then DecEnd(s, i + 1) else i
  }

  /** Where the loop of lexHexInt() stops. */
  function HexEnd(s: seq<byte>, i: nat): (j: nat)
    decreases |s| - i
    ensures i <= j && !IsHexit(At(s, j))
    ensures i <= |s| ==> j <= |s|
  {
    if IsHexit(At(s, i)) then HexEnd(s, i + 1) else i
  }

  /** The value lexDecInt() accumulates over s[i..j]: `i *= 10; i += digit` in a 16-bit int. */
  function DecValue(s: seq<byte>, i: nat, j: nat): int
    requires i <= j <= |s|
    decreases j - i
  {
    if j == i then 0 else Wrap16(DecValue(s, i, j - 1) * 10 + (s[j - 1] as int - '0' as int))
  }

  /** The value lexHexInt() accumulates over s[i..j]: `i <<= 4; i |= hexit` in a 16-bit int. */
  function HexValue(s: seq<byte>, i: nat, j: nat): int
    requires i <= j <= |s|
    decreases j - i
  {
    if j == i then 0 else Wrap16(HexValue(s, i, j - 1) * 16 + DecodeHexit(s[j - 1]))
  }

  predicate IsTrueWord(w: seq<byte>) {
    w == "on" || w == "yes" || w == "true"
  }

  predicate IsFalseWord(w: seq<byte>) {
    w == "off" || w == "no" || w == "false"
  }

  /** parseWBK(): a word, a boolean or a key, starting at rp. */
  function WbkToken(s: seq<byte>, rp: nat): Scan {
    if !IsWordStartChar(At(s, rp)) then
      Scan(Error, rp, None)
    else
      var e := WordEnd(s, rp + 1);
      var w := s[rp..e];
      if IsTrueWord(w) then Scan(Bool(true), SkipBlanks(s, e), None)
      else if IsFalseWord(w) then Scan(Bool(false), SkipBlanks(s, e), None)
      else if At(s, e) == ':' then Scan(Key(w), SkipBlanks(s, e + 1), Some(e))
      else Scan(Word(w), SkipBlanks(s, e + 1), Some(e))
  }

  /** parseNumber(): a `0x` hex integer, a decimal integer, or digits '.' digits. */
  function NumberToken(s: seq<byte>, rp: nat, negate: bool): Scan {
    if At(s, rp) == '0' && At(s, rp + 1) == 'x' then HexNumber(s, rp + 2, negate)
    else DecNumber(s, rp, negate)
  }

  /** The `0x` branch of parseNumber(), from the first digit after the `0x`. */
  function HexNumber(s: seq<byte>, i: nat, negate: bool): Scan {
    if !IsHexit(At(s, i)) then Scan(Error, i, None)
    else
      var e := HexEnd(s, i);
      var v := HexValue(s, i, e);
      if v < 0 then Scan(Error, e, None)
      else Scan(Int(if negate then -v else v), SkipBlanks(s, e), None)
  }

  /** The decimal branch of parseNumber(). */
  function DecNumber(s: seq<byte>, rp: nat, negate: bool): Scan {
    if !IsNumeric(At(s, rp)) then
      Scan(Error, rp, None)
    else
      var e := DecEnd(s, rp);
      var v := DecValue(s, rp, e);
      if v < 0 then Scan(Error, e, None)
      else if At(s, e) == '.' then
        if !IsNumeric(At(s, e + 1)) then Scan(Error, e + 1, None)
        else
          var e2 := DecEnd(s, e + 1);
          if DecValue(s, e + 1, e2) < 0 then Scan(Error, e2, None)
          else Scan(Float, SkipBlanks(s, e2), None)
      else Scan(Int(if negate then -v else v), SkipBlanks(s, e), None)
  }

  /** lex(): one token from the cursor on. */
  function NextToken(s: seq<byte>, rp: nat): (r: Scan)
    ensures rp <= r.next
    ensures r.token != Error ==> rp < |s| && rp < r.next && !IsBlank(At(s, r.next))
    ensures r.mark.Some? ==> rp <= r.mark.value < r.next && r.mark.value <= |s|
    ensures rp <= |s| && r.mark.None? ==> r.next <= |s|
    ensures rp <= |s| && r.mark.Some? ==> r.next <= |s| + 1
    ensures r.mark.Some? ==> r.token.Word? || r.token.Key?
  {
    var c := At(s, rp);
    if IsAlpha(c) then WbkToken(s, rp)
    else if IsNumeric(c) then NumberToken(s, rp, false)
    else if c == '-' then NumberToken(s, rp + 1, true)
    else Scan(Error, rp, None)
  }

  /** The buffer after a scan: a 0 written at the mark, if any, `off` bytes into it. */
  function Marked(a: seq<byte>, off: nat, mark: Option<nat>): seq<byte>
    requires mark.Some? ==> off + mark.value < |a|
  {
    if mark.Some? then a[off + mark.value := '\0'] else a
  }

  /** A scan at or past the end of the body fails: a command's tokens come from its own bytes. */
  lemma {:induction false} LexAtEndFails(s: seq<byte>, rp: nat)
    requires rp >= |s|
    ensures NextToken(s, rp) == Scan(Error, rp, None)
  {
  }

  /** The exact words on/yes/true and off/no/false are booleans, and nothing is written for them. */
  lemma {:induction false} BooleanWords(s: seq<byte>, rp: nat)
    requires IsAlpha(At(s, rp))
    ensures var w := s[rp..WordEnd(s, rp + 1)];
            (IsTrueWord(w) ==> NextToken(s, rp) == Scan(Bool(true), SkipBlanks(s, WordEnd(s, rp + 1)), None)) &&
            (IsFalseWord(w) ==> NextToken(s, rp) == Scan(Bool(false), SkipBlanks(s, WordEnd(s, rp + 1)), None))
  {
  }

  /** Any other word is a key when a ':' follows it at once, else a plain word; the byte
      after it is overwritten with 0 and stepped over. */
  lemma {:induction false} WordsAndKeys(s: seq<byte>, rp: nat)
    requires IsAlpha(At(s, rp))
    ensures var e := WordEnd(s, rp + 1);
            var w := s[rp..e];
            !IsTrueWord(w) && !IsFalseWord(w) ==>
              NextToken(s, rp) == Scan(if At(s, e) == ':' then Key(w) else Word(w), SkipBlanks(s, e + 1), Some(e))
  {
  }

  /** A first byte that is not a letter, a digit or '-' is an error, and so is a '-'
      that no digit follows; nothing is consumed for the former. */
  lemma {:induction false} LexErrors(s: seq<byte>, rp: nat)
    ensures !IsAlpha(At(s, rp)) && !IsNumeric(At(s, rp)) && At(s, rp) != '-' ==>
              NextToken(s, rp) == Scan(Error, rp, None)
    ensures At(s, rp) == '-' && !IsNumeric(At(s, rp + 1)) ==> NextToken(s, rp).token == Error
  {
  }

  /** A leading '-' negates the integer that follows, decimal or hex. */
  lemma {:induction false} MinusNegates(s: seq<byte>, rp: nat)
    requires At(s, rp) == '-' && NextToken(s, rp).token.Int?
    ensures NumberToken(s, rp + 1, false).token.Int?
    ensures NextToken(s, rp).token.value == -NumberToken(s, rp + 1, false).token.value
    ensures NextToken(s, rp).next == NumberToken(s, rp + 1, false).next
  {
  }

  /** Without wrap-around, the decimal value is the number the digits spell. */
  lemma {:induction false} DecValueSmall(s: seq<byte>, i: nat, j: nat)
    requires i <= j <= |s|
    requires forall k :: i <= k < j ==> IsNumeric(s[k])
    requires DecSpelled(s, i, j) < 32768
    ensures DecValue(s, i, j) == DecSpelled(s, i, j)
  {
    if j > i {
      DecSpelledMonotone(s, i, j);
      DecValueSmall(s, i, j - 1);
    }
  }

  /** The number the decimal digits s[i..j] spell, with unbounded integers. */
  function DecSpelled(s: seq<byte>, i: nat, j: nat): (n: nat)
    requires i <= j <= |s|
    requires forall k :: i <= k < j ==> IsNumeric(s[k])
    decreases j - i
  {
    if j == i then 0
    else
      assert IsNumeric(s[j - 1]);
      DecSpelled(s, i, j - 1) * 10 + (s[j - 1] as int - '0' as int)
  }

  lemma {:induction false} DecSpelledMonotone(s: seq<byte>, i: nat, j: nat)
    requires i < j <= |s|
    requires forall k :: i <= k < j ==> IsNumeric(s[k])
    ensures DecSpelled(s, i, j - 1) <= DecSpelled(s, i, j)
  {
  }

  /** lex() as written: curr() reads whatever the buffer holds at the cursor, also at and
      past len_, so bytes left in the buffer by earlier frames take part. `buffer` is the
      whole receive buffer and the body starts `off` bytes into it. */
  function LexAsWritten(buffer: seq<byte>, off: nat, rp: nat): Scan
    requires off <= |buffer|
  {
    NextToken(buffer[off..], rp)
  }

  /** Read only up to its length, the body "desc" holds the command word and no
      argument after it. */
  lemma {:induction false} DescBodyEnds()
    ensures var body: seq<byte> := "desc";
            && NextToken(body, SkipBlanks(body, 0)) == Scan(Word("desc"), 5, Some(4))
            && NextToken(body, 5).token == Error
  {
    var body: seq<byte> := "desc";
    assert WordEnd(body, 1) == 4;
    assert body[0..4] == "desc";
  }

  /** The buffer after "0<desc 5" and then "0<desc": the word desc, its 0, and the
      stale argument 5 with its 0. As written, the lexer finds the word at the start
      of the body and the integer after it. */
  lemma {:induction false} StaleTailWord(buffer: seq<byte>)
    requires buffer == "0<desc" + ['\0'] + "5" + ['\0']
    ensures LexAsWritten(buffer, 2, 0) == Scan(Word("desc"), 5, Some(4))
  {
    var tail := buffer[2..];
    assert tail == "desc" + ['\0'] + "5" + ['\0'];
    assert tail[4] == '\0' && WordEnd(tail, 4) == 4;
    assert WordEnd(tail, 2) == 4;
    assert WordEnd(tail, 1) == 4;
    assert tail[0..4] == "desc";
  }

  lemma {:induction false} StaleTailNumber(buffer: seq<byte>)
    requires buffer == "0<desc" + ['\0'] + "5" + ['\0']
    ensures LexAsWritten(buffer, 2, 5).token == Int(5)
  {
    var tail := buffer[2..];
    assert tail == "desc" + ['\0'] + "5" + ['\0'];
    assert DecEnd(tail, 5) == 6;
    assert DecValue(tail, 5, 6) == 5;
  }

  /** After the frame "0<desc 5" the frame "0<desc" leaves "desc", its 0, then the
      stale "5" in the buffer: as written, `desc` then finds an integer argument,
      while a body read only up to len_ has none. */
  lemma {:induction false} DescReadsStaleArgument()
    ensures var buffer: seq<byte> := "0<desc" + ['\0'] + "5" + ['\0'];
            var body := buffer[2..6];
            && NextToken(body, SkipBlanks(body, 0)) == Scan(Word("desc"), 5, Some(4))
            && LexAsWritten(buffer, 2, 0) == Scan(Word("desc"), 5, Some(4))
            && LexAsWritten(buffer, 2, 5).token == Int(5)
            && NextToken(body, 5).token == Error
  {
    var buffer: seq<byte> := "0<desc" + ['\0'] + "5" + ['\0'];
    assert buffer[2..6] == "desc";
    DescBodyEnds();
    StaleTailWord(buffer);
    StaleTailNumber(buffer);
  }

  /** "set x:5 y:on" yields the word set, the key x, the integer 5, the key y, the
      boolean true, and then the end of the input. */
  lemma {:induction false} SetCommandTokens(s: seq<byte>)
    requires s == "set x:5 y:on"
    ensures NextToken(s, 0) == Scan(Word("set"), 4, Some(3))
    ensures NextToken(s, 4) == Scan(Key("x"), 6, Some(5))
    ensures NextToken(s, 6) == Scan(Int(5), 8, None)
    ensures NextToken(s, 8) == Scan(Key("y"), 10, Some(9))
    ensures NextToken(s, 10) == Scan(Bool(true), 12, None)
    ensures NextToken(s, 12) == Scan(Error, 12, None)
  {
    SetCommandHead(s);
    SetCommandTail(s);
  }

  lemma {:induction false} SetCommandHead(s: seq<byte>)
    requires s == "set x:5 y:on"
    ensures NextToken(s, 0) == Scan(Word("set"), 4, Some(3))
    ensures NextToken(s, 4) == Scan(Key("x"), 6, Some(5))
  {
    assert NextToken(s, 0) == Scan(Word("set"), 4, Some(3)) by {
      assert s[3] == ' ' && WordEnd(s, 3) == 3 && WordEnd(s, 1) == 3;
      assert s[0..3] == "set" && SkipBlanks(s, 4) == 4;
    }
    assert s[5] == ':' && WordEnd(s, 5) == 5 && s[4..5] == "x";
    assert SkipBlanks(s, 6) == 6;
  }

  lemma {:induction false} SetCommandTail(s: seq<byte>)
    requires s == "set x:5 y:on"
    ensures NextToken(s, 6) == Scan(Int(5), 8, None)
    ensures NextToken(s, 8) == Scan(Key("y"), 10, Some(9))
    ensures NextToken(s, 10) == Scan(Bool(true), 12, None)
    ensures NextToken(s, 12) == Scan(Error, 12, None)
  {
    assert NextToken(s, 6) == Scan(Int(5), 8, None) by {
      assert s[7] == ' ' && DecEnd(s, 7) == 7 && DecEnd(s, 6) == 7;
      assert DecValue(s, 6, 7) == 5;
      assert SkipBlanks(s, 8) == 8 && SkipBlanks(s, 7) == 8;
    }
    assert NextToken(s, 8) == Scan(Key("y"), 10, Some(9)) by {
      assert s[9] == ':' && WordEnd(s, 9) == 9 && s[8..9] == "y";
      assert SkipBlanks(s, 10) == 10;
    }
    assert WordEnd(s, 12) == 12 && WordEnd(s, 11) == 12 && s[10..12] == "on";
    assert SkipBlanks(s, 12) == 12;
    LexAtEndFails(s, 12);
  }

  /** ArgParser: a cursor over the len bytes of a body that starts `off` bytes into the
      buffer `args`. The buffer has room for the terminator after the body. */
  class ArgParser {
    const args: array<byte>
    const off: nat
    const len: nat
    var rp: nat
    /** The body as it was when parsing began. */
    ghost const body: seq<byte>

    /** The bytes from the cursor on are still those of the body: only bytes already
        stepped over are ever overwritten. */
    ghost predicate Valid()
      reads this, args
    {
      && off + len < args.Length
      && |body| == len
      && forall k :: rp <= k < len ==> args[off + k] == body[k]
    }

    /** The constructor leaves the cursor on the first byte that is not a blank. */
    constructor (args: array<byte>, off: nat, len: nat)
      requires off + len < args.Length
      ensures Valid() && this.args == args && this.off == off && this.len == len
      ensures body == old(args[off..off + len]) && rp == SkipBlanks(body, 0)
      ensures unchanged(args)
    {
      this.args := args;
      this.off := off;
      this.len := len;
      this.body := args[off..off + len];
      rp := 0;
      new;
      SkipSpace();
    }

    /** remain(): bytes are left before len_. */
    predicate Remain()
      reads this
    {
      rp < len
    }

    /** end(): the cursor has reached len_; from there every scan fails. */
    function End(): (r: bool)
      reads this, args
      requires Valid()
      ensures r <==> rp >= |body|
      ensures r ==> NextToken(body, rp).token == Error
    {
      if rp >= len then LexAtEndFails(body, rp); true else false
    }

    /** curr(), read within the body. */
    method Curr() returns (c: byte)
      requires Valid()
      ensures c == At(body, rp)
    {
      c := if rp < len then args[off + rp] else '\0';
    }

    /** peek(), read within the body. */
    method Peek() returns (c: byte)
      requires Valid()
      ensures c == At(body, rp + 1)
    {
      c := if rp + 1 < len then args[off + rp + 1] else '\0';
    }

    /** skipSpace(): step over blanks. */
    method SkipSpace()
      requires Valid()
      modifies this`rp
      ensures Valid() && rp == SkipBlanks(body, old(rp))
    {
      var ch := Curr();
      while IsBlank(ch)
        invariant Valid() && old(rp) <= rp
        invariant SkipBlanks(body, rp) == SkipBlanks(body, old(rp))
        invariant ch == At(body, rp)
        decreases len - rp
      {
        rp := rp + 1;
        ch := Curr();
      }
    }

    /** lexWord(): a word start character followed by word tail characters; returns
        whether there was one and its length, the word starting at the old cursor. */
    method LexWord() returns (ok: bool, n: nat)
      requires Valid()
      modifies this`rp
      ensures Valid()
      ensures ok == IsWordStartChar(At(body, old(rp)))
      ensures ok ==> rp == WordEnd(body, old(rp) + 1) && n == rp - old(rp)
      ensures !ok ==> rp == old(rp)
    {
      var start := rp;
      var ch := Curr();
      if !IsWordStartChar(ch) {
        return false, 0;
      }
      rp := rp + 1;
      ch := Curr();
      while IsWordTailChar(ch)
        invariant Valid() && start < rp <= len
        invariant WordEnd(body, rp) == WordEnd(body, start + 1)
        invariant ch == At(body, rp)
        decreases len - rp
      {
        rp := rp + 1;
        ch := Curr();
      }
      ok, n := true, rp - start;
    }

    /** lexDecInt(): decimal digits, accumulated in a 16-bit int; -1 if there are none. */
    method LexDecInt() returns (v: int)
      requires Valid()
      modifies this`rp
      ensures Valid()
      ensures if IsNumeric(At(body, old(rp)))
              then rp == DecEnd(body, old(rp)) && v == DecValue(body, old(rp), rp)
              else rp == old(rp) && v == -1
    {
      var start := rp;
      var ch := Curr();
      if !IsNumeric(ch) {
        return -1;
      }
      v := 0;
      while IsNumeric(ch)
        invariant Valid() && start <= rp <= len
        invariant DecEnd(body, rp) == DecEnd(body, start)
        invariant v == DecValue(body, start, rp)
        invariant ch == At(body, rp)
        decreases len - rp
      {
        v := Wrap16(v * 10 + (ch as int - '0' as int));
        rp := rp + 1;
        ch := Curr();
      }
    }

    /** lexHexInt(): hex digits, accumulated in a 16-bit int; -1 if there are none. */
    method LexHexInt() returns (v: int)
      requires Valid()
      modifies this`rp
      ensures Valid()
      ensures if IsHexit(At(body, old(rp)))
              then rp == HexEnd(body, old(rp)) && v == HexValue(body, old(rp), rp)
              else rp == old(rp) && v == -1
    {
      var start := rp;
      var ch := Curr();
      if !IsHexit(ch) {
        return -1;
      }
      v := 0;
      while IsHexit(ch)
        invariant Valid() && start <= rp <= len
        invariant HexEnd(body, rp) == HexEnd(body, start)
        invariant v == HexValue(body, start, rp)
        invariant ch == At(body, rp)
        decreases len - rp
      {
        v := Wrap16(v * 16 + DecodeHexit(ch));
        rp := rp + 1;
        ch := Curr();
      }
    }

    /** `args_[rp_++] = 0`: the word just lexed is cut off where it ends. */
    method Terminate()
      requires Valid() && rp <= len
      modifies this`rp, args
      ensures Valid() && rp == old(rp) + 1
      ensures args[..] == old(args[..])[off + old(rp) := '\0']
    {
      ghost var before := args[..];
      args[off + rp] := '\0';
      rp := rp + 1;
      assert Valid() by {
        forall k | rp <= k < len ensures args[off + k] == body[k] {
          assert args[off + k] == before[off + k];
        }
      }
    }

    /** lexWord() with the word it stepped over, as parseWBK() takes it from the buffer. */
    method ReadWord() returns (ok: bool, text: seq<byte>)
      requires Valid()
      modifies this`rp
      ensures Valid()
      ensures ok == IsWordStartChar(At(body, old(rp)))
      ensures ok ==> old(rp) < |body| && rp == WordEnd(body, old(rp) + 1) && text == body[old(rp)..rp]
      ensures !ok ==> rp == old(rp)
    {
      var start := rp;
      var n;
      ok, n := LexWord();
      if !ok {
        return false, [];
      }
      text := args[off + start .. off + rp];
      assert text == body[start .. rp] by {
        forall k | 0 <= k < n ensures text[k] == body[start + k] {
          assert args[off + start + k] == body[start + k];
        }
      }
    }

    /** parseWBK(). */
    method ParseWbk() returns (tok: Token)
      requires Valid()
      modifies this`rp, args
      ensures Valid()
      ensures var sc := WbkToken(body, old(rp));
              && tok == sc.token && rp == sc.next
              && (sc.mark.Some? ==> sc.mark.value <= len)
              && args[..] == Marked(old(args[..]), off, sc.mark)
    {
      var ok, text := ReadWord();
      if !ok {
        return Error;
      }
      if IsTrueWord(text) {
        tok := Bool(true);
        SkipSpace();
      } else if IsFalseWord(text) {
        tok := Bool(false);
        SkipSpace();
      } else {
        var ch := Curr();
        tok := if ch == ':' then Key(text) else Word(text);
        Terminate();
        SkipSpace();
      }
    }

    /** parseNumber(): after a '-' when `negate`. */
    method ParseNumber(negate: bool) returns (tok: Token)
      requires Valid()
      modifies this`rp
      ensures Valid()
      ensures var sc := NumberToken(body, old(rp), negate);
              tok == sc.token && rp == sc.next && sc.mark.None?
    {
      var c := Curr();
      var p := Peek();
      if c == '0' && p == 'x' {
        rp := rp + 2;
        tok := ParseHex(negate);
        return;
      }
      tok := ParseDecimal(negate);
    }

    /** The `0x` branch of parseNumber(), with the cursor after the `0x`. */
    method ParseHex(negate: bool) returns (tok: Token)
      requires Valid()
      modifies this`rp
      ensures Valid()
      ensures var sc := HexNumber(body, old(rp), negate);
              tok == sc.token && rp == sc.next && sc.mark.None?
    {
      var v := LexHexInt();
      if v < 0 {
        return Error;
      }
      tok := Int(if negate then -v else v);
      SkipSpace();
    }

    /** The decimal branch of parseNumber(). */
    method ParseDecimal(negate: bool) returns (tok: Token)
      requires Valid()
      modifies this`rp
      ensures Valid()
      ensures var sc := DecNumber(body, old(rp), negate);
              tok == sc.token && rp == sc.next && sc.mark.None?
    {
      var ipart := LexDecInt();
      if ipart < 0 {
        return Error;
      }
      var c := Curr();
      if c == '.' {
        rp := rp + 1;
        var fpart := LexDecInt();
        if fpart < 0 {
          return Error;
        }
        tok := Float;
      } else {
        tok := Int(if negate then -ipart else ipart);
      }
      SkipSpace();
    }

    /** lex(): the next token. */
    method Lex() returns (tok: Token)
      requires Valid()
      modifies this`rp, args
      ensures Valid()
      ensures var sc := NextToken(body, old(rp));
              && tok == sc.token && rp == sc.next
              && (sc.mark.Some? ==> sc.mark.value <= len)
              && args[..] == Marked(old(args[..]), off, sc.mark)
    {
      var c := Curr();
      if IsAlpha(c) {
        tok := ParseWbk();
      } else if IsNumeric(c) {
        tok := ParseNumber(false);
      } else if c == '-' {
        rp := rp + 1;
        tok := ParseNumber(true);
      } else {
        tok := Error;
      }
    }

    /** scanWord(): the next token, if it is a word. */
    method ScanWord() returns (ok: bool, text: seq<byte>)
      requires Valid()
      modifies this`rp, args
      ensures Valid()
      ensures var sc := NextToken(body, old(rp));
              && ok == sc.token.Word? && (ok ==> text == sc.token.text) && rp == sc.next
              && (sc.mark.Some? ==> sc.mark.value <= len)
              && args[..] == Marked(old(args[..]), off, sc.mark)
    {
      var tok := Lex();
      ok := tok.Word?;
      text := if ok then tok.text else [];
    }

    /** scanInt(): the next token, if it is an integer. */
    method ScanInt() returns (ok: bool, value: int)
      requires Valid()
      modifies this`rp, args
      ensures Valid()
      ensures var sc := NextToken(body, old(rp));
              && ok == sc.token.Int? && (ok ==> value == sc.token.value) && rp == sc.next
              && (sc.mark.Some? ==> sc.mark.value <= len)
              && args[..] == Marked(old(args[..]), off, sc.mark)
    {
      var tok := Lex();
      ok := tok.Int?;
      value := if ok then tok.value else 0;
    }

    /** scanBool(): the next token, if it is a boolean. */
    method ScanBool() returns (ok: bool, value: bool)
      requires Valid()
      modifies this`rp, args
      ensures Valid()
      ensures var sc := NextToken(body, old(rp));
              && ok == sc.token.Bool? && (ok ==> value == sc.token.flag) && rp == sc.next
              && (sc.mark.Some? ==> sc.mark.value <= len)
              && args[..] == Marked(old(args[..]), off, sc.mark)
    {
      var tok := Lex();
      ok := tok.Bool?;
      value := ok && tok.flag;
    }
  }
}
