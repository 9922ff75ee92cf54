/** The byte-level receive state machine shared by both engines
    (zap_protocol.hpp:259-281, Zap.hpp:65-87): a line ends at CR, at LF or at CRLF,
    and the bytes before it form one frame. */
module Receiver {
  import opened Helpers
  import opened Wrappers

  /** rxState_: 0, or 1 right after a CR. */
  datatype RxState = Normal | SeenCr

  /** rxState_ and the bytes rxBuffer_[..rxWp_] received since the last line end. */
  datatype Rx = Rx(state: RxState, pending: seq<byte>)

  /** The receiver after one byte, and the frame that byte completed, if any. */
  datatype Fed = Fed(rx: Rx, frame: Option<seq<byte>>)

  predicate IsLineEnd(c: char) {
    c == '\r' || c == '\n'
  }

  /** Storing a byte at rxWp_. The source never consults the buffer size; the model
      keeps a byte only while one more slot stays free for the 0 that dispatch
      writes after the frame, and drops it otherwise. */
  function Append(pending: seq<byte>, c: byte, cap: nat): seq<byte> {
    if |pending| + 1 < cap then pending + [c] else pending
  }

  /** One byte through the state machine with a buffer of `cap` bytes. */
  function Feed(rx: Rx, c: byte, cap: nat): (f: Fed)
    ensures f.frame.Some? <==> rx.state == Normal && IsLineEnd(c)
    ensures f.frame.Some? ==> f.frame.value == rx.pending && f.rx.pending == []
    ensures f.rx.state == SeenCr <==> rx.state == Normal && c == '\r'
    ensures |rx.pending| < cap ==> |f.rx.pending| < cap
  {
    match rx.state
    case Normal =>
      if c == '\r' then Fed(Rx(SeenCr, []), Some(rx.pending))
      else if c == '\n' then Fed(Rx(Normal, []), Some(rx.pending))
      else Fed(Rx(Normal, Append(rx.pending, c, cap)), None)
    case SeenCr =>
      Fed(Rx(Normal, if c != '\n' then Append(rx.pending, c, cap) else rx.pending), None)
  }

  /** The receiver after a run of bytes, and the frames completed on the way, in order. */
  datatype Fold = Fold(rx: Rx, frames: seq<seq<byte>>)

  function Frames(rx: Rx, input: seq<byte>, cap: nat): (r: Fold)
    decreases |input|
  {
    if input == [] then Fold(rx, [])
    else
      var f := Feed(rx, input[0], cap);
      var rest := Frames(f.rx, input[1..], cap);
      Fold(rest.rx, (if f.frame.Some? then [f.frame.value] else []) + rest.frames)
  }

  /** rxState_ and rxWp_ persist between ticks, so how the input is split into
      ticks does not change the frames. */
  lemma {:induction false} FramesChunked(rx: Rx, a: seq<byte>, b: seq<byte>, cap: nat)
    ensures var first := Frames(rx, a, cap);
            var second := Frames(first.rx, b, cap);
            Frames(rx, a + b, cap) == Fold(second.rx, first.frames + second.frames)
    decreases |a|
  {
    if a != [] {
      assert (a + b)[0] == a[0] && (a + b)[1..] == a[1..] + b;
      FramesChunked(Feed(rx, a[0], cap).rx, a[1..], b, cap);
    } else {
      assert a + b == b;
    }
  }

  /** Bytes of a line that fits are stored in order, and no frame ends inside it. */
  lemma {:induction false} LineIsStored(p: seq<byte>, line: seq<byte>, cap: nat)
    requires forall i :: 0 <= i < |line| ==> !IsLineEnd(line[i])
    requires |p| + |line| < cap
    ensures Frames(Rx(Normal, p), line, cap) == Fold(Rx(Normal, p + line), [])
    decreases |line|
  {
    if line != [] {
      var f := Feed(Rx(Normal, p), line[0], cap);
      assert f == Fed(Rx(Normal, p + [line[0]]), None);
      assert forall i :: 0 <= i < |line[1..]| ==> line[1..][i] == line[i + 1];
      LineIsStored(p + [line[0]], line[1..], cap);
      assert p + [line[0]] + line[1..] == p + line;
    }
  }

  /** CR, LF and CRLF each end a line with exactly one frame; after CRLF the receiver
      is back where it started, and after a lone CR it waits for a possible LF. */
  lemma {:induction false} LineTerminators(line: seq<byte>, cap: nat)
    requires forall i :: 0 <= i < |line| ==> !IsLineEnd(line[i])
    requires |line| < cap
    ensures Frames(Rx(Normal, []), line + "\r\n", cap) == Fold(Rx(Normal, []), [line])
    ensures Frames(Rx(Normal, []), line + "\n", cap) == Fold(Rx(Normal, []), [line])
    ensures Frames(Rx(Normal, []), line + "\r", cap) == Fold(Rx(SeenCr, []), [line])
  {
    LineIsStored([], line, cap);
    assert [] + line == line;
    FramesChunked(Rx(Normal, []), line, "\r\n", cap);
    FramesChunked(Rx(Normal, []), line, "\n", cap);
    FramesChunked(Rx(Normal, []), line, "\r", cap);
    assert Frames(Rx(Normal, line), "\r\n", cap) == Fold(Rx(Normal, []), [line]) by {
      assert "\r\n"[1..] == "\n";
    }
  }

  /** After a CR only an LF is swallowed: a second CR is kept as the first byte of
      the next frame. */
  lemma {:induction false} SecondCrIsData(cap: nat)
    requires cap >= 4
    ensures Frames(Rx(Normal, []), "a\r\rb\n", cap) == Fold(Rx(Normal, []), ["a", "\rb"])
  {
    var s: seq<byte> := "a\r\rb\n";
    assert s[1..] == "\r\rb\n" && s[2..] == "\rb\n" && s[3..] == "b\n" && s[4..] == "\n";
    assert Frames(Rx(Normal, "\rb"), [], cap) == Fold(Rx(Normal, "\rb"), []);
    assert Feed(Rx(Normal, "\r"), 'b', cap).rx == Rx(Normal, "\rb") by {
      assert "\r" + ['b'] == "\rb";
    }
    assert Feed(Rx(SeenCr, []), '\r', cap).rx == Rx(Normal, "\r") by {
      assert [] + ['\r'] == "\r";
    }
    assert Feed(Rx(Normal, []), 'a', cap).rx == Rx(Normal, "a") by {
      assert [] + ['a'] == "a";
    }
    assert Frames(Rx(Normal, "\rb"), "\n", cap) == Fold(Rx(Normal, []), ["\rb"]);
    assert Frames(Rx(Normal, "\r"), "b\n", cap) == Fold(Rx(Normal, []), ["\rb"]);
    assert Frames(Rx(SeenCr, []), "\rb\n", cap) == Fold(Rx(Normal, []), ["\rb"]);
    assert Frames(Rx(Normal, "a"), "\r\rb\n", cap) == Fold(Rx(Normal, []), ["a", "\rb"]);
  }

  /** One byte through the state machine as written: the byte is stored at rxWp_
      whatever the size of the buffer. */
  function FeedAsWritten(rx: Rx, c: byte): (f: Fed)
    ensures forall cap: nat :: |rx.pending| + 1 < cap ==> f == Feed(rx, c, cap)
  {
    match rx.state
    case Normal =>
      if c == '\r' then Fed(Rx(SeenCr, []), Some(rx.pending))
      else if c == '\n' then Fed(Rx(Normal, []), Some(rx.pending))
      else Fed(Rx(Normal, rx.pending + [c]), None)
    case SeenCr =>
      Fed(Rx(Normal, if c != '\n' then rx.pending + [c] else rx.pending), None)
  }

  /** The bytes pending as written after a run of bytes without a line end. */
  function PendingAsWritten(rx: Rx, input: seq<byte>): seq<byte>
    decreases |input|
  {
    if input == [] then rx.pending else PendingAsWritten(FeedAsWritten(rx, input[0]).rx, input[1..])
  }

  /** As written, a line as long as the buffer raises rxWp_ to the buffer size, so the
      line end that follows makes dispatch write its 0 one byte past the buffer. */
  lemma {:induction false} LineFillsBufferAsWritten(p: seq<byte>, line: seq<byte>)
    requires forall i :: 0 <= i < |line| ==> !IsLineEnd(line[i])
    ensures PendingAsWritten(Rx(Normal, p), line) == p + line
    decreases |line|
  {
    if line != [] {
      LineFillsBufferAsWritten(p + [line[0]], line[1..]);
      assert p + [line[0]] + line[1..] == p + line;
    }
  }
}
