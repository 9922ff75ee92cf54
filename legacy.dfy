/** The earlier generation of the engine, zap::Protocol of Zap.hpp: the same
    receive state machine and hex decoding as the current engine, fifteen fixed
    stream slots, a control channel that matches literal command words, and a
    reporting scheduler without a readiness gate. As for the current engine, the
    functions up to the class say on values what one frame, one command and one
    tick do, and the class Protocol runs the source's loops and is proved to
    agree with them. */
module ZapLegacy {
  import opened Helpers
  import opened HelpersCpp
  import opened Wrappers
  import opened CNumbers
  import opened HexCodec
  import opened Tokenizer
  import opened Wire
  import opened Receiver
  import opened Replies

  /** The number of stream slots, streams_[15]. */
  const N: nat := 15

  /** A stream as this generation sees it (Zap.hpp:21-27): whether canReport()
      holds, and what handleMessage() writes for a frame. handleMessage() returns
      nothing, so the engine adds no completion of its own. */
  datatype Stream = Stream(canReport: bool, handle: (FrameKind, seq<byte>) -> seq<Out>)

  /** What a Protocol object is given and never changes: the device info and the
      size of the receive buffer. */
  datatype Config = Config(info: string, cap: nat)

  /** The state a tick works on; `mask` holds the bit numbers i of reportStreams_,
      that is the stream ids i + 1, and slot i of `streams` is streams_[i]. */
  datatype Engine = Engine(
    rx: Rx,
    interval: nat,
    nextAt: nat,
    mask: set<nat>,
    streams: seq<Option<Stream>>)

  /** What holds between ticks: the fields stay in their C ranges, the frame being
      received leaves room for its terminator, and every mask bit names a
      registered stream, so the report loop never calls through an empty slot. */
  predicate Inv(cfg: Config, e: Engine) {
    && cfg.cap >= 1
    && |e.streams| == N
    && |e.rx.pending| < cfg.cap
    && e.interval < U16
    && e.nextAt < U32
    && forall i :: i in e.mask ==> i < N && e.streams[i].Some?
  }

  /** The state after an operation and what it wrote to the port. */
  datatype Effect = Effect(e: Engine, out: seq<Out>)

  /** The engine the constructor builds: nothing received, no reporting, no stream. */
  function Initial(cfg: Config): (e: Engine)
    requires cfg.cap >= 1
    ensures Inv(cfg, e) && e.mask == {} && e.interval == 0
    ensures forall i :: 0 <= i < N ==> e.streams[i].None?
  {
    Engine(Rx(Normal, []), 0, 0, {}, seq(N, _ => None))
  }

  /** setStreamHandler(): ids outside 1..15 are ignored. */
  function Register(cfg: Config, e: Engine, id: int, s: Stream): (r: Engine)
    requires Inv(cfg, e)
    ensures Inv(cfg, r)
    ensures 1 <= id <= N ==> r.streams[id - 1] == Some(s)
    ensures forall i :: 0 <= i < N && i != id - 1 ==> r.streams[i] == e.streams[i]
    ensures !(1 <= id <= N) ==> r == e
  {
    if id < 1 || id > N then e else e.(streams := e.streams[id - 1 := Some(s)])
  }

  /** lookupStreamByID(): the stream of an id in 1..15, if one is registered. */
  function Lookup(streams: seq<Option<Stream>>, id: nat): (r: Option<Stream>)
    requires |streams| == N
    ensures r.Some? <==> 1 <= id <= N && streams[id - 1].Some?
    ensures r.Some? ==> r == streams[id - 1]
  {
    if id < 1 || id > N then None else streams[id - 1]
  }

  /** The id digit startMessage() and startNotification() write as written:
      '0' + id. */
  function IdDigitAsWritten(id: nat): char
    requires id < 16
  {
    ('0' as int + id) as char
  }

  /** Up to 9 the digit as written is the hex digit of the id. From 10 on it is one
      of ':', ';', '<', '=', '>' and '?', which no peer decodes as a stream id: a
      reply to a frame for stream A starts with ':'. */
  lemma {:induction false} IdDigitAsWrittenAbove9(id: nat)
    requires id < 16
    ensures id <= 9 ==> IdDigitAsWritten(id) == ToHex(id)
    ensures id >= 10 ==> DecodeHexit(IdDigitAsWritten(id)) == INVALID_HEXIT
    ensures id == 10 ==> IdDigitAsWritten(id) == ':' && ToHex(id) == 'A'
  {
  }

  /** onStreamFrame(): nothing at all for an id with no stream; otherwise the reply
      header, what handleMessage() writes, and the frame end. */
  function StreamFrame(streams: seq<Option<Stream>>, id: nat, kind: FrameKind, data: seq<byte>): (o: seq<Out>)
    requires |streams| == N && id < 16
    ensures Lookup(streams, id).None? <==> o == []
    ensures o != [] ==> |o| >= 4 && o[..2] == ReplyHeader(id) && o[|o| - 2..] == FrameEnd()
    ensures o != [] ==> o == ReplyHeader(id) + Lookup(streams, id).value.handle(kind, data) + FrameEnd()
  {
    match Lookup(streams, id)
    case None => []
    case Some(s) => ReplyHeader(id) + s.handle(kind, data) + FrameEnd()
  }

  /** The commands of the control channel. */
  datatype Command = Report | Hello | Streams | Desc

  /** The C string at the front of s: the bytes before the first 0. */
  function CString(s: seq<byte>): (c: seq<byte>)
    ensures |c| <= |s| && c == s[..|c|]
    ensures forall i :: 0 <= i < |c| ==> c[i] != '\0'
    ensures |c| < |s| ==> s[|c|] == '\0'
  {
    if s == [] || s[0] == '\0' then [] else [s[0]] + CString(s[1..])
  }

  /** The first token of a control body. */
  function FirstScan(body: seq<byte>): Scan {
    NextToken(body, SkipBlanks(body, 0))
  }

  /** The control body as strcmp() reads it through `data` once the command word is
      scanned: the 0 dispatch() wrote after the frame, and the 0 the parser wrote
      where the word ends. */
  function Data(body: seq<byte>): seq<byte> {
    Marked(body + ['\0'], 0, FirstScan(body).mark)
  }

  /** The command of a control body. report and hello compare the scanned word;
      streams and desc compare the C string at the start of the body. */
  function SelectCommand(body: seq<byte>): Option<Command> {
    var w := FirstScan(body);
    if !w.token.Word? then None
    else if w.token.text == "report" then Some(Report)
    else if w.token.text == "hello" then Some(Hello)
    else if CString(Data(body)) == "streams" then Some(Streams)
    else if CString(Data(body)) == "desc" then Some(Desc)
    else None
  }

  /** The C string a byte string names when a 0 follows it: the bytes up to that 0. */
  lemma {:induction false} CStringIs(s: seq<byte>, text: seq<byte>)
    requires |text| < |s| && s[..|text|] == text && s[|text|] == '\0'
    requires forall i :: 0 <= i < |text| ==> text[i] != '\0'
    ensures CString(s) == text
  {
  }

  /** A word holds no 0: every byte before WordEnd is a word character. */
  lemma {:induction false} WordHoldsNoZero(s: seq<byte>, i: nat)
    ensures forall k :: i <= k < WordEnd(s, i) ==> k < |s| && s[k] != '\0'
    decreases |s| - i
  {
    if IsWordTailChar(At(s, i)) {
      assert i < |s| && s[i] != '\0';
      assert WordEnd(s, i) == WordEnd(s, i + 1);
      WordHoldsNoZero(s, i + 1);
    } else {
      assert WordEnd(s, i) == i;
    }
  }

  /** A body that starts with its command word: the C string strcmp() reads is the
      word, so every command is selected by its own word. */
  lemma {:induction false} WordSelects(body: seq<byte>)
    requires SkipBlanks(body, 0) == 0 && FirstScan(body).token.Word?
    ensures var text := FirstScan(body).token.text;
            && CString(Data(body)) == text
            && (text == "streams" ==> SelectCommand(body) == Some(Streams))
            && (text == "desc" ==> SelectCommand(body) == Some(Desc))
            && (SelectCommand(body).Some? <==> text in {"report", "hello", "streams", "desc"})
  {
    var w := FirstScan(body);
    WordsAndKeys(body, 0);
    var e := WordEnd(body, 1);
    var d := Data(body);
    WordHoldsNoZero(body, 0);
    assert d == (body + ['\0'])[e := '\0'];
    assert d[..e] == body[0..e];
    CStringIs(d, w.token.text);
  }

  /** A body with a blank before its word never selects streams or desc: the C
      string strcmp() reads starts with the blank. report and hello are still
      selected, since they compare the scanned word. */
  lemma {:induction false} LeadingBlankHidesStreams(body: seq<byte>)
    requires SkipBlanks(body, 0) > 0
    ensures SelectCommand(body) != Some(Streams) && SelectCommand(body) != Some(Desc)
  {
    var d := Data(body);
    var w := FirstScan(body);
    assert IsBlank(body[0]);
    assert d[0] == body[0];
  }

  /** The mask `report on <interval>` stores when it lists no id: every registered
      stream that can report. */
  function CapableMask(streams: seq<Option<Stream>>): (m: set<nat>)
    ensures forall i :: i in m <==> 0 <= i < |streams| && streams[i].Some? && streams[i].value.canReport
  {
    set i | 0 <= i < |streams| && streams[i].Some? && streams[i].value.canReport
  }

  /** The mask after the listed ids are OR-ed in, and whether the whole list was
      accepted. */
  datatype Ored = Ored(mask: set<nat>, ok: bool)

  /** The loop of updateReporting() over the ids listed from rp on, starting from
      `mask`: each registered, capable id is OR-ed in; a token that is not an
      integer or an id with no stream stops the loop with what was OR-ed so far. */
  function OrIds(streams: seq<Option<Stream>>, body: seq<byte>, rp: nat, mask: set<nat>): (r: Ored)
    requires |streams| == N && rp <= |body|
    decreases |body| - rp
  {
    if rp >= |body| then Ored(mask, true)
    else
      var t := NextToken(body, rp);
      if !t.token.Int? then Ored(mask, false)
      else
        var index := (t.token.value - 1) % 256;
        if index >= N || streams[index].None? then Ored(mask, false)
        else OrIds(streams, body, t.next, if streams[index].value.canReport then mask + {index} else mask)
  }

  /** The ids are OR-ed into the mask that was there: the mask is never cleared,
      whatever it started from, and what is added is the same. */
  lemma {:induction false} OrIdsAccumulates(streams: seq<Option<Stream>>, body: seq<byte>, rp: nat, mask: set<nat>)
    requires |streams| == N && rp <= |body|
    ensures var added := OrIds(streams, body, rp, {});
            OrIds(streams, body, rp, mask) == Ored(mask + added.mask, added.ok)
    decreases |body| - rp
  {
    assert mask + {} == mask;
    if rp < |body| {
      var t := NextToken(body, rp);
      if t.token.Int? {
        var index := (t.token.value - 1) % 256;
        if index < N && streams[index].Some? {
          var bit: set<nat> := if streams[index].value.canReport then {index} else {};
          OrStep(streams, body, rp, mask, true, t.token.value);
          OrStep(streams, body, rp, {}, true, t.token.value);
          assert {} + bit == bit;
          OrIdsAccumulates(streams, body, t.next, mask + bit);
          OrIdsAccumulates(streams, body, t.next, bit);
          var rest := OrIds(streams, body, t.next, {});
          assert mask + bit + rest.mask == mask + (bit + rest.mask);
        }
      }
    }
  }

  /** What OrIds adds are registered, capable slots. */
  lemma {:induction false} OrIdsAddsCapable(streams: seq<Option<Stream>>, body: seq<byte>, rp: nat, mask: set<nat>)
    requires |streams| == N && rp <= |body|
    ensures var r := OrIds(streams, body, rp, mask);
            && mask <= r.mask
            && forall i :: i in r.mask && i !in mask ==> i < N && streams[i].Some? && streams[i].value.canReport
    decreases |body| - rp
  {
    if rp < |body| {
      var t := NextToken(body, rp);
      if t.token.Int? {
        var index := (t.token.value - 1) % 256;
        if index < N && streams[index].Some? {
          OrIdsAddsCapable(streams, body, t.next, if streams[index].value.canReport then mask + {index} else mask);
        }
      }
    }
  }

  /** One id of the list, scanned at rp as `listed` and `id`: it stops the loop, or
      the loop goes on with it OR-ed in. */
  lemma {:induction false} OrStep(streams: seq<Option<Stream>>, body: seq<byte>, rp: nat, mask: set<nat>,
                                  listed: bool, id: int)
    requires |streams| == N && rp < |body|
    requires listed == NextToken(body, rp).token.Int? && (listed ==> id == NextToken(body, rp).token.value)
    ensures !listed ==> OrIds(streams, body, rp, mask) == Ored(mask, false)
    ensures listed && ((id - 1) % 256 >= N || streams[(id - 1) % 256].None?) ==>
              OrIds(streams, body, rp, mask) == Ored(mask, false)
    ensures listed && (id - 1) % 256 < N && streams[(id - 1) % 256].Some? ==>
              var index := (id - 1) % 256;
              NextToken(body, rp).next <= |body| &&
              OrIds(streams, body, rp, mask)
              == OrIds(streams, body, NextToken(body, rp).next,
                       if streams[index].value.canReport then mask + {index} else mask)
  {
  }

  /** updateReporting(), parsing from rp just after the word report: the state
      afterwards and what it writes. A missing or malformed argument returns
      without a word. */
  function Reporting(cfg: Config, e: Engine, body: seq<byte>, rp: nat, now: nat): (r: Effect)
    requires Inv(cfg, e)
    ensures Inv(cfg, r.e) && r.e.rx == e.rx && r.e.streams == e.streams
  {
    var b := NextToken(body, rp);
    if !b.token.Bool? then Effect(e, [])
    else if !b.token.flag then Effect(e.(interval := 0), [Text("report off")])
    else
      var iv := NextToken(body, b.next);
      if !iv.token.Int? then Effect(e, [])
      else Armed(cfg, e, body, iv.next, iv.token.value, now)
  }

  /** The end of updateReporting() once `on` and the interval value are read, with
      the ids starting at rp. With no id the mask becomes every capable stream;
      otherwise the ids are OR-ed into the mask as they are read, and a bad id
      returns silently, keeping the ids OR-ed before it. */
  function Armed(cfg: Config, e: Engine, body: seq<byte>, rp: nat, value: int, now: nat): (r: Effect)
    requires Inv(cfg, e)
    ensures Inv(cfg, r.e) && r.e.rx == e.rx && r.e.streams == e.streams
  {
    var interval := Uint16(value);
    if rp >= |body| then
      Effect(e.(mask := CapableMask(e.streams), interval := interval, nextAt := Uint32(now + interval)),
             [Text("report on")])
    else
      var o := OrIds(e.streams, body, rp, e.mask);
      OrIdsAddsCapable(e.streams, body, rp, e.mask);
      if o.ok then
        Effect(e.(mask := o.mask, interval := interval, nextAt := Uint32(now + interval)), [Text("report on")])
      else Effect(e.(mask := o.mask), [])
  }

  /** updateReporting() never writes an error. Whatever it does not accept leaves
      the interval and the next report time alone and writes nothing; the mask then
      only gains bits, those OR-ed before the bad id. */
  lemma {:induction false} ReportingSilent(cfg: Config, e: Engine, body: seq<byte>, rp: nat, now: nat)
    requires Inv(cfg, e)
    ensures var u := Reporting(cfg, e, body, rp, now);
            && (u.out == [] || u.out == [Text("report off")] || u.out == [Text("report on")])
            && (u.out == [] ==> u.e == e.(mask := u.e.mask) && e.mask <= u.e.mask)
            && (!NextToken(body, rp).token.Bool? ==> u == Effect(e, []))
            && (NextToken(body, rp).token == Bool(false) ==> u == Effect(e.(interval := 0), [Text("report off")]))
  {
    var b := NextToken(body, rp);
    if b.token.Bool? && b.token.flag {
      var iv := NextToken(body, b.next);
      if iv.token.Int? && iv.next < |body| {
        OrIdsAddsCapable(e.streams, body, iv.next, e.mask);
      }
    }
  }

  /** `report on <interval>` with no id selects every registered stream that can
      report, whatever the mask was. */
  lemma {:induction false} NoIdsSelectsCapable(cfg: Config, e: Engine, body: seq<byte>, rp: nat, value: int, now: nat)
    requires Inv(cfg, e) && rp >= |body|
    ensures var a := Armed(cfg, e, body, rp, value, now);
            && a.out == [Text("report on")]
            && a.e == e.(mask := CapableMask(e.streams), interval := Uint16(value), nextAt := Uint32(now + Uint16(value)))
  {
  }

  /** `report on <interval> <ids>` ORs the ids into the mask that was there. When
      every id is accepted, the interval and the next report time are stored too;
      otherwise the OR-ed ids stay and nothing else changes. */
  lemma {:induction false} IdsOrIntoMask(cfg: Config, e: Engine, body: seq<byte>, rp: nat, value: int, now: nat)
    requires Inv(cfg, e) && rp < |body|
    ensures var added := OrIds(e.streams, body, rp, {});
            var a := Armed(cfg, e, body, rp, value, now);
            && a.e.mask == e.mask + added.mask
            && (added.ok ==> a == Effect(e.(mask := e.mask + added.mask, interval := Uint16(value),
                                            nextAt := Uint32(now + Uint16(value))), [Text("report on")]))
            && (!added.ok ==> a == Effect(e.(mask := e.mask + added.mask), []))
  {
    OrIdsAccumulates(e.streams, body, rp, e.mask);
  }

  /** The state after a control command, what it writes inside the reply frame,
      and the numeric error code written at the end (0 for none). */
  datatype Outcome = Outcome(e: Engine, body: seq<Out>, err: nat)

  function RunCommand(cfg: Config, e: Engine, body: seq<byte>, now: nat): (r: Outcome)
    requires Inv(cfg, e)
    ensures Inv(cfg, r.e) && r.e.rx == e.rx && r.e.streams == e.streams
  {
    var w := FirstScan(body);
    match SelectCommand(body)
    case None => Outcome(e, [], 1)
    case Some(Report) =>
      var u := Reporting(cfg, e, body, w.next, now);
      Outcome(u.e, u.out, 0)
    case Some(Hello) => Outcome(e, [Text("hello "), Text(cfg.info)], 0)
    case Some(Streams) => Outcome(e, [Text("streams ")] + Listing(RegisteredBelow(e.streams, N)), 0)
    case Some(Desc) =>
      var d := NextToken(body, w.next);
      if !d.token.Int? then Outcome(e, [], 2)
      else if Lookup(e.streams, d.token.value % 256).None? then Outcome(e, [], 4)
      else Outcome(e, [Text("desc "), Hex(d.token.value), Ch(' '), Described(d.token.value % 256)], 0)
  }

  /** The branches of the control interpreter that compare the scanned word. */
  lemma {:induction false} WordOutcomes(cfg: Config, e: Engine, body: seq<byte>, now: nat)
    requires Inv(cfg, e)
    ensures var w := FirstScan(body);
            var r := RunCommand(cfg, e, body, now);
            && (!w.token.Word? ==> r == Outcome(e, [], 1))
            && (w.token.Word? && w.token.text == "report" ==>
                  var u := Reporting(cfg, e, body, w.next, now);
                  r == Outcome(u.e, u.out, 0))
            && (w.token.Word? && w.token.text == "hello" ==> r == Outcome(e, [Text("hello "), Text(cfg.info)], 0))
  {
  }

  /** The branches of the control interpreter past report and hello, for the method
      that runs them: w is the command word, `data` the C string strcmp() reads, and
      a the argument scanned after the word. */
  lemma {:induction false} DataOutcomes(cfg: Config, e: Engine, body: seq<byte>, now: nat, w: Scan, data: seq<byte>, a: Scan)
    requires Inv(cfg, e)
    requires w == FirstScan(body) && w.token.Word? && w.token.text != "report" && w.token.text != "hello"
    requires data == CString(Data(body)) && a == NextToken(body, w.next)
    ensures var r := RunCommand(cfg, e, body, now);
            && (data == "streams" ==> r == Outcome(e, [Text("streams ")] + Listing(RegisteredBelow(e.streams, N)), 0))
            && (data != "streams" && data != "desc" ==> r == Outcome(e, [], 1))
            && (data == "desc" && !a.token.Int? ==> r == Outcome(e, [], 2))
            && (data == "desc" && a.token.Int? && Lookup(e.streams, a.token.value % 256).None? ==> r == Outcome(e, [], 4))
            && (data == "desc" && a.token.Int? && Lookup(e.streams, a.token.value % 256).Some? ==>
                  r == Outcome(e, [Text("desc "), Hex(a.token.value), Ch(' '), Described(a.token.value % 256)], 0))
  {
  }

  /** onControlStreamFrame(): the reply frame on stream 0. */
  function Control(cfg: Config, e: Engine, body: seq<byte>, now: nat): (r: Effect)
    requires Inv(cfg, e)
    ensures Inv(cfg, r.e) && r.e.rx == e.rx && r.e.streams == e.streams
    ensures |r.out| >= 4 && r.out[..2] == ReplyHeader(0) && r.out[|r.out| - 2..] == FrameEnd()
  {
    var c := RunCommand(cfg, e, body, now);
    Effect(c.e, ReplyHeader(0) + c.body + ErrorCode(c.err) + FrameEnd())
  }

  /** Only the control channel reports errors: anything but a known command word
      replies error 1, and `desc` without an integer or naming no registered stream
      replies error 2 or 4; none of them changes the state. */
  lemma {:induction false} ControlErrors(cfg: Config, e: Engine, body: seq<byte>, now: nat)
    requires Inv(cfg, e)
    ensures SelectCommand(body).None? ==>
              Control(cfg, e, body, now) == Effect(e, ReplyHeader(0) + [Text("error:"), Dec(1)] + FrameEnd())
    ensures SelectCommand(body) == Some(Desc) ==>
              var d := NextToken(body, FirstScan(body).next).token;
              && (!d.Int? ==> Control(cfg, e, body, now) == Effect(e, ReplyHeader(0) + [Text("error:"), Dec(2)] + FrameEnd()))
              && (d.Int? && Lookup(e.streams, d.value % 256).None? ==>
                    Control(cfg, e, body, now) == Effect(e, ReplyHeader(0) + [Text("error:"), Dec(4)] + FrameEnd()))
    ensures SelectCommand(body) == Some(Report) ==> RunCommand(cfg, e, body, now).err == 0
  {
  }

  /** dispatch(): what one received frame does. */
  function Dispatched(cfg: Config, e: Engine, frame: seq<byte>, now: nat): (r: Effect)
    requires Inv(cfg, e)
    ensures Inv(cfg, r.e) && r.e.rx == e.rx && r.e.streams == e.streams
  {
    if |frame| < 2 then Effect(e, [])
    else
      var id := DecodeHexit(frame[0]);
      if id == INVALID_HEXIT then Effect(e, [])
      else if |frame| >= 3 && frame[2] == '#' then
        if id == 0 then Effect(e, [])
        else
          match DecodeHex(frame[3..])
          case None => Effect(e, [])
          case Some(data) => Effect(e, StreamFrame(e.streams, id, BinaryFrame, data))
      else if id == 0 then Control(cfg, e, frame[2..], now)
      else Effect(e, StreamFrame(e.streams, id, TextFrame, frame[2..]))
  }

  /** Dropped frames change nothing and write nothing, and neither does a frame for
      a stream id with no stream; every other frame is answered with exactly one
      reply frame on the stream it names. */
  lemma {:induction false} DispatchSilent(cfg: Config, e: Engine, frame: seq<byte>, now: nat)
    requires Inv(cfg, e)
    ensures Dropped(frame) ==> Dispatched(cfg, e, frame, now) == Effect(e, [])
    ensures !Dropped(frame) && DecodeHexit(frame[0]) != 0 && Lookup(e.streams, DecodeHexit(frame[0])).None? ==>
              Dispatched(cfg, e, frame, now) == Effect(e, [])
    ensures !Dropped(frame) && (DecodeHexit(frame[0]) == 0 || Lookup(e.streams, DecodeHexit(frame[0])).Some?) ==>
              var o := Dispatched(cfg, e, frame, now).out;
              |o| >= 4 && o[..2] == ReplyHeader(DecodeHexit(frame[0])) && o[|o| - 2..] == FrameEnd()
  {
  }

  /** The streams reply lists every registered id and nothing else, ascending, one
      hex digit each that decodes back to the id, separated by single spaces. */
  lemma {:induction false} StreamsListing(cfg: Config, e: Engine)
    requires Inv(cfg, e)
    ensures var ids := RegisteredBelow(e.streams, N);
            var o := Listing(ids);
            && (forall id :: id in ids <==> 1 <= id <= N && e.streams[id - 1].Some?)
            && (forall a, b :: 0 <= a < b < |ids| ==> ids[a] < ids[b])
            && |o| == (if ids == [] then 0 else 2 * |ids| - 1)
            && (forall k :: 0 <= k < |ids| ==> o[2 * k].Ch? && DecodeHexit(o[2 * k].c) == ids[k])
            && (forall k :: 0 <= k < |ids| - 1 ==> o[2 * k + 1] == Ch(' '))
  {
    var ids := RegisteredBelow(e.streams, N);
    RegisteredExact(e.streams, N);
    ListingLayout(ids);
  }

  /** The reporting half of tick(), with `now` the millis() of this tick. When due,
      the next report time moves on by exactly one interval and every masked stream
      gets one notification, in ascending order. Zap.hpp has no shouldReport() gate,
      so the mask is also the set of streams ready to report. */
  function ReportTick(cfg: Config, e: Engine, now: nat): (r: Effect)
    requires Inv(cfg, e)
    ensures Inv(cfg, r.e) && r.e == e.(nextAt := r.e.nextAt)
    ensures !(e.interval > 0 && now >= e.nextAt) ==> r == Effect(e, [])
  {
    if e.interval > 0 && now >= e.nextAt then
      Effect(e.(nextAt := Uint32(e.nextAt + e.interval)), Notices(DueBelow(e.mask, e.mask, N)))
    else Effect(e, [])
  }

  /** A due tick writes one notification for every bit of the mask and for nothing
      else, in ascending order, and moves the next report time on by one interval. */
  lemma {:induction false} TickReportsEveryMasked(cfg: Config, e: Engine, now: nat)
    requires Inv(cfg, e) && e.interval > 0 && now >= e.nextAt
    ensures var bits := DueBelow(e.mask, e.mask, N);
            var r := ReportTick(cfg, e, now);
            && r.out == Notices(bits)
            && r.e.nextAt == Uint32(e.nextAt + e.interval)
            && (forall b :: b in e.mask <==> b in bits)
            && (forall a, b :: 0 <= a < b < |bits| ==> bits[a] < bits[b])
  {
    var bits := DueBelow(e.mask, e.mask, N);
    DueBelowExact(e.mask, e.mask, N);
    assert ReportTick(cfg, e, now) == Effect(e.(nextAt := Uint32(e.nextAt + e.interval)), Notices(bits));
  }

  /** One byte of the receive loop of tick(): through the state machine; a frame it
      completes is dispatched before rxWp_ is reset. */
  function Step(cfg: Config, e: Engine, c: byte, now: nat): (r: Effect)
    requires Inv(cfg, e)
    ensures Inv(cfg, r.e) && r.e.streams == e.streams && r.e.rx == Feed(e.rx, c, cfg.cap).rx
  {
    var f := Feed(e.rx, c, cfg.cap);
    if f.frame.Some? then
      var d := Dispatched(cfg, e, f.frame.value, now);
      Effect(d.e.(rx := f.rx), d.out)
    else Effect(e.(rx := f.rx), [])
  }

  /** The receive loop of tick(). */
  function Receive(cfg: Config, e: Engine, input: seq<byte>, now: nat): (r: Effect)
    requires Inv(cfg, e)
    ensures Inv(cfg, r.e) && r.e.streams == e.streams
    decreases |input|
  {
    if input == [] then Effect(e, [])
    else
      var d := Step(cfg, e, input[0], now);
      var rest := Receive(cfg, d.e, input[1..], now);
      Effect(rest.e, d.out + rest.out)
  }

  /** tick(): the receive loop, then the reports. */
  function Ticked(cfg: Config, e: Engine, input: seq<byte>, now: nat): (r: Effect)
    requires Inv(cfg, e)
    ensures Inv(cfg, r.e) && r.e.streams == e.streams
  {
    var rcv := Receive(cfg, e, input, now);
    var rep := ReportTick(cfg, rcv.e, now);
    Effect(rep.e, rcv.out + rep.out)
  }

  /** The receiver ends where the shared state machine alone would: this generation
      frames lines exactly as the current engine does. */
  lemma {:induction false} ReceiveFrames(cfg: Config, e: Engine, input: seq<byte>, now: nat)
    requires Inv(cfg, e)
    ensures Receive(cfg, e, input, now).e.rx == Frames(e.rx, input, cfg.cap).rx
    decreases |input|
  {
    if input != [] {
      ReceiveFrames(cfg, Step(cfg, e, input[0], now).e, input[1..], now);
    }
  }

  /** Input split over two reads gives the same state and output as the whole input
      read at once. */
  lemma {:induction false} ReceiveChunked(cfg: Config, e: Engine, a: seq<byte>, b: seq<byte>, now: nat)
    requires Inv(cfg, e)
    ensures var first := Receive(cfg, e, a, now);
            var second := Receive(cfg, first.e, b, now);
            Receive(cfg, e, a + b, now) == Effect(second.e, first.out + second.out)
    decreases |a|
  {
    if a == [] {
      assert a + b == b;
    } else {
      var d := Step(cfg, e, a[0], now);
      ReceiveChunked(cfg, d.e, a[1..], b, now);
      var tail := Receive(cfg, d.e, a[1..], now);
      var second := Receive(cfg, tail.e, b, now);
      var whole := Receive(cfg, d.e, a[1..] + b, now);
      ConsTail(a, b);
      assert Receive(cfg, e, a + b, now) == Effect(whole.e, d.out + whole.out);
      Appended(d.out, tail.out, second.out);
    }
  }

  /** Receiving one more byte is one more Step. */
  lemma {:induction false} ReceiveSnoc(cfg: Config, e: Engine, a: seq<byte>, c: byte, now: nat)
    requires Inv(cfg, e)
    ensures var r := Receive(cfg, e, a, now);
            var s := Step(cfg, r.e, c, now);
            Receive(cfg, e, a + [c], now) == Effect(s.e, r.out + s.out)
  {
    ReceiveChunked(cfg, e, a, [c], now);
    var r := Receive(cfg, e, a, now);
    assert [c][1..] == [];
    var s := Step(cfg, r.e, c, now);
    assert Receive(cfg, r.e, [c], now) == Effect(s.e, s.out + []);
    assert s.out + [] == s.out;
  }

  /** The bytes the parser has left in the buffer after the command word, from the
      start of the body to the 0 after it, are Data(body). */
  lemma {:induction false} MarkedData(before: seq<byte>, body: seq<byte>, end: nat)
    requires 2 + |body| == end < |before| && before[2..end] == body && before[end] == '\0'
    ensures FirstScan(body).mark.Some? ==> 2 + FirstScan(body).mark.value < |before|
    ensures Marked(before, 2, FirstScan(body).mark)[2..end + 1] == Data(body)
  {
    assert before[2..end + 1] == body + ['\0'];
  }

  /** zap::Protocol: the receive buffer and state, the report configuration, the
      stream slots, and `out`, everything written to the port so far. */
  class Protocol {
    const deviceInfo: string
    const rxBuffer: array<byte>
    var rxState: RxState
    var rxWp: nat
    var reportInterval: nat
    var nextReportAt: nat
    var reportStreams: set<nat>
    var streams: seq<Option<Stream>>
    var out: seq<Out>

    function Cfg(): Config {
      Config(deviceInfo, rxBuffer.Length)
    }

    /** The fields as an Engine value, with the receiver given. */
    function With(rx: Rx): Engine
      reads this
    {
      Engine(rx, reportInterval, nextReportAt, reportStreams, streams)
    }

    /** The fields as an Engine value. */
    function State(): Engine
      reads this, rxBuffer
      requires rxWp <= rxBuffer.Length
    {
      With(Rx(rxState, rxBuffer[..rxWp]))
    }

    ghost predicate Valid()
      reads this, rxBuffer
    {
      rxWp <= rxBuffer.Length && Inv(Cfg(), State())
    }

    constructor (deviceInfo: string, rxBuffer: array<byte>)
      requires rxBuffer.Length >= 1
      ensures Valid() && State() == Initial(Cfg()) && out == []
      ensures this.deviceInfo == deviceInfo && this.rxBuffer == rxBuffer
    {
      this.deviceInfo := deviceInfo;
      this.rxBuffer := rxBuffer;
      rxState := Normal;
      rxWp := 0;
      reportInterval := 0;
      nextReportAt := 0;
      reportStreams := {};
      streams := seq(N, _ => None);
      out := [];
    }

    /** setStreamHandler(). */
    method SetStreamHandler(id: int, handler: Stream)
      requires Valid()
      modifies this`streams
      ensures Valid() && State() == Register(Cfg(), old(State()), id, handler)
    {
      if id < 1 || id > N {
        return;
      }
      streams := streams[id - 1 := Some(handler)];
    }

    /** lookupStreamByID(). */
    method LookupStreamById(id: nat) returns (s: Option<Stream>)
      requires |streams| == N
      ensures s == Lookup(streams, id)
    {
      if id < 1 || id > N {
        return None;
      }
      s := streams[id - 1];
    }

    /** startMessage(), writing the id as a hex digit (see IdDigitAsWritten). */
    method StartMessage(id: nat)
      requires id < 16
      modifies this`out
      ensures out == old(out) + ReplyHeader(id)
    {
      out := out + [Ch(ToHex(id)), Ch('>')];
    }

    /** startNotification(), writing the id as a hex digit (see IdDigitAsWritten). */
    method StartNotification(id: nat)
      requires id < 16
      modifies this`out
      ensures out == old(out) + NotificationHeader(id)
    {
      out := out + [Ch(ToHex(id)), Ch('!')];
    }

    /** endFrame(). */
    method EndFrame()
      modifies this`out
      ensures out == old(out) + FrameEnd()
    {
      out := out + [Ch('\r'), Ch('\n')];
    }

    /** decodeBinary(): rxBuffer_[3..rxWp_] decoded into the front of the buffer. */
    method DecodeBinary() returns (len: int)
      requires 3 <= rxWp <= rxBuffer.Length
      modifies rxBuffer
      ensures var decoded := DecodeHex(old(rxBuffer[3..rxWp]));
              && (len < 0 <==> decoded.None?)
              && (len >= 0 ==> len == (rxWp - 3) / 2 && rxBuffer[..len] == decoded.value)
      ensures forall k :: (rxWp - 3) / 2 <= k < rxBuffer.Length ==> rxBuffer[k] == old(rxBuffer[k])
    {
      len := DecodeInPlace(rxBuffer, rxWp);
    }

    /** onStreamFrame(). */
    method OnStreamFrame(id: nat, kind: FrameKind, data: seq<byte>)
      requires id < 16 && |streams| == N
      modifies this`out
      ensures out == old(out) + StreamFrame(streams, id, kind, data)
    {
      var stream := LookupStreamById(id);
      if stream.None? {
        return;
      }
      StartMessage(id);
      out := out + stream.value.handle(kind, data);
      EndFrame();
      Appended3(old(out), ReplyHeader(id), stream.value.handle(kind, data), FrameEnd());
    }

    /** The streams reply: the ids of the registered streams. */
    method WriteStreamList()
      requires |streams| == N
      modifies this`out
      ensures out == old(out) + Listing(RegisteredBelow(streams, N))
    {
      WriteIdsBelow(N);
    }

    /** The loop of the streams command over ids 1 to count. */
    method WriteIdsBelow(count: nat)
      requires count <= |streams| <= 15
      modifies this`out
      ensures out == old(out) + Listing(RegisteredBelow(streams, count))
    {
      var slots := streams;
      ghost var start := out;
      var first := true;
      var id := 1;
      while id <= count
        invariant 1 <= id <= count + 1
        invariant first <==> RegisteredBelow(slots, id - 1) == []
        invariant out == start + Listing(RegisteredBelow(slots, id - 1))
      {
        ListingStep(start, slots, id);
        if slots[id - 1].Some? {
          if !first {
            out := out + [Ch(' ')];
          }
          first := false;
          out := out + [Ch(StreamDigit(id))];
        }
        id := id + 1;
      }
    }

    /** The loop of updateReporting() that resets reportStreams_ to every capable
        stream when no id is listed. */
    method SelectCapable()
      requires |streams| == N
      modifies this`reportStreams
      ensures reportStreams == CapableMask(streams)
    {
      reportStreams := {};
      var i := 0;
      while i < N
        invariant i <= N
        invariant forall j :: j in reportStreams <==> 0 <= j < i && streams[j].Some? && streams[j].value.canReport
      {
        if streams[i].Some? && streams[i].value.canReport {
          reportStreams := reportStreams + {i};
        }
        i := i + 1;
      }
    }

    /** The loop of updateReporting() over the listed ids, OR-ing each capable one
        into reportStreams_ as it goes; false when it stops at a bad id. */
    method OrRequested(p: ArgParser) returns (ok: bool)
      requires |streams| == N && p.Valid() && p.args == rxBuffer && p.rp <= |p.body|
      modifies p`rp, rxBuffer, this`reportStreams
      ensures p.Valid()
      ensures OrIds(streams, p.body, old(p.rp), old(reportStreams)) == Ored(reportStreams, ok)
    {
      var slots := streams;
      ghost var body, start, mask := p.body, p.rp, reportStreams;
      while !p.End()
        invariant p.Valid() && start <= p.rp <= |body|
        invariant OrIds(slots, body, start, mask) == OrIds(slots, body, p.rp, reportStreams)
        decreases |body| - p.rp
      {
        ghost var at := p.rp;
        var listed, id := p.ScanInt();
        OrStep(slots, body, at, reportStreams, listed, id);
        if !listed {
          return false;
        }
        var index := (id - 1) % 256;
        if index >= N || slots[index].None? {
          return false;
        }
        if slots[index].value.canReport {
          reportStreams := reportStreams + {index};
        }
      }
      return true;
    }

    /** updateReporting(), parsing with p just after the word report; e is the
        engine state when the frame arrived. */
    method UpdateReporting(p: ArgParser, now: nat, ghost e: Engine)
      requires Inv(Cfg(), e) && With(e.rx) == e
      requires p.Valid() && p.args == rxBuffer
      modifies p`rp, rxBuffer, this`out, this`reportInterval, this`nextReportAt, this`reportStreams
      ensures var u := Reporting(Cfg(), e, p.body, old(p.rp), now);
              With(e.rx) == u.e && out == old(out) + u.out
    {
      var ok, flag := p.ScanBool();
      if !ok {
        return;
      }
      if !flag {
        reportInterval := 0;
        out := out + [Text("report off")];
        return;
      }
      var isInt, value := p.ScanInt();
      if !isInt {
        return;
      }
      ArmReporting(p, value, now, e);
    }

    /** The rest of updateReporting() once the interval is read: the mask, then the
        interval and the next report time. */
    method ArmReporting(p: ArgParser, value: int, now: nat, ghost e: Engine)
      requires Inv(Cfg(), e) && With(e.rx) == e
      requires p.Valid() && p.args == rxBuffer && p.rp <= |p.body|
      modifies p`rp, rxBuffer, this`out, this`reportInterval, this`nextReportAt, this`reportStreams
      ensures var a := Armed(Cfg(), e, p.body, old(p.rp), value, now);
              With(e.rx) == a.e && out == old(out) + a.out
    {
      var interval := Uint16(value);
      if p.End() {
        SelectCapable();
      } else {
        var ok := OrRequested(p);
        if !ok {
          return;
        }
      }
      reportInterval := interval;
      nextReportAt := Uint32(now + interval);
      out := out + [Text("report on")];
    }

    /** The command part of onControlStreamFrame(): what runs between the reply
        header and the error code, with p just built on the body rxBuffer_[2..rxWp_]. */
    method Interpret(p: ArgParser, now: nat, ghost e: Engine) returns (err: nat)
      requires Inv(Cfg(), e) && With(e.rx) == e
      requires p.Valid() && p.args == rxBuffer && p.off == 2 && p.rp == SkipBlanks(p.body, 0)
      requires 2 + |p.body| == rxWp < rxBuffer.Length
      requires rxBuffer[2..rxWp] == p.body && rxBuffer[rxWp] == '\0'
      modifies p`rp, rxBuffer, this`out, this`reportInterval, this`nextReportAt, this`reportStreams
      ensures var r := RunCommand(Cfg(), e, p.body, now);
              With(e.rx) == r.e && out == old(out) + r.body && err == r.err
    {
      ghost var body := p.body;
      ghost var before := rxBuffer[..];
      ghost var w := FirstScan(body);
      var isWord, word := p.ScanWord();
      WordOutcomes(Cfg(), e, body, now);
      err := 0;
      if !isWord {
        err := 1;
      } else if word == "report" {
        UpdateReporting(p, now, e);
      } else if word == "hello" {
        out := out + [Text("hello "), Text(deviceInfo)];
      } else {
        MarkedData(before, body, rxWp);
        DataOutcomes(Cfg(), e, body, now, w, CString(Data(body)), NextToken(body, w.next));
        err := InterpretData(p);
      }
    }

    /** The branches of onControlStreamFrame() that compare `data`, the body as the
        parser has left it after the command word. */
    method InterpretData(p: ArgParser) returns (err: nat)
      requires |streams| == N
      requires p.Valid() && p.args == rxBuffer
      requires p.rp == FirstScan(p.body).next
      requires 2 <= rxWp < rxBuffer.Length && CString(rxBuffer[2..rxWp + 1]) == CString(Data(p.body))
      modifies p`rp, rxBuffer, this`out
      ensures var data := CString(Data(p.body));
              var a := NextToken(p.body, FirstScan(p.body).next);
              && (data == "streams" ==> err == 0 && out == old(out) + ([Text("streams ")] + Listing(RegisteredBelow(streams, N))))
              && (data != "streams" && data != "desc" ==> err == 1 && out == old(out))
              && (data == "desc" && !a.token.Int? ==> err == 2 && out == old(out))
              && (data == "desc" && a.token.Int? && Lookup(streams, a.token.value % 256).None? ==> err == 4 && out == old(out))
              && (data == "desc" && a.token.Int? && Lookup(streams, a.token.value % 256).Some? ==>
                    err == 0 && out == old(out) + [Text("desc "), Hex(a.token.value), Ch(' '), Described(a.token.value % 256)])
    {
      var data := CString(rxBuffer[2..rxWp + 1]);
      if data == "streams" {
        out := out + [Text("streams ")];
        WriteStreamList();
        Appended(old(out), [Text("streams ")], Listing(RegisteredBelow(streams, N)));
        err := 0;
      } else if data == "desc" {
        err := Describe(p);
      } else {
        err := 1;
      }
    }

    /** The desc command: the description of the stream whose id follows, or error
        2 when no integer follows and error 4 when no stream has that id. */
    method Describe(p: ArgParser) returns (err: nat)
      requires p.Valid() && p.args == rxBuffer && |streams| == N
      modifies p`rp, rxBuffer, this`out
      ensures var a := NextToken(p.body, old(p.rp));
              && (!a.token.Int? ==> err == 2 && out == old(out))
              && (a.token.Int? && Lookup(streams, a.token.value % 256).None? ==> err == 4 && out == old(out))
              && (a.token.Int? && Lookup(streams, a.token.value % 256).Some? ==>
                    err == 0 && out == old(out) + [Text("desc "), Hex(a.token.value), Ch(' '), Described(a.token.value % 256)])
    {
      var isInt, id := p.ScanInt();
      if !isInt {
        return 2;
      }
      var stream := LookupStreamById(id % 256);
      if stream.None? {
        return 4;
      }
      out := out + [Text("desc "), Hex(id), Ch(' '), Described(id % 256)];
      err := 0;
    }

    /** onControlStreamFrame(): the body is rxBuffer_[2..rxWp_], followed by the 0
        dispatch() wrote; e is the engine state when the frame arrived. */
    method OnControlStreamFrame(now: nat, ghost e: Engine)
      requires Inv(Cfg(), e) && With(e.rx) == e
      requires 2 <= rxWp < rxBuffer.Length && rxBuffer[rxWp] == '\0'
      modifies rxBuffer, this`out, this`reportInterval, this`nextReportAt, this`reportStreams
      ensures var c := Control(Cfg(), e, old(rxBuffer[2..rxWp]), now);
              With(e.rx) == c.e && out == old(out) + c.out
    {
      var p := new ArgParser(rxBuffer, 2, rxWp - 2);
      ghost var start := out;
      ghost var c := RunCommand(Cfg(), e, p.body, now);
      StartMessage(0);
      var err := Interpret(p, now, e);
      if err != 0 {
        out := out + [Text("error:"), Dec(err)];
      }
      EndFrame();
      FrameLayout(start, ReplyHeader(0), c.body, ErrorCode(c.err), FrameEnd(), out);
    }

    /** dispatch(): the frame is rxBuffer_[..rxWp_]. */
    method Dispatch(now: nat)
      requires Valid()
      modifies rxBuffer, this`out, this`reportInterval, this`nextReportAt, this`reportStreams
      ensures var d := Dispatched(Cfg(), old(State()), old(rxBuffer[..rxWp]), now);
              With(old(State()).rx) == d.e && out == old(out) + d.out
    {
      ghost var e := State();
      ghost var frame := rxBuffer[..rxWp];
      if rxWp < 2 {
        return;
      }
      var id := DecodeHexit(rxBuffer[0]);
      if id == INVALID_HEXIT {
        return;
      }
      if rxWp >= 3 && rxBuffer[2] == '#' {
        if id == 0 {
          return;
        }
        assert frame[3..] == rxBuffer[3..rxWp];
        var len := DecodeBinary();
        if len < 0 {
          return;
        }
        OnStreamFrame(id, BinaryFrame, rxBuffer[..len]);
      } else {
        assert frame[2..] == rxBuffer[2..rxWp];
        rxBuffer[rxWp] := '\0';
        if id == 0 {
          OnControlStreamFrame(now, e);
        } else {
          OnStreamFrame(id, TextFrame, rxBuffer[2..rxWp]);
        }
      }
    }

    /** rxBuffer_[rxWp_++] = ch, kept only while a slot stays free for dispatch's 0. */
    method Store(c: byte)
      requires rxWp < rxBuffer.Length
      modifies rxBuffer, this`rxWp
      ensures rxWp < rxBuffer.Length
      ensures rxBuffer[..rxWp] == Append(old(rxBuffer[..rxWp]), c, rxBuffer.Length)
    {
      if rxWp + 1 < rxBuffer.Length {
        rxBuffer[rxWp] := c;
        rxWp := rxWp + 1;
        assert rxBuffer[..rxWp] == old(rxBuffer[..rxWp]) + [c];
      }
    }

    /** One byte of the receive loop of tick(). */
    method ReceiveByte(c: byte, now: nat)
      requires Valid()
      modifies rxBuffer, this`rxState, this`rxWp, this`out, this`reportInterval, this`nextReportAt, this`reportStreams
      ensures Valid()
      ensures var s := Step(Cfg(), old(State()), c, now);
              State() == s.e && out == old(out) + s.out
    {
      match rxState
      case Normal =>
        if c == '\r' {
          Dispatch(now);
          rxWp := 0;
          rxState := SeenCr;
        } else if c == '\n' {
          Dispatch(now);
          rxWp := 0;
        } else {
          Store(c);
        }
      case SeenCr =>
        if c != '\n' {
          Store(c);
        }
        rxState := Normal;
    }

    /** The reporting half of tick(). */
    method SendReports(now: nat)
      requires Valid()
      modifies this`nextReportAt, this`out
      ensures Valid()
      ensures var r := ReportTick(Cfg(), old(State()), now);
              State() == r.e && out == old(out) + r.out
    {
      ghost var r := ReportTick(Cfg(), State(), now);
      if reportInterval > 0 && now >= nextReportAt {
        nextReportAt := Uint32(nextReportAt + reportInterval);
        Notify(reportStreams);
      }
      assert rxBuffer[..rxWp] == old(rxBuffer[..rxWp]);
      assert State() == r.e;
    }

    /** The loop of tick() that sends one notification per masked stream. */
    method Notify(mask: set<nat>)
      modifies this`out
      ensures out == old(out) + Notices(DueBelow(mask, mask, N))
    {
      NotifyBelow(mask, N);
    }

    /** The same loop over the first `count` stream bits. */
    method NotifyBelow(mask: set<nat>, count: nat)
      requires count <= 15
      modifies this`out
      ensures out == old(out) + Notices(DueBelow(mask, mask, count))
    {
      ghost var start := out;
      var i := 0;
      while i < count
        invariant i <= count
        invariant out == start + Notices(DueBelow(mask, mask, i))
      {
        NoticesStep(start, mask, mask, i);
        if i in mask {
          SendNotice(i);
        }
        i := i + 1;
      }
    }

    /** One notification of the loop: startNotification(), the report, endFrame(). */
    method SendNotice(b: nat)
      requires b < 15
      modifies this`out
      ensures out == old(out) + Notice(b)
    {
      StartNotification(b + 1);
      out := out + [Text("report "), Reported(b + 1)];
      EndFrame();
      Appended3(old(out), NotificationHeader(b + 1), [Text("report "), Reported(b + 1)], FrameEnd());
    }

    /** The receive loop of tick(), over every byte the port has. */
    method ReceiveAll(input: seq<byte>, now: nat)
      requires Valid()
      modifies rxBuffer, this`rxState, this`rxWp, this`out, this`reportInterval, this`nextReportAt, this`reportStreams
      ensures Valid()
      ensures var r := Receive(Cfg(), old(State()), input, now);
              State() == r.e && out == old(out) + r.out
    {
      ghost var e := State();
      var k := 0;
      while k < |input|
        invariant k <= |input| && Valid()
        invariant var r := Receive(Cfg(), e, input[..k], now);
                  State() == r.e && out == old(out) + r.out
      {
        ghost var r := Receive(Cfg(), e, input[..k], now);
        ghost var s := Step(Cfg(), r.e, input[k], now);
        ReceiveSnoc(Cfg(), e, input[..k], input[k], now);
        assert input[..k + 1] == input[..k] + [input[k]];
        ReceiveByte(input[k], now);
        Appended(old(out), r.out, s.out);
        k := k + 1;
      }
      assert input[..k] == input;
    }

    /** tick(): the receive loop, then the reports. */
    method Tick(input: seq<byte>, now: nat)
      requires Valid()
      modifies rxBuffer, this`rxState, this`rxWp, this`out, this`reportInterval, this`nextReportAt, this`reportStreams
      ensures Valid()
      ensures var t := Ticked(Cfg(), old(State()), input, now);
              State() == t.e && out == old(out) + t.out
    {
      ghost var rcv := Receive(Cfg(), State(), input, now);
      ReceiveAll(input, now);
      ghost var rep := ReportTick(Cfg(), rcv.e, now);
      SendReports(now);
      Appended(old(out), rcv.out, rep.out);
    }
  }
}
