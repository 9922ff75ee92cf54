/** The current protocol engine, Protocol<N> of zap_protocol.hpp: the frame
    dispatcher, the control channel, the reporting scheduler and the port output
    of BaseProtocol. The functions up to the class say, on values, what one frame,
    one control command and one tick do; the class Protocol runs the source's
    loops over the receive buffer and is proved to agree with them. */
module ZapEngine {
  import opened Helpers
  import opened HelpersCpp
  import opened Wrappers
  import opened HexCodec
  import opened Tokenizer
  import opened Wire
  import opened Receiver
  import opened CNumbers
  import opened Replies

  /** What a Protocol object is given and never changes: the template parameter N,
      the string table, the device info, and the size of the receive buffer. */
  datatype Config = Config(n: nat, table: StringTable, info: string, cap: nat)

  /** N stays below 16 so that every stream id is one hex digit and every mask bit
      fits reportStreams_. */
  predicate ConfigOk(cfg: Config) {
    1 <= cfg.n <= 15 && cfg.cap >= 1
  }

  /** The state a tick works on. `mask` holds the bit numbers i of reportStreams_,
      that is the stream ids i + 1; slot i of `streams` is streams_[i]. */
  datatype Engine = Engine(
    rx: Rx,
    interval: nat,
    nextAt: nat,
    mask: set<nat>,
    streams: seq<Option<Endpoint>>)

  /** What holds between ticks: the fields stay in their C ranges, the frame being
      received leaves room for its terminator, and every mask bit names a
      registered stream. */
  predicate Inv(cfg: Config, e: Engine) {
    && ConfigOk(cfg)
    && |e.streams| == cfg.n
    && |e.rx.pending| < cfg.cap
    && e.interval < U16
    && e.nextAt < U32
    && forall i :: i in e.mask ==> i < cfg.n && e.streams[i].Some?
  }

  /** The state after an operation and what it wrote to the port. */
  datatype Effect = Effect(e: Engine, out: seq<Out>)

  /** The engine before any call: nothing received, no reporting, no stream. */
  function Initial(cfg: Config): (e: Engine)
    requires ConfigOk(cfg)
    ensures Inv(cfg, e) && e.mask == {} && e.interval == 0
    ensures forall i :: 0 <= i < cfg.n ==> e.streams[i].None?
  {
    Engine(Rx(Normal, []), 0, 0, {}, seq(cfg.n, _ => None))
  }

  /** setStreamHandler(): ids outside 1..N are ignored. */
  function Register(cfg: Config, e: Engine, id: int, ep: Endpoint): (r: Engine)
    requires Inv(cfg, e)
    ensures Inv(cfg, r)
    ensures 1 <= id <= cfg.n ==> r.streams[id - 1] == Some(ep)
    ensures forall i :: 0 <= i < cfg.n && i != id - 1 ==> r.streams[i] == e.streams[i]
    ensures forall i :: 0 <= i < cfg.n && e.streams[i].Some? ==> r.streams[i].Some?
  {
    if id < 1 || id > cfg.n then e else e.(streams := e.streams[id - 1 := Some(ep)])
  }

  /** lookupStreamByID(): the stream of an id in 1..N, if one is registered. */
  function Lookup(streams: seq<Option<Endpoint>>, id: nat): (r: Option<Endpoint>)
    ensures r.Some? <==> 1 <= id <= |streams| && streams[id - 1].Some?
    ensures r.Some? ==> r == streams[id - 1]
  {
    if id < 1 || id > |streams| then None else streams[id - 1]
  }

  /** onStreamFrame(): the reply frame around what the stream does with the frame. */
  function StreamFrame(streams: seq<Option<Endpoint>>, id: nat, kind: FrameKind, data: seq<byte>): (o: seq<Out>)
    requires id < 16
    ensures |o| >= 4 && o[..2] == ReplyHeader(id) && o[|o| - 2..] == FrameEnd()
  {
    ReplyHeader(id) + Answer(Lookup(streams, id), kind, data) + FrameEnd()
  }

  /** What onStreamFrame() writes between the header and the end of the frame:
      error invalid-stream-id without a stream, otherwise what the stream wrote
      followed by what its reply asks of the engine. */
  function Answer(stream: Option<Endpoint>, kind: FrameKind, data: seq<byte>): (o: seq<Out>)
    ensures stream.None? ==> o == ErrorText(StrErrInvalidStreamId)
    ensures stream.Some? ==> var r := stream.value.handle(kind, data);
              && (r.reply.Succeeded? ==> o == r.written + [Str(StrOk)])
              && (r.reply.Failed? ==> o == r.written + ErrorText(r.reply.code))
              && (r.reply.Answered? ==> o == r.written)
  {
    match stream
    case None => ErrorText(StrErrInvalidStreamId)
    case Some(ep) =>
      var r := ep.handle(kind, data);
      r.written + Completion(r.reply)
  }

  /** The stream-result convention of onStreamFrame(), frame by frame: a reply of 0
      adds ok after what the stream wrote, a positive reply adds that error, a
      negative one adds nothing, and an id without a stream gets invalid-stream-id. */
  lemma {:induction false} StreamFrameConvention(streams: seq<Option<Endpoint>>, id: nat, kind: FrameKind, data: seq<byte>)
    requires id < 16
    ensures Lookup(streams, id).None? ==>
              StreamFrame(streams, id, kind, data)
              == ReplyHeader(id) + ErrorText(StrErrInvalidStreamId) + FrameEnd()
    ensures Lookup(streams, id).Some? ==>
              var r := Lookup(streams, id).value.handle(kind, data);
              && (r.reply.Succeeded? ==>
                    StreamFrame(streams, id, kind, data) == ReplyHeader(id) + r.written + [Str(StrOk)] + FrameEnd())
              && (r.reply.Failed? ==>
                    StreamFrame(streams, id, kind, data) == ReplyHeader(id) + r.written + ErrorText(r.reply.code) + FrameEnd())
              && (r.reply.Answered? ==>
                    StreamFrame(streams, id, kind, data) == ReplyHeader(id) + r.written + FrameEnd())
  {
  }

  /** The commands of the control channel. */
  datatype Command = Report | Hello | Streams | Desc | Ident

  function CommandEntry(c: Command): Entry {
    match c
    case Report => StrReport
    case Hello => StrHello
    case Streams => StrStreams
    case Desc => StrDesc
    case Ident => StrIdent
  }

  /** The command a word names: the first of report, hello, streams, desc, ident
      whose string-table text equals the word. */
  function SelectCommand(table: StringTable, word: string): (r: Option<Command>)
    ensures r.Some? ==> table(CommandEntry(r.value)) == word
    ensures r.None? <==> forall c :: table(CommandEntry(c)) != word
  {
    if table(StrReport) == word then Some(Report)
    else if table(StrHello) == word then Some(Hello)
    else if table(StrStreams) == word then Some(Streams)
    else if table(StrDesc) == word then Some(Desc)
    else if table(StrIdent) == word then Some(Ident)
    else None
  }

  /** The command selection as written: each branch tests `streq(...) == 0`, and
      streq() is true on equality, so a branch is taken when the word differs. */
  function SelectCommandAsWritten(table: StringTable, word: string): Option<Command> {
    if table(StrReport) != word then Some(Report)
    else if table(StrHello) != word then Some(Hello)
    else if table(StrStreams) != word then Some(Streams)
    else if table(StrDesc) != word then Some(Desc)
    else if table(StrIdent) != word then Some(Ident)
    else None
  }

  /** As written, `hello` runs the report command and `report` answers hello. */
  lemma {:induction false} CommandsSwappedAsWritten(table: StringTable)
    requires table(StrReport) != table(StrHello)
    ensures SelectCommandAsWritten(table, table(StrHello)) == Some(Report)
    ensures SelectCommandAsWritten(table, table(StrReport)) == Some(Hello)
    ensures SelectCommand(table, table(StrHello)) == Some(Hello)
    ensures SelectCommand(table, table(StrReport)) == Some(Report)
  {
  }

  /** With distinct texts, every command is selected by its own word and only by it. */
  lemma {:induction false} SelectCommandExact(table: StringTable, c: Command, word: string)
    requires forall c1, c2 :: c1 != c2 ==> table(CommandEntry(c1)) != table(CommandEntry(c2))
    ensures SelectCommand(table, word) == Some(c) <==> word == table(CommandEntry(c))
  {
    if word == table(CommandEntry(c)) {
      var r := SelectCommand(table, word);
      assert r.Some?;
      assert table(CommandEntry(r.value)) == table(CommandEntry(c));
    }
  }

  /** Stream ids listed after `report on <interval>`, read until the end of the body. */
  datatype Request = Listed(bits: set<nat>) | Refused(err: Entry)

  function RequestedBits(cfg: Config, streams: seq<Option<Endpoint>>, body: seq<byte>, rp: nat): (r: Request)
    requires |streams| == cfg.n
    requires rp <= |body|
    decreases |body| - rp
    ensures r.Listed? ==> forall i :: i in r.bits ==> i < cfg.n && streams[i].Some?
    ensures r.Refused? ==> r.err == StrErrInvalidArgument || r.err == StrErrInvalidStreamId
  {
    if rp >= |body| then Listed({})
    else
      var t := NextToken(body, rp);
      if !t.token.Int? then Refused(StrErrInvalidArgument)
      else
        var bit := (t.token.value - 1) % 256;
        if bit >= cfg.n || streams[bit].None? then Refused(StrErrInvalidStreamId)
        else
          match RequestedBits(cfg, streams, body, t.next)
          case Refused(err) => Refused(err)
          case Listed(bits) => Listed({bit} + bits)
  }

  /** Ids already collected, joined to what the rest of the list yields. */
  function Join(bits: set<nat>, r: Request): (j: Request)
    ensures r.Refused? ==> j == r
    ensures r.Listed? ==> j == Listed(bits + r.bits)
  {
    match r
    case Refused(_) => r
    case Listed(more) => Listed(bits + more)
  }

  /** One id of the list, scanned at rp as `listed` and `id`: it is refused, or it
      joins the ids collected so far. */
  lemma {:induction false} RequestedStep(cfg: Config, streams: seq<Option<Endpoint>>, body: seq<byte>, rp: nat,
                                         bits: set<nat>, listed: bool, id: int)
    requires |streams| == cfg.n && rp < |body|
    requires listed == NextToken(body, rp).token.Int? && (listed ==> id == NextToken(body, rp).token.value)
    ensures var r := Join(bits, RequestedBits(cfg, streams, body, rp));
            && (!listed ==> r == Refused(StrErrInvalidArgument))
            && (listed && ((id - 1) % 256 >= cfg.n || streams[(id - 1) % 256].None?) ==>
                  r == Refused(StrErrInvalidStreamId))
            && (listed && (id - 1) % 256 < cfg.n && streams[(id - 1) % 256].Some? ==>
                  NextToken(body, rp).next <= |body| &&
                  r == Join(bits + {(id - 1) % 256}, RequestedBits(cfg, streams, body, NextToken(body, rp).next)))
  {
    var t := NextToken(body, rp);
    if listed {
      var bit := (id - 1) % 256;
      if bit < cfg.n && streams[bit].Some? {
        match RequestedBits(cfg, streams, body, t.next)
        case Refused(_) =>
        case Listed(more) => assert bits + ({bit} + more) == (bits + {bit}) + more;
      }
    }
  }

  /** The mask updateReporting() stores: requested, registered and able to report. */
  function ReportMask(streams: seq<Option<Endpoint>>, requested: set<nat>): (m: set<nat>)
    ensures forall i :: i in m <==> i in requested && i < |streams| && streams[i].Some? && streams[i].value.canReport
  {
    set i | i in requested && i < |streams| && streams[i].Some? && streams[i].value.canReport
  }

  /** updateReporting(): the state afterwards and what it writes between the reply
      header and the error code. Parsing starts at `rp`, after the word report. */
  function ReportingUpdated(cfg: Config, e: Engine, body: seq<byte>, rp: nat, now: nat): (r: Effect)
    requires Inv(cfg, e)
    ensures Inv(cfg, r.e) && r.e.rx == e.rx && r.e.streams == e.streams
  {
    var b := NextToken(body, rp);
    if !b.token.Bool? then Effect(e, ErrorText(StrErrInvalidArgument))
    else if !b.token.flag then Effect(e.(interval := 0), [Str(StrOk)])
    else
      var iv := NextToken(body, b.next);
      if !iv.token.Int? then Effect(e, ErrorText(StrErrInvalidArgument))
      else ReportingArmed(cfg, e, body, iv.next, iv.token.value, now)
  }

  /** The ids `report on <interval>` asks for, with the ids starting at `rp`: the
      listed ones, or all fifteen when none are listed. */
  function IdsRequested(cfg: Config, streams: seq<Option<Endpoint>>, body: seq<byte>, rp: nat): (r: Request)
    requires |streams| == cfg.n
    ensures r.Listed? && rp >= |body| ==> r.bits == Below(15)
    ensures r.Listed? && rp < |body| ==> forall i :: i in r.bits ==> i < cfg.n && streams[i].Some?
  {
    if rp >= |body| then Listed(Below(15)) else RequestedBits(cfg, streams, body, rp)
  }

  /** The end of updateReporting() once `on` and the interval value are read: the ids
      are collected and, when all are valid, the mask, interval and next report
      time are stored. */
  function ReportingArmed(cfg: Config, e: Engine, body: seq<byte>, rp: nat, value: int, now: nat): (r: Effect)
    requires Inv(cfg, e)
    ensures Inv(cfg, r.e) && r.e.rx == e.rx && r.e.streams == e.streams
  {
    match IdsRequested(cfg, e.streams, body, rp)
    case Refused(err) => Effect(e, ErrorText(err))
    case Listed(bits) =>
      var interval := Uint16(value);
      Effect(e.(mask := ReportMask(e.streams, bits), interval := interval, nextAt := Uint32(now + interval)),
             [Str(StrOk)])
  }

  /** The state after a control command, what it writes inside the reply frame,
      and the numeric error code written at the end (0 for none). */
  datatype Outcome = Outcome(e: Engine, body: seq<Out>, err: nat)

  function RunCommand(cfg: Config, e: Engine, body: seq<byte>, now: nat): (r: Outcome)
    requires Inv(cfg, e)
    ensures Inv(cfg, r.e) && r.e.rx == e.rx && r.e.streams == e.streams
  {
    var w := NextToken(body, SkipBlanks(body, 0));
    var cmd := if w.token.Word? then SelectCommand(cfg.table, w.token.text) else None;
    if cmd.None? then Outcome(e, [], 1)
    else
      match cmd.value
      case Report =>
        var u := ReportingUpdated(cfg, e, body, w.next, now);
        Outcome(u.e, u.out, 0)
      case Hello => Outcome(e, [Str(StrHello), Ch(' '), Text(cfg.info)], 0)
      case Streams =>
        Outcome(e, [Str(StrStreams), Ch(' ')] + Listing(RegisteredBelow(e.streams, cfg.n)), 0)
      case Desc =>
        var d := NextToken(body, w.next);
        if !d.token.Int? then Outcome(e, [], 2)
        else if Lookup(e.streams, d.token.value % 256).None? then Outcome(e, [], 4)
        else Outcome(e, [Str(StrDesc), Ch(' '), Hex(d.token.value), Ch(' '), Described(d.token.value % 256)], 0)
      case Ident =>
        var b := NextToken(body, w.next);
        Outcome(e, [Str(StrOk)], if b.token.Bool? then 0 else 2)
  }

  /** The desc branch of the control interpreter, for the method that runs it: w is
      the command word and a the argument scanned after it. `desc` without an
      integer answers error 2, `desc` naming no registered stream error 4, and
      otherwise the description; none of them changes the state. */
  lemma {:induction false} DescOutcomes(cfg: Config, e: Engine, body: seq<byte>, now: nat, w: Scan, a: Scan)
    requires Inv(cfg, e)
    requires w == NextToken(body, SkipBlanks(body, 0)) && w.token.Word?
    requires SelectCommand(cfg.table, w.token.text) == Some(Desc)
    requires a == NextToken(body, w.next)
    ensures var r := RunCommand(cfg, e, body, now);
            && (!a.token.Int? ==> r == Outcome(e, [], 2))
            && (a.token.Int? && Lookup(e.streams, a.token.value % 256).None? ==> r == Outcome(e, [], 4))
            && (a.token.Int? && Lookup(e.streams, a.token.value % 256).Some? ==>
                  r == Outcome(e, [Str(StrDesc), Ch(' '), Hex(a.token.value), Ch(' '), Described(a.token.value % 256)], 0))
  {
    var cmd := if w.token.Word? then SelectCommand(cfg.table, w.token.text) else None;
    assert cmd == Some(Desc);
  }

  /** The ident branch: it answers ok, with error 2 when no boolean follows. */
  lemma {:induction false} IdentOutcome(cfg: Config, e: Engine, body: seq<byte>, now: nat, w: Scan, a: Scan)
    requires Inv(cfg, e)
    requires w == NextToken(body, SkipBlanks(body, 0)) && w.token.Word?
    requires SelectCommand(cfg.table, w.token.text) == Some(Ident)
    requires a == NextToken(body, w.next)
    ensures RunCommand(cfg, e, body, now) == Outcome(e, [Str(StrOk)], if a.token.Bool? then 0 else 2)
  {
    var cmd := if w.token.Word? then SelectCommand(cfg.table, w.token.text) else None;
    assert cmd.value == Ident;
    if a.token.Bool? {
      assert RunCommand(cfg, e, body, now).err == 0;
    } else {
      assert RunCommand(cfg, e, body, now).err == 2;
    }
  }

  /** onControlStreamFrame(): the reply frame on stream 0. */
  function Control(cfg: Config, e: Engine, body: seq<byte>, now: nat): (r: Effect)
    requires Inv(cfg, e)
    ensures Inv(cfg, r.e) && r.e.rx == e.rx && r.e.streams == e.streams
    ensures |r.out| >= 4 && r.out[..2] == ReplyHeader(0) && r.out[|r.out| - 2..] == FrameEnd()
  {
    var c := RunCommand(cfg, e, body, now);
    Effect(c.e, ReplyHeader(0) + c.body + ErrorCode(c.err) + FrameEnd())
  }

  /** dispatch(): what one received frame does. */
  function Dispatched(cfg: Config, e: Engine, frame: seq<byte>, now: nat): (r: Effect)
    requires Inv(cfg, e)
    ensures Inv(cfg, r.e) && r.e.rx == e.rx && r.e.streams == e.streams
  {
    if |frame| < 2 then Effect(e, [])
    else
      var id := DecodeHexit(frame[0]);
      if id == INVALID_HEXIT then Effect(e, [])
      else if |frame| >= 3 && frame[2] == '#' then
        if id == 0 then Effect(e, [])
        else
          match DecodeHex(frame[3..])
          case None => Effect(e, [])
          case Some(data) => Effect(e, StreamFrame(e.streams, id, BinaryFrame, data))
      else if id == 0 then Control(cfg, e, frame[2..], now)
      else Effect(e, StreamFrame(e.streams, id, TextFrame, frame[2..]))
  }

  /** Dropped frames change nothing and write nothing; every other frame is answered
      with exactly one reply frame on the stream it names. */
  lemma {:induction false} DispatchAnswers(cfg: Config, e: Engine, frame: seq<byte>, now: nat)
    requires Inv(cfg, e)
    ensures Dropped(frame) ==> Dispatched(cfg, e, frame, now) == Effect(e, [])
    ensures !Dropped(frame) ==>
              var o := Dispatched(cfg, e, frame, now).out;
              |o| >= 4 && o[..2] == ReplyHeader(DecodeHexit(frame[0])) && o[|o| - 2..] == FrameEnd()
  {
  }

  /** A binary frame carrying the hex encoding of some bytes hands exactly those
      bytes to the stream it names. */
  lemma {:induction false} BinaryFrameDelivers(cfg: Config, e: Engine, id: nat, data: seq<byte>, now: nat)
    requires Inv(cfg, e) && 1 <= id <= 15
    ensures Dispatched(cfg, e, [ToHex(id), '<', '#'] + HexEncode(data), now)
            == Effect(e, StreamFrame(e.streams, id, BinaryFrame, data))
  {
    var frame := [ToHex(id), '<', '#'] + HexEncode(data);
    assert frame[3..] == HexEncode(data);
    HexRoundTrip(data);
  }

  /** The streams reply lists every registered id and nothing else, ascending, one
      hex digit each that decodes back to the id, separated by single spaces. */
  lemma {:induction false} StreamsListing(cfg: Config, e: Engine)
    requires Inv(cfg, e)
    ensures var ids := RegisteredBelow(e.streams, cfg.n);
            var o := Listing(ids);
            && (forall id :: id in ids <==> 1 <= id <= cfg.n && e.streams[id - 1].Some?)
            && (forall a, b :: 0 <= a < b < |ids| ==> ids[a] < ids[b])
            && |o| == (if ids == [] then 0 else 2 * |ids| - 1)
            && (forall k :: 0 <= k < |ids| ==> o[2 * k].Ch? && DecodeHexit(o[2 * k].c) == ids[k])
            && (forall k :: 0 <= k < |ids| - 1 ==> o[2 * k + 1] == Ch(' '))
  {
    var ids := RegisteredBelow(e.streams, cfg.n);
    RegisteredExact(e.streams, cfg.n);
    ListingLayout(ids);
  }

  /** The word the control frame starts with, and the command it selects. */
  function FirstWord(body: seq<byte>): Token {
    NextToken(body, SkipBlanks(body, 0)).token
  }

  /** `desc` without an integer replies error 2, and `desc` naming no registered
      stream replies error 4; neither changes the state. */
  lemma {:induction false} DescErrors(cfg: Config, e: Engine, body: seq<byte>, now: nat)
    requires Inv(cfg, e)
    requires FirstWord(body).Word? && SelectCommand(cfg.table, FirstWord(body).text) == Some(Desc)
    ensures var d := NextToken(body, NextToken(body, SkipBlanks(body, 0)).next).token;
            var c := Control(cfg, e, body, now);
            && (!d.Int? ==> c == Effect(e, ReplyHeader(0) + [Text("error:"), Dec(2)] + FrameEnd()))
            && (d.Int? && Lookup(e.streams, d.value % 256).None? ==>
                  c == Effect(e, ReplyHeader(0) + [Text("error:"), Dec(4)] + FrameEnd()))
  {
  }

  /** Anything but a known command word replies error 1 and changes nothing. */
  lemma {:induction false} UnknownCommand(cfg: Config, e: Engine, body: seq<byte>, now: nat)
    requires Inv(cfg, e)
    requires !FirstWord(body).Word? || SelectCommand(cfg.table, FirstWord(body).text).None?
    ensures Control(cfg, e, body, now) == Effect(e, ReplyHeader(0) + [Text("error:"), Dec(1)] + FrameEnd())
  {
  }

  /** The ids `report on` asks for: the listed ones, or all when none are listed. */
  function Requested(cfg: Config, e: Engine, body: seq<byte>, rp: nat): Request
    requires Inv(cfg, e)
  {
    IdsRequested(cfg, e.streams, body, NextToken(body, NextToken(body, rp).next).next)
  }

  /** updateReporting() changes the state only when it answers ok, and any refusal
      answers with an error and leaves mask, interval and next report time as they
      were. `report off` zeroes the interval and keeps the mask and the next report
      time. */
  lemma {:induction false} ReportingOutcomes(cfg: Config, e: Engine, body: seq<byte>, rp: nat, now: nat)
    requires Inv(cfg, e)
    ensures var u := ReportingUpdated(cfg, e, body, rp, now);
            && (u.e != e ==> u.out == [Str(StrOk)])
            && (u.out != [Str(StrOk)] ==> u.e == e && u.out[..2] == [Str(StrError), Ch(':')])
            && (NextToken(body, rp).token == Bool(false) ==> u == Effect(e.(interval := 0), [Str(StrOk)]))
  {
    var u := ReportingUpdated(cfg, e, body, rp, now);
    var b := NextToken(body, rp);
    if b.token.Bool? && b.token.flag {
      var iv := NextToken(body, b.next);
      if iv.token.Int? {
        assert u == ReportingArmed(cfg, e, body, iv.next, iv.token.value, now);
        match IdsRequested(cfg, e.streams, body, iv.next)
        case Refused(err) =>
          assert u == Effect(e, ErrorText(err));
        case Listed(bits) =>
          assert u.out == [Str(StrOk)];
      }
    }
  }

  /** Once the ids are accepted, the mask, the interval and the next report time
      are stored and nothing else changes. */
  lemma {:induction false} ArmedStores(cfg: Config, e: Engine, body: seq<byte>, rp: nat, value: int, now: nat)
    requires Inv(cfg, e) && IdsRequested(cfg, e.streams, body, rp).Listed?
    ensures ReportingArmed(cfg, e, body, rp, value, now)
            == Effect(e.(mask := ReportMask(e.streams, IdsRequested(cfg, e.streams, body, rp).bits),
                         interval := Uint16(value),
                         nextAt := Uint32(now + Uint16(value))),
                      [Str(StrOk)])
  {
  }

  /** A successful `report on` stores the requested, registered, report-capable
      streams and schedules the next report one interval after now. */
  lemma {:induction false} ReportingStored(cfg: Config, e: Engine, body: seq<byte>, rp: nat, now: nat)
    requires Inv(cfg, e)
    requires NextToken(body, rp).token == Bool(true)
    requires NextToken(body, NextToken(body, rp).next).token.Int?
    requires Requested(cfg, e, body, rp).Listed?
    ensures var u := ReportingUpdated(cfg, e, body, rp, now);
            var iv := NextToken(body, NextToken(body, rp).next);
            && u.out == [Str(StrOk)]
            && u.e == e.(mask := ReportMask(e.streams, Requested(cfg, e, body, rp).bits),
                         interval := Uint16(iv.token.value),
                         nextAt := Uint32(now + Uint16(iv.token.value)))
  {
    var iv := NextToken(body, NextToken(body, rp).next);
    ArmedStores(cfg, e, body, iv.next, iv.token.value, now);
  }

  /** The reporting half of tick(), with `now` the millis() of this tick and `ready`
      the slots whose shouldReport() holds. When due, the next report time moves
      on by exactly one interval and each masked, ready stream gets one
      notification, in ascending order. */
  function ReportTick(cfg: Config, e: Engine, now: nat, ready: set<nat>): (r: Effect)
    requires Inv(cfg, e)
    ensures Inv(cfg, r.e) && r.e == e.(nextAt := r.e.nextAt)
    ensures e.interval > 0 && now >= e.nextAt ==>
              r.e.nextAt == Uint32(e.nextAt + e.interval) && r.out == Notices(DueBelow(e.mask, ready, cfg.n))
    ensures !(e.interval > 0 && now >= e.nextAt) ==> r == Effect(e, [])
  {
    if e.interval > 0 && now >= e.nextAt then
      Effect(e.(nextAt := Uint32(e.nextAt + e.interval)), Notices(DueBelow(e.mask, ready, cfg.n)))
    else Effect(e, [])
  }

  /** One byte of the receive loop of tick(): through the state machine; a frame
      it completes is dispatched before rxWp_ is reset. */
  function Step(cfg: Config, e: Engine, c: byte, now: nat): (r: Effect)
    requires Inv(cfg, e)
    ensures Inv(cfg, r.e) && r.e.streams == e.streams && r.e.rx == Feed(e.rx, c, cfg.cap).rx
  {
    var f := Feed(e.rx, c, cfg.cap);
    if f.frame.Some? then
      var d := Dispatched(cfg, e, f.frame.value, now);
      Effect(d.e.(rx := f.rx), d.out)
    else Effect(e.(rx := f.rx), [])
  }

  /** The receive loop of tick(). */
  function Receive(cfg: Config, e: Engine, input: seq<byte>, now: nat): (r: Effect)
    requires Inv(cfg, e)
    ensures Inv(cfg, r.e) && r.e.streams == e.streams
    decreases |input|
  {
    if input == [] then Effect(e, [])
    else
      var d := Step(cfg, e, input[0], now);
      var rest := Receive(cfg, d.e, input[1..], now);
      Effect(rest.e, d.out + rest.out)
  }

  /** tick(): the receive loop, then the reports. */
  function Ticked(cfg: Config, e: Engine, input: seq<byte>, now: nat, ready: set<nat>): (r: Effect)
    requires Inv(cfg, e)
    ensures Inv(cfg, r.e) && r.e.streams == e.streams
  {
    var rcv := Receive(cfg, e, input, now);
    var rep := ReportTick(cfg, rcv.e, now, ready);
    Effect(rep.e, rcv.out + rep.out)
  }

  /** The receiver ends where the state machine alone would: dispatching never
      disturbs framing. */
  lemma {:induction false} ReceiveFrames(cfg: Config, e: Engine, input: seq<byte>, now: nat)
    requires Inv(cfg, e)
    ensures Receive(cfg, e, input, now).e.rx == Frames(e.rx, input, cfg.cap).rx
    decreases |input|
  {
    if input != [] {
      ReceiveFrames(cfg, Step(cfg, e, input[0], now).e, input[1..], now);
    }
  }

  /** Input split over two reads in one tick gives the same state and output as the
      whole input read at once. */
  lemma {:induction false} ReceiveChunked(cfg: Config, e: Engine, a: seq<byte>, b: seq<byte>, now: nat)
    requires Inv(cfg, e)
    ensures var first := Receive(cfg, e, a, now);
            var second := Receive(cfg, first.e, b, now);
            Receive(cfg, e, a + b, now) == Effect(second.e, first.out + second.out)
    decreases |a|
  {
    if a == [] {
      assert a + b == b;
    } else {
      var d := Step(cfg, e, a[0], now);
      ReceiveChunked(cfg, d.e, a[1..], b, now);
      var tail := Receive(cfg, d.e, a[1..], now);
      var second := Receive(cfg, tail.e, b, now);
      var whole := Receive(cfg, d.e, a[1..] + b, now);
      ConsTail(a, b);
      assert Receive(cfg, e, a + b, now) == Effect(whole.e, d.out + whole.out);
      Appended(d.out, tail.out, second.out);
    }
  }

  /** Receiving one more byte is one more Step. */
  lemma {:induction false} ReceiveSnoc(cfg: Config, e: Engine, a: seq<byte>, c: byte, now: nat)
    requires Inv(cfg, e)
    ensures var r := Receive(cfg, e, a, now);
            var s := Step(cfg, r.e, c, now);
            Receive(cfg, e, a + [c], now) == Effect(s.e, r.out + s.out)
  {
    ReceiveChunked(cfg, e, a, [c], now);
    var r := Receive(cfg, e, a, now);
    assert [c][1..] == [];
    var s := Step(cfg, r.e, c, now);
    assert Receive(cfg, r.e, [c], now) == Effect(s.e, s.out + []);
    assert s.out + [] == s.out;
  }

  /** Protocol<N>: the receive buffer and state, the report configuration, the
      stream table, and `out`, everything written to the port so far. */
  class Protocol {
    const n: nat
    const table: StringTable
    const deviceInfo: string
    const rxBuffer: array<byte>
    var rxState: RxState
    var rxWp: nat
    var reportInterval: nat
    var nextReportAt: nat
    var reportStreams: set<nat>
    var streams: seq<Option<Endpoint>>
    var out: seq<Out>

    function Cfg(): Config {
      Config(n, table, deviceInfo, rxBuffer.Length)
    }

    /** The fields as an Engine value, with the receiver given. */
    function With(rx: Rx): Engine
      reads this
    {
      Engine(rx, reportInterval, nextReportAt, reportStreams, streams)
    }

    /** The fields as an Engine value. */
    function State(): Engine
      reads this, rxBuffer
      requires rxWp <= rxBuffer.Length
    {
      With(Rx(rxState, rxBuffer[..rxWp]))
    }

    ghost predicate Valid()
      reads this, rxBuffer
    {
      rxWp <= rxBuffer.Length && Inv(Cfg(), State())
    }

    constructor (n: nat, table: StringTable, deviceInfo: string, rxBuffer: array<byte>)
      requires ConfigOk(Config(n, table, deviceInfo, rxBuffer.Length))
      ensures Valid() && State() == Initial(Cfg()) && out == []
      ensures this.n == n && this.table == table && this.deviceInfo == deviceInfo && this.rxBuffer == rxBuffer
    {
      this.n := n;
      this.table := table;
      this.deviceInfo := deviceInfo;
      this.rxBuffer := rxBuffer;
      rxState := Normal;
      rxWp := 0;
      reportInterval := 0;
      nextReportAt := 0;
      reportStreams := {};
      streams := seq(n, _ => None);
      out := [];
    }

    /** setStreamHandler(). */
    method SetStreamHandler(id: int, handler: Endpoint)
      requires Valid()
      modifies this`streams
      ensures Valid() && State() == Register(Cfg(), old(State()), id, handler)
    {
      if id < 1 || id > n {
        return;
      }
      streams := streams[id - 1 := Some(handler)];
    }

    /** lookupStreamByID(). */
    method LookupStreamById(id: nat) returns (s: Option<Endpoint>)
      requires |streams| == n
      ensures s == Lookup(streams, id)
    {
      if id < 1 || id > n {
        return None;
      }
      s := streams[id - 1];
    }

    /** startMessage(). */
    method StartMessage(id: nat)
      requires id < 256
      modifies this`out
      ensures out == old(out) + ReplyHeader(id)
    {
      out := out + [Ch(ToHex(id)), Ch('>')];
    }

    /** startNotification(). */
    method StartNotification(id: nat)
      requires id < 256
      modifies this`out
      ensures out == old(out) + NotificationHeader(id)
    {
      out := out + [Ch(ToHex(id)), Ch('!')];
    }

    /** endFrame(). */
    method EndFrame()
      modifies this`out
      ensures out == old(out) + FrameEnd()
    {
      out := out + [Ch('\r'), Ch('\n')];
    }

    /** writeBinary(), with each byte's nibbles taken as unsigned (see HexEncodeAsWritten). */
    method WriteBinary(data: array<byte>, len: nat)
      requires len <= data.Length
      modifies this`out
      ensures out == old(out) + Chars(HexEncode(data[..len]))
    {
      var i := 0;
      while i < len
        invariant i <= len
        invariant out == old(out) + Chars(HexEncode(data[..i]))
      {
        var d := data[i];
        HexEncodeAppend(data[..i], d);
        assert data[..i + 1] == data[..i] + [d];
        out := out + [Ch(ToHex(d as int / 16)), Ch(ToHex(d as int % 16))];
        i := i + 1;
      }
    }

    /** decodeBinary(): rxBuffer_[3..rxWp_] decoded into the front of the buffer. */
    method DecodeBinary() returns (len: int)
      requires 3 <= rxWp <= rxBuffer.Length
      modifies rxBuffer
      ensures var decoded := DecodeHex(old(rxBuffer[3..rxWp]));
              && (len < 0 <==> decoded.None?)
              && (len >= 0 ==> len == (rxWp - 3) / 2 && rxBuffer[..len] == decoded.value)
      ensures forall k :: (rxWp - 3) / 2 <= k < rxBuffer.Length ==> rxBuffer[k] == old(rxBuffer[k])
    {
      len := DecodeInPlace(rxBuffer, rxWp);
    }

    /** The streams reply: the ids of the registered streams. */
    method WriteStreamList()
      requires |streams| == n <= 15
      modifies this`out
      ensures out == old(out) + Listing(RegisteredBelow(streams, n))
    {
      var slots := streams;
      ghost var start := out;
      var first := true;
      var id := 1;
      while id <= n
        invariant 1 <= id <= n + 1
        invariant first <==> RegisteredBelow(slots, id - 1) == []
        invariant out == start + Listing(RegisteredBelow(slots, id - 1))
      {
        ListingStep(start, slots, id);
        if slots[id - 1].Some? {
          if !first {
            out := out + [Ch(' ')];
          }
          first := false;
          out := out + [Ch(StreamDigit(id))];
        }
        id := id + 1;
      }
    }

    /** The reply to the streams command. */
    method WriteStreamsReply()
      requires |streams| == n <= 15
      modifies this`out
      ensures out == old(out) + ([Str(StrStreams), Ch(' ')] + Listing(RegisteredBelow(streams, n)))
    {
      out := out + [Str(StrStreams), Ch(' ')];
      WriteStreamList();
    }

    /** onStreamFrame(). */
    method OnStreamFrame(id: nat, kind: FrameKind, data: seq<byte>)
      requires id < 16 && |streams| == n
      modifies this`out
      ensures out == old(out) + StreamFrame(streams, id, kind, data)
    {
      var stream := LookupStreamById(id);
      StartMessage(id);
      WriteAnswer(stream, kind, data);
      EndFrame();
      Appended3(old(out), ReplyHeader(id), Answer(stream, kind, data), FrameEnd());
    }

    /** The part of onStreamFrame() between startMessage() and endFrame(). */
    method WriteAnswer(stream: Option<Endpoint>, kind: FrameKind, data: seq<byte>)
      modifies this`out
      ensures out == old(out) + Answer(stream, kind, data)
    {
      if stream.None? {
        out := out + ErrorText(StrErrInvalidStreamId);
      } else {
        var r := stream.value.handle(kind, data);
        out := out + r.written;
        match r.reply
        case Succeeded => out := out + [Str(StrOk)];
        case Failed(code) => out := out + ErrorText(code);
        case Answered =>
      }
    }

    /** The loop of updateReporting() over the listed ids: the ids it collects, or
        the error it stops at. */
    method ScanRequested(p: ArgParser) returns (r: Request)
      requires |streams| == n && p.Valid() && p.args == rxBuffer && p.rp <= |p.body|
      modifies p`rp, rxBuffer
      ensures p.Valid() && r == RequestedBits(Cfg(), streams, p.body, old(p.rp))
    {
      var slots := streams;
      ghost var cfg, body, start := Cfg(), p.body, p.rp;
      var requested: set<nat> := {};
      while !p.End()
        invariant p.Valid() && start <= p.rp <= |body|
        invariant RequestedBits(cfg, slots, body, start) == Join(requested, RequestedBits(cfg, slots, body, p.rp))
        decreases |body| - p.rp
      {
        ghost var at := p.rp;
        var listed, id := p.ScanInt();
        RequestedStep(cfg, slots, body, at, requested, listed, id);
        if !listed {
          return Refused(StrErrInvalidArgument);
        }
        var index := (id - 1) % 256;
        if index >= n || slots[index].None? {
          return Refused(StrErrInvalidStreamId);
        }
        requested := requested + {index};
      }
      assert RequestedBits(cfg, slots, body, p.rp) == Listed({});
      assert requested + {} == requested;
      return Listed(requested);
    }

    /** The loop of updateReporting() that builds reportStreams_. */
    method MaskOf(requested: set<nat>) returns (mask: set<nat>)
      requires |streams| == n
      ensures mask == ReportMask(streams, requested)
    {
      mask := {};
      var i := 0;
      while i < n
        invariant i <= n
        invariant forall j :: j in mask <==> 0 <= j < i && j in requested && streams[j].Some? && streams[j].value.canReport
      {
        if i in requested && streams[i].Some? && streams[i].value.canReport {
          mask := mask + {i};
        }
        i := i + 1;
      }
    }

    /** The three assignments with which updateReporting() accepts a request. */
    method Configure(interval: nat, nextAt: nat, mask: set<nat>)
      modifies this`reportInterval, this`nextReportAt, this`reportStreams
      ensures reportInterval == interval && nextReportAt == nextAt && reportStreams == mask
    {
      reportStreams := mask;
      reportInterval := interval;
      nextReportAt := nextAt;
    }

    /** updateReporting(), parsing with p just after the word report; e is the
        engine state when the frame arrived. */
    method UpdateReporting(p: ArgParser, now: nat, ghost e: Engine)
      requires Inv(Cfg(), e) && With(e.rx) == e
      requires p.Valid() && p.args == rxBuffer
      modifies p`rp, rxBuffer, this`out, this`reportInterval, this`nextReportAt, this`reportStreams
      ensures var u := ReportingUpdated(Cfg(), e, p.body, old(p.rp), now);
              With(e.rx) == u.e && out == old(out) + u.out
    {
      var ok, flag := p.ScanBool();
      if !ok {
        out := out + ErrorText(StrErrInvalidArgument);
        return;
      }
      if !flag {
        reportInterval := 0;
        out := out + [Str(StrOk)];
        return;
      }
      var isInt, value := p.ScanInt();
      if !isInt {
        out := out + ErrorText(StrErrInvalidArgument);
        return;
      }
      ArmReporting(p, value, now, e);
    }

    /** The rest of updateReporting() once the interval is read: collect the ids,
        then store mask, interval and next report time, or answer the error. */
    method ArmReporting(p: ArgParser, value: int, now: nat, ghost e: Engine)
      requires Inv(Cfg(), e) && With(e.rx) == e
      requires p.Valid() && p.args == rxBuffer && p.rp <= |p.body|
      modifies p`rp, rxBuffer, this`out, this`reportInterval, this`nextReportAt, this`reportStreams
      ensures var a := ReportingArmed(Cfg(), e, p.body, old(p.rp), value, now);
              With(e.rx) == a.e && out == old(out) + a.out
    {
      var interval := Uint16(value);
      var requested: Request;
      if p.End() {
        requested := Listed(Below(15));
      } else {
        requested := ScanRequested(p);
      }
      assert requested == IdsRequested(Cfg(), streams, p.body, old(p.rp));
      if requested.Refused? {
        out := out + ErrorText(requested.err);
        return;
      }
      var mask := MaskOf(requested.bits);
      Configure(interval, Uint32(now + interval), mask);
      out := out + [Str(StrOk)];
    }

    /** The command part of onControlStreamFrame(): what runs between the reply
        header and the error code, with p fresh on the body. */
    method Interpret(p: ArgParser, now: nat, ghost e: Engine) returns (err: nat)
      requires Inv(Cfg(), e) && With(e.rx) == e
      requires p.Valid() && p.args == rxBuffer && p.rp == SkipBlanks(p.body, 0)
      modifies p`rp, rxBuffer, this`out, this`reportInterval, this`nextReportAt, this`reportStreams
      ensures var r := RunCommand(Cfg(), e, p.body, now);
              With(e.rx) == r.e && out == old(out) + r.body && err == r.err
    {
      ghost var body := p.body;
      ghost var r := RunCommand(Cfg(), e, body, now);
      ghost var w := NextToken(body, p.rp);
      var isWord, word := p.ScanWord();
      var cmd := if isWord then SelectCommand(table, word) else None;
      err := 0;
      if cmd.None? {
        assert r == Outcome(e, [], 1);
        err := 1;
        return;
      }
      match cmd.value
      case Report =>
        UpdateReporting(p, now, e);
      case Hello =>
        out := out + [Str(StrHello), Ch(' '), Text(deviceInfo)];
      case Streams =>
        WriteStreamsReply();
      case Desc =>
        DescOutcomes(Cfg(), e, body, now, w, NextToken(body, w.next));
        var isInt, id := p.ScanInt();
        if !isInt {
          err := 2;
        } else {
          var stream := LookupStreamById(id % 256);
          if stream.None? {
            err := 4;
          } else {
            out := out + [Str(StrDesc), Ch(' '), Hex(id), Ch(' '), Described(id % 256)];
          }
        }
      case Ident =>
        IdentOutcome(Cfg(), e, body, now, w, NextToken(body, w.next));
        var isBool, on := p.ScanBool();
        if !isBool {
          err := 2;
        }
        out := out + [Str(StrOk)];
    }

    /** The end of onControlStreamFrame(): a nonzero code is written after "error:". */
    method WriteErrorCode(err: nat)
      modifies this`out
      ensures out == old(out) + ErrorCode(err)
    {
      if err != 0 {
        out := out + [Text("error:"), Dec(err)];
      }
    }

    /** onControlStreamFrame(): the body is rxBuffer_[2..rxWp_]; e is the engine
        state when the frame arrived. */
    method OnControlStreamFrame(now: nat, ghost e: Engine)
      requires Inv(Cfg(), e) && With(e.rx) == e
      requires 2 <= rxWp < rxBuffer.Length
      modifies rxBuffer, this`out, this`reportInterval, this`nextReportAt, this`reportStreams
      ensures var c := Control(Cfg(), e, old(rxBuffer[2..rxWp]), now);
              With(e.rx) == c.e && out == old(out) + c.out
    {
      var p := new ArgParser(rxBuffer, 2, rxWp - 2);
      ghost var start := out;
      ghost var c := RunCommand(Cfg(), e, p.body, now);
      StartMessage(0);
      var err := Interpret(p, now, e);
      WriteErrorCode(err);
      EndFrame();
      FrameLayout(start, ReplyHeader(0), c.body, ErrorCode(c.err), FrameEnd(), out);
    }
  
    /** dispatch(): the frame is rxBuffer_[..rxWp_]. */
    method Dispatch(now: nat)
      requires Valid()
      modifies rxBuffer, this`out, this`reportInterval, this`nextReportAt, this`reportStreams
      ensures var d := Dispatched(Cfg(), old(State()), old(rxBuffer[..rxWp]), now);
              With(old(State()).rx) == d.e && out == old(out) + d.out
    {
      ghost var e := State();
      ghost var frame := rxBuffer[..rxWp];
      if rxWp < 2 {
        return;
      }
      var id := DecodeHexit(rxBuffer[0]);
      if id == INVALID_HEXIT {
        return;
      }
      if rxWp >= 3 && rxBuffer[2] == '#' {
        if id == 0 {
          return;
        }
        assert frame[3..] == rxBuffer[3..rxWp];
        var len := DecodeBinary();
        if len < 0 {
          return;
        }
        OnStreamFrame(id, BinaryFrame, rxBuffer[..len]);
      } else {
        assert frame[2..] == rxBuffer[2..rxWp];
        rxBuffer[rxWp] := '\0';
        if id == 0 {
          OnControlStreamFrame(now, e);
        } else {
          OnStreamFrame(id, TextFrame, rxBuffer[2..rxWp]);
        }
      }
    }

    /** rxBuffer_[rxWp_++] = ch, kept only while a slot stays free for dispatch's 0. */
    method Store(c: byte)
      requires rxWp < rxBuffer.Length
      modifies rxBuffer, this`rxWp
      ensures rxWp < rxBuffer.Length
      ensures rxBuffer[..rxWp] == Append(old(rxBuffer[..rxWp]), c, rxBuffer.Length)
    {
      if rxWp + 1 < rxBuffer.Length {
        rxBuffer[rxWp] := c;
        rxWp := rxWp + 1;
        assert rxBuffer[..rxWp] == old(rxBuffer[..rxWp]) + [c];
      }
    }

    /** One byte of the receive loop of tick(). */
    method ReceiveByte(c: byte, now: nat)
      requires Valid()
      modifies rxBuffer, this`rxState, this`rxWp, this`out, this`reportInterval, this`nextReportAt, this`reportStreams
      ensures Valid()
      ensures var s := Step(Cfg(), old(State()), c, now);
              State() == s.e && out == old(out) + s.out
    {
      ghost var e := State();
      match rxState
      case Normal =>
        if c == '\r' {
          Dispatch(now);
          rxWp := 0;
          rxState := SeenCr;
        } else if c == '\n' {
          Dispatch(now);
          rxWp := 0;
        } else {
          Store(c);
        }
      case SeenCr =>
        if c != '\n' {
          Store(c);
        }
        rxState := Normal;
    }

    /** The reporting half of tick(): `ready` holds the slots whose shouldReport()
        answers true at this tick. */
    method SendReports(now: nat, ready: set<nat>)
      requires Valid()
      modifies this`nextReportAt, this`out
      ensures Valid()
      ensures var r := ReportTick(Cfg(), old(State()), now, ready);
              State() == r.e && out == old(out) + r.out
    {
      if reportInterval > 0 && now >= nextReportAt {
        nextReportAt := Uint32(nextReportAt + reportInterval);
        Notify(reportStreams, ready);
      }
    }

    /** The loop of tick() that sends one notification per masked, ready stream. */
    method Notify(mask: set<nat>, ready: set<nat>)
      requires n <= 15
      modifies this`out
      ensures out == old(out) + Notices(DueBelow(mask, ready, n))
    {
      ghost var start := out;
      var i := 0;
      while i < n
        invariant i <= n
        invariant out == start + Notices(DueBelow(mask, ready, i))
      {
        NoticesStep(start, mask, ready, i);
        if i in mask && i in ready {
          SendNotice(i);
        }
        i := i + 1;
      }
    }

    /** One notification of the loop: startNotification(), the report, endFrame(). */
    method SendNotice(b: nat)
      requires b < 15
      modifies this`out
      ensures out == old(out) + Notice(b)
    {
      StartNotification(b + 1);
      out := out + [Text("report "), Reported(b + 1)];
      EndFrame();
      Appended3(old(out), NotificationHeader(b + 1), [Text("report "), Reported(b + 1)], FrameEnd());
    }

    /** The receive loop of tick(), over every byte the port has. */
    method ReceiveAll(input: seq<byte>, now: nat)
      requires Valid()
      modifies rxBuffer, this`rxState, this`rxWp, this`out, this`reportInterval, this`nextReportAt, this`reportStreams
      ensures Valid()
      ensures var r := Receive(Cfg(), old(State()), input, now);
              State() == r.e && out == old(out) + r.out
    {
      ghost var e := State();
      var k := 0;
      while k < |input|
        invariant k <= |input| && Valid()
        invariant var r := Receive(Cfg(), e, input[..k], now);
                  State() == r.e && out == old(out) + r.out
      {
        ghost var r := Receive(Cfg(), e, input[..k], now);
        ghost var s := Step(Cfg(), r.e, input[k], now);
        ReceiveSnoc(Cfg(), e, input[..k], input[k], now);
        assert input[..k + 1] == input[..k] + [input[k]];
        ReceiveByte(input[k], now);
        Appended(old(out), r.out, s.out);
        k := k + 1;
      }
      assert input[..k] == input;
    }

    /** tick(): the receive loop, then the reports. */
    method Tick(input: seq<byte>, now: nat, ready: set<nat>)
      requires Valid()
      modifies rxBuffer, this`rxState, this`rxWp, this`out, this`reportInterval, this`nextReportAt, this`reportStreams
      ensures Valid()
      ensures var t := Ticked(Cfg(), old(State()), input, now, ready);
              State() == t.e && out == old(out) + t.out
    {
      ghost var rcv := Receive(Cfg(), State(), input, now);
      ReceiveAll(input, now);
      ghost var rep := ReportTick(Cfg(), rcv.e, now, ready);
      SendReports(now, ready);
      Appended(old(out), rcv.out, rep.out);
    }
}
}
