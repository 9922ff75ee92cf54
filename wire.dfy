/** What the engines write to the serial port, and the contract between an engine
    and the streams it hands frames to (zap_stream.hpp:5-47). Port writes are kept
    as a log of symbolic items; the texts of string-table entries and whatever a
    stream's describe() and report() print are not fixed by the model. */
module Wire {
  import opened Helpers
  import opened HelpersCpp

  /** The entries of the string table (the STR_* indices). */
  datatype Entry =
    | StrOk | StrError | StrCode | StrMessage | StrWait | StrTrue | StrFalse
    | StrReport | StrHello | StrStreams | StrDesc | StrIdent
    | StrMode | StrRead | StrEnable | StrSet
    | StrErrInvalidArgument | StrErrInvalidStreamId
    | StrErrInvalidArg | StrErrUnknownCommand | StrErrUnknownEntity | StrErrNoValue

  /** strptr(): the text of each entry. Its content is not part of this model. */
  type StringTable = Entry -> string

  /** One write to the port. */
  datatype Out =
    | Ch(c: char)         // write(ch), print(ch)
    | Text(s: string)     // print(str) of a string in RAM or a literal
    | Str(e: Entry)       // writeRaw(STR_x): an entry of the string table
    | Dec(n: int)         // print(n, DEC)
    | Hex(n: int)         // print(n, HEX)
    | Described(id: nat)  // what stream id's describe() writes
    | Reported(id: nat)   // what stream id's report() writes

  /** startMessage(): the stream id as one hex digit, then '>'. */
  function ReplyHeader(id: nat): (h: seq<Out>)
    requires id < 256
    ensures |h| == 2 && h[0].Ch? && h[1] == Ch('>')
    ensures id < 16 ==> DecodeHexit(h[0].c) == id
  {
    [Ch(ToHex(id)), Ch('>')]
  }

  /** startNotification(): the stream id as one hex digit, then '!'. */
  function NotificationHeader(id: nat): (h: seq<Out>)
    requires id < 256
    ensures |h| == 2 && h[0].Ch? && h[1] == Ch('!')
    ensures id < 16 ==> DecodeHexit(h[0].c) == id
  {
    [Ch(ToHex(id)), Ch('!')]
  }

  /** Characters written one at a time. */
  function Chars(s: string): (o: seq<Out>)
    ensures |o| == |s| && forall i :: 0 <= i < |s| ==> o[i] == Ch(s[i])
  {
    seq(|s|, i requires 0 <= i < |s| => Ch(s[i]))
  }

  /** endFrame(). */
  function FrameEnd(): seq<Out> {
    [Ch('\r'), Ch('\n')]
  }

  /** writeError(STR_x): the key "error" then the entry. */
  function ErrorText(e: Entry): seq<Out> {
    [Str(StrError), Ch(':'), Str(e)]
  }

  /** The frame types handed to handleMessage() (FRAME_TYPE_BINARY, FRAME_TYPE_TEXT). */
  datatype FrameKind = BinaryFrame | TextFrame

  /** The result of handleMessage(): 0 (the caller writes ok), a positive string-table
      index naming an error, or a negative value (the stream has written its reply). */
  datatype Reply = Succeeded | Failed(code: Entry) | Answered

  /** A reply together with what the stream wrote to the port while handling the frame. */
  datatype Response = Response(reply: Reply, written: seq<Out>)

  /** A registered stream as the engine sees it: whether canReport() holds, and how
      it answers a frame. */
  datatype Endpoint = Endpoint(canReport: bool, handle: (FrameKind, seq<byte>) -> Response)

  /** What the engine writes after a stream has handled a frame. */
  function Completion(r: Reply): (o: seq<Out>)
    ensures r.Succeeded? <==> o == [Str(StrOk)]
    ensures r.Failed? ==> o == ErrorText(r.code)
    ensures r.Answered? <==> o == []
  {
    match r
    case Succeeded => [Str(StrOk)]
    case Failed(code) => ErrorText(code)
    case Answered => []
  }
}
