# zap-protocol core in Dafny

This project models the core of zap-protocol. zap-protocol is a line-framed command protocol for Arduino boards. A host sends one frame per line. The line ends at CR, LF or CRLF. Each frame starts with a hex digit naming a stream: stream 0 is the control channel, and streams 1 to N are handlers the sketch registers. A frame is text, or hex-encoded binary when `#` follows the header. The board answers with reply frames (`<id>>…`). For the streams chosen with `report on <interval> [ids]`, it also sends periodic notifications (`<id>!report …`).

The model covers:

- **Helpers** and **HelpersCpp** (helpers.dfy): the character classes, `decodeHexit` and `toHex`. They come from zap_helpers.hpp and, where the .cpp file differs from the header, from zap_helpers.cpp. The target is AVR, where `char` is signed and `int` is 16 bits wide. **CNumbers** gives the `uint16_t` and `uint32_t` stores, modulo 2^16 and 2^32.
- **HexCodec** (hexcodec.dfy): `decodeBinary()` as a loop over the receive buffer, in place. It is proved against a pure decoder. `writeBinary()` has its encoding, and the round trip between the two is proved.
- **Wire** (wire.dfy): the port is a log of symbolic writes. The texts of string-table entries are a parameter. The file also holds the frame headers, the frame end, and the `handleMessage()` return convention of zap_stream.hpp.
- **Tokenizer** (tokenizer.dfy): `ArgParser` is a class over a mutable buffer. Its `lex()` loops are proved against pure functions that state what one call yields.
- **Receiver** (receiver.dfy): the byte-level receive state machine that both engine generations share.
- **Replies** (replies.dfy): the streams listing and the report notifications, which both generations write the same way.
- **ZapEngine** (engine.dfy): `Protocol<N>` of zap_protocol.hpp. It covers the receive loop, `dispatch()`, binary decoding, the control interpreter (report, hello, streams, desc, ident), `updateReporting()` and the report scheduler of `tick()`.
- **ZapLegacy** (legacy.dfy): the older `zap::Protocol` of Zap.hpp. It has 15 fixed slots, literal command words, silent refusals, and reports without a readiness gate.
- **Streams** (streams.dfy): `ModeSelector`, `DeviceSelector` and `ScalarSensorStream` of zap_stream.hpp.

Each engine is specified by pure functions on an `Engine` value. These are the state after a frame, a command or a tick, together with what was written. A `Protocol` class holds the source's fields: the receive buffer as an `array`, the report configuration, the stream slots and the output log. Its methods run the source's loops, and each method's postcondition ties the new fields and the appended output to the pure function. The properties are proved as lemmas about those functions: dispatch answers with exactly one frame, binary frames deliver the bytes that were encoded, the streams listing is exact and ordered, reporting refusals leave the state alone, and chunked input gives the same result as whole input.

## Model

| member | source | states |
|---|---|---|
| Helpers.IsHexit | zap_helpers.hpp:15-17 | every decimal digit is a hex digit, and the only letters accepted are a-f and A-F |
| Helpers.DecodeHexit | zap_helpers.hpp:19-31 | the result is a nibble exactly for hex digits and INVALID_HEXIT (0xFF) otherwise |
| Helpers.PairIsInvalid | zap_protocol.hpp:490-494 | the test `(high \| low) & 0x80` on two decoded digits holds exactly when one of them is INVALID_HEXIT |
| Helpers.IsWordStartChar | zap_helpers.hpp:33-35 | a character that can start a word can also continue one, and is neither a digit nor '-' |
| HelpersCpp.ToHex | zap_helpers.cpp:7-10 | a nibble becomes an upper-case hex digit that decodes back to the nibble |
| HelpersCpp.ToHexOfDecodeHexit | zap_helpers.cpp:7-30 | decoding a hex digit and encoding it again gives the digit back, with a-f upper-cased |
| HelpersCpp.IsWordStartChar | zap_helpers.cpp:32 | the .cpp word-start set is the header's set without '!' |
| HelpersCpp.IsWordChar | zap_helpers.cpp:34-37 | the .cpp word set is the header's word-tail set plus '-', and it holds every word-start character |
| CNumbers.Uint16 | zap_protocol.hpp:440 | a value stored into a uint16_t lies below 2^16 and is unchanged when it already fits |
| CNumbers.Uint32 | zap_protocol.hpp:468 | a sum stored into a uint32_t lies below 2^32 and is unchanged when it already fits |
| Wire.ReplyHeader | zap_protocol.hpp:15-18 | the reply header is an id digit that decodes back to the stream id, followed by '>' |
| Wire.NotificationHeader | zap_protocol.hpp:21-24 | the notification header is an id digit that decodes back to the stream id, followed by '!' |
| Wire.Completion | zap_protocol.hpp:411-417 | a handler reply of 0 adds exactly ok, and only it does; a positive reply adds that error; a reply adds nothing exactly when it is negative (the convention of zap_stream.hpp:15-26) |
| HexCodec.PairValue | zap_protocol.hpp:495 | the byte `(high << 4) \| low` has high as its upper nibble and low as its lower nibble |
| HexCodec.DecodedPrefix | zap_protocol.hpp:489-496 | the decoder writes at most one byte per two digits read |
| HexCodec.DecodeHex | zap_protocol.hpp:481-498 | a successful decode holds an even number of digits and yields half as many bytes |
| HexCodec.DecodeHexSucceedsIff | zap_protocol.hpp:481-498 | decoding succeeds if and only if the text is an even number of hex digits |
| HexCodec.AllPairsDecode | zap_protocol.hpp:489-496 | with an even length, every pair decodes if and only if every character is a hex digit |
| HexCodec.DecodedByte | zap_protocol.hpp:489-496 | decoded byte k is the value of the digit pair at positions 2k and 2k+1 |
| HexCodec.HexEncode | zap_protocol.hpp:137-142 | the encoding is two upper-case hex digits per byte |
| HexCodec.DecodeStopsAt | zap_protocol.hpp:490-494 | a pair that is not two hex digits makes the whole decode fail |
| HexCodec.DecodeContinuesAt | zap_protocol.hpp:489-496 | a valid pair adds its byte, and decoding goes on two characters later |
| HexCodec.DecodeStep | zap_protocol.hpp:489-496 | one loop step either extends the decoded bytes by the pair's value or proves that the input does not decode |
| HexCodec.DecodeInPlace | zap_protocol.hpp:481-498 | returns a negative result exactly when the hex text fails to decode; otherwise it returns half the digit count and the front of the buffer holds the decoded bytes; in both cases no byte from (end-3)/2 on is changed |
| HexCodec.DecodePairs | zap_protocol.hpp:488-497 | the loop writes the decoded bytes over the text it has already read, leaving every byte from (end-3)/2 on as it was, and fails exactly on an invalid pair |
| HexCodec.HexEncodeAppend | zap_protocol.hpp:137-142 | encoding one more byte appends exactly its two digits |
| HexCodec.HexRoundTrip | zap_protocol.hpp:137-142 | decoding what writeBinary sends gives back exactly the bytes that were sent |
| HexCodec.PrefixOfEncoding | zap_protocol.hpp:137-142 | decoding an encoding consumes all of it, pair by pair |
| HexCodec.SignedChar | zap_protocol.hpp:139 | an avr-gcc char lies in -128..127 and agrees with the byte modulo 256 |
| HexCodec.HexEncodeAsWritten | zap_protocol.hpp:137-142 | the encoding as written is still two characters per byte |
| HexCodec.AsWrittenAgreesBelow0x80 | zap_protocol.hpp:139 | for bytes below 0x80 the code as written sends the right digits |
| HexCodec.SignedHighNibbleBreaksRoundTrip | zap_protocol.hpp:139 | as written, byte 0xAB is sent as "1B", which decodes to 0x1B |
| Tokenizer.Wrap16 | zap_arg_parser.hpp:177-201 | a 16-bit int result lies in -32768..32767 and is unchanged when small and non-negative |
| Tokenizer.SkipBlanks | zap_arg_parser.hpp:203-212 | skipSpace stops on the first byte that is not a blank, and never before its start |
| Tokenizer.WordEnd | zap_arg_parser.hpp:169-171 | the word loop stops on the first byte that cannot continue a word |
| Tokenizer.DecEnd | zap_arg_parser.hpp:182-186 | the decimal loop stops on the first byte that is not a digit |
| Tokenizer.HexEnd | zap_arg_parser.hpp:195-199 | the hex loop stops on the first byte that is not a hex digit |
| Tokenizer.NextToken | zap_arg_parser.hpp:62-74 | a token that is not an error consumes at least one byte inside the body and leaves the cursor off a blank; a 0 is written only after a word or a key |
| Tokenizer.LexAtEndFails | zap_arg_parser.hpp:38-39 | a scan at or past len_ fails and consumes nothing |
| Tokenizer.BooleanWords | zap_arg_parser.hpp:94-103 | exactly on, yes and true give true, and exactly off, no and false give false; nothing is written for them |
| Tokenizer.WordsAndKeys | zap_arg_parser.hpp:104-114 | any other word is a key when ':' follows it and a plain word otherwise; the byte after it becomes 0 and is stepped over |
| Tokenizer.LexErrors | zap_arg_parser.hpp:62-74 | a first byte that is not a letter, a digit or '-' is an error, and so is a '-' with no digit after it |
| Tokenizer.MinusNegates | zap_arg_parser.hpp:68-70 | a leading '-' negates the integer that follows, decimal or hex, and ends where that integer ends |
| Tokenizer.DecValueSmall | zap_arg_parser.hpp:177-188 | without wrap-around, the accumulated value is the number the digits spell |
| Tokenizer.DescBodyEnds | zap_arg_parser.hpp:38-39 | read up to its length, the body "desc" holds the word desc and no argument |
| Tokenizer.StaleTailWord | zap_arg_parser.hpp:214 | as written, a stale buffer still lexes the command word at the start of the body |
| Tokenizer.StaleTailNumber | zap_arg_parser.hpp:214 | as written, the lexer finds a stale integer past len_ |
| Tokenizer.DescReadsStaleArgument | zap_arg_parser.hpp:214 | as written, `desc` finds an argument left over from an earlier frame, while a body read to its length has none |
| Tokenizer.SetCommandTokens | zap_arg_parser.hpp:62-155 | "set x:5 y:on" lexes as the word set, the key x, the integer 5, the key y, the boolean true, and then the end |
| Tokenizer.SetCommandHead | zap_arg_parser.hpp:85-117 | the word and key tokens at the front of "set x:5 y:on" |
| Tokenizer.SetCommandTail | zap_arg_parser.hpp:122-155 | the integer, key, boolean and end tokens of "set x:5 y:on" |
| Tokenizer.ArgParser.constructor | zap_arg_parser.hpp:32-36 | the cursor starts on the first byte of the body that is not a blank, and the buffer is unchanged |
| Tokenizer.ArgParser.End | zap_arg_parser.hpp:38-39 | end() holds exactly when the cursor is at len_, and from there every scan fails |
| Tokenizer.ArgParser.Curr | zap_arg_parser.hpp:214 | curr() is the body byte at the cursor, or 0 at the end of the body |
| Tokenizer.ArgParser.Peek | zap_arg_parser.hpp:215 | peek() is the body byte after the cursor, or 0 past the end of the body |
| Tokenizer.ArgParser.SkipSpace | zap_arg_parser.hpp:203-212 | moves the cursor to where SkipBlanks says |
| Tokenizer.ArgParser.LexWord | zap_arg_parser.hpp:160-175 | succeeds exactly on a word-start character, then stops where the word ends and returns its length |
| Tokenizer.ArgParser.LexDecInt | zap_arg_parser.hpp:177-188 | returns -1 without moving when no digit is at the cursor; otherwise returns the wrapped 16-bit value of the digits and stops after them |
| Tokenizer.ArgParser.LexHexInt | zap_arg_parser.hpp:190-201 | returns -1 without moving when no hex digit is at the cursor; otherwise returns the wrapped 16-bit value of the digits and stops after them |
| Tokenizer.ArgParser.Terminate | zap_arg_parser.hpp:105 | writes a 0 at the cursor and steps over it; nothing else in the buffer changes |
| Tokenizer.ArgParser.ReadWord | zap_arg_parser.hpp:86-90 | the word lexWord stepped over, taken from the body |
| Tokenizer.ArgParser.ParseWbk | zap_arg_parser.hpp:85-117 | the token, cursor and buffer afterwards are what WbkToken states |
| Tokenizer.ArgParser.ParseNumber | zap_arg_parser.hpp:122-155 | the token and cursor afterwards are what NumberToken states |
| Tokenizer.ArgParser.ParseHex | zap_arg_parser.hpp:123-133 | the `0x` branch agrees with HexNumber |
| Tokenizer.ArgParser.ParseDecimal | zap_arg_parser.hpp:135-154 | the decimal and float branch agrees with DecNumber |
| Tokenizer.ArgParser.Lex | zap_arg_parser.hpp:62-74 | the token, cursor and buffer afterwards are what NextToken states |
| Tokenizer.ArgParser.ScanWord | zap_arg_parser.hpp:41-44 | succeeds exactly when the next token is a word, and returns its text |
| Tokenizer.ArgParser.ScanInt | zap_arg_parser.hpp:51-54 | succeeds exactly when the next token is an integer, and returns its value |
| Tokenizer.ArgParser.ScanBool | zap_arg_parser.hpp:56-59 | succeeds exactly when the next token is a boolean, and returns it |
| Receiver.Feed | zap_protocol.hpp:259-281 | a frame completes exactly on CR or LF outside the CR state, and it carries the pending bytes; only a CR enters the CR state; pending bytes always fit the buffer |
| Receiver.FramesChunked | zap_protocol.hpp:259-281 | splitting the input between ticks changes neither the frames nor the final state |
| Receiver.LineIsStored | zap_protocol.hpp:270-271 | the bytes of a line that fits are stored in order, and no frame ends inside it |
| Receiver.LineTerminators | zap_protocol.hpp:262-279 | CR, LF and CRLF each end a line with exactly one frame; CRLF returns to the start state |
| Receiver.SecondCrIsData | zap_protocol.hpp:274-278 | after a CR only an LF is swallowed, so a second CR becomes data of the next frame |
| Receiver.FeedAsWritten | zap_protocol.hpp:271 | the unbounded store agrees with Feed whenever the buffer has room |
| Receiver.LineFillsBufferAsWritten | zap_protocol.hpp:271 | as written, every byte of a line is stored, however long the line is |
| Replies.StreamDigit | zap_protocol.hpp:364-368 | the id digit in the streams reply is the hex digit of the id and decodes back to it |
| Replies.RegisteredBelow | zap_protocol.hpp:360-361 | the listed ids lie in 1..k |
| Replies.RegisteredExact | zap_protocol.hpp:360-361 | the listing holds exactly the registered ids, each once, in ascending order |
| Replies.ListingSnoc | zap_protocol.hpp:362-368 | one more id adds its digit, after a space unless it comes first |
| Replies.ListingStep | zap_protocol.hpp:360-368 | an empty slot writes nothing; a registered slot writes its digit, after a space unless it comes first |
| Replies.ListingEmpty | zap_protocol.hpp:359-369 | the listing is empty exactly when no stream is registered |
| Replies.ListingLayout | zap_protocol.hpp:359-369 | the listing puts one digit per id at the even positions and single spaces between them |
| Replies.Below | zap_protocol.hpp:443-444 | the set holds exactly the bit numbers below k |
| Replies.DueBelow | zap_protocol.hpp:289-290 | every due bit lies below the loop bound |
| Replies.DueBelowExact | zap_protocol.hpp:289-290 | the due bits are exactly the masked, ready bits, each once, in ascending order |
| Replies.Notice | zap_protocol.hpp:291-294 | one report notification is six writes: the header, "report ", the report and the frame end |
| Replies.Notices | zap_protocol.hpp:289-296 | the notifications for n bits take 6n writes |
| Replies.NoticesLayout | zap_protocol.hpp:289-296 | notification j lies at offset 6j and is the one for bit j |
| Replies.NoticesStep | zap_protocol.hpp:289-296 | loop step i adds bit i's notification exactly when the bit is masked and ready |
| Replies.NoticesSnoc | zap_protocol.hpp:289-296 | one more bit appends its notification |
| ZapEngine.Initial | zap_protocol.hpp:503-514 | the engine starts with no reporting, no mask and every slot empty |
| ZapEngine.Register | zap_protocol.hpp:227-231 | an id in 1..N fills its slot; no other slot changes; no registered slot is emptied |
| ZapEngine.Lookup | zap_protocol.hpp:473-476 | a stream is found exactly for an id in 1..N whose slot is filled |
| ZapEngine.StreamFrame | zap_protocol.hpp:405-419 | the answer to a stream frame is framed by the reply header for that id and the frame end |
| ZapEngine.Answer | zap_protocol.hpp:408-417 | an unknown id answers the invalid-stream-id error; a known id answers what its handler wrote, then ok for a reply of 0, the error for a positive reply, and nothing more for a negative one |
| ZapEngine.StreamFrameConvention | zap_protocol.hpp:405-419 | the whole reply frame for each case: header, invalid-stream-id and frame end without a stream; otherwise header, the handler's output, then ok, the error or nothing by the reply's sign, then the frame end |
| ZapEngine.SelectCommand | zap_protocol.hpp:348-395 | a command is selected only by its own text, and a word selects nothing exactly when no command has that text |
| ZapEngine.CommandsSwappedAsWritten | zap_protocol.hpp:350-353 | as written, hello runs the report command and report answers hello |
| ZapEngine.SelectCommandExact | zap_protocol.hpp:348-395 | with distinct texts, each command is selected by its own word and by nothing else |
| ZapEngine.RequestedBits | zap_protocol.hpp:446-457 | the ids listed after the interval are registered slots below N; a refusal is invalid-argument or invalid-stream-id |
| ZapEngine.Join | zap_protocol.hpp:456 | ids already collected join a successful rest of the list, and a refusal wins |
| ZapEngine.RequestedStep | zap_protocol.hpp:446-457 | one listed id is refused, or it is OR-ed in and the scan goes on after it |
| ZapEngine.ReportMask | zap_protocol.hpp:460-465 | the stored mask is exactly the requested, registered, report-capable slots |
| ZapEngine.ReportingUpdated | zap_protocol.hpp:421-471 | updateReporting keeps the invariant and never touches the receiver or the streams |
| ZapEngine.IdsRequested | zap_protocol.hpp:442-458 | with no ids listed, all 15 bits are requested (0x7FFF); listed ids are registered slots below N |
| ZapEngine.ReportingArmed | zap_protocol.hpp:442-470 | once on and the interval are read, the invariant is kept and neither the receiver nor the streams change |
| ZapEngine.RunCommand | zap_protocol.hpp:341-396 | a control command keeps the invariant and never touches the receiver or the streams |
| ZapEngine.DescOutcomes | zap_protocol.hpp:370-383 | desc without an integer gives error 2, and desc naming no stream gives error 4; otherwise desc writes the id in hex and the description; no case changes the state |
| ZapEngine.IdentOutcome | zap_protocol.hpp:384-392 | ident answers ok, with error 2 as well when no boolean follows |
| ZapEngine.Control | zap_protocol.hpp:341-403 | the control reply is one frame on stream 0, and the invariant is kept |
| ZapEngine.Dispatched | zap_protocol.hpp:302-339 | dispatching a frame keeps the invariant and never touches the receiver or the streams |
| ZapEngine.DispatchAnswers | zap_protocol.hpp:302-339 | dropped frames change nothing and write nothing; every other frame is answered with exactly one reply frame on the stream it names |
| ZapEngine.BinaryFrameDelivers | zap_protocol.hpp:319-330 | a binary frame carrying the hex encoding of some bytes hands exactly those bytes to the stream it names |
| ZapEngine.StreamsListing | zap_protocol.hpp:356-369 | the streams reply lists every registered id and nothing else, ascending; each id is one hex digit that decodes back to it, and the ids are separated by single spaces |
| ZapEngine.DescErrors | zap_protocol.hpp:370-377 | the whole control reply for `desc` with a bad argument is `error:2` or `error:4`, and the state is unchanged |
| ZapEngine.UnknownCommand | zap_protocol.hpp:348-349 | anything but a known command word replies `error:1` and changes nothing |
| ZapEngine.ReportingOutcomes | zap_protocol.hpp:421-471 | the state changes only when ok is answered; every refusal writes an error and leaves the state alone; report off zeroes only the interval |
| ZapEngine.ArmedStores | zap_protocol.hpp:460-470 | accepted ids store the mask, the interval and the next report time, and nothing else |
| ZapEngine.ReportingStored | zap_protocol.hpp:421-471 | a successful report on stores the requested, registered, capable streams and schedules the next report one interval after now |
| ZapEngine.ReportTick | zap_protocol.hpp:285-298 | when due, the next report time advances by exactly one interval and each masked, ready stream gets one notification, in ascending order; otherwise nothing happens |
| ZapEngine.Step | zap_protocol.hpp:259-281 | one byte moves the receiver as the state machine says, and leaves the streams alone |
| ZapEngine.Receive | zap_protocol.hpp:259-281 | the receive loop keeps the invariant and leaves the streams alone |
| ZapEngine.Ticked | zap_protocol.hpp:256-299 | a tick keeps the invariant and leaves the streams alone |
| ZapEngine.ReceiveFrames | zap_protocol.hpp:259-281 | the receiver ends where the state machine alone would, so dispatching never disturbs framing |
| ZapEngine.ReceiveChunked | zap_protocol.hpp:259-281 | input split over two reads gives the same state and output as the whole input at once |
| ZapEngine.ReceiveSnoc | zap_protocol.hpp:259-281 | receiving one more byte is one more step |
| ZapEngine.Protocol.constructor | zap_protocol.hpp:208-213 | the object starts in the initial engine state with nothing written |
| ZapEngine.Protocol.SetStreamHandler | zap_protocol.hpp:227-231 | the slots become those Register states |
| ZapEngine.Protocol.LookupStreamById | zap_protocol.hpp:473-476 | returns Lookup's stream |
| ZapEngine.Protocol.StartMessage | zap_protocol.hpp:15-18 | appends the reply header |
| ZapEngine.Protocol.StartNotification | zap_protocol.hpp:21-24 | appends the notification header |
| ZapEngine.Protocol.EndFrame | zap_protocol.hpp:27-30 | appends CR LF |
| ZapEngine.Protocol.WriteBinary | zap_protocol.hpp:137-142 | appends the hex encoding of the bytes, which HexRoundTrip decodes back |
| ZapEngine.Protocol.DecodeBinary | zap_protocol.hpp:481-498 | decodes rxBuffer_[3..rxWp_] in place, as DecodeInPlace states, leaving the buffer from (rxWp_-3)/2 on unchanged |
| ZapEngine.Protocol.WriteStreamList | zap_protocol.hpp:359-369 | appends the listing of the registered ids |
| ZapEngine.Protocol.WriteStreamsReply | zap_protocol.hpp:356-369 | appends the streams keyword, a space and the listing |
| ZapEngine.Protocol.OnStreamFrame | zap_protocol.hpp:405-419 | appends StreamFrame's reply |
| ZapEngine.Protocol.WriteAnswer | zap_protocol.hpp:408-417 | appends the handler's answer and its completion |
| ZapEngine.Protocol.ScanRequested | zap_protocol.hpp:446-457 | the loop over listed ids returns RequestedBits' result |
| ZapEngine.Protocol.MaskOf | zap_protocol.hpp:460-465 | the loop builds exactly ReportMask |
| ZapEngine.Protocol.Configure | zap_protocol.hpp:460-468 | stores the mask, the interval and the next report time |
| ZapEngine.Protocol.UpdateReporting | zap_protocol.hpp:421-471 | the fields and output afterwards are ReportingUpdated's |
| ZapEngine.Protocol.ArmReporting | zap_protocol.hpp:440-470 | the fields and output afterwards are ReportingArmed's |
| ZapEngine.Protocol.Interpret | zap_protocol.hpp:348-395 | the fields, output and error code afterwards are RunCommand's |
| ZapEngine.Protocol.WriteErrorCode | zap_protocol.hpp:397-400 | a nonzero control error code is appended after "error:", and a code of 0 appends nothing |
| ZapEngine.Protocol.OnControlStreamFrame | zap_protocol.hpp:341-403 | the fields and output afterwards are Control's |
| ZapEngine.Protocol.Dispatch | zap_protocol.hpp:302-339 | the fields and output afterwards are Dispatched's |
| ZapEngine.Protocol.Store | zap_protocol.hpp:271 | appends the byte to the pending bytes while a slot stays free for the terminator |
| ZapEngine.Protocol.ReceiveByte | zap_protocol.hpp:260-280 | the fields and output afterwards are Step's |
| ZapEngine.Protocol.SendReports | zap_protocol.hpp:285-298 | the fields and output afterwards are ReportTick's |
| ZapEngine.Protocol.Notify | zap_protocol.hpp:289-296 | appends one notification per masked, ready bit, in ascending order |
| ZapEngine.Protocol.SendNotice | zap_protocol.hpp:291-294 | appends one notification |
| ZapEngine.Protocol.ReceiveAll | zap_protocol.hpp:259-281 | the fields and output afterwards are Receive's |
| ZapEngine.Protocol.Tick | zap_protocol.hpp:256-299 | the fields and output afterwards are Ticked's |
| ZapLegacy.Initial | Zap.hpp:31-41 | the engine starts with no reporting, no mask and all 15 slots empty |
| ZapLegacy.Register | Zap.hpp:59-62 | an id in 1..15 fills its slot and nothing else changes; any other id changes nothing |
| ZapLegacy.Lookup | Zap.hpp:308-311 | a stream is found exactly for an id in 1..15 whose slot is filled |
| ZapLegacy.IdDigitAsWrittenAbove9 | Zap.hpp:134-148 | the digit '0' + id is right up to 9; from 10 on it is no hex digit, so 10 is sent as ':' where 'A' is meant |
| ZapLegacy.StreamFrame | Zap.hpp:297-306 | an id with no stream gets no reply at all; otherwise the reply is exactly the header, the handler's output and the frame end, with no completion added |
| ZapLegacy.CString | Zap.hpp:211 | strcmp reads the bytes up to the first 0, a prefix holding no 0 |
| ZapLegacy.CStringIs | Zap.hpp:211 | the C string of bytes followed by a 0 is those bytes |
| ZapLegacy.WordHoldsNoZero | Zap.hpp:211 | no byte of a lexed word is 0 |
| ZapLegacy.WordSelects | Zap.hpp:204-224 | for a body that starts with its word, the C string strcmp reads through `data` is that word |
| ZapLegacy.LeadingBlankHidesStreams | Zap.hpp:211-224 | a body with a blank before its word never selects streams or desc, because `data` then starts with the blank |
| ZapLegacy.CapableMask | Zap.hpp:269-275 | with no ids listed, the mask is exactly the registered, report-capable slots |
| ZapLegacy.OrIdsAccumulates | Zap.hpp:277-288 | the listed ids are OR-ed into the mask that was there: the mask is never cleared, and the bits added do not depend on it |
| ZapLegacy.OrIdsAddsCapable | Zap.hpp:277-288 | the mask only grows, and by registered, capable slots only |
| ZapLegacy.OrStep | Zap.hpp:278-287 | one listed id stops the loop, or is OR-ed in when capable and the loop goes on |
| ZapLegacy.Reporting | Zap.hpp:250-295 | updateReporting keeps the invariant and never touches the receiver or the streams |
| ZapLegacy.Armed | Zap.hpp:267-294 | once on and the interval are read, the invariant is kept and neither the receiver nor the streams change |
| ZapLegacy.ReportingSilent | Zap.hpp:250-295 | the only writes are "report on" and "report off"; a refusal writes nothing and can only add mask bits; report off zeroes only the interval |
| ZapLegacy.NoIdsSelectsCapable | Zap.hpp:269-275 | report on with no ids selects every capable stream, whatever the mask was, and schedules the next report |
| ZapLegacy.IdsOrIntoMask | Zap.hpp:276-294 | listed ids are OR-ed into the old mask; when all are accepted the interval and next time are stored as well, and otherwise nothing else changes |
| ZapLegacy.RunCommand | Zap.hpp:197-240 | a control command keeps the invariant and never touches the receiver or the streams |
| ZapLegacy.WordOutcomes | Zap.hpp:204-210 | no word gives error 1; report runs updateReporting; hello writes the device info |
| ZapLegacy.DataOutcomes | Zap.hpp:211-240 | streams lists the ids; desc gives error 2 or 4 or the description; anything else gives error 1 |
| ZapLegacy.Control | Zap.hpp:197-248 | the control reply is one frame on stream 0, and the invariant is kept |
| ZapLegacy.ControlErrors | Zap.hpp:197-248 | an unknown command replies `error:1` and changes nothing; desc's errors are 2 and 4; report never reports an error |
| ZapLegacy.Dispatched | Zap.hpp:162-195 | dispatching a frame keeps the invariant and never touches the receiver or the streams |
| ZapLegacy.DispatchSilent | Zap.hpp:162-195 | dropped frames and frames for an empty slot write nothing; every other frame gets one reply frame on its stream |
| ZapLegacy.StreamsListing | Zap.hpp:211-223 | the streams reply lists every registered id and nothing else, ascending, one hex digit each, separated by single spaces |
| ZapLegacy.ReportTick | Zap.hpp:89-102 | when not due, nothing happens; in every case only the next report time changes |
| ZapLegacy.TickReportsEveryMasked | Zap.hpp:89-102 | a due tick advances the next report time by one interval and notifies every masked stream once, in ascending order, with no readiness test |
| ZapLegacy.Step | Zap.hpp:65-87 | one byte moves the receiver as the shared state machine says, and leaves the streams alone |
| ZapLegacy.Receive | Zap.hpp:65-87 | the receive loop keeps the invariant and leaves the streams alone |
| ZapLegacy.Ticked | Zap.hpp:64-103 | a tick keeps the invariant and leaves the streams alone |
| ZapLegacy.ReceiveFrames | Zap.hpp:65-87 | the receiver ends where the shared state machine alone would |
| ZapLegacy.ReceiveChunked | Zap.hpp:65-87 | input split over two reads gives the same state and output as the whole input |
| ZapLegacy.ReceiveSnoc | Zap.hpp:65-87 | receiving one more byte is one more step |
| ZapLegacy.MarkedData | Zap.hpp:185-211 | after the parser has cut the word off with a 0, the buffer seen through `data` is the body with that 0 |
| ZapLegacy.Protocol.constructor | Zap.hpp:31-41 | the object starts in the initial engine state with nothing written |
| ZapLegacy.Protocol.SetStreamHandler | Zap.hpp:59-62 | the slots become those Register states |
| ZapLegacy.Protocol.LookupStreamById | Zap.hpp:308-311 | returns Lookup's stream |
| ZapLegacy.Protocol.StartMessage | Zap.hpp:134-137 | appends the reply header with the corrected id digit |
| ZapLegacy.Protocol.StartNotification | Zap.hpp:145-148 | appends the notification header with the corrected id digit |
| ZapLegacy.Protocol.EndFrame | Zap.hpp:156-159 | appends CR LF |
| ZapLegacy.Protocol.DecodeBinary | Zap.hpp:316-333 | decodes rxBuffer_[3..rxWp_] in place, as DecodeInPlace states, leaving the buffer from (rxWp_-3)/2 on unchanged |
| ZapLegacy.Protocol.OnStreamFrame | Zap.hpp:297-306 | appends StreamFrame's reply |
| ZapLegacy.Protocol.WriteStreamList | Zap.hpp:213-223 | appends the listing of the registered ids |
| ZapLegacy.Protocol.WriteIdsBelow | Zap.hpp:214-223 | the loop over ids 1..count appends their listing |
| ZapLegacy.Protocol.SelectCapable | Zap.hpp:270-275 | the loop sets the mask to CapableMask |
| ZapLegacy.Protocol.OrRequested | Zap.hpp:277-288 | the loop leaves the mask and the verdict OrIds states |
| ZapLegacy.Protocol.UpdateReporting | Zap.hpp:250-295 | the fields and output afterwards are Reporting's |
| ZapLegacy.Protocol.ArmReporting | Zap.hpp:267-294 | the fields and output afterwards are Armed's |
| ZapLegacy.Protocol.Interpret | Zap.hpp:204-240 | the fields, output and error code afterwards are RunCommand's |
| ZapLegacy.Protocol.InterpretData | Zap.hpp:211-240 | the branches that compare `data` give the outcome DataOutcomes states |
| ZapLegacy.Protocol.Describe | Zap.hpp:224-237 | desc writes the id in hex and the description, or gives error 2 or 4 |
| ZapLegacy.Protocol.OnControlStreamFrame | Zap.hpp:197-248 | the fields and output afterwards are Control's |
| ZapLegacy.Protocol.Dispatch | Zap.hpp:162-195 | the fields and output afterwards are Dispatched's |
| ZapLegacy.Protocol.Store | Zap.hpp:77 | appends the byte to the pending bytes while a slot stays free for the terminator |
| ZapLegacy.Protocol.ReceiveByte | Zap.hpp:66-86 | the fields and output afterwards are Step's |
| ZapLegacy.Protocol.SendReports | Zap.hpp:89-102 | the fields and output afterwards are ReportTick's |
| ZapLegacy.Protocol.Notify | Zap.hpp:93-100 | appends one notification per masked bit, in ascending order |
| ZapLegacy.Protocol.NotifyBelow | Zap.hpp:93-100 | the loop over the first count bits appends their notifications |
| ZapLegacy.Protocol.SendNotice | Zap.hpp:95-98 | appends one notification |
| ZapLegacy.Protocol.ReceiveAll | Zap.hpp:65-87 | the fields and output afterwards are Receive's |
| ZapLegacy.Protocol.Tick | Zap.hpp:64-103 | the fields and output afterwards are Ticked's |
| Streams.FindModeFrom | zap_stream.hpp:120-127 | from index k on, returns the first index with that name, or 0xFF exactly when none from k has it |
| Streams.FindMode | zap_stream.hpp:120-127 | returns the first mode with that name, or 0xFF exactly when no mode has it |
| Streams.ModeMessage | zap_stream.hpp:65-106 | the active mode stays valid, and it changes only with an answered reply that setMode accepted |
| Streams.ActiveModeSkipsSetMode | zap_stream.hpp:90-96 | asking for the active mode answers ok without calling setMode, so the outcome does not depend on it |
| Streams.ModeChangeOutcome | zap_stream.hpp:98-105 | another mode becomes active exactly when setMode accepts it; the reply is setMode's output, followed on success by ok and the wait |
| Streams.ModeRefusals | zap_stream.hpp:68-88 | no word gives invalid-arg, a word other than mode gives unknown-command, and an unknown name gives unknown-entity; none of them changes the mode |
| Streams.ModeQuery | zap_stream.hpp:74-79 | mode alone answers the active mode's name and changes nothing |
| Streams.NameList | zap_stream.hpp:58-61 | the list is empty exactly when there are no names |
| Streams.NameListLayout | zap_stream.hpp:58-61 | each name appears in order, with one space between two names |
| Streams.ModeSelector.constructor | zap_stream.hpp:51-52 | starts with mode 0 active |
| Streams.ModeSelector.ActiveMode | zap_stream.hpp:54 | the active mode is one of the modes |
| Streams.ModeSelector.FindModeByName | zap_stream.hpp:120-127 | the loop returns FindMode's index |
| Streams.ModeSelector.Describe | zap_stream.hpp:56-63 | writes the class, then the mode names in brackets, separated by spaces |
| Streams.ModeSelector.HandleMessage | zap_stream.hpp:65-106 | the reply, output and active mode afterwards are ModeMessage's; the parser changes data only inside the body and its terminator, and only to 0 |
| Streams.SelectNotice | zap_stream.hpp:184-186 | the select notification is one five-item frame: a '!' notification whose digit decodes to the stream id, ended by CR LF |
| Streams.NotifiesOnPress | zap_stream.hpp:178-190 | a tick notifies exactly when enabled selection sees the pin become active; the state then follows the pin; disabled selection changes nothing |
| Streams.SelectorEnabled | zap_stream.hpp:206-209 | setEnabled sets the flag and counts the pin as inactive |
| Streams.SelectorMessage | zap_stream.hpp:194-203 | ok is answered exactly when a boolean comes first, and then selection is switched to it; anything else is invalid-arg and changes nothing |
| Streams.Repeat | zap_stream.hpp:178-190 | n copies of a frame are n times as long |
| Streams.RunNotifiesPerPress | zap_stream.hpp:178-190 | with selection enabled, a run of ticks writes one select notification per press and nothing else, so holding the pin notifies once |
| Streams.DisabledRunIsSilent | zap_stream.hpp:179 | with selection disabled, ticks write nothing and change nothing |
| Streams.DeviceSelector.constructor | zap_stream.hpp:173-176 | starts with selection disabled and the pin inactive |
| Streams.DeviceSelector.SetProtocol | zap_stream.hpp:39-42 | stores the stream id |
| Streams.DeviceSelector.Tick | zap_stream.hpp:178-190 | the state and output afterwards are SelectorTick's for the pin level read against the polarity |
| Streams.DeviceSelector.SetEnabled | zap_stream.hpp:206-209 | the state afterwards is SelectorEnabled's |
| Streams.DeviceSelector.HandleMessage | zap_stream.hpp:194-203 | the state and reply afterwards are SelectorMessage's; data changes only inside the body and its terminator, and only to 0 |
| Streams.SensorInitial | zap_stream.hpp:220 | a new sensor is disabled, has no valid value and meets the sensor invariant |
| Streams.SensorSet | zap_stream.hpp:226-231 | a value is stored, and becomes valid, only while the sensor is enabled; the invariant is kept |
| Streams.SensorInvalidate | zap_stream.hpp:233 | drops validity and changes nothing else |
| Streams.SensorEnable | zap_stream.hpp:235-240 | enables the sensor, calling the hook only when it was disabled |
| Streams.SensorDisable | zap_stream.hpp:242-248 | disables the sensor, calling the hook and dropping the value only when it was enabled |
| Streams.AlternatingSnoc | zap_stream.hpp:307-309 | a hook call that flips the enabled state keeps the calls alternating true, false, true, … |
| Streams.EnableDisableIdempotent | zap_stream.hpp:235-248 | enabling twice or disabling twice calls the hook only once |
| Streams.ReenabledHasNoValue | zap_stream.hpp:226-248 | after disable and enable there is no value until setValue runs again, and setValue while disabled is ignored |
| Streams.SelectSensorCommand | zap_stream.hpp:260-287 | read, enable and set are selected by their own words, tried in that order |
| Streams.SensorCommandsSwappedAsWritten | zap_stream.hpp:260-270 | as written, read runs the enable command and enable runs read |
| Streams.SensorMessage | zap_stream.hpp:253-302 | a message keeps the sensor invariant and never changes the stored value |
| Streams.ReadReports | zap_stream.hpp:260-268 | read with a valid value writes the report and returns 0; without one it gives no-value; the state does not change |
| Streams.EnableSwitches | zap_stream.hpp:270-285 | enable on and enable off go through enable() and disable(); enable alone answers the state; a non-boolean is invalid-arg |
| Streams.ScalarSensorStream.constructor | zap_stream.hpp:220 | starts in SensorInitial's state |
| Streams.ScalarSensorStream.SetProtocol | zap_stream.hpp:39-42 | stores the stream id |
| Streams.ScalarSensorStream.SetValue | zap_stream.hpp:226-231 | the state afterwards is SensorSet's |
| Streams.ScalarSensorStream.Invalidate | zap_stream.hpp:233 | the state afterwards is SensorInvalidate's |
| Streams.ScalarSensorStream.SetEnabledHook | zap_stream.hpp:309 | records one call of the hook |
| Streams.ScalarSensorStream.Enable | zap_stream.hpp:235-240 | the state afterwards is SensorEnable's |
| Streams.ScalarSensorStream.Disable | zap_stream.hpp:242-248 | the state afterwards is SensorDisable's |
| Streams.ScalarSensorStream.CanReport | zap_stream.hpp:250 | a sensor can always report |
| Streams.ScalarSensorStream.ShouldReport | zap_stream.hpp:251 | a sensor reports exactly when its value is valid, and so only while enabled |
| Streams.ScalarSensorStream.HandleMessage | zap_stream.hpp:253-302 | the state, reply and output afterwards are SensorMessage's; data changes only inside the body and its terminator, and only to 0 |

## Left out

- Serial I/O: the bytes available to one tick are an input sequence, and everything written goes to an output log (`out`). Baud rate, `init()`, `ready()` and `port()` are not modelled.
- `millis()` is the `now` parameter of a tick, an unbounded natural number: the wrap of `millis()` itself after 2^32 ms is not modelled. The sums `millis() + interval` and `nextReportAt_ += reportInterval_` are stored through CNumbers.Uint32, so their uint32_t wrap is modelled; the due test compares `now` with the stored value as unbounded numbers.
- Floating point: the TOK_FLOAT token carries no value (the source stores the stub 0.0), and `write(float)` is not modelled.
- The texts of the string table (zap_string_table.cpp) are a parameter, and what `describe()` and `report()` of a stream print is a symbolic item.
- The ident pin: `setIdentPin()`, `identOn()` and `identOff()` drive a GPIO and are not modelled. The control command `ident` is modelled with its reply. The `Ident` stream of zap_stream.hpp is not part of this model.
- Streams.DeviceSelector.Tick: the pin is not modelled. `digitalRead()` becomes the `level` parameter, and `pinMode()` in the constructor is left out.
- `setStreamHandler()` calls `handler->setProtocol(this, id)`. The engines model the slot assignment, and the streams model `SetProtocol` separately. A null handler, which the source dereferences, is outside the model.
- ZapLegacy: the empty `writeOK()` and `writeError()` stubs of Zap.hpp write nothing, so they add nothing to the log. `startBinaryMessage()`, `startBinaryNotification()` and the unused `txBuffer_` are not modelled.
- The BaseProtocol writers that the core does not reach: `writeQuotedString`, `writeErrorCode`, `writeErrorMessage`, `writeKey` and `sendError`.
- Streams.SensorMessage: the `set` transaction calls `ArgParser::next()`, which the parser does not define. Its outcome, together with `beginConfig()`, `setConfig()` and `commitConfig()`, is the `commit` parameter.
- Streams.ModeMessage: `setMode()` is a parameter that returns its code and what it wrote.
- Streams.SensorMessage: for `read`, the sensor's `report()` is the symbolic `Reported(id)` item. The caller's ok follows it, because the source returns 0 after writing.
- Streams.ModeSelector.constructor: requires at least one mode. With none, the query would read `names_[0]` out of bounds.
- scanString() (zap_arg_parser.hpp:46-49): lex() never produces TOK_STRING, so scanString() accepts exactly what scanWord() accepts; it is covered by Tokenizer.ArgParser.ScanWord and not repeated.
- Receiver.Feed: the source never checks the buffer size. The model keeps a byte only while one slot stays free for the terminator that dispatch writes, and drops it otherwise (see Findings).
- ZapEngine: the template parameter N is limited to at most 15, so that every id is one hex digit and every mask bit fits `reportStreams_`.
- ZapEngine.Answer: a stream is a `Wire.Endpoint`, whose reply and output are a fixed function of the frame kind and data, and whose `canReport()` is fixed when it is registered. The real `handleMessage()` reads and changes the stream's own state, such as a ModeSelector's active mode or a ScalarSensorStream's enabled flag and value. The engines are not composed with the Streams classes, so stream state carried from one frame to the next, and its effect on later replies and reports, is not modelled inside the engine. The Streams module models that state stream by stream.
- ZapLegacy.StreamFrame: the same holds for the legacy engine. `ZapLegacy.Stream` fixes what `handleMessage()` writes as a function of the frame, and fixes `canReport()` at registration, so stream state across frames is not modelled inside the engine.
- ZapEngine.ReportTick: `shouldReport()` of each stream is the `ready` set of the tick, not a call into the stream.

## Findings

| source | as written | input that shows it | evidently intended | confidence | as-written member | corrected member |
|---|---|---|---|---|---|---|
| zap_protocol.hpp:139 | `toHex(*data >> 4)` shifts a signed char, so a byte of 0x80 or more has a negative high nibble | the byte 0xAB is sent as "1B", which decodes to 0x1B | the unsigned high nibble, so that decoding gives back the byte | high; not executed | HexCodec.SignedHighNibbleBreaksRoundTrip | HexCodec.HexRoundTrip |
| Zap.hpp:135 | startMessage() and startNotification() write `'0' + streamID` | stream 10 is written as ':', which no peer decodes as an id | the hex digit of the id, 'A' for 10 | high; not executed | ZapLegacy.IdDigitAsWrittenAbove9 | Wire.ReplyHeader |
| zap_protocol.hpp:350-384 | each command is taken when `streq(...) == 0`, and streq already returns true on a match | "0<hello" runs the report command, and "0<report" answers hello | a command is taken when its word matches | high; not executed | ZapEngine.CommandsSwappedAsWritten | ZapEngine.SelectCommandExact |
| zap_arg_parser.hpp:214 | curr() reads the buffer at the cursor without comparing it with len_ | "0<desc 5" and then "0<desc": the second desc finds the stale argument 5 | reading stops at the end of the body | medium; not executed | Tokenizer.DescReadsStaleArgument | Tokenizer.LexAtEndFails |
| zap_protocol.hpp:271 | every byte of a line is stored at rxWp_, whatever the buffer size | a line as long as the buffer makes dispatch write its 0 one byte past the end | bytes beyond the buffer are dropped | high; not executed | Receiver.LineFillsBufferAsWritten | Receiver.Feed |
| zap_stream.hpp:260-287 | each sensor command is taken when `streq(...) == 0` | "read" runs the enable command, and "enable" runs read | a command is taken when its word matches | high; not executed | Streams.SensorCommandsSwappedAsWritten | Streams.SelectSensorCommand |
