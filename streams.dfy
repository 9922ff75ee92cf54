/** The concrete streams of zap_stream.hpp: ModeSelector, DeviceSelector and
    ScalarSensorStream. Each is a class whose fields are those the source updates,
    proved against a function that says, on values, what one call does. A stream
    answers a frame with a Reply (the int that handleMessage() returns, see Wire)
    and the items it wrote to the port itself. Hooks the source leaves to
    subclasses (setMode(), setEnabled(), commitConfig(), report()) are given as
    parameters or recorded. */
module Streams {
  import opened Helpers
  import opened Wrappers
  import opened Tokenizer
  import opened Wire

  /** writeOK(wait): "ok wait:<n>". */
  function OkWait(wait: int): seq<Out> {
    [Str(StrOk), Ch(' '), Str(StrWait), Ch(':'), Dec(wait)]
  }

  /** The first token of a body, where a freshly built ArgParser starts. */
  function FirstToken(body: seq<byte>): Scan {
    NextToken(body, SkipBlanks(body, 0))
  }

  // ---------------------------------------------------------------- ModeSelector

  /** What setMode(current, requested) returns and writes: 0 or a positive wait in
      milliseconds on success, a negative value after writing its own error. */
  datatype ModeChange = ModeChange(code: int, written: seq<Out>)

  /** What handleMessage() of a ModeSelector does: its reply, what it wrote, and
      the active mode afterwards. */
  datatype ModeStep = ModeStep(reply: Reply, written: seq<Out>, active: nat)

  /** findModeByName(), from index k on: the first index whose name matches, or 0xFF. */
  function FindModeFrom(names: seq<string>, name: string, k: nat): (i: nat)
    requires k <= |names| < 256
    decreases |names| - k
    ensures i == 0xFF <==> name !in names[k..]
    ensures i != 0xFF ==> k <= i < |names| && names[i] == name && name !in names[k..i]
  {
    if k == |names| then 0xFF
    else if names[k] == name then k
    else
      var i := FindModeFrom(names, name, k + 1);
      assert names[k..] == [names[k]] + names[k + 1..];
      assert i != 0xFF ==> names[k..i] == [names[k]] + names[k + 1..i];
      i
  }

  /** findModeByName(): the first mode with that name, or 0xFF when none has it. */
  function FindMode(names: seq<string>, name: string): (i: nat)
    requires |names| < 256
    ensures i == 0xFF <==> name !in names
    ensures i != 0xFF ==> i < |names| && names[i] == name && name !in names[..i]
  {
    assert names[0..] == names;
    FindModeFrom(names, name, 0)
  }

  /** handleMessage() of a ModeSelector on a body: `mode` alone queries the active
      mode; `mode <name>` changes to that mode through setMode(). */
  function ModeMessage(table: StringTable, names: seq<string>, setMode: (nat, nat) -> ModeChange,
                       active: nat, body: seq<byte>): (r: ModeStep)
    requires active < |names| < 256
    ensures r.active < |names|
    ensures r.active != active ==> r.reply == Answered && setMode(active, r.active).code >= 0
  {
    var w := FirstToken(body);
    if !w.token.Word? then ModeStep(Failed(StrErrInvalidArg), [], active)
    else if table(StrMode) != w.token.text then ModeStep(Failed(StrErrUnknownCommand), [], active)
    else if w.next >= |body| then ModeStep(Answered, [Str(StrMode), Ch(' '), Text(names[active])], active)
    else
      var v := NextToken(body, w.next);
      if !v.token.Word? then ModeStep(Failed(StrErrInvalidArg), [], active)
      else
        var m := FindMode(names, v.token.text);
        if m == 0xFF then ModeStep(Failed(StrErrUnknownEntity), [], active)
        else if m == active then ModeStep(Succeeded, [], active)
        else
          var c := setMode(active, m);
          if c.code < 0 then ModeStep(Answered, c.written, active)
          else ModeStep(Answered, c.written + OkWait(c.code), m)
  }

  /** Asking for the mode already active answers ok and does not call setMode():
      the outcome is the same whatever setMode() would do. */
  lemma {:induction false} ActiveModeSkipsSetMode(table: StringTable, names: seq<string>,
                                                  hook1: (nat, nat) -> ModeChange, hook2: (nat, nat) -> ModeChange,
                                                  active: nat, body: seq<byte>)
    requires active < |names| < 256
    requires var w := FirstToken(body);
             && w.token.Word? && w.token.text == table(StrMode) && w.next < |body|
             && NextToken(body, w.next).token.Word? && NextToken(body, w.next).token.text == names[active]
    requires names[active] !in names[..active]
    ensures ModeMessage(table, names, hook1, active, body) == ModeStep(Succeeded, [], active)
    ensures ModeMessage(table, names, hook1, active, body) == ModeMessage(table, names, hook2, active, body)
  {
    var m := FindMode(names, names[active]);
    assert m != 0xFF && names[m] == names[active];
    assert m <= active ==> names[..active + 1][m] == names[m];
    assert m >= active ==> names[..m + 1][active] == names[active];
  }

  /** Changing to another mode: the mode becomes active exactly when setMode()
      accepts it, and the reply is what setMode() wrote and, on success, ok with the
      wait it asked for. */
  lemma {:induction false} ModeChangeOutcome(table: StringTable, names: seq<string>, setMode: (nat, nat) -> ModeChange,
                                             active: nat, body: seq<byte>, m: nat)
    requires active < |names| < 256 && m < |names| && m != active
    requires var w := FirstToken(body);
             && w.token.Word? && w.token.text == table(StrMode) && w.next < |body|
             && NextToken(body, w.next).token.Word? && NextToken(body, w.next).token.text == names[m]
             && names[m] !in names[..m]
    ensures var r := ModeMessage(table, names, setMode, active, body);
            var c := setMode(active, m);
            && r.reply == Answered
            && (c.code < 0 ==> r.active == active && r.written == c.written)
            && (c.code >= 0 ==> r.active == m && r.written == c.written + OkWait(c.code))
  {
    assert FindMode(names, names[m]) == m;
  }

  /** A name that no mode has, or no word at all, is refused and changes nothing. */
  lemma {:induction false} ModeRefusals(table: StringTable, names: seq<string>, setMode: (nat, nat) -> ModeChange,
                                        active: nat, body: seq<byte>)
    requires active < |names| < 256
    ensures var w := FirstToken(body);
            var r := ModeMessage(table, names, setMode, active, body);
            && (!w.token.Word? ==> r == ModeStep(Failed(StrErrInvalidArg), [], active))
            && (w.token.Word? && w.token.text != table(StrMode) ==> r == ModeStep(Failed(StrErrUnknownCommand), [], active))
            && (w.token.Word? && w.token.text == table(StrMode) && w.next < |body| &&
                NextToken(body, w.next).token.Word? && NextToken(body, w.next).token.text !in names ==>
                  r == ModeStep(Failed(StrErrUnknownEntity), [], active))
  {
  }

  /** `mode` with nothing after it names the active mode and changes nothing. */
  lemma {:induction false} ModeQuery(table: StringTable, names: seq<string>, setMode: (nat, nat) -> ModeChange,
                                     active: nat, body: seq<byte>)
    requires active < |names| < 256
    requires var w := FirstToken(body); w.token.Word? && w.token.text == table(StrMode) && w.next >= |body|
    ensures ModeMessage(table, names, setMode, active, body) == ModeStep(Answered, [Str(StrMode), Ch(' '), Text(names[active])], active)
  {
  }

  /** The mode names as describe() lists them, separated by spaces. */
  function NameList(names: seq<string>): (o: seq<Out>)
    ensures names == [] <==> o == []
  {
    if names == [] then []
    else if |names| == 1 then [Text(names[0])]
    else NameList(names[..|names| - 1]) + [Ch(' '), Text(names[|names| - 1])]
  }

  /** describe() of a ModeSelector. */
  function ModeDescription(names: seq<string>): seq<Out> {
    [Text("class:modeSelect modes:[")] + NameList(names) + [Ch(']')]
  }

  /** The list holds every name in order, one space between two names. */
  lemma {:induction false} NameListLayout(names: seq<string>)
    requires names != []
    ensures |NameList(names)| == 2 * |names| - 1
    ensures forall k :: 0 <= k < |names| ==> NameList(names)[2 * k] == Text(names[k])
    ensures forall k :: 0 <= k < |names| - 1 ==> NameList(names)[2 * k + 1] == Ch(' ')
  {
    if |names| > 1 {
      var init := names[..|names| - 1];
      NameListLayout(init);
      assert forall k :: 0 <= k < |init| ==> init[k] == names[k];
    }
  }

  /** A ModeSelector: the mode names, the setMode() hook, and the active mode. */
  class ModeSelector {
    const names: seq<string>
    const table: StringTable
    /** setMode(current, requested), as the subclass implements it. */
    const setMode: (nat, nat) -> ModeChange
    var active: nat

    /** count_ fits a uint8_t and active_ is one of the modes. */
    ghost predicate Valid()
      reads this
    {
      active < |names| < 256
    }

    /** The query reads names_[active_] with active_ starting at 0, so at least one
        mode is needed. */
    constructor (names: seq<string>, table: StringTable, setMode: (nat, nat) -> ModeChange)
      requires 1 <= |names| < 256
      ensures Valid() && active == 0
      ensures this.names == names && this.table == table && this.setMode == setMode
    {
      this.names := names;
      this.table := table;
      this.setMode := setMode;
      active := 0;
    }

    /** activeMode(). */
    function ActiveMode(): (m: nat)
      reads this
      requires Valid()
      ensures m < |names|
    {
      active
    }

    /** findModeByName(): the loop over the names. */
    method FindModeByName(name: string) returns (i: nat)
      requires Valid()
      ensures i == FindMode(names, name)
    {
      var k := 0;
      while k < |names|
        invariant 0 <= k <= |names|
        invariant name !in names[..k]
      {
        if names[k] == name {
          assert names[..k] == names[..k];
          return k;
        }
        assert names[..k + 1] == names[..k] + [names[k]];
        k := k + 1;
      }
      assert names[..k] == names;
      return 0xFF;
    }

    /** describe(): the loop that writes the names. */
    method Describe() returns (written: seq<Out>)
      ensures written == ModeDescription(names)
    {
      written := [Text("class:modeSelect modes:[")];
      var i := 0;
      while i < |names|
        invariant 0 <= i <= |names|
        invariant written == [Text("class:modeSelect modes:[")] + NameList(names[..i])
      {
        if i > 0 {
          written := written + [Ch(' ')];
        }
        written := written + [Text(names[i])];
        assert names[..i + 1][..i] == names[..i];
        i := i + 1;
      }
      assert names[..i] == names;
      written := written + [Ch(']')];
    }

    /** handleMessage(): the frame body is data[off..off + len]. */
    method HandleMessage(kind: FrameKind, data: array<byte>, off: nat, len: nat) returns (reply: Reply, written: seq<Out>)
      requires Valid() && off + len < data.Length
      modifies this`active, data
      ensures Valid()
      ensures var r := ModeMessage(table, names, setMode, old(active), old(data[off..off + len]));
              reply == r.reply && written == r.written && active == r.active
      ensures forall k :: 0 <= k < data.Length && (k < off || off + len < k) ==> data[k] == old(data[k])
      ensures forall k :: 0 <= k < data.Length && data[k] != old(data[k]) ==> data[k] == '\0'
    {
      var args := new ArgParser(data, off, len);
      written := [];
      var isWord, word := args.ScanWord();
      if !isWord {
        return Failed(StrErrInvalidArg), [];
      } else if table(StrMode) != word {
        return Failed(StrErrUnknownCommand), [];
      }
      if args.End() {
        return Answered, [Str(StrMode), Ch(' '), Text(names[active])];
      }
      isWord, word := args.ScanWord();
      if !isWord {
        return Failed(StrErrInvalidArg), [];
      }
      var requested := FindModeByName(word);
      if requested == 0xFF {
        return Failed(StrErrUnknownEntity), [];
      }
      if requested == active {
        return Succeeded, [];
      }
      var change := setMode(active, requested);
      if change.code < 0 {
        return Answered, change.written;
      }
      active := requested;
      return Answered, change.written + OkWait(change.code);
    }
  }

  // -------------------------------------------------------------- DeviceSelector

  /** The state of a DeviceSelector: whether selection is enabled, and whether the
      select pin was active on the last tick. */
  datatype Selector = Selector(enabled: bool, active: bool)

  /** A state and what was written. */
  datatype SelectorStep = SelectorStep(s: Selector, written: seq<Out>)

  /** The "select" notification on stream id. */
  function SelectNotice(id: nat): (o: seq<Out>)
    requires id < 256
    ensures |o| == 5 && o[0].Ch? && o[1] == Ch('!') && o[|o| - 2..] == FrameEnd()
    ensures id < 16 ==> DecodeHexit(o[0].c) == id
  {
    NotificationHeader(id) + [Text("select")] + FrameEnd()
  }

  /** tick(), with `pressed` the pin read against its polarity. */
  function SelectorTick(s: Selector, pressed: bool, id: nat): (r: SelectorStep)
    requires id < 256
  {
    if !s.enabled then SelectorStep(s, [])
    else if pressed != s.active then SelectorStep(s.(active := pressed), if pressed then SelectNotice(id) else [])
    else SelectorStep(s, [])
  }

  /** A tick notifies exactly when enabled selection sees the pin become active, and
      the state then follows the pin; with selection disabled nothing changes. */
  lemma {:induction false} NotifiesOnPress(s: Selector, pressed: bool, id: nat)
    requires id < 256
    ensures var r := SelectorTick(s, pressed, id);
            && (r.written != [] <==> s.enabled && !s.active && pressed)
            && (r.written != [] ==> r.written == SelectNotice(id))
            && r.s.enabled == s.enabled
            && (s.enabled ==> r.s.active == pressed)
            && (!s.enabled ==> r.s == s)
  {
  }

  /** setEnabled(): selection on or off, and the pin counted as inactive. */
  function SelectorEnabled(s: Selector, on: bool): (r: Selector)
    ensures r.enabled == on && !r.active
  {
    Selector(on, false)
  }

  /** What handleMessage() of a DeviceSelector does: a boolean turns selection on or
      off and answers ok; anything else is refused and changes nothing. */
  function SelectorMessage(s: Selector, body: seq<byte>): (r: (Selector, Reply))
    ensures FirstToken(body).token.Bool? <==> r.1 == Succeeded
    ensures r.1 != Succeeded ==> r == (s, Failed(StrErrInvalidArg))
    ensures r.1 == Succeeded ==> r.0 == SelectorEnabled(s, FirstToken(body).token.flag)
  {
    var b := FirstToken(body);
    if b.token.Bool? then (SelectorEnabled(s, b.token.flag), Succeeded) else (s, Failed(StrErrInvalidArg))
  }

  /** Ticks on a sequence of pin readings. */
  function SelectorRun(s: Selector, presses: seq<bool>, id: nat): (r: SelectorStep)
    requires id < 256
    decreases |presses|
  {
    if presses == [] then SelectorStep(s, [])
    else
      var first := SelectorTick(s, presses[0], id);
      var rest := SelectorRun(first.s, presses[1..], id);
      SelectorStep(rest.s, first.written + rest.written)
  }

  /** The readings at which the pin becomes active, `prev` being the state before the first. */
  function RisingEdges(prev: bool, presses: seq<bool>): nat
    decreases |presses|
  {
    if presses == [] then 0
    else (if presses[0] && !prev then 1 else 0) + RisingEdges(presses[0], presses[1..])
  }

  /** n copies of a frame, one after the other. */
  function Repeat(frame: seq<Out>, n: nat): (o: seq<Out>)
    ensures |o| == n * |frame|
  {
    if n == 0 then [] else frame + Repeat(frame, n - 1)
  }

  /** With selection enabled, a run of ticks writes one "select" notification per
      press and nothing else: holding the pin down notifies once. */
  lemma {:induction false} RunNotifiesPerPress(s: Selector, presses: seq<bool>, id: nat)
    requires id < 256 && s.enabled
    decreases |presses|
    ensures SelectorRun(s, presses, id).written == Repeat(SelectNotice(id), RisingEdges(s.active, presses))
    ensures presses != [] ==> SelectorRun(s, presses, id).s == Selector(true, presses[|presses| - 1])
  {
    if presses != [] {
      var first := SelectorTick(s, presses[0], id);
      NotifiesOnPress(s, presses[0], id);
      RunNotifiesPerPress(first.s, presses[1..], id);
      if presses[1..] == [] {
        assert presses[|presses| - 1] == presses[0];
      } else {
        assert presses[1..][|presses[1..]| - 1] == presses[|presses| - 1];
      }
    }
  }

  /** With selection disabled, ticks write nothing and change nothing. */
  lemma {:induction false} DisabledRunIsSilent(s: Selector, presses: seq<bool>, id: nat)
    requires id < 256 && !s.enabled
    decreases |presses|
    ensures SelectorRun(s, presses, id) == SelectorStep(s, [])
  {
    if presses != [] {
      DisabledRunIsSilent(s, presses[1..], id);
    }
  }

  /** A DeviceSelector: the pin polarity, the stream id, and the selection state. */
  class DeviceSelector {
    /** The pin level that counts as active. */
    const polarity: bool
    var streamID: nat
    var enabled: bool
    var active: bool

    /** The pin itself is not modelled: tick() is given its level. */
    constructor (polarity: bool)
      ensures this.polarity == polarity && State() == Selector(false, false) && streamID == 0
    {
      this.polarity := polarity;
      streamID := 0;
      enabled := false;
      active := false;
    }

    function State(): Selector
      reads this
    {
      Selector(enabled, active)
    }

    /** setProtocol(): the stream id, a uint8_t. */
    method SetProtocol(id: nat)
      requires id < 256
      modifies this`streamID
      ensures streamID == id
    {
      streamID := id;
    }

    /** tick(): `level` is what digitalRead() returns for the select pin. */
    method Tick(level: bool) returns (written: seq<Out>)
      requires streamID < 256
      modifies this`active
      ensures SelectorStep(State(), written) == SelectorTick(old(State()), level == polarity, streamID)
    {
      written := [];
      if !enabled {
        return;
      }
      var currentState := level == polarity;
      if currentState != active {
        if currentState {
          written := NotificationHeader(streamID) + [Text("select")] + FrameEnd();
        }
        active := currentState;
      }
    }

    /** setEnabled(). */
    method SetEnabled(isEnabled: bool)
      modifies this`enabled, this`active
      ensures State() == SelectorEnabled(old(State()), isEnabled)
    {
      enabled := isEnabled;
      active := false;
    }

    /** handleMessage(): the frame body is data[off..off + len]. */
    method HandleMessage(kind: FrameKind, data: array<byte>, off: nat, len: nat) returns (reply: Reply)
      requires off + len < data.Length
      modifies this`enabled, this`active, data
      ensures (State(), reply) == SelectorMessage(old(State()), old(data[off..off + len]))
      ensures forall k :: 0 <= k < data.Length && (k < off || off + len < k) ==> data[k] == old(data[k])
      ensures forall k :: 0 <= k < data.Length && data[k] != old(data[k]) ==> data[k] == '\0'
    {
      var args := new ArgParser(data, off, len);
      var isBool, flag := args.ScanBool();
      if isBool {
        SetEnabled(flag);
        return Succeeded;
      }
      return Failed(StrErrInvalidArg);
    }
  }

  // ---------------------------------------------------------- ScalarSensorStream

  /** The state of a ScalarSensorStream, with `hooks` the arguments of the calls to
      the setEnabled() hook so far. */
  datatype Sensor<T> = Sensor(enabled: bool, valid: bool, value: T, hooks: seq<bool>)

  /** setEnabled() is called only when the enabled state changes: the calls alternate
      true, false, true, ... */
  predicate Alternating(hooks: seq<bool>) {
    forall i :: 0 <= i < |hooks| ==> hooks[i] == (i % 2 == 0)
  }

  /** What holds of a sensor between calls: a valid value only while enabled, and
      the hook called once per change of the enabled state. */
  predicate SensorOk<T>(s: Sensor<T>) {
    && (s.valid ==> s.enabled)
    && Alternating(s.hooks)
    && (s.enabled <==> |s.hooks| % 2 == 1)
  }

  /** A sensor as constructed: disabled, no value, T{} stored. */
  function SensorInitial<T>(zero: T): (s: Sensor<T>)
    ensures SensorOk(s) && !s.enabled && !s.valid
  {
    Sensor(false, false, zero, [])
  }

  /** setValue(): stored, and valid, only while enabled. */
  function SensorSet<T>(s: Sensor<T>, v: T): (r: Sensor<T>)
    ensures SensorOk(s) ==> SensorOk(r)
    ensures s.enabled ==> r.valid && r.value == v
    ensures !s.enabled ==> r == s
    ensures r.enabled == s.enabled && r.hooks == s.hooks
  {
    if s.enabled then s.(value := v, valid := true) else s
  }

  /** invalidate(). */
  function SensorInvalidate<T>(s: Sensor<T>): (r: Sensor<T>)
    ensures SensorOk(s) ==> SensorOk(r)
    ensures !r.valid && r.enabled == s.enabled && r.value == s.value && r.hooks == s.hooks
  {
    s.(valid := false)
  }

  /** enable(): the hook runs only when the sensor was disabled. */
  function SensorEnable<T>(s: Sensor<T>): (r: Sensor<T>)
    ensures SensorOk(s) ==> SensorOk(r)
    ensures r.enabled && r.valid == s.valid && r.value == s.value
    ensures r.hooks == s.hooks + (if s.enabled then [] else [true])
  {
    if !s.enabled then s.(enabled := true, hooks := s.hooks + [true]) else s
  }

  /** disable(): the hook runs, and the value is dropped, only when the sensor was enabled. */
  function SensorDisable<T>(s: Sensor<T>): (r: Sensor<T>)
    ensures SensorOk(s) ==> SensorOk(r)
    ensures !r.enabled && r.value == s.value
    ensures r.valid == (s.valid && !s.enabled)
    ensures r.hooks == s.hooks + (if s.enabled then [false] else [])
  {
    if s.enabled then s.(enabled := false, valid := false, hooks := s.hooks + [false]) else s
  }

  /** Appending the hook call that flips the enabled state keeps the calls alternating. */
  lemma {:induction false} AlternatingSnoc(hooks: seq<bool>, b: bool)
    requires Alternating(hooks) && b == (|hooks| % 2 == 0)
    ensures Alternating(hooks + [b])
  {
    var h := hooks + [b];
    forall i | 0 <= i < |h|
      ensures h[i] == (i % 2 == 0)
    {
      if i < |hooks| {
        assert h[i] == hooks[i];
      }
    }
  }

  /** Enabling twice, or disabling twice, calls the hook once. */
  lemma {:induction false} EnableDisableIdempotent<T>(s: Sensor<T>)
    ensures SensorEnable(SensorEnable(s)) == SensorEnable(s)
    ensures SensorDisable(SensorDisable(s)) == SensorDisable(s)
  {
  }

  /** Disabling drops the value: after disable() and enable(), read has nothing to
      report until setValue() runs again. */
  lemma {:induction false} ReenabledHasNoValue<T>(s: Sensor<T>, v: T)
    requires SensorOk(s)
    ensures !SensorEnable(SensorDisable(s)).valid
    ensures SensorSet(SensorEnable(SensorDisable(s)), v).valid
    ensures SensorSet(SensorDisable(s), v) == SensorDisable(s)
  {
  }

  /** The commands of a ScalarSensorStream. */
  datatype SensorCommand = ReadCommand | EnableCommand | SetCommand

  /** The command a word names: read, enable or set, matched on equality. */
  function SelectSensorCommand(table: StringTable, word: string): (r: Option<SensorCommand>)
    ensures r == Some(ReadCommand) <==> word == table(StrRead)
    ensures r == Some(EnableCommand) <==> word != table(StrRead) && word == table(StrEnable)
    ensures r == Some(SetCommand) <==> word != table(StrRead) && word != table(StrEnable) && word == table(StrSet)
  {
    if word == table(StrRead) then Some(ReadCommand)
    else if word == table(StrEnable) then Some(EnableCommand)
    else if word == table(StrSet) then Some(SetCommand)
    else None
  }

  /** The command selection as written: each test is `streq(...) == 0`, taken when
      the word differs from the entry. */
  function SelectSensorCommandAsWritten(table: StringTable, word: string): Option<SensorCommand> {
    if word != table(StrRead) then Some(ReadCommand)
    else if word != table(StrEnable) then Some(EnableCommand)
    else if word != table(StrSet) then Some(SetCommand)
    else None
  }

  /** As written, `read` runs the enable command and every other word, `enable`
      included, runs read. */
  lemma {:induction false} SensorCommandsSwappedAsWritten(table: StringTable)
    requires table(StrRead) != table(StrEnable)
    ensures SelectSensorCommandAsWritten(table, table(StrRead)) == Some(EnableCommand)
    ensures SelectSensorCommandAsWritten(table, table(StrEnable)) == Some(ReadCommand)
    ensures SelectSensorCommand(table, table(StrRead)) == Some(ReadCommand)
    ensures SelectSensorCommand(table, table(StrEnable)) == Some(EnableCommand)
  {
  }

  /** What handleMessage() of a ScalarSensorStream does. */
  datatype SensorStep<T> = SensorStep(s: Sensor<T>, reply: Reply, written: seq<Out>)

  /** handleMessage() on a body: `read` reports the value, `enable` queries or sets
      the enabled state, `set` runs a configuration transaction whose outcome
      commitConfig() decides. `commit(body, rp)` is that outcome for the arguments
      from rp on; id is the stream id. */
  function SensorMessage<T>(table: StringTable, commit: (seq<byte>, nat) -> bool, id: nat,
                            s: Sensor<T>, body: seq<byte>): (r: SensorStep<T>)
    ensures SensorOk(s) ==> SensorOk(r.s)
    ensures r.s.value == s.value
  {
    var w := FirstToken(body);
    if !w.token.Word? then SensorStep(s, Failed(StrErrInvalidArg), [])
    else match SelectSensorCommand(table, w.token.text)
      case None => SensorStep(s, Failed(StrErrUnknownCommand), [])
      case Some(ReadCommand) =>
        if !s.valid then SensorStep(s, Failed(StrErrNoValue), [])
        else SensorStep(s, Succeeded, [Str(StrRead), Ch(' '), Reported(id)])
      case Some(EnableCommand) =>
        if w.next >= |body| then SensorStep(s, Answered, [Str(StrEnable), Ch(' '), Str(if s.enabled then StrTrue else StrFalse)])
        else
          var b := NextToken(body, w.next);
          if !b.token.Bool? then SensorStep(s, Failed(StrErrInvalidArg), [])
          else SensorStep(if b.token.flag then SensorEnable(s) else SensorDisable(s), Succeeded, [])
      case Some(SetCommand) => SensorStep(s, if commit(body, w.next) then Succeeded else Answered, [])
  }

  /** `read` answers the report, followed by the caller's ok, when a value is
      valid, and error no-value otherwise; the state is unchanged. */
  lemma {:induction false} ReadReports<T>(table: StringTable, commit: (seq<byte>, nat) -> bool, id: nat,
                                          s: Sensor<T>, body: seq<byte>)
    requires FirstToken(body).token.Word? && FirstToken(body).token.text == table(StrRead)
    ensures var r := SensorMessage(table, commit, id, s, body);
            && r.s == s
            && (s.valid ==> r.reply == Succeeded && r.written == [Str(StrRead), Ch(' '), Reported(id)])
            && (!s.valid ==> r.reply == Failed(StrErrNoValue) && r.written == [])
  {
  }

  /** `enable on` and `enable off` switch the sensor through enable() and disable();
      `enable` alone answers the enabled state and changes nothing. */
  lemma {:induction false} EnableSwitches<T>(table: StringTable, commit: (seq<byte>, nat) -> bool, id: nat,
                                            s: Sensor<T>, body: seq<byte>)
    requires table(StrRead) != table(StrEnable)
    requires FirstToken(body).token.Word? && FirstToken(body).token.text == table(StrEnable)
    ensures var r := SensorMessage(table, commit, id, s, body);
            var w := FirstToken(body);
            var b := NextToken(body, w.next);
            && (w.next >= |body| ==> r.s == s && r.reply == Answered)
            && (w.next < |body| && b.token == Bool(true) ==> r == SensorStep(SensorEnable(s), Succeeded, []))
            && (w.next < |body| && b.token == Bool(false) ==> r == SensorStep(SensorDisable(s), Succeeded, []))
            && (w.next < |body| && !b.token.Bool? ==> r == SensorStep(s, Failed(StrErrInvalidArg), []))
  {
  }

  /** A ScalarSensorStream over values of type T. */
  class ScalarSensorStream<T> {
    const table: StringTable
    /** The outcome of the set transaction: what commitConfig() returns. */
    const commit: (seq<byte>, nat) -> bool
    var streamID: nat
    var enabled: bool
    var valid: bool
    var value: T
    /** The calls made to the setEnabled() hook. */
    var hooks: seq<bool>

    function State(): Sensor<T>
      reads this
    {
      Sensor(enabled, valid, value, hooks)
    }

    ghost predicate Valid()
      reads this
    {
      SensorOk(State())
    }

    /** `zero` is T{}, the value-initialised T. */
    constructor (table: StringTable, commit: (seq<byte>, nat) -> bool, zero: T)
      ensures Valid() && State() == SensorInitial(zero) && streamID == 0
      ensures this.table == table && this.commit == commit
    {
      this.table := table;
      this.commit := commit;
      streamID := 0;
      enabled := false;
      valid := false;
      value := zero;
      hooks := [];
    }

    /** setProtocol(): the stream id, a uint8_t. */
    method SetProtocol(id: nat)
      requires id < 256
      modifies this`streamID
      ensures streamID == id
    {
      streamID := id;
    }

    method SetValue(v: T)
      requires Valid()
      modifies this`value, this`valid
      ensures Valid() && State() == SensorSet(old(State()), v)
    {
      if enabled {
        value := v;
        valid := true;
      }
    }

    method Invalidate()
      requires Valid()
      modifies this`valid
      ensures Valid() && State() == SensorInvalidate(old(State()))
    {
      valid := false;
    }

    /** The setEnabled() hook: its effect is the subclass's, so only the call is recorded. */
    method SetEnabledHook(on: bool)
      modifies this`hooks
      ensures hooks == old(hooks) + [on]
    {
      hooks := hooks + [on];
    }

    method Enable()
      requires Valid()
      modifies this`enabled, this`hooks
      ensures Valid() && State() == SensorEnable(old(State()))
    {
      if !enabled {
        SetEnabledHook(true);
        enabled := true;
      }
    }

    method Disable()
      requires Valid()
      modifies this`enabled, this`valid, this`hooks
      ensures Valid() && State() == SensorDisable(old(State()))
    {
      if enabled {
        SetEnabledHook(false);
        enabled := false;
        valid := false;
      }
    }

    /** canReport(): a sensor can always report. */
    method CanReport() returns (r: bool)
      ensures r
    {
      r := true;
    }

    /** shouldReport(): only a valid value is reported, so only while enabled. */
    method ShouldReport() returns (r: bool)
      requires Valid()
      ensures r == valid && (r ==> enabled)
    {
      r := valid;
    }

    /** handleMessage(): the frame body is data[off..off + len]. */
    method HandleMessage(kind: FrameKind, data: array<byte>, off: nat, len: nat) returns (reply: Reply, written: seq<Out>)
      requires Valid() && off + len < data.Length
      modifies this`enabled, this`valid, this`hooks, data
      ensures Valid()
      ensures var r := SensorMessage(table, commit, streamID, old(State()), old(data[off..off + len]));
              State() == r.s && reply == r.reply && written == r.written
      ensures forall k :: 0 <= k < data.Length && (k < off || off + len < k) ==> data[k] == old(data[k])
      ensures forall k :: 0 <= k < data.Length && data[k] != old(data[k]) ==> data[k] == '\0'
    {
      var body := data[off..off + len];
      var args := new ArgParser(data, off, len);
      var isWord, word := args.ScanWord();
      if !isWord {
        return Failed(StrErrInvalidArg), [];
      }
      var command := SelectSensorCommand(table, word);
      if command == Some(ReadCommand) {
        if !valid {
          return Failed(StrErrNoValue), [];
        }
        return Succeeded, [Str(StrRead), Ch(' '), Reported(streamID)];
      }
      if command == Some(EnableCommand) {
        if args.End() {
          return Answered, [Str(StrEnable), Ch(' '), Str(if enabled then StrTrue else StrFalse)];
        }
        var isBool, flag := args.ScanBool();
        if !isBool {
          return Failed(StrErrInvalidArg), [];
        }
        if flag {
          Enable();
        } else {
          Disable();
        }
        return Succeeded, [];
      }
      if command == Some(SetCommand) {
        var committed := commit(body, args.rp);
        return if committed then Succeeded else Answered, [];
      }
      return Failed(StrErrUnknownCommand), [];
    }
  }
}
