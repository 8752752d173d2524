/** The hardware callbacks and websocket handlers of src/main.c: the emulator
    engine reports pixels, icons, tones and log lines through the callbacks,
    which keep the last picture in buffers and broadcast text frames to the
    browser clients; button events from the clients land in a button buffer
    that the engine pulls once per tick.

    Broadcasts, console output and the engine's button calls are recorded in
    ghost logs. Frames are structured values: the JSON text around them and
    the base64 text of the packed bytes are not part of this model. */
module Bridge {
  import opened Types
  import opened Json
  import opened BitPack

  const LCD_WIDTH := 32
  const LCD_HEIGHT := 16
  const ICON_NUM := 8

  // The engine's button codes and button states.
  const BTN_LEFT := 0
  const BTN_MIDDLE := 1
  const BTN_RIGHT := 2
  const BTN_TAP := 3
  const BTN_STATE_RELEASED := 0
  const BTN_STATE_PRESSED := 1

  // The engine's log levels, one bit each.
  const LOG_ERROR: u8 := 0x01
  const LOG_INFO: u8 := 0x02
  const LOG_MEMORY: u8 := 0x04
  const LOG_CPU: u8 := 0x08
  const LOG_INT: u8 := 0x10

  /** The enabled log levels. The bridge never changes them. */
  const LOG_LEVELS: u8 := LOG_ERROR + LOG_INFO

  /** A text frame broadcast to every client. */
  datatype Frame =
      /** `scr`: the packed pixel matrix and the packed icons. */
    | ScreenFrame(matrix: seq<u8>, icons: seq<u8>)
      /** `frq`: the frequency in dHz, the phase and the enabled flag. */
    | ToneFrame(freq: u32, phase: u32, enabled: bool)
      /** `log`: the level and the format string, arguments not expanded. */
    | LogFrame(level: u8, text: string)

  /** Why an inbound message was dropped. */
  datatype Diagnostic =
    | BtnMissingCode
    | BtnCodeNotNumber
    | BtnInvalidCode(code: int)
    | BtnMissingStatus
    | BtnStatusNotNumber
    | BtnInvalidStatus(status: int)
    | JsonErrorBefore(rest: string)
    | MissingType
    | TypeNotString
    | MissingPayload
    | UnknownEventType(eventType: string)

  /** A line written to the console: a diagnostic goes to stderr, a log
      line to stderr for errors and to stdout otherwise. */
  datatype ConsoleLine = DiagLine(diag: Diagnostic) | LogLine(toStderr: bool, format: string)

  /** A call `tamalib_set_button(button, pressed)` into the engine. */
  datatype ButtonCall = SetButton(button: int, pressed: bool)

  /** A valid button event: which button, and whether it is now pressed. */
  datatype ButtonEvent = ButtonEvent(button: int, pressed: bool)

  /** Where `handle_ws_message` sends a message. */
  datatype Route = ToButtonHandler(payload: Json) | Dropped(diag: Option<Diagnostic>)

  // ---------------------------------------------------------------------
  // Log filter

  /** Bitwise AND of two naturals. */
  function And(a: nat, b: nat): (r: nat)
    ensures r <= a && r <= b
  {
    if a == 0 || b == 0 then 0
    else 2 * And(a / 2, b / 2) + (if a % 2 == 1 && b % 2 == 1 then 1 else 0)
  }

  /** `hal_is_log_enabled`: whether `level` shares a bit with the enabled
      levels, which are errors and information. */
  function IsLogEnabled(level: u8): (enabled: bool)
    ensures enabled <==> level % 4 != 0
  {
    LogFilter(level);
    And(LOG_LEVELS, level) != 0
  }

  /** A one-bit level passes a mask exactly when the mask has that bit. */
  lemma {:induction false} AndBit(mask: nat, k: nat)
    ensures And(mask, Pow2(k)) != 0 <==> BitAt(mask, k)
  {
    if k == 0 {
      assert And(mask / 2, 0) == 0;
    } else {
      assert Pow2(k) / 2 == Pow2(k - 1) && Pow2(k) % 2 == 0;
      AndBit(mask / 2, k - 1);
    }
  }

  lemma AndOne(v: nat)
    ensures And(1, v) == v % 2
  {
  }

  /** With errors and information enabled, a level passes exactly when one
      of its two lowest bits is set. */
  lemma LogFilter(level: u8)
    ensures And(LOG_LEVELS, level) != 0 <==> level % 4 != 0
  {
    if level > 0 {
      AndOne(level / 2);
    }
  }

  /** Errors and information are logged; memory, CPU and interrupt traces are not. */
  lemma DefaultLogLevels()
    ensures IsLogEnabled(LOG_ERROR) && IsLogEnabled(LOG_INFO)
    ensures !IsLogEnabled(LOG_MEMORY) && !IsLogEnabled(LOG_CPU) && !IsLogEnabled(LOG_INT)
  {
  }

  // ---------------------------------------------------------------------
  // Broadcast history

  /** The `frq` frames among `frames`, in order. */
  ghost function Tones(frames: seq<Frame>): seq<Frame> {
    if |frames| == 0 then [] else
      var last := frames[|frames| - 1];
      Tones(frames[..|frames| - 1]) + (if last.ToneFrame? then [last] else [])
  }

  /** The `scr` frames among `frames`, in order. */
  ghost function Screens(frames: seq<Frame>): seq<Frame> {
    if |frames| == 0 then [] else
      var last := frames[|frames| - 1];
      Screens(frames[..|frames| - 1]) + (if last.ScreenFrame? then [last] else [])
  }

  lemma SentOneMore(frames: seq<Frame>, f: Frame)
    ensures Tones(frames + [f]) == Tones(frames) + (if f.ToneFrame? then [f] else [])
    ensures Screens(frames + [f]) == Screens(frames) + (if f.ScreenFrame? then [f] else [])
  {
    assert (frames + [f])[..|frames|] == frames;
  }

  /** The tone frames switch the tone on, off, on, ... at phase 0, and the
      tone is playing exactly after an odd number of them. */
  ghost predicate ToneHistory(tones: seq<Frame>, playing: bool) {
    (forall k :: 0 <= k < |tones| ==>
      tones[k].ToneFrame? && tones[k].phase == 0 && tones[k].enabled == (k % 2 == 0))
    && playing == (|tones| % 2 == 1)
  }

  /** No screen frame repeats the one before it, and the cached message is
      the last screen frame sent. */
  ghost predicate ScreenHistory(screens: seq<Frame>, previous: Option<Frame>) {
    (forall k :: 0 <= k < |screens| - 1 ==> screens[k] != screens[k + 1])
    && previous == (if |screens| == 0 then None else Some(screens[|screens| - 1]))
  }

  // ---------------------------------------------------------------------
  // Engine button pulls

  /** The calls `hal_handler` makes, in its order, for the buffer `flags`. */
  function ButtonPulls(flags: seq<bool>): (calls: seq<ButtonCall>)
    requires |flags| == 4
    ensures |calls| == 4
  {
    [ SetButton(BTN_LEFT, flags[BTN_LEFT]), SetButton(BTN_MIDDLE, flags[BTN_MIDDLE]),
      SetButton(BTN_RIGHT, flags[BTN_RIGHT]), SetButton(BTN_TAP, flags[BTN_TAP]) ]
  }

  /** The state the engine last received for `button`, if any. */
  function LastSet(calls: seq<ButtonCall>, button: int): Option<bool> {
    if |calls| == 0 then None
    else if calls[|calls| - 1].button == button then Some(calls[|calls| - 1].pressed)
    else LastSet(calls[..|calls| - 1], button)
  }

  lemma LastSetStep(calls: seq<ButtonCall>, c: ButtonCall, button: int)
    ensures LastSet(calls + [c], button)
      == if c.button == button then Some(c.pressed) else LastSet(calls, button)
  {
    assert (calls + [c])[..|calls|] == calls;
  }

  /** After a pull the engine holds every button as the buffer has it. */
  lemma PullsDeliverBuffer(calls: seq<ButtonCall>, flags: seq<bool>, button: int)
    requires |flags| == 4 && 0 <= button < 4
    ensures LastSet(calls + ButtonPulls(flags), button) == Some(flags[button])
  {
    var p := ButtonPulls(flags);
    assert calls + p == calls + [p[0]] + [p[1]] + [p[2]] + [p[3]];
    LastSetStep(calls, p[0], button);
    LastSetStep(calls + [p[0]], p[1], button);
    LastSetStep(calls + [p[0]] + [p[1]], p[2], button);
    LastSetStep(calls + [p[0]] + [p[1]] + [p[2]], p[3], button);
  }

  // ---------------------------------------------------------------------
  // Inbound messages

  predicate IsButton(code: int) {
    code == BTN_LEFT || code == BTN_RIGHT || code == BTN_MIDDLE || code == BTN_TAP
  }

  predicate IsButtonState(status: int) {
    status == BTN_STATE_PRESSED || status == BTN_STATE_RELEASED
  }

  /** The checks of `handle_ws_event_btn` on a payload, in its order. */
  function CheckBtnEvent(payload: Json): (r: Result<ButtonEvent, Diagnostic>)
    ensures r.Success? ==> 0 <= r.value.button < 4
  {
    match GetObjectItem(payload, "b")
    case None => Failure(BtnMissingCode)
    case Some(b) =>
      if !b.Number? then Failure(BtnCodeNotNumber)
      else if !IsButton(b.valueint) then Failure(BtnInvalidCode(b.valueint))
      else
        match GetObjectItem(payload, "s")
        case None => Failure(BtnMissingStatus)
        case Some(s) =>
          if !s.Number? then Failure(BtnStatusNotNumber)
          else if !IsButtonState(s.valueint) then Failure(BtnInvalidStatus(s.valueint))
          else Success(ButtonEvent(b.valueint, s.valueint == BTN_STATE_PRESSED))
  }

  /** A payload is accepted exactly when `b` is one of the four buttons and
      `s` is pressed (1) or released (0), both as numbers. */
  lemma BtnEventAccepted(payload: Json, button: int, pressed: bool)
    ensures CheckBtnEvent(payload) == Success(ButtonEvent(button, pressed)) <==>
      (0 <= button < 4
       && GetObjectItem(payload, "b") == Some(Number(button))
       && GetObjectItem(payload, "s") == Some(Number(if pressed then 1 else 0)))
  {
  }

  /** The button buffer after a checked event. */
  function ApplyEvent(flags: seq<bool>, r: Result<ButtonEvent, Diagnostic>): (after: seq<bool>)
    requires |flags| == 4 && (r.Success? ==> 0 <= r.value.button < 4)
    ensures |after| == 4
  {
    if r.Success? then flags[r.value.button := r.value.pressed] else flags
  }

  /** What a checked event prints: its diagnostic, if it failed. */
  function Report(r: Result<ButtonEvent, Diagnostic>): seq<ConsoleLine> {
    if r.Failure? then [DiagLine(r.error)] else []
  }

  /** The checks of `handle_ws_message` on a parse outcome, in its order. */
  function RouteMessage(msg: ParseResult): (route: Route)
    ensures msg.ParseFailed? ==> route.Dropped? && (route.diag.Some? <==> msg.errorPtr.Some?)
    ensures route.ToButtonHandler? <==>
      (msg.Parsed?
       && GetObjectItem(msg.json, "t") == Some(String("btn"))
       && GetObjectItem(msg.json, "e").Some?)
    ensures route.ToButtonHandler? ==> Some(route.payload) == GetObjectItem(msg.json, "e")
    ensures route.Dropped? && msg.Parsed? ==> route.diag.Some?
  {
    match msg
    case ParseFailed(errorPtr) =>
      Dropped(if errorPtr.Some? then Some(JsonErrorBefore(errorPtr.value)) else None)
    case Parsed(json) =>
      match GetObjectItem(json, "t")
      case None => Dropped(Some(MissingType))
      case Some(t) =>
        if !t.String? then Dropped(Some(TypeNotString))
        else
          match GetObjectItem(json, "e")
          case None => Dropped(Some(MissingPayload))
          case Some(e) =>
            if t.valuestring == "btn" then ToButtonHandler(e)
            else Dropped(Some(UnknownEventType(t.valuestring)))
  }

  /** A message reaches the button handler exactly when it parsed, its `t`
      is the string `btn` and it has an `e`, which is what is handed on. */
  lemma RoutedToButtons(msg: ParseResult, payload: Json)
    ensures RouteMessage(msg) == ToButtonHandler(payload) <==>
      (msg.Parsed?
       && GetObjectItem(msg.json, "t") == Some(String("btn"))
       && GetObjectItem(msg.json, "e") == Some(payload))
  {
  }

  /** Every other event type is reported and dropped. */
  lemma OtherTypesDropped(json: Json, eventType: string)
    requires GetObjectItem(json, "t") == Some(String(eventType)) && eventType != "btn"
    requires GetObjectItem(json, "e").Some?
    ensures RouteMessage(Parsed(json)) == Dropped(Some(UnknownEventType(eventType)))
  {
  }

  /** A press of the right button is applied; an unknown button code is refused. */
  lemma ButtonExamples()
    ensures var press := Object([Member("b", Number(2)), Member("s", Number(1))]);
      RouteMessage(Parsed(Object([Member("t", String("btn")), Member("e", press)])))
        == ToButtonHandler(press)
      && CheckBtnEvent(press) == Success(ButtonEvent(BTN_RIGHT, true))
    ensures CheckBtnEvent(Object([Member("b", Number(99)), Member("s", Number(1))]))
      == Failure(BtnInvalidCode(99))
  {
  }

  // ---------------------------------------------------------------------
  // Screen

  /** Bit `j` of byte `i` of a packed matrix is the pixel in row `i / 4`,
      column `8 * (i % 4) + 7 - j`: each row takes four bytes, leftmost
      pixel in the most significant bit. */
  lemma MatrixBytePixel(pixels: seq<bool>, i: nat, j: nat)
    requires |pixels| == LCD_HEIGHT * LCD_WIDTH && i < LCD_HEIGHT * LCD_WIDTH / 8 && j < 8
    ensures |Pack(pixels)| == LCD_HEIGHT * LCD_WIDTH / 8
    ensures BitAt(Pack(pixels)[i], j) == pixels[LCD_WIDTH * (i / 4) + 8 * (i % 4) + 7 - j]
  {
    PackedBit(pixels, i, j);
    assert 8 * i == LCD_WIDTH * (i / 4) + 8 * (i % 4);
  }

  /** The `scr` envelope without its two payloads. */
  const SCREEN_ENVELOPE: string := "{\"t\":\"scr\",\"e\":{\"m\":\"\",\"i\":\"\"}}"

  /** Padded base64 output length for `n` input bytes (RFC 4648 section 4). */
  function Base64Length(n: nat): nat {
    (n + 2) / 3 * 4
  }

  /** The base64 text of the 64 matrix bytes and of the one icon byte, the
      31 characters of the envelope and the terminator fill the 124-byte
      message buffer exactly, so the screen message is never cut short. */
  lemma ScreenMessageSize()
    ensures |SCREEN_ENVELOPE| == 31
    ensures Base64Length(LCD_HEIGHT * LCD_WIDTH / 8) == 88 && Base64Length(ICON_NUM / 8) == 4
    ensures Base64Length(LCD_HEIGHT * LCD_WIDTH / 8) + Base64Length(ICON_NUM / 8) + |SCREEN_ENVELOPE| + 1 == 124
  {
  }

  // ---------------------------------------------------------------------
  // The bridge state

  /** The globals of src/main.c that the callbacks and handlers share. */
  class Hal {
    /** `matrix_buffer[y][x]`. */
    const matrix: array2<bool>
    /** `icon_buffer`. */
    const icons: array<bool>
    /** `btn_buffer`, indexed by button code. */
    const buttons: array<bool>
    /** `current_freq`, in dHz. */
    var currentFreq: u32
    /** `sin_pos`, the phase reported with a tone. */
    var sinPos: u32
    /** `is_audio_playing`. */
    var isAudioPlaying: bool
    /** `previous_msg` of `hal_update_screen`; `None` while it is still empty. */
    var previousMsg: Option<Frame>
    /** Every frame broadcast so far. */
    ghost var sent: seq<Frame>
    /** Every console line printed so far. */
    ghost var console: seq<ConsoleLine>
    /** Every `tamalib_set_button` call made so far. */
    ghost var buttonCalls: seq<ButtonCall>

    ghost predicate Valid()
      reads this
    {
      matrix.Length0 == LCD_HEIGHT && matrix.Length1 == LCD_WIDTH
      && icons.Length == ICON_NUM && buttons.Length == 4 && icons != buttons
      && sinPos == 0
      && ToneHistory(Tones(sent), isAudioPlaying)
      && ScreenHistory(Screens(sent), previousMsg)
    }

    /** The zero-initialised globals. */
    constructor ()
      ensures Valid()
      ensures fresh(matrix) && fresh(icons) && fresh(buttons)
      ensures forall y, x :: 0 <= y < LCD_HEIGHT && 0 <= x < LCD_WIDTH ==> !matrix[y, x]
      ensures forall i :: 0 <= i < ICON_NUM ==> !icons[i]
      ensures forall i :: 0 <= i < 4 ==> !buttons[i]
      ensures currentFreq == 0 && !isAudioPlaying && previousMsg == None
      ensures sent == [] && console == [] && buttonCalls == []
    {
      matrix := new bool[LCD_HEIGHT, LCD_WIDTH]((_, _) => false);
      icons := new bool[ICON_NUM](_ => false);
      buttons := new bool[4](_ => false);
      currentFreq := 0;
      sinPos := 0;
      isAudioPlaying := false;
      previousMsg := None;
      sent := [];
      console := [];
      buttonCalls := [];
    }

    /** The pixel matrix in memory order, row after row, as
        `hal_update_screen` hands it to the packer. */
    function Pixels(): (pixels: seq<bool>)
      reads matrix
      requires matrix.Length0 == LCD_HEIGHT && matrix.Length1 == LCD_WIDTH
      ensures |pixels| == LCD_HEIGHT * LCD_WIDTH
      ensures forall y, x :: 0 <= y < LCD_HEIGHT && 0 <= x < LCD_WIDTH ==>
        pixels[LCD_WIDTH * y + x] == matrix[y, x]
    {
      seq(LCD_HEIGHT * LCD_WIDTH, k requires 0 <= k < LCD_HEIGHT * LCD_WIDTH reads matrix =>
        matrix[k / LCD_WIDTH, k % LCD_WIDTH])
    }

    /** `hal_set_lcd_matrix`: only the addressed pixel changes. The source
        does not check the coordinates; the engine keeps them on the screen. */
    method HalSetLcdMatrix(x: u8, y: u8, val: bool)
      requires Valid() && x < LCD_WIDTH && y < LCD_HEIGHT
      modifies matrix
      ensures Valid()
      ensures matrix[y, x] == val
      ensures forall j, i :: 0 <= j < LCD_HEIGHT && 0 <= i < LCD_WIDTH && (j, i) != (y as int, x as int) ==>
        matrix[j, i] == old(matrix[j, i])
      ensures Pixels() == old(Pixels())[LCD_WIDTH * y + x := val]
    {
      matrix[y, x] := val;
      ghost var before, after := old(Pixels()), Pixels();
      forall k | 0 <= k < LCD_HEIGHT * LCD_WIDTH
        ensures after[k] == before[LCD_WIDTH * y + x := val][k]
      {
        assert k == LCD_WIDTH * (k / LCD_WIDTH) + k % LCD_WIDTH;
      }
    }

    /** `hal_set_lcd_icon`: only the addressed icon changes. */
    method HalSetLcdIcon(icon: u8, val: bool)
      requires Valid() && icon < ICON_NUM
      modifies icons
      ensures Valid()
      ensures icons[..] == old(icons[..])[icon := val]
    {
      icons[icon] := val;
    }

    /** `hal_set_frequency`: a new frequency restarts the phase; the same
        frequency changes nothing. */
    method HalSetFrequency(freq: u32)
      requires Valid()
      modifies this`currentFreq, this`sinPos
      ensures Valid()
      ensures currentFreq == freq
      ensures sinPos == (if old(currentFreq) == freq then old(sinPos) else 0)
    {
      if currentFreq != freq {
        currentFreq := freq;
        sinPos := 0;
      }
    }

    /** `hal_play_frequency`: a tone frame goes out exactly when the enabled
        flag flips, carrying the frequency, the phase and the new flag. */
    method HalPlayFrequency(en: bool)
      requires Valid()
      modifies this`isAudioPlaying, this`sent
      ensures Valid()
      ensures isAudioPlaying == en
      ensures sent == old(sent) + (if old(isAudioPlaying) != en then [ToneFrame(currentFreq, sinPos, en)] else [])
    {
      if isAudioPlaying != en {
        isAudioPlaying := en;
        var msg := ToneFrame(currentFreq, sinPos, isAudioPlaying);
        SentOneMore(sent, msg);
        sent := sent + [msg];
      }
    }

    /** `hal_log`: a level that passes the filter prints the format string
        (to stderr for errors) and broadcasts it; any other level does nothing. */
    method HalLog(level: u8, format: string)
      requires Valid()
      modifies this`sent, this`console
      ensures Valid()
      ensures IsLogEnabled(level) ==> console == old(console) + [LogLine(level == LOG_ERROR, format)]
      ensures IsLogEnabled(level) ==> sent == old(sent) + [LogFrame(level, format)]
      ensures !IsLogEnabled(level) ==> console == old(console) && sent == old(sent)
    {
      if !IsLogEnabled(level) {
        return;
      }
      console := console + [LogLine(level == LOG_ERROR, format)];
      var msg := LogFrame(level, format);
      SentOneMore(sent, msg);
      sent := sent + [msg];
    }

    /** `hal_update_screen`: builds the screen frame from the packed matrix
        and icons, and broadcasts it only when it differs from the cached
        one, which it then becomes. */
    method HalUpdateScreen()
      requires Valid()
      modifies this`previousMsg, this`sent
      ensures Valid()
      ensures var msg := ScreenFrame(Pack(Pixels()), Pack(icons[..]));
        previousMsg == Some(msg)
        && sent == old(sent) + (if old(previousMsg) == Some(msg) then [] else [msg])
    {
      var matrixPacked := PackBits(Pixels());
      var iconPacked := PackBits(icons[..]);
      var msg := ScreenFrame(matrixPacked.value, iconPacked.value);
      if Some(msg) != previousMsg {
        SentOneMore(sent, msg);
        sent := sent + [msg];
        previousMsg := Some(msg);
      }
    }

    /** `hal_handler`: hands the four buffered buttons to the engine, in the
        order left, middle, right, tap. */
    method HalHandler() returns (r: int)
      requires Valid()
      modifies this`buttonCalls
      ensures Valid()
      ensures r == 0
      ensures buttonCalls == old(buttonCalls) + ButtonPulls(buttons[..])
      ensures forall b :: 0 <= b < 4 ==> LastSet(buttonCalls, b) == Some(buttons[b])
    {
      buttonCalls := buttonCalls + [SetButton(BTN_LEFT, buttons[BTN_LEFT])];
      buttonCalls := buttonCalls + [SetButton(BTN_MIDDLE, buttons[BTN_MIDDLE])];
      buttonCalls := buttonCalls + [SetButton(BTN_RIGHT, buttons[BTN_RIGHT])];
      buttonCalls := buttonCalls + [SetButton(BTN_TAP, buttons[BTN_TAP])];
      assert buttonCalls == old(buttonCalls) + ButtonPulls(buttons[..]);
      forall b | 0 <= b < 4 ensures LastSet(buttonCalls, b) == Some(buttons[b]) {
        PullsDeliverBuffer(old(buttonCalls), buttons[..], b);
      }
      return 0;
    }

    /** `handle_ws_event_btn`: a valid payload sets one button; any other
        prints why and leaves the buffer alone. */
    method HandleWsEventBtn(json: Json) returns (status: int)
      requires Valid()
      modifies buttons, this`console
      ensures Valid() && status == 0
      ensures buttons[..] == ApplyEvent(old(buttons[..]), CheckBtnEvent(json))
      ensures console == old(console) + Report(CheckBtnEvent(json))
    {
      var b := GetObjectItem(json, "b");
      if b.None? {
        console := console + [DiagLine(BtnMissingCode)];
        return 0;
      }
      if !b.value.Number? {
        console := console + [DiagLine(BtnCodeNotNumber)];
        return 0;
      }
      var btnCode := b.value.valueint;
      if !(btnCode == BTN_LEFT || btnCode == BTN_RIGHT || btnCode == BTN_MIDDLE || btnCode == BTN_TAP) {
        console := console + [DiagLine(BtnInvalidCode(btnCode))];
        return 0;
      }
      var s := GetObjectItem(json, "s");
      if s.None? {
        console := console + [DiagLine(BtnMissingStatus)];
        return 0;
      }
      if !s.value.Number? {
        console := console + [DiagLine(BtnStatusNotNumber)];
        return 0;
      }
      var btnStatus := s.value.valueint;
      if !(btnStatus == BTN_STATE_PRESSED || btnStatus == BTN_STATE_RELEASED) {
        console := console + [DiagLine(BtnInvalidStatus(btnStatus))];
        return 0;
      }
      buttons[btnCode] := btnStatus == BTN_STATE_PRESSED;
      return 0;
    }

    /** `handle_ws_message`: routes a parsed `btn` message to the button
        handler, prints why any other message is dropped, and returns 0. */
    method HandleWsMessage(msg: ParseResult) returns (status: int)
      requires Valid()
      modifies buttons, this`console
      ensures Valid() && status == 0
      ensures RouteMessage(msg).ToButtonHandler? ==>
        var r := CheckBtnEvent(RouteMessage(msg).payload);
        buttons[..] == ApplyEvent(old(buttons[..]), r) && console == old(console) + Report(r)
      ensures RouteMessage(msg).Dropped? ==>
        var d := RouteMessage(msg).diag;
        buttons[..] == old(buttons[..])
        && console == old(console) + (if d.Some? then [DiagLine(d.value)] else [])
    {
      status := 0;
      if msg.ParseFailed? {
        if msg.errorPtr.Some? {
          console := console + [DiagLine(JsonErrorBefore(msg.errorPtr.value))];
        }
        return;
      }
      var json := msg.json;
      var t := GetObjectItem(json, "t");
      if t.None? {
        console := console + [DiagLine(MissingType)];
        return;
      }
      if !t.value.String? {
        console := console + [DiagLine(TypeNotString)];
        return;
      }
      var e := GetObjectItem(json, "e");
      if e.None? {
        console := console + [DiagLine(MissingPayload)];
        return;
      }
      if t.value.valuestring == "btn" {
        var _ := HandleWsEventBtn(e.value);
      } else {
        console := console + [DiagLine(UnknownEventType(t.value.valuestring))];
      }
    }
  }

  // ---------------------------------------------------------------------
  // Call sequences

  /** Two screen updates with nothing drawn in between broadcast at most once. */
  method UpdateScreenTwice(h: Hal)
    requires h.Valid()
    modifies h`previousMsg, h`sent
    ensures h.Valid()
    ensures |old(h.sent)| <= |h.sent| <= |old(h.sent)| + 1
  {
    h.HalUpdateScreen();
    h.HalUpdateScreen();
  }

  /** Switching a 2200 dHz tone on broadcasts it with phase 0; changing the
      frequency while it plays and enabling it again broadcasts nothing. */
  method ToneOnThenRetune(h: Hal)
    requires h.Valid() && !h.isAudioPlaying
    modifies h`currentFreq, h`sinPos, h`isAudioPlaying, h`sent
    ensures h.Valid()
    ensures h.sent == old(h.sent) + [ToneFrame(2200, 0, true)]
    ensures h.currentFreq == 1800 && h.isAudioPlaying
  {
    h.HalSetFrequency(2200);
    h.HalPlayFrequency(true);
    h.HalSetFrequency(1800);
    h.HalPlayFrequency(true);
  }
}
