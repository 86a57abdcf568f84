/**
  The light and LED-strip state machine of the base unit. Every handler is a
  pure function from the old state and its decoded input to the new state and
  the effects it produces, in the order the firmware produces them.
*/
module Application {
  import opened Wrappers
  import Payload

  /** Largest number of pixels the strip may be configured for (`MAX_PIXELS`). */
  const MaxPixels: nat := 150

  /** Size of the logical pixel buffer: `MAX_PIXELS * 4` bytes. */
  const PixelsCapacity: nat := MaxPixels * 4

  /**
    Pixel format of the strip. The firmware sizes a frame as
    `count * type`, so the enumerators are taken to be worth 3 and 4.
  */
  datatype StripType = RGB | RGBW

  function BytesPerPixel(t: StripType): nat
  {
    match t
    case RGB => 3
    case RGBW => 4
  }

  /** The mode names the config handlers accept and report, indexed as the enum is. */
  const ModeNames: seq<string> := ["rgb", "rgbw"]

  /** The name under which a strip type is reported. */
  function ModeName(t: StripType): string
  {
    if t == RGB then "rgb" else "rgbw"
  }

  /** The colour `bc_led_strip_fill` is called with: every channel off. */
  const Black: bv32 := 0

  /** What was last handed to the strip driver. */
  datatype Frame =
    | Untouched              // nothing since start-up
    | Pattern(bytes: seq<byte>) // `bc_led_strip_set_rgbw_framebuffer`
    | Fill(color: bv32)      // `bc_led_strip_fill`

  /** The module-level variables of the application. */
  datatype State = State(
    light: bool,
    pixels: seq<byte>,
    pixelsLength: nat,
    stripCount: nat,
    stripType: StripType,
    staged: Frame,
    pressCount: uint16)

  /**
    The capacity invariant: the pixel buffer has its fixed size, the stored
    pattern fits in it, and the pixel count never exceeds `MAX_PIXELS`.
  */
  predicate Valid(s: State)
  {
    && |s.pixels| == PixelsCapacity
    && s.pixelsLength <= PixelsCapacity
    && s.stripCount <= MaxPixels
  }

  /** The static initialisers: light off, an all-zero buffer, 150 RGBW pixels. */
  function Init(): (s: State)
    ensures Valid(s)
    ensures !s.light && s.pixelsLength == 0 && s.pressCount == 0
    ensures s.stripCount == MaxPixels && s.stripType == RGBW
    ensures forall i :: 0 <= i < |s.pixels| ==> s.pixels[i] == 0
  {
    State(false, seq(PixelsCapacity, _ => 0), 0, MaxPixels, RGBW, Untouched, 0)
  }

  /** How many bytes a strip write may take under the current geometry. */
  function WriteCapacity(s: State): nat
  {
    s.stripCount * BytesPerPixel(s.stripType)
  }

  /** The write capacity never exceeds the size of the pixel buffer. */
  lemma CapacityBound(s: State)
    requires Valid(s)
    ensures WriteCapacity(s) <= |s.pixels|
  {
  }

  /** Which side of the radio link a message speaks for. */
  datatype Prefix = Base | Remote

  /** Messages published on the USB bus. */
  datatype Message =
    | LightState(on: bool)                          // `<prefix>/light/-/state`
    | PushButton(prefix: Prefix, count: uint16)     // `<prefix>/push-button/...`
    | StripSetOk                                    // `base/led-strip/-/set/ok`
    | StripConfig(suffix: string, mode: string, pixelCount: nat) // `base/led-strip/-/config<suffix>`

  /** Side effects of a handler, other than the state change. */
  datatype Effect =
    | StatusLed(on: bool)   // `bc_led_set_mode` on or off
    | PairingMode           // radio enrollment started, status LED blinking fast
    | PlanTaskNow           // `bc_scheduler_plan_now(APPLICATION_TASK_ID)`
    | StopStripEffect       // `bc_led_strip_effect_stop`
    | DrainStrip            // strip written repeatedly until a write is accepted
    | Publish(msg: Message)

  datatype Reply = Reply(state: State, effects: seq<Effect>)

  /** The messages among a handler's effects, in order. */
  function Published(effects: seq<Effect>): (r: seq<Message>)
    ensures forall m :: m in r <==> Publish(m) in effects
  {
    if |effects| == 0 then []
    else
      var rest := Published(effects[1..]);
      assert forall e :: e in effects <==> e == effects[0] || e in effects[1..];
      if effects[0].Publish? then [effects[0].msg] + rest else rest
  }

  lemma PublishedConcat(a: seq<Effect>, b: seq<Effect>)
    ensures Published(a + b) == Published(a) + Published(b)
  {
    if |a| > 0 {
      assert (a + b)[1..] == a[1..] + b;
      PublishedConcat(a[1..], b);
    } else {
      assert a + b == b;
    }
  }

  /**
    `_light_set`: records the new light state, mirrors it on the status LED,
    stages the stored pattern when on and an all-black fill when off, asks for
    the strip task to run, and publishes the new state.
  */
  function SetLight(s: State, on: bool): (r: Reply)
    requires Valid(s)
    ensures Valid(r.state)
    ensures r.state.light == on
    ensures on ==> r.state.staged == Pattern(s.pixels[..s.pixelsLength])
    ensures !on ==> r.state.staged == Fill(Black)
    ensures r.state == s.(light := on, staged := r.state.staged)
    ensures Published(r.effects) == [LightState(on)]
    ensures PlanTaskNow in r.effects && StatusLed(on) in r.effects
  {
    var staged := if on then Pattern(s.pixels[..s.pixelsLength]) else Fill(Black);
    assert Published([Publish(LightState(on))]) == [LightState(on)];
    assert Published([PlanTaskNow, Publish(LightState(on))]) == [LightState(on)];
    Reply(s.(light := on, staged := staged),
          [StatusLed(on), PlanTaskNow, Publish(LightState(on))])
  }

  /** `light_set`: applies the `state` field when it is a boolean, otherwise does nothing. */
  function LightSet(s: State, stateField: Option<bool>): (r: Reply)
    requires Valid(s)
    ensures Valid(r.state)
    ensures stateField.None? ==> r == Reply(s, [])
    ensures stateField.Some? ==> r.state.light == stateField.value
    ensures stateField.Some? && stateField.value ==> r.state.staged == Pattern(s.pixels[..s.pixelsLength])
    ensures stateField.Some? && !stateField.value ==> r.state.staged == Fill(Black)
    ensures stateField.Some? ==> r.state == s.(light := stateField.value, staged := r.state.staged)
    ensures stateField.Some? ==> Published(r.effects) == [LightState(stateField.value)]
  {
    match stateField
    case None => Reply(s, [])
    case Some(on) => SetLight(s, on)
  }

  /** `light_get`: publishes the current light state and changes nothing. */
  function LightGet(s: State): (r: Reply)
    ensures r.state == s
    ensures r.effects == [Publish(LightState(s.light))]
  {
    Reply(s, [Publish(LightState(s.light))])
  }

  /** The events the button driver reports. */
  datatype ButtonEvent = Press | Release | Click | Hold

  /**
    `button_event_handler`: a press publishes the press counter, advances it
    and toggles the light; a hold starts radio pairing; other events are ignored.
  */
  function OnButton(s: State, event: ButtonEvent): (r: Reply)
    requires Valid(s)
    ensures Valid(r.state)
    ensures event == Press ==> r.state.light == !s.light
    ensures event == Press ==> r.state.pressCount == Inc16(s.pressCount)
    ensures event == Press && !s.light ==> r.state.staged == Pattern(s.pixels[..s.pixelsLength])
    ensures event == Press && s.light ==> r.state.staged == Fill(Black)
    ensures event == Press ==>
      r.state == s.(light := !s.light, pressCount := Inc16(s.pressCount), staged := r.state.staged)
    ensures event == Press ==>
      Published(r.effects) == [PushButton(Base, s.pressCount), LightState(!s.light)]
    ensures event == Hold ==> r == Reply(s, [PairingMode])
    ensures event != Press && event != Hold ==> r == Reply(s, [])
  {
    match event
    case Press =>
      var toggled := SetLight(s.(pressCount := Inc16(s.pressCount)), !s.light);
      var counted := [Publish(PushButton(Base, s.pressCount))];
      PublishedConcat(counted, toggled.effects);
      assert Published(counted) == [PushButton(Base, s.pressCount)];
      Reply(toggled.state, counted + toggled.effects)
    case Hold => Reply(s, [PairingMode])
    case _ => Reply(s, [])
  }

  /**
    `bc_radio_on_push_button`: a paired unit's button toggles the light, and
    the peer's own counter is republished under the remote prefix.
  */
  function OnPeerPushButton(s: State, peerCount: uint16): (r: Reply)
    requires Valid(s)
    ensures Valid(r.state)
    ensures r.state.light == !s.light
    ensures !s.light ==> r.state.staged == Pattern(s.pixels[..s.pixelsLength])
    ensures s.light ==> r.state.staged == Fill(Black)
    ensures r.state == s.(light := !s.light, staged := r.state.staged)
    ensures Published(r.effects) == [LightState(!s.light), PushButton(Remote, peerCount)]
  {
    var toggled := SetLight(s, !s.light);
    var remote := [Publish(PushButton(Remote, peerCount))];
    PublishedConcat(toggled.effects, remote);
    assert Published(remote) == [PushButton(Remote, peerCount)];
    Reply(toggled.state, toggled.effects + [Publish(PushButton(Remote, peerCount))])
  }

  /** Whether `led_strip_set` takes a `pixels` field: present and no longer than the strip holds. */
  predicate PixelsAccepted(s: State, pixelsField: Option<seq<byte>>)
  {
    pixelsField.Some? && |pixelsField.value| <= WriteCapacity(s)
  }

  /**
    `led_strip_set`: decodes at most `count * type` bytes over the front of
    the pixel buffer, records their number, stages them only while the light
    is on, and acknowledges. A rejected blob leaves everything as it was.
  */
  function LedStripSet(s: State, pixelsField: Option<seq<byte>>): (r: Reply)
    requires Valid(s)
    ensures Valid(r.state)
    ensures PixelsAccepted(s, pixelsField) <==> StripSetOk in Published(r.effects)
    ensures !PixelsAccepted(s, pixelsField) ==> r == Reply(s, [])
    ensures PixelsAccepted(s, pixelsField) ==>
      var data := pixelsField.value;
      && r.state.pixelsLength == |data|
      && r.state.pixels[..|data|] == data
      && r.state.pixels[|data|..] == s.pixels[|data|..]
      && r.state.staged == (if s.light then Pattern(data) else s.staged)
      && r.state.light == s.light
      && r.state.stripCount == s.stripCount
      && r.state.stripType == s.stripType
      && r.state.pressCount == s.pressCount
      && PlanTaskNow in r.effects
  {
    CapacityBound(s);
    match Payload.GetData(pixelsField, WriteCapacity(s))
    case None => Reply(s, [])
    case Some(data) =>
      var pixels := Payload.Overwrite(s.pixels, data);
      var staged := if s.light then Pattern(pixels[..|data|]) else s.staged;
      Reply(s.(pixels := pixels, pixelsLength := |data|, staged := staged),
            [PlanTaskNow, Publish(StripSetOk)])
  }

  /** Whether `led_strip_config_set` takes the request: a known mode and a count of at most 150. */
  predicate ConfigAccepted(modeField: Option<string>, countField: Option<nat>)
  {
    && modeField.Some? && (modeField.value == "rgb" || modeField.value == "rgbw")
    && countField.Some? && countField.value <= MaxPixels
  }

  /**
    `led_strip_config_set`: validates mode, then count, then the 150-pixel
    ceiling; on success stops any effect, blanks the strip, adopts the new
    geometry, drains the strip to black and reports the configuration.
  */
  function LedStripConfigSet(s: State, modeField: Option<string>, countField: Option<nat>): (r: Reply)
    ensures Valid(s) ==> Valid(r.state)
    ensures !ConfigAccepted(modeField, countField) ==> r == Reply(s, [])
    ensures ConfigAccepted(modeField, countField) ==>
      && r.state.stripCount == countField.value
      && (r.state.stripType == RGB <==> modeField.value == "rgb")
      && r.state.staged == Fill(Black)
      && r.state == s.(stripCount := r.state.stripCount, stripType := r.state.stripType, staged := Fill(Black))
      && Published(r.effects) == [StripConfig("/set/ok", modeField.value, countField.value)]
      && DrainStrip in r.effects
  {
    match Payload.GetEnum(modeField, ModeNames)
    case None => Reply(s, [])
    case Some(mode) =>
      match countField
      case None => Reply(s, [])
      case Some(count) =>
        if count > MaxPixels then Reply(s, [])
        else
          var stripType := if mode == 0 then RGB else RGBW;
          var s' := s.(stripCount := count, stripType := stripType, staged := Fill(Black));
          var report := StripConfig("/set/ok", ModeName(stripType), count);
          assert Published([Publish(report)]) == [report];
          assert Published([DrainStrip, Publish(report)]) == [report];
          Reply(s', [StopStripEffect, DrainStrip,
                     Publish(StripConfig("/set/ok", ModeName(stripType), count))])
  }

  /** `led_strip_config_get`: reports the current mode name and pixel count. */
  function LedStripConfigGet(s: State): (r: Reply)
    ensures r.state == s
    ensures |r.effects| == 1 && r.effects[0].Publish?
    ensures r.effects[0].msg.StripConfig? && r.effects[0].msg.suffix == ""
    ensures r.effects[0].msg.mode == "rgb" <==> s.stripType == RGB
    ensures r.effects[0].msg.mode in ModeNames
    ensures r.effects[0].msg.pixelCount == s.stripCount
  {
    Reply(s, [Publish(StripConfig("", ModeName(s.stripType), s.stripCount))])
  }
}
