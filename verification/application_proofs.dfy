/**
  Properties that relate several handler invocations: the capacity invariant
  over any sequence of events, light toggling, and the configuration
  round trip.
*/
module ApplicationProofs {
  import opened Wrappers
  import opened Application
  import Payload
  import Scheduling

  /** Every inbound command and hardware event the handlers react to. */
  datatype Event =
    | LightSetCommand(stateField: Option<bool>)
    | LightGetCommand
    | ButtonInput(event: ButtonEvent)
    | PeerPushButton(peerCount: uint16)
    | StripSetCommand(pixelsField: Option<seq<byte>>)
    | StripConfigSetCommand(modeField: Option<string>, countField: Option<nat>)
    | StripConfigGetCommand

  /** Dispatches one event to its handler. */
  function Step(s: State, e: Event): (r: Reply)
    requires Valid(s)
    ensures Valid(r.state)
  {
    match e
    case LightSetCommand(f) => LightSet(s, f)
    case LightGetCommand => LightGet(s)
    case ButtonInput(b) => OnButton(s, b)
    case PeerPushButton(c) => OnPeerPushButton(s, c)
    case StripSetCommand(f) => LedStripSet(s, f)
    case StripConfigSetCommand(m, c) => LedStripConfigSet(s, m, c)
    case StripConfigGetCommand => LedStripConfigGet(s)
  }

  /**
    The state after handling `events` in order, starting from `s`. The
    capacity invariant holds throughout: the pixel count stays within
    `MAX_PIXELS`, so `count * type` never exceeds the 600-byte pixel buffer
    the decoder writes into.
  */
  function Run(s: State, events: seq<Event>): (r: State)
    requires Valid(s)
    ensures Valid(r)
    ensures r.stripCount <= MaxPixels
    ensures WriteCapacity(r) <= PixelsCapacity
    decreases |events|
  {
    if |events| == 0 then (CapacityBound(s); s)
    else Run(Step(s, events[0]).state, events[1..])
  }

  /**
    Turning the light off and on again restages the stored pattern: the off
    step blanks the strip without touching `pixels` or `pixels_length`.
  */
  lemma LightOffOnRestoresPattern(s: State)
    requires Valid(s)
    ensures SetLight(s, false).state.staged == Fill(Black)
    ensures SetLight(s, false).state.pixels == s.pixels
    ensures SetLight(s, false).state.pixelsLength == s.pixelsLength
    ensures SetLight(SetLight(s, false).state, true).state == SetLight(s, true).state
    ensures SetLight(SetLight(s, false).state, true).state.staged == Pattern(s.pixels[..s.pixelsLength])
  {
  }

  /** After `light_set` with a boolean, `light_get` reports exactly that boolean. */
  lemma LightSetThenGet(s: State, v: bool)
    requires Valid(s)
    ensures LightGet(LightSet(s, Some(v)).state).effects == [Publish(LightState(v))]
    ensures LightGet(LightSet(s, None).state).effects == [Publish(LightState(s.light))]
  {
  }

  /** Setting the light twice to the same value is the same as setting it once. */
  lemma SetLightIdempotent(s: State, on: bool)
    requires Valid(s)
    ensures SetLight(SetLight(s, on).state, on).state == SetLight(s, on).state
  {
  }

  /** Two button presses restore the light and advance the press counter by two. */
  lemma TwoPressesRestoreLight(s: State)
    requires Valid(s)
    ensures OnButton(OnButton(s, Press).state, Press).state.light == s.light
    ensures OnButton(OnButton(s, Press).state, Press).state.pressCount == Inc16(Inc16(s.pressCount))
    ensures OnButton(OnButton(s, Press).state, Press).state.pixels == s.pixels
  {
  }

  /** A local press and a peer press cancel out on the light. */
  lemma LocalAndPeerPressCancel(s: State, peerCount: uint16)
    requires Valid(s)
    ensures OnPeerPushButton(OnButton(s, Press).state, peerCount).state.light == s.light
  {
  }

  /** The reported mode name parses back, through the enum table, to the same strip type. */
  lemma ModeNameRoundTrip(t: StripType)
    ensures Payload.GetEnum(Some(ModeName(t)), ModeNames).Some?
    ensures var i := Payload.GetEnum(Some(ModeName(t)), ModeNames).value;
      (if i == 0 then RGB else RGBW) == t
  {
  }

  /**
    After an accepted reconfiguration, `led_strip_config_get` reports exactly
    the mode name and count that were requested.
  */
  lemma ConfigSetThenGet(s: State, mode: string, count: nat)
    requires ConfigAccepted(Some(mode), Some(count))
    ensures var s' := LedStripConfigSet(s, Some(mode), Some(count)).state;
      LedStripConfigGet(s').effects == [Publish(StripConfig("", mode, count))]
  {
  }

  /**
    Reconfiguring keeps the stored pattern: switching the light on afterwards
    restages the bytes that were there before.
  */
  lemma ConfigKeepsPattern(s: State, mode: Option<string>, count: Option<nat>)
    requires Valid(s)
    ensures var s' := LedStripConfigSet(s, mode, count).state;
      && s'.pixels == s.pixels && s'.pixelsLength == s.pixelsLength && s'.light == s.light
      && SetLight(s', true).state.staged == SetLight(s, true).state.staged
  {
  }

  /** A rejected reconfiguration leaves the geometry as it was, however often it is repeated. */
  lemma RejectedConfigIsNoop(s: State, mode: Option<string>, count: Option<nat>)
    requires !ConfigAccepted(mode, count)
    ensures LedStripConfigSet(s, mode, count).state == s
    ensures LedStripConfigSet(LedStripConfigSet(s, mode, count).state, mode, count).state == s
    ensures Published(LedStripConfigSet(s, mode, count).effects) == []
  {
  }

  /**
    With the light on, a pattern written to a 10-pixel RGBW strip is staged
    while on, blanked while off, and staged again on the way back.
  */
  lemma StripPatternSurvivesToggle(s: State, data: seq<byte>)
    requires Valid(s) && s.light
    requires |data| == 40
    ensures var s1 := LedStripConfigSet(s, Some("rgbw"), Some(10)).state;
      var s2 := LedStripSet(s1, Some(data)).state;
      && s2.staged == Pattern(data)
      && SetLight(s2, false).state.staged == Fill(Black)
      && SetLight(SetLight(s2, false).state, true).state.staged == Pattern(data)
  {
  }

  /**
    For any geometry: with the light on, an accepted pattern is staged at
    once, blanked while the light is off, and staged again when it is back on.
  */
  lemma AcceptedPatternSurvivesToggle(s: State, data: seq<byte>)
    requires Valid(s) && s.light
    requires PixelsAccepted(s, Some(data))
    ensures var s1 := LedStripSet(s, Some(data)).state;
      && s1.staged == Pattern(data)
      && SetLight(s1, false).state.staged == Fill(Black)
      && SetLight(SetLight(s1, false).state, true).state.staged == Pattern(data)
  {
  }

  /**
    Blobs are capped, not matched: on a 20-pixel RGBW strip a 79-byte and an
    80-byte blob are both taken, an 81-byte one is refused.
  */
  lemma StripSetCapsLength(s: State, short: seq<byte>, exact: seq<byte>, long: seq<byte>)
    requires Valid(s)
    requires |short| == 79 && |exact| == 80 && |long| == 81
    ensures var s1 := LedStripConfigSet(s, Some("rgbw"), Some(20)).state;
      && StripSetOk in Published(LedStripSet(s1, Some(short)).effects)
      && StripSetOk in Published(LedStripSet(s1, Some(exact)).effects)
      && LedStripSet(s1, Some(long)) == Reply(s1, [])
  {
  }

  /**
    Shrinking the strip does not shorten the stored pattern: after a full
    600-byte pattern and a reconfiguration to zero RGB pixels, the light-on
    path still stages all 600 bytes.
  */
  lemma ShrinkKeepsLongPattern(data: seq<byte>)
    requires |data| == PixelsCapacity
    ensures var s1 := LedStripSet(Init(), Some(data)).state;
      var s2 := LedStripConfigSet(s1, Some("rgb"), Some(0)).state;
      && s2.pixelsLength == PixelsCapacity
      && WriteCapacity(s2) == 0
      && SetLight(s2, true).state.staged == Pattern(data)
  {
  }

  /** The task's answer to three busy writes and then a started one. */
  lemma BusyThenStartedPlans()
    ensures Scheduling.TaskPlans([false, false, false, true]) ==
      [Scheduling.Now, Scheduling.Now, Scheduling.Now, Scheduling.After(Scheduling.WriteInterval)]
  {
  }
}
