# Base-unit light and LED-strip state machine

This project models the application layer of a modular sensor/actuator node's
base unit (`base/app/application.c`). The unit keeps a light flag, a 600-byte
logical pixel buffer with its used length, and the LED-strip geometry: a pixel
count of at most `MAX_PIXELS = 150` and a format, RGB or RGBW. USB commands,
the local button and a paired unit's button change this state. A recurring
task streams the staged frame to the strip.

Each handler is a pure Dafny function. It takes the old `State` and the
handler's decoded input, and it returns a `Reply`: the new state plus the
ordered list of effects it produces. Effects are published messages, scheduler
requests, status-LED changes and strip-driver actions.

- `Application` holds the state, its capacity invariant `Valid`, and one
  function per handler.
- `Payload` gives the rules of the two payload extractions whose outcome the
  strip handlers depend on: enum-by-name and capacity-bounded byte blob.
- `SensorAddress` models the one-byte sensor address `(bus << 7) | i2c`, its
  decoder, and the fixed sensor table built in `application_init`.
- `Scheduling` models `application_task`'s re-planning decision and the
  drain loop of `led_strip_config_set`.
- `ApplicationProofs` dispatches events to handlers. It holds the lemmas
  that relate several handler calls.

Parsing results and hardware answers are inputs of the model:
- `Option<bool>` for the light `state` field;
- `Option<seq<byte>>` for the `pixels` blob;
- `Option<string>` and `Option<nat>` for the config `mode` and `count` fields;
- `bool` for the result of `bc_led_strip_write`.

`None` stands for a field that is missing or has the wrong type.

Modelling assumptions:
- The strip-type enumerators are worth 3 (RGB) and 4 (RGBW) bytes per pixel.
  The firmware sizes a frame as `count * type`, which implies these values.
- `BC_I2C_I2C0 = 0` and `BC_I2C_I2C1 = 1`.
- The temperature tag sits at 0x48 (default) and 0x49 (alternate), and the
  lux meter at 0x44 and 0x45. These addresses come from the tag variables'
  names in `application_init`.
- The staged frame is recorded as a snapshot of the bytes handed to the
  driver. An `Untouched` frame stands for the driver's state before any call.
- `usb_talk_payload_get_data` is not part of this model. It is assumed to
  take the `length` passed in at :397-399 as the destination capacity. It
  fails on a blob longer than that. On success it writes the blob over the
  front of `pixels` and puts the blob's length back into `length`.
- A failed `usb_talk_payload_get_data` is assumed to write nothing into
  `pixels`. The visible code alone guarantees less: on failure
  `pixels_length`, the light, the geometry and the staged frame stay
  unchanged, and nothing is published.
- `usb_talk_payload_get_uint` is assumed never to yield a negative value for
  `count`, so the count is modelled as a natural number. The source stores
  it in a signed `int` (:418) and guards only `count > MAX_PIXELS` (:430). A
  negative value would therefore be adopted at :439 and would wrap the
  `size_t` capacity at :397.

Facts of the code that the lemmas make explicit:
- `led_strip_config_set` accepts a pixel count of 0 and rejects only counts
  above 150 (:430).
- Under the decoder assumption above, `led_strip_set` accepts any blob of at
  most `count * type` bytes (:397-401). `StripSetCapsLength` shows a 79-byte
  blob accepted on a 20-pixel RGBW strip.
- Reconfiguring leaves `pixels` and `pixels_length` as they were and stages
  an all-black fill, even with the light on (:435-444).
  `ShrinkKeepsLongPattern` shows that `pixels_length` can then exceed the new
  strip's capacity.
- A write returning true plans the task after 50 ticks, and false plans it
  at once (:182-189). The drain loop at :444 ends on the first true.

## Model

| member | source | states |
|---|---|---|
| SensorAddress.Encode | base/app/application.c:80 | the channel lands in the top bit and the 7-bit address in the low bits; numerically the byte is 128·bus + address |
| SensorAddress.Decode | base/app/application.c:80-176 | every byte splits into a channel and an address that re-encode to that same byte; bit 7 selects channel 1 |
| SensorAddress.DecodeEncode | base/app/application.c:80-176 | decoding an encoded address recovers exactly the channel and the address |
| SensorAddress.EncodeInjective | base/app/application.c:80-176 | two different sensors never share a device byte |
| SensorAddress.SensorTableBytesIdentifyTags | base/app/application.c:77-177 | each of the 16 configured tags' bytes decodes to its own channel and address, and no two tags share a byte |
| Wrappers.Inc16 | base/app/application.c:199-201 | the `uint16_t` press counter advances by one and wraps from 65535 back to 0 |
| Payload.IndexOf | base/app/application.c:420 | finds the first position of a name, and fails exactly when the name is not a candidate |
| Payload.GetEnum | base/app/application.c:420-423 | a mode field is accepted exactly when it is one of the candidate names, and yields that name's index |
| Payload.GetData | base/app/application.c:397-399 | a blob is accepted exactly when it is present and fits the given capacity, and is handed back unchanged |
| Payload.Overwrite | base/app/application.c:399 | the decoded blob occupies the front of the buffer, the bytes after it are kept, and the buffer keeps its size |
| Application.Init | base/app/application.c:14-29 | the start state: light off, an all-zero 600-byte buffer, 150 RGBW pixels; it satisfies the capacity invariant |
| Application.CapacityBound | base/app/application.c:397-399 | under the invariant, `count * type` never exceeds the 600-byte buffer the blob is decoded into |
| Application.SetLight | base/app/application.c:335-353 | the light becomes the requested value; on stages `pixels[0..pixels_length)`, off stages an all-black fill; pixels, length, geometry and counter are untouched; the new value is the one message published |
| Application.LightSet | base/app/application.c:355-365 | a missing or non-boolean `state` field changes nothing and publishes nothing; otherwise the light takes the given value, on stages `pixels[0..pixels_length)` and off stages a black fill, nothing else in the state changes, and that value is published |
| Application.LightGet | base/app/application.c:367-372 | publishes the current light value and leaves the state alone |
| Application.OnButton | base/app/application.c:192-209 | a press publishes the old counter, advances it by one with 16-bit wrap-around, flips the light once (staging the stored pattern when it turns on, a black fill when it turns off, everything else untouched) and publishes the new light value; a hold only starts pairing; other events do nothing |
| Application.OnPeerPushButton | base/app/application.c:226-233 | a peer's button flips the light once, stages the stored pattern when it turns on and a black fill when it turns off, leaves pixels, length, geometry and the local counter alone, and republishes the peer's counter under the remote prefix |
| Application.LedStripSet | base/app/application.c:395-413 | a blob is taken exactly when it fits `count * type`, and only then is the ok message sent; on success the buffer front holds the blob, the rest of the buffer is kept, the length is the blob's, and the frame is staged only while the light is on; a refused blob changes nothing, with `pixels` untouched by the decoder assumption stated above |
| Application.LedStripConfigSet | base/app/application.c:415-448 | an unknown mode, a missing count or a count above 150 changes nothing; otherwise the count is adopted, the type is RGB exactly for "rgb", the strip is drained to black, pixels, length and light are untouched, and the requested mode and count are reported |
| Application.LedStripConfigGet | base/app/application.c:450-456 | reports "rgb" exactly when the type is RGB, otherwise "rgbw", together with the current count, and changes nothing |
| Scheduling.ApplicationTask | base/app/application.c:180-190 | the task always re-plans itself: after 50 ticks when the write started, immediately when the driver was busy |
| Scheduling.TaskPlans | base/app/application.c:180-190 | over a run of invocations each plan is immediate exactly when its write found the driver busy, and none leaves the task unplanned |
| Scheduling.TaskPlanCounts | base/app/application.c:180-190 | the immediate re-plans number the busy writes, the delayed ones the started writes |
| Scheduling.DrainWrites | base/app/application.c:444 | the drain loop stops at the first write the driver accepts; if it never accepts within the run, every write found it busy |
| ApplicationProofs.Step | base/app/application.c:59-73 | every handler the unit registers preserves the capacity invariant |
| ApplicationProofs.Run | base/app/application.c:430-439 | after any sequence of events the pixel count is at most 150 and `count * type` fits the pixel buffer |
| ApplicationProofs.LightOffOnRestoresPattern | base/app/application.c:335-348 | switching off blanks the strip but keeps pixels and length, so switching back on restages the stored pattern |
| ApplicationProofs.SetLightIdempotent | base/app/application.c:335-353 | setting the light to the same value twice leaves the same state as setting it once |
| ApplicationProofs.LightSetThenGet | base/app/application.c:355-372 | after `light_set` with a boolean, `light_get` reports exactly that boolean; after a failed `light_set` it reports the old value |
| ApplicationProofs.TwoPressesRestoreLight | base/app/application.c:197-202 | two presses restore the light and advance the counter twice |
| ApplicationProofs.LocalAndPeerPressCancel | base/app/application.c:197-232 | a local press followed by a peer press leaves the light as it was |
| ApplicationProofs.ModeNameRoundTrip | base/app/application.c:440-446 | the reported mode name parses back through the mode enum to the same strip type |
| ApplicationProofs.ConfigSetThenGet | base/app/application.c:439-454 | after an accepted reconfiguration, the config query reports exactly the requested mode name and count |
| ApplicationProofs.ConfigKeepsPattern | base/app/application.c:415-448 | reconfiguring, accepted or not, keeps pixels, length and light, so switching on afterwards restages the same bytes |
| ApplicationProofs.RejectedConfigIsNoop | base/app/application.c:420-433 | a rejected reconfiguration changes nothing and publishes nothing, however often it is repeated |
| ApplicationProofs.StripPatternSurvivesToggle | base/app/application.c:395-412 | with the light on, a 40-byte pattern on a 10-pixel RGBW strip is staged, blanked while off, and staged again when back on |
| ApplicationProofs.AcceptedPatternSurvivesToggle | base/app/application.c:335-412 | under any geometry, with the light on, an accepted pattern is staged at once, blanked while off and staged again when back on |
| ApplicationProofs.StripSetCapsLength | base/app/application.c:397-399 | on a 20-pixel RGBW strip, 79- and 80-byte blobs are taken and an 81-byte blob is refused |
| ApplicationProofs.ShrinkKeepsLongPattern | base/app/application.c:397-441 | after a full 600-byte pattern and a reconfiguration to zero RGB pixels, the stored length stays 600 and switching on stages all 600 bytes |
| ApplicationProofs.BusyThenStartedPlans | base/app/application.c:180-190 | three busy writes and then a started one give three immediate re-plans followed by one 50-tick delay |

## Left out

- Sensor-tag construction and update intervals in `application_init` are vendor driver calls. Only the address bytes and the table of tags are modelled.
- The temperature, humidity, lux-meter and barometer event handlers and the `bc_radio_on_*` sensor callbacks only forward float readings to the USB publisher. They keep no state and are not modelled.
- `radio_event_handler` and the radio side of the hold branch (enrollment, LED blink modes) are vendor I/O. The hold branch appears only as the `PairingMode` effect.
- `relay_set` and `relay_get` pass straight through to the power module's relay driver, which is not part of this model.
- The USB transport, JSON parsing and topic registration (`usb_talk_*`, `jsmn`) are not part of this model. Their results are `Option` inputs, and published messages are output values.
- The strip driver, its DMA buffer and the scheduler are not part of this model. A write result is an input and a scheduling request is an output value.
- Application.LedStripConfigSet: the busy-wait drain loop is reduced to its outcome, the `DrainStrip` effect and an all-black staged frame. The loop itself is modelled separately by `Scheduling.DrainWrites` over a finite run of driver answers. A driver that never accepts would hang the firmware, and that case is not modelled.
- Application.SetLight: the frame is staged as a copy of the bytes. The driver may keep a pointer to `pixels` instead, and later writes to the buffer would then show through. That aliasing is not modelled.
