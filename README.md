# Launchpad control surface — a Dafny model

This project models the Launchpad control surface of DrivenByMoss. That is the
driver layer that decides what is sent to a Novation Launchpad, and in what
order. Every message the surface sends, and every collaborator effect it
triggers, is an append to an event log (`Midi.Event`). The log is a field of
the class `Launchpad.LaunchpadControlSurface`, next to the light-cache flags of
the registered buttons and the array of eight virtual-fader records.

- `midi.dfy` (module `Midi`): the event log's alphabet, and the SysEx frame.
  A frame is the variant's header, then the payload, then `" F7"`, the MIDI 1.0
  End-of-Exclusive byte. `Unframe` is its inverse, and both round trips are
  proved.
- `firmware.dfy` (module `Firmware`): Java's `%d` rendering of an int, with a
  parser as its reference inverse, and the firmware string. The firmware string
  is the four revision numbers printed back to back, with one leading `'0'`
  dropped. A lemma proves that the strip removes the first number exactly when
  that number is zero, and nothing else.
- `launchpad.dfy` (module `Launchpad`): the scene-button table and the
  Note/Control-Change dispatch rule, and the light-cache invalidation of a mode
  switch. It also holds the shutdown sequence, and the surface class whose
  methods are proved against these functions.

The test `PAD1 < k || PAD64 > k` at line 128 reads as if it were meant to
select a range of ordinals. As written, it holds for every ordinal once PAD1
comes before PAD64. So the model clears every registered button's cache, as
`InvalidatedClearsEveryButton` proves.

## Model

| member | source | states |
|---|---|---|
| `Midi.Frame` | src/main/java/de/mossgrabers/controller/launchpad/controller/LaunchpadControlSurface.java:216-219 | the frame starts with the header, carries the payload verbatim right after it, and ends with the three characters `" F7"` |
| `Midi.UnframeFrame` | src/main/java/de/mossgrabers/controller/launchpad/controller/LaunchpadControlSurface.java:216-219 | the payload can always be read back from the frame (framing loses nothing) |
| `Midi.FrameUnframe` | src/main/java/de/mossgrabers/controller/launchpad/controller/LaunchpadControlSurface.java:216-219 | every text accepted as a frame for a header is exactly the frame of the payload read from it |
| `Midi.FrameInjective` | src/main/java/de/mossgrabers/controller/launchpad/controller/LaunchpadControlSurface.java:216-219 | two payloads sent with the same header give equal frames only if they are equal |
| `Firmware.Digits` | src/main/java/de/mossgrabers/controller/launchpad/controller/LaunchpadControlSurface.java:253 | the decimal rendering of a natural number is non-empty and made only of digits |
| `Firmware.ParseDigitsRoundTrip` | src/main/java/de/mossgrabers/controller/launchpad/controller/LaunchpadControlSurface.java:253 | reading back the digits of `n` gives `n` |
| `Firmware.DecimalRoundTrip` | src/main/java/de/mossgrabers/controller/launchpad/controller/LaunchpadControlSurface.java:253 | `%d` of any int, sign included, reads back to the same int |
| `Firmware.DigitsLeadingZero` | src/main/java/de/mossgrabers/controller/launchpad/controller/LaunchpadControlSurface.java:254 | the digits of `n` start with `'0'` if and only if `n` is zero |
| `Firmware.DecimalLeadingZero` | src/main/java/de/mossgrabers/controller/launchpad/controller/LaunchpadControlSurface.java:254 | `%d` of any int starts with `'0'` if and only if the int is zero |
| `Firmware.FormatRevision` | src/main/java/de/mossgrabers/controller/launchpad/controller/LaunchpadControlSurface.java:253 | the `"%d%d%d%d"` rendering has at least four characters, so the strip's `charAt(0)` is defined |
| `Firmware.FirmwareVersionDropsZeroMajor` | src/main/java/de/mossgrabers/controller/launchpad/controller/LaunchpadControlSurface.java:253-254 | the firmware string is the four renderings back to back, with the first one left out exactly when the first revision number is zero |
| `Firmware.FirmwareVersionExample` | src/main/java/de/mossgrabers/controller/launchpad/controller/LaunchpadControlSurface.java:250-255 | the revision 0, 1, 0, 2 is logged as `"Firmware version: 102"` |
| `Launchpad.TriggerEvent` | src/main/java/de/mossgrabers/controller/launchpad/controller/LaunchpadControlSurface.java:192-198 | a trigger is a Note exactly when the unit is not a Pro and the address is one of the eight scene addresses 89, 79, …, 19; otherwise it is a Control-Change; address and state pass through unchanged |
| `Launchpad.InvalidatedClearsEveryButton` | src/main/java/de/mossgrabers/controller/launchpad/controller/LaunchpadControlSurface.java:124-130 | when PAD1's ordinal is below PAD64's, the mode switch's test selects every ordinal, so every registered button's cache is marked stale and no button is added or removed |
| `Launchpad.InvalidatedOnlyClears` | src/main/java/de/mossgrabers/controller/launchpad/controller/LaunchpadControlSurface.java:128-129 | a button's cache flag after the switch is its old flag, unless the test selects that button, in which case the flag is false |
| `Launchpad.InvalidatedIdempotent` | src/main/java/de/mossgrabers/controller/launchpad/controller/LaunchpadControlSurface.java:114-131 | entering program mode a second time leaves the caches as the first entry did |
| `Launchpad.ShutdownEvents` | src/main/java/de/mossgrabers/controller/launchpad/controller/LaunchpadControlSurface.java:171-187 | shutdown causes eleven effects: the logo set to black, the eight scene triggers set to black in the order 89, 79, …, 19 (each by the dispatch rule), the base surface's shutdown, then the mode reset |
| `Launchpad.ShutdownOrder` | src/main/java/de/mossgrabers/controller/launchpad/controller/LaunchpadControlSurface.java:171-187 | the mode reset is the last effect and occurs nowhere else; the base shutdown comes right before it and occurs nowhere else; a base unit blanks the scene lights by Note, a Pro unit by Control-Change |
| `Launchpad.LaunchpadControlSurface.constructor` | src/main/java/de/mossgrabers/controller/launchpad/controller/LaunchpadControlSurface.java:77-88 | exactly eight fresh faders, fader `i` bound to lane `i` with nothing set yet; the device-inquiry query is the only message sent |
| `Launchpad.LaunchpadControlSurface.SetTrigger` | src/main/java/de/mossgrabers/controller/launchpad/controller/LaunchpadControlSurface.java:192-198 | appends exactly the one event `TriggerEvent` chooses for the unit's Pro flag, which `IsPro` reads from the definition as `isPro()` does (lines 227-230); nothing else changes |
| `Launchpad.LaunchpadControlSurface.SendLaunchpadSysEx` | src/main/java/de/mossgrabers/controller/launchpad/controller/LaunchpadControlSurface.java:216-219 | appends exactly one SysEx event carrying `Frame(header, data)`; nothing else changes |
| `Launchpad.LaunchpadControlSurface.SetLaunchpadToStandalone` | src/main/java/de/mossgrabers/controller/launchpad/controller/LaunchpadControlSurface.java:105-108 | appends only the framed standalone command; light caches and faders are untouched |
| `Launchpad.LaunchpadControlSurface.SetLaunchpadToPrgMode` | src/main/java/de/mossgrabers/controller/launchpad/controller/LaunchpadControlSurface.java:114-117 | appends the framed program-mode command, then leaves the caches as `Invalidated` says; with PAD1 before PAD64, every registered button's cache is stale afterwards |
| `Launchpad.LaunchpadControlSurface.SetLaunchpadMode` | src/main/java/de/mossgrabers/controller/launchpad/controller/LaunchpadControlSurface.java:120-131 | the SysEx is sent first; then the loop over the registered buttons clears exactly the caches the ordinal test selects; the set of registered buttons does not change |
| `Launchpad.LaunchpadControlSurface.SetupFader` | src/main/java/de/mossgrabers/controller/launchpad/controller/LaunchpadControlSurface.java:141-144 | fader `index` (0 to 7) records the new colour and layout and keeps its value; every other fader is unchanged |
| `Launchpad.LaunchpadControlSurface.SetFaderValue` | src/main/java/de/mossgrabers/controller/launchpad/controller/LaunchpadControlSurface.java:153-156 | fader `index` (0 to 7) records the new value and keeps its setup; every other fader is unchanged |
| `Launchpad.LaunchpadControlSurface.ClearFaders` | src/main/java/de/mossgrabers/controller/launchpad/controller/LaunchpadControlSurface.java:162-166 | afterwards all eight faders have the setup (no colour −1, linear), each keeping its lane and its value |
| `Launchpad.LaunchpadControlSurface.InternalShutdown` | src/main/java/de/mossgrabers/controller/launchpad/controller/LaunchpadControlSurface.java:171-187 | appends exactly `ShutdownEvents` for the unit's Pro flag; caches and faders are untouched |
| `Launchpad.LaunchpadControlSurface.HandleSysEx` | src/main/java/de/mossgrabers/controller/launchpad/controller/LaunchpadControlSurface.java:233-240 | an inbound message that does not parse as a valid inquiry reply appends nothing; a valid one is handled as a reply; faders and caches are never touched |
| `Launchpad.LaunchpadControlSurface.HandleDeviceInquiryResponse` | src/main/java/de/mossgrabers/controller/launchpad/controller/LaunchpadControlSurface.java:248-256 | a revision field of length other than four appends nothing; one of length four appends exactly `Log("Firmware version: " + FirmwareVersion(revision))` |

## Left out

- Parsing an inbound message is not modelled. `StringUtils.fromHexStr` and `DeviceInquiry` (the MIDI 1.0 Identity Reply check) are not part of this model. `HandleSysEx` takes the parse as a function parameter `parse` that yields a validity flag and the revision field.
- `DeviceInquiry.createQuery` is not part of this model. The constructor's query is written as the MIDI 1.0 Universal Non-Real-Time Identity Request to all devices, `"F0 7E 7F 06 01 F7"`. No property depends on its exact text.
- `LaunchpadColorManager` is not part of this model. Black is taken as palette index 0. No property depends on the value.
- The hardware variant's definition is reduced to the data the surface reads from it: the header, the two mode commands and the Pro flag. `setLogoColor` and `resetMode` are single abstract events (`Logo`, `ResetMode`), because what they send differs per variant.
- `super.internalShutdown` is one abstract event (`BaseShutdown`). `flushHardware` and `LaunchpadPadGrid.flush` (lines 203-208) belong to the base light-caching and flush machinery and are not modelled.
- The virtual fader's rendering of a value onto its eight pads lives in the fader implementation, which is not part of this model. A fader is recorded only by its lane, its last setup and its last value. Before the first call either of these is `None`.
- `ButtonID` is not part of this model. The ordinals of PAD1 and PAD64 are constructor parameters. The statement that every cache is cleared is conditioned on PAD1 < PAD64, the enumeration's declaration order.
- Buttons are registered by the base surface after construction. The model takes the registered buttons and their cache flags as a constructor argument. Nothing in this model sets a cache flag back to valid, because that happens in the flush.
- `isUserPressed` reads the base class's button state and is not modelled.
- `SetTrigger` has no channel parameter, because the override at lines 192-198 ignores its channel.
- The shutdown assumes that the base class's `setTrigger(cc, state)`, called at lines 175-182 and not part of this model, forwards to the overridden `setTrigger(channel, cc, state)`. `InternalShutdown` applies the override's rule directly. The Note/CC split that `ShutdownEvents` and `ShutdownOrder` state depends on this assumption.
- Installing the SysEx callback (line 86) is not modelled. `HandleSysEx` is the callback, and any caller can invoke it directly.
- `SetupFader` and `SetFaderValue` require an index from 0 to 7. Java would throw `ArrayIndexOutOfBoundsException` outside that range. The Javadoc documents the index as "0-7" (lines 137 and 150), and the file's only caller, `clearFaders` (lines 164-165), passes only 0 to 7.
- The constants that nothing in this file uses are not modelled: the fader CCs (lines 40-47), the logo address, the button states and the control modes (lines 49-60).
- `Firmware.Decimal` renders with ASCII digits. The locale that `String.format` consults is not modelled.
- MIDI port I/O, the host console and the asynchrony of inbound SysEx are not modelled. Each send is an append to the log.
