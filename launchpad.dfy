/**
  The Launchpad control surface: which message lights a trigger, how the unit
  is switched between standalone and program mode, the bookkeeping of the
  eight virtual faders, the firmware report of a device-inquiry reply and the
  order of the shutdown effects.
 */
module Launchpad {

  import opened Midi
  import Firmware

  // The eight scene buttons, top to bottom: the right-hand column of the grid.
  const Scene1: int := 89
  const Scene2: int := 79
  const Scene3: int := 69
  const Scene4: int := 59
  const Scene5: int := 49
  const Scene6: int := 39
  const Scene7: int := 29
  const Scene8: int := 19

  /** The fixed table of scene-trigger addresses. */
  const Scenes: seq<int> := [Scene1, Scene2, Scene3, Scene4, Scene5, Scene6, Scene7, Scene8]

  const FaderCount: nat := 8

  /** The colour that blanks a fader on `setup`. */
  const NoColor: int := -1

  /** The palette index of black (light off). */
  const ColorBlack: int := 0

  /** The MIDI 1.0 Universal Non-Real-Time Identity Request, addressed to all devices. */
  const DeviceInquiryQuery: string := "F0 7E 7F 06 01 F7"

  /** The test the trigger dispatcher makes on a controller number. */
  predicate IsSceneButton(cc: int)
  {
    cc == Scene1 || cc == Scene2 || cc == Scene3 || cc == Scene4 ||
    cc == Scene5 || cc == Scene6 || cc == Scene7 || cc == Scene8
  }

  /**
    The message that lights a trigger: a base unit addresses its scene buttons
    by Note; a Pro unit, and every other button, by Control-Change.  The
    address and the state are passed through unchanged.
   */
  function TriggerEvent(isPro: bool, cc: int, state: int): (e: Event)
    ensures e.Note? <==> !isPro && cc in Scenes
    ensures e.Note? ==> e == Note(cc, state)
    ensures !e.Note? ==> e == CC(cc, state)
  {
    if !isPro && IsSceneButton(cc) then Note(cc, state) else CC(cc, state)
  }

  /** Whether entering program mode clears the light cache of the button with this ordinal. */
  predicate ClearsCache(pad1: int, pad64: int, k: int)
  {
    pad1 < k || pad64 > k
  }

  /** The light caches after a mode switch: each one the test selects is marked stale. */
  function Invalidated(cache: map<int, bool>, pad1: int, pad64: int): (r: map<int, bool>)
  {
    map k | k in cache :: if ClearsCache(pad1, pad64, k) then false else cache[k]
  }

  /**
    As written, the test holds for every ordinal once PAD1 comes before PAD64,
    so every registered button's cache is marked stale, pads or not.
   */
  lemma InvalidatedClearsEveryButton(cache: map<int, bool>, pad1: int, pad64: int)
    requires pad1 < pad64
    ensures Invalidated(cache, pad1, pad64).Keys == cache.Keys
    ensures forall k :: k in cache ==> !Invalidated(cache, pad1, pad64)[k]
  {
  }

  /** Invalidating twice leaves the caches as invalidating once does. */
  lemma InvalidatedIdempotent(cache: map<int, bool>, pad1: int, pad64: int)
    ensures Invalidated(Invalidated(cache, pad1, pad64), pad1, pad64) == Invalidated(cache, pad1, pad64)
  {
  }

  /** A cache that was already stale stays stale; one the test passes over keeps its flag. */
  lemma InvalidatedOnlyClears(cache: map<int, bool>, pad1: int, pad64: int, k: int)
    requires k in cache
    ensures k in Invalidated(cache, pad1, pad64)
    ensures Invalidated(cache, pad1, pad64)[k] == (cache[k] && !ClearsCache(pad1, pad64, k))
  {
  }

  /** Everything the surface's own shutdown causes, in order. */
  function ShutdownEvents(isPro: bool): (r: seq<Event>)
    ensures |r| == 2 + |Scenes| + 1
    ensures r[0] == Logo(ColorBlack)
    ensures forall i :: 0 <= i < |Scenes| ==> r[1 + i] == TriggerEvent(isPro, Scenes[i], ColorBlack)
    ensures r[|r| - 2] == BaseShutdown && r[|r| - 1] == ResetMode
  {
    [Logo(ColorBlack),
     TriggerEvent(isPro, Scene1, ColorBlack), TriggerEvent(isPro, Scene2, ColorBlack),
     TriggerEvent(isPro, Scene3, ColorBlack), TriggerEvent(isPro, Scene4, ColorBlack),
     TriggerEvent(isPro, Scene5, ColorBlack), TriggerEvent(isPro, Scene6, ColorBlack),
     TriggerEvent(isPro, Scene7, ColorBlack), TriggerEvent(isPro, Scene8, ColorBlack),
     BaseShutdown, ResetMode]
  }

  lemma ShutdownAppends(before: seq<Event>, after: seq<Event>, isPro: bool)
    requires after ==
      before + [Logo(ColorBlack)]
      + [TriggerEvent(isPro, Scene1, ColorBlack)] + [TriggerEvent(isPro, Scene2, ColorBlack)]
      + [TriggerEvent(isPro, Scene3, ColorBlack)] + [TriggerEvent(isPro, Scene4, ColorBlack)]
      + [TriggerEvent(isPro, Scene5, ColorBlack)] + [TriggerEvent(isPro, Scene6, ColorBlack)]
      + [TriggerEvent(isPro, Scene7, ColorBlack)] + [TriggerEvent(isPro, Scene8, ColorBlack)]
      + [BaseShutdown] + [ResetMode]
    ensures after == before + ShutdownEvents(isPro)
  {
  }

  /**
    Shutdown ends with the mode reset, and the mode reset comes only after the
    base surface's final flush: neither occurs anywhere else in the sequence.
    On a base unit all eight scene lights are switched off by Note, on a Pro
    unit by Control-Change.
   */
  lemma ShutdownOrder(isPro: bool)
    ensures var r := ShutdownEvents(isPro);
      forall j :: 0 <= j < |r| ==>
        (r[j] == ResetMode <==> j == |r| - 1) &&
        (r[j] == BaseShutdown <==> j == |r| - 2) &&
        (1 <= j <= 8 ==> (r[j].Note? <==> !isPro) && (r[j].CC? <==> isPro))
  {
  }

  /**
    Set-theory helper, not a property of the surface: a set that is not empty
    has a member to pick.  `SetLaunchpadMode` calls it before its `:|` pick,
    which the verifier does not establish unaided once
    --warn-contradictory-assumptions is on.
   */
  lemma NonEmptyHasMember(s: set<int>)
    requires s != {}
    ensures exists k :: k in s
  {
    if forall k :: k !in s {
      assert false;
    }
  }

  /** The facts a hardware variant supplies. */
  datatype ControllerDefinition = ControllerDefinition(
    sysExHeader: string,
    standaloneModeCommand: string,
    programModeCommand: string,
    isPro: bool)

  /** A parsed inbound SysEx message: its validity as a device-inquiry reply, and its revision field. */
  datatype DeviceInquiry = DeviceInquiry(valid: bool, revisionLevel: seq<int>)

  datatype FaderSetup = FaderSetup(color: int, isPan: bool)

  /** What the surface has told one virtual fader: its lane, its last setup and its last value. */
  datatype VirtualFader = VirtualFader(lane: nat, setup: Option<FaderSetup>, value: Option<int>)

  /** The events one device-inquiry reply causes: one firmware line, or nothing. */
  function InquiryReplyEvents(inquiry: DeviceInquiry): seq<Event>
  {
    if |inquiry.revisionLevel| == 4
    then [Log(Firmware.FirmwareLogLine(inquiry.revisionLevel))]
    else []
  }

  class LaunchpadControlSurface {

    const definition: ControllerDefinition
    /** The ordinals of the first and the last grid pad in the button enumeration. */
    const pad1: int
    const pad64: int
    const faders: array<VirtualFader>

    /** Everything sent so far, oldest first. */
    var events: seq<Event>
    /** For each registered button ordinal: whether its light cache holds the last sent state. */
    var lightCache: map<int, bool>

    ghost predicate Valid()
      reads this, faders
    {
      faders.Length == FaderCount &&
      forall i :: 0 <= i < faders.Length ==> faders[i].lane == i
    }

    /**
      Creates one virtual fader per lane and sends the device inquiry; that
      query is the only message the construction sends.
     */
    constructor (definition: ControllerDefinition, pad1: int, pad64: int, buttons: map<int, bool>)
      ensures Valid() && fresh(faders)
      ensures this.definition == definition && this.pad1 == pad1 && this.pad64 == pad64
      ensures forall i :: 0 <= i < faders.Length ==> faders[i] == VirtualFader(i, None, None)
      ensures lightCache == buttons
      ensures events == [SysEx(DeviceInquiryQuery)]
    {
      var a := new VirtualFader[FaderCount];
      var i := 0;
      while i < a.Length
        invariant 0 <= i <= a.Length
        invariant forall j :: 0 <= j < i ==> a[j] == VirtualFader(j, None, None)
      {
        a[i] := VirtualFader(i, None, None);
        i := i + 1;
      }
      this.definition := definition;
      this.pad1 := pad1;
      this.pad64 := pad64;
      faders := a;
      lightCache := buttons;
      events := [SysEx(DeviceInquiryQuery)];
    }

    function IsPro(): bool
      reads this
    {
      definition.isPro
    }

    /** Lights a trigger; the dispatch rule is `TriggerEvent`. */
    method SetTrigger(cc: int, state: int)
      modifies this`events
      ensures events == old(events) + [TriggerEvent(IsPro(), cc, state)]
    {
      if !IsPro() && IsSceneButton(cc) {
        events := events + [Note(cc, state)];
      } else {
        events := events + [CC(cc, state)];
      }
    }

    /** Sends one payload framed with the variant's header. */
    method SendLaunchpadSysEx(data: string)
      modifies this`events
      ensures events == old(events) + [SysEx(Frame(definition.sysExHeader, data))]
    {
      events := events + [SysEx(definition.sysExHeader + data + EndOfExclusive)];
    }

    /** Sends the standalone command; no light cache and no fader changes. */
    method SetLaunchpadToStandalone()
      modifies this`events
      ensures events == old(events) + [SysEx(Frame(definition.sysExHeader, definition.standaloneModeCommand))]
    {
      SendLaunchpadSysEx(definition.standaloneModeCommand);
    }

    /** Sends the program-mode command, then marks the selected light caches stale. */
    method SetLaunchpadToPrgMode()
      modifies this`events, this`lightCache
      ensures events == old(events) + [SysEx(Frame(definition.sysExHeader, definition.programModeCommand))]
      ensures lightCache == Invalidated(old(lightCache), pad1, pad64)
      ensures pad1 < pad64 ==> lightCache.Keys == old(lightCache).Keys && forall k :: k in lightCache ==> !lightCache[k]
    {
      SetLaunchpadMode(definition.programModeCommand);
    }

    method SetLaunchpadMode(data: string)
      modifies this`events, this`lightCache
      ensures events == old(events) + [SysEx(Frame(definition.sysExHeader, data))]
      ensures lightCache == Invalidated(old(lightCache), pad1, pad64)
      ensures pad1 < pad64 ==> lightCache.Keys == old(lightCache).Keys && forall k :: k in lightCache ==> !lightCache[k]
    {
      SendLaunchpadSysEx(data);
      ghost var before := lightCache;
      var pending := lightCache.Keys;
      while pending != {}
        invariant pending <= before.Keys
        invariant lightCache.Keys == before.Keys
        invariant forall k :: k in lightCache ==>
          lightCache[k] == if k in pending then before[k] else Invalidated(before, pad1, pad64)[k]
        invariant events == old(events) + [SysEx(Frame(definition.sysExHeader, data))]
        decreases pending
      {
        NonEmptyHasMember(pending);
        var k :| k in pending;
        if ClearsCache(pad1, pad64, k) {
          lightCache := lightCache[k := false];
        }
        pending := pending - {k};
      }
      assert Invalidated(before, pad1, pad64).Keys == before.Keys;
      assert forall k :: k in lightCache ==> lightCache[k] == Invalidated(before, pad1, pad64)[k];
      assert lightCache == Invalidated(before, pad1, pad64);
      if pad1 < pad64 {
        InvalidatedClearsEveryButton(before, pad1, pad64);
      }
    }

    /** Gives fader `index` a colour and a layout; no other fader changes. */
    method SetupFader(index: int, color: int, isPan: bool)
      requires Valid() && 0 <= index < FaderCount
      modifies faders
      ensures Valid()
      ensures faders[index] == old(faders[index]).(setup := Some(FaderSetup(color, isPan)))
      ensures forall j :: 0 <= j < faders.Length && j != index ==> faders[j] == old(faders[j])
    {
      faders[index] := faders[index].(setup := Some(FaderSetup(color, isPan)));
    }

    /** Gives fader `index` a value; no other fader changes. */
    method SetFaderValue(index: int, value: int)
      requires Valid() && 0 <= index < FaderCount
      modifies faders
      ensures Valid()
      ensures faders[index] == old(faders[index]).(value := Some(value))
      ensures forall j :: 0 <= j < faders.Length && j != index ==> faders[j] == old(faders[j])
    {
      faders[index] := faders[index].(value := Some(value));
    }

    /** Blanks every fader, lane 0 to lane 7, with no colour and the linear layout. */
    method ClearFaders()
      requires Valid()
      modifies faders
      ensures Valid()
      ensures forall j :: 0 <= j < faders.Length ==>
        faders[j] == old(faders[j]).(setup := Some(FaderSetup(NoColor, false)))
    {
      var i := 0;
      while i < FaderCount
        invariant 0 <= i <= FaderCount
        invariant Valid()
        invariant forall j :: 0 <= j < i ==> faders[j] == old(faders[j]).(setup := Some(FaderSetup(NoColor, false)))
        invariant forall j :: i <= j < faders.Length ==> faders[j] == old(faders[j])
      {
        SetupFader(i, NoColor, false);
        i := i + 1;
      }
    }

    /**
      Blanks the logo and the eight scene lights, lets the base surface flush,
      and only then lets the variant return the unit to standalone mode.
     */
    method InternalShutdown()
      modifies this`events
      ensures events == old(events) + ShutdownEvents(IsPro())
    {
      ghost var e := events;
      events := events + [Logo(ColorBlack)];
      SetTrigger(Scene1, ColorBlack);
      SetTrigger(Scene2, ColorBlack);
      SetTrigger(Scene3, ColorBlack);
      SetTrigger(Scene4, ColorBlack);
      SetTrigger(Scene5, ColorBlack);
      SetTrigger(Scene6, ColorBlack);
      SetTrigger(Scene7, ColorBlack);
      SetTrigger(Scene8, ColorBlack);
      events := events + [BaseShutdown];
      events := events + [ResetMode];
      ShutdownAppends(e, events, IsPro());
    }

    /**
      Handles one inbound SysEx message; `parse` stands for decoding the hex
      text and reading it as a device-inquiry reply.  Anything that is not a
      valid reply is ignored.
     */
    method HandleSysEx(data: string, parse: string -> DeviceInquiry)
      modifies this`events
      ensures events == old(events) + (if parse(data).valid then InquiryReplyEvents(parse(data)) else [])
    {
      var inquiry := parse(data);
      if inquiry.valid {
        HandleDeviceInquiryResponse(inquiry);
      }
    }

    /** Reports the firmware version when the reply carries a four-number revision. */
    method HandleDeviceInquiryResponse(inquiry: DeviceInquiry)
      modifies this`events
      ensures events == old(events) + InquiryReplyEvents(inquiry)
    {
      var rev := inquiry.revisionLevel;
      if |rev| == 4 {
        var version := Firmware.FormatRevision(rev);
        events := events + [Log(Firmware.FirmwarePrefix + (if version[0] == '0' then version[1..] else version))];
      }
    }
  }
}
