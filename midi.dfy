/**
  The outbound side of the Launchpad surface, seen as a log of effects in the
  order the surface causes them, and the framing of a Launchpad SysEx message.
 */
module Midi {

  datatype Option<T> = None | Some(value: T)

  /** One effect the surface causes on the hardware, the host or a collaborator. */
  datatype Event =
    | Note(key: int, velocity: int)      // a Note-On message
    | CC(controller: int, value: int)    // a Control-Change message
    | SysEx(frame: string)               // a System Exclusive frame, written as hex text
    | Log(line: string)                  // one line printed on the host's console
    | Logo(color: int)                   // the variant definition sets the logo light
    | BaseShutdown                       // the base surface's own shutdown (final light flush)
    | ResetMode                          // the variant definition returns the unit to standalone mode

  /** The End-of-Exclusive status byte of MIDI 1.0, as appended after every payload. */
  const EndOfExclusive: string := " F7"

  /**
    The frame sent for a payload: the variant's header, the payload verbatim,
    then the terminator.  Neither the header nor the payload is inspected.
   */
  function Frame(header: string, data: string): (r: string)
    ensures |r| == |header| + |data| + |EndOfExclusive|
    ensures r[..|header|] == header
    ensures r[|header|..|header| + |data|] == data
    ensures r[|r| - |EndOfExclusive|..] == EndOfExclusive
  {
    header + data + EndOfExclusive
  }

  /** Recovers the payload of a frame built for `header`, if it is one. */
  function Unframe(header: string, frame: string): (r: Option<string>)
  {
    if |frame| >= |header| + |EndOfExclusive|
       && frame[..|header|] == header
       && frame[|frame| - |EndOfExclusive|..] == EndOfExclusive
    then Some(frame[|header|..|frame| - |EndOfExclusive|])
    else None
  }

  /** Framing loses nothing: the payload can be read back from the frame. */
  lemma UnframeFrame(header: string, data: string)
    ensures Unframe(header, Frame(header, data)) == Some(data)
  {
  }

  /** Every frame `Unframe` accepts is exactly the frame of the payload it returns. */
  lemma FrameUnframe(header: string, frame: string)
    requires Unframe(header, frame).Some?
    ensures Frame(header, Unframe(header, frame).value) == frame
  {
  }

  /** Two payloads sent with the same header give the same frame only if they are equal. */
  lemma FrameInjective(header: string, d1: string, d2: string)
    requires Frame(header, d1) == Frame(header, d2)
    ensures d1 == d2
  {
  }
}
