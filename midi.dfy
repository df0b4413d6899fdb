/**
 * MIDI output side: the remote message shape (src/midi.rs), the three Channel Voice messages
 * the bridge emits, and the output connection they are sent to.
 */
module Midi {
  import opened Base

  /** A MIDI channel as its wire nibble: `Channel::Ch1` is nibble 0. */
  type Channel = x: int | 0 <= x < 16

  const Ch1: Channel := 0

  /**
   * One MIDI message handed to the output connection. The data fields are the `u8`/`u16`
   * values the bridge passes in, without any range check.
   */
  datatype Frame =
    | ControlChange(channel: Channel, control: byte, value: byte)
    | NoteOn(channel: Channel, key: byte, velocity: byte)
    | PitchBend(channel: Channel, bend: u16)

  /**
   * `ClientMessage` (src/midi.rs:34-40), as deserialised from the browser's JSON.
   */
  datatype ClientMessage = ClientMessage(midiType: string, channel: byte, ccValue: byte, value: u16)

  /**
   * Wire layout of a frame, taken as an ASSUMPTION about the `midi_control` crate from the
   * Channel Voice Messages table of the MIDI 1.0 Detailed Specification: status byte
   * `0xB0|ch`, `0x90|ch` or `0xE0|ch`, then two data bytes; a pitch bend is split into its low
   * seven bits and the bits above them. Data bytes are written as given, not masked. The
   * assumption covers bends up to 0x3FFF, where both data bytes fit seven bits; for a larger
   * `u16` the second byte here is `bend / 128` (128 or more), and what the crate sends there
   * is not part of this model.
   */
  function WireBytes(f: Frame): seq<int>
  {
    match f
    case ControlChange(ch, c, v) => [0xB0 + ch, c, v]
    case NoteOn(ch, k, v) => [0x90 + ch, k, v]
    case PitchBend(ch, b) => [0xE0 + ch, b % 128, b / 128]
  }

  /**
   * Reads a frame back from its wire layout. The bridge has no receiver: this is the reference
   * decoder that WireRoundTrip checks the layout against.
   */
  function ParseWire(b: seq<int>): Option<Frame>
  {
    if |b| != 3 || !(0 <= b[0] < 0x100) || !(0 <= b[1] < 0x100) || !(0 <= b[2] < 0x100) then None
    else
      var status, ch := b[0] / 16, b[0] % 16;
      if status == 0xB then Some(ControlChange(ch, b[1], b[2]))
      else if status == 0x9 then Some(NoteOn(ch, b[1], b[2]))
      else if status == 0xE && b[1] < 128 then Some(PitchBend(ch, b[1] + 128 * b[2]))
      else None
  }

  /** Every frame whose fields fit their MIDI sizes survives the trip through the wire layout. */
  lemma WireRoundTrip(f: Frame)
    requires f.PitchBend? ==> f.bend < 0x8000
    ensures ParseWire(WireBytes(f)) == Some(f)
  {
  }

  /** A 14-bit pitch bend fills two 7-bit data bytes, low part first. */
  lemma PitchBendDataBytes(ch: Channel, v: u16)
    requires v < 0x4000
    ensures var b := WireBytes(PitchBend(ch, v));
      b[1] < 128 && b[2] < 128 && b[1] + 128 * b[2] == v
  {
  }

  /** The pitch-bend centre 8192 on channel 1 is the frame E0 00 40 (LSB 0, MSB 64). */
  lemma PitchBendCentre()
    ensures WireBytes(PitchBend(Ch1, 8192)) == [0xE0, 0, 64]
  {
  }

  /**
   * The MIDI output connection behind its mutex (`Arc<Mutex<MidiOutputConnection>>`), seen
   * as the append-only log of frames it has accepted. `connected` is the state of the device,
   * which the program never changes: `send` fails when the device is gone, and the bridge
   * `unwrap`s that failure.
   */
  class MidiSink {
    var log: seq<Frame>
    var connected: bool

    /** A freshly opened connection, to a device that is present or not. */
    constructor (present: bool)
      ensures log == [] && connected == present
    {
      log := [];
      connected := present;
    }

    /** `midi.lock().unwrap().send(&bytes)`: appends the frame, or fails and changes nothing. */
    method Send(f: Frame) returns (ok: bool)
      modifies this
      ensures ok == old(connected) && connected == old(connected)
      ensures log == if ok then old(log) + [f] else old(log)
    {
      ok := connected;
      if ok {
        log := log + [f];
      }
    }
  }
}
