/** The routing table of fader pins (src/faders.rs). */
module Faders {
  import opened Base

  /** `Faders.pins: HashMap<u8, u8>`: Arduino pin -> MIDI Control Change number. */
  type Pins = map<byte, byte>

  /** `HashMap::get`: the controller a pin is routed to, if any. */
  function Get(pins: Pins, pin: byte): Option<byte>
  {
    if pin in pins then Some(pins[pin]) else None
  }

  /**
   * `Faders::default()`: the four fader pins 18..21 of the board, routed to CC 1, 11, 2 and 3.
   * Every controller number is a valid 7-bit MIDI controller.
   */
  function Default(): (pins: Pins)
    ensures pins.Keys == {18, 19, 20, 21}
    ensures forall p :: p in pins ==> pins[p] <= 127
  {
    map[18 := 1, 19 := 11, 20 := 2, 21 := 3]
  }

  /** The default entries, pin by pin. */
  lemma DefaultEntries()
    ensures Get(Default(), 18) == Some(1)
    ensures Get(Default(), 19) == Some(11)
    ensures Get(Default(), 20) == Some(2)
    ensures Get(Default(), 21) == Some(3)
  {
  }

  /** Any other pin is unrouted. */
  lemma DefaultUnrouted(pin: byte)
    requires pin < 18 || pin > 21
    ensures Get(Default(), pin) == None
  {
  }

  /** No two faders share a controller. */
  lemma DefaultDistinctControllers(p: byte, q: byte)
    requires p in Default() && q in Default() && p != q
    ensures Default()[p] != Default()[q]
  {
  }
}
