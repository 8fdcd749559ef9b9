/** The register map of the M5Stack 4-Relay unit, as its header declares it. */
module Registers {

  /** 7-bit bus address of the unit. */
  const UnitAddr: bv8 := 0x26
  /** Offset of the one-byte mode register. */
  const RegMode: bv8 := 0x10
  /** Offset of the one-byte relay/LED register: bits 0-3 relays, bits 4-7 LEDs. */
  const RegRelay: bv8 := 0x11

  /** Mode values: LEDs independent of the relays (async) or switched with them (sync). */
  const ModeAsync: bv8 := 0
  const ModeSync: bv8 := 1

  /** Number of relay channels, and of LED channels. */
  const ChannelCount: nat := 4

  /** The byte a `bool` mode occupies when it is written to the mode register. */
  function ModeByte(sync: bool): (r: bv8)
    ensures r == ModeSync <==> sync
    ensures r == ModeAsync <==> !sync
    ensures r == ModeAsync || r == ModeSync
  {
    if sync then 1 else 0
  }
}
