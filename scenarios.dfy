/** Sequences of driver calls, and what a caller can conclude from the
    operations' contracts alone. */
module Scenarios {
  import opened Esp
  import opened Registers
  import opened Layout
  import opened Peripheral
  import opened Driver

  /** `relay_set` then `relay_get` over a healthy bus: the channel reads back as
      set, and another relay and every LED read as they did before. */
  method RelaySetThenGet(unit: RelayUnit, channel: nat, on: bool, other: nat, stale: bv8)
    returns (state: bool, otherBefore: bool, otherAfter: bool, ledBefore: bool, ledAfter: bool)
    requires channel < 4 && other < 4
    modifies unit
    ensures state == on
    ensures other != channel ==> otherAfter == otherBefore
    ensures ledAfter == ledBefore
  {
    var err;
    err, otherBefore := RelayGet(unit, other, ESP_OK, stale);
    err, ledBefore := LedGet(unit, other, ESP_OK, stale);
    err := RelaySet(unit, channel, on, ESP_OK, stale, ESP_OK);
    err, state := RelayGet(unit, channel, ESP_OK, stale);
    err, otherAfter := RelayGet(unit, other, ESP_OK, stale);
    err, ledAfter := LedGet(unit, other, ESP_OK, stale);
  }

  /** `led_set` then `led_get` over a healthy bus: the LED reads back as set,
      and another LED and every relay read as they did before. */
  method LedSetThenGet(unit: RelayUnit, channel: nat, on: bool, other: nat, stale: bv8)
    returns (state: bool, otherBefore: bool, otherAfter: bool, relayBefore: bool, relayAfter: bool)
    requires channel < 4 && other < 4
    modifies unit
    ensures state == on
    ensures other != channel ==> otherAfter == otherBefore
    ensures relayAfter == relayBefore
  {
    var err;
    err, otherBefore := LedGet(unit, other, ESP_OK, stale);
    err, relayBefore := RelayGet(unit, other, ESP_OK, stale);
    err := LedSet(unit, channel, on, ESP_OK, stale, ESP_OK);
    err, state := LedGet(unit, channel, ESP_OK, stale);
    err, otherAfter := LedGet(unit, other, ESP_OK, stale);
    err, relayAfter := RelayGet(unit, other, ESP_OK, stale);
  }

  /** `relay_all` clears every LED that was lit before it. */
  method RelayAllClearsLeds(unit: RelayUnit, channel: nat, on: bool, stale: bv8) returns (ledAfter: bool)
    requires channel < 4
    modifies unit
    ensures !ledAfter
  {
    var err := LedSet(unit, channel, true, ESP_OK, stale, ESP_OK);
    err := RelayAll(unit, on, ESP_OK);
    err, ledAfter := LedGet(unit, channel, ESP_OK, stale);
  }

  /** `init` over a healthy bus, in either mode: the mode register holds 0 for
      async or 1 for sync, and every relay and LED is off. */
  method InitThenRead(unit: RelayUnit, sync: bool, channel: nat, stale: bv8)
    returns (err: EspErr, relay: bool, led: bool)
    requires channel < 4
    modifies unit
    ensures err == ESP_OK
    ensures unit.modeReg == if sync then ModeSync else ModeAsync
    ensures !relay && !led
  {
    err := Init(unit, sync, ESP_OK, ESP_OK);
    var readErr;
    readErr, relay := RelayGet(unit, channel, ESP_OK, stale);
    readErr, led := LedGet(unit, channel, ESP_OK, stale);
  }

  /** A failed read does not stop `relay_set`: the stale buffer byte 0xFF is
      written back with relay 0 forced on, and the call reports success while
      every other relay and every LED have been switched on. */
  method RelaySetAfterFailedRead(unit: RelayUnit) returns (err: EspErr)
    requires unit.relayReg == 0x00
    modifies unit
    ensures err == ESP_OK
    ensures unit.relayReg == 0xFF
    ensures Decode(unit.relayReg) == Channels([true, true, true, true], [true, true, true, true])
  {
    err := RelaySet(unit, 0, true, 0xFFFF_FFFF, 0xFF, ESP_OK);
    forall k | 0 <= k < 8 ensures Bits(0xFF, 8)[k] {
      BitsAt(0xFF, 8, k);
    }
    assert Decode(0xFF).relays == [true, true, true, true];
  }
}
