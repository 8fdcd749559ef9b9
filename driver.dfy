/** The 4-Relay unit driver: the register-level protocol of `unit_4_relay.c`.
    Each operation issues its bus transactions through the unit's transport
    methods; the transport's outcomes are inputs of the operation. */
module Driver {
  import opened Esp
  import opened Registers
  import opened Layout
  import opened Peripheral

  /** The channel states of a register byte with every relay `on` and every LED off. */
  function AllRelays(on: bool): (ch: Channels)
    ensures ch.Valid()
  {
    Channels([on, on, on, on], [false, false, false, false])
  }

  /** `1 << channel`: the mask of one relay bit. It selects relay `channel` and nothing else. */
  function RelayMask(channel: nat): (m: bv8)
    requires channel < 4
    ensures Decode(m).relays == seq(4, k requires 0 <= k < 4 => k == channel)
    ensures Decode(m).leds == [false, false, false, false]
  {
    OneHot(1 << channel, channel);
    1 << channel
  }

  /** `UNIT_4_RELAY_REG_MODE << channel`: the LED update reuses the mode-register
      offset 0x10 as its mask. Since 0x10 is `1 << 4`, this is the mask of LED
      `channel` and of nothing else. */
  function LedMask(channel: nat): (m: bv8)
    requires channel < 4
    ensures m == 1 << (4 + channel)
    ensures Decode(m).relays == [false, false, false, false]
    ensures Decode(m).leds == seq(4, k requires 0 <= k < 4 => k == channel)
  {
    OneHot(1 << (4 + channel), 4 + channel);
    RegMode << channel
  }

  /** The channel states of the byte `1 << i`: only bit `i` is set. */
  lemma OneHot(m: bv8, i: nat)
    requires i < 8 && m == 1 << i
    ensures Bits(m, 8) == seq(8, k requires 0 <= k < 8 => k == i)
  {
    forall k | 0 <= k < 8
      ensures Bits(m, 8)[k] == seq(8, j requires 0 <= j < 8 => j == i)[k]
    {
      BitsAt(m, 8, k);
    }
  }

  /** The bit extraction of `relay_get`: whether relay `channel` is on in `b`. */
  function RelayState(b: bv8, channel: nat): (on: bool)
    requires channel < 4
    ensures on == Decode(b).relays[channel]
  {
    BitsAt(b, 8, channel);
    b & (1 << channel) != 0
  }

  /** The bit extraction of `led_get`: whether LED `channel` is on in `b`. */
  function LedState(b: bv8, channel: nat): (on: bool)
    requires channel < 4
    ensures on == Decode(b).leds[channel]
  {
    BitsAt(b, 8, 4 + channel);
    (b >> 4) & (1 << channel) != 0
  }

  /** The byte `relay_set` writes back: the byte read, with relay `channel`
      forced to `on` and every other relay and every LED as it was. */
  function SetRelay(b: bv8, channel: nat, on: bool): (r: bv8)
    requires channel < 4
    ensures Decode(r).relays == Decode(b).relays[channel := on]
    ensures Decode(r).leds == Decode(b).leds
  {
    var mask := RelayMask(channel);
    ForceChannels(b, mask, on);
    OverlayOne(Decode(b).relays, channel, on);
    OverlayNone(Decode(b).leds, on);
    assert [false, false, false, false] == seq(4, k requires 0 <= k < 4 => false);
    Force(b, mask, on)
  }

  /** The byte `led_set` writes back: the byte read, with LED `channel` forced
      to `on` and every other LED and every relay as it was. */
  function SetLed(b: bv8, channel: nat, on: bool): (r: bv8)
    requires channel < 4
    ensures Decode(r).leds == Decode(b).leds[channel := on]
    ensures Decode(r).relays == Decode(b).relays
  {
    var mask := LedMask(channel);
    ForceChannels(b, mask, on);
    OverlayOne(Decode(b).leds, channel, on);
    OverlayNone(Decode(b).relays, on);
    assert [false, false, false, false] == seq(4, k requires 0 <= k < 4 => false);
    Force(b, mask, on)
  }

  /** The byte `relay_all` writes, `state * 0x0f`: 0x0F or 0x00, which holds every
      relay in the requested state and every LED off, whatever was there before. */
  function AllRelaysByte(on: bool): (r: bv8)
    ensures r == if on then 0x0F else 0x00
    ensures Decode(r) == AllRelays(on)
  {
    var r: bv8 := (if on then 1 else 0) * 0x0F;
    forall k | 0 <= k < 8 ensures Bits(r, 8)[k] == (on && k < 4) {
      BitsAt(r, 8, k);
    }
    assert Decode(r).relays == AllRelays(on).relays;
    r
  }

  /** `SetRelay` and `SetLed` are the C's `&= ~mask` / `|= mask` on the byte read. */
  lemma SetInPlace(b: bv8, channel: nat, on: bool)
    requires channel < 4
    ensures SetRelay(b, channel, on) == if !on then b & !(1 << channel) else b | (1 << channel)
    ensures SetLed(b, channel, on) == if !on then b & !(RegMode << channel) else b | (RegMode << channel)
  {
  }

  /** After `relay_set`, the target relay reads back as set, and every other
      relay and every LED reads as before. */
  lemma RelaySetThenGet(b: bv8, channel: nat, on: bool, other: nat)
    requires channel < 4 && other < 4
    ensures RelayState(SetRelay(b, channel, on), channel) == on
    ensures other != channel ==> RelayState(SetRelay(b, channel, on), other) == RelayState(b, other)
    ensures LedState(SetRelay(b, channel, on), other) == LedState(b, other)
  {
  }

  /** After `led_set`, the target LED reads back as set, and every other LED
      and every relay reads as before. */
  lemma LedSetThenGet(b: bv8, channel: nat, on: bool, other: nat)
    requires channel < 4 && other < 4
    ensures LedState(SetLed(b, channel, on), channel) == on
    ensures other != channel ==> LedState(SetLed(b, channel, on), other) == LedState(b, other)
    ensures RelayState(SetLed(b, channel, on), other) == RelayState(b, other)
  {
  }

  /** Setting a relay twice to the same state writes the same byte as setting it once. */
  lemma SetRelayIdempotent(b: bv8, channel: nat, on: bool)
    requires channel < 4
    ensures SetRelay(SetRelay(b, channel, on), channel, on) == SetRelay(b, channel, on)
  {
  }

  /** Setting an LED twice to the same state writes the same byte as setting it once. */
  lemma SetLedIdempotent(b: bv8, channel: nat, on: bool)
    requires channel < 4
    ensures SetLed(SetLed(b, channel, on), channel, on) == SetLed(b, channel, on)
  {
  }

  /** `unit_4_relay_mode_set`: one write of the mode byte, 0 or 1, to the mode
      register; the relay/LED register is not touched. */
  method ModeSet(unit: RelayUnit, sync: bool, status: EspErr) returns (err: EspErr)
    modifies unit
    ensures err == status
    ensures unit.modeReg == if status == ESP_OK then ModeByte(sync) else old(unit.modeReg)
    ensures unit.relayReg == old(unit.relayReg)
    ensures unit.trace == old(unit.trace) + [WriteTx(UnitAddr, RegMode, ModeByte(sync), status)]
  {
    err := unit.I2CWrite(UnitAddr, RegMode, ModeByte(sync), status);
  }

  /** `unit_4_relay_relay_all`: one write, with no read, of 0x0F or 0x00 to the
      relay/LED register. On success every relay is in the requested state and
      every LED is off, whatever the LEDs were before. */
  method RelayAll(unit: RelayUnit, on: bool, status: EspErr) returns (err: EspErr)
    modifies unit
    ensures err == status
    ensures unit.relayReg == if status == ESP_OK then AllRelaysByte(on) else old(unit.relayReg)
    ensures status == ESP_OK ==> Decode(unit.relayReg) == AllRelays(on)
    ensures unit.modeReg == old(unit.modeReg)
    ensures unit.trace == old(unit.trace) + [WriteTx(UnitAddr, RegRelay, AllRelaysByte(on), status)]
  {
    var newState: bv8 := (if on then 1 else 0) * 0x0F;
    err := unit.I2CWrite(UnitAddr, RegRelay, newState, status);
  }

  /** `unit_4_relay_init`: sets the mode, then switches every relay off, always
      issuing both writes, and returns the OR of the two statuses. It succeeds
      exactly when both writes did, and then the unit is in the requested mode
      with every relay and every LED off. A failed step does not undo the other. */
  method Init(unit: RelayUnit, sync: bool, modeStatus: EspErr, relaysStatus: EspErr) returns (err: EspErr)
    modifies unit
    ensures err == Combine(modeStatus, relaysStatus)
    ensures err == ESP_OK <==> modeStatus == ESP_OK && relaysStatus == ESP_OK
    ensures unit.modeReg == if modeStatus == ESP_OK then ModeByte(sync) else old(unit.modeReg)
    ensures unit.relayReg == if relaysStatus == ESP_OK then AllRelaysByte(false) else old(unit.relayReg)
    ensures err == ESP_OK ==> unit.modeReg == ModeByte(sync) && unit.relayReg == 0x00
    ensures unit.trace == old(unit.trace) + [
      WriteTx(UnitAddr, RegMode, ModeByte(sync), modeStatus),
      WriteTx(UnitAddr, RegRelay, 0x00, relaysStatus)]
  {
    err := ModeSet(unit, sync, modeStatus);
    var bulk := RelayAll(unit, false, relaysStatus);
    err := err | bulk;
  }

  /** `unit_4_relay_relay_get`: one read of the relay/LED register. It returns the
      read's status, and the state of relay `channel` in the buffer, which is set
      even when the read failed and the buffer holds a stale byte. */
  method RelayGet(unit: RelayUnit, channel: nat, readStatus: EspErr, stale: bv8) returns (err: EspErr, state: bool)
    requires channel < 4
    modifies unit`trace
    ensures err == readStatus
    ensures state == RelayState(BufferAfterRead(unit.relayReg, readStatus, stale), channel)
    ensures err == ESP_OK ==> state == Decode(unit.relayReg).relays[channel]
    ensures unit.trace == old(unit.trace) + [ReadTx(UnitAddr, RegRelay, readStatus)]
  {
    var regVal;
    err, regVal := unit.I2CRead(UnitAddr, RegRelay, readStatus, stale);
    state := RelayState(regVal, channel);
  }

  /** `unit_4_relay_led_get`: as `RelayGet`, for LED `channel`. */
  method LedGet(unit: RelayUnit, channel: nat, readStatus: EspErr, stale: bv8) returns (err: EspErr, state: bool)
    requires channel < 4
    modifies unit`trace
    ensures err == readStatus
    ensures state == LedState(BufferAfterRead(unit.relayReg, readStatus, stale), channel)
    ensures err == ESP_OK ==> state == Decode(unit.relayReg).leds[channel]
    ensures unit.trace == old(unit.trace) + [ReadTx(UnitAddr, RegRelay, readStatus)]
  {
    var regVal;
    err, regVal := unit.I2CRead(UnitAddr, RegRelay, readStatus, stale);
    state := LedState(regVal, channel);
  }

  /** `unit_4_relay_relay_set`: reads the relay/LED register, forces bit `channel`
      of the byte read to `on`, and writes it back. The read's status is
      discarded: the write is issued even after a failed read, with the stale
      buffer byte as its base, and the write's status is the result. After two
      successful transactions relay `channel` is `on` and every other relay and
      every LED is as it was. */
  method RelaySet(unit: RelayUnit, channel: nat, on: bool, readStatus: EspErr, stale: bv8, writeStatus: EspErr)
    returns (err: EspErr)
    requires channel < 4
    modifies unit
    ensures err == writeStatus
    ensures unit.relayReg == if writeStatus == ESP_OK
      then SetRelay(BufferAfterRead(old(unit.relayReg), readStatus, stale), channel, on)
      else old(unit.relayReg)
    ensures readStatus == ESP_OK && writeStatus == ESP_OK ==>
      Decode(unit.relayReg).relays == Decode(old(unit.relayReg)).relays[channel := on] &&
      Decode(unit.relayReg).leds == Decode(old(unit.relayReg)).leds
    ensures unit.modeReg == old(unit.modeReg)
    ensures unit.trace == old(unit.trace) + [
      ReadTx(UnitAddr, RegRelay, readStatus),
      WriteTx(UnitAddr, RegRelay, SetRelay(BufferAfterRead(old(unit.relayReg), readStatus, stale), channel, on), writeStatus)]
  {
    var readErr, currentState := unit.I2CRead(UnitAddr, RegRelay, readStatus, stale);
    ghost var seen := currentState;
    if !on {
      currentState := currentState & !(1 << channel);
    } else {
      currentState := currentState | (1 << channel);
    }
    SetInPlace(seen, channel, on);
    err := unit.I2CWrite(UnitAddr, RegRelay, currentState, writeStatus);
  }

  /** `unit_4_relay_led_set`: as `RelaySet`, for bit `4 + channel`, through the
      mask `UNIT_4_RELAY_REG_MODE << channel`. After two successful transactions
      LED `channel` is `on` and every other LED and every relay is as it was. */
  method LedSet(unit: RelayUnit, channel: nat, on: bool, readStatus: EspErr, stale: bv8, writeStatus: EspErr)
    returns (err: EspErr)
    requires channel < 4
    modifies unit
    ensures err == writeStatus
    ensures unit.relayReg == if writeStatus == ESP_OK
      then SetLed(BufferAfterRead(old(unit.relayReg), readStatus, stale), channel, on)
      else old(unit.relayReg)
    ensures readStatus == ESP_OK && writeStatus == ESP_OK ==>
      Decode(unit.relayReg).leds == Decode(old(unit.relayReg)).leds[channel := on] &&
      Decode(unit.relayReg).relays == Decode(old(unit.relayReg)).relays
    ensures unit.modeReg == old(unit.modeReg)
    ensures unit.trace == old(unit.trace) + [
      ReadTx(UnitAddr, RegRelay, readStatus),
      WriteTx(UnitAddr, RegRelay, SetLed(BufferAfterRead(old(unit.relayReg), readStatus, stale), channel, on), writeStatus)]
  {
    var readErr, currentState := unit.I2CRead(UnitAddr, RegRelay, readStatus, stale);
    ghost var seen := currentState;
    if !on {
      currentState := currentState & !(RegMode << channel);
    } else {
      currentState := currentState | (RegMode << channel);
    }
    SetInPlace(seen, channel, on);
    err := unit.I2CWrite(UnitAddr, RegRelay, currentState, writeStatus);
  }
}
