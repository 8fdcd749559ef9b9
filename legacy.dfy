/** The older copy of the driver, `unit_4relay.c`. Its header is not part of
    this model: the mode-register constant is a parameter `regMode` (only its
    low byte matters, as the C stores the mask into a byte), and the unit's
    address and relay/LED register are taken to be those of the current header. */
module Legacy {
  import opened Esp
  import opened Registers
  import opened Layout
  import opened Peripheral
  import Driver

  /** The byte the legacy `led_set` writes back: the byte read with every bit of
      `regMode << channel` forced to `on` and every other bit as read. With the
      mode-register constant 0x10 this is exactly the current driver's LED update. */
  function LedUpdate(b: bv8, regMode: bv8, channel: nat, on: bool): (r: bv8)
    requires channel < 4
    ensures Bits(r, 8) == Overlay(Bits(b, 8), Bits(regMode << channel, 8), on)
    ensures regMode == RegMode ==> r == Driver.SetLed(b, channel, on)
  {
    Force(b, regMode << channel, on)
  }

  /** `LedUpdate` is the C's `&= ~mask` / `|= mask` on the byte read. */
  lemma LedUpdateInPlace(b: bv8, regMode: bv8, channel: nat, on: bool)
    requires channel < 4
    ensures LedUpdate(b, regMode, channel, on) == if !on then b & !(regMode << channel) else b | (regMode << channel)
  {
  }

  /** The legacy LED mask `regMode << channel` selects exactly LED `channel`, for
      every channel, precisely when the mode-register constant is 0x10: the LED
      update is correct only through that coincidence. */
  lemma LedMaskAlias(regMode: bv8)
    ensures (forall channel: nat | channel < 4 :: regMode << channel == Driver.LedMask(channel)) <==> regMode == RegMode
  {
    if forall channel: nat | channel < 4 :: regMode << channel == Driver.LedMask(channel) {
      assert regMode << 0 == Driver.LedMask(0);
    }
  }

  /** `unit_4relay_mode_set`: one write of the mode byte to register `regMode`,
      which is the mode register when `regMode` is 0x10. */
  method ModeSet(unit: RelayUnit, regMode: bv8, sync: bool, status: EspErr) returns (err: EspErr)
    modifies unit
    ensures err == status
    ensures unit.modeReg == if status == ESP_OK && regMode == RegMode then ModeByte(sync) else old(unit.modeReg)
    ensures unit.relayReg == if status == ESP_OK && regMode == RegRelay then ModeByte(sync) else old(unit.relayReg)
    ensures unit.trace == old(unit.trace) + [WriteTx(UnitAddr, regMode, ModeByte(sync), status)]
  {
    err := unit.I2CWrite(UnitAddr, regMode, ModeByte(sync), status);
  }

  /** `unit_4relay_relay_all`: one write, with no read, of `state * 0x0f` to the
      relay/LED register. */
  method RelayAll(unit: RelayUnit, on: bool, status: EspErr) returns (err: EspErr)
    modifies unit
    ensures err == status
    ensures unit.relayReg == if status == ESP_OK then Driver.AllRelaysByte(on) else old(unit.relayReg)
    ensures status == ESP_OK ==> Decode(unit.relayReg) == Driver.AllRelays(on)
    ensures unit.modeReg == old(unit.modeReg)
    ensures unit.trace == old(unit.trace) + [WriteTx(UnitAddr, RegRelay, Driver.AllRelaysByte(on), status)]
  {
    var newState: bv8 := (if on then 1 else 0) * 0x0F;
    err := unit.I2CWrite(UnitAddr, RegRelay, newState, status);
  }

  /** `unit_4relay_init`: the mode write, then every relay off, both always
      issued; the result is the OR of the two statuses. The new registers are
      given for every value of the mode-register constant; with 0x10, success
      leaves the unit in the requested mode with every relay and LED off. */
  method Init(unit: RelayUnit, regMode: bv8, sync: bool, modeStatus: EspErr, relaysStatus: EspErr)
    returns (err: EspErr)
    modifies unit
    ensures err == Combine(modeStatus, relaysStatus)
    ensures err == ESP_OK <==> modeStatus == ESP_OK && relaysStatus == ESP_OK
    ensures unit.trace == old(unit.trace) + [
      WriteTx(UnitAddr, regMode, ModeByte(sync), modeStatus),
      WriteTx(UnitAddr, RegRelay, 0x00, relaysStatus)]
    ensures unit.modeReg == if modeStatus == ESP_OK && regMode == RegMode then ModeByte(sync) else old(unit.modeReg)
    ensures unit.relayReg ==
      if relaysStatus == ESP_OK then 0x00
      else if modeStatus == ESP_OK && regMode == RegRelay then ModeByte(sync)
      else old(unit.relayReg)
    ensures regMode == RegMode && err == ESP_OK ==> unit.modeReg == ModeByte(sync) && unit.relayReg == 0x00
    ensures regMode == RegMode ==>
      unit.modeReg == (if modeStatus == ESP_OK then ModeByte(sync) else old(unit.modeReg)) &&
      unit.relayReg == (if relaysStatus == ESP_OK then 0x00 else old(unit.relayReg))
  {
    err := ModeSet(unit, regMode, sync, modeStatus);
    var bulk := RelayAll(unit, false, relaysStatus);
    err := err | bulk;
  }

  /** `unit_4relay_relay_set`: the same read-modify-write as the current driver's:
      bit `channel` of the byte read is forced to `on`, the read's status is
      discarded and the write's is returned. */
  method RelaySet(unit: RelayUnit, channel: nat, on: bool, readStatus: EspErr, stale: bv8, writeStatus: EspErr)
    returns (err: EspErr)
    requires channel < 4
    modifies unit
    ensures err == writeStatus
    ensures unit.relayReg == if writeStatus == ESP_OK
      then Driver.SetRelay(BufferAfterRead(old(unit.relayReg), readStatus, stale), channel, on)
      else old(unit.relayReg)
    ensures readStatus == ESP_OK && writeStatus == ESP_OK ==>
      Decode(unit.relayReg).relays == Decode(old(unit.relayReg)).relays[channel := on] &&
      Decode(unit.relayReg).leds == Decode(old(unit.relayReg)).leds
    ensures unit.modeReg == old(unit.modeReg)
    ensures unit.trace == old(unit.trace) + [
      ReadTx(UnitAddr, RegRelay, readStatus),
      WriteTx(UnitAddr, RegRelay, Driver.SetRelay(BufferAfterRead(old(unit.relayReg), readStatus, stale), channel, on), writeStatus)]
  {
    var readErr, currentState := unit.I2CRead(UnitAddr, RegRelay, readStatus, stale);
    ghost var seen := currentState;
    if !on {
      currentState := currentState & !(1 << channel);
    } else {
      currentState := currentState | (1 << channel);
    }
    Driver.SetInPlace(seen, channel, on);
    err := unit.I2CWrite(UnitAddr, RegRelay, currentState, writeStatus);
  }

  /** `unit_4relay_led_set`: reads the relay/LED register, forces the bits of
      `regMode << channel` to `on`, and writes the byte back; the read's status
      is discarded and the write's is returned. */
  method LedSet(unit: RelayUnit, regMode: bv8, channel: nat, on: bool, readStatus: EspErr, stale: bv8, writeStatus: EspErr)
    returns (err: EspErr)
    requires channel < 4
    modifies unit
    ensures err == writeStatus
    ensures unit.relayReg == if writeStatus == ESP_OK
      then LedUpdate(BufferAfterRead(old(unit.relayReg), readStatus, stale), regMode, channel, on)
      else old(unit.relayReg)
    ensures regMode == RegMode && readStatus == ESP_OK && writeStatus == ESP_OK ==>
      Decode(unit.relayReg).leds == Decode(old(unit.relayReg)).leds[channel := on] &&
      Decode(unit.relayReg).relays == Decode(old(unit.relayReg)).relays
    ensures unit.modeReg == old(unit.modeReg)
    ensures unit.trace == old(unit.trace) + [
      ReadTx(UnitAddr, RegRelay, readStatus),
      WriteTx(UnitAddr, RegRelay, LedUpdate(BufferAfterRead(old(unit.relayReg), readStatus, stale), regMode, channel, on), writeStatus)]
  {
    var readErr, currentState := unit.I2CRead(UnitAddr, RegRelay, readStatus, stale);
    ghost var seen := currentState;
    if !on {
      currentState := currentState & !(regMode << channel);
    } else {
      currentState := currentState | (regMode << channel);
    }
    LedUpdateInPlace(seen, regMode, channel, on);
    err := unit.I2CWrite(UnitAddr, RegRelay, currentState, writeStatus);
  }
}
