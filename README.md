# M5Stack 4-Relay unit driver — register protocol model

This project models the driver for the M5Stack 4-Relay unit on the Core2 for AWS
expansion port. The unit sits at bus address 0x26 and has two one-byte registers.
The mode register (0x10) holds 0 for async or 1 for sync. The relay/LED register
(0x11) holds relays 0–3 in bits 0–3 and LEDs 0–3 in bits 4–7.

The unit is the class `Peripheral.RelayUnit`. It has the two register fields
`modeReg` and `relayReg`, plus a ghost `trace` of the bus transactions issued to
it, which exists only for the specifications. The driver's seven operations are
module-level methods of `Driver` (and of `Legacy` for the older copy). Each one
takes the unit as a parameter and reaches it only through the unit's two
transport methods:

- `init` sets the mode, then writes 0x00 to the relay/LED register.
- `relay_get` and `led_get` read the relay/LED register and extract one bit.
- `relay_set` and `led_set` read the byte, force one bit with `&= ~mask` or
  `|= mask`, and write the byte back.
- `relay_all` writes 0x0F or 0x00 without reading first.
- `mode_set` writes 0 or 1 to the mode register.

The bit arithmetic is written as pure functions on `bv8`. These are
`Driver.RelayState`, `Driver.LedState`, `Driver.SetRelay`, `Driver.SetLed` and
`Driver.AllRelaysByte`. Each one is specified against an independent view of the
register, `Layout.Decode`, which splits a byte into four relay states and four
LED states. `Layout.Encode` is its inverse, and the two are proved to be a
bijection. The channel-level claims follow from these specifications: a setter
changes only its target channel, get-after-set returns the value that was set,
and the bulk write clears every LED.

The bus transport (`core2foraws_expports_i2c_read`/`_write`) is not part of this
model. It becomes two methods of `RelayUnit`, and what the transport reports is
passed in as parameters: the status code and, for a read, the stale byte that a
failed read leaves in the uninitialised buffer. A successful write to one of the
unit's registers stores the byte. A failed write changes nothing. Status codes
are `bv32` values (`esp_err_t`), so `init`'s `err |= ...` is the real bitwise OR.

The older copy of the driver, `unit_4relay.c`, is modelled in module `Legacy`. It
uses the same peripheral and the same pure functions. Its header is not part of
this model, so the mode-register constant is a parameter `regMode`.

Behaviour of the code worth knowing, which the model keeps as written:

- The write is issued even after a failed read, from the stale buffer byte
  with one bit forced. `relay_set`/`led_set` report only the write's status.
  `Scenarios.RelaySetAfterFailedRead` shows the consequence: the call returns
  `ESP_OK` even though every other channel was switched on.
- `init` always issues both writes and ORs the two statuses. It does not surface
  one step's error on its own, and it does not stop after the first failure.
- The getters return the read's status, but they set the state from the buffer
  even when the read failed.
- The current `led_set` builds its LED mask by shifting the mode-register
  constant 0x10 (unit_4_relay.c:113, :117). Because 0x10 is `1 << 4`, this is
  the correct LED bit (`Driver.LedMask`). The legacy `led_set` shifts its own
  mode-register constant, whose value is not shown. Its mask is the LED bit of
  every channel only when that constant is 0x10 (`Legacy.LedMaskAlias`).
- No operation checks the channel range. Channels are required to be below 4.

## Model

| member | source | states |
|---|---|---|
| Esp.Combine | unit_4_relay.c:43-44 | the ORed status of the two init steps is `ESP_OK` iff both steps returned `ESP_OK` |
| Registers.ModeByte | include/unit_4_relay.h:49-60 | the byte written for a mode is 1 (sync) iff the mode is sync, 0 (async) iff it is async, and never anything else |
| Layout.Force | unit_4_relay.c:73-80 | the in-place clear (`&= ~mask`) or set (or-assign of the mask) forces exactly the masked bits to the new state and keeps every other bit |
| Layout.Decode | unit_4_relay.c:54-59 | a register byte is read as 4 relay states (bits 0–3) followed by 4 LED states (bits 4–7), all eight bits in order |
| Layout.Encode | unit_4_relay.c:54-59 | the byte built from eight channel states decodes back to those states |
| Layout.EncodeDecode | unit_4_relay.c:54-59 | every byte is the encoding of its own channel states |
| Layout.DecodeInjective | unit_4_relay.c:54-59 | two bytes have the same channel states iff they are equal |
| Layout.BitsAt | unit_4_relay.c:59 | element i of the bit view of a byte is `b & (1 << i) != 0` |
| Driver.RelayMask | unit_4_relay.c:75-79 | `1 << channel` selects relay `channel` and no other relay or LED |
| Driver.LedMask | unit_4_relay.c:113-117 | `REG_MODE << channel` equals `1 << (4 + channel)` and selects LED `channel` and no relay |
| Driver.RelayState | unit_4_relay.c:59 | the relay getter's bit extraction is true iff relay `channel` is on in the byte |
| Driver.LedState | unit_4_relay.c:97 | the LED getter's `(b >> 4) & (1 << channel)` is true iff LED `channel` is on in the byte |
| Driver.SetRelay | unit_4_relay.c:73-80 | the byte written back has relay `channel` equal to `on`, every other relay and every LED unchanged |
| Driver.SetLed | unit_4_relay.c:111-118 | the byte written back has LED `channel` equal to `on`, every other LED and every relay unchanged |
| Driver.AllRelaysByte | unit_4_relay.c:127 | `state * 0x0f` is 0x0F or 0x00: every relay in the requested state and every LED off |
| Driver.RelaySetThenGet | unit_4_relay.c:73-80 | after the relay update the channel reads back as set; other relays and all LEDs read as before |
| Driver.LedSetThenGet | unit_4_relay.c:111-118 | after the LED update the LED reads back as set; other LEDs and all relays read as before |
| Driver.SetRelayIdempotent | unit_4_relay.c:73-80 | applying the relay update twice gives the same byte as applying it once |
| Driver.SetLedIdempotent | unit_4_relay.c:111-118 | applying the LED update twice gives the same byte as applying it once |
| Driver.ModeSet | unit_4_relay.c:132-139 | one write of 0/1 to register 0x10 at 0x26; the relay/LED register is untouched; the write's status is returned |
| Driver.RelayAll | unit_4_relay.c:123-130 | one write and no read of 0x0F/0x00 to register 0x11; on success every LED is off whatever it was |
| Driver.Init | unit_4_relay.c:40-45 | mode write then bulk-off write, both always issued in that order; the result is their OR, `ESP_OK` iff both succeeded, and then mode = requested and relay/LED register = 0x00 |
| Driver.RelayGet | unit_4_relay.c:47-61 | one read of register 0x11; returns the read's status and bit `channel` of the buffer, even when the read failed |
| Driver.LedGet | unit_4_relay.c:85-99 | one read of register 0x11; returns the read's status and bit `4 + channel` of the buffer, even when the read failed |
| Driver.RelaySet | unit_4_relay.c:63-83 | read then write of register 0x11; the byte written is the buffer with relay `channel` forced; the read status is discarded and the write's returned; with both successful only that relay changes |
| Driver.LedSet | unit_4_relay.c:101-121 | as `RelaySet`, for LED `channel` via the mask `REG_MODE << channel`; with both successful only that LED changes |
| Peripheral.BufferAfterRead | unit_4_relay.c:68-71 | the buffer holds the register's value after a successful read and the stale uninitialised byte after a failed one |
| Peripheral.RelayUnit.I2CRead | unit_4_relay.c:51-52 | a one-byte read returns the transport's status, changes no register and is recorded in the trace |
| Peripheral.RelayUnit.I2CWrite | unit_4_relay.c:81-82 | a successful one-byte write to 0x26 stores the byte in the addressed register; a failed one changes nothing |
| Legacy.LedUpdate | unit_4relay.c:43-50 | the legacy LED update forces the bits of `regMode << channel` (truncated to a byte) and keeps the others; with `regMode` = 0x10 it is the current driver's LED update |
| Legacy.LedMaskAlias | unit_4relay.c:45-49 | `regMode << channel` is the LED bit of every channel iff `regMode` is 0x10 |
| Legacy.ModeSet | unit_4relay.c:62-66 | one write of the mode byte to register `regMode`, which changes the mode register exactly when `regMode` is 0x10 |
| Legacy.RelayAll | unit_4relay.c:54-60 | one write and no read of `state * 0x0f` to the relay/LED register |
| Legacy.Init | unit_4relay.c:9-14 | both writes always issued, mode first; the result is their OR, `ESP_OK` iff both succeeded; the new value of both registers is given for every mode-register constant |
| Legacy.RelaySet | unit_4relay.c:16-33 | the same read-modify-write of relay `channel` as the current driver, ignoring the read status |
| Legacy.LedSet | unit_4relay.c:35-52 | writes back the buffer with the bits of `regMode << channel` forced, ignoring the read status; with 0x10 only LED `channel` changes |
| Scenarios.RelaySetThenGet | unit_4_relay.c:59-82 | over a healthy bus, `relay_set` then `relay_get` returns the state set, and other channels read as before |
| Scenarios.LedSetThenGet | unit_4_relay.c:97-120 | over a healthy bus, `led_set` then `led_get` returns the state set, and other channels read as before |
| Scenarios.RelayAllClearsLeds | unit_4_relay.c:111-129 | an LED lit by `led_set` reads as off after `relay_all` |
| Scenarios.InitThenRead | include/unit_4_relay.h:62-79 | after a successful init the mode register is 0 for async or 1 for sync, and every relay and LED reads off |
| Scenarios.RelaySetAfterFailedRead | unit_4_relay.c:68-82 | a failed read with a stale 0xFF in the buffer, then a successful write, reports `ESP_OK` while every relay and LED has been switched on |

## Left out

- Logging (`ESP_LOGD`, the `_TAG` strings, the `BYTE_TO_BINARY` macros) only formats messages and changes no state. The `mode_set` message tests the address of its argument, not the mode, and is left out too.
- The bus transport is not part of this model. Its outcomes are inputs: any `esp_err_t` status, and for a failed read any stale byte. A successful write storing its byte is an assumption of the model.
- A failed write leaving both registers unchanged is also an assumption of the model. A real transport can report a failure after the device has already latched the byte (a timeout after the data byte was acknowledged). The model does not cover that case, so the failure branches of `Driver.ModeSet`, `Driver.RelayAll`, `Driver.Init`, `Driver.RelaySet`, `Driver.LedSet` and their `Legacy` copies, which keep the old register value, hold only under this assumption.
- Specific `esp_err_t` codes are not modelled. The model only distinguishes `ESP_OK` from everything else.
- Concurrency: a read-modify-write pair is not atomic in the source. The model assumes a single owner of the unit, so nothing else changes the register between the read and the write.
- The device's sync-mode behaviour is not modelled. In sync mode the unit's firmware switches an LED together with its relay; the modelled peripheral stores each written byte as it is.
- Out-of-range channels: the source does not check the channel, and shifts by 4 or more leave the nibble or the byte. Every channel operation requires `channel < 4`.
- `mode_set` writes the byte of a `bool` through a `bool *` cast to `uint8_t *`. That byte is modelled as 0 or 1.
- The legacy header `unit_4relay.h` is not part of this model. The legacy unit's address and relay/LED register are taken to be 0x26 and 0x11, and the mode-register constant is the parameter `regMode`, of which only the low byte matters.
- No operation reads the mode register back. The driver has no such getter, and neither has the model.
