/** The 4-Relay unit on the expansion port's bus, and the bus transactions
    the driver issues to it. */
module Peripheral {
  import opened Esp
  import opened Registers

  /** One bus transaction as it was issued, with the status the transport returned. */
  datatype Transaction =
    | ReadTx(addr: bv8, reg: bv8, status: EspErr)
    | WriteTx(addr: bv8, reg: bv8, data: bv8, status: EspErr)

  /** The byte left in the caller's one-byte buffer by a read: the register's
      value when the read succeeded, otherwise whatever the uninitialised
      buffer held (`stale`). */
  function BufferAfterRead(register: bv8, status: EspErr, stale: bv8): (data: bv8)
    ensures status == ESP_OK ==> data == register
    ensures status != ESP_OK ==> data == stale
  {
    if status == ESP_OK then register else stale
  }

  /** The unit's two registers, and (for specification only) the transactions
      the bus has carried to it. */
  class RelayUnit {
    var modeReg: bv8
    var relayReg: bv8
    ghost var trace: seq<Transaction>

    constructor (mode: bv8, relays: bv8)
      ensures modeReg == mode && relayReg == relays && trace == []
    {
      modeReg, relayReg, trace := mode, relays, [];
    }

    /** The value a successful one-byte read of (`addr`, `reg`) returns, when one of the unit's registers answers. */
    function Answer(addr: bv8, reg: bv8, stale: bv8): (data: bv8)
      reads this
      ensures addr == UnitAddr && reg == RegMode ==> data == modeReg
      ensures addr == UnitAddr && reg == RegRelay ==> data == relayReg
      ensures addr != UnitAddr || (reg != RegMode && reg != RegRelay) ==> data == stale
    {
      if addr != UnitAddr then stale
      else if reg == RegMode then modeReg
      else if reg == RegRelay then relayReg
      else stale
    }

    /** `core2foraws_expports_i2c_read` of one byte. The transport's verdict
        `status` and the byte `stale` already in the buffer are inputs: the
        transport is not part of this model. A read changes no register. */
    method I2CRead(addr: bv8, reg: bv8, status: EspErr, stale: bv8) returns (err: EspErr, data: bv8)
      modifies this`trace
      ensures err == status
      ensures data == BufferAfterRead(Answer(addr, reg, stale), status, stale)
      ensures trace == old(trace) + [ReadTx(addr, reg, status)]
    {
      data := BufferAfterRead(Answer(addr, reg, stale), status, stale);
      err := status;
      trace := trace + [ReadTx(addr, reg, status)];
    }

    /** `core2foraws_expports_i2c_write` of one byte. A successful write to one
        of the unit's registers stores the byte there; a failed write, or one
        addressed elsewhere, changes no register. */
    method I2CWrite(addr: bv8, reg: bv8, data: bv8, status: EspErr) returns (err: EspErr)
      modifies this
      ensures err == status
      ensures modeReg == if status == ESP_OK && addr == UnitAddr && reg == RegMode then data else old(modeReg)
      ensures relayReg == if status == ESP_OK && addr == UnitAddr && reg == RegRelay then data else old(relayReg)
      ensures trace == old(trace) + [WriteTx(addr, reg, data, status)]
    {
      if status == ESP_OK && addr == UnitAddr {
        if reg == RegMode {
          modeReg := data;
        } else if reg == RegRelay {
          relayReg := data;
        }
      }
      err := status;
      trace := trace + [WriteTx(addr, reg, data, status)];
    }
  }
}
