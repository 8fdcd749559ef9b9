/** How the relay/LED register packs eight channel states into one byte, and
    the bit-level update the driver applies to it. */
module Layout {
  import Registers

  /** The `n` lowest bits of `b`, least significant first. */
  function Bits(b: bv8, n: nat): (r: seq<bool>)
    requires n <= 8
    ensures |r| == n
  {
    if n == 0 then [] else [b & 1 == 1] + Bits(b >> 1, n - 1)
  }

  /** The byte whose lowest bits are `bits`, least significant first, and whose other bits are clear. */
  function Pack(bits: seq<bool>): (r: bv8)
    requires |bits| <= 8
    ensures |bits| < 8 ==> r >> |bits| == 0
  {
    if bits == [] then 0 else (if bits[0] then 1 else 0) | (Pack(bits[1..]) << 1)
  }

  /** Element `i` of `Bits` is bit `i` of the byte. */
  lemma {:induction false} BitsAt(b: bv8, n: nat, i: nat)
    requires i < n <= 8
    ensures Bits(b, n)[i] == (b & (1 << i) != 0)
  {
    if i > 0 {
      BitsAt(b >> 1, n - 1, i - 1);
      ShiftedBit(b, i);
    }
  }

  /** Bit `i - 1` of `b >> 1` is bit `i` of `b`. */
  lemma ShiftedBit(b: bv8, i: nat)
    requires 0 < i < 8
    ensures ((b >> 1) & (1 << (i - 1)) != 0) == (b & (1 << i) != 0)
  {
  }

  /** Unpacking a packed sequence gives the sequence back. */
  lemma {:induction false} BitsOfPack(bits: seq<bool>)
    requires |bits| <= 8
    ensures Bits(Pack(bits), |bits|) == bits
  {
    if bits != [] {
      BitsOfPack(bits[1..]);
      PackStep(bits);
    }
  }

  /** The lowest bit of a packed byte is the first element, and the byte shifted
      right by one is the packing of the rest. */
  lemma PackStep(bits: seq<bool>)
    requires 0 < |bits| <= 8
    ensures (Pack(bits) & 1 == 1) == bits[0]
    ensures Pack(bits) >> 1 == Pack(bits[1..])
  {
    var rest := Pack(bits[1..]);
    assert rest >> 7 == 0;
  }

  /** Two bytes with the same eight bits are the same byte. */
  lemma BitsInjective(x: bv8, y: bv8)
    requires Bits(x, 8) == Bits(y, 8)
    ensures x == y
  {
    BitsAt(x, 8, 0); BitsAt(y, 8, 0);
    BitsAt(x, 8, 1); BitsAt(y, 8, 1);
    BitsAt(x, 8, 2); BitsAt(y, 8, 2);
    BitsAt(x, 8, 3); BitsAt(y, 8, 3);
    BitsAt(x, 8, 4); BitsAt(y, 8, 4);
    BitsAt(x, 8, 5); BitsAt(y, 8, 5);
    BitsAt(x, 8, 6); BitsAt(y, 8, 6);
    BitsAt(x, 8, 7); BitsAt(y, 8, 7);
  }

  /** Packing the eight bits of a byte gives the byte back. */
  lemma PackOfBits(b: bv8)
    ensures Pack(Bits(b, 8)) == b
  {
    BitsOfPack(Bits(b, 8));
    BitsInjective(Pack(Bits(b, 8)), b);
  }

  /** The eight channel states the relay/LED register holds. */
  datatype Channels = Channels(relays: seq<bool>, leds: seq<bool>)
  {
    ghost predicate Valid() {
      |relays| == Registers.ChannelCount && |leds| == Registers.ChannelCount
    }
  }

  /** Reads a register byte as channel states: bits 0-3 are relays 0-3, bits 4-7 are LEDs 0-3. */
  function Decode(b: bv8): (ch: Channels)
    ensures ch.Valid()
    ensures ch.relays + ch.leds == Bits(b, 8)
  {
    var bits := Bits(b, 8);
    assert bits[..4] + bits[4..] == bits;
    Channels(bits[..4], bits[4..])
  }

  /** The register byte that holds the given channel states. */
  function Encode(ch: Channels): (b: bv8)
    requires ch.Valid()
    ensures Decode(b) == ch
  {
    BitsOfPack(ch.relays + ch.leds);
    Pack(ch.relays + ch.leds)
  }

  /** Every byte is the encoding of its own channel states, so a byte and its
      channel states determine each other. */
  lemma EncodeDecode(b: bv8)
    ensures Encode(Decode(b)) == b
  {
    PackOfBits(b);
  }

  /** A byte is determined by its channel states. */
  lemma DecodeInjective(x: bv8, y: bv8)
    ensures Decode(x) == Decode(y) <==> x == y
  {
    if Decode(x) == Decode(y) {
      EncodeDecode(x);
      EncodeDecode(y);
    }
  }

  /** The sequence `before` with every position that `mask` selects forced to `on`. */
  function Overlay(before: seq<bool>, mask: seq<bool>, on: bool): (r: seq<bool>)
    requires |before| == |mask|
    ensures |r| == |before|
  {
    seq(|before|, i requires 0 <= i < |before| => if mask[i] then on else before[i])
  }

  /** Bit `i` of `b | mask`. */
  lemma SetBitAt(b: bv8, mask: bv8, i: nat)
    requires i < 8
    ensures Bits(b | mask, 8)[i] == (Bits(b, 8)[i] || Bits(mask, 8)[i])
  {
    BitsAt(b, 8, i);
    BitsAt(mask, 8, i);
    BitsAt(b | mask, 8, i);
  }

  /** Bit `i` of `b & !mask`. */
  lemma ClearBitAt(b: bv8, mask: bv8, i: nat)
    requires i < 8
    ensures Bits(b & !mask, 8)[i] == (Bits(b, 8)[i] && !Bits(mask, 8)[i])
  {
    BitsAt(b, 8, i);
    BitsAt(mask, 8, i);
    BitsAt(b & !mask, 8, i);
  }

  /** Setting the bits of a mask forces them on, and clearing them forces them
      off; the other bits keep their value. */
  lemma MaskedBits(b: bv8, mask: bv8, on: bool)
    ensures Bits(if on then b | mask else b & !mask, 8) == Overlay(Bits(b, 8), Bits(mask, 8), on)
  {
    var after := if on then b | mask else b & !mask;
    forall i | 0 <= i < 8
      ensures Bits(after, 8)[i] == Overlay(Bits(b, 8), Bits(mask, 8), on)[i]
    {
      if on { SetBitAt(b, mask, i); } else { ClearBitAt(b, mask, i); }
    }
  }

  /** The in-place update of both setters: `b &= ~mask` to switch off, `b |= mask`
      to switch on. Exactly the bits the mask selects take the new state; every
      other bit keeps its value. */
  function Force(b: bv8, mask: bv8, on: bool): (r: bv8)
    ensures Bits(r, 8) == Overlay(Bits(b, 8), Bits(mask, 8), on)
  {
    MaskedBits(b, mask, on);
    if !on then b & !mask else b | mask
  }

  /** `Force` seen channel by channel: the relays and the LEDs the mask selects
      take the new state, the others keep theirs. */
  lemma ForceChannels(b: bv8, mask: bv8, on: bool)
    ensures Decode(Force(b, mask, on)).relays == Overlay(Decode(b).relays, Decode(mask).relays, on)
    ensures Decode(Force(b, mask, on)).leds == Overlay(Decode(b).leds, Decode(mask).leds, on)
  {
    var before, selected := Bits(b, 8), Bits(mask, 8);
    OverlaySlice(before, selected, on, 0, 4);
    OverlaySlice(before, selected, on, 4, 8);
  }

  /** A slice of an overlay is the overlay of the slices. */
  lemma OverlaySlice(before: seq<bool>, mask: seq<bool>, on: bool, lo: nat, hi: nat)
    requires |before| == |mask| && lo <= hi <= |before|
    ensures Overlay(before, mask, on)[lo..hi] == Overlay(before[lo..hi], mask[lo..hi], on)
  {
  }

  /** Forcing the positions of a mask that selects only `i` is an update at `i`. */
  lemma OverlayOne(before: seq<bool>, i: nat, on: bool)
    requires i < |before|
    ensures Overlay(before, seq(|before|, k requires 0 <= k < |before| => k == i), on) == before[i := on]
  {
  }

  /** Forcing the positions of a mask that selects nothing changes nothing. */
  lemma OverlayNone(before: seq<bool>, on: bool)
    ensures Overlay(before, seq(|before|, k requires 0 <= k < |before| => false), on) == before
  {
  }
}
