/** The condition flags of the processor as four booleans, and their packing into
    the upper nibble of a byte. */
module Flags {

  /** Bit positions of the four flags in the packed byte. */
  const ZeroFlagBytePosition: bv8 := 7
  const SubtractFlagBytePosition: bv8 := 6
  const HalfCarryFlagBytePosition: bv8 := 5
  const CarryFlagBytePosition: bv8 := 4

  datatype FlagsRegister = FlagsRegister(zero: bool, subtract: bool, halfCarry: bool, carry: bool)

  /** `1` for a set flag, `0` for a clear one. */
  function BitOf(flag: bool): bv8
  {
    if flag then 1 else 0
  }

  /** Whether the bit at `position` of `byte` is 1. */
  function IsSet(byte: bv8, position: bv8): bool
    requires position < 8
  {
    ((byte >> position) & 1) != 0
  }

  /** Packing: each flag shifted to its position, or-ed together.  As a number the
      byte is the sum of 128, 64, 32 and 16 for the set flags, so bits 3-0 are 0. */
  function ToByte(flags: FlagsRegister): (byte: bv8)
    ensures byte as int == (if flags.zero then 128 else 0) + (if flags.subtract then 64 else 0)
                         + (if flags.halfCarry then 32 else 0) + (if flags.carry then 16 else 0)
    ensures byte & 0x0F == 0
  {
    (BitOf(flags.zero) << ZeroFlagBytePosition)
    | (BitOf(flags.subtract) << SubtractFlagBytePosition)
    | (BitOf(flags.halfCarry) << HalfCarryFlagBytePosition)
    | (BitOf(flags.carry) << CarryFlagBytePosition)
  }

  /** Unpacking: each flag read from its bit; bits 3-0 are ignored.  A flag is set
      exactly when the byte has the flag's mask bit (0x80, 0x40, 0x20, 0x10). */
  function FromByte(byte: bv8): (flags: FlagsRegister)
    ensures flags.zero <==> byte & 0x80 != 0
    ensures flags.subtract <==> byte & 0x40 != 0
    ensures flags.halfCarry <==> byte & 0x20 != 0
    ensures flags.carry <==> byte & 0x10 != 0
  {
    FlagsRegister(
      IsSet(byte, ZeroFlagBytePosition),
      IsSet(byte, SubtractFlagBytePosition),
      IsSet(byte, HalfCarryFlagBytePosition),
      IsSet(byte, CarryFlagBytePosition))
  }

  /** Unpacking a packed flags value gives back the same four booleans. */
  lemma DecodeEncode(flags: FlagsRegister)
    ensures FromByte(ToByte(flags)) == flags
  {
  }

  /** Packing the unpacked flags of any byte clears its low nibble and keeps the rest. */
  lemma EncodeDecode(byte: bv8)
    ensures ToByte(FromByte(byte)) == byte & 0xF0
  {
  }

  /** The same law as numbers: the byte rounded down to a multiple of 16. */
  lemma EncodeDecodeValue(byte: bv8)
    ensures ToByte(FromByte(byte)) as int == byte as int - byte as int % 16
  {
    EncodeDecode(byte);
  }

  /** Unpacking does not look at bits 3-0. */
  lemma FromByteIgnoresLowNibble(byte: bv8, other: bv8)
    ensures byte & 0xF0 == other & 0xF0 ==> FromByte(byte) == FromByte(other)
  {
  }

  /** Distinct flags values pack to distinct bytes. */
  lemma ToByteInjective(f1: FlagsRegister, f2: FlagsRegister)
    ensures ToByte(f1) == ToByte(f2) <==> f1 == f2
  {
    DecodeEncode(f1);
    DecodeEncode(f2);
  }
}
