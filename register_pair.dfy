/** The bit arithmetic shared by every register pair: the `register_pair!` macro
    expands the same getter and setter bodies for AF, BC, DE and HL, so the
    composition of two bytes into a 16-bit value and its split are defined once
    here.  Registers are `u8` and pair values `u16`, modelled as `bv8` and `bv16`. */
module RegisterPair {

  /** The getter body: the high register shifted into bits 15-8, or-ed with the
      low register in bits 7-0. */
  function Join(high: bv8, low: bv8): (r: bv16)
    ensures High(r) == high && Low(r) == low
  {
    ((high as bv16) << 8) | (low as bv16)
  }

  /** The setter's high half: bits 15-8 of the value, truncated to a byte. */
  function High(value: bv16): bv8
  {
    ((value & 0xFF00) >> 8) as bv8
  }

  /** The setter's low half: bits 7-0 of the value, truncated to a byte. */
  function Low(value: bv16): bv8
  {
    (value & 0xFF) as bv8
  }

  /** A 16-bit value, read as an unsigned number, is its high byte times 256 plus its
      low byte.  This is the bridge from the bit operations to arithmetic. */
  lemma WordValue(value: bv16)
    ensures value as int == High(value) as int * 256 + Low(value) as int
  {
    WordBytes(value);
  }

  /** The same fact stated on the shift and the mask directly, in the form the
      solver bit-blasts without unfolding `High` and `Low`. */
  lemma WordBytes(x: bv16)
    ensures x as int == ((x >> 8) as bv8) as int * 256 + ((x & 0xFF) as bv8) as int
  {
  }

  /** The getter's value is `high * 256 + low` as unsigned numbers. */
  lemma JoinValue(high: bv8, low: bv8)
    ensures Join(high, low) as int == high as int * 256 + low as int
  {
    WordValue(Join(high, low));
  }

  /** The setter stores the quotient and the remainder of the value by 256. */
  lemma SplitValue(value: bv16)
    ensures High(value) as int == value as int / 256
    ensures Low(value) as int == value as int % 256
  {
    WordValue(value);
  }

  /** Splitting a value and joining the halves gives the value back. */
  lemma JoinSplit(value: bv16)
    ensures Join(High(value), Low(value)) == value
  {
  }

  /** Two byte pairs with the same composed value are the same pair. */
  lemma JoinInjective(h1: bv8, l1: bv8, h2: bv8, l2: bv8)
    ensures Join(h1, l1) == Join(h2, l2) <==> h1 == h2 && l1 == l2
  {
  }
}
