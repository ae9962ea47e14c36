# Game Boy CPU registers in Dafny

A model of the register component of a Game Boy (Sharp LR35902) emulator
written in Rust:

- the register file `Registers`: eight 8-bit registers a, b, c, d, e, f, h, l,
  with 16-bit pair accessors `get_af/set_af`, `get_bc/set_bc`, `get_de/set_de`
  and `get_hl/set_hl` that the `register_pair!` macro generates;
- the condition flags `FlagsRegister`: four booleans (zero, subtract,
  half-carry, carry) and their packing into bits 7, 6, 5 and 4 of a byte
  through the two `From` conversions.

`u8` and `u16` are modelled as `bv8` and `bv16`. Shifts, masks and ors use the
same bit operations as the source. Each `as u8` cast becomes a narrowing
`as bv8`. Dafny checks that the value fits, and it does because the source
masks it first. The properties are then proved as numbers too: a pair reads as `high * 256 + low`,
and a write stores `value / 256` and `value % 256`.

Files and modules:

- `register_pair.dfy`, module `RegisterPair`: the bodies the macro expands,
  `Join` (getter) and `High`/`Low` (setter halves), and the lemmas that tie them
  to arithmetic and to each other.
- `registers.dfy`, module `RegisterFile`: the pair selector `Pair`, the register
  contents as a value `RegisterValues` with `GetPair`/`SetPair`, the lemmas about
  them, and the class `Registers`. Its fields are updated in place by the four
  setters, and each setter is specified by `SetPair` on its old contents.
- `flags.dfy`, module `Flags`: `FlagsRegister`, the four bit-position constants,
  `ToByte` (the `u8` from flags conversion) and `FromByte` (the flags from `u8`
  conversion), and their round-trip laws.

On the Game Boy, F holds the four flags in bits 7-4, and bits 3-0 always read 0.
This code keeps `f` a plain `u8` (src/main.rs:24), so `set_af` stores the whole
low byte. `GetAfterSet` proves that AF reads back in full.

## Model

| member | source | states |
|---|---|---|
| RegisterPair.Join | src/main.rs:6-8 | the composed value splits back into the same high and low byte |
| RegisterPair.High | src/main.rs:10-13 | the byte the setter stores in the high register, bits 15-8 of the value; `SplitValue` proves it is `value / 256` |
| RegisterPair.Low | src/main.rs:10-13 | the byte the setter stores in the low register, bits 7-0 of the value; `SplitValue` proves it is `value % 256` |
| RegisterPair.JoinValue | src/main.rs:6-8 | the getter (high shifted left by 8, or-ed with low) equals `high * 256 + low` as unsigned numbers |
| RegisterPair.SplitValue | src/main.rs:10-13 | the setter's high byte `(v & 0xFF00) >> 8` is `v / 256`; its low byte `v & 0xFF` is `v % 256` |
| RegisterPair.WordValue | src/main.rs:6-13 | every 16-bit value is its setter high byte times 256 plus its setter low byte |
| RegisterPair.JoinSplit | src/main.rs:6-13 | splitting a value and composing the halves gives the value back |
| RegisterPair.JoinInjective | src/main.rs:6-8 | two byte pairs compose to the same value exactly when they are equal |
| RegisterFile.RegisterValues.GetPair | src/main.rs:6-8 | reading any pair gives its high register times 256 plus its low register |
| RegisterFile.RegisterValues.SetPair | src/main.rs:10-13 | writing a pair puts `v / 256` in its high register and `v % 256` in its low register; both registers of every other pair are unchanged |
| RegisterFile.GetAfterSet | src/main.rs:6-13 | for every pair, AF included, reading right after writing v gives v |
| RegisterFile.SetOwnValue | src/main.rs:6-13 | writing a pair with its current value leaves all eight registers unchanged |
| RegisterFile.SetKeepsOtherPairs | src/main.rs:10-13 | writing one pair does not change the value read from any other pair |
| RegisterFile.SetChangesOnlyItsPair | src/main.rs:10-13 | a write differs from the old contents in at most the two registers of its pair; the other six keep their values |
| RegisterFile.ReadAfterWrites | src/main.rs:6-13 | after any sequence of pair writes, each pair reads as the last value written to it, or as its original value if no write named it: the four pairs act as independent 16-bit registers |
| RegisterFile.Registers.constructor | src/main.rs:18-27 | a register file holds exactly the eight given bytes |
| RegisterFile.Registers.GetAF | src/main.rs:6-8 | `get_af` (expanded at line 30) returns `a * 256 + f` |
| RegisterFile.Registers.SetAF | src/main.rs:10-13 | `set_af` (expanded at line 30) stores the high byte in a and the full low byte in f, with no masking; the other six registers keep their values; reading AF afterwards gives the value |
| RegisterFile.Registers.GetBC | src/main.rs:6-8 | `get_bc` (expanded at line 31) returns `b * 256 + c` |
| RegisterFile.Registers.SetBC | src/main.rs:10-13 | `set_bc` stores the high byte in b and the low byte in c; the other six registers keep their values; reading BC afterwards gives the value |
| RegisterFile.Registers.GetDE | src/main.rs:6-8 | `get_de` (expanded at line 32) returns `d * 256 + e` |
| RegisterFile.Registers.SetDE | src/main.rs:10-13 | `set_de` stores the high byte in d and the low byte in e; the other six registers keep their values; reading DE afterwards gives the value |
| RegisterFile.Registers.GetHL | src/main.rs:6-8 | `get_hl` (expanded at line 33) returns `h * 256 + l` |
| RegisterFile.Registers.SetHL | src/main.rs:10-13 | `set_hl` stores the high byte in h and the low byte in l; the other six registers keep their values; reading HL afterwards gives the value |
| RegisterFile.RegistersScenario | src/main.rs:84-107 | for registers FF,11,22,33,44,55,66,77 the pairs read FF55, 1122, 3344 and 6677; after `set_bc(0xDEAD)`, BC reads DEAD, b is DE and c is AD |
| Flags.ToByte | src/main.rs:44-56 | the packed byte is 128·zero + 64·subtract + 32·half_carry + 16·carry, so bits 3-0 are always 0 |
| Flags.FromByte | src/main.rs:59-72 | each flag is set exactly when its bit of the byte is set, at the positions 7, 6, 5 and 4 that the constants at lines 44-47 give |
| Flags.DecodeEncode | src/main.rs:50-72 | unpacking a packed flags value gives back the same four booleans |
| Flags.EncodeDecode | src/main.rs:50-72 | packing the unpacked flags of any byte b gives `b & 0xF0` |
| Flags.EncodeDecodeValue | src/main.rs:50-72 | packing the unpacked flags of any byte rounds it down to a multiple of 16 |
| Flags.FromByteIgnoresLowNibble | src/main.rs:59-64 | two bytes that agree in bits 7-4 unpack to the same flags |
| Flags.ToByteInjective | src/main.rs:50-56 | two flags values pack to the same byte exactly when they are equal |

## Left out

- `main` (src/main.rs:75-77) only prints a greeting; it is I/O and has no behaviour to verify.
- The `paste` and `macro_rules!` code generation is not modelled as such. Its four expansions are the explicit members `GetAF`/`SetAF` through `GetHL`/`SetHL`, and the shared body is `Join`, `High` and `Low`.
- No ALU, instruction type, opcode decoding, memory bus or timing is modelled. None of these exists in the source.
- `Registers.f` is not coupled to `FlagsRegister`. The source keeps them separate, so `SetAF` does not mask the low nibble of F.
- Rust ownership is not modelled: `From<FlagsRegister> for u8` consumes its argument, and `ToByte` takes a value.
