/** The register file: eight 8-bit registers a, b, c, d, e, f, h, l, read and
    written in pairs AF, BC, DE and HL.  The register `f` is a plain byte here;
    nothing ties it to the packed flags of module `Flags`. */
module RegisterFile {
  import opened RegisterPair

  /** The four pairs the `register_pair!` macro is expanded for. */
  datatype Pair = AF | BC | DE | HL

  /** The contents of the eight registers, as a value. */
  datatype RegisterValues = RegisterValues(a: bv8, b: bv8, c: bv8, d: bv8, e: bv8, f: bv8, h: bv8, l: bv8)
  {
    /** The register that holds bits 15-8 of a pair. */
    function HighOf(p: Pair): bv8
    {
      match p
      case AF => a
      case BC => b
      case DE => d
      case HL => h
    }

    /** The register that holds bits 7-0 of a pair. */
    function LowOf(p: Pair): bv8
    {
      match p
      case AF => f
      case BC => c
      case DE => e
      case HL => l
    }

    /** Reading a pair: the high register times 256 plus the low register. */
    function GetPair(p: Pair): (r: bv16)
      ensures r as int == HighOf(p) as int * 256 + LowOf(p) as int
    {
      JoinValue(HighOf(p), LowOf(p));
      Join(HighOf(p), LowOf(p))
    }

    /** Writing a pair: the quotient of the value by 256 goes to the high register,
        the remainder to the low register, and the registers of every other pair
        keep their contents. */
    function SetPair(p: Pair, value: bv16): (r: RegisterValues)
      ensures r.HighOf(p) as int == value as int / 256
      ensures r.LowOf(p) as int == value as int % 256
      ensures forall q :: q != p ==> r.HighOf(q) == HighOf(q) && r.LowOf(q) == LowOf(q)
      ensures r.HighOf(p) == High(value) && r.LowOf(p) == Low(value)
    {
      SplitValue(value);
      match p
      case AF => this.(a := High(value), f := Low(value))
      case BC => this.(b := High(value), c := Low(value))
      case DE => this.(d := High(value), e := Low(value))
      case HL => this.(h := High(value), l := Low(value))
    }
  }

  /** Reading a pair right after writing it gives back the value written, for every
      pair, AF included: `f` stores the whole low byte. */
  lemma GetAfterSet(regs: RegisterValues, p: Pair, value: bv16)
    ensures regs.SetPair(p, value).GetPair(p) == value
  {
    JoinSplit(value);
  }

  /** Writing a pair with the value it already holds changes no register. */
  lemma SetOwnValue(regs: RegisterValues, p: Pair)
    ensures regs.SetPair(p, regs.GetPair(p)) == regs
  {
    var v := regs.GetPair(p);
    assert High(v) == regs.HighOf(p) && Low(v) == regs.LowOf(p);
  }

  /** Writing one pair leaves the value read from every other pair unchanged. */
  lemma SetKeepsOtherPairs(regs: RegisterValues, p: Pair, q: Pair, value: bv16)
    requires p != q
    ensures regs.SetPair(p, value).GetPair(q) == regs.GetPair(q)
  {
  }

  /** Writing a pair changes exactly its two registers: the new contents differ from
      the old ones at most in the high and low register of that pair. */
  lemma SetChangesOnlyItsPair(regs: RegisterValues, p: Pair, value: bv16)
    ensures var r := regs.SetPair(p, value);
      match p
      case AF => r.(a := regs.a, f := regs.f) == regs
      case BC => r.(b := regs.b, c := regs.c) == regs
      case DE => r.(d := regs.d, e := regs.e) == regs
      case HL => r.(h := regs.h, l := regs.l) == regs
  {
  }

  /** One pair write, a `set_*` call with its argument. */
  datatype Write = Write(pair: Pair, value: bv16)

  /** The contents after performing the writes in order, first to last. */
  function ApplyWrites(regs: RegisterValues, writes: seq<Write>): RegisterValues
  {
    if writes == [] then regs
    else
      var last := writes[|writes| - 1];
      ApplyWrites(regs, writes[..|writes| - 1]).SetPair(last.pair, last.value)
  }

  /** The value of the last write to pair `p`, or `initial` when no write names `p`. */
  function LastWritten(writes: seq<Write>, p: Pair, initial: bv16): bv16
  {
    if writes == [] then initial
    else if writes[|writes| - 1].pair == p then writes[|writes| - 1].value
    else LastWritten(writes[..|writes| - 1], p, initial)
  }

  /** The four pairs behave as independent 16-bit registers: after any sequence of
      pair writes, a pair reads as the last value written to it, or as its
      original value when none of the writes named it. */
  lemma {:induction false} ReadAfterWrites(regs: RegisterValues, writes: seq<Write>, p: Pair)
    ensures ApplyWrites(regs, writes).GetPair(p) == LastWritten(writes, p, regs.GetPair(p))
  {
    if writes != [] {
      var init, last := writes[..|writes| - 1], writes[|writes| - 1];
      ReadAfterWrites(regs, init, p);
      if last.pair == p {
        GetAfterSet(ApplyWrites(regs, init), p, last.value);
      } else {
        SetKeepsOtherPairs(ApplyWrites(regs, init), last.pair, p, last.value);
      }
    }
  }

  /** The register file object: the source's `Registers` struct, whose pair
      setters assign two of its fields in place. */
  class Registers {
    var a: bv8
    var b: bv8
    var c: bv8
    var d: bv8
    var e: bv8
    var f: bv8
    var h: bv8
    var l: bv8

    /** The struct literal: every register set to the given byte. */
    constructor (a0: bv8, b0: bv8, c0: bv8, d0: bv8, e0: bv8, f0: bv8, h0: bv8, l0: bv8)
      ensures Values() == RegisterValues(a0, b0, c0, d0, e0, f0, h0, l0)
    {
      a, b, c, d, e, f, h, l := a0, b0, c0, d0, e0, f0, h0, l0;
    }

    /** The current contents of the eight registers. */
    function Values(): RegisterValues
      reads this
    {
      RegisterValues(a, b, c, d, e, f, h, l)
    }

    function GetAF(): (r: bv16)
      reads this
      ensures r as int == a as int * 256 + f as int
      ensures r == Values().GetPair(AF)
    {
      JoinValue(a, f);
      Join(a, f)
    }

    method SetAF(value: bv16)
      modifies this
      ensures Values() == old(Values()).SetPair(AF, value)
      ensures GetAF() == value
    {
      a := High(value);
      f := Low(value);
      JoinSplit(value);
    }

    function GetBC(): (r: bv16)
      reads this
      ensures r as int == b as int * 256 + c as int
      ensures r == Values().GetPair(BC)
    {
      JoinValue(b, c);
      Join(b, c)
    }

    method SetBC(value: bv16)
      modifies this
      ensures Values() == old(Values()).SetPair(BC, value)
      ensures GetBC() == value
    {
      b := High(value);
      c := Low(value);
      JoinSplit(value);
    }

    function GetDE(): (r: bv16)
      reads this
      ensures r as int == d as int * 256 + e as int
      ensures r == Values().GetPair(DE)
    {
      JoinValue(d, e);
      Join(d, e)
    }

    method SetDE(value: bv16)
      modifies this
      ensures Values() == old(Values()).SetPair(DE, value)
      ensures GetDE() == value
    {
      d := High(value);
      e := Low(value);
      JoinSplit(value);
    }

    function GetHL(): (r: bv16)
      reads this
      ensures r as int == h as int * 256 + l as int
      ensures r == Values().GetPair(HL)
    {
      JoinValue(h, l);
      Join(h, l)
    }

    method SetHL(value: bv16)
      modifies this
      ensures Values() == old(Values()).SetPair(HL, value)
      ensures GetHL() == value
    {
      h := High(value);
      l := Low(value);
      JoinSplit(value);
    }
  }

  /** The source's register test: the four pairs of a register file holding
      a=FF b=11 c=22 d=33 e=44 f=55 h=66 l=77, then BC after writing DEAD to it,
      and the two registers that write filled. */
  method RegistersScenario() returns (af: bv16, bc: bv16, de: bv16, hl: bv16, bcAfter: bv16, bAfter: bv8, cAfter: bv8)
    ensures af == 0xFF55 && bc == 0x1122 && de == 0x3344 && hl == 0x6677
    ensures bcAfter == 0xDEAD && bAfter == 0xDE && cAfter == 0xAD
  {
    var registers := new Registers(0xFF, 0x11, 0x22, 0x33, 0x44, 0x55, 0x66, 0x77);
    af, bc, de, hl := registers.GetAF(), registers.GetBC(), registers.GetDE(), registers.GetHL();
    registers.SetBC(0xDEAD);
    bcAfter := registers.GetBC();
    bAfter, cAfter := registers.b, registers.c;
  }
}
