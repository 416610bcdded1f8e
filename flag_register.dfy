/** The four condition flags of the LR35902, packed into the high nibble of
    register F (the `[Flags] enum FlagRegister : byte`). */
module FlagRegister {

  datatype Flag = Zero | Subtract | HalfCarry | Carry

  /** The bit each flag occupies in F. */
  function Bits(f: Flag): bv8
  {
    match f
    case Zero => 0x80
    case Subtract => 0x40
    case HalfCarry => 0x20
    case Carry => 0x10
  }

  /** The bitwise union of all four flags. */
  const AllFlags: bv8 := Bits(Zero) | Bits(Subtract) | Bits(HalfCarry) | Bits(Carry)

  predicate SingleBit(b: bv8)
  {
    b != 0 && b & (b - 1) == 0
  }

  /** Each flag is exactly one bit. */
  lemma FlagIsSingleBit(f: Flag)
    ensures SingleBit(Bits(f))
  {
  }

  /** Distinct flags occupy distinct bits. */
  lemma FlagsDisjoint(f: Flag, g: Flag)
    ensures f != g <==> Bits(f) & Bits(g) == 0
  {
  }

  /** Together the flags fill the high nibble and nothing else. */
  lemma FlagsFillHighNibble(f: Flag)
    ensures AllFlags == 0xF0
    ensures Bits(f) & 0x0F == 0
  {
  }

  /** The complement `~f` (as a byte) keeps every other flag and the whole low
      nibble, which is what clearing a flag with `F &= ~f` relies on. */
  lemma ComplementKeepsOthers(f: Flag, g: Flag)
    ensures !Bits(f) & 0x0F == 0x0F
    ensures f != g ==> !Bits(f) & Bits(g) == Bits(g)
    ensures !Bits(f) & Bits(f) == 0
  {
  }
}
