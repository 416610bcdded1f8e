/** The handlers that the non-partial `GameBoy` class declares for opcodes
    0x00-0x06 with a `params byte[]` signature. They cannot be compiled
    together with the span-based handler set (both define the same methods),
    so they form a second revision of the instruction set; the dispatcher
    scans whichever of the two is in the class.

    Where this revision reads memory it goes through `MemoryBank`, whose
    reads give 0, so LD BC and LD B load 0 whatever their operands are. Its
    INC B and DEC B drive HalfCarry from the RESULT being 0, like Zero.
    `FlagRegister.AddSub`, which these handlers name, is not among the four
    declared flags; it is taken to be Subtract (bit 0x40). */
module ParamsHandlers {
  import opened Bytes
  import opened Errors
  import opened FlagRegister
  import opened RegisterFile
  import opened Memory
  import Span = Instructions

  datatype Handler = Nop | LdBc | LdABc | IncBc | IncB | DecB | LdB

  function Opcode(h: Handler): bv8
  {
    match h
    case Nop => 0x00 case LdBc => 0x01 case LdABc => 0x02 case IncBc => 0x03
    case IncB => 0x04 case DecB => 0x05 case LdB => 0x06
  }

  function Length(h: Handler): ByteCount
  {
    match h
    case LdBc => 3 case LdB => 2
    case _ => 1
  }

  /** The handler of this revision declared for `op`, if any. */
  function Decode(op: bv8): (h: Option<Handler>)
    ensures h.Some? ==> Opcode(h.value) == op
    ensures h.None? <==> op > 0x06
  {
    match op
    case 0x00 => Some(Nop) case 0x01 => Some(LdBc) case 0x02 => Some(LdABc) case 0x03 => Some(IncBc)
    case 0x04 => Some(IncB) case 0x05 => Some(DecB) case 0x06 => Some(LdB)
    case _ => None
  }

  /** Every handler of this revision is found under its own opcode. */
  lemma DecodeFindsEveryHandler(h: Handler, g: Handler)
    ensures Decode(Opcode(h)) == Some(h)
    ensures Opcode(h) == Opcode(g) ==> h == g
  {
  }

  /** `BitConverter.ToUInt16(args, 0)`: the first two bytes, little-endian. */
  function ToUInt16(args: seq<bv8>): UShort
    requires |args| >= 2
  {
    LittleEndian(args[0], args[1])
  }

  /** `INC_B` of this revision: B increments with wrap; Zero and HalfCarry
      both follow "the new B is 0"; Subtract (AddSub) is cleared. */
  function IncB8(s: Image): (t: Span.Timed)
    ensures Get8(t.regs, B) as int == (Get8(s, B) as int + 1) % 256
    ensures FlagSet(t.regs, Zero) <==> Get8(t.regs, B) == 0
    ensures FlagSet(t.regs, HalfCarry) <==> Get8(t.regs, B) == 0
    ensures !FlagSet(t.regs, Subtract)
    ensures FlagSet(t.regs, Carry) == FlagSet(s, Carry)
    ensures Span.SameExcept(s, t.regs, {B, F}) && Span.KeepsLowNibble(s, t.regs)
    ensures t.tStates == 4
  {
    IncrementWraps(Get8(s, B));
    var v := Get8(s, B) + 1;
    var f1 := WithFlag(Get8(s, F), Zero, v == 0);
    var f2 := WithFlag(f1, HalfCarry, v == 0);
    var f3 := WithFlagDisabled(f2, Subtract);
    Span.Timed(Span.Commit8(s, B, v, f3), 4)
  }

  /** `DEC_B` of this revision: the same with a decrement, and Subtract set. */
  function DecB8(s: Image): (t: Span.Timed)
    ensures Get8(t.regs, B) as int == (Get8(s, B) as int + 255) % 256
    ensures FlagSet(t.regs, Zero) <==> Get8(t.regs, B) == 0
    ensures FlagSet(t.regs, HalfCarry) <==> Get8(t.regs, B) == 0
    ensures FlagSet(t.regs, Subtract)
    ensures FlagSet(t.regs, Carry) == FlagSet(s, Carry)
    ensures Span.SameExcept(s, t.regs, {B, F}) && Span.KeepsLowNibble(s, t.regs)
    ensures t.tStates == 4
  {
    DecrementWraps(Get8(s, B));
    var v := Get8(s, B) - 1;
    var f1 := WithFlag(Get8(s, F), Zero, v == 0);
    var f2 := WithFlag(f1, HalfCarry, v == 0);
    var f3 := WithFlagEnabled(f2, Subtract);
    Span.Timed(Span.Commit8(s, B, v, f3), 4)
  }

  /** Invoking a handler of this revision with its operand bytes. */
  function Execute(h: Handler, s: Image, mem: MemoryBank, args: seq<bv8>): (e: Span.Effect)
    requires |args| >= Length(h) - 1
  {
    match h
    case Nop => Span.Effect(s, mem, 4)
    // `registers.BC = memory.ReadShort(...)`: the byte read widens to a word
    case LdBc => Span.Effect(Set16(s, BC, mem.ReadShort(ToUInt16(args)) as int), mem, 12)
    case LdABc => Span.Effect(s, mem.WriteByte(Get16(s, BC), Get8(s, A)), 8)
    case IncBc => Span.WithMemory(Span.Inc16(s, BC), mem)
    case IncB => Span.WithMemory(IncB8(s), mem)
    case DecB => Span.WithMemory(DecB8(s), mem)
    case LdB => Span.Effect(Set8(s, B, mem.ReadByte(args[0] as int)), mem, 8)
  }

  // ---- Properties ---------------------------------------------------------

  /** LD BC and LD B load 0 whatever their operand bytes, and the stubbed
      store of 0x02 leaves memory as it was. */
  lemma LoadsReadZero(s: Image, mem: MemoryBank, args: seq<bv8>)
    requires |args| >= 2
    ensures Get16(Execute(LdBc, s, mem, args).regs, BC) == 0
    ensures Get8(Execute(LdB, s, mem, args).regs, B) == 0
    ensures Execute(LdABc, s, mem, args) == Span.Effect(s, mem, 8)
  {
  }

  /** No handler of this revision writes SP, PC or memory, and every one
      of them returns at least 4 T-states. */
  lemma HandlersKeepSpPcAndMemory(h: Handler, s: Image, mem: MemoryBank, args: seq<bv8>)
    requires |args| >= Length(h) - 1
    ensures Get16(Execute(h, s, mem, args).regs, SP) == Get16(s, SP)
    ensures Get16(Execute(h, s, mem, args).regs, PC) == Get16(s, PC)
    ensures Execute(h, s, mem, args).memory == mem
    ensures Execute(h, s, mem, args).tStates >= 4
  {
  }

  /** The two revisions of INC B agree on B, Zero, Subtract, Carry and the
      T-states; they agree on HalfCarry only when the old low nibble of B is
      0xF and B is not 0xFF, i.e. when both rules leave HalfCarry clear. */
  lemma IncBRevisionsCompared(s: Image)
    ensures var p := IncB8(s).regs; var q := Span.Inc8(s, B).regs;
      && Get8(p, B) == Get8(q, B)
      && FlagSet(p, Zero) == FlagSet(q, Zero)
      && FlagSet(p, Subtract) == FlagSet(q, Subtract)
      && FlagSet(p, Carry) == FlagSet(q, Carry)
      && (FlagSet(p, HalfCarry) == FlagSet(q, HalfCarry) <==> Get8(s, B) & 0x0F == 0x0F && Get8(s, B) != 0xFF)
  {
    IncrementWraps(Get8(s, B));
  }

  /** The same comparison for DEC B; there the revisions agree on HalfCarry
      for every B except 0x01 and the values whose low nibble is 0xF. */
  lemma DecBRevisionsCompared(s: Image)
    ensures var p := DecB8(s).regs; var q := Span.Dec8(s, B).regs;
      && Get8(p, B) == Get8(q, B)
      && FlagSet(p, Zero) == FlagSet(q, Zero)
      && FlagSet(p, Subtract) == FlagSet(q, Subtract)
      && FlagSet(p, Carry) == FlagSet(q, Carry)
      && (FlagSet(p, HalfCarry) != FlagSet(q, HalfCarry) <==> Get8(s, B) == 0x01 || Get8(s, B) & 0x0F == 0x0F)
  {
    DecrementWraps(Get8(s, B));
  }
}
