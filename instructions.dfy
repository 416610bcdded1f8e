/** The opcode handlers 0x00-0x10 of the LR35902 and the reusable helpers
    they call, as the span-based handler file defines them. Each helper is a
    function from the register file (and, for the stores, the memory) before
    the call to the register file after it and the T-state count it returns;
    its body applies the same register and flag updates in the same order as
    the C# helper does through its `ref` parameter.

    The flag rules are the code's, which differ from the hardware reference
    the author cites: INC sets HalfCarry when the old low nibble is NOT 0xF,
    DEC sets it when the old low nibble IS 0xF, 16-bit ADD always clears it
    and computes Carry from the already wrapped sum. */
module Instructions {
  import opened Bytes
  import opened FlagRegister
  import opened RegisterFile
  import opened Memory
  import opened Errors

  /** What a register-only helper leaves: registers and the T-states it returns. */
  datatype Timed = Timed(regs: Image, tStates: bv8)

  /** What a handler leaves: registers, memory and the T-states it returns. */
  datatype Effect = Effect(regs: Image, memory: MemoryBank, tStates: bv8)

  /** Registers and views outside `changed` (and SP, PC) are as they were. */
  predicate SameExcept(s: Image, t: Image, changed: set<Reg8>)
  {
    && (forall q: Reg8 :: q !in changed ==> Get8(t, q) == Get8(s, q))
    && Get16(t, SP) == Get16(s, SP) && Get16(t, PC) == Get16(s, PC)
  }

  /** The low nibble of F is carried over unchanged. */
  predicate KeepsLowNibble(s: Image, t: Image)
  {
    Get8(t, F) & 0x0F == Get8(s, F) & 0x0F
  }

  // ---- Reusable helpers ------------------------------------------------

  /** `LD_16bit`: load a 16-bit value into a register. */
  function Load16(s: Image, r: Reg16, value: UShort): (t: Timed)
    ensures Get16(t.regs, r) == value
    ensures forall q: Reg16 :: q != r ==> Get16(t.regs, q) == Get16(s, q)
    ensures r != AF ==> Get8(t.regs, F) == Get8(s, F)
    ensures t.tStates == 12
  {
    Timed(Set16(s, r, value), 12)
  }

  /** `LD_8bit`: load an 8-bit value into a register. */
  function Load8(s: Image, r: DataReg, value: bv8): (t: Timed)
    ensures Get8(t.regs, r) == value
    ensures SameExcept(s, t.regs, {r})
    ensures t.tStates == 8
  {
    Timed(Set8(s, r, value), 8)
  }

  /** `LD_8bit_pointer`: despite its use for "LD A, (BC)", it STORES the
      register's byte at the pointer; the registers do not change. */
  function Load8Pointer(s: Image, mem: MemoryBank, r: DataReg, pointer: UShort): (e: Effect)
    ensures e.regs == s && e.tStates == 8
    ensures e.memory.fetchable[pointer] == Get8(s, r)
    ensures forall a: UShort :: a != pointer ==> e.memory.fetchable[a] == mem.fetchable[a]
    ensures e.memory == mem.(fetchable := e.memory.fetchable)
  {
    Effect(s, mem.Store8(pointer, Get8(s, r)), 8)
  }

  /** Writes a helper's two results back at once: the operand register and F.
      The two never alias, since an operand register is never F. */
  function Commit8(s: Image, r: DataReg, v: bv8, f: bv8): (t: Image)
    ensures Get8(t, r) == v && Get8(t, F) == f
    ensures SameExcept(s, t, {r, F})
  {
    Set8(Set8(s, r, v), F, f)
  }

  /** The same for a 16-bit operand other than AF. */
  function Commit16(s: Image, r: Reg16, w: UShort, f: bv8): (t: Image)
    requires r != AF
    ensures Get16(t, r) == w && Get8(t, F) == f && Get8(t, A) == Get8(s, A)
    ensures forall q: Reg16 :: q != r && q != AF ==> Get16(t, q) == Get16(s, q)
  {
    Set8(Set16(s, r, w), F, f)
  }

  /** `INC_8bit`: HalfCarry from the old value (as written: set when its low
      nibble is not 0xF), increment with 8-bit wrap, Zero from the result,
      Subtract cleared; Carry is left alone. The flag updates are applied to
      F in the order the C# method performs them. */
  function Inc8(s: Image, r: DataReg): (t: Timed)
    ensures Get8(t.regs, r) as int == (Get8(s, r) as int + 1) % 256
    ensures FlagSet(t.regs, Zero) <==> Get8(t.regs, r) == 0
    ensures FlagSet(t.regs, HalfCarry) <==> Get8(s, r) & 0x0F != 0x0F
    ensures !FlagSet(t.regs, Subtract)
    ensures FlagSet(t.regs, Carry) == FlagSet(s, Carry)
    ensures SameExcept(s, t.regs, {r, F}) && KeepsLowNibble(s, t.regs)
    ensures t.tStates == 4
  {
    IncrementWraps(Get8(s, r));
    var f1 := WithFlag(Get8(s, F), HalfCarry, Get8(s, r) & 0x0F != 0x0F);
    var v := Get8(s, r) + 1;
    var f2 := WithFlag(f1, Zero, v == 0);
    var f3 := WithFlagDisabled(f2, Subtract);
    Timed(Commit8(s, r, v, f3), 4)
  }

  /** `INC_16bit`: increment with 16-bit wrap; no flag is touched. */
  function Inc16(s: Image, r: Reg16): (t: Timed)
    ensures Get16(t.regs, r) == (Get16(s, r) + 1) % 0x1_0000
    ensures forall q: Reg16 :: q != r ==> Get16(t.regs, q) == Get16(s, q)
    ensures r != AF ==> Get8(t.regs, F) == Get8(s, F)
    ensures t.tStates == 8
  {
    Timed(Set16(s, r, (Get16(s, r) + 1) % 0x1_0000), 8)
  }

  /** `DEC_8bit`: HalfCarry from the old value (as written: set when its low
      nibble is 0xF), decrement with 8-bit wrap, Zero from the result,
      Subtract set; Carry is left alone. */
  function Dec8(s: Image, r: DataReg): (t: Timed)
    ensures Get8(t.regs, r) as int == (Get8(s, r) as int + 255) % 256
    ensures FlagSet(t.regs, Zero) <==> Get8(t.regs, r) == 0
    ensures FlagSet(t.regs, HalfCarry) <==> Get8(s, r) & 0x0F == 0x0F
    ensures FlagSet(t.regs, Subtract)
    ensures FlagSet(t.regs, Carry) == FlagSet(s, Carry)
    ensures SameExcept(s, t.regs, {r, F}) && KeepsLowNibble(s, t.regs)
    ensures t.tStates == 4
  {
    DecrementWraps(Get8(s, r));
    var f1 := WithFlag(Get8(s, F), HalfCarry, Get8(s, r) & 0x0F == 0x0F);
    var v := Get8(s, r) - 1;
    var f2 := WithFlag(f1, Zero, v == 0);
    var f3 := WithFlagEnabled(f2, Subtract);
    Timed(Commit8(s, r, v, f3), 4)
  }

  /** `DEC_16bit`: unlike INC_16bit it does touch flags: HalfCarry when the
      old low nibble (`register & 0x0f`, i.e. the value mod 16) is not 0,
      Zero from the result, Subtract set. For AF the flag updates would hit
      the register being decremented; no handler passes AF. */
  function Dec16(s: Image, r: Reg16): (t: Timed)
    requires r != AF
    ensures Get16(t.regs, r) == (Get16(s, r) + 0xFFFF) % 0x1_0000
    ensures FlagSet(t.regs, HalfCarry) <==> Get16(s, r) % 16 != 0
    ensures FlagSet(t.regs, Zero) <==> Get16(t.regs, r) == 0
    ensures FlagSet(t.regs, Subtract)
    ensures FlagSet(t.regs, Carry) == FlagSet(s, Carry)
    ensures forall q: Reg16 :: q != r && q != AF ==> Get16(t.regs, q) == Get16(s, q)
    ensures Get8(t.regs, A) == Get8(s, A) && KeepsLowNibble(s, t.regs)
    ensures t.tStates == 8
  {
    var f1 := WithFlag(Get8(s, F), HalfCarry, Get16(s, r) % 16 != 0);
    var w := (Get16(s, r) + 0xFFFF) % 0x1_0000;
    var f2 := WithFlag(f1, Zero, w == 0);
    var f3 := WithFlagEnabled(f2, Subtract);
    Timed(Commit16(s, r, w, f3), 8)
  }

  /** `RLC_8bit`: Carry takes bit 7, the register rotates left by one bit
      (`(byte)(old << 1 | old >> 7)`), Zero, Subtract and HalfCarry cleared. */
  function Rlc8(s: Image, r: DataReg): (t: Timed)
    ensures Get8(t.regs, r) == Get8(s, r).RotateLeft(1)
    ensures FlagSet(t.regs, Carry) <==> Get8(s, r) & 0x80 != 0
    ensures FlagSet(t.regs, Carry) <==> Get8(t.regs, r) & 0x01 != 0
    ensures !FlagSet(t.regs, Zero) && !FlagSet(t.regs, Subtract) && !FlagSet(t.regs, HalfCarry)
    ensures SameExcept(s, t.regs, {r, F}) && KeepsLowNibble(s, t.regs)
    ensures t.tStates == 4
  {
    var was := Get8(s, r);
    var f1 := WithFlag(Get8(s, F), Carry, (was & 0x80) >> 7 != 0);
    var v := (was << 1) | (was >> 7);
    var f2 := WithFlagDisabled(f1, Zero);
    var f3 := WithFlagDisabled(f2, Subtract);
    var f4 := WithFlagDisabled(f3, HalfCarry);
    Timed(Commit8(s, r, v, f4), 4)
  }

  /** `RRC_8bit`: Carry takes bit 0, the register rotates right by one bit,
      Zero, Subtract and HalfCarry cleared. */
  function Rrc8(s: Image, r: DataReg): (t: Timed)
    ensures Get8(t.regs, r) == Get8(s, r).RotateRight(1)
    ensures FlagSet(t.regs, Carry) <==> Get8(s, r) & 0x01 != 0
    ensures FlagSet(t.regs, Carry) <==> Get8(t.regs, r) & 0x80 != 0
    ensures !FlagSet(t.regs, Zero) && !FlagSet(t.regs, Subtract) && !FlagSet(t.regs, HalfCarry)
    ensures SameExcept(s, t.regs, {r, F}) && KeepsLowNibble(s, t.regs)
    ensures t.tStates == 4
  {
    var was := Get8(s, r);
    var f1 := WithFlag(Get8(s, F), Carry, was & 0x01 != 0);
    var v := (was >> 1) | (was << 7);
    var f2 := WithFlagDisabled(f1, Zero);
    var f3 := WithFlagDisabled(f2, Subtract);
    var f4 := WithFlagDisabled(f3, HalfCarry);
    Timed(Commit8(s, r, v, f4), 4)
  }

  /** `ADD_16bit`: add with 16-bit wrap, Subtract cleared. HalfCarry tests
      `destination & 0xFFFF0000` on a 16-bit value, so it is always cleared;
      Carry compares the low nibbles of the WRAPPED sum and of `value`.
      Zero is left alone. As for DEC_16bit, AF is never the destination. */
  function Add16(s: Image, r: Reg16, value: UShort): (t: Timed)
    requires r != AF
    ensures Get16(t.regs, r) == (Get16(s, r) + value) % 0x1_0000
    ensures !FlagSet(t.regs, Subtract) && !FlagSet(t.regs, HalfCarry)
    ensures FlagSet(t.regs, Carry) <==> Get16(t.regs, r) % 16 + value % 16 > 15
    ensures FlagSet(t.regs, Zero) == FlagSet(s, Zero)
    ensures forall q: Reg16 :: q != r && q != AF ==> Get16(t.regs, q) == Get16(s, q)
    ensures Get8(t.regs, A) == Get8(s, A) && KeepsLowNibble(s, t.regs)
    ensures t.tStates == 8
  {
    var w := (Get16(s, r) + value) % 0x1_0000;
    var f1 := WithFlagDisabled(Get8(s, F), Subtract);
    // bits 16-31 of a 16-bit value: (destination & 0xFFFF0000) != 0
    var f2 := WithFlag(f1, HalfCarry, w / 0x1_0000 != 0);
    var f3 := WithFlag(f2, Carry, w % 16 + value % 16 > 15);
    Timed(Commit16(s, r, w, f3), 8)
  }

  // ---- The opcode handlers ------------------------------------------------

  datatype Handler =
    | Nop | LdBc | LdBcA | IncBc | IncB | DecB | LdB | RlcA
    | LdNnSp | AddHlBc | LdABc | DecBc | IncC | DecC | LdC | RrcA | Stop

  /** The opcode of each handler's `[Instruction]` attribute. */
  function Opcode(h: Handler): bv8
  {
    match h
    case Nop => 0x00 case LdBc => 0x01 case LdBcA => 0x02 case IncBc => 0x03
    case IncB => 0x04 case DecB => 0x05 case LdB => 0x06 case RlcA => 0x07
    case LdNnSp => 0x08 case AddHlBc => 0x09 case LdABc => 0x0A case DecBc => 0x0B
    case IncC => 0x0C case DecC => 0x0D case LdC => 0x0E case RrcA => 0x0F
    case Stop => 0x10
  }

  /** The length in bytes, opcode included, of each handler's attribute. */
  function Length(h: Handler): ByteCount
  {
    match h
    case LdBc => 3 case LdNnSp => 3
    case LdB => 2 case LdC => 2 case Stop => 2
    case _ => 1
  }

  /** The handler whose attribute carries opcode `op`, if any: what the
      reflection scan over this file's methods finds for that opcode. */
  function Decode(op: bv8): (h: Option<Handler>)
    ensures h.Some? ==> Opcode(h.value) == op
    ensures h.None? <==> op > 0x10
  {
    match op
    case 0x00 => Some(Nop) case 0x01 => Some(LdBc) case 0x02 => Some(LdBcA) case 0x03 => Some(IncBc)
    case 0x04 => Some(IncB) case 0x05 => Some(DecB) case 0x06 => Some(LdB) case 0x07 => Some(RlcA)
    case 0x08 => Some(LdNnSp) case 0x09 => Some(AddHlBc) case 0x0A => Some(LdABc) case 0x0B => Some(DecBc)
    case 0x0C => Some(IncC) case 0x0D => Some(DecC) case 0x0E => Some(LdC) case 0x0F => Some(RrcA)
    case 0x10 => Some(Stop)
    case _ => None
  }

  /** Every handler is found under its own opcode, and no two handlers share
      an opcode. */
  lemma DecodeFindsEveryHandler(h: Handler, g: Handler)
    ensures Decode(Opcode(h)) == Some(h)
    ensures Opcode(h) == Opcode(g) ==> h == g
  {
  }

  /** `MemoryMarshal.Read<ushort>(args)` on a little-endian host. */
  function ReadUShort(args: seq<bv8>): UShort
    requires |args| >= 2
  {
    LittleEndian(args[0], args[1])
  }

  function WithMemory(t: Timed, mem: MemoryBank): Effect
  {
    Effect(t.regs, mem, t.tStates)
  }

  /** Invoking a handler with its operand bytes (the bytes after the opcode). */
  function Execute(h: Handler, s: Image, mem: MemoryBank, args: seq<bv8>): (e: Effect)
    requires |args| >= Length(h) - 1
  {
    match h
    case Nop => Effect(s, mem, 4)
    case LdBc => WithMemory(Load16(s, BC, ReadUShort(args)), mem)
    case LdBcA => Load8Pointer(s, mem, A, Get16(s, BC))
    case IncBc => WithMemory(Inc16(s, BC), mem)
    case IncB => WithMemory(Inc8(s, B), mem)
    case DecB => WithMemory(Dec8(s, B), mem)
    case LdB => WithMemory(Load8(s, B, args[0]), mem)
    case RlcA => WithMemory(Rlc8(s, A), mem)
    case LdNnSp => Effect(s, mem.Store16(ReadUShort(args), Get16(s, SP)), 20)
    case AddHlBc => WithMemory(Add16(s, HL, Get16(s, BC)), mem)
    case LdABc => Load8Pointer(s, mem, A, Get16(s, BC))
    case DecBc => WithMemory(Dec16(s, BC), mem)
    case IncC => WithMemory(Inc8(s, C), mem)
    case DecC => WithMemory(Dec8(s, C), mem)
    case LdC => WithMemory(Load8(s, C, args[0]), mem)
    case RrcA => WithMemory(Rrc8(s, A), mem)
    case Stop => Effect(s, mem, 0)
  }

  // ---- Properties ---------------------------------------------------------

  /** No handler writes SP or PC, and every handler except the two stores
      leaves memory alone. */
  lemma HandlersKeepSpPc(h: Handler, s: Image, mem: MemoryBank, args: seq<bv8>)
    requires |args| >= Length(h) - 1
    ensures Get16(Execute(h, s, mem, args).regs, SP) == Get16(s, SP)
    ensures Get16(Execute(h, s, mem, args).regs, PC) == Get16(s, PC)
    ensures h !in {LdBcA, LdABc, LdNnSp} ==> Execute(h, s, mem, args).memory == mem
  {
  }

  /** STOP (returning 0) is the only handler that costs fewer than 4 T-states. */
  lemma OnlyStopIsFree(h: Handler, s: Image, mem: MemoryBank, args: seq<bv8>)
    requires |args| >= Length(h) - 1
    ensures Execute(h, s, mem, args).tStates < 4 <==> h == Stop
    ensures h == Stop ==> Execute(h, s, mem, args).tStates == 0
  {
  }

  /** The loads touch no flag. */
  lemma LoadsKeepFlags(h: Handler, s: Image, mem: MemoryBank, args: seq<bv8>)
    requires h in {LdBc, LdBcA, LdB, LdNnSp, LdABc, LdC}
    requires |args| >= Length(h) - 1
    ensures Get8(Execute(h, s, mem, args).regs, F) == Get8(s, F)
  {
  }

  /** Opcode 0x01 with operands [lo, hi] leaves B = lo and C = hi: the low
      operand byte lands at the lower offset. */
  lemma LdBcOperandOrder(s: Image, mem: MemoryBank, lo: bv8, hi: bv8)
    ensures Get8(Execute(LdBc, s, mem, [lo, hi]).regs, B) == lo
    ensures Get8(Execute(LdBc, s, mem, [lo, hi]).regs, C) == hi
  {
    WordRoundTrip(0, lo, hi);
  }

  /** Opcodes 0x02 and 0x0A are the same operation: both store A at (BC). */
  lemma BcPointerOpcodesBothStore(s: Image, mem: MemoryBank, args: seq<bv8>)
    ensures Execute(LdBcA, s, mem, args) == Execute(LdABc, s, mem, args)
    ensures Execute(LdABc, s, mem, args).memory.fetchable[Get16(s, BC)] == Get8(s, A)
    ensures Execute(LdABc, s, mem, args).regs == s
  {
  }

  /** `LD (nn), SP` stores SP's low byte at nn and its high byte at nn+1. */
  lemma LdNnSpStoresLittleEndian(s: Image, mem: MemoryBank, lo: bv8, hi: bv8)
    ensures var e := Execute(LdNnSp, s, mem, [lo, hi]);
      var nn := LittleEndian(lo, hi);
      && e.memory.fetchable[nn] == Low(Get16(s, SP))
      && e.memory.fetchable[(nn as int + 1) % 0x1_0000] == High(Get16(s, SP))
      && (forall a: UShort :: a != nn && a != (nn as int + 1) % 0x1_0000 ==> e.memory.fetchable[a] == mem.fetchable[a])
      && e.regs == s && e.tStates == 20
  {
    var nn := LittleEndian(lo, hi);
    var m := mem.Store16(nn, Get16(s, SP));
    assert m.Fetch(nn, 2)[0] == m.fetchable[nn];
    assert m.Fetch(nn, 2)[1] == m.fetchable[(nn as int + 1) % 0x1_0000];
  }

  /** RRC undoes RLC on the register value, and RLC undoes RRC; only F differs. */
  lemma RotationsInverse(s: Image, r: DataReg)
    ensures Get8(Rrc8(Rlc8(s, r).regs, r).regs, r) == Get8(s, r)
    ensures Get8(Rlc8(Rrc8(s, r).regs, r).regs, r) == Get8(s, r)
    ensures SameExcept(s, Rrc8(Rlc8(s, r).regs, r).regs, {F})
  {
  }

  /** Eight RLCs give the register back; F is the only other byte touched. */
  lemma EightRlcRestore(s: Image, r: DataReg)
    ensures var s1 := Rlc8(s, r).regs; var s2 := Rlc8(s1, r).regs; var s3 := Rlc8(s2, r).regs;
      var s4 := Rlc8(s3, r).regs; var s5 := Rlc8(s4, r).regs; var s6 := Rlc8(s5, r).regs;
      var s7 := Rlc8(s6, r).regs; var s8 := Rlc8(s7, r).regs;
      Get8(s8, r) == Get8(s, r) && SameExcept(s, s8, {F})
  {
  }

  /** DEC undoes INC on the register value, and INC undoes DEC; each pair
      changes nothing but F. */
  lemma IncDecInverse(s: Image, r: DataReg)
    ensures Get8(Dec8(Inc8(s, r).regs, r).regs, r) == Get8(s, r)
    ensures Get8(Inc8(Dec8(s, r).regs, r).regs, r) == Get8(s, r)
    ensures SameExcept(s, Dec8(Inc8(s, r).regs, r).regs, {F})
    ensures SameExcept(s, Inc8(Dec8(s, r).regs, r).regs, {F})
  {
    var v := Get8(s, r);
    ByteInjective(Get8(Dec8(Inc8(s, r).regs, r).regs, r), v);
    ByteInjective(Get8(Inc8(Dec8(s, r).regs, r).regs, r), v);
  }

  /** The instruction stream [0x06, 0x05, 0x04] run handler by handler:
      LD B,0x05 then INC B leaves B = 0x06 with Zero and Subtract clear, at
      8 and then 4 T-states. */
  lemma LoadThenIncrementB(s: Image, mem: MemoryBank)
    ensures var e1 := Execute(LdB, s, mem, [0x05]);
      var e2 := Execute(IncB, e1.regs, e1.memory, []);
      && Get8(e2.regs, B) == 0x06 && !FlagSet(e2.regs, Zero) && !FlagSet(e2.regs, Subtract)
      && e1.tStates == 8 && e2.tStates == 4
  {
  }

  /** The same for the 16-bit registers: DEC_16bit undoes INC_16bit and
      INC_16bit undoes DEC_16bit on the register value. */
  lemma Inc16Dec16Inverse(s: Image, r: Reg16)
    requires r != AF
    ensures Get16(Dec16(Inc16(s, r).regs, r).regs, r) == Get16(s, r)
    ensures Get16(Inc16(Dec16(s, r).regs, r).regs, r) == Get16(s, r)
  {
    DecAfterInc(s, r, Inc16(s, r).regs);
    IncAfterDec(s, r, Dec16(s, r).regs);
  }

  lemma DecAfterInc(s: Image, r: Reg16, up: Image)
    requires r != AF
    requires Get16(up, r) == (Get16(s, r) + 1) % 0x1_0000
    ensures Get16(Dec16(up, r).regs, r) == Get16(s, r)
  {
    WordStepsCancel(Get16(s, r));
  }

  lemma IncAfterDec(s: Image, r: Reg16, down: Image)
    requires Get16(down, r) == (Get16(s, r) + 0xFFFF) % 0x1_0000
    ensures Get16(Inc16(down, r).regs, r) == Get16(s, r)
  {
    WordStepsCancel(Get16(s, r));
  }

  /** The half-carry rule as written, against the hardware rule: INC of 0x0F
      gives 0x10 with HalfCarry clear (hardware sets it), INC of 0x00 sets it;
      DEC of 0x10 gives 0x0F with HalfCarry clear (hardware sets it). */
  lemma HalfCarryAsWritten(s: Image)
    ensures Get8(s, B) == 0x0F ==> Get8(Inc8(s, B).regs, B) == 0x10 && !FlagSet(Inc8(s, B).regs, HalfCarry)
    ensures Get8(s, B) == 0x00 ==> FlagSet(Inc8(s, B).regs, HalfCarry)
    ensures Get8(s, B) == 0x10 ==> Get8(Dec8(s, B).regs, B) == 0x0F && !FlagSet(Dec8(s, B).regs, HalfCarry)
    ensures Get8(s, B) == 0xFF ==> Get8(Inc8(s, B).regs, B) == 0x00 && FlagSet(Inc8(s, B).regs, Zero)
  {
  }

  /** The carry rule of ADD as written: opcode 0x09 with HL = 0xFFFF and
      BC = 1 wraps HL to 0 with Carry and HalfCarry both clear, although the
      sum overflowed 16 bits (the hardware sets Carry and HalfCarry here). */
  lemma AddCarryAsWritten(s: Image, mem: MemoryBank, args: seq<bv8>)
    requires Get16(s, HL) == 0xFFFF && Get16(s, BC) == 1
    ensures var t := Execute(AddHlBc, s, mem, args).regs;
      Get16(t, HL) == 0 && !FlagSet(t, Carry) && !FlagSet(t, HalfCarry)
  {
    WordWrapsToZero(Get16(s, HL));
  }

  lemma WordWrapsToZero(x: int)
    requires x == 0xFFFF
    ensures (x + 1) % 0x1_0000 == 0
  {
  }
}
