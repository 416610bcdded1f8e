/** The `GameBoy` class itself: it owns a `Registers` struct, a
    `MemoryBank`, the 256-slot instruction table and the one-byte T-state
    clock, and its helpers update the registers in place through the same
    sequence of field assignments and flag calls as the C# methods. Every
    method is proved to leave exactly the state the value-level definitions
    of modules Instructions, ParamsHandlers and Dispatch describe. */
module Emulator {
  import opened Bytes
  import opened Errors
  import opened FlagRegister
  import opened RegisterFile
  import opened Memory
  import opened Dispatch
  import Span = Instructions
  import Params = ParamsHandlers

  class GameBoy {
    var registers: Registers
    var memory: MemoryBank
    const instructions: array<Option<ResolvedInstruction>>
    var tStateClock: bv8
    /** Which handler file the class is built with. */
    const revision: Revision

    /** The table holds what the constructor put there, slot by slot. */
    ghost predicate Valid()
      reads this, registers, instructions
    {
      && registers.Valid()
      && instructions.Length == 256
      && forall op: bv8 :: instructions[op as int] == Slot(revision, op)
    }

    /** The state the fetch/decode/execute loop works on. */
    function State(): Machine
      reads this, registers, registers.bytes
      requires registers.Valid()
    {
      Machine(registers.Snapshot(), memory, tStateClock)
    }

    /** `new GameBoy(bios)` once `new MemoryBank(bios)` has succeeded: zeroed
        registers and clock, and slots 0x00-0xFE filled by the scan. */
    constructor (bank: MemoryBank, rev: Revision)
      ensures Valid() && fresh(registers) && fresh(registers.bytes)
      ensures State() == Machine(Zeroes(12), bank, 0) && revision == rev
    {
      // the table is built first: nothing in the loop reads the registers
      var table := BuildTable(rev);
      registers := new Registers();
      memory := bank;
      tStateClock := 0;
      revision := rev;
      instructions := table;
    }

    /** The constructor's loop `for (byte i = 0; i < 0xFF; i++)`: slot `i`
        gets the method the scan finds for opcode `i`, or `CreateEmpty(i)`;
        slot 0xFF is never visited and keeps its null. */
    static method BuildTable(rev: Revision) returns (table: array<Option<ResolvedInstruction>>)
      ensures fresh(table) && table.Length == 256
      ensures forall op: bv8 :: table[op as int] == Slot(rev, op)
    {
      table := new Option<ResolvedInstruction>[256](_ => None);
      var k := 0;
      while k < 0xFF
        invariant 0 <= k <= 0xFF
        invariant forall j | 0 <= j < k :: table[j] == Slot(rev, ByteOf(j))
        invariant table[0xFF] == None
      {
        // `ResolveInstruction(i) ?? ResolvedInstruction.CreateEmpty(i)`
        table[k] := Some(Resolve(rev, ByteOf(k)));
        k := k + 1;
      }
      forall op: bv8
        ensures table[op as int] == Slot(rev, op)
      {
        if op == 0xFF {
          assert op as int == 0xFF;
        } else {
          assert op as int < 0xFF;
          assert table[op as int] == Slot(rev, ByteOf(op as int));
          ByteInjective(ByteOf(op as int), op);
        }
      }
    }

    /** The constructor as a whole, BIOS check included: an InvalidBios
        error for a buffer that is not 256 bytes long. */
    static method Create(bios: seq<bv8>, rev: Revision) returns (r: Result<GameBoy>)
      ensures r.Failure? <==> |bios| != BiosSize
      ensures r.Failure? ==> r.error == InvalidBios
      ensures r.Success? ==> r.value.Valid() && r.value.revision == rev
      ensures r.Success? ==> r.value.State().regs == Zeroes(12) && r.value.State().clock == 0
      ensures r.Success? ==> r.value.memory.Valid() && r.value.memory.RegionsZero()
      ensures r.Success? ==> r.value.memory.fetchable == Zeroes(0x1_0000) && fresh(r.value)
    {
      var bank := New(bios);
      if bank.Failure? {
        return Failure(InvalidBios);
      }
      var gameBoy := new GameBoy(bank.value, rev);
      return Success(gameBoy);
    }

    // ---- The reusable helpers, on the registers in place ------------------

    /** `LD_16bit(ref register, value)`. */
    method Load16(r: Reg16, value: UShort) returns (tStates: bv8)
      requires registers.Valid()
      modifies registers.bytes
      ensures Span.Timed(registers.Snapshot(), tStates) == Span.Load16(old(registers.Snapshot()), r, value)
    {
      registers.Assign16(r, value);
      return 12;
    }

    /** `LD_8bit(ref register, value)`. */
    method Load8(r: DataReg, value: bv8) returns (tStates: bv8)
      requires registers.Valid()
      modifies registers.bytes
      ensures Span.Timed(registers.Snapshot(), tStates) == Span.Load8(old(registers.Snapshot()), r, value)
    {
      registers.Assign8(r, value);
      return 8;
    }

    /** `LD_8bit_pointer(ref register, pointer)`: a store through the
        assumed `FetchMemory` view. */
    method Load8Pointer(r: DataReg, pointer: UShort) returns (tStates: bv8)
      requires registers.Valid()
      modifies this
      ensures registers == old(registers) && registers.Snapshot() == old(registers.Snapshot())
      ensures tStateClock == old(tStateClock)
      ensures Span.Effect(registers.Snapshot(), memory, tStates) ==
        Span.Load8Pointer(old(registers.Snapshot()), old(memory), r, pointer)
    {
      memory := memory.Store8(pointer, registers.Read8(r));
      return 8;
    }

    /** `INC_8bit(ref register)`. */
    method Inc8(r: DataReg) returns (tStates: bv8)
      requires registers.Valid()
      modifies registers.bytes
      ensures Span.Timed(registers.Snapshot(), tStates) == Span.Inc8(old(registers.Snapshot()), r)
    {
      ghost var s0 := registers.Snapshot();
      registers.SetFlagConditional(HalfCarry, registers.Read8(r) & 0x0F != 0x0F);
      ghost var s1 := registers.Snapshot();
      registers.Assign8(r, registers.Read8(r) + 1);
      ghost var s2 := registers.Snapshot();
      registers.SetFlagConditional(Zero, registers.Read8(r) == 0);
      ghost var s3 := registers.Snapshot();
      registers.DisableFlag(Subtract);
      InPlaceInc8(s0, s1, s2, s3, registers.Snapshot(), r);
      return 4;
    }

    /** `INC_16bit(ref register)`: `ushort` increment. */
    method Inc16(r: Reg16) returns (tStates: bv8)
      requires registers.Valid()
      modifies registers.bytes
      ensures Span.Timed(registers.Snapshot(), tStates) == Span.Inc16(old(registers.Snapshot()), r)
    {
      registers.Assign16(r, (registers.Read16(r) + 1) % 0x1_0000);
      return 8;
    }

    /** `DEC_8bit(ref register)`. */
    method Dec8(r: DataReg) returns (tStates: bv8)
      requires registers.Valid()
      modifies registers.bytes
      ensures Span.Timed(registers.Snapshot(), tStates) == Span.Dec8(old(registers.Snapshot()), r)
    {
      ghost var s0 := registers.Snapshot();
      registers.SetFlagConditional(HalfCarry, registers.Read8(r) & 0x0F == 0x0F);
      ghost var s1 := registers.Snapshot();
      registers.Assign8(r, registers.Read8(r) - 1);
      ghost var s2 := registers.Snapshot();
      registers.SetFlagConditional(Zero, registers.Read8(r) == 0);
      ghost var s3 := registers.Snapshot();
      registers.EnableFlag(Subtract);
      InPlaceDec8(s0, s1, s2, s3, registers.Snapshot(), r);
      return 4;
    }

    /** `DEC_16bit(ref register)`. */
    method Dec16(r: Reg16) returns (tStates: bv8)
      requires registers.Valid() && r != AF
      modifies registers.bytes
      ensures Span.Timed(registers.Snapshot(), tStates) == Span.Dec16(old(registers.Snapshot()), r)
    {
      ghost var s0 := registers.Snapshot();
      var half := registers.Read16(r) % 16 != 0;
      registers.SetFlagConditional(HalfCarry, half);
      ghost var s1 := registers.Snapshot();
      var w := (registers.Read16(r) + 0xFFFF) % 0x1_0000;
      registers.Assign16(r, w);
      ghost var s2 := registers.Snapshot();
      var zero := registers.Read16(r) == 0;
      registers.SetFlagConditional(Zero, zero);
      ghost var s3 := registers.Snapshot();
      registers.EnableFlag(Subtract);
      InPlaceDec16(s0, s1, s2, s3, registers.Snapshot(), r, half, w, zero);
      return 8;
    }

    /** `RLC_8bit(ref register)`. */
    method Rlc8(r: DataReg) returns (tStates: bv8)
      requires registers.Valid()
      modifies registers.bytes
      ensures Span.Timed(registers.Snapshot(), tStates) == Span.Rlc8(old(registers.Snapshot()), r)
    {
      ghost var s0 := registers.Snapshot();
      registers.SetFlagConditional(Carry, (registers.Read8(r) & 0x80) >> 7 != 0);
      ghost var s1 := registers.Snapshot();
      var was := registers.Read8(r);
      registers.Assign8(r, (was << 1) | (was >> 7));
      ghost var s2 := registers.Snapshot();
      registers.DisableFlag(Zero);
      ghost var s3 := registers.Snapshot();
      registers.DisableFlag(Subtract);
      ghost var s4 := registers.Snapshot();
      registers.DisableFlag(HalfCarry);
      InPlaceRlc8(s0, s1, s2, s3, s4, registers.Snapshot(), r);
      return 4;
    }

    /** `RRC_8bit(ref register)`. */
    method Rrc8(r: DataReg) returns (tStates: bv8)
      requires registers.Valid()
      modifies registers.bytes
      ensures Span.Timed(registers.Snapshot(), tStates) == Span.Rrc8(old(registers.Snapshot()), r)
    {
      ghost var s0 := registers.Snapshot();
      registers.SetFlagConditional(Carry, registers.Read8(r) & 0x01 != 0);
      ghost var s1 := registers.Snapshot();
      var was := registers.Read8(r);
      registers.Assign8(r, (was >> 1) | (was << 7));
      ghost var s2 := registers.Snapshot();
      registers.DisableFlag(Zero);
      ghost var s3 := registers.Snapshot();
      registers.DisableFlag(Subtract);
      ghost var s4 := registers.Snapshot();
      registers.DisableFlag(HalfCarry);
      InPlaceRrc8(s0, s1, s2, s3, s4, registers.Snapshot(), r);
      return 4;
    }

    /** `ADD_16bit(ref destination, value)`. */
    method Add16(r: Reg16, value: UShort) returns (tStates: bv8)
      requires registers.Valid() && r != AF
      modifies registers.bytes
      ensures Span.Timed(registers.Snapshot(), tStates) == Span.Add16(old(registers.Snapshot()), r, value)
    {
      ghost var s0 := registers.Snapshot();
      // `destination += value`; the flag writes below do not reach `destination`
      var sum := (registers.Read16(r) + value) % 0x1_0000;
      registers.Assign16(r, sum);
      ghost var s1 := registers.Snapshot();
      registers.DisableFlag(Subtract);
      ghost var s2 := registers.Snapshot();
      registers.SetFlagConditional(HalfCarry, sum / 0x1_0000 != 0);
      ghost var s3 := registers.Snapshot();
      registers.SetFlagConditional(Carry, sum % 16 + value % 16 > 15);
      InPlaceAdd16(s0, s1, s2, s3, registers.Snapshot(), r, value, sum);
      return 8;
    }

    // ---- The opcode handlers ----------------------------------------------

    /** The span-based handler `h` of opcodes 0x00-0x10, called with its
        operand bytes: each one hands a register (or the address in BC) to
        a helper above, or writes memory itself. */
    method ExecuteSpan(h: Span.Handler, args: seq<bv8>) returns (tStates: bv8)
      requires registers.Valid() && |args| >= Span.Length(h) - 1
      modifies this, registers.bytes
      ensures registers == old(registers) && tStateClock == old(tStateClock)
      ensures Span.Effect(registers.Snapshot(), memory, tStates) ==
        Span.Execute(h, old(registers.Snapshot()), old(memory), args)
    {
      match h {
        case Nop => tStates := 4;
        case LdBc => tStates := Load16(BC, Span.ReadUShort(args));
        case LdBcA => tStates := Load8Pointer(A, registers.Read16(BC));
        case IncBc => tStates := Inc16(BC);
        case IncB => tStates := Inc8(B);
        case DecB => tStates := Dec8(B);
        case LdB => tStates := Load8(B, args[0]);
        case RlcA => tStates := Rlc8(A);
        case LdNnSp =>
          memory := memory.Store16(Span.ReadUShort(args), registers.Read16(SP));
          tStates := 20;
        case AddHlBc => tStates := Add16(HL, registers.Read16(BC));
        case LdABc => tStates := Load8Pointer(A, registers.Read16(BC));
        case DecBc => tStates := Dec16(BC);
        case IncC => tStates := Inc8(C);
        case DecC => tStates := Dec8(C);
        case LdC => tStates := Load8(C, args[0]);
        case RrcA => tStates := Rrc8(A);
        case Stop => tStates := 0;
      }
    }

    /** `INC_B` of the `params byte[]` handler set. */
    method ParamsIncB() returns (tStates: bv8)
      requires registers.Valid()
      modifies registers.bytes
      ensures Span.Timed(registers.Snapshot(), tStates) == Params.IncB8(old(registers.Snapshot()))
    {
      ghost var s0 := registers.Snapshot();
      registers.Assign8(B, registers.Read8(B) + 1);
      ghost var s1 := registers.Snapshot();
      registers.SetFlagConditional(Zero, registers.Read8(B) == 0);
      ghost var s2 := registers.Snapshot();
      registers.SetFlagConditional(HalfCarry, registers.Read8(B) == 0);
      ghost var s3 := registers.Snapshot();
      registers.DisableFlag(Subtract);
      InPlaceParamsIncB(s0, s1, s2, s3, registers.Snapshot());
      return 4;
    }

    /** `DEC_B` of the `params byte[]` handler set. */
    method ParamsDecB() returns (tStates: bv8)
      requires registers.Valid()
      modifies registers.bytes
      ensures Span.Timed(registers.Snapshot(), tStates) == Params.DecB8(old(registers.Snapshot()))
    {
      ghost var s0 := registers.Snapshot();
      registers.Assign8(B, registers.Read8(B) - 1);
      ghost var s1 := registers.Snapshot();
      registers.SetFlagConditional(Zero, registers.Read8(B) == 0);
      ghost var s2 := registers.Snapshot();
      registers.SetFlagConditional(HalfCarry, registers.Read8(B) == 0);
      ghost var s3 := registers.Snapshot();
      registers.EnableFlag(Subtract);
      InPlaceParamsDecB(s0, s1, s2, s3, registers.Snapshot());
      return 4;
    }

    /** The `params byte[]` handler `h` of opcodes 0x00-0x06, written out as
        the class declares them: they assign the registers directly and go
        through `MemoryBank`'s reads and writes. */
    method ExecuteParams(h: Params.Handler, args: seq<bv8>) returns (tStates: bv8)
      requires registers.Valid() && |args| >= Params.Length(h) - 1
      modifies this, registers.bytes
      ensures registers == old(registers) && tStateClock == old(tStateClock)
      ensures Span.Effect(registers.Snapshot(), memory, tStates) ==
        Params.Execute(h, old(registers.Snapshot()), old(memory), args)
    {
      match h {
        case Nop => tStates := 4;
        case LdBc =>
          // `registers.BC = memory.ReadShort(...)`: the same write as LD_16bit
          tStates := Load16(BC, memory.ReadShort(Params.ToUInt16(args)) as int);
        case LdABc =>
          memory := memory.WriteByte(registers.Read16(BC), registers.Read8(A));
          tStates := 8;
        case IncBc =>
          // `registers.BC++`: the same update as INC_16bit
          tStates := Inc16(BC);
        case IncB => tStates := ParamsIncB();
        case DecB => tStates := ParamsDecB();
        case LdB =>
          // `registers.B = memory.ReadByte(args[0])`: the same write as LD_8bit
          tStates := Load8(B, memory.ReadByte(args[0] as int));
      }
    }

    // ---- Invocation, the main loop and reset ------------------------------

    /** `ResolvedInstruction.Invoke(ref tStateClock, args)`: the slot's
        delegate runs and its return value lands in the clock; the delegate
        of an empty slot throws instead, and nothing changes. */
    method Invoke(ri: ResolvedInstruction, args: seq<bv8>) returns (fault: Option<Error>)
      requires Valid() && Consistent(ri) && |args| == ri.attribute.length - 1
      modifies this, registers.bytes
      ensures Valid() && registers == old(registers)
      ensures Outcome(State(), fault) == AfterInvoke(ri, old(State()), args)
    {
      match ri.instruction {
        case SpanHandler(h) =>
          tStateClock := ExecuteSpan(h, args);
          fault := None;
        case ParamsHandler(p) =>
          tStateClock := ExecuteParams(p, args);
          fault := None;
        case Empty(value) =>
          fault := Some(UnknownInstruction(value));
      }
    }

    /** The inner loop of a pass: `n` bytes read at PC, PC moving on by
        one after each. */
    method FetchOperands(n: ByteCount) returns (operands: seq<bv8>)
      requires registers.Valid()
      modifies registers.bytes
      ensures operands == Operands(memory, old(registers.Read16(PC)), n)
      ensures registers.Snapshot() == Set16(old(registers.Snapshot()), PC, WrapAdd(old(registers.Read16(PC)), n))
    {
      ghost var s0 := registers.Snapshot();
      ghost var pc0 := registers.Read16(PC);
      KeepingPcChangesNothing(s0);
      operands := [];
      while |operands| < n
        invariant |operands| <= n
        invariant registers.Snapshot() == Set16(s0, PC, WrapAdd(pc0, |operands|))
        invariant operands == Operands(memory, pc0, |operands|)
        decreases n - |operands|
      {
        ghost var before := registers.Snapshot();
        OperandsGrow(memory, pc0, |operands|);
        operands := operands + [memory.ReadByte(registers.Read16(PC))];
        registers.Assign16(PC, WrapAdd(registers.Read16(PC), 1));
        OperandFetched(s0, pc0, |operands| - 1, before, registers.Snapshot());
      }
    }

    /** One pass of `Start`'s loop: fetch the opcode at PC and move PC on,
        look the opcode up (slot 0xFF is null), fetch `Length - 1` operand
        bytes moving PC past each, and invoke the slot. */
    method Step() returns (fault: Option<Error>)
      requires Valid()
      modifies this, registers.bytes
      ensures Valid() && registers == old(registers)
      ensures Outcome(State(), fault) == Dispatch.Step(revision, old(State()))
    {
      var opcode := memory.ReadByte(registers.Read16(PC));
      registers.Assign16(PC, WrapAdd(registers.Read16(PC), 1));
      assert instructions[opcode as int] == Slot(revision, opcode);
      match instructions[opcode as int] {
        case None =>
          // `instruction.Attribute` on the null slot
          fault := Some(MissingSlot(opcode));
        case Some(instruction) =>
          var args := FetchOperands(instruction.attribute.length - 1);
          fault := Invoke(instruction, args);
      }
    }

    /** `Start()`: the `while(true)` loop, run for at most `fuel` passes; it
        ends early with the exception of the first pass that throws. */
    method Start(fuel: nat) returns (fault: Option<Error>)
      requires Valid()
      modifies this, registers.bytes
      ensures Valid() && registers == old(registers)
      ensures Outcome(State(), fault) == Dispatch.Run(revision, old(State()), fuel)
    {
      var left := fuel;
      ghost var done := 0;
      fault := None;
      while left > 0
        invariant Valid() && registers == old(registers) && fault.None?
        invariant done + left == fuel
        invariant Dispatch.Run(revision, old(State()), done) == Outcome(State(), None)
        decreases left
      {
        fault := Step();
        RunOneMore(revision, old(State()), done);
        done := done + 1;
        if fault.Some? {
          RunStopsAtFault(revision, old(State()), done, fuel);
          return;
        }
        left := left - 1;
      }
    }

    /** `Reset()`: new, zeroed registers and a zero clock; memory and the
        table stay. */
    method Reset()
      requires Valid()
      modifies this
      ensures Valid() && fresh(registers) && fresh(registers.bytes)
      ensures State() == Dispatch.Reset(old(State()))
    {
      registers := new Registers();
      tStateClock := 0;
    }
  }

  // ---- The in-place update sequences agree with the value-level helpers ----

  lemma InPlaceInc8(s0: Image, s1: Image, s2: Image, s3: Image, s4: Image, r: DataReg)
    requires s1 == Set8(s0, F, WithFlag(Get8(s0, F), HalfCarry, Get8(s0, r) & 0x0F != 0x0F))
    requires s2 == Set8(s1, r, Get8(s1, r) + 1)
    requires s3 == Set8(s2, F, WithFlag(Get8(s2, F), Zero, Get8(s2, r) == 0))
    requires s4 == Set8(s3, F, WithFlagDisabled(Get8(s3, F), Subtract))
    ensures Span.Inc8(s0, r) == Span.Timed(s4, 4)
  {
    var v := Get8(s0, r) + 1;
    var f1 := WithFlag(Get8(s0, F), HalfCarry, Get8(s0, r) & 0x0F != 0x0F);
    var f2 := WithFlag(f1, Zero, v == 0);
    var f3 := WithFlagDisabled(f2, Subtract);
    calc {
      s4;
      Set8(Set8(Set8(Set8(s0, F, f1), r, v), F, f2), F, f3);
      { Set8Overwrites(Set8(Set8(s0, F, f1), r, v), F, f2, f3); }
      Set8(Set8(Set8(s0, F, f1), r, v), F, f3);
      { Set8Commutes(s0, F, f1, r, v); }
      Set8(Set8(Set8(s0, r, v), F, f1), F, f3);
      { Set8Overwrites(Set8(s0, r, v), F, f1, f3); }
      Span.Commit8(s0, r, v, f3);
    }
  }

  lemma InPlaceDec8(s0: Image, s1: Image, s2: Image, s3: Image, s4: Image, r: DataReg)
    requires s1 == Set8(s0, F, WithFlag(Get8(s0, F), HalfCarry, Get8(s0, r) & 0x0F == 0x0F))
    requires s2 == Set8(s1, r, Get8(s1, r) - 1)
    requires s3 == Set8(s2, F, WithFlag(Get8(s2, F), Zero, Get8(s2, r) == 0))
    requires s4 == Set8(s3, F, WithFlagEnabled(Get8(s3, F), Subtract))
    ensures Span.Dec8(s0, r) == Span.Timed(s4, 4)
  {
    var v := Get8(s0, r) - 1;
    var f1 := WithFlag(Get8(s0, F), HalfCarry, Get8(s0, r) & 0x0F == 0x0F);
    var f2 := WithFlag(f1, Zero, v == 0);
    var f3 := WithFlagEnabled(f2, Subtract);
    calc {
      s4;
      Set8(Set8(Set8(Set8(s0, F, f1), r, v), F, f2), F, f3);
      { Set8Overwrites(Set8(Set8(s0, F, f1), r, v), F, f2, f3); }
      Set8(Set8(Set8(s0, F, f1), r, v), F, f3);
      { Set8Commutes(s0, F, f1, r, v); }
      Set8(Set8(Set8(s0, r, v), F, f1), F, f3);
      { Set8Overwrites(Set8(s0, r, v), F, f1, f3); }
      Span.Commit8(s0, r, v, f3);
    }
  }

  lemma InPlaceDec16(s0: Image, s1: Image, s2: Image, s3: Image, s4: Image, r: Reg16, half: bool, w: UShort, zero: bool)
    requires r != AF
    requires half == (Get16(s0, r) % 16 != 0) && s1 == Set8(s0, F, WithFlag(Get8(s0, F), HalfCarry, half))
    requires w == (Get16(s1, r) + 0xFFFF) % 0x1_0000 && s2 == Set16(s1, r, w)
    requires zero == (Get16(s2, r) == 0) && s3 == Set8(s2, F, WithFlag(Get8(s2, F), Zero, zero))
    requires s4 == Set8(s3, F, WithFlagEnabled(Get8(s3, F), Subtract))
    ensures Span.Dec16(s0, r) == Span.Timed(s4, 8)
  {
    var f1 := WithFlag(Get8(s0, F), HalfCarry, half);
    FlagWriteKeepsWord(s0, f1, r);
    assert w == (Get16(s0, r) + 0xFFFF) % 0x1_0000;
    assert zero == (w == 0);
    var f2 := WithFlag(f1, Zero, zero);
    var f3 := WithFlagEnabled(f2, Subtract);
    Dec16Writes(s0, s1, s2, s3, s4, r, w, f1, f2, f3);
    WordBetweenFlags(s0, r, w, f1, f2, f3);
  }

  /** The four writes DEC_16bit makes, one by one. */
  lemma Dec16Writes(s0: Image, s1: Image, s2: Image, s3: Image, s4: Image, r: Reg16, w: UShort, f1: bv8, f2: bv8, f3: bv8)
    requires r != AF
    requires s1 == Set8(s0, F, f1) && s2 == Set16(s1, r, w)
    requires s3 == Set8(s2, F, f2) && s4 == Set8(s3, F, f3)
    ensures s4 == Set8(Set8(Set16(Set8(s0, F, f1), r, w), F, f2), F, f3)
  {
  }

  /** A flag write, a write to a 16-bit view other than AF and two more flag
      writes leave the view and the last flag byte. */
  lemma WordBetweenFlags(s0: Image, r: Reg16, w: UShort, f1: bv8, f2: bv8, f3: bv8)
    requires r != AF
    ensures Set8(Set8(Set16(Set8(s0, F, f1), r, w), F, f2), F, f3) == Span.Commit16(s0, r, w, f3)
  {
    Set8Overwrites(Set16(Set8(s0, F, f1), r, w), F, f2, f3);
    Set16CommutesWithF(s0, r, w, f1);
    Set8Overwrites(Set16(s0, r, w), F, f1, f3);
  }

  lemma InPlaceRlc8(s0: Image, s1: Image, s2: Image, s3: Image, s4: Image, s5: Image, r: DataReg)
    requires s1 == Set8(s0, F, WithFlag(Get8(s0, F), Carry, (Get8(s0, r) & 0x80) >> 7 != 0))
    requires s2 == Set8(s1, r, (Get8(s1, r) << 1) | (Get8(s1, r) >> 7))
    requires s3 == Set8(s2, F, WithFlagDisabled(Get8(s2, F), Zero))
    requires s4 == Set8(s3, F, WithFlagDisabled(Get8(s3, F), Subtract))
    requires s5 == Set8(s4, F, WithFlagDisabled(Get8(s4, F), HalfCarry))
    ensures Span.Rlc8(s0, r) == Span.Timed(s5, 4)
  {
    var was := Get8(s0, r);
    var v := (was << 1) | (was >> 7);
    var f1 := WithFlag(Get8(s0, F), Carry, (was & 0x80) >> 7 != 0);
    var f2 := WithFlagDisabled(f1, Zero);
    var f3 := WithFlagDisabled(f2, Subtract);
    var f4 := WithFlagDisabled(f3, HalfCarry);
    FlagsAfterByte(s0, r, v, f1, f2, f3, f4);
  }

  lemma InPlaceRrc8(s0: Image, s1: Image, s2: Image, s3: Image, s4: Image, s5: Image, r: DataReg)
    requires s1 == Set8(s0, F, WithFlag(Get8(s0, F), Carry, Get8(s0, r) & 0x01 != 0))
    requires s2 == Set8(s1, r, (Get8(s1, r) >> 1) | (Get8(s1, r) << 7))
    requires s3 == Set8(s2, F, WithFlagDisabled(Get8(s2, F), Zero))
    requires s4 == Set8(s3, F, WithFlagDisabled(Get8(s3, F), Subtract))
    requires s5 == Set8(s4, F, WithFlagDisabled(Get8(s4, F), HalfCarry))
    ensures Span.Rrc8(s0, r) == Span.Timed(s5, 4)
  {
    var was := Get8(s0, r);
    var v := (was >> 1) | (was << 7);
    var f1 := WithFlag(Get8(s0, F), Carry, was & 0x01 != 0);
    var f2 := WithFlagDisabled(f1, Zero);
    var f3 := WithFlagDisabled(f2, Subtract);
    var f4 := WithFlagDisabled(f3, HalfCarry);
    FlagsAfterByte(s0, r, v, f1, f2, f3, f4);
  }

  /** A flag write, a write to `r` and three more flag writes leave `r` and
      the last flag byte. */
  lemma FlagsAfterByte(s0: Image, r: DataReg, v: bv8, f1: bv8, f2: bv8, f3: bv8, f4: bv8)
    ensures Set8(Set8(Set8(Set8(Set8(s0, F, f1), r, v), F, f2), F, f3), F, f4) == Span.Commit8(s0, r, v, f4)
  {
    var x := Set8(Set8(s0, F, f1), r, v);
    Set8Overwrites(x, F, f2, f3);
    Set8Overwrites(x, F, f3, f4);
    Set8Commutes(s0, F, f1, r, v);
    Set8Overwrites(Set8(s0, r, v), F, f1, f4);
  }

  lemma InPlaceAdd16(s0: Image, s1: Image, s2: Image, s3: Image, s4: Image, r: Reg16, value: UShort, sum: UShort)
    requires r != AF && sum == (Get16(s0, r) + value) % 0x1_0000
    requires s1 == Set16(s0, r, sum)
    requires s2 == Set8(s1, F, WithFlagDisabled(Get8(s1, F), Subtract))
    requires s3 == Set8(s2, F, WithFlag(Get8(s2, F), HalfCarry, sum / 0x1_0000 != 0))
    requires s4 == Set8(s3, F, WithFlag(Get8(s3, F), Carry, sum % 16 + value % 16 > 15))
    ensures Span.Add16(s0, r, value) == Span.Timed(s4, 8)
  {
    var f1 := WithFlagDisabled(Get8(s0, F), Subtract);
    var f2 := WithFlag(f1, HalfCarry, sum / 0x1_0000 != 0);
    var f3 := WithFlag(f2, Carry, sum % 16 + value % 16 > 15);
    WordWriteKeepsFlags(s0, r, sum);
    Set8Overwrites(s1, F, f1, f2);
    Set8Overwrites(s1, F, f2, f3);
  }

  lemma InPlaceParamsIncB(s0: Image, s1: Image, s2: Image, s3: Image, s4: Image)
    requires s1 == Set8(s0, B, Get8(s0, B) + 1)
    requires s2 == Set8(s1, F, WithFlag(Get8(s1, F), Zero, Get8(s1, B) == 0))
    requires s3 == Set8(s2, F, WithFlag(Get8(s2, F), HalfCarry, Get8(s2, B) == 0))
    requires s4 == Set8(s3, F, WithFlagDisabled(Get8(s3, F), Subtract))
    ensures Params.IncB8(s0) == Span.Timed(s4, 4)
  {
    var v := Get8(s0, B) + 1;
    var f1 := WithFlag(Get8(s0, F), Zero, v == 0);
    var f2 := WithFlag(f1, HalfCarry, v == 0);
    var f3 := WithFlagDisabled(f2, Subtract);
    Set8Overwrites(s1, F, f1, f2);
    Set8Overwrites(s1, F, f2, f3);
  }

  lemma InPlaceParamsDecB(s0: Image, s1: Image, s2: Image, s3: Image, s4: Image)
    requires s1 == Set8(s0, B, Get8(s0, B) - 1)
    requires s2 == Set8(s1, F, WithFlag(Get8(s1, F), Zero, Get8(s1, B) == 0))
    requires s3 == Set8(s2, F, WithFlag(Get8(s2, F), HalfCarry, Get8(s2, B) == 0))
    requires s4 == Set8(s3, F, WithFlagEnabled(Get8(s3, F), Subtract))
    ensures Params.DecB8(s0) == Span.Timed(s4, 4)
  {
    var v := Get8(s0, B) - 1;
    var f1 := WithFlag(Get8(s0, F), Zero, v == 0);
    var f2 := WithFlag(f1, HalfCarry, v == 0);
    var f3 := WithFlagEnabled(f2, Subtract);
    Set8Overwrites(s1, F, f1, f2);
    Set8Overwrites(s1, F, f2, f3);
  }

  lemma OperandsGrow(mem: MemoryBank, pc: UShort, k: ByteCount)
    requires k < 0xFF
    ensures Operands(mem, pc, k + 1) == Operands(mem, pc, k) + [mem.ReadByte(WrapAdd(pc, k))]
  {
  }

  /** One turn of the operand loop moves PC on by one more byte. */
  lemma OperandFetched(s0: Image, pc0: UShort, i: nat, before: Image, after: Image)
    requires i < 0xFF && before == Set16(s0, PC, WrapAdd(pc0, i))
    requires after == Set16(before, PC, WrapAdd(Get16(before, PC), 1))
    ensures Get16(before, PC) == WrapAdd(pc0, i) && after == Set16(s0, PC, WrapAdd(pc0, i + 1))
  {
    var pc := WrapAdd(pc0, i);
    assert Get16(before, PC) == pc;
    WrapAddAssociates(pc0, i);
    PcOverwritten(s0, pc, WrapAdd(pc, 1));
  }
}
