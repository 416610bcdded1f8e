# ShameBoy CPU core in Dafny

A verified model of the CPU core of ShameBoy, a small Game Boy (Sharp
LR35902) emulator written in C#. It covers five pieces:

- the register file (`Registers`): an explicit-layout struct of twelve bytes
  in which the 8-bit registers A, F, B, C, D, E, H and L overlap the 16-bit
  pairs AF, BC, DE and HL, with SP at offset 8 and PC at offset 10;
- the four flag bits (`FlagRegister`) and the flag mutators
  `SetFlagConditional`, `EnableFlag` and `DisableFlag`;
- the memory bank (`MemoryBank`), which as written allocates eight fixed
  regions and then reads 0 everywhere and ignores writes;
- the opcode handlers 0x00-0x10 and their reusable helpers (`LD_16bit`,
  `LD_8bit`, `LD_8bit_pointer`, `INC_8bit`, `INC_16bit`, `DEC_8bit`,
  `DEC_16bit`, `RLC_8bit`, `RRC_8bit`, `ADD_16bit`);
- the `GameBoy` class: the 256-slot instruction table its constructor fills,
  one pass of the fetch/decode/execute loop of `Start`, a fuel-bounded run of
  that loop, and `Reset`.

Files:

| file | module | contents |
|---|---|---|
| common.dfy | `Errors`, `Bytes` | error values, `Option`/`Result`, byte and little-endian word helpers |
| flag_register.dfy | `FlagRegister` | the four flag bits and their disjointness |
| registers.dfy | `RegisterFile` | the 12-byte image, the 8-bit and 16-bit views, the flag mutators, and the `Registers` class that updates the bytes in place |
| memory_bank.dfy | `Memory` | the stub `MemoryBank` and the assumed `FetchMemory` store |
| instructions.dfy | `Instructions` | the span-based handlers and helpers as functions on the register image |
| params_handlers.dfy | `ParamsHandlers` | the older `params byte[]` handlers for opcodes 0x00-0x06 |
| dispatch.dfy | `Dispatch` | the instruction table, `Invoke`, one `Step`, `Run` and `Reset` as functions on a machine value |
| gameboy.dfy | `Emulator` | the `GameBoy` class: table-filling loop, helpers that mutate the registers in place, `Step`, `Start` and `Reset`, each proved equal to the functions above |

Modelling decisions:

- **The bytes are the source of truth.** The register file is a sequence of
  twelve bytes. Every 8-bit and 16-bit view is read from it, so the views
  cannot drift apart. The host is little-endian. So the register at the lower
  offset is the LOW byte of its pair: B is the low byte of BC, and F is the
  high byte of AF. This is the reverse of the hardware's naming; the model
  follows the code.
- **Two handler revisions.** `GameBoy.cs` declares a non-partial `GameBoy`
  class with `params byte[]` handlers for 0x00-0x06. `GameBoy.Instructions.cs`
  declares a partial `GameBoy` class with `Span<byte>` handlers for 0x00-0x10.
  The two cannot be compiled together. Handler semantics come from
  `GameBoy.Instructions.cs`. The table, step and reset come from
  `GameBoy.cs`. The `params` handlers are kept as a second handler set, and
  the `GameBoy` object takes a `Revision` that says which set the reflection
  scan finds.
- **The code wins over the hardware.** Where the two differ, the model does
  what the code does. INC sets HalfCarry when the old low nibble is NOT 0xF.
  DEC sets it when the old low nibble IS 0xF. The hardware reference sets it
  for INC when the old low nibble IS 0xF (a carry out of bit 3), so the INC
  test is inverted; for DEC the hardware tests for an old low nibble of 0x0
  (a borrow into bit 4), so the DEC test looks at the wrong nibble value. `ADD_16bit` always clears HalfCarry, because it masks a
  16-bit value with 0xFFFF0000. It computes Carry from the already wrapped
  sum. Opcode 0x0A ("LD A, (BC)") calls the same helper as 0x02, so it STORES
  A at (BC). The lemmas `Instructions.HalfCarryAsWritten`,
  `Instructions.AddCarryAsWritten` and `Instructions.BcPointerOpcodesBothStore`
  show each of these on concrete values.
- **Slot 0xFF stays empty.** The constructor's loop runs while `i < 0xFF`,
  so slot 0xFF is never filled. Fetching 0xFF reads a null slot. In C# that
  is a `NullReferenceException`; here it is the error `MissingSlot(0xFF)`.
- **Errors are values.** `InvalidBios`, `UnknownInstruction(opcode)` and
  `MissingSlot(opcode)` replace the exceptions.
- **`FetchMemory` is an assumption.** The handlers call
  `memory.FetchMemory(address, length)`, which `MemoryBank` does not define.
  The model assumes it returns a writable view of consecutive bytes of a
  flat 65536-byte store, wrapping from 0xFFFF to 0x0000. A 16-bit value
  written through it lands little-endian: low byte at `address`, high byte
  at `address + 1`. `ReadByte` still returns 0, as written: nothing reads
  that store back.
- **`FlagRegister.AddSub`** is named by the `params` handlers but is not
  declared in `FlagRegister.cs`. The model takes it to be Subtract (0x40).
- **The clock is overwritten.** `Invoke` stores the handler's return value in
  the one-byte T-state clock. It does not add to it.
- **`Start` never stops.** Its `while (true)` loop is modelled as `Run`, at
  most `fuel` passes that end early at the first error. STOP returns 0, but
  nothing checks that value, so STOP does not halt the loop.

## Model

| member | source | states |
|---|---|---|
| `FlagRegister.FlagIsSingleBit` | ShameBoy/ShameBoy/FlagRegister.cs:15-36 | each of Zero = 0x80, Subtract = 0x40, HalfCarry = 0x20 and Carry = 0x10 has exactly one bit set |
| `FlagRegister.FlagsDisjoint` | ShameBoy/ShameBoy/FlagRegister.cs:15-36 | two flags share a bit if and only if they are the same flag |
| `FlagRegister.FlagsFillHighNibble` | ShameBoy/ShameBoy/FlagRegister.cs:15-36 | the union of the four flags is 0xF0; no flag lies in the low nibble |
| `FlagRegister.ComplementKeepsOthers` | ShameBoy/ShameBoy/FlagRegister.cs:15-36 | `~f` as a byte keeps the whole low nibble and every other flag, and clears `f` |
| `FlagRegister.Bits` | ShameBoy/ShameBoy/FlagRegister.cs:15-36 | the flag masks Zero = 0x80, Subtract = 0x40, HalfCarry = 0x20, Carry = 0x10; no contract of its own, its properties are `FlagIsSingleBit`, `FlagsDisjoint` and `FlagsFillHighNibble` |
| `RegisterFile.PairOf` | ShameBoy/ShameBoy/Registers.cs:16-83 | every 8-bit register is one of the two halves of exactly the pair it overlaps |
| `RegisterFile.Get8` | ShameBoy/ShameBoy/Registers.cs:16-83 | reading an 8-bit field is the byte at its offset in the explicit layout; no contract of its own, `PairView` and `WordBytes` relate it to the 16-bit views |
| `RegisterFile.Get16` | ShameBoy/ShameBoy/Registers.cs:16-95 | reading a 16-bit field composes its two bytes little-endian; no contract of its own, `PairView` and `WordBytes` state the composition |
| `RegisterFile.Set8` | ShameBoy/ShameBoy/Registers.cs:16-83 | assigning an 8-bit field sets that register and leaves the other seven, SP and PC unchanged |
| `RegisterFile.Set16` | ShameBoy/ShameBoy/Registers.cs:16-95 | assigning a 16-bit field makes it read back as the value, splits it low byte / high byte into its halves, and leaves the other views and the other 8-bit registers unchanged |
| `RegisterFile.WordBytes` | ShameBoy/ShameBoy/Registers.cs:16-95 | splitting any 16-bit view gives back the two bytes at its offsets |
| `RegisterFile.PairView` | ShameBoy/ShameBoy/Registers.cs:16-83 | every pair reads as low half + 256 × high half |
| `RegisterFile.WordWriteSplits` | ShameBoy/ShameBoy/Registers.cs:16-83 | after `BC := v` (and likewise AF, DE, HL), B = v mod 256 and C = v div 256; the other 16-bit views are unchanged |
| `RegisterFile.ByteWriteVisibleInPair` | ShameBoy/ShameBoy/Registers.cs:34-47 | writing one byte field changes only that byte of its pair; the partner byte, the other pairs, SP and PC are unchanged |
| `RegisterFile.StackAndProgramCounterStandAlone` | ShameBoy/ShameBoy/Registers.cs:88-95 | SP and PC overlap no 8-bit register and no pair: writing one changes nothing else |
| `RegisterFile.WithFlag` | ShameBoy/ShameBoy/Registers.cs:97-103 | `SetFlagConditional`: the flag's bit becomes the condition and every other bit of F is kept |
| `RegisterFile.WithFlagEnabled` | ShameBoy/ShameBoy/Registers.cs:105-108 | `EnableFlag`: the flag's bit is set and every other bit of F is kept |
| `RegisterFile.WithFlagDisabled` | ShameBoy/ShameBoy/Registers.cs:110-113 | `DisableFlag`: the flag's bit is cleared and every other bit of F is kept |
| `RegisterFile.ConditionalFlagWrite` | ShameBoy/ShameBoy/Registers.cs:97-103 | `SetFlagConditional` on the register file changes one flag of F and nothing else: not the other flags, not F's low nibble, not A, not any other register |
| `RegisterFile.FlagWriteKeepsWord` | ShameBoy/ShameBoy/Registers.cs:22-29 | a write to F is invisible in every 16-bit view other than AF |
| `RegisterFile.WordWriteKeepsFlags` | ShameBoy/ShameBoy/Registers.cs:22-29 | a write to a 16-bit view other than AF leaves F alone |
| `RegisterFile.Set8Overwrites` | ShameBoy/ShameBoy/Registers.cs:16-83 | a second write to the same 8-bit field replaces the first |
| `RegisterFile.Set8Commutes` | ShameBoy/ShameBoy/Registers.cs:16-83 | writes to two different 8-bit fields commute |
| `RegisterFile.Set16CommutesWithF` | ShameBoy/ShameBoy/Registers.cs:22-29 | a write to F and a write to a 16-bit view other than AF commute |
| `RegisterFile.FlagOpsIdempotent` | ShameBoy/ShameBoy/Registers.cs:105-113 | `EnableFlag` and `DisableFlag` are idempotent |
| `RegisterFile.EnableThenDisable` | ShameBoy/ShameBoy/Registers.cs:97-113 | enable then disable clears the flag and keeps every other bit; set-true then set-false gives back F exactly when the flag was clear |
| `RegisterFile.FlagOpsKeepLowNibble` | ShameBoy/ShameBoy/Registers.cs:97-113 | no flag operation alters F's low nibble |
| `RegisterFile.WordWriteReachesLowNibble` | ShameBoy/ShameBoy/Registers.cs:28-29 | nothing masks a direct write to AF: it can set bits in F's low nibble |
| `RegisterFile.Registers.constructor` | ShameBoy/ShameBoy/Registers.cs:8-114 | `new Registers()`: all twelve bytes zero |
| `RegisterFile.Registers.Assign8` | ShameBoy/ShameBoy/Registers.cs:16-83 | assigning an 8-bit field in place leaves the bytes `Set8` describes |
| `RegisterFile.Registers.Assign16` | ShameBoy/ShameBoy/Registers.cs:16-95 | assigning a 16-bit field in place leaves the bytes `Set16` describes |
| `RegisterFile.Registers.SetFlagConditional` | ShameBoy/ShameBoy/Registers.cs:97-103 | sets or clears the flag bit of F in place; only F's byte changes |
| `RegisterFile.Registers.EnableFlag` | ShameBoy/ShameBoy/Registers.cs:105-108 | sets the flag bit of F in place; only F's byte changes |
| `RegisterFile.Registers.DisableFlag` | ShameBoy/ShameBoy/Registers.cs:110-113 | clears the flag bit of F in place; only F's byte changes |
| `Memory.New` | ShameBoy/ShameBoy/MemoryBank.cs:13-57 | construction fails with InvalidBios if and only if the BIOS length is not 256; on success every region has its fixed size (256, 32768, 8192, 256, 8192, 256, 8192, 128) and holds only zeros, since nothing is copied |
| `Memory.ReadsAreZero` | ShameBoy/ShameBoy/MemoryBank.cs:59-77 | `ReadByte` and `ReadShort` return 0 at every address, also after any `WriteByte`, `WriteShort` or store |
| `Memory.WritesChangeNothing` | ShameBoy/ShameBoy/MemoryBank.cs:69-77 | `WriteByte` and `WriteShort` leave the bank exactly as it was |
| `Memory.MemoryBank.ReadByte` | ShameBoy/ShameBoy/MemoryBank.cs:59-62 | always 0; no contract of its own, `ReadsAreZero` states it for every address and every bank reached by writes and stores |
| `Memory.MemoryBank.ReadShort` | ShameBoy/ShameBoy/MemoryBank.cs:64-67 | declared to return a byte, always 0; `ReadsAreZero` states it |
| `Memory.MemoryBank.WriteByte` | ShameBoy/ShameBoy/MemoryBank.cs:69-72 | an empty body; `WritesChangeNothing` states that the bank is unchanged |
| `Memory.MemoryBank.WriteShort` | ShameBoy/ShameBoy/MemoryBank.cs:74-77 | an empty body; `WritesChangeNothing` states that the bank is unchanged |
| `Memory.MemoryBank.Fetch` | ShameBoy/ShameBoy/GameBoy.Instructions.cs:50 | the assumed `FetchMemory(address, length)` view: `length` consecutive bytes of the store, wrapping at 0xFFFF; no contract of its own, it is the reference view the `Store8` and `Store16` contracts are stated with |
| `Memory.MemoryBank.Store8` | ShameBoy/ShameBoy/GameBoy.Instructions.cs:108-112 | a byte written through a one-byte view lands at the address and nowhere else; every other field of the bank is untouched |
| `Memory.MemoryBank.Store16` | ShameBoy/ShameBoy/GameBoy.Instructions.cs:47-53 | a word written through a two-byte view lands low byte first, and nothing outside the two bytes changes, in the store or elsewhere in the bank |
| `Memory.Store16RoundTrip` | ShameBoy/ShameBoy/GameBoy.Instructions.cs:47-53 | a stored word composes back from its two bytes |
| `Instructions.Load16` | ShameBoy/ShameBoy/GameBoy.Instructions.cs:96-100 | `LD_16bit`: the register reads back as the value, every other view is kept, F is kept unless the target is AF, 12 T-states |
| `Instructions.Load8` | ShameBoy/ShameBoy/GameBoy.Instructions.cs:102-106 | `LD_8bit`: the register holds the value, every other register and flag is kept, 8 T-states |
| `Instructions.Load8Pointer` | ShameBoy/ShameBoy/GameBoy.Instructions.cs:108-112 | `LD_8bit_pointer`: the register's byte is written at the pointer, no other byte of the store and no other field of the bank changes, the registers are unchanged, 8 T-states |
| `Instructions.Inc8` | ShameBoy/ShameBoy/GameBoy.Instructions.cs:114-124 | `INC_8bit`: r' = (r + 1) mod 256; Zero iff r' = 0; HalfCarry iff the old low nibble is not 0xF (as written); Subtract cleared; Carry and every other register kept; 4 T-states |
| `Instructions.Inc16` | ShameBoy/ShameBoy/GameBoy.Instructions.cs:126-130 | `INC_16bit`: r' = (r + 1) mod 65536, no flag and no other view changes, 8 T-states |
| `Instructions.Dec8` | ShameBoy/ShameBoy/GameBoy.Instructions.cs:132-141 | `DEC_8bit`: r' = (r − 1) mod 256; Zero iff r' = 0; HalfCarry iff the old low nibble is 0xF (as written); Subtract set; Carry kept; 4 T-states |
| `Instructions.Dec16` | ShameBoy/ShameBoy/GameBoy.Instructions.cs:182-192 | `DEC_16bit`: r' = (r − 1) mod 65536; HalfCarry iff the old low nibble is not 0; Zero iff r' = 0; Subtract set; Carry, A and the other views kept; 8 T-states |
| `Instructions.Rlc8` | ShameBoy/ShameBoy/GameBoy.Instructions.cs:143-155 | `RLC_8bit`: the register rotates left by one bit; Carry = old bit 7 = new bit 0; Zero, Subtract, HalfCarry cleared; 4 T-states |
| `Instructions.Rrc8` | ShameBoy/ShameBoy/GameBoy.Instructions.cs:157-169 | `RRC_8bit`: the register rotates right by one bit; Carry = old bit 0 = new bit 7; Zero, Subtract, HalfCarry cleared; 4 T-states |
| `Instructions.Add16` | ShameBoy/ShameBoy/GameBoy.Instructions.cs:171-180 | `ADD_16bit`: dest' = (dest + value) mod 65536; Subtract and HalfCarry cleared; Carry iff (dest' & 0xF) + (value & 0xF) > 0xF on the wrapped sum; Zero kept; 8 T-states |
| `Instructions.Decode` | ShameBoy/ShameBoy/GameBoy.Instructions.cs:16-87 | the handler found for an opcode carries that opcode, and only opcodes above 0x10 have none |
| `Instructions.DecodeFindsEveryHandler` | ShameBoy/ShameBoy/GameBoy.Instructions.cs:16-87 | every handler is found under its own opcode and no two handlers share one |
| `Instructions.Execute` | ShameBoy/ShameBoy/GameBoy.Instructions.cs:16-87 | every span handler body as a call of its helper; no contract of its own, its properties are `HandlersKeepSpPc`, `OnlyStopIsFree`, `LoadsKeepFlags`, `LdBcOperandOrder`, `BcPointerOpcodesBothStore` and `LdNnSpStoresLittleEndian` |
| `Instructions.HandlersKeepSpPc` | ShameBoy/ShameBoy/GameBoy.Instructions.cs:16-87 | no handler writes SP or PC; all but 0x02, 0x08 and 0x0A leave memory alone |
| `Instructions.OnlyStopIsFree` | ShameBoy/ShameBoy/GameBoy.Instructions.cs:83-87 | STOP returns 0 and is the only handler returning fewer than 4 T-states |
| `Instructions.LoadsKeepFlags` | ShameBoy/ShameBoy/GameBoy.Instructions.cs:19-61 | the load handlers 0x01, 0x02, 0x06, 0x08, 0x0A and 0x0E leave F unchanged |
| `Instructions.LdBcOperandOrder` | ShameBoy/ShameBoy/GameBoy.Instructions.cs:19-21 | opcode 0x01 with operands [lo, hi] leaves B = lo and C = hi |
| `Instructions.BcPointerOpcodesBothStore` | ShameBoy/ShameBoy/GameBoy.Instructions.cs:23-25 | opcodes 0x02 and 0x0A behave identically: both store A at (BC) and leave the registers unchanged |
| `Instructions.LdNnSpStoresLittleEndian` | ShameBoy/ShameBoy/GameBoy.Instructions.cs:47-53 | `LD (nn), SP` stores SP's low byte at nn and its high byte at nn + 1, no other byte of the store, changes no register, 20 T-states |
| `Instructions.RotationsInverse` | ShameBoy/ShameBoy/GameBoy.Instructions.cs:143-169 | RRC undoes RLC and RLC undoes RRC on the register; only F differs |
| `Instructions.EightRlcRestore` | ShameBoy/ShameBoy/GameBoy.Instructions.cs:143-155 | eight RLCs give the register back and touch nothing but F |
| `Instructions.IncDecInverse` | ShameBoy/ShameBoy/GameBoy.Instructions.cs:114-141 | DEC_8bit undoes INC_8bit and INC_8bit undoes DEC_8bit on the register; only F differs |
| `Instructions.LoadThenIncrementB` | ShameBoy/ShameBoy/GameBoy.Instructions.cs:31-41 | LD B,0x05 then INC B leaves B = 0x06 with Zero and Subtract clear, costing 8 then 4 T-states |
| `Instructions.Inc16Dec16Inverse` | ShameBoy/ShameBoy/GameBoy.Instructions.cs:126-130 | DEC_16bit undoes INC_16bit and INC_16bit undoes DEC_16bit on the register |
| `Instructions.HalfCarryAsWritten` | ShameBoy/ShameBoy/GameBoy.Instructions.cs:114-141 | INC of 0x0F gives 0x10 with HalfCarry clear, INC of 0x00 sets it, DEC of 0x10 gives 0x0F with HalfCarry clear, INC of 0xFF gives 0 with Zero set |
| `Instructions.AddCarryAsWritten` | ShameBoy/ShameBoy/GameBoy.Instructions.cs:171-180 | ADD HL,BC with HL = 0xFFFF and BC = 1 wraps HL to 0 with Carry and HalfCarry both clear |
| `ParamsHandlers.Decode` | ShameBoy/ShameBoy/GameBoy.cs:84-145 | the `params` handler found for an opcode carries that opcode, and only opcodes above 0x06 have none |
| `ParamsHandlers.DecodeFindsEveryHandler` | ShameBoy/ShameBoy/GameBoy.cs:84-145 | every `params` handler is found under its own opcode and no two share one |
| `ParamsHandlers.Execute` | ShameBoy/ShameBoy/GameBoy.cs:84-145 | every `params` handler body; no contract of its own, its properties are `LoadsReadZero`, `HandlersKeepSpPcAndMemory`, `IncB8`, `DecB8` and the two revision comparisons |
| `ParamsHandlers.IncB8` | ShameBoy/ShameBoy/GameBoy.cs:113-126 | `INC_B` of this revision: B' = (B + 1) mod 256; Zero and HalfCarry both iff B' = 0; Subtract cleared; Carry kept; 4 T-states |
| `ParamsHandlers.DecB8` | ShameBoy/ShameBoy/GameBoy.cs:128-138 | `DEC_B` of this revision: B' = (B − 1) mod 256; Zero and HalfCarry both iff B' = 0; Subtract set; Carry kept; 4 T-states |
| `ParamsHandlers.LoadsReadZero` | ShameBoy/ShameBoy/GameBoy.cs:91-103 | LD BC and LD B load 0 whatever their operands, and the store of 0x02 leaves memory as it was |
| `ParamsHandlers.HandlersKeepSpPcAndMemory` | ShameBoy/ShameBoy/GameBoy.cs:84-145 | no `params` handler writes SP, PC or memory, and each returns at least 4 T-states |
| `ParamsHandlers.IncBRevisionsCompared` | ShameBoy/ShameBoy/GameBoy.cs:113-126 | the two INC B revisions agree on B, Zero, Subtract and Carry, and on HalfCarry exactly when the old low nibble is 0xF and B is not 0xFF |
| `ParamsHandlers.DecBRevisionsCompared` | ShameBoy/ShameBoy/GameBoy.cs:128-138 | the two DEC B revisions agree on B, Zero, Subtract and Carry, and differ on HalfCarry exactly for B = 0x01 and the values with low nibble 0xF |
| `Dispatch.CreateEmpty` | ShameBoy/ShameBoy/GameBoy.cs:165-171 | the sentinel descriptor has length 1 and carries its own opcode |
| `Dispatch.Declared` | ShameBoy/ShameBoy/GameBoy.cs:38-47 | the scan finds a method exactly for the opcodes its revision declares; the handler found is the one declared with that opcode, and the attribute carries that opcode and its declared length |
| `Dispatch.Resolve` | ShameBoy/ShameBoy/GameBoy.cs:44-56 | one iteration of the table loop stores the handler declared with `op` and its length, or `CreateEmpty(op)` when there is none |
| `Dispatch.Slot` | ShameBoy/ShameBoy/GameBoy.cs:42-57 | slot `op` of the finished table is empty exactly for 0xFF; every filled slot is consistent and describes `op` |
| `Dispatch.TableShape` | ShameBoy/ShameBoy/GameBoy.cs:42-57 | only slot 0xFF is empty; every filled slot holds the handler declared with its own opcode; the sentinel slots are exactly those above the revision's last opcode and have length 1 |
| `Dispatch.Invoke` | ShameBoy/ShameBoy/GameBoy.cs:160-171 | invoking a slot fails exactly when it is a sentinel, and then with UnknownInstruction of the sentinel's opcode |
| `Dispatch.EmptyThrowsItsOpcode` | ShameBoy/ShameBoy/GameBoy.cs:165-171 | invoking `CreateEmpty(op)` fails with UnknownInstruction(op), whatever the state |
| `Dispatch.Operands` | ShameBoy/ShameBoy/GameBoy.cs:67-72 | the operand bytes: n bytes, `args[i]` read at PC + i with 16-bit wrap; no contract of its own, it is the reference the operand loop `Emulator.GameBoy.FetchOperands` is proved equal to |
| `Dispatch.AfterInvoke` | ShameBoy/ShameBoy/GameBoy.cs:73 | an invocation that throws leaves the machine as it was, and only sentinels throw; one that succeeds leaves the handler's registers and memory, with its T-state result in the clock |
| `Dispatch.Pass` | ShameBoy/ShameBoy/GameBoy.cs:66-73 | after the opcode is read, a pass fails only with MissingSlot or UnknownInstruction of that opcode, with MissingSlot exactly for 0xFF; a failing pass keeps the memory and the clock |
| `Dispatch.Step` | ShameBoy/ShameBoy/GameBoy.cs:64-73 | one pass of the loop; no contract of its own, its properties are `StepAdvancesPc` and `StubMemoryStepIsNop`, and `Emulator.GameBoy.Step` is proved equal to it |
| `Dispatch.Run` | ShameBoy/ShameBoy/GameBoy.cs:60-75 | at most `fuel` passes, stopping at the first error; no contract of its own, its properties are `RunOneMore`, `RunStopsAtFault` and `RunOnStubMemory`, and `Emulator.GameBoy.Start` is proved equal to it |
| `Dispatch.RunOneMore` | ShameBoy/ShameBoy/GameBoy.cs:62-74 | a loop that has not thrown after k passes does pass k + 1 from where it stopped |
| `Dispatch.RunStopsAtFault` | ShameBoy/ShameBoy/GameBoy.cs:62-74 | once a pass has thrown, more passes change nothing |
| `Dispatch.OpcodeFFHitsMissingSlot` | ShameBoy/ShameBoy/GameBoy.cs:42-67 | fetching opcode 0xFF fails on the null slot before reading any operand |
| `Dispatch.UnknownOpcodeFails` | ShameBoy/ShameBoy/GameBoy.cs:52-56 | an opcode below 0xFF with no handler fails with UnknownInstruction of exactly that opcode, with PC just past the opcode and the clock unchanged |
| `Dispatch.PassAdvancesPc` | ShameBoy/ShameBoy/GameBoy.cs:66-73 | after the opcode, a pass moves PC past `Length − 1` operands, whether the handler succeeds or throws |
| `Dispatch.InvokeKeepsPc` | ShameBoy/ShameBoy/GameBoy.cs:73 | invoking a slot never moves PC |
| `Dispatch.ClockOverwritten` | ShameBoy/ShameBoy/GameBoy.cs:73 | after a pass that does not throw, the clock is the T-state count the invoked handler returned, and the old clock plays no part |
| `Dispatch.StepAdvancesPc` | ShameBoy/ShameBoy/GameBoy.cs:64-73 | one whole pass leaves PC = (old PC + Length) mod 65536; with this `MemoryBank` the fetched opcode is always 0x00, so the opcode-general statement is `PassAdvancesPc` |
| `Dispatch.StubMemoryStepIsNop` | ShameBoy/ShameBoy/GameBoy.cs:64-73 | with this `MemoryBank` every pass fetches 0x00: PC moves by one, the clock becomes 4, nothing else changes |
| `Dispatch.NopPass` | ShameBoy/ShameBoy/GameBoy.Instructions.cs:17 | opcode 0x00 reads no operand, does not throw, and sets the clock to 4 in both revisions |
| `Dispatch.RunOnStubMemory` | ShameBoy/ShameBoy/GameBoy.cs:62-74 | n passes on this memory are n NOPs: no error, PC moved by n mod 65536, every other register and the memory unchanged |
| `Dispatch.ResetZeroes` | ShameBoy/ShameBoy/GameBoy.cs:77-81 | after `Reset` every register, every pair and the clock read 0, and the memory is kept |
| `Dispatch.Reset` | ShameBoy/ShameBoy/GameBoy.cs:77-81 | fresh registers and a zero clock, memory kept; no contract of its own, `ResetZeroes` states what every view reads afterwards |
| `Emulator.GameBoy.constructor` | ShameBoy/ShameBoy/GameBoy.cs:31-58 | a new `GameBoy` has zeroed registers and clock and the table the scan gives |
| `Emulator.GameBoy.BuildTable` | ShameBoy/ShameBoy/GameBoy.cs:42-57 | the loop over `i < 0xFF` fills slot i with `Resolve(i)` and leaves slot 0xFF null |
| `Emulator.GameBoy.Create` | ShameBoy/ShameBoy/GameBoy.cs:31-58 | construction fails with InvalidBios exactly when the BIOS is not 256 bytes; otherwise a new machine whose registers and clock are zero, whose regions are all-zero and whose byte store is all-zero |
| `Emulator.GameBoy.Load16` | ShameBoy/ShameBoy/GameBoy.Instructions.cs:96-100 | `LD_16bit` in place leaves what `Instructions.Load16` describes |
| `Emulator.GameBoy.Load8` | ShameBoy/ShameBoy/GameBoy.Instructions.cs:102-106 | `LD_8bit` in place leaves what `Instructions.Load8` describes |
| `Emulator.GameBoy.Load8Pointer` | ShameBoy/ShameBoy/GameBoy.Instructions.cs:108-112 | `LD_8bit_pointer` in place leaves what `Instructions.Load8Pointer` describes |
| `Emulator.GameBoy.Inc8` | ShameBoy/ShameBoy/GameBoy.Instructions.cs:114-124 | the four in-place updates of `INC_8bit` leave what `Instructions.Inc8` describes |
| `Emulator.GameBoy.Inc16` | ShameBoy/ShameBoy/GameBoy.Instructions.cs:126-130 | `INC_16bit` in place leaves what `Instructions.Inc16` describes |
| `Emulator.GameBoy.Dec8` | ShameBoy/ShameBoy/GameBoy.Instructions.cs:132-141 | the four in-place updates of `DEC_8bit` leave what `Instructions.Dec8` describes |
| `Emulator.GameBoy.Dec16` | ShameBoy/ShameBoy/GameBoy.Instructions.cs:182-192 | the four in-place updates of `DEC_16bit` leave what `Instructions.Dec16` describes |
| `Emulator.GameBoy.Rlc8` | ShameBoy/ShameBoy/GameBoy.Instructions.cs:143-155 | the five in-place updates of `RLC_8bit` leave what `Instructions.Rlc8` describes |
| `Emulator.GameBoy.Rrc8` | ShameBoy/ShameBoy/GameBoy.Instructions.cs:157-169 | the five in-place updates of `RRC_8bit` leave what `Instructions.Rrc8` describes |
| `Emulator.GameBoy.Add16` | ShameBoy/ShameBoy/GameBoy.Instructions.cs:171-180 | the four in-place updates of `ADD_16bit` leave what `Instructions.Add16` describes |
| `Emulator.GameBoy.ExecuteSpan` | ShameBoy/ShameBoy/GameBoy.Instructions.cs:16-87 | each span handler run in place leaves the registers and memory `Instructions.Execute` gives, and does not touch the clock |
| `Emulator.GameBoy.ParamsIncB` | ShameBoy/ShameBoy/GameBoy.cs:113-126 | the in-place `INC_B` of the `params` revision leaves what `ParamsHandlers.IncB8` describes |
| `Emulator.GameBoy.ParamsDecB` | ShameBoy/ShameBoy/GameBoy.cs:128-138 | the in-place `DEC_B` of the `params` revision leaves what `ParamsHandlers.DecB8` describes |
| `Emulator.GameBoy.ExecuteParams` | ShameBoy/ShameBoy/GameBoy.cs:84-145 | each `params` handler run in place leaves what `ParamsHandlers.Execute` gives |
| `Emulator.GameBoy.Invoke` | ShameBoy/ShameBoy/GameBoy.cs:160-171 | `Invoke(ref tStateClock, args)` stores the handler's result in the clock, or throws for a sentinel and changes nothing |
| `Emulator.GameBoy.FetchOperands` | ShameBoy/ShameBoy/GameBoy.cs:67-72 | the operand loop reads n bytes from PC on and leaves PC moved by n, with 16-bit wrap |
| `Emulator.GameBoy.Step` | ShameBoy/ShameBoy/GameBoy.cs:64-73 | one pass of the loop in place leaves exactly the state and error `Dispatch.Step` gives |
| `Emulator.GameBoy.Start` | ShameBoy/ShameBoy/GameBoy.cs:60-75 | at most `fuel` passes in place leave exactly what `Dispatch.Run` gives, stopping at the first error |
| `Emulator.GameBoy.Reset` | ShameBoy/ShameBoy/GameBoy.cs:77-81 | new zeroed registers and a zero clock; memory and table kept |

## Left out

- Reflection (`GetMethods`, `GetCustomAttribute`, `CreateDelegate`): replaced by an explicit opcode-to-handler lookup per revision, which gives the same table, null slot 0xFF included.
- The handler delegate type: `ExecuteInstruction` takes `params byte[]`, while the span handlers take `Span<byte>`, so `CreateDelegate` could not bind them as written; the model assumes the delegate type matches the revision in use.
- Console logging and the description strings of the instruction attributes: instrumentation only.
- The exception classes and their message text: only the payload (the opcode) is kept, inside the error value.
- `Start`'s unbounded `while (true)` loop: modelled as at most `fuel` passes; the model has no halted state, because the code has none.
- `FetchMemory`, `MemoryMarshal` and `Span`: not defined in the shown code; modelled as the little-endian byte store described above.
- Address decoding, the BIOS overlay, echo RAM, the OAM window and ROM loading: `MemoryBank` implements none of them.
- The 0xCB-prefixed opcode page and the opcodes above 0x10: the code defines no handlers for them.
- Instructions.Inc8: states one increment in full (value modulo 256, every flag, the frame) but not periodicity over many calls, i.e. that 256 increments give the register back with Zero set after exactly one of them. Each further call adds a full unfolding of the bit-vector flag computation to the proof, and the lemma over n calls stays too close to the solver's resource limit to be stable. The single-call contract and `Instructions.IncDecInverse` are what the model promises about wraparound.
- Instructions.Dec16: requires the register not to be AF. With AF the flag writes would land in the register being decremented; no handler passes AF.
- Instructions.Add16: requires the destination not to be AF, for the same reason; the only caller passes HL.
- The 8-bit helpers take any register but F: F is typed `FlagRegister`, so it cannot be passed as a `ref byte`.
