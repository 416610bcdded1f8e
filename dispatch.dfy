/** The dispatch machinery of `GameBoy`: the 256-slot instruction table the
    constructor fills, one pass of the fetch/decode/execute loop in `Start`,
    a fuel-bounded run of that loop, and `Reset`. These are the value-level
    specifications; the `GameBoy` class in module Emulator performs the same
    steps in place and is proved to agree with them.

    The constructor builds the table by reflection: for every opcode it looks
    for a method carrying an `[Instruction]` attribute with that opcode. Here
    that scan is `Declared`, which asks the handler revision the class is
    built with. Because the loop runs `for (byte i = 0; i < 0xFF; i++)`, slot
    0xFF is never filled and stays null; fetching opcode 0xFF then fails on
    the null slot (a NullReferenceException in C#), modelled as the fault
    `MissingSlot(0xFF)`. */
module Dispatch {
  import opened Bytes
  import opened Errors
  import opened RegisterFile
  import opened Memory
  import Span = Instructions
  import Params = ParamsHandlers

  /** Which of the two handler files the class is compiled with. */
  datatype Revision = SpanRevision | ParamsRevision

  /** `InstructionAttribute` without its description string. */
  datatype InstructionAttribute = InstructionAttribute(instruction: bv8, length: ByteCount)

  /** The delegate a table slot holds: a handler of one of the revisions, or
      the one `CreateEmpty` makes, which throws for its opcode. */
  datatype Handler =
    | SpanHandler(span: Span.Handler)
    | ParamsHandler(params: Params.Handler)
    | Empty(value: bv8)

  datatype ResolvedInstruction = ResolvedInstruction(instruction: Handler, attribute: InstructionAttribute)

  /** A slot whose attribute length is at least 1, and whose handler was
      declared with exactly the attribute's opcode and length (a sentinel
      carries the attribute's opcode). */
  predicate Consistent(ri: ResolvedInstruction)
  {
    && ri.attribute.length >= 1
    && match ri.instruction
       case SpanHandler(h) =>
         Span.Opcode(h) == ri.attribute.instruction && ri.attribute.length == Span.Length(h)
       case ParamsHandler(p) =>
         Params.Opcode(p) == ri.attribute.instruction && ri.attribute.length == Params.Length(p)
       case Empty(value) => value == ri.attribute.instruction
  }

  /** `ResolvedInstruction.CreateEmpty(value)`: a length-1 descriptor whose
      delegate throws `UnknownInstructionException(value)`. */
  function CreateEmpty(value: bv8): (ri: ResolvedInstruction)
    ensures ri.instruction == Empty(value) && ri.attribute.instruction == value
    ensures Consistent(ri) && ri.attribute.length == 1
  {
    ResolvedInstruction(Empty(value), InstructionAttribute(value, 1))
  }

  /** The reflection scan: the method with an `[Instruction(op, ...)]`
      attribute in the given revision, with that attribute. */
  function Declared(rev: Revision, op: bv8): (d: Option<ResolvedInstruction>)
    ensures d.Some? ==> d.value.attribute.instruction == op && Consistent(d.value) && !d.value.instruction.Empty?
    ensures d.Some? ==> (d.value.instruction.SpanHandler? <==> rev == SpanRevision)
    ensures d.None? <==> (if rev == SpanRevision then op > 0x10 else op > 0x06)
  {
    match rev
    case SpanRevision =>
      (match Span.Decode(op)
       case Some(h) => Some(ResolvedInstruction(SpanHandler(h), InstructionAttribute(Span.Opcode(h), Span.Length(h))))
       case None => None)
    case ParamsRevision =>
      (match Params.Decode(op)
       case Some(p) => Some(ResolvedInstruction(ParamsHandler(p), InstructionAttribute(Params.Opcode(p), Params.Length(p))))
       case None => None)
  }

  /** What one iteration of the constructor's loop stores for `op`. */
  function Resolve(rev: Revision, op: bv8): (ri: ResolvedInstruction)
    ensures Consistent(ri) && ri.attribute.instruction == op
    ensures ri.instruction.Empty? <==> Declared(rev, op).None?
    ensures ri.instruction == Empty(op) || Declared(rev, op) == Some(ri)
    ensures Declared(rev, op).None? ==> ri == CreateEmpty(op)
  {
    match Declared(rev, op)
    case Some(ri) => ri
    case None => CreateEmpty(op)
  }

  /** Slot `op` of the table after the constructor: filled below 0xFF. */
  function Slot(rev: Revision, op: bv8): (slot: Option<ResolvedInstruction>)
    ensures slot.None? <==> op == 0xFF
    ensures slot.Some? ==> Consistent(slot.value) && slot.value.attribute.instruction == op
  {
    if op == 0xFF then None else Some(Resolve(rev, op))
  }

  /** Every filled slot is consistent and describes its own opcode; only
      0xFF is empty; in the span revision 0x00-0x10 hold span handlers and
      0x11-0xFE throw, in the params revision 0x00-0x06 hold params handlers
      and 0x07-0xFE throw. */
  lemma TableShape(rev: Revision, op: bv8)
    ensures Slot(rev, op).None? <==> op == 0xFF
    ensures Slot(rev, op).Some? ==>
      var ri := Slot(rev, op).value;
      && Consistent(ri) && ri.attribute.instruction == op
      && (ri.instruction.Empty? <==> if rev == SpanRevision then op > 0x10 else op > 0x06)
      && (ri.instruction.Empty? ==> ri.instruction.value == op && ri.attribute.length == 1)
      && (!ri.instruction.Empty? ==> (ri.instruction.SpanHandler? <==> rev == SpanRevision))
  {
  }

  /** `Invoke(ref tStates, args)` without the write to `tStates`: the
      handler's result, or the exception the empty delegate throws. */
  function Invoke(ri: ResolvedInstruction, s: Image, mem: MemoryBank, args: seq<bv8>): (r: Result<Span.Effect>)
    requires Consistent(ri) && |args| == ri.attribute.length - 1
    ensures r.Failure? <==> ri.instruction.Empty?
    ensures r.Failure? ==> r.error == UnknownInstruction(ri.instruction.value)
  {
    match ri.instruction
    case SpanHandler(h) => Success(Span.Execute(h, s, mem, args))
    case ParamsHandler(p) => Success(Params.Execute(p, s, mem, args))
    case Empty(value) => Failure(UnknownInstruction(value))
  }

  /** Invoking what `CreateEmpty(value)` made fails with exactly that
      opcode, whatever the registers, memory and operands. */
  lemma EmptyThrowsItsOpcode(value: bv8, s: Image, mem: MemoryBank)
    ensures Invoke(CreateEmpty(value), s, mem, []) == Failure(UnknownInstruction(value))
  {
  }

  /** The registers, memory and T-state clock that the loop works on. */
  datatype Machine = Machine(regs: Image, memory: MemoryBank, clock: bv8)

  /** The state after one pass, and the exception that ended the loop, if any. */
  datatype Outcome = Outcome(next: Machine, fault: Option<Error>)

  /** `ushort` addition of a small count, wrapping past 0xFFFF. */
  function WrapAdd(a: UShort, b: ByteCount): UShort
  {
    if a + b < 0x1_0000 then a + b else a + b - 0x1_0000
  }

  /** `WrapAdd` is addition modulo 65536. */
  lemma WrapAddIsModular(a: UShort, b: ByteCount)
    ensures WrapAdd(a, b) == (a + b) % 0x1_0000
  {
  }

  /** Adding `i` and then 1 is adding `i + 1`. */
  lemma WrapAddAssociates(a: UShort, i: ByteCount)
    requires i < 0xFF
    ensures WrapAdd(WrapAdd(a, i), 1) == WrapAdd(a, i + 1)
  {
  }

  /** The operand bytes the inner loop reads: `n` bytes from `pc` on, with
      the 16-bit program counter wrapping. */
  function Operands(mem: MemoryBank, pc: UShort, n: ByteCount): seq<bv8>
  {
    seq(n, i requires 0 <= i < n => mem.ReadByte(WrapAdd(pc, i)))
  }

  /** `instruction.Invoke(ref tStateClock, args)` on the whole machine: on
      success the handler's registers and memory and its T-states in the
      clock; on an exception the machine as it was. */
  function AfterInvoke(ri: ResolvedInstruction, m: Machine, args: seq<bv8>): (o: Outcome)
    requires Consistent(ri) && |args| == ri.attribute.length - 1
    ensures o.fault.Some? <==> ri.instruction.Empty?
    ensures o.fault.Some? ==> o.next == m
    ensures o.fault.None? ==>
      var eff := Invoke(ri, m.regs, m.memory, args).value;
      o.next == Machine(eff.regs, eff.memory, eff.tStates)
  {
    match Invoke(ri, m.regs, m.memory, args)
    case Failure(e) => Outcome(m, Some(e))
    case Success(eff) => Outcome(Machine(eff.regs, eff.memory, eff.tStates), None)
  }

  /** The loop body after the opcode has been read and PC moved past it:
      look the opcode up, read `Length - 1` operands (moving PC past each),
      invoke the handler and store what it returns in the clock. */
  function Pass(rev: Revision, m: Machine, opcode: bv8): (o: Outcome)
    ensures o.fault.Some? ==> o.fault.value in {MissingSlot(opcode), UnknownInstruction(opcode)}
    ensures o.fault == Some(MissingSlot(opcode)) <==> opcode == 0xFF
    ensures o.fault.Some? ==> o.next.memory == m.memory && o.next.clock == m.clock
  {
    match Slot(rev, opcode)
    case None => Outcome(m, Some(MissingSlot(opcode)))
    case Some(ri) =>
      var n := ri.attribute.length - 1;
      var pc := Get16(m.regs, PC);
      var args := Operands(m.memory, pc, n);
      AfterInvoke(ri, Machine(Set16(m.regs, PC, WrapAdd(pc, n)), m.memory, m.clock), args)
  }

  /** One pass of `Start`'s loop. */
  function Step(rev: Revision, m: Machine): Outcome
  {
    var pc := Get16(m.regs, PC);
    var opcode := m.memory.ReadByte(pc);
    Pass(rev, Machine(Set16(m.regs, PC, WrapAdd(pc, 1)), m.memory, m.clock), opcode)
  }

  /** At most `fuel` passes of a loop whose body is `step`; an exception
      ends it. */
  function Iterate(step: Machine -> Outcome, m: Machine, fuel: nat): Outcome
    decreases fuel
  {
    if fuel == 0 then Outcome(m, None)
    else
      var o := step(m);
      if o.fault.Some? then o else Iterate(step, o.next, fuel - 1)
  }

  /** At most `fuel` passes of `Start`'s loop. */
  function Run(rev: Revision, m: Machine, fuel: nat): Outcome
  {
    Iterate(x => Step(rev, x), m, fuel)
  }

  /** A loop that has not thrown after `k` passes goes on, in pass `k + 1`,
      from the machine those passes left. */
  lemma {:induction false} IterateOneMore(step: Machine -> Outcome, m: Machine, k: nat)
    requires Iterate(step, m, k).fault.None?
    ensures Iterate(step, m, k + 1) == step(Iterate(step, m, k).next)
    decreases k
  {
    if k > 0 {
      IterateOneMore(step, step(m).next, k - 1);
    }
  }

  /** Once a pass has thrown, more fuel changes nothing. */
  lemma {:induction false} IterateStopsAtFault(step: Machine -> Outcome, m: Machine, k: nat, fuel: nat)
    requires k <= fuel && Iterate(step, m, k).fault.Some?
    ensures Iterate(step, m, fuel) == Iterate(step, m, k)
    decreases k
  {
    if step(m).fault.None? {
      IterateStopsAtFault(step, step(m).next, k - 1, fuel - 1);
    }
  }

  /** `IterateOneMore` for the loop of `Start`. */
  lemma RunOneMore(rev: Revision, m: Machine, k: nat)
    requires Run(rev, m, k).fault.None?
    ensures Run(rev, m, k + 1) == Step(rev, Run(rev, m, k).next)
  {
    IterateOneMore(x => Step(rev, x), m, k);
  }

  /** `IterateStopsAtFault` for the loop of `Start`. */
  lemma RunStopsAtFault(rev: Revision, m: Machine, k: nat, fuel: nat)
    requires k <= fuel && Run(rev, m, k).fault.Some?
    ensures Run(rev, m, fuel) == Run(rev, m, k)
  {
    IterateStopsAtFault(x => Step(rev, x), m, k, fuel);
  }

  /** `Reset`: fresh registers, all zero; clock zero; memory kept. */
  function Reset(m: Machine): Machine
  {
    Machine(Zeroes(12), m.memory, 0)
  }

  // ---- Properties ---------------------------------------------------------

  /** Opcode 0xFF finds the null slot: the pass fails before reading any
      operand, and nothing else changes. */
  lemma OpcodeFFHitsMissingSlot(rev: Revision, m: Machine)
    ensures Pass(rev, m, 0xFF) == Outcome(m, Some(MissingSlot(0xFF)))
  {
  }

  /** An opcode below 0xFF with no handler fails with UnknownInstruction for
      exactly that opcode; its descriptor has length 1, so no operand is read
      and PC stays just past the opcode; the clock is not written. */
  lemma UnknownOpcodeFails(rev: Revision, m: Machine, op: bv8)
    requires op != 0xFF && Declared(rev, op).None?
    ensures Pass(rev, m, op) == Outcome(m, Some(UnknownInstruction(op)))
  {
    var pc := Get16(m.regs, PC);
    StackAndProgramCounterStandAlone(m.regs, pc);
    KeepingPcChangesNothing(m.regs);
  }

  /** Writing PC's own value back leaves the register file as it was. */
  lemma KeepingPcChangesNothing(s: Image)
    ensures Set16(s, PC, Get16(s, PC)) == s
  {
    WordBytes(s, PC);
  }

  /** A pass that finds a handler leaves PC advanced past the operands, and
      PC is then the old PC plus the length, wrapping at 65536. */
  lemma PassAdvancesPc(rev: Revision, m: Machine, op: bv8)
    requires op != 0xFF
    ensures Get16(Pass(rev, m, op).next.regs, PC) ==
      WrapAdd(Get16(m.regs, PC), Resolve(rev, op).attribute.length - 1)
  {
    var ri := Resolve(rev, op);
    assert Slot(rev, op) == Some(ri);
    var n := ri.attribute.length - 1;
    var pc := Get16(m.regs, PC);
    var m1 := Machine(Set16(m.regs, PC, WrapAdd(pc, n)), m.memory, m.clock);
    var args := Operands(m.memory, pc, n);
    assert Pass(rev, m, op) == AfterInvoke(ri, m1, args);
    InvokeKeepsPc(ri, m1, args);
  }

  /** Invoking a slot, whether it succeeds or throws, leaves PC where the
      operand fetch put it: no handler writes PC. */
  lemma InvokeKeepsPc(ri: ResolvedInstruction, m: Machine, args: seq<bv8>)
    requires Consistent(ri) && |args| == ri.attribute.length - 1
    ensures Get16(AfterInvoke(ri, m, args).next.regs, PC) == Get16(m.regs, PC)
  {
    match ri.instruction
    case SpanHandler(h) =>
      Span.HandlersKeepSpPc(h, m.regs, m.memory, args);
    case ParamsHandler(p) =>
      Params.HandlersKeepSpPcAndMemory(p, m.regs, m.memory, args);
    case Empty(_) =>
  }

  /** The clock after a successful pass is what the handler returned; the
      old clock plays no part (it is overwritten, not accumulated). */
  lemma ClockOverwritten(rev: Revision, m: Machine, op: bv8, other: bv8)
    requires Pass(rev, m, op).fault.None?
    ensures Slot(rev, op).Some?
    ensures var ri := Slot(rev, op).value;
      var n := ri.attribute.length - 1;
      var pc := Get16(m.regs, PC);
      var result := Invoke(ri, Set16(m.regs, PC, WrapAdd(pc, n)), m.memory, Operands(m.memory, pc, n));
      result.Success? && Pass(rev, m, op).next.clock == result.value.tStates
    ensures Pass(rev, m.(clock := other), op).next == Pass(rev, m, op).next
    ensures Pass(rev, m.(clock := other), op).fault.None?
  {
  }

  /** The program counter advances modulo 65536. */
  lemma WordSum(pc: UShort, a: nat, b: nat)
    ensures ((pc + a) % 0x1_0000 + b) % 0x1_0000 == (pc + a + b) % 0x1_0000
  {
  }

  /** One whole pass moves PC by the length of the instruction it fetched. */
  lemma StepAdvancesPc(rev: Revision, m: Machine)
    requires m.memory.ReadByte(Get16(m.regs, PC)) != 0xFF
    ensures var op := m.memory.ReadByte(Get16(m.regs, PC));
      Get16(Step(rev, m).next.regs, PC) == (Get16(m.regs, PC) + Resolve(rev, op).attribute.length) % 0x1_0000
  {
    var pc := Get16(m.regs, PC);
    var op := m.memory.ReadByte(pc);
    var m1 := Machine(Set16(m.regs, PC, WrapAdd(pc, 1)), m.memory, m.clock);
    PassAdvancesPc(rev, m1, op);
    PcAfterOperands(pc, Resolve(rev, op).attribute.length, Get16(Step(rev, m).next.regs, PC));
  }

  /** Moving past the opcode and then past `length - 1` operands is moving
      `length` bytes. */
  lemma PcAfterOperands(pc: UShort, length: ByteCount, after: UShort)
    requires length >= 1 && after == WrapAdd(WrapAdd(pc, 1), length - 1)
    ensures after == (pc + length) % 0x1_0000
  {
    WrapAddIsModular(pc, 1);
    WrapAddIsModular(WrapAdd(pc, 1), length - 1);
    WordSum(pc, 1, length - 1);
  }

  /** The machine after one NOP pass. */
  function AfterNop(m: Machine): Machine
  {
    Machine(Set16(m.regs, PC, WrapAdd(Get16(m.regs, PC), 1)), m.memory, 4)
  }

  /** With this `MemoryBank` every fetch reads 0x00, so every pass runs NOP
      (in either revision): PC moves by one, the clock becomes 4, nothing
      else changes and no exception is raised. */
  lemma StubMemoryStepIsNop(rev: Revision, m: Machine)
    ensures Step(rev, m) == Outcome(AfterNop(m), None)
  {
    var pc := Get16(m.regs, PC);
    var m1 := Machine(Set16(m.regs, PC, WrapAdd(pc, 1)), m.memory, m.clock);
    assert m.memory.ReadByte(pc) == 0;
    assert Step(rev, m) == Pass(rev, m1, 0);
    NopPass(rev, m1);
  }

  /** Opcode 0x00 is NOP in both revisions: no operand, no exception, the
      clock set to 4 and nothing else changed. */
  lemma NopPass(rev: Revision, m: Machine)
    ensures Pass(rev, m, 0) == Outcome(m.(clock := 4), None)
  {
    var ri := Resolve(rev, 0);
    assert Slot(rev, 0) == Some(ri);
    assert ri.attribute.length == 1;
    assert Operands(m.memory, Get16(m.regs, PC), 0) == [];
    KeepingPcChangesNothing(m.regs);
    assert Set16(m.regs, PC, WrapAdd(Get16(m.regs, PC), 0)) == m.regs;
    assert Invoke(ri, m.regs, m.memory, []) == Success(Span.Effect(m.regs, m.memory, 4));
  }

  /** The program counter after `n` single-byte moves from `pc`. */
  function Advance(pc: UShort, n: nat): UShort
    decreases n
  {
    if n == 0 then pc else Advance(WrapAdd(pc, 1), n - 1)
  }

  /** `n` single-byte moves add `n` modulo 65536. */
  lemma {:induction false} AdvanceIsModular(pc: UShort, n: nat)
    ensures Advance(pc, n) == (pc + n) % 0x1_0000
    decreases n
  {
    if n > 0 {
      AdvanceIsModular(WrapAdd(pc, 1), n - 1);
    }
  }

  /** What `n` passes on this memory leave behind: no exception, PC moved
      on by n bytes, the clock 4 after at least one pass, every other
      register and the memory unchanged. */
  predicate NopRun(m: Machine, o: Outcome, n: nat)
  {
    && o.fault.None?
    && o.next.regs == Set16(m.regs, PC, Advance(Get16(m.regs, PC), n))
    && o.next.clock == (if n == 0 then m.clock else 4)
    && o.next.memory == m.memory
  }

  /** Every run on this memory is a run of NOPs, and it leaves PC moved by
      the number of passes, modulo 65536. */
  lemma RunOnStubMemory(rev: Revision, m: Machine, n: nat)
    ensures NopRun(m, Run(rev, m, n), n)
    ensures Get16(Run(rev, m, n).next.regs, PC) == (Get16(m.regs, PC) + n) % 0x1_0000
  {
    var step := x => Step(rev, x);
    forall x: Machine
      ensures step(x) == Outcome(AfterNop(x), None)
    {
      StubMemoryStepIsNop(rev, x);
    }
    IterateNops(step, m, n);
    AdvanceIsModular(Get16(m.regs, PC), n);
  }

  /** A loop whose every pass is a NOP pass runs `n` NOPs in `n` passes. */
  lemma {:induction false} IterateNops(step: Machine -> Outcome, m: Machine, n: nat)
    requires forall x: Machine :: step(x) == Outcome(AfterNop(x), None)
    ensures NopRun(m, Iterate(step, m, n), n)
    decreases n
  {
    if n == 0 {
      KeepingPcChangesNothing(m.regs);
    } else {
      var k := n - 1;
      IterateNops(step, AfterNop(m), k);
      NopThenRest(m, Iterate(step, AfterNop(m), k), k);
    }
  }

  /** One NOP pass followed by a run of `n - 1` NOPs is a run of `n`. */
  lemma NopThenRest(m: Machine, rest: Outcome, k: nat)
    requires NopRun(AfterNop(m), rest, k)
    ensures NopRun(m, rest, k + 1)
  {
    var pc := Get16(m.regs, PC);
    assert Get16(AfterNop(m).regs, PC) == WrapAdd(pc, 1);
    PcOverwritten(m.regs, WrapAdd(pc, 1), Advance(pc, k + 1));
  }

  /** A second write to PC replaces the first. */
  lemma PcOverwritten(s: Image, first: UShort, second: UShort)
    ensures Set16(Set16(s, PC, first), PC, second) == Set16(s, PC, second)
  {
  }

  /** After `Reset` every 8-bit register, every pair, SP, PC and the clock
      read 0, and the memory is the one from before. */
  lemma ResetZeroes(m: Machine)
    ensures forall q: Reg8 :: Get8(Reset(m).regs, q) == 0
    ensures forall q: Reg16 :: Get16(Reset(m).regs, q) == 0
    ensures Reset(m).clock == 0 && Reset(m).memory == m.memory
  {
  }
}
