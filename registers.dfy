/** The register file of the LR35902 as the C# `Registers` struct lays it out
    with explicit field offsets: twelve bytes, in which the 8-bit registers
    and the 16-bit pairs AF, BC, DE and HL overlap, followed by SP at offset 8
    and PC at offset 10. The twelve bytes are the only storage; every 8-bit
    and 16-bit view is read from them. The host is little-endian, so the
    register at the lower offset is the LOW byte of its pair (B is the low
    byte of BC, F the high byte of AF), the reverse of the hardware's naming. */
module RegisterFile {
  import opened Bytes
  import opened FlagRegister

  /** The twelve backing bytes of the struct. */
  type Image = s: seq<bv8> | |s| == 12 witness Zeroes(12)

  datatype Reg8 = A | F | B | C | D | E | H | L

  /** The 8-bit registers that a `ref byte` parameter can name: F has type
      FlagRegister, not byte, so no handler helper can receive it. */
  type DataReg = r: Reg8 | r != F witness A

  datatype Reg16 = AF | BC | DE | HL | SP | PC

  function Offset8(r: Reg8): nat
  {
    match r
    case A => 0 case F => 1 case B => 2 case C => 3
    case D => 4 case E => 5 case H => 6 case L => 7
  }

  function Offset16(r: Reg16): nat
  {
    match r
    case AF => 0 case BC => 2 case DE => 4 case HL => 6 case SP => 8 case PC => 10
  }

  /** The pairs that have 8-bit halves (SP and PC have none). */
  predicate IsPair(r: Reg16)
  {
    r != SP && r != PC
  }

  /** The half at the lower offset, which the little-endian host reads as the low byte. */
  function LowHalf(r: Reg16): Reg8
    requires IsPair(r)
  {
    match r
    case AF => A case BC => B case DE => D case HL => H
  }

  function HighHalf(r: Reg16): Reg8
    requires IsPair(r)
  {
    match r
    case AF => F case BC => C case DE => E case HL => L
  }

  /** The pair an 8-bit register belongs to. */
  function PairOf(r: Reg8): (p: Reg16)
    ensures IsPair(p) && (LowHalf(p) == r || HighHalf(p) == r)
  {
    match r
    case A => AF case F => AF case B => BC case C => BC
    case D => DE case E => DE case H => HL case L => HL
  }

  function Get8(s: Image, r: Reg8): bv8
  {
    s[Offset8(r)]
  }

  /** The 16-bit view at a pair's offset, composed little-endian. */
  function Get16(s: Image, r: Reg16): UShort
  {
    LittleEndian(s[Offset16(r)], s[Offset16(r) + 1])
  }

  /** Splitting a 16-bit view gives back the two bytes it was read from. */
  lemma WordBytes(s: Image, r: Reg16)
    ensures Low(Get16(s, r)) == s[Offset16(r)] && High(Get16(s, r)) == s[Offset16(r) + 1]
  {
    WordRoundTrip(0, s[Offset16(r)], s[Offset16(r) + 1]);
  }

  /** Assigning an 8-bit field: only that byte changes, so SP, PC and the
      other seven 8-bit registers keep their values. */
  function Set8(s: Image, r: Reg8, v: bv8): (t: Image)
    ensures Get8(t, r) == v
    ensures forall q: Reg8 :: q != r ==> Get8(t, q) == Get8(s, q)
    ensures Get16(t, SP) == Get16(s, SP) && Get16(t, PC) == Get16(s, PC)
  {
    s[Offset8(r) := v]
  }

  /** Assigning a 16-bit field writes both of its bytes and no other. */
  function Set16(s: Image, r: Reg16, v: UShort): (t: Image)
    ensures Get16(t, r) == v
    ensures forall q: Reg16 :: q != r ==> Get16(t, q) == Get16(s, q)
    ensures forall q: Reg8 :: PairOf(q) != r ==> Get8(t, q) == Get8(s, q)
    ensures IsPair(r) ==> Get8(t, LowHalf(r)) == Low(v) && Get8(t, HighHalf(r)) == High(v)
  {
    WordRoundTrip(v, 0, 0);
    s[Offset16(r) := Low(v)][Offset16(r) + 1 := High(v)]
  }

  /** `SetFlagConditional` on the F byte: the flag's bit becomes `condition`,
      no other bit moves. */
  function WithFlag(f: bv8, flag: Flag, condition: bool): (r: bv8)
    ensures r & Bits(flag) == (if condition then Bits(flag) else 0)
    ensures r & !Bits(flag) == f & !Bits(flag)
  {
    if condition then f | Bits(flag) else f & !Bits(flag)
  }

  /** `EnableFlag` on the F byte (`F |= flag`). */
  function WithFlagEnabled(f: bv8, flag: Flag): (r: bv8)
    ensures r & Bits(flag) == Bits(flag)
    ensures r & !Bits(flag) == f & !Bits(flag)
  {
    f | Bits(flag)
  }

  /** `DisableFlag` on the F byte (`F &= ~flag`). */
  function WithFlagDisabled(f: bv8, flag: Flag): (r: bv8)
    ensures r & Bits(flag) == 0
    ensures r & !Bits(flag) == f & !Bits(flag)
  {
    f & !Bits(flag)
  }

  predicate FlagSet(s: Image, flag: Flag)
  {
    Get8(s, F) & Bits(flag) != 0
  }

  /** `SetFlagConditional` applied to the register file: it changes one bit
      of F and nothing else, in particular not A, the other half of AF. */
  lemma ConditionalFlagWrite(s: Image, flag: Flag, condition: bool)
    ensures var t := Set8(s, F, WithFlag(Get8(s, F), flag, condition));
      && FlagSet(t, flag) == condition
      && (forall g: Flag :: g != flag ==> FlagSet(t, g) == FlagSet(s, g))
      && Get8(t, F) & 0x0F == Get8(s, F) & 0x0F
      && (forall q: Reg8 :: q != F ==> Get8(t, q) == Get8(s, q))
      && Get16(t, BC) == Get16(s, BC) && Get16(t, DE) == Get16(s, DE) && Get16(t, HL) == Get16(s, HL)
      && Get16(t, SP) == Get16(s, SP) && Get16(t, PC) == Get16(s, PC)
  {
  }

  /** A second write to the same 8-bit register replaces the first. */
  lemma Set8Overwrites(s: Image, r: Reg8, first: bv8, second: bv8)
    ensures Set8(Set8(s, r, first), r, second) == Set8(s, r, second)
  {
  }

  /** Writes to two different 8-bit registers commute. */
  lemma Set8Commutes(s: Image, r: Reg8, a: bv8, q: Reg8, b: bv8)
    requires r != q
    ensures Set8(Set8(s, r, a), q, b) == Set8(Set8(s, q, b), r, a)
  {
  }

  /** A write to F is invisible in every 16-bit view other than AF. */
  lemma FlagWriteKeepsWord(s: Image, f: bv8, r: Reg16)
    requires r != AF
    ensures Get16(Set8(s, F, f), r) == Get16(s, r)
  {
  }

  /** A write to a 16-bit view other than AF leaves F alone. */
  lemma WordWriteKeepsFlags(s: Image, r: Reg16, w: UShort)
    requires r != AF
    ensures Get8(Set16(s, r, w), F) == Get8(s, F)
  {
  }

  /** A write to F and a write to a 16-bit view other than AF commute. */
  lemma Set16CommutesWithF(s: Image, r: Reg16, w: UShort, f: bv8)
    requires r != AF
    ensures Set16(Set8(s, F, f), r, w) == Set8(Set16(s, r, w), F, f)
  {
    var o := Offset16(r);
    assert o >= 2;
    assert Set16(Set8(s, F, f), r, w) == s[1 := f][o := Low(w)][o + 1 := High(w)];
    assert Set8(Set16(s, r, w), F, f) == s[o := Low(w)][o + 1 := High(w)][1 := f];
    UpdatesCommute(s, 1, f, o, Low(w), High(w));
  }

  /** Writing one byte and writing two adjacent bytes elsewhere commute. */
  lemma UpdatesCommute(s: Image, i: nat, x: bv8, o: nat, a: bv8, b: bv8)
    requires i < 12 && o + 1 < 12 && i != o && i != o + 1
    ensures s[i := x][o := a][o + 1 := b] == s[o := a][o + 1 := b][i := x]
  {
    var lhs := s[i := x][o := a][o + 1 := b];
    var rhs := s[o := a][o + 1 := b][i := x];
    assert forall k | 0 <= k < 12 :: lhs[k] == rhs[k];
  }

  /** Every pair reads as low half + 256 * high half. */
  lemma PairView(s: Image, r: Reg16)
    requires IsPair(r)
    ensures Get16(s, r) as int == Get8(s, LowHalf(r)) as int + 256 * Get8(s, HighHalf(r)) as int
  {
  }

  /** After `BC := v`, B holds v mod 256 and C holds v div 256; likewise for
      AF, DE and HL. The other pairs, SP and PC do not change. */
  lemma WordWriteSplits(s: Image, r: Reg16, v: UShort)
    requires IsPair(r)
    ensures Get8(Set16(s, r, v), LowHalf(r)) as int == v as int % 256
    ensures Get8(Set16(s, r, v), HighHalf(r)) as int == v as int / 256
    ensures forall q: Reg16 :: q != r ==> Get16(Set16(s, r, v), q) == Get16(s, q)
  {
  }

  /** Writing one 8-bit register shows up in its pair at the right byte and
      leaves the partner byte, the other pairs, SP and PC unchanged. */
  lemma ByteWriteVisibleInPair(s: Image, r: Reg8, v: bv8)
    ensures var p := PairOf(r);
      Get16(Set8(s, r, v), p) ==
        if LowHalf(p) == r then LittleEndian(v, Get8(s, HighHalf(p))) else LittleEndian(Get8(s, LowHalf(p)), v)
    ensures forall q: Reg16 :: q != PairOf(r) ==> Get16(Set8(s, r, v), q) == Get16(s, q)
  {
  }

  /** SP and PC overlap no 8-bit register and no pair. */
  lemma StackAndProgramCounterStandAlone(s: Image, v: UShort)
    ensures forall q: Reg8 :: Get8(Set16(s, SP, v), q) == Get8(s, q) && Get8(Set16(s, PC, v), q) == Get8(s, q)
    ensures forall q: Reg16 :: q != SP ==> Get16(Set16(s, SP, v), q) == Get16(s, q)
    ensures forall q: Reg16 :: q != PC ==> Get16(Set16(s, PC, v), q) == Get16(s, q)
  {
  }

  /** Enabling and disabling are idempotent. */
  lemma FlagOpsIdempotent(f: bv8, flag: Flag)
    ensures WithFlagEnabled(WithFlagEnabled(f, flag), flag) == WithFlagEnabled(f, flag)
    ensures WithFlagDisabled(WithFlagDisabled(f, flag), flag) == WithFlagDisabled(f, flag)
  {
  }

  /** Enable then disable clears the flag and restores every other bit; it
      gives back the original byte exactly when the flag was clear. */
  lemma EnableThenDisable(f: bv8, flag: Flag)
    ensures WithFlagDisabled(WithFlagEnabled(f, flag), flag) == f & !Bits(flag)
    ensures WithFlag(WithFlag(f, flag, true), flag, false) == f <==> f & Bits(flag) == 0
  {
  }

  /** No flag operation touches the low nibble of F. */
  lemma FlagOpsKeepLowNibble(f: bv8, flag: Flag, condition: bool)
    ensures WithFlag(f, flag, condition) & 0x0F == f & 0x0F
    ensures WithFlagEnabled(f, flag) & 0x0F == f & 0x0F
    ensures WithFlagDisabled(f, flag) & 0x0F == f & 0x0F
  {
  }

  /** Nothing masks a direct write to AF: it can put bits in F's low nibble. */
  lemma WordWriteReachesLowNibble(s: Image)
    ensures Get8(Set16(s, AF, 0x0F00), F) & 0x0F == 0x0F
  {
  }

  /** The C# struct: its twelve bytes live in one array that every view
      reads and every assignment writes. */
  class Registers {
    var bytes: array<bv8>

    ghost predicate Valid()
      reads this
    {
      bytes.Length == 12
    }

    function Snapshot(): Image
      reads this, bytes
      requires Valid()
    {
      bytes[..]
    }

    /** Reading an 8-bit field: the view of the current bytes. */
    function Read8(r: Reg8): bv8
      reads this, bytes
      requires Valid()
    {
      Get8(Snapshot(), r)
    }

    /** Reading a 16-bit field: the view of the current bytes. */
    function Read16(r: Reg16): UShort
      reads this, bytes
      requires Valid()
    {
      Get16(Snapshot(), r)
    }

    /** `new Registers()`: every byte zero. */
    constructor ()
      ensures Valid() && fresh(bytes)
      ensures Snapshot() == Zeroes(12)
    {
      bytes := new bv8[12](_ => 0);
    }

    method Assign8(r: Reg8, v: bv8)
      requires Valid()
      modifies bytes
      ensures Snapshot() == Set8(old(Snapshot()), r, v)
    {
      bytes[Offset8(r)] := v;
    }

    method Assign16(r: Reg16, v: UShort)
      requires Valid()
      modifies bytes
      ensures Snapshot() == Set16(old(Snapshot()), r, v)
    {
      bytes[Offset16(r)] := Low(v);
      bytes[Offset16(r) + 1] := High(v);
    }

    method SetFlagConditional(flag: Flag, condition: bool)
      requires Valid()
      modifies bytes
      ensures Snapshot() == Set8(old(Snapshot()), F, WithFlag(Get8(old(Snapshot()), F), flag, condition))
    {
      bytes[Offset8(F)] := WithFlag(bytes[Offset8(F)], flag, condition);
    }

    method EnableFlag(flag: Flag)
      requires Valid()
      modifies bytes
      ensures Snapshot() == Set8(old(Snapshot()), F, WithFlagEnabled(Get8(old(Snapshot()), F), flag))
    {
      bytes[Offset8(F)] := bytes[Offset8(F)] | Bits(flag);
    }

    method DisableFlag(flag: Flag)
      requires Valid()
      modifies bytes
      ensures Snapshot() == Set8(old(Snapshot()), F, WithFlagDisabled(Get8(old(Snapshot()), F), flag))
    {
      bytes[Offset8(F)] := bytes[Offset8(F)] & !Bits(flag);
    }
  }
}
