/** The memory of the emulator as `MemoryBank` implements it: eight fixed-size
    regions that are allocated and never written, reads that always give 0
    and writes that do nothing.

    The instruction handlers also write memory through `FetchMemory`, which
    the class does not define. This model ASSUMES that `FetchMemory(address,
    length)` returns a writable view of `length` consecutive bytes of a flat
    65536-byte store, wrapping from 0xFFFF to 0x0000, and that a 16-bit value
    written through it lands little-endian (low byte at `address`). Nothing in
    `MemoryBank` reads that store back: `ReadByte` still returns 0. */
module Memory {
  import opened Bytes
  import opened Errors

  const BiosSize: nat := 256
  const RomSize: nat := 32768
  const SramSize: nat := 8192
  const IoSize: nat := 256
  const VramSize: nat := 8192
  const OamSize: nat := 256
  const WramSize: nat := 8192
  const HramSize: nat := 128

  /** The assumed store behind `FetchMemory`: one byte per 16-bit address. */
  type Store = s: seq<bv8> | |s| == 0x1_0000 witness Zeroes(0x1_0000)

  /** A C# `short`, the parameter type of `WriteShort`. */
  type Short = x: int | -0x8000 <= x < 0x8000

  datatype MemoryBank = MemoryBank(
    bios: seq<bv8>, rom: seq<bv8>, sram: seq<bv8>, io: seq<bv8>,
    vram: seq<bv8>, oam: seq<bv8>, wram: seq<bv8>, hram: seq<bv8>,
    fetchable: Store)
  {
    /** Every region has the size its field initialiser gives it. */
    predicate Valid()
    {
      && |bios| == BiosSize && |rom| == RomSize && |sram| == SramSize && |io| == IoSize
      && |vram| == VramSize && |oam| == OamSize && |wram| == WramSize && |hram| == HramSize
    }

    /** Every region holds only zero bytes. */
    predicate RegionsZero()
    {
      && bios == Zeroes(|bios|) && rom == Zeroes(|rom|) && sram == Zeroes(|sram|)
      && io == Zeroes(|io|) && vram == Zeroes(|vram|) && oam == Zeroes(|oam|)
      && wram == Zeroes(|wram|) && hram == Zeroes(|hram|)
    }

    /** `ReadByte`: the address is ignored and the result is 0. */
    function ReadByte(address: UShort): bv8
    {
      0
    }

    /** `ReadShort`: declared to return a byte, and that byte is 0. */
    function ReadShort(address: UShort): bv8
    {
      0
    }

    /** `WriteByte`: an empty body. */
    function WriteByte(address: UShort, value: bv8): MemoryBank
    {
      this
    }

    /** `WriteShort`: an empty body. */
    function WriteShort(address: UShort, value: Short): MemoryBank
    {
      this
    }

    /** The assumed `FetchMemory(address, length)` view, read back. */
    function Fetch(address: UShort, length: nat): seq<bv8>
    {
      seq(length, i requires 0 <= i < length => fetchable[(address + i) % 0x1_0000])
    }

    /** A byte written through `FetchMemory(address, 1)`. */
    function Store8(address: UShort, value: bv8): (m: MemoryBank)
      ensures m.Fetch(address, 1) == [value]
      ensures m == this.(fetchable := m.fetchable)
      ensures forall a: UShort :: a != address ==> m.fetchable[a] == fetchable[a]
      ensures m.Valid() == Valid() && m.RegionsZero() == RegionsZero()
    {
      this.(fetchable := fetchable[address := value])
    }

    /** A word written through `FetchMemory(address, 2)` on a little-endian
        host: low byte at `address`, high byte at the next address. */
    function Store16(address: UShort, value: UShort): (m: MemoryBank)
      ensures m.Fetch(address, 2) == [Low(value), High(value)]
      ensures m == this.(fetchable := m.fetchable)
      ensures forall a: UShort :: a != address && a != (address + 1) % 0x1_0000 ==>
        m.fetchable[a] == fetchable[a]
      ensures m.Valid() == Valid() && m.RegionsZero() == RegionsZero()
    {
      var next := (address + 1) % 0x1_0000;
      this.(fetchable := fetchable[address := Low(value)][next := High(value)])
    }
  }

  /** `new MemoryBank(bios)`: the regions are allocated zero-filled, the BIOS
      is only checked for its length and not copied anywhere. */
  function New(bios: seq<bv8>): (r: Result<MemoryBank>)
    ensures r.Failure? <==> |bios| != BiosSize
    ensures r.Failure? ==> r.error == InvalidBios
    ensures r.Success? ==> r.value.Valid() && r.value.RegionsZero()
    ensures r.Success? ==> r.value.fetchable == Zeroes(0x1_0000)
  {
    if |bios| != 256 then
      Failure(InvalidBios)
    else
      Success(MemoryBank(
        Zeroes(BiosSize), Zeroes(RomSize), Zeroes(SramSize), Zeroes(IoSize),
        Zeroes(VramSize), Zeroes(OamSize), Zeroes(WramSize), Zeroes(HramSize),
        Zeroes(0x1_0000)))
  }

  /** Both read operations give 0 at every address, whatever was written
      before through `WriteByte`, `WriteShort` or the `FetchMemory` store. */
  lemma ReadsAreZero(m: MemoryBank, address: UShort, target: UShort, b: bv8, w: Short, u: UShort)
    ensures m.ReadByte(address) == 0 && m.ReadShort(address) == 0
    ensures m.WriteByte(target, b).ReadByte(address) == 0
    ensures m.WriteShort(target, w).ReadShort(address) == 0
    ensures m.Store8(target, b).ReadByte(address) == 0 && m.Store16(target, u).ReadByte(address) == 0
  {
  }

  /** `WriteByte` and `WriteShort` leave the bank exactly as it was. */
  lemma WritesChangeNothing(m: MemoryBank, address: UShort, b: bv8, w: Short)
    ensures m.WriteByte(address, b) == m
    ensures m.WriteShort(address, w) == m
  {
  }

  /** A word stored through the assumed `FetchMemory` comes back from the
      same two bytes. */
  lemma Store16RoundTrip(m: MemoryBank, address: UShort, value: UShort)
    ensures var view := m.Store16(address, value).Fetch(address, 2);
      LittleEndian(view[0], view[1]) == value
  {
    WordRoundTrip(value, 0, 0);
  }
}
