/** Option and Result types and the error values the CPU core raises.
    The C# code throws exceptions; here each one is a value of `Error`. */
module Errors {

  datatype Option<+T> = None | Some(value: T)

  datatype Result<+R> = Success(value: R) | Failure(error: Error)

  /** The three ways the modelled core stops:
      - `InvalidBios`: the BIOS buffer handed to `MemoryBank` is not 256 bytes long
        (InvalidBiosException);
      - `UnknownInstruction(opcode)`: the sentinel handler of an opcode with no
        implementation was invoked (UnknownInstructionException carries the byte);
      - `MissingSlot(opcode)`: the fetched opcode indexes a table slot that the
        constructor never filled, so reading its descriptor dereferences null
        (a NullReferenceException in C#; the opcode is kept for diagnosis). */
  datatype Error =
    | InvalidBios
    | UnknownInstruction(opcode: bv8)
    | MissingSlot(opcode: bv8)
}

/** Byte and word helpers shared by the register file, the memory model and
    the operand decoding (the host is little-endian, so the low byte of a
    16-bit value is stored first). */
module Bytes {

  /** `n` zero bytes, as a freshly allocated C# array. */
  function Zeroes(n: nat): seq<bv8>
  {
    seq(n, _ => 0)
  }

  /** An unsigned 16-bit value (C# `ushort`). Words are plain integers in
      range so that their arithmetic can be stated modulo 65536; bytes are
      bit-vectors because the flags and rotations work on their bits. */
  type UShort = x: int | 0 <= x < 0x1_0000

  /** A C# `byte` that is only counted with (an instruction length), never
      taken apart into bits. */
  type ByteCount = x: int | 0 <= x < 256

  /** The byte whose value is `x`. */
  function ByteOf(x: int): (b: bv8)
    requires 0 <= x < 256
    ensures b as int == x
  {
    if x == 0 then 0 else
      var below := ByteOf(x - 1);
      assert below < 255;
      below + 1
  }

  /** The byte stored first (at the lower offset or address). */
  function Low(w: UShort): (b: bv8)
    ensures b as int == w % 256
  {
    ByteOf(w % 256)
  }

  /** The byte stored second. */
  function High(w: UShort): (b: bv8)
    ensures b as int == w / 256
  {
    ByteOf(w / 256)
  }

  /** The word whose bytes, in storage order, are `lo` then `hi`. */
  function LittleEndian(lo: bv8, hi: bv8): UShort
  {
    lo as int + 256 * hi as int
  }

  /** Splitting a word and composing its bytes again are inverse. */
  lemma WordRoundTrip(w: UShort, lo: bv8, hi: bv8)
    ensures LittleEndian(Low(w), High(w)) == w
    ensures Low(LittleEndian(lo, hi)) == lo && High(LittleEndian(lo, hi)) == hi
  {
    var x := LittleEndian(lo, hi);
    assert x % 256 == lo as int;
    assert x / 256 == hi as int;
    ByteInjective(Low(x), lo);
    ByteInjective(High(x), hi);
    assert w % 256 + 256 * (w / 256) == w;
  }

  /** A byte is determined by its value. */
  lemma ByteInjective(a: bv8, b: bv8)
    requires a as int == b as int
    ensures a == b
  {
  }

  /** Byte addition wraps modulo 256. */
  lemma IncrementWraps(v: bv8)
    ensures (v + 1) as int == (v as int + 1) % 256
  {
    if v == 255 {
    } else {
      assert v < 255;
    }
  }

  /** Byte subtraction wraps modulo 256. */
  lemma DecrementWraps(v: bv8)
    ensures (v - 1) as int == (v as int + 255) % 256
  {
    if v == 0 {
    } else {
      assert v > 0;
    }
  }

  /** Adding one and adding 0xFFFF (subtracting one) cancel modulo 65536. */
  lemma WordStepsCancel(x: UShort)
    ensures ((x + 1) % 0x1_0000 + 0xFFFF) % 0x1_0000 == x
    ensures ((x + 0xFFFF) % 0x1_0000 + 1) % 0x1_0000 == x
  {
    if x == 0xFFFF {
    } else if x == 0 {
    } else {
      assert (x + 1) % 0x1_0000 == x + 1;
      assert (x + 0xFFFF) % 0x1_0000 == x - 1;
    }
  }
}
