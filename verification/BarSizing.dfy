/**
  Sizing a base register (section 6.2.5.1 of the PCI Local Bus Specification 3.0): all ones are
  written, and the bits that stay zero tell the size.
*/
module BarSizing {

  datatype Space = IoSpace | MemSpace | RomSpace

  const DEFAULT_SIZE: bv64 := 256
  const ONES: bv32 := 0xffff_ffff

  /** The address bits of a register of this kind. */
  function AddressBits(space: Space): (r: bv64) {
    match space
    case IoSpace => 0xffff_ffff_ffff_fffc
    case MemSpace => 0xffff_ffff_ffff_fff0
    case RomSpace => 0xffff_ffff_ffff_fffe
  }

  /** What a register reads as after `x` is written: some bits are writable, the others are fixed. */
  function Stored(x: bv32, mask: bv32, fixed: bv32): (r: bv32) { (x & mask) | fixed }

  /** The readback with the bits above a narrow decoder filled in. */
  function Filled(readback: bv64, space: Space, wide: bool): (r: bv64) {
    var a := readback & AddressBits(space);
    var b := if a != 0 && a < 0x1_0000 then a | 0xffff_0000 else a;
    var c := if b != 0 && b < 0x1_0000_0000 then b | 0xffff_ffff_0000_0000 else b;
    if wide && c & 0xffff_ff00_0000_0000 == 0 then c | 0xffff_ff00_0000_0000 else c
  }

  function Joined(lo: bv32, hi: bv32, wide: bool): (r: bv64) {
    if wide then lo as bv64 | ((hi as bv64) << 32) else lo as bv64
  }

  function Verdict(probe: bv32, readLo: bv32, readback: bv64, space: Space, wide: bool): (r: bv64) {
    if probe == readLo then DEFAULT_SIZE else !Filled(readback, space, wide) + 1
  }

  /** The second probe: is anything writable at all? */
  function Probed(readLo: bv32, readHi: bv32, cur0: bv32, cur1: bv32, maskLo: bv32, fixed: bv32): (r: bv32) {
    if readLo != 0 && cur0 != 0 && readHi == cur1 then Stored(0, maskLo, fixed) else readHi
  }

  /** What the readback says, given what the register held. */
  function Judged(readLo: bv32, readHi: bv32, cur0: bv32, cur1: bv32, maskLo: bv32, fixed: bv32, space: Space,
          wide: bool): (r: bv64) {
    Verdict(Probed(readLo, readHi, cur0, cur1, maskLo, fixed), readLo,
            Joined(readLo, readHi, wide), space, wide)
  }

  /** The result of `window_size` for a register with these writable and fixed bits, holding `lo` and `hi`. */
  function WindowSize(lo: bv32, hi: bv32, maskLo: bv32, maskHi: bv32, fixed: bv32, space: Space,
          wide: bool): (r: bv64) {
    Judged(Stored(ONES, maskLo, fixed), if wide then Stored(ONES, maskHi, 0) else ONES,
           lo, if wide then hi else ONES, maskLo, fixed, space, wide)
  }

  lemma {:induction false} FixedIsStored(mask: bv32, fixed: bv32)
    ensures fixed == Stored(fixed, mask, fixed)
  {
  }

  /** A base register of the hardware. */
  class BaseRegister {
    const maskLo: bv32
    const maskHi: bv32
    const fixed: bv32
    var lo: bv32
    var hi: bv32

    /** The register holds something that can be stored in it. */
    ghost predicate Valid()
      reads this
    {
      lo == Stored(lo, maskLo, fixed) && hi == Stored(hi, maskHi, 0)
    }

    constructor (maskLo: bv32, maskHi: bv32, fixed: bv32)
      ensures Valid() && this.maskLo == maskLo && this.maskHi == maskHi && this.fixed == fixed
    {
      this.maskLo, this.maskHi, this.fixed := maskLo, maskHi, fixed;
      lo, hi := fixed, 0;
      new;
      FixedIsStored(maskLo, fixed);
      FixedIsStored(maskHi, 0);
    }

    method WriteLo(x: bv32)
      modifies this`lo
      ensures lo == Stored(x, maskLo, fixed)
    {
      lo := Stored(x, maskLo, fixed);
    }

    method WriteHi(x: bv32)
      modifies this`hi
      ensures hi == Stored(x, maskHi, 0)
    {
      hi := Stored(x, maskHi, 0);
    }

    /** Writes all ones and reads back. */
    method Probe(wide: bool) returns (readLo: bv32, readHi: bv32)
      modifies this
      ensures readLo == Stored(ONES, maskLo, fixed) && readHi == (if wide then Stored(ONES, maskHi, 0) else ONES)
      ensures !wide ==> hi == old(hi)
    {
      WriteLo(ONES);
      readHi := ONES;
      if wide {
        WriteHi(ONES);
        readHi := hi;
      }
      readLo := lo;
    }

    /** Some chips are preprogrammed with an address: is anything writable at all? */
    method SecondProbe(readLo: bv32, readHi: bv32, cur0: bv32, cur1: bv32) returns (probe: bv32)
      modifies this`lo
      ensures probe == Probed(readLo, readHi, cur0, cur1, maskLo, fixed)
    {
      probe := readHi;
      if readLo != 0 && cur0 != 0 && readHi == cur1 {
        WriteLo(0);
        probe := lo;
      }
    }

    method Restore(cur0: bv32, cur1: bv32, wide: bool)
      requires cur0 == Stored(cur0, maskLo, fixed) && (wide ==> cur1 == Stored(cur1, maskHi, 0))
      modifies this
      ensures lo == cur0 && hi == (if wide then cur1 else old(hi))
    {
      WriteLo(cur0);
      if wide {
        WriteHi(cur1);
      }
    }

    /** `window_size`: the size, and the register as it was. */
    method Size(space: Space, wide: bool) returns (size: bv64)
      requires Valid()
      modifies this
      ensures size == WindowSize(old(lo), old(hi), maskLo, maskHi, fixed, space, wide)
      ensures Valid() && lo == old(lo) && hi == old(hi)
    {
      var cur0, cur1 := lo, if wide then hi else ONES;
      var readLo, readHi := Probe(wide);
      var readback := Joined(readLo, readHi, wide);
      var probe := SecondProbe(readLo, readHi, cur0, cur1);
      Restore(cur0, cur1, wide);
      size := Verdict(probe, readLo, readback, space, wide);
      assert size == Judged(readLo, readHi, cur0, cur1, maskLo, fixed, space, wide);
    }
  }

  // ---------------------------------------------------------------- what the size means

  predicate IsPower(size: bv64) { size != 0 && size & (size - 1) == 0 }

  /** The writable address bits of a register of this size. */
  function MaskOf(size: bv64): (r: bv64) { !(size - 1) }

  function Low(x: bv64): (r: bv32) { (x & 0xffff_ffff) as bv32 }

  function High(x: bv64): (r: bv32) { (x >> 32) as bv32 }

  /** The fixed bits of an I/O or memory register are its type bits. */
  predicate TypeBits(fixed: bv32, space: Space, wide: bool) {
    match space
    case IoSpace => fixed == 1 && !wide
    case MemSpace => fixed & 0xffff_fff1 == 0 && (wide <==> fixed & 6 == 4)
    case RomSpace => false
  }

  /** A 32-bit I/O or memory register gives its size, whatever it holds. */
  lemma {:induction false} Size32(size: bv64, lo: bv32, fixed: bv32, space: Space)
    requires IsPower(size) && (if space == IoSpace then 4 else 16) <= size < 0x1_0000_0000 && TypeBits(fixed, space, false)
    requires lo == Stored(lo, Low(MaskOf(size)), fixed)
    ensures WindowSize(lo, 0, Low(MaskOf(size)), 0, fixed, space, false) == size
  {
    match space
    case IoSpace =>
    case MemSpace =>
  }

  /**
    An expansion ROM register is sized like memory.  Bit 0 is its enable bit, which is writable; bits 1
    to 10 are reserved.  It gives its size, whatever it holds, exactly when bits 4 to 10 read as zero.
  */
  lemma {:induction false} SizeRomIff(size: bv64, lo: bv32, reserved: bv32)
    requires IsPower(size) && 2048 <= size < 0x1_0000_0000 && reserved & 0xffff_f801 == 0
    requires lo == Stored(lo, Low(MaskOf(size)) | 1, reserved)
    ensures WindowSize(lo, 0, Low(MaskOf(size)) | 1, 0, reserved, MemSpace, false) == size <==> reserved & 0x7f0 == 0
  {
  }

  /** So does an I/O register that decodes 16 bits only. */
  lemma {:induction false} SizeIo16(size: bv64, lo: bv32)
    requires IsPower(size) && 4 <= size < 0x1_0000
    requires lo == Stored(lo, Low(MaskOf(size)) & 0xffff, 1)
    ensures WindowSize(lo, 0, Low(MaskOf(size)) & 0xffff, 0, 1, IoSpace, false) == size
  {
  }

  /** A register that is not there reads as zero and has no size. */
  lemma {:induction false} SizeOfUnimplemented(space: Space)
    ensures WindowSize(0, 0, 0, 0, 0, space, false) == 0
  {
  }

  /** A register wired to an address is given the default size. */
  lemma {:induction false} SizeOfHardWired(fixed: bv32, space: Space)
    requires fixed != 0
    ensures WindowSize(fixed, 0, 0, 0, fixed, space, false) == DEFAULT_SIZE
  {
  }

  /**
    A 64-bit register gives its size exactly when it is smaller than 4 GB or its upper half does not
    hold all the ones it can: otherwise the second probe, meant for wired registers, sees nothing move
    in the lower half.
  */
  lemma {:induction false} Size64Iff(size: bv64, lo: bv32, hi: bv32, fixed: bv32)
    requires IsPower(size) && size >= 16 && TypeBits(fixed, MemSpace, true)
    requires lo == Stored(lo, Low(MaskOf(size)), fixed) && hi == Stored(hi, High(MaskOf(size)), 0)
    ensures WindowSize(lo, hi, Low(MaskOf(size)), High(MaskOf(size)), fixed, MemSpace, true) == size <==>
            !(size >= 0x1_0000_0000 && hi == High(MaskOf(size)))
    ensures size >= 0x1_0000_0000 && hi == High(MaskOf(size)) ==>
              WindowSize(lo, hi, Low(MaskOf(size)), High(MaskOf(size)), fixed, MemSpace, true) == DEFAULT_SIZE
  {
  }

  /** The same for a device that decodes 40 bits. */
  lemma {:induction false} Size40Iff(size: bv64, lo: bv32, hi: bv32, fixed: bv32)
    requires IsPower(size) && 16 <= size < 0x100_0000_0000 && TypeBits(fixed, MemSpace, true)
    requires lo == Stored(lo, Low(MaskOf(size)), fixed) && hi == Stored(hi, High(MaskOf(size)) & 0xff, 0)
    ensures WindowSize(lo, hi, Low(MaskOf(size)), High(MaskOf(size)) & 0xff, fixed, MemSpace, true) == size <==>
            !(size >= 0x1_0000_0000 && hi == High(MaskOf(size)) & 0xff)
    ensures size >= 0x1_0000_0000 && hi == High(MaskOf(size)) & 0xff ==>
              WindowSize(lo, hi, Low(MaskOf(size)), High(MaskOf(size)) & 0xff, fixed, MemSpace, true) == DEFAULT_SIZE
  {
  }
}
