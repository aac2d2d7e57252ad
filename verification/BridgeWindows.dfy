/**
  The window registers of a PCI-to-PCI bridge (sections 3.2.5.6 and 3.2.5.8 to 3.2.5.11 of the
  PCI-to-PCI Bridge Architecture Specification 1.2): what `configure_bridge_io`, `_mem` and `_pref`
  write is what `configure_bridge` reads back.  The low four bits of each base and limit are
  read-only: 0, or 1 where the upper half is implemented.
*/
module BridgeWindows {
  import Bits
  import opened Common

  const TWO16: nat := 0x1_0000
  const TWO31: nat := 0x8000_0000
  const TWO32: nat := 0x1_0000_0000

  /** Base, limit and their upper halves. */
  datatype Window = Window(base: nat, limit: nat, baseUpper: nat, limitUpper: nat)

  /** The read-only type bits; both halves agree. */
  predicate Typed(w: Window) { w.base % 16 == w.limit % 16 <= 1 }

  predicate Wide(w: Window) { w.base % 16 == 1 }

  /** What a register holds after `x` is written to it: the type bits stay. */
  function Kept(x: nat, was: nat): (r: nat) { 16 * (x / 16) + was % 16 }

  // ---------------------------------------------------------------- I/O

  function WriteIo(w: Window, start: nat, end: nat): (r: Window) {
    var low := w.(base := Kept(start / KB4 % 16 * 16, w.base), limit := Kept(end / KB4 % 16 * 16, w.limit));
    if w.base % 2 == 1 then low.(baseUpper := start / TWO16 % TWO16, limitUpper := end / TWO16 % TWO16) else low
  }

  /** `(uint64_t)(word1 << 16)`: the shift is done in `int`, so a set top bit is extended. */
  function ShiftedInt(upper: nat): (r: nat) {
    if upper >= 0x8000 then upper * TWO16 + (TWO64 - TWO32) else upper * TWO16
  }

  function ReadIo(w: Window): (nat, nat) {
    var start := ShiftedInt(if w.base % 16 != 0 then w.baseUpper else 0) + w.base / 16 * KB4;
    var end := ShiftedInt(if w.limit % 16 != 0 then w.limitUpper else 0) + w.limit / 16 * KB4 + (KB4 - 1);
    if end < start then (0, 0) else (start, end)
  }

  /** A 16-bit window reaches the first 64 KB, a 32-bit one what an `int` shifted left by 16 can hold. */
  predicate IoReach(w: Window, x: nat) {
    if Wide(w) then x < TWO31 || x >= TWO64 - TWO31 else x < TWO16
  }

  predicate Whole(start: nat, end: nat, g: nat)
    requires g > 0
  {
    start <= end && start % g == 0 && (end + 1) % g == 0
  }

  // ---------------------------------------------------------------- memory

  function WriteMem(w: Window, start: nat, end: nat): (r: Window) {
    w.(base := Kept(start / MEG1 % 0x1000 * 16, w.base), limit := Kept(end / MEG1 % 0x1000 * 16, w.limit))
  }

  function ReadMem(w: Window): (nat, nat) {
    var start := w.base * TWO16;
    var end := w.limit / 16 * MEG1 + (MEG1 - 1);
    if end < start then (0, 0) else (start, end)
  }

  // ---------------------------------------------------------------- prefetchable memory

  function WritePref(w: Window, start: nat, end: nat): (r: Window) {
    var low := WriteMem(w, start, end);
    if w.base % 2 == 1 then low.(baseUpper := start / TWO32 % TWO32, limitUpper := end / TWO32 % TWO32) else low
  }

  function ReadPref(w: Window): (nat, nat) {
    var start := (if w.base % 16 != 0 then w.baseUpper else 0) * TWO32 + w.base / 16 * MEG1;
    var end := (if w.limit % 16 != 0 then w.limitUpper else 0) * TWO32 + w.limit / 16 * MEG1 + (MEG1 - 1);
    if end < start then (0, 0) else (start, end)
  }

  // ---------------------------------------------------------------- round trips

  /** The type bits decide alike whether the upper halves are written and whether they are read. */
  lemma {:induction false} TypeBits(w: Window)
    requires Typed(w)
    ensures w.base % 2 == 1 <==> Wide(w)
    ensures w.base % 16 != 0 <==> Wide(w)
    ensures w.limit % 16 != 0 <==> Wide(w)
  {
    var q, r := w.base / 16, w.base % 16;
    assert w.base == 2 * (8 * q) + r;
    Bits.ModUnique(w.base, 2, 8 * q, r);
  }

  lemma {:induction false} KeptParts(n: nat, was: nat)
    ensures Kept(n * 16, was) % 16 == was % 16 && Kept(n * 16, was) / 16 == n
  {
  }

  /** The two halves of a 16-bit or 32-bit I/O address. */
  lemma {:induction false} IoAddress(x: nat, wide: bool)
    requires x < TWO64
    ensures ShiftedInt(if wide then x / TWO16 % TWO16 else 0) + x / KB4 % 16 * KB4 == x - x % KB4 <==>
            if wide then x < TWO31 || x >= TWO64 - TWO31 else x < TWO16
  {
    var u := x / TWO16;
    assert x == TWO16 * u + KB4 * (x / KB4 % 16) + x % KB4;
    if wide {
      var h := u / TWO16;
      assert u == TWO16 * h + u % TWO16 && h < TWO32;
    }
  }

  lemma {:induction false} AlignedDown(x: nat, g: nat)
    requires g == KB4 || g == MEG1
    ensures x % g == 0 <==> x - x % g == x
    ensures (x + 1) % g == 0 <==> x - x % g + (g - 1) == x
  {
  }

  /** What is read back of an I/O address. */
  function IoBack(x: nat, wide: bool): (r: nat) {
    ShiftedInt(if wide then x / TWO16 % TWO16 else 0) + x / KB4 % 16 * KB4
  }

  lemma {:induction false} ReadIoBack(w: Window, start: nat, end: nat)
    requires Typed(w)
    ensures var s, e := IoBack(start, Wide(w)), IoBack(end, Wide(w)) + (KB4 - 1);
            ReadIo(WriteIo(w, start, end)) == if e < s then (0, 0) else (s, e)
  {
    TypeBits(w);
    KeptParts(start / KB4 % 16, w.base);
    KeptParts(end / KB4 % 16, w.limit);
  }

  lemma {:induction false} IoBackIff(x: nat, wide: bool)
    requires x < TWO64
    ensures IoBack(x, wide) % KB4 == 0
    ensures IoBack(x, wide) == x <==> x % KB4 == 0 && (if wide then x < TWO31 || x >= TWO64 - TWO31 else x < TWO16)
    ensures IoBack(x, wide) + (KB4 - 1) == x <==> (x + 1) % KB4 == 0 && (if wide then x < TWO31 || x >= TWO64 - TWO31 else x < TWO16)
  {
    IoAddress(x, wide);
    AlignedDown(x, KB4);
    var u := if wide then x / TWO16 % TWO16 else 0;
    assert ShiftedInt(u) == KB4 * (16 * u + if u >= 0x8000 then (TWO64 - TWO32) / KB4 else 0);
  }

  /** An I/O window reads back as it was set exactly when it is whole 4 KB units within reach. */
  lemma {:induction false} IoRoundTripIff(w: Window, start: nat, end: nat)
    requires Typed(w) && start < TWO64 && end < TWO64
    ensures ReadIo(WriteIo(w, start, end)) == (start, end) <==> Whole(start, end, KB4) && IoReach(w, start) && IoReach(w, end)
  {
    ReadIoBack(w, start, end);
    IoBackIff(start, Wide(w));
    IoBackIff(end, Wide(w));
  }

  lemma {:induction false} MemAddress(x: nat)
    requires x < TWO64
    ensures x / MEG1 % 0x1000 * MEG1 == x <==> x % MEG1 == 0 && x < TWO32
    ensures x / MEG1 % 0x1000 * MEG1 + (MEG1 - 1) == x <==> (x + 1) % MEG1 == 0 && x < TWO32
  {
    var h := x / TWO32;
    assert x / MEG1 == 0x1000 * h + x / MEG1 % 0x1000;
    assert x == MEG1 * (x / MEG1) + x % MEG1;
  }

  /** A memory window reads back as it was set exactly when it is whole megabytes below 4 GB. */
  lemma {:induction false} MemRoundTripIff(w: Window, start: nat, end: nat)
    requires w.base % 16 == 0 && w.limit % 16 == 0 && start < TWO64 && end < TWO64
    ensures ReadMem(WriteMem(w, start, end)) == (start, end) <==> Whole(start, end, MEG1) && end < TWO32
  {
    KeptParts(start / MEG1 % 0x1000, w.base);
    KeptParts(end / MEG1 % 0x1000, w.limit);
    MemAddress(start);
    MemAddress(end);
  }

  /** What is read back of a prefetchable address. */
  function PrefBack(x: nat, wide: bool): (r: nat) {
    (if wide then x / TWO32 % TWO32 else 0) * TWO32 + x / MEG1 % 0x1000 * MEG1
  }

  lemma {:induction false} PrefBackIff(x: nat, wide: bool)
    requires x < TWO64
    ensures PrefBack(x, wide) == x <==> x % MEG1 == 0 && (wide || x < TWO32)
    ensures PrefBack(x, wide) + (MEG1 - 1) == x <==> (x + 1) % MEG1 == 0 && (wide || x < TWO32)
  {
    AlignedDown(x, MEG1);
    PrefHalves(x);
  }

  /** The two halves and what lies below a megabyte. */
  lemma {:induction false} PrefHalves(x: nat)
    requires x < TWO64
    ensures x == x / TWO32 * TWO32 + x / MEG1 % 0x1000 * MEG1 + x % MEG1
    ensures x / TWO32 % TWO32 == x / TWO32 && x / MEG1 % 0x1000 * MEG1 + x % MEG1 < TWO32
  {
    var m := x / MEG1;
    var h, l := m / 0x1000, m % 0x1000;
    assert m == 0x1000 * h + l && x == MEG1 * m + x % MEG1;
    Bits.ModUnique(x, TWO32, h, l * MEG1 + x % MEG1);
    Bits.ModUnique(h, TWO32, 0, h);
  }

  lemma {:induction false} ReadPrefBack(w: Window, start: nat, end: nat)
    requires Typed(w)
    ensures var s, e := PrefBack(start, Wide(w)), PrefBack(end, Wide(w)) + (MEG1 - 1);
            ReadPref(WritePref(w, start, end)) == if e < s then (0, 0) else (s, e)
  {
    PrefParts(w, start, end);
  }

  /** The register halves after a prefetchable window has been written. */
  lemma {:induction false} PrefParts(w: Window, start: nat, end: nat)
    requires Typed(w)
    ensures var r := WritePref(w, start, end);
            && r.base / 16 == start / MEG1 % 0x1000 && (r.base % 16 != 0 <==> Wide(w))
            && r.limit / 16 == end / MEG1 % 0x1000 && (r.limit % 16 != 0 <==> Wide(w))
            && (Wide(w) ==> r.baseUpper == start / TWO32 % TWO32 && r.limitUpper == end / TWO32 % TWO32)
  {
    TypeBits(w);
    KeptParts(start / MEG1 % 0x1000, w.base);
    KeptParts(end / MEG1 % 0x1000, w.limit);
  }

  /** A prefetchable window reads back as it was set exactly when it is whole megabytes, below 4 GB if 32-bit. */
  lemma {:induction false} PrefRoundTripIff(w: Window, start: nat, end: nat)
    requires Typed(w) && start < TWO64 && end < TWO64
    ensures ReadPref(WritePref(w, start, end)) == (start, end) <==> Whole(start, end, MEG1) && (Wide(w) || end < TWO32)
  {
    ReadPrefBack(w, start, end);
    PrefBackIff(start, Wide(w));
    PrefBackIff(end, Wide(w));
  }

  /** Writing a window keeps its type, so a bridge can be configured again and again. */
  lemma {:induction false} WritingKeepsType(w: Window, start: nat, end: nat)
    requires Typed(w)
    ensures Typed(WriteIo(w, start, end)) && (Wide(WriteIo(w, start, end)) <==> Wide(w))
    ensures Typed(WritePref(w, start, end)) && (Wide(WritePref(w, start, end)) <==> Wide(w))
  {
    KeptParts(start / KB4 % 16, w.base);
    KeptParts(end / KB4 % 16, w.limit);
    KeptParts(start / MEG1 % 0x1000, w.base);
    KeptParts(end / MEG1 % 0x1000, w.limit);
  }

  // ---------------------------------------------------------------- the registers as they are written

  /** The window registers of one bridge. */
  class Bridge {
    var io: Window
    var mem: Window
    var pref: Window

    ghost predicate Valid()
      reads this
    {
      Typed(io) && Typed(pref) && mem.base % 16 == 0 && mem.limit % 16 == 0
    }

    constructor (wideIo: bool, widePref: bool)
      ensures Valid() && (Wide(io) <==> wideIo) && (Wide(pref) <==> widePref)
    {
      var i, p := if wideIo then 1 else 0, if widePref then 1 else 0;
      io, mem, pref := Window(i, i, 0, 0), Window(0, 0, 0, 0), Window(p, p, 0, 0);
    }

    /** A write to the base and limit registers; the type bits are read-only. */
    method WriteIoBase(base: nat, limit: nat)
      modifies this`io
      ensures io == old(io).(base := Kept(base, old(io).base), limit := Kept(limit, old(io).limit))
    {
      io := io.(base := Kept(base, io.base), limit := Kept(limit, io.limit));
    }

    method ConfigureIo(start: nat, end: nat)
      requires Valid()
      modifies this`io
      ensures Valid() && io == WriteIo(old(io), start, end)
    {
      var bit32 := io.base % 2 == 1;
      WritingKeepsType(io, start, end);
      WriteIoBase(start / KB4 % 16 * 16, end / KB4 % 16 * 16);
      if bit32 {
        io := io.(baseUpper := start / TWO16 % TWO16);
        io := io.(limitUpper := end / TWO16 % TWO16);
      }
    }

    method ConfigureMem(start: nat, end: nat)
      requires Valid()
      modifies this`mem
      ensures Valid() && mem == WriteMem(old(mem), start, end)
    {
      KeptParts(start / MEG1 % 0x1000, mem.base);
      KeptParts(end / MEG1 % 0x1000, mem.limit);
      mem := mem.(base := Kept(start / MEG1 % 0x1000 * 16, mem.base), limit := Kept(end / MEG1 % 0x1000 * 16, mem.limit));
    }

    method ConfigurePref(start: nat, end: nat)
      requires Valid()
      modifies this`pref
      ensures Valid() && pref == WritePref(old(pref), start, end)
    {
      var bit64 := pref.base % 2 == 1;
      WritingKeepsType(pref, start, end);
      pref := pref.(base := Kept(start / MEG1 % 0x1000 * 16, pref.base), limit := Kept(end / MEG1 % 0x1000 * 16, pref.limit));
      if bit64 {
        pref := pref.(baseUpper := start / TWO32 % TWO32);
        pref := pref.(limitUpper := end / TWO32 % TWO32);
      }
    }

    /** The part of `configure_bridge` that reads the three windows back. */
    method Windows() returns (ioWindow: (nat, nat), memWindow: (nat, nat), prefWindow: (nat, nat))
      requires Valid()
      ensures ioWindow == ReadIo(io) && memWindow == ReadMem(mem) && prefWindow == ReadPref(pref)
    {
      var word1 := 0;
      if io.base % 16 != 0 {
        word1 := io.baseUpper;
      }
      var start := ShiftedInt(word1) + io.base / 16 * KB4;
      word1 := 0;
      if io.limit % 16 != 0 {
        word1 := io.limitUpper;
      }
      var end := ShiftedInt(word1) + io.limit / 16 * KB4 + (KB4 - 1);
      ioWindow := if end < start then (0, 0) else (start, end);
      start, end := mem.base * TWO16, mem.limit / 16 * MEG1 + (MEG1 - 1);
      memWindow := if end < start then (0, 0) else (start, end);
      var qword := 0;
      if pref.base % 16 != 0 {
        qword := pref.baseUpper;
      }
      start := qword * TWO32 + pref.base / 16 * MEG1;
      qword := 0;
      if pref.limit % 16 != 0 {
        qword := pref.limitUpper;
      }
      end := qword * TWO32 + pref.limit / 16 * MEG1 + (MEG1 - 1);
      prefWindow := if end < start then (0, 0) else (start, end);
    }
  }

  /** Configuring a bridge and reading it back, on the registers. */
  method ConfigureAndRead(b: Bridge, io: (nat, nat), mem: (nat, nat), pref: (nat, nat))
    returns (io': (nat, nat), mem': (nat, nat), pref': (nat, nat))
    requires b.Valid() && io.0 < TWO64 && io.1 < TWO64 && mem.0 < TWO64 && mem.1 < TWO64 && pref.0 < TWO64 && pref.1 < TWO64
    modifies b
    ensures io' == io <==> Whole(io.0, io.1, KB4) && IoReach(old(b.io), io.0) && IoReach(old(b.io), io.1)
    ensures mem' == mem <==> Whole(mem.0, mem.1, MEG1) && mem.1 < TWO32
    ensures pref' == pref <==> Whole(pref.0, pref.1, MEG1) && (Wide(old(b.pref)) || pref.1 < TWO32)
  {
    IoRoundTripIff(b.io, io.0, io.1);
    MemRoundTripIff(b.mem, mem.0, mem.1);
    PrefRoundTripIff(b.pref, pref.0, pref.1);
    b.ConfigureIo(io.0, io.1);
    b.ConfigureMem(mem.0, mem.1);
    b.ConfigurePref(pref.0, pref.1);
    io', mem', pref' := b.Windows();
  }
}
