/**
  Base registers of a device, and the two halves of `addup_resources`: adding up what a device
  needs, and carving the chunks that were allocated into addresses for the registers.
*/
module Registers {
  import opened Bits
  import opened Sorting

  /** What `scan_windows` found a register to be (the space bits of `Flags`). */
  datatype Kind = Unused | IoReg | MemReg | PrefReg | RomReg

  /** `struct BaseRegister`; `enabled` is the PCI_DEVICE_ENABLED bit. */
  datatype Reg = Reg(address: nat, size: nat, kind: Kind, enabled: bool)

  /** The attach flags, as a set of bits. */
  datatype Flag = Share | Persist | InitIrq | InitRom | InitBase(i: nat) | MasterEnable | MgrAttach | BusInfo

  /** PCI_INIT_ALL | PCI_INIT_ROM */
  const INIT: set<Flag> := {InitIrq, InitRom, InitBase(0), InitBase(1), InitBase(2), InitBase(3), InitBase(4), InitBase(5)}

  /** The three chunks a device can hold. */
  datatype Area = IoArea | MemArea | PrefArea

  function AreaOf(kind: Kind): (r: Area) {
    match kind
    case IoReg => IoArea
    case PrefReg => PrefArea
    case _ => MemArea
  }

  /** Addresses below this are flag bits only: the register has no address yet. */
  function Limit(reg: Reg): (r: nat) { if reg.kind == IoReg then 4 else 16 }

  /** What a register takes of its chunk. */
  function Units(reg: Reg): (r: nat) { if reg.kind == IoReg && reg.size < 256 then 256 else reg.size }

  /** The value a `uint32_t` holds after being assigned `x`. */
  function W32(x: nat): (r: nat)
    ensures r < 0x1_0000_0000 && (x < 0x1_0000_0000 ==> r == x)
  {
    if x < 0x1_0000_0000 then x else W32(x - 0x1_0000_0000)
  }

  lemma {:induction false} W32Step(t: nat, n: nat)
    ensures W32(W32(t) + n) == W32(t + n)
  {
    if t >= 0x1_0000_0000 {
      W32Step(t - 0x1_0000_0000, n);
    }
  }

  // ---------------------------------------------------------------- adding up

  /** An entry of `reg_sort`; register 6 is the ROM. */
  datatype Slot = Slot(size: nat, reg: nat)

  /** `io_size`, `mem_size`, `pref_size`, `align`, `pref_align`: all `uint32_t`. */
  datatype Sums = Sums(io: nat, mem: nat, pref: nat, align: nat, prefAlign: nat) {
    function Of(a: Area): (r: nat) {
      match a
      case IoArea => io
      case MemArea => mem
      case PrefArea => pref
    }

    /** I/O chunks are requested without an alignment of their own. */
    function AlignOf(a: Area): (r: nat) {
      match a
      case IoArea => 0
      case MemArea => align
      case PrefArea => prefAlign
    }
  }

  datatype Gathered = Gathered(sums: Sums, slots: seq<Slot>, enabled: bool)

  function AddSize(s: Sums, reg: Reg): (r: Sums) {
    match AreaOf(reg.kind)
    case IoArea => s.(io := W32(s.io + Units(reg)))
    case PrefArea => s.(pref := W32(s.pref + reg.size),
                        prefAlign := if reg.size > s.prefAlign then W32(reg.size) else s.prefAlign)
    case MemArea => s.(mem := W32(s.mem + reg.size),
                       align := if reg.size > s.align then W32(reg.size) else s.align)
  }

  /** One base register; `quiet` is `show_pci || next_attach`. */
  function GatherBase(g: Gathered, reg: Reg, i: nat, flags: set<Flag>, quiet: bool): (r: Gathered) {
    if InitBase(i) !in flags || (reg.kind == Unused && !reg.enabled) then g
    else
      var enabled := (g.enabled || reg.enabled) && reg.address >= Limit(reg);
      Gathered(if enabled || quiet then g.sums else AddSize(g.sums, reg),
               g.slots + [Slot(reg.size, i)], enabled)
  }

  function GatherRom(g: Gathered, rom: Reg, flags: set<Flag>, quiet: bool): (r: Gathered) {
    if InitRom in flags && rom.kind == RomReg && !(rom.enabled && rom.address >= 2) && !quiet
    then Gathered(AddSize(g.sums, rom), g.slots + [Slot(rom.size, 6)], g.enabled)
    else g
  }

  function GatherBases(g: Gathered, regs: seq<Reg>, i: nat, flags: set<Flag>, quiet: bool): (r: Gathered)
    requires |regs| == 7 && i <= 6
    decreases 6 - i
  {
    if i == 6 then g
    else GatherBases(GatherBase(g, regs[i], i, flags, quiet), regs, i + 1, flags, quiet)
  }

  const NOTHING := Gathered(Sums(0, 0, 0, 0, 0), [], false)

  /** The first half of `addup_resources`. */
  function Gather(regs: seq<Reg>, flags: set<Flag>, quiet: bool): (r: Gathered)
    requires |regs| == 7
  {
    GatherRom(GatherBases(NOTHING, regs, 0, flags, quiet), regs[6], flags, quiet)
  }

  /** Largest size first. */
  function SlotKey(s: Slot): (r: int) { 0 - s.size as int }

  // ---------------------------------------------------------------- carving

  /** `io_addr`, `mem_addr`, `pref_addr` */
  datatype Cursor = Cursor(io: nat, mem: nat, pref: nat) {
    function At(a: Area): (r: nat) {
      match a
      case IoArea => io
      case MemArea => mem
      case PrefArea => pref
    }

    function Past(a: Area, n: nat): (r: Cursor) {
      match a
      case IoArea => this.(io := io + n)
      case MemArea => this.(mem := mem + n)
      case PrefArea => this.(pref := pref + n)
    }
  }

  /** A register that still needs an address. */
  predicate Wants(reg: Reg) { reg.address < Limit(reg) && reg.size != 0 }

  /** The second half of `addup_resources`: addresses for the registers in `slots`, in that order. */
  function Carve(regs: seq<Reg>, slots: seq<Slot>, cur: Cursor): (r: seq<Reg>)
    requires |regs| == 7 && forall k :: 0 <= k < |slots| ==> slots[k].reg < 7
    ensures |r| == 7
    decreases |slots|
  {
    if slots == [] then regs
    else
      var reg, a := regs[slots[0].reg], AreaOf(regs[slots[0].reg].kind);
      if Wants(reg) then
        Carve(regs[slots[0].reg := reg.(address := Or(reg.address, cur.At(a)))], slots[1..],
              cur.Past(a, Units(reg)))
      else Carve(regs, slots[1..], cur)
  }
}
