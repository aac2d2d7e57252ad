/**
  `addup_resources` and `release_resources` on the record of one device.
*/
module DeviceResources {
  import Bits
  import opened Common
  import opened Sorting
  import opened Registers
  import opened Resources

  /** `io_alloc`, `mem_alloc` or `pref_alloc`: a chunk is held while the address is not zero. */
  datatype Holding = Holding(address: nat, size: nat)

  /** `regs[6]` is the expansion ROM. */
  datatype Dev = Dev(bus: nat, regs: seq<Reg>, io: Holding, mem: Holding, pref: Holding,
                     flags: set<Flag>, lock: nat, mgr: bool, persistent: bool)
  {
    function At(a: Area): (r: Holding) {
      match a
      case IoArea => io
      case MemArea => mem
      case PrefArea => pref
    }

    function With(a: Area, h: Holding): (r: Dev) {
      match a
      case IoArea => this.(io := h)
      case MemArea => this.(mem := h)
      case PrefArea => this.(pref := h)
    }
  }

  /** `Short`: PCI_SUCCESS although a chunk was not granted. */
  datatype Status = Ok | Short | Error

  /** A device and the database while chunks are being claimed. */
  datatype Claim = Claim(dev: Dev, live: set<Chunk>, status: Status)

  // ---------------------------------------------------------------- claiming

  function Obtain(c: Claim, sums: Sums, a: Area, host: Host, policy: Policy): (r: Claim) {
    if c.status == Error || sums.Of(a) == 0 then c
    else
      var size := sums.Of(a);
      match Alloc(host, policy, c.live, a, size, sums.AlignOf(a), c.dev.bus)
      case Refused => c.(status := Error)
      case FellThrough(start) => Claim(c.dev.With(a, Holding(start, size)), c.live, Short)
      case Granted(start) =>
        c.(dev := c.dev.With(a, Holding(start, size)), live := c.live + {Chunk(PoolOf(a, c.dev.bus), start, Length(size))})
  }

  function ObtainAll(c: Claim, sums: Sums, host: Host, policy: Policy): (r: Claim) {
    Obtain(Obtain(Obtain(c, sums, IoArea, host, policy), sums, MemArea, host, policy), sums, PrefArea, host, policy)
  }

  function Start(dev: Dev, sums: Sums): (r: Cursor) {
    Cursor(if sums.io != 0 then dev.io.address else 0,
           if sums.mem != 0 then dev.mem.address else 0,
           if sums.pref != 0 then dev.pref.address else 0)
  }

  lemma {:induction false} BasesInRange(regs: seq<Reg>, g: Gathered, i: nat, flags: set<Flag>, quiet: bool)
    requires |regs| == 7 && i <= 6 && |g.slots| <= i && forall k :: 0 <= k < |g.slots| ==> g.slots[k].reg < 6
    ensures var r := GatherBases(g, regs, i, flags, quiet);
            |r.slots| <= 6 && forall k :: 0 <= k < |r.slots| ==> r.slots[k].reg < 6
    decreases 6 - i
  {
    if i < 6 {
      BasesInRange(regs, GatherBase(g, regs[i], i, flags, quiet), i + 1, flags, quiet);
    }
  }

  /** `reg_sort` never holds more than seven entries, each naming one of the seven registers. */
  lemma {:induction false} SlotsInRange(regs: seq<Reg>, flags: set<Flag>, quiet: bool)
    requires |regs| == 7
    ensures var g := Gather(regs, flags, quiet);
            |g.slots| <= 7 && forall k :: 0 <= k < |g.slots| ==> g.slots[k].reg < 7
  {
    BasesInRange(regs, NOTHING, 0, flags, quiet);
  }

  lemma {:induction false} SortedInRange(s: seq<Slot>)
    requires forall k :: 0 <= k < |s| ==> s[k].reg < 7
    ensures forall k :: 0 <= k < |Sorted(s, SlotKey)| ==> Sorted(s, SlotKey)[k].reg < 7
  {
    SortedIsSorted(s, SlotKey);
    SameOrderIsPermutation(s, Sorted(s, SlotKey), SlotKey);
    forall k | 0 <= k < |Sorted(s, SlotKey)| ensures Sorted(s, SlotKey)[k].reg < 7 {
      assert Sorted(s, SlotKey)[k] in multiset(s);
    }
  }

  /** `addup_resources`; `next` is `next_attach`. */
  function Addup(dev: Dev, live: set<Chunk>, flags: set<Flag>, show: bool, next: bool, host: Host,
          policy: Policy): (r: Claim)
    requires |dev.regs| == 7
  {
    var g := Gather(dev.regs, flags, show || next);
    var c := ObtainAll(Claim(dev, live, Ok), g.sums, host, policy);
    SlotsInRange(dev.regs, flags, show || next);
    SortedInRange(g.slots);
    if c.status == Error || (g.sums.io == 0 && g.sums.mem == 0 && g.sums.pref == 0) || show then c
    else c.(dev := c.dev.(regs := Carve(dev.regs, Sorted(g.slots, SlotKey), Start(c.dev, g.sums))))
  }

  // ---------------------------------------------------------------- releasing

  /** The flag bits that stay in a released register: 0x7fe for the ROM, 0x3 for I/O, 0x0f for memory. */
  function Flags(address: nat, i: nat): (r: nat) {
    if i == 6 then 2 * (address % 2048 / 2)
    else if address % 2 == 1 then address % 4
    else address % 16
  }

  /** `release_resources` from register `i` on; once an enabled register is met, the rest stay. */
  function ClearRegs(regs: seq<Reg>, i: nat, enabled: bool): (r: (seq<Reg>, bool))
    requires |regs| == 7 && i <= 7
    ensures |r.0| == 7
    decreases 7 - i
  {
    if i == 7 then (regs, enabled)
    else
      var reg, now := regs[i], enabled || regs[i].enabled;
      var kept := if reg.address == 0 || now then reg else reg.(address := Flags(reg.address, i));
      ClearRegs(regs[i := kept], i + 1, now)
  }

  function Return(c: Claim, a: Area, host: Host): (r: Claim) {
    var h := c.dev.At(a);
    if h.address == 0 || !Reaches(host, c.dev.bus) then c
    else c.(dev := c.dev.With(a, h.(address := h.address % (if a == IoArea then 4 else 16))),
            live := c.live - {ChunkAt(a, c.dev.bus, h.address, h.size)})
  }

  function Release(dev: Dev, live: set<Chunk>, host: Host): (r: Claim)
    requires |dev.regs| == 7
  {
    var c := Claim(dev.(regs := ClearRegs(dev.regs, 0, false).0), live, Ok);
    Return(Return(Return(c, IoArea, host), MemArea, host), PrefArea, host)
  }

  // ---------------------------------------------------------------- the device as an object

  /** `Device`, as far as attaching is concerned; `regs[0..5]` is `BaseReg` and `regs[6]` is `ROMBase`. */
  class Device {
    const bus: nat
    const regs: array<Reg>
    var ioAlloc: Holding
    var memAlloc: Holding
    var prefAlloc: Holding
    var attachFlags: set<Flag>
    var lockFlg: nat
    var mgrAttach: bool
    var persistent: bool

    ghost predicate Valid()
      reads this
    {
      regs.Length == 7 && lockFlg < 256
    }

    function Value(): (r: Dev)
      reads this, regs
    {
      Dev(bus, regs[..], ioAlloc, memAlloc, prefAlloc, attachFlags, lockFlg, mgrAttach, persistent)
    }

    constructor (bus: nat, regs: seq<Reg>)
      requires |regs| == 7
      ensures Valid() && fresh(this.regs)
      ensures Value() == Dev(bus, regs, Holding(0, 0), Holding(0, 0), Holding(0, 0), {}, 0, false, false)
    {
      this.bus := bus;
      this.regs := new Reg[7](i requires 0 <= i < 7 => regs[i]);
      ioAlloc, memAlloc, prefAlloc := Holding(0, 0), Holding(0, 0), Holding(0, 0);
      attachFlags, lockFlg, mgrAttach, persistent := {}, 0, false, false;
      new;
      assert this.regs[..] == regs;
    }

    /** The loop body of the first half of `addup_resources`. */
    method NoteRegister(i: nat, flags: set<Flag>, quiet: bool, sums: Sums, enabled: bool, regSort: array<Slot>,
            regIdx: nat)
      returns (sums': Sums, enabled': bool, regIdx': nat)
      requires Valid() && i < 7 && regIdx < regSort.Length
      modifies regSort
      ensures regIdx' <= regIdx + 1
      ensures Gathered(sums', regSort[..regIdx'], enabled')
           == GatherBase(old(Gathered(sums, regSort[..regIdx], enabled)), regs[i], i, flags, quiet)
    {
      var reg := regs[i];
      sums', enabled', regIdx' := sums, enabled, regIdx;
      if InitBase(i) in flags && (reg.kind != Unused || reg.enabled) {
        regSort[regIdx] := Slot(reg.size, i);
        regIdx' := regIdx + 1;
        assert regSort[..regIdx'] == old(regSort[..regIdx]) + [Slot(reg.size, i)];
        enabled' := enabled || reg.enabled;
        if reg.address < Limit(reg) {
          enabled' := false;
        }
        if !enabled' && !quiet {
          sums' := AddSize(sums, reg);
        }
      }
    }

    /** The first half of `addup_resources`: sums, alignments and the registers to sort. */
    method GatherRegisters(flags: set<Flag>, quiet: bool) returns (sums: Sums, regSort: array<Slot>, regIdx: nat)
      requires Valid()
      ensures fresh(regSort) && regSort.Length == 7 && regIdx <= 7
      ensures Gather(regs[..], flags, quiet) == Gathered(sums, regSort[..regIdx], Gather(regs[..], flags, quiet).enabled)
    {
      regSort := new Slot[7](_ => Slot(0, 0));
      sums := Sums(0, 0, 0, 0, 0);
      regIdx := 0;
      var enabled := false;
      var i := 0;
      while i < 6
        invariant 0 <= i <= 6 && regIdx <= i
        invariant GatherBases(NOTHING, regs[..], 0, flags, quiet)
               == GatherBases(Gathered(sums, regSort[..regIdx], enabled), regs[..], i, flags, quiet)
      {
        sums, enabled, regIdx := NoteRegister(i, flags, quiet, sums, enabled, regSort, regIdx);
        i := i + 1;
      }
      ghost var slots := regSort[..regIdx];
      var rom := regs[6];
      if InitRom in flags && rom.kind == RomReg && !(rom.enabled && rom.address >= 2) && !quiet {
        sums := AddSize(sums, rom);
        regSort[regIdx] := Slot(rom.size, 6);
        regIdx := regIdx + 1;
        assert regSort[..regIdx] == slots + [Slot(rom.size, 6)];
      }
    }

    /** One of the three allocations of `addup_resources`. */
    method ObtainArea(db: ResourceDb, host: Host, sums: Sums, a: Area, before: Status) returns (status: Status)
      requires Valid() && db.Valid() && before != Error
      modifies this`ioAlloc, this`memAlloc, this`prefAlloc, db
      ensures db.Valid()
      ensures Claim(Value(), db.live, status) == Obtain(old(Claim(Value(), db.live, before)), sums, a, host, db.policy)
    {
      status := before;
      if sums.Of(a) != 0 {
        var answer := db.AllocResource(host, a, sums.Of(a), sums.AlignOf(a), bus);
        if answer.Refused? {
          status := Error;
        } else {
          if answer.FellThrough? {
            status := Short;
          }
          match a {
            case IoArea => ioAlloc := Holding(answer.start, sums.io);
            case MemArea => memAlloc := Holding(answer.start, sums.mem);
            case PrefArea => prefAlloc := Holding(answer.start, sums.pref);
          }
        }
      }
    }

    /** The second half of `addup_resources`: largest register first, one address after the other. */
    method SortAndCarve(regSort: array<Slot>, regIdx: nat, start: Cursor)
      requires Valid() && regIdx <= regSort.Length && forall k :: 0 <= k < regIdx ==> regSort[..regIdx][k].reg < 7
      modifies regs, regSort
      ensures forall k :: 0 <= k < |Sorted(old(regSort[..regIdx]), SlotKey)| ==> Sorted(old(regSort[..regIdx]), SlotKey)[k].reg < 7
      ensures regs[..] == Carve(old(regs[..]), Sorted(old(regSort[..regIdx]), SlotKey), start)
    {
      SortedInRange(regSort[..regIdx]);
      BubbleSort(regSort, regIdx, SlotKey);
      assert forall k :: 0 <= k < regIdx ==> regSort[k] == regSort[..regIdx][k];
      CarveRegisters(regSort, regIdx, start);
    }

    method CarveRegisters(regSort: array<Slot>, regIdx: nat, start: Cursor)
      requires Valid() && regIdx <= regSort.Length && forall k :: 0 <= k < regIdx ==> regSort[k].reg < 7
      modifies regs
      ensures regs[..] == Carve(old(regs[..]), regSort[..regIdx], start)
    {
      var cur := start;
      var i := 0;
      while i < regIdx
        invariant 0 <= i <= regIdx
        invariant Carve(regs[..], regSort[i..regIdx], cur) == Carve(old(regs[..]), regSort[..regIdx], start)
      {
        var reg := regs[regSort[i].reg];
        ghost var before, slots := regs[..], regSort[i..regIdx];
        assert slots[0] == regSort[i] && slots[1..] == regSort[i + 1..regIdx];
        if Wants(reg) {
          var a := AreaOf(reg.kind);
          regs[regSort[i].reg] := reg.(address := Bits.Or(reg.address, cur.At(a)));
          assert regs[..] == before[slots[0].reg := regs[slots[0].reg]];
          cur := cur.Past(a, Units(reg));
        }
        i := i + 1;
      }
    }

    method AddupResources(db: ResourceDb, host: Host, flags: set<Flag>, show: bool, next: bool) returns (status: Status)
      requires Valid() && db.Valid()
      modifies this`ioAlloc, this`memAlloc, this`prefAlloc, regs, db
      ensures Valid() && db.Valid()
      ensures Claim(Value(), db.live, status) == Addup(old(Value()), old(db.live), flags, show, next, host, db.policy)
    {
      var sums, regSort, regIdx := GatherRegisters(flags, show || next);
      status := ObtainArea(db, host, sums, IoArea, Ok);
      if status != Error {
        status := ObtainArea(db, host, sums, MemArea, status);
        if status != Error {
          status := ObtainArea(db, host, sums, PrefArea, status);
        }
      }
      if status != Error {
        SlotsInRange(regs[..], flags, show || next);
        if (sums.io != 0 || sums.mem != 0 || sums.pref != 0) && !show {
          SortAndCarve(regSort, regIdx, Start(Value(), sums));
        }
      }
    }

    /** Takes the addresses out of the registers. */
    method ClearRegisters()
      requires Valid()
      modifies regs
      ensures regs[..] == ClearRegs(old(regs[..]), 0, false).0
    {
      var enabled := false;
      var i := 0;
      while i < 7
        invariant 0 <= i <= 7
        invariant ClearRegs(regs[..], i, enabled).0 == ClearRegs(old(regs[..]), 0, false).0
      {
        var reg := regs[i];
        enabled := enabled || reg.enabled;
        if reg.address != 0 && !enabled {
          ghost var before := regs[..];
          regs[i] := reg.(address := Flags(reg.address, i));
          assert regs[..] == before[i := reg.(address := Flags(reg.address, i))];
        } else {
          assert regs[..] == regs[..][i := reg];
        }
        i := i + 1;
      }
    }

    method ReturnArea(db: ResourceDb, host: Host, a: Area)
      requires Valid() && db.Valid()
      modifies this`ioAlloc, this`memAlloc, this`prefAlloc, db
      ensures db.Valid()
      ensures Claim(Value(), db.live, Ok) == Return(old(Claim(Value(), db.live, Ok)), a, host)
    {
      var h := match a case IoArea => ioAlloc case MemArea => memAlloc case PrefArea => prefAlloc;
      if h.address != 0 {
        var rest := db.FreeResource(host, a, h.address, h.size, bus);
        match a {
          case IoArea => ioAlloc := h.(address := rest);
          case MemArea => memAlloc := h.(address := rest);
          case PrefArea => prefAlloc := h.(address := rest);
        }
      }
    }

    method ReleaseResources(db: ResourceDb, host: Host)
      requires Valid() && db.Valid()
      modifies this`ioAlloc, this`memAlloc, this`prefAlloc, regs, db
      ensures Valid() && db.Valid()
      ensures Claim(Value(), db.live, Ok) == Release(old(Value()), old(db.live), host)
    {
      ClearRegisters();
      ReturnArea(db, host, IoArea);
      ReturnArea(db, host, MemArea);
      ReturnArea(db, host, PrefArea);
    }
  }
}
