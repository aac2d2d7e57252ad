/**
  What `addup_resources` and `release_resources` do to a device that starts without addresses.
*/
module DeviceTheorems {
  import opened Bits
  import opened Sorting
  import opened Registers
  import opened Carving
  import opened Resources
  import opened DeviceResources

  /** The smallest register of each kind, as a power of two. */
  function SmallestPower(kind: Kind): (r: nat) {
    match kind
    case IoReg => 2
    case RomReg => 11
    case _ => 4
  }

  /**
    A register as the hardware presents it (section 6.2.5 of the PCI Local Bus Specification 3.0):
    the size is a power of two, bit 0 of the address tells I/O from memory.  Firmware has not
    enabled it.
  */
  ghost predicate Sane(reg: Reg, i: nat) {
    && !reg.enabled
    && (reg.kind == RomReg ==> i == 6) && (i == 6 ==> reg.kind in {Unused, RomReg})
    && (reg.kind == Unused ==> reg.size == 0 && reg.address == 0)
    && (reg.kind != Unused ==> IsPow2From(reg.size, SmallestPower(reg.kind)))
    && reg.address % 2 == (if reg.kind == IoReg then 1 else 0)
  }

  /** What the registers below `i` take of an area. */
  function SumTo(regs: seq<Reg>, i: nat, a: Area): (r: nat)
    requires i <= |regs|
  {
    if i == 0 then 0 else SumTo(regs, i - 1, a) + if AreaOf(regs[i - 1].kind) == a then Units(regs[i - 1]) else 0
  }

  /** The device asks for less than 4 GB in each area. */
  predicate Modest(regs: seq<Reg>)
    requires |regs| == 7
  {
    forall a: Area :: SumTo(regs, 7, a) < 0x1_0000_0000
  }

  ghost predicate Hardware(regs: seq<Reg>) {
    && |regs| == 7 && Modest(regs)
    && forall i :: 0 <= i < 7 ==> Sane(regs[i], i)
  }

  predicate Assigned(reg: Reg) { reg.address >= Limit(reg) }

  /** The register without its address. */
  function Bare(reg: Reg): (r: Reg) { reg.(address := reg.address % Limit(reg)) }

  predicate NoAddresses(regs: seq<Reg>) { forall i :: 0 <= i < |regs| ==> !Assigned(regs[i]) }

  // ---------------------------------------------------------------- sums

  lemma {:induction false} PowerIsMultiple(n: nat, low: nat)
    requires IsPow2From(n, low)
    ensures Pow2(low) > 0 && n % Pow2(low) == 0 && n >= Pow2(low)
  {
    var k: nat :| k >= low && n == Pow2(k);
    Pow2Split(low, k);
    MultipleOf(n, Pow2(low), Pow2(k - low));
    Pow2Grows(low, k);
  }

  lemma {:induction false} SmallPowers()
    ensures Pow2(2) == 4 && Pow2(4) == 16 && Pow2(8) == 256 && Pow2(11) == 2048
  {
    assert Pow2(4) == 4 * Pow2(2);
    assert Pow2(6) == 4 * Pow2(4);
    assert Pow2(8) == 4 * Pow2(6);
    assert Pow2(10) == 4 * Pow2(8);
  }

  lemma {:induction false} UnitsOfSane(reg: Reg, i: nat)
    requires Sane(reg, i) && reg.kind != Unused
    ensures IsPow2From(Units(reg), 0) && Units(reg) > 0 && Units(reg) % Grain(AreaOf(reg.kind)) == 0
    ensures reg.kind == IoReg ==> Units(reg) % 256 == 0
    ensures reg.kind != IoReg ==> Units(reg) == reg.size && reg.size % 16 == 0 && reg.size >= 16
  {
    SmallPowers();
    var k: nat :| k >= SmallestPower(reg.kind) && reg.size == Pow2(k);
    if reg.kind == IoReg {
      if reg.size < 256 {
        assert Units(reg) == Pow2(8);
      } else {
        Pow2Grows(k, 8);
        assert IsPow2From(reg.size, 8);
        PowerIsMultiple(reg.size, 8);
        DividesTransitive(reg.size, 256, 4);
      }
    } else {
      assert IsPow2From(reg.size, 4);
      PowerIsMultiple(reg.size, 4);
    }
  }

  // ---------------------------------------------------------------- what is gathered

  /** The registers an attach asks addresses for. */
  predicate Selected(regs: seq<Reg>, flags: set<Flag>, i: nat)
    requires |regs| == 7 && i < 7
  {
    regs[i].kind != Unused && (if i == 6 then InitRom else InitBase(i)) in flags
  }

  /** Those of them that have none yet. */
  predicate Asked(regs: seq<Reg>, flags: set<Flag>, i: nat)
    requires |regs| == 7 && i < 7
  {
    Selected(regs, flags, i) && !Assigned(regs[i])
  }

  ghost predicate Gathers(regs: seq<Reg>, flags: set<Flag>, g: Gathered, n: nat)
    requires |regs| == 7 && n <= 7
  {
    && GatheredUpTo(regs, g, n)
    && (forall k :: 0 <= k < |g.slots| ==> Selected(regs, flags, g.slots[k].reg))
    && (forall i: nat {:trigger Selected(regs, flags, i)} :: i < n && Selected(regs, flags, i) ==> Slot(regs[i].size, i) in g.slots)
    && (forall a: Area {:trigger SumTo(regs, n, a)} :: Total(regs, g.slots, a) <= SumTo(regs, n, a))
  }

  lemma {:induction false} GatherOne(regs: seq<Reg>, flags: set<Flag>, g: Gathered, n: nat)
    requires |regs| == 7 && n < 7 && Gathers(regs, flags, g, n) && Selected(regs, flags, n)
    ensures Gathers(regs, flags, Gathered(AddSize(g.sums, regs[n]), g.slots + [Slot(regs[n].size, n)], false), n + 1)
  {
    var x := Slot(regs[n].size, n);
    AddKeepsGathered(regs, g, n);
    assert x == (g.slots + [x])[|g.slots|];
    forall a: Area ensures Total(regs, g.slots + [x], a) <= SumTo(regs, n + 1, a) {
      TotalAppend(regs, g.slots, x, a);
      assert Total(regs, g.slots, a) <= SumTo(regs, n, a);
    }
  }

  lemma {:induction false} GatherNone(regs: seq<Reg>, flags: set<Flag>, g: Gathered, n: nat)
    requires |regs| == 7 && n < 7 && Gathers(regs, flags, g, n) && !Selected(regs, flags, n)
    ensures Gathers(regs, flags, g, n + 1)
  {
    forall a: Area ensures Total(regs, g.slots, a) <= SumTo(regs, n + 1, a) {
      assert Total(regs, g.slots, a) <= SumTo(regs, n, a);
    }
  }

  lemma {:induction false} BasesGathered(regs: seq<Reg>, flags: set<Flag>, g: Gathered, n: nat)
    requires Hardware(regs) && n <= 6 && Gathers(regs, flags, g, n)
    ensures Gathers(regs, flags, GatherBases(g, regs, n, flags, false), 6)
    decreases 6 - n
  {
    if n < 6 {
      assert Sane(regs[n], n);
      if Selected(regs, flags, n) {
        GatherOne(regs, flags, g, n);
      } else {
        GatherNone(regs, flags, g, n);
      }
      BasesGathered(regs, flags, GatherBase(g, regs[n], n, flags, false), n + 1);
    }
  }

  /** Exactly the selected registers are gathered. */
  lemma {:induction false} AllGathered(regs: seq<Reg>, flags: set<Flag>)
    requires Hardware(regs)
    ensures Gathers(regs, flags, Gather(regs, flags, false), 7)
  {
    BasesGathered(regs, flags, NOTHING, 0);
    var g := GatherBases(NOTHING, regs, 0, flags, false);
    assert Sane(regs[6], 6);
    if Selected(regs, flags, 6) {
      GatherOne(regs, flags, g, 6);
    } else {
      GatherNone(regs, flags, g, 6);
    }
  }

  /** Below 4 GB the sums are exact. */
  lemma {:induction false} SumsAreExact(regs: seq<Reg>, flags: set<Flag>, g: Gathered, a: Area)
    requires |regs| == 7 && Modest(regs) && Gathers(regs, flags, g, 7)
    ensures g.sums.Of(a) == Total(regs, g.slots, a) && (a != IoArea ==> g.sums.AlignOf(a) == Largest(regs, g.slots, a))
  {
    assert AreaGathered(regs, g.slots, a, g.sums.Of(a), g.sums.AlignOf(a));
    assert Total(regs, g.slots, a) <= SumTo(regs, 7, a);
    if a != IoArea {
      LargestFits(regs, g.slots, a);
    }
  }

  lemma {:induction false} TotalHolds(regs: seq<Reg>, slots: seq<Slot>, k: nat)
    requires |regs| == 7 && InRange(slots) && k < |slots|
    ensures Total(regs, slots, AreaOf(regs[slots[k].reg].kind)) >= Units(regs[slots[k].reg])
  {
    var n := |slots| - 1;
    if k < n {
      TotalHolds(regs, slots[..n], k);
    }
  }

  /** A selected register means that its area was asked for. */
  lemma {:induction false} SelectedIsNeeded(regs: seq<Reg>, flags: set<Flag>, i: nat)
    requires Hardware(regs) && i < 7 && Selected(regs, flags, i)
    ensures Gather(regs, flags, false).sums.Of(AreaOf(regs[i].kind)) > 0
  {
    var g := Gather(regs, flags, false);
    AllGathered(regs, flags);
    SumsAreExact(regs, flags, g, AreaOf(regs[i].kind));
    assert Sane(regs[i], i);
    UnitsOfSane(regs[i], i);
    var k :| 0 <= k < |g.slots| && g.slots[k] == Slot(regs[i].size, i);
    TotalHolds(regs, g.slots, k);
  }

  // ---------------------------------------------------------------- what is claimed

  /** The chunk claimed for an area. */
  function Claimed(dev: Dev, sums: Sums, a: Area): (r: Chunk) {
    Chunk(PoolOf(a, dev.bus), dev.At(a).address, Length(sums.Of(a)))
  }

  function AlignFor(sums: Sums, a: Area): (r: nat)
    requires sums.Of(a) != 0
  {
    if sums.AlignOf(a) != 0 then sums.AlignOf(a) else Length(sums.Of(a))
  }

  /** Area `a` is settled: nothing was asked for, or one new chunk, aligned, in its window and clear of the rest. */
  ghost predicate GotArea(dev: Dev, live: set<Chunk>, c: Claim, sums: Sums, host: Host, a: Area) {
    if sums.Of(a) == 0 then c.dev.At(a) == dev.At(a)
    else
      && c.dev.At(a).size == sums.Of(a) && AlignFor(sums, a) > 0 && c.dev.At(a).address % AlignFor(sums, a) == 0
      && InWindow(host, a, dev.bus, c.dev.At(a).address, Length(sums.Of(a))) && Claimed(c.dev, sums, a) in c.live
      && forall d :: d in live ==> Apart(d, Claimed(c.dev, sums, a))
  }

  /** The areas in `done` are settled, and nothing else has changed. */
  ghost predicate Got(dev: Dev, live: set<Chunk>, c: Claim, sums: Sums, host: Host, done: set<Area>) {
    && c.dev == dev.(io := c.dev.io, mem := c.dev.mem, pref := c.dev.pref)
    && AllApart(c.live) && live <= c.live
    && (forall a :: a in done ==> GotArea(dev, live, c, sums, host, a))
    && (forall a :: a !in done ==> c.dev.At(a) == dev.At(a))
    && (forall d :: d in c.live && d !in live ==> exists a {:trigger sums.Of(a)} :: a in done && sums.Of(a) != 0 && d == Claimed(c.dev, sums, a))
  }

  lemma {:induction false} ObtainOne(c: Claim, sums: Sums, host: Host, policy: Policy, a: Area)
    requires Sound(policy) && AllApart(c.live) && sums.Of(a) != 0 && c.status != Error
    ensures var r := Obtain(c, sums, a, host, policy);
            r.status == Ok ==>
              && c.status == Ok
              && r.dev == c.dev.With(a, Holding(r.dev.At(a).address, sums.Of(a)))
              && r.live == c.live + {Claimed(r.dev, sums, a)} && AllApart(r.live)
              && GotArea(c.dev, c.live, r, sums, host, a)
  {
    var r := Obtain(c, sums, a, host, policy);
    AllocGrants(host, policy, c.live, a, sums.Of(a), sums.AlignOf(a), c.dev.bus);
    if r.status == Ok {
      GrantKeepsApart(c.live, Claimed(r.dev, sums, a));
    }
  }

  lemma {:induction false} ObtainGot(dev: Dev, live: set<Chunk>, c: Claim, sums: Sums, host: Host, policy: Policy,
          done: set<Area>, a: Area)
    requires Sound(policy) && Got(dev, live, c, sums, host, done) && a !in done
    requires Obtain(c, sums, a, host, policy).status == Ok
    ensures c.status == Ok && Got(dev, live, Obtain(c, sums, a, host, policy), sums, host, done + {a})
  {
    var r := Obtain(c, sums, a, host, policy);
    if sums.Of(a) != 0 {
      ObtainOne(c, sums, host, policy, a);
      GotMore(dev, live, c, r, sums, host, done, a);
    } else {
      assert r == c;
      forall b | b in done + {a} ensures GotArea(dev, live, r, sums, host, b) {
      }
    }
  }

  lemma {:induction false} GotMore(dev: Dev, live: set<Chunk>, c: Claim, r: Claim, sums: Sums, host: Host,
          done: set<Area>, a: Area)
    requires Got(dev, live, c, sums, host, done) && a !in done && sums.Of(a) != 0
    requires r.dev == c.dev.With(a, Holding(r.dev.At(a).address, sums.Of(a)))
    requires r.live == c.live + {Claimed(r.dev, sums, a)} && AllApart(r.live) && GotArea(c.dev, c.live, r, sums, host, a)
    ensures Got(dev, live, r, sums, host, done + {a})
  {
    forall b | b != a ensures r.dev.At(b) == c.dev.At(b) && Claimed(r.dev, sums, b) == Claimed(c.dev, sums, b) {
    }
    forall b | b in done + {a} ensures GotArea(dev, live, r, sums, host, b) {
      if b != a {
        assert GotArea(dev, live, c, sums, host, b);
      }
    }
  }

  const AREAS: set<Area> := {IoArea, MemArea, PrefArea}

  /** After all three claims, each area has its chunk. */
  lemma {:induction false} ObtainAllGot(dev: Dev, live: set<Chunk>, sums: Sums, host: Host, policy: Policy)
    requires Sound(policy) && AllApart(live) && ObtainAll(Claim(dev, live, Ok), sums, host, policy).status == Ok
    ensures Got(dev, live, ObtainAll(Claim(dev, live, Ok), sums, host, policy), sums, host, AREAS)
  {
    var c0 := Claim(dev, live, Ok);
    var c1 := Obtain(c0, sums, IoArea, host, policy);
    var c2 := Obtain(c1, sums, MemArea, host, policy);
    ObtainGot(dev, live, c0, sums, host, policy, {}, IoArea);
    ObtainGot(dev, live, c1, sums, host, policy, {IoArea}, MemArea);
    ObtainGot(dev, live, c2, sums, host, policy, {IoArea, MemArea}, PrefArea);
    assert {IoArea, MemArea} + {PrefArea} == AREAS;
  }

  // ---------------------------------------------------------------- where the registers end up

  /** What the sorted slots satisfy. */
  ghost predicate SortedWell(regs: seq<Reg>, flags: set<Flag>, g: Gathered, s: seq<Slot>)
    requires |regs| == 7
  {
    && Slots(regs, s) && Ascending(s, SlotKey) && PowersOfTwo(regs, s)
    && (forall k :: 0 <= k < |s| ==> Selected(regs, flags, s[k].reg) && (Wants(regs[s[k].reg]) <==> !Assigned(regs[s[k].reg])))
    && (forall i: nat {:trigger Selected(regs, flags, i)} :: i < 7 && Selected(regs, flags, i) ==> Slot(regs[i].size, i) in s)
    && (forall a: Area {:trigger g.sums.Of(a)} :: Need(regs, s, a) <= g.sums.Of(a))
  }

  lemma {:induction false} SelectedWants(regs: seq<Reg>, flags: set<Flag>, i: nat)
    requires Hardware(regs) && i < 7 && Selected(regs, flags, i)
    ensures (Wants(regs[i]) <==> !Assigned(regs[i])) && IsPow2From(Units(regs[i]), 0) && Units(regs[i]) > 0
    ensures Units(regs[i]) % Grain(AreaOf(regs[i].kind)) == 0
  {
    assert Sane(regs[i], i);
    UnitsOfSane(regs[i], i);
    SmallPowers();
    PowerIsMultiple(regs[i].size, SmallestPower(regs[i].kind));
  }

  lemma {:induction false} SortingWorks(regs: seq<Reg>, flags: set<Flag>)
    requires Hardware(regs)
    ensures var g := Gather(regs, flags, false);
            SortedWell(regs, flags, g, Sorted(g.slots, SlotKey))
  {
    var g := Gather(regs, flags, false);
    var s := Sorted(g.slots, SlotKey);
    AllGathered(regs, flags);
    SortedIsSorted(g.slots, SlotKey);
    SortKeepsSlots(regs, g.slots, s);
    forall k | 0 <= k < |s|
      ensures Selected(regs, flags, s[k].reg) && (Wants(regs[s[k].reg]) <==> !Assigned(regs[s[k].reg]))
      ensures IsPow2From(Units(regs[s[k].reg]), 0)
    {
      assert s[k] in multiset(g.slots);
      SelectedWants(regs, flags, s[k].reg);
    }
    forall i: nat | i < 7 && Selected(regs, flags, i) ensures Slot(regs[i].size, i) in s {
      assert Slot(regs[i].size, i) in multiset(g.slots);
    }
    forall a: Area ensures Need(regs, s, a) <= g.sums.Of(a) {
      SumsAreExact(regs, flags, g, a);
      NeedOfPermutation(regs, s, g.slots, a);
      NeedWithinTotal(regs, g.slots, a);
    }
  }

  lemma {:induction false} IoTotal(regs: seq<Reg>, slots: seq<Slot>)
    requires |regs| == 7 && InRange(slots)
    requires forall k :: 0 <= k < |slots| && regs[slots[k].reg].kind == IoReg ==> Units(regs[slots[k].reg]) % 256 == 0
    ensures Total(regs, slots, IoArea) % 256 == 0
    decreases |slots|
  {
    if slots != [] {
      var n := |slots| - 1;
      IoTotal(regs, slots[..n]);
      if regs[slots[n].reg].kind == IoReg {
        DividesSum(Total(regs, slots[..n], IoArea), Units(regs[slots[n].reg]), 256);
      }
    }
  }

  lemma {:induction false} IoSum(regs: seq<Reg>, flags: set<Flag>)
    requires Hardware(regs)
    ensures var io := Gather(regs, flags, false).sums.io;
            io % 4 == 0 && (io != 0 ==> Length(io) == io)
  {
    var g := Gather(regs, flags, false);
    AllGathered(regs, flags);
    SumsAreExact(regs, flags, g, IoArea);
    forall k | 0 <= k < |g.slots| && regs[g.slots[k].reg].kind == IoReg ensures Units(regs[g.slots[k].reg]) % 256 == 0 {
      assert Sane(regs[g.slots[k].reg], g.slots[k].reg);
      UnitsOfSane(regs[g.slots[k].reg], g.slots[k].reg);
    }
    IoTotal(regs, g.slots);
    MultipleOf256(g.sums.io);
  }

  lemma {:induction false} MultipleOf256(n: nat)
    requires n % 256 == 0
    ensures n % 4 == 0 && (n != 0 ==> n >= 256)
  {
    DividesTransitive(n, 256, 4);
    assert n == 256 * (n / 256);
  }

  /** A claimed I/O chunk starts at a multiple of its whole length. */
  lemma {:induction false} IoClaimAligned(regs: seq<Reg>, flags: set<Flag>, address: nat)
    requires Hardware(regs)
    requires var sums := Gather(regs, flags, false).sums;
             sums.io != 0 && address % AlignFor(sums, IoArea) == 0
    ensures address % 4 == 0
  {
    IoSum(regs, flags);
    DividesTransitive(address, Gather(regs, flags, false).sums.io, 4);
  }

  lemma {:induction false} LargestIsPower(regs: seq<Reg>, slots: seq<Slot>, a: Area)
    requires Hardware(regs) && InRange(slots) && a != IoArea && Total(regs, slots, a) != 0
    requires forall k :: 0 <= k < |slots| ==> regs[slots[k].reg].kind != Unused
    ensures var n := Largest(regs, slots, a); n >= 16 && n % 16 == 0 && IsPow2From(n, 0)
  {
    TotalNeedsOne(regs, slots, a);
    var j :| 0 <= j < |slots| && AreaOf(regs[slots[j].reg].kind) == a;
    SaneSize(regs, slots[j].reg);
    var m :| 0 <= m < |slots| && AreaOf(regs[slots[m].reg].kind) == a && regs[slots[m].reg].size == Largest(regs, slots, a);
    SaneSize(regs, slots[m].reg);
  }

  /** A claimed memory chunk starts at a multiple of every register that goes into it. */
  lemma {:induction false} MemClaimAligned(regs: seq<Reg>, flags: set<Flag>, a: Area, address: nat)
    requires Hardware(regs) && a != IoArea
    requires var sums := Gather(regs, flags, false).sums;
             sums.Of(a) != 0 && address % AlignFor(sums, a) == 0
    ensures address % 16 == 0
    ensures forall i: nat {:trigger Selected(regs, flags, i)} :: i < 7 && Selected(regs, flags, i) && AreaOf(regs[i].kind) == a ==>
              regs[i].size > 0 && address % regs[i].size == 0
  {
    var g := Gather(regs, flags, false);
    AllGathered(regs, flags);
    SumsAreExact(regs, flags, g, a);
    LargestIsPower(regs, g.slots, a);
    var n := Largest(regs, g.slots, a);
    DividesTransitive(address, n, 16);
    forall i: nat | i < 7 && Selected(regs, flags, i) && AreaOf(regs[i].kind) == a
      ensures regs[i].size > 0 && address % regs[i].size == 0
    {
      assert Slot(regs[i].size, i) in g.slots;
      RegisterDivides(regs, g.slots, a, i, address);
    }
  }

  lemma {:induction false} RegisterDivides(regs: seq<Reg>, slots: seq<Slot>, a: Area, i: nat, address: nat)
    requires Hardware(regs) && InRange(slots) && a != IoArea && i < 7
    requires regs[i].kind != Unused && AreaOf(regs[i].kind) == a && Slot(regs[i].size, i) in slots
    requires IsPow2From(Largest(regs, slots, a), 0) && Largest(regs, slots, a) > 0 && address % Largest(regs, slots, a) == 0
    ensures regs[i].size > 0 && address % regs[i].size == 0
  {
    SaneSize(regs, i);
    var k :| 0 <= k < |slots| && slots[k] == Slot(regs[i].size, i);
    SmallerDivides(Largest(regs, slots, a), regs[i].size);
    DividesTransitive(address, Largest(regs, slots, a), regs[i].size);
  }

  lemma {:induction false} SaneSize(regs: seq<Reg>, i: nat)
    requires Hardware(regs) && i < 7 && regs[i].kind != Unused
    ensures regs[i].kind != IoReg ==> regs[i].size >= 16 && regs[i].size % 16 == 0 && IsPow2From(regs[i].size, 0)
  {
    assert Sane(regs[i], i);
    UnitsOfSane(regs[i], i);
  }

  lemma {:induction false} TotalNeedsOne(regs: seq<Reg>, slots: seq<Slot>, a: Area)
    requires |regs| == 7 && InRange(slots) && Total(regs, slots, a) != 0
    ensures exists k :: 0 <= k < |slots| && AreaOf(regs[slots[k].reg].kind) == a
  {
    if slots != [] {
      var n := |slots| - 1;
      if AreaOf(regs[slots[n].reg].kind) != a {
        TotalNeedsOne(regs, slots[..n], a);
        var k :| 0 <= k < |slots[..n]| && AreaOf(regs[slots[..n][k].reg].kind) == a;
        assert slots[k] == slots[..n][k];
      }
    }
  }

  // ---------------------------------------------------------------- the first attach

  /** Register `i` lies inside the chunk of its area; memory is naturally aligned. */
  predicate InChunk(dev: Dev, sums: Sums, i: nat)
    requires |dev.regs| == 7 && i < 7
  {
    var reg := dev.regs[i];
    var c := Claimed(dev, sums, AreaOf(reg.kind));
    && c.start <= Base(reg) && Base(reg) + Units(reg) <= c.start + c.length
    && (reg.kind != IoReg ==> reg.size > 0 && Base(reg) % reg.size == 0)
  }

  predicate Disjoint(r: Reg, q: Reg) {
    Base(r) + Units(r) <= Base(q) || Base(q) + Units(q) <= Base(r)
  }

  /** `c` is the result of carving the claimed chunks for `dev`. */
  ghost predicate PlacedAll(dev: Dev, flags: set<Flag>, sums: Sums, c: Dev) {
    && |dev.regs| == 7 && |c.regs| == 7
    && (forall i: nat {:trigger Asked(dev.regs, flags, i)} :: i < 7 ==>
         if Asked(dev.regs, flags, i) then
           && c.regs[i] == dev.regs[i].(address := dev.regs[i].address + Base(c.regs[i]))
           && InChunk(c, sums, i)
         else c.regs[i] == dev.regs[i])
    && (forall i: nat, j: nat {:trigger Asked(dev.regs, flags, i), Asked(dev.regs, flags, j)} :: i < j < 7 ==>
         Asked(dev.regs, flags, i) && Asked(dev.regs, flags, j) && AreaOf(c.regs[i].kind) == AreaOf(c.regs[j].kind) ==>
           Disjoint(c.regs[i], c.regs[j]))
  }

  lemma {:induction false} IoStartIsAligned(dev: Dev, live: set<Chunk>, flags: set<Flag>, c: Claim, host: Host)
    requires Hardware(dev.regs)
    requires GotArea(dev, live, c, Gather(dev.regs, flags, false).sums, host, IoArea)
    ensures Start(c.dev, Gather(dev.regs, flags, false).sums).io % 4 == 0
  {
    if Gather(dev.regs, flags, false).sums.io != 0 {
      IoClaimAligned(dev.regs, flags, c.dev.io.address);
    }
  }

  lemma {:induction false} MemStartIsAligned(dev: Dev, live: set<Chunk>, flags: set<Flag>, c: Claim, host: Host,
          a: Area)
    requires Hardware(dev.regs) && a != IoArea
    requires GotArea(dev, live, c, Gather(dev.regs, flags, false).sums, host, a)
    ensures Start(c.dev, Gather(dev.regs, flags, false).sums).At(a) % 16 == 0
  {
    if Gather(dev.regs, flags, false).sums.Of(a) != 0 {
      MemClaimAligned(dev.regs, flags, a, c.dev.At(a).address);
    }
  }

  lemma {:induction false} CursorIsGrained(dev: Dev, live: set<Chunk>, flags: set<Flag>, c: Claim, host: Host)
    requires Hardware(dev.regs)
    requires Got(dev, live, c, Gather(dev.regs, flags, false).sums, host, AREAS)
    ensures var g := Gather(dev.regs, flags, false);
            var s := Sorted(g.slots, SlotKey);
            Slots(dev.regs, s) && Grained(dev.regs, s, Start(c.dev, g.sums))
  {
    var s := Sorted(Gather(dev.regs, flags, false).slots, SlotKey);
    SortingWorks(dev.regs, flags);
    IoStartIsAligned(dev, live, flags, c, host);
    MemStartIsAligned(dev, live, flags, c, host, MemArea);
    MemStartIsAligned(dev, live, flags, c, host, PrefArea);
    forall k | 0 <= k < |s| ensures Units(dev.regs[s[k].reg]) % Grain(AreaOf(dev.regs[s[k].reg].kind)) == 0 {
      SelectedWants(dev.regs, flags, s[k].reg);
    }
  }

  lemma {:induction false} SlotOf(regs: seq<Reg>, flags: set<Flag>, g: Gathered, s: seq<Slot>, i: nat) returns (k: nat)
    requires |regs| == 7 && SortedWell(regs, flags, g, s) && i < 7 && Selected(regs, flags, i)
    ensures k < |s| && s[k] == Slot(regs[i].size, i)
  {
    k :| k < |s| && s[k] == Slot(regs[i].size, i);
  }

  /** A selected register without an address is placed in its chunk. */
  lemma {:induction false} RegisterPlaced(dev: Dev, live: set<Chunk>, flags: set<Flag>, c: Claim, host: Host, i: nat)
    requires Hardware(dev.regs) && i < 7 && Asked(dev.regs, flags, i)
    requires Got(dev, live, c, Gather(dev.regs, flags, false).sums, host, AREAS)
    requires var s := Sorted(Gather(dev.regs, flags, false).slots, SlotKey); forall k :: 0 <= k < |s| ==> s[k].reg < 7
    ensures var g := Gather(dev.regs, flags, false);
            var regs := Carve(dev.regs, Sorted(g.slots, SlotKey), Start(c.dev, g.sums));
            && regs[i] == dev.regs[i].(address := dev.regs[i].address + Base(regs[i]))
            && InChunk(c.dev.(regs := regs), g.sums, i)
  {
    var g := Gather(dev.regs, flags, false);
    var s, cur, a := Sorted(g.slots, SlotKey), Start(c.dev, g.sums), AreaOf(dev.regs[i].kind);
    SortingWorks(dev.regs, flags);
    CursorIsGrained(dev, live, flags, c, host);
    SelectedWants(dev.regs, flags, i);
    var k := SlotOf(dev.regs, flags, g, s, i);
    CarvedBase(dev.regs, s, cur, k);
    CarvedInside(dev.regs, s, cur, k);
    assert Need(dev.regs, s, a) <= g.sums.Of(a);
    SelectedIsNeeded(dev.regs, flags, i);
    assert GotArea(dev, live, c, g.sums, host, a);
    if dev.regs[i].kind != IoReg {
      MemClaimAligned(dev.regs, flags, a, c.dev.At(a).address);
      CarvedAligned(dev.regs, s, cur, k);
    }
  }

  lemma {:induction false} RegistersApart(dev: Dev, live: set<Chunk>, flags: set<Flag>, c: Claim, host: Host, i: nat,
          j: nat)
    requires Hardware(dev.regs) && i < j < 7
    requires Asked(dev.regs, flags, i) && Asked(dev.regs, flags, j) && AreaOf(dev.regs[i].kind) == AreaOf(dev.regs[j].kind)
    requires Got(dev, live, c, Gather(dev.regs, flags, false).sums, host, AREAS)
    requires var s := Sorted(Gather(dev.regs, flags, false).slots, SlotKey); forall k :: 0 <= k < |s| ==> s[k].reg < 7
    ensures var g := Gather(dev.regs, flags, false);
            var regs := Carve(dev.regs, Sorted(g.slots, SlotKey), Start(c.dev, g.sums));
            Disjoint(regs[i], regs[j])
  {
    var g := Gather(dev.regs, flags, false);
    var s, cur := Sorted(g.slots, SlotKey), Start(c.dev, g.sums);
    SortingWorks(dev.regs, flags);
    CursorIsGrained(dev, live, flags, c, host);
    SelectedWants(dev.regs, flags, i);
    SelectedWants(dev.regs, flags, j);
    var k := SlotOf(dev.regs, flags, g, s, i);
    var m := SlotOf(dev.regs, flags, g, s, j);
    CarvedApart(dev.regs, s, cur, if k < m then k else m, if k < m then m else k);
  }

  /** All other registers stay as they are. */
  lemma {:induction false} RegisterLeft(dev: Dev, live: set<Chunk>, flags: set<Flag>, c: Claim, host: Host, i: nat)
    requires Hardware(dev.regs) && i < 7 && !Asked(dev.regs, flags, i)
    requires Got(dev, live, c, Gather(dev.regs, flags, false).sums, host, AREAS)
    requires var s := Sorted(Gather(dev.regs, flags, false).slots, SlotKey); forall k :: 0 <= k < |s| ==> s[k].reg < 7
    ensures var g := Gather(dev.regs, flags, false);
            Carve(dev.regs, Sorted(g.slots, SlotKey), Start(c.dev, g.sums))[i] == dev.regs[i]
  {
    var g := Gather(dev.regs, flags, false);
    var s, cur := Sorted(g.slots, SlotKey), Start(c.dev, g.sums);
    SortingWorks(dev.regs, flags);
    if Selected(dev.regs, flags, i) {
      CursorIsGrained(dev, live, flags, c, host);
      var k := SlotOf(dev.regs, flags, g, s, i);
      CarvePlaces(dev.regs, s, cur, k);
    } else {
      CarveLeaves(dev.regs, s, cur, i);
    }
  }

  lemma {:induction false} CarvingPlaces(dev: Dev, live: set<Chunk>, flags: set<Flag>, c: Claim, host: Host)
    requires Hardware(dev.regs)
    requires Got(dev, live, c, Gather(dev.regs, flags, false).sums, host, AREAS)
    requires var s := Sorted(Gather(dev.regs, flags, false).slots, SlotKey); forall k :: 0 <= k < |s| ==> s[k].reg < 7
    ensures var g := Gather(dev.regs, flags, false);
            PlacedAll(dev, flags, g.sums, c.dev.(regs := Carve(dev.regs, Sorted(g.slots, SlotKey), Start(c.dev, g.sums))))
  {
    var g := Gather(dev.regs, flags, false);
    var s := Sorted(g.slots, SlotKey);
    SlotsInRange(dev.regs, flags, false);
    SortedInRange(g.slots);
    var regs := Carve(dev.regs, s, Start(c.dev, g.sums));
    forall i: nat | i < 7
      ensures if Asked(dev.regs, flags, i) then
                && regs[i] == dev.regs[i].(address := dev.regs[i].address + Base(regs[i]))
                && InChunk(c.dev.(regs := regs), g.sums, i)
              else regs[i] == dev.regs[i]
    {
      if Asked(dev.regs, flags, i) {
        RegisterPlaced(dev, live, flags, c, host, i);
      } else {
        RegisterLeft(dev, live, flags, c, host, i);
      }
    }
    forall i: nat, j: nat | i < j < 7 && Asked(dev.regs, flags, i) && Asked(dev.regs, flags, j)
                            && AreaOf(dev.regs[i].kind) == AreaOf(dev.regs[j].kind)
      ensures Disjoint(regs[i], regs[j])
    {
      RegistersApart(dev, live, flags, c, host, i, j);
    }
  }

  /** When nothing is asked for, nothing is selected. */
  lemma {:induction false} NothingToCarve(regs: seq<Reg>, flags: set<Flag>)
    requires Hardware(regs)
    requires var sums := Gather(regs, flags, false).sums; sums.io == 0 && sums.mem == 0 && sums.pref == 0
    ensures Sorted(Gather(regs, flags, false).slots, SlotKey) == []
  {
    var g := Gather(regs, flags, false);
    var s := Sorted(g.slots, SlotKey);
    SortingWorks(regs, flags);
    if s != [] {
      SelectedIsNeeded(regs, flags, s[0].reg);
    }
  }

  /**
    An attach that is granted everything: every area asked for gets one new chunk, clear of everything
    live, and every selected register without an address gets a place of its own in it.
  */
  lemma {:induction false} AddupPlaces(dev: Dev, live: set<Chunk>, flags: set<Flag>, host: Host, policy: Policy)
    requires Hardware(dev.regs) && Sound(policy) && AllApart(live)
    requires Addup(dev, live, flags, false, false, host, policy).status == Ok
    ensures var c, sums := Addup(dev, live, flags, false, false, host, policy), Gather(dev.regs, flags, false).sums;
            && PlacedAll(dev, flags, sums, c.dev)
            && Got(dev, live, c.(dev := c.dev.(regs := dev.regs)), sums, host, AREAS)
  {
    var g := Gather(dev.regs, flags, false);
    var c := ObtainAll(Claim(dev, live, Ok), g.sums, host, policy);
    ObtainAllGot(dev, live, g.sums, host, policy);
    assert c.(dev := c.dev.(regs := dev.regs)) == c;
    SlotsInRange(dev.regs, flags, false);
    SortedInRange(g.slots);
    CarvingPlaces(dev, live, flags, c, host);
    if g.sums.io == 0 && g.sums.mem == 0 && g.sums.pref == 0 {
      NothingToCarve(dev.regs, flags);
    }
  }
}
