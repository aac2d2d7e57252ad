/**
  Where the allocator's promises end: exact conditions, and inputs on the far side of them.
*/
module AllocatorLimits {
  import opened Bits
  import opened Common
  import opened Sorting
  import opened Registers
  import opened Carving
  import opened Resources
  import opened DeviceResources
  import opened DeviceTheorems

  /** The sums are `uint32_t`: a chunk is large enough exactly when the registers add up to less than 4 GB. */
  lemma {:induction false} ChunkHoldsAllIff(regs: seq<Reg>, flags: set<Flag>, a: Area)
    requires |regs| == 7 && NoneEnabled(regs)
    requires forall i :: 0 <= i < 7 && regs[i].kind != Unused ==> Wants(regs[i])
    ensures var g := Gather(regs, flags, false);
            && InRange(g.slots)
            && (Need(regs, g.slots, a) <= Length(g.sums.Of(a)) <==> Total(regs, g.slots, a) < 0x1_0000_0000)
  {
    var g := Gather(regs, flags, false);
    GatherTotals(regs, flags);
    assert AreaGathered(regs, g.slots, a, g.sums.Of(a), g.sums.AlignOf(a));
    NeedWithinTotal(regs, g.slots, a);
  }

  /** An I/O register is naturally aligned exactly when the chunk starts at a multiple of it. */
  lemma {:induction false} IoAlignedIff(dev: Dev, live: set<Chunk>, flags: set<Flag>, host: Host, policy: Policy,
          i: nat)
    requires Hardware(dev.regs) && NoAddresses(dev.regs) && Sound(policy) && AllApart(live)
    requires Addup(dev, live, flags, false, false, host, policy).status == Ok
    requires i < 7 && Selected(dev.regs, flags, i) && dev.regs[i].kind == IoReg
    ensures var c := Addup(dev, live, flags, false, false, host, policy);
            |c.dev.regs| == 7 && Units(dev.regs[i]) > 0 &&
            (Base(c.dev.regs[i]) % Units(dev.regs[i]) == 0 <==> c.dev.io.address % Units(dev.regs[i]) == 0)
  {
    var g := Gather(dev.regs, flags, false);
    var c := ObtainAll(Claim(dev, live, Ok), g.sums, host, policy);
    ObtainAllGot(dev, live, g.sums, host, policy);
    SelectedIsNeeded(dev.regs, flags, i);
    SlotsInRange(dev.regs, flags, false);
    SortedInRange(g.slots);
    CarvedIoAlignedIff(dev, live, flags, c, host, i);
  }

  lemma {:induction false} CarvedIoAlignedIff(dev: Dev, live: set<Chunk>, flags: set<Flag>, c: Claim, host: Host,
          i: nat)
    requires Hardware(dev.regs) && NoAddresses(dev.regs) && i < 7 && Selected(dev.regs, flags, i) && dev.regs[i].kind == IoReg
    requires Got(dev, live, c, Gather(dev.regs, flags, false).sums, host, AREAS)
    requires var s := Sorted(Gather(dev.regs, flags, false).slots, SlotKey); forall k :: 0 <= k < |s| ==> s[k].reg < 7
    ensures var g := Gather(dev.regs, flags, false);
            var regs := Carve(dev.regs, Sorted(g.slots, SlotKey), Start(c.dev, g.sums));
            && Units(dev.regs[i]) > 0
            && (Base(regs[i]) % Units(dev.regs[i]) == 0 <==> c.dev.io.address % Units(dev.regs[i]) == 0)
  {
    var g := Gather(dev.regs, flags, false);
    var s, cur := Sorted(g.slots, SlotKey), Start(c.dev, g.sums);
    SortingWorks(dev.regs, flags);
    CursorIsGrained(dev, live, flags, c, host);
    SelectedWants(dev.regs, flags, i);
    SelectedIsNeeded(dev.regs, flags, i);
    var k := SlotOf(dev.regs, flags, g, s, i);
    CarvedBase(dev.regs, s, cur, k);
    CarvedAligned(dev.regs, s, cur, k);
  }

  /**
    The I/O chunk is only aligned to its own length.  Every start the database may grant aligns a
    register exactly when the sum is a multiple of the register.
  */
  lemma {:induction false} IoSumAlignsIff(regs: seq<Reg>, flags: set<Flag>, i: nat)
    requires Hardware(regs) && NoAddresses(regs) && i < 7 && Selected(regs, flags, i) && regs[i].kind == IoReg
    ensures var sums, n := Gather(regs, flags, false).sums, Units(regs[i]);
            && n > 0 && sums.io > 0
            && ((forall start: nat :: start % AlignFor(sums, IoArea) == 0 ==> start % n == 0) <==> sums.io % n == 0)
  {
    var sums, n := Gather(regs, flags, false).sums, Units(regs[i]);
    SelectedWants(regs, flags, i);
    SelectedIsNeeded(regs, flags, i);
    IoSum(regs, flags);
    if sums.io % n == 0 {
      forall start: nat | start % sums.io == 0 ensures start % n == 0 {
        DividesTransitive(start, sums.io, n);
      }
    } else {
      assert sums.io % AlignFor(sums, IoArea) == 0;
    }
  }

  const UNUSED := Reg(0, 0, Unused, false)

  /** Ports of 512 and 256 bytes. */
  const MIXED := Dev(0, [Reg(1, 512, IoReg, false), Reg(1, 256, IoReg, false), UNUSED, UNUSED, UNUSED, UNUSED, UNUSED],
                     Holding(0, 0), Holding(0, 0), Holding(0, 0), {}, 0, false, false)

  const BOTH: set<Flag> := {InitBase(0), InitBase(1)}

  /** A machine with ports 0 to 0xffff. */
  const PORTS := Host([], 0, 0xffff, map[])

  /** A database that grants start `x` or nothing. */
  function Always(x: nat): (r: Policy) {
    (req: Request, live: set<Chunk>) => if Grantable(live, req, x) then Some(x) else None
  }

  lemma {:induction false} MixedSum()
    ensures Gather(MIXED.regs, BOTH, false).sums == Sums(768, 0, 0, 0, 0)
  {
    var regs := MIXED.regs;
    var g1 := GatherBase(NOTHING, regs[0], 0, BOTH, false);
    var g2 := GatherBase(g1, regs[1], 1, BOTH, false);
    assert GatherBases(NOTHING, regs, 0, BOTH, false) == GatherBases(g2, regs, 2, BOTH, false);
    assert GatherBases(g2, regs, 2, BOTH, false) == GatherBases(g2, regs, 4, BOTH, false) == GatherBases(g2, regs, 6, BOTH, false);
  }

  lemma {:induction false} MixedIsHardware()
    ensures Hardware(MIXED.regs) && NoAddresses(MIXED.regs)
  {
    SmallPowers();
    assert Pow2(9) == 512;
    assert IsPow2From(512, 2) && IsPow2From(256, 2);
    forall a: Area ensures SumTo(MIXED.regs, 7, a) < 0x1_0000_0000 {
      var regs := MIXED.regs;
      assert SumTo(regs, 1, a) <= 512;
      assert SumTo(regs, 2, a) <= 768;
      assert SumTo(regs, 4, a) == SumTo(regs, 2, a);
      assert SumTo(regs, 6, a) == SumTo(regs, 4, a);
    }
  }

  lemma {:induction false} MixedGrant()
    ensures var c := Addup(MIXED, {}, BOTH, false, false, PORTS, Always(768));
            c.status == Ok && c.dev.io.address == 768
  {
    MixedSum();
    var sums := Gather(MIXED.regs, BOTH, false).sums;
    var req := IoRequest(PORTS, 768, 0, 0);
    assert req == Request(Pool(true, 0, false), 768, 768, Some(Page(0, 0xffff)));
    assert Grantable({}, req, 768);
    assert Always(768)(req, {}) == Some(768);
    assert Alloc(PORTS, Always(768), {}, IoArea, 768, 0, 0) == Granted(768);
    assert Obtain(Claim(MIXED, {}, Ok), sums, IoArea, PORTS, Always(768)).status == Ok;
  }

  /**
    The sum of the two ports is 768, so a database may grant start 768, and then the larger port is not
    naturally aligned.
  */
  lemma {:induction false} MixedPortsMayBeMisaligned()
    ensures Sound(Always(768))
    ensures var c := Addup(MIXED, {}, BOTH, false, false, PORTS, Always(768));
            && c.status == Ok && |c.dev.regs| == 7 && Assigned(c.dev.regs[0])
            && Units(c.dev.regs[0]) == 512 && Base(c.dev.regs[0]) % 512 != 0
  {
    MixedGrant();
    MixedIsHardware();
    assert Asked(MIXED.regs, BOTH, 0);
    IoAlignedIff(MIXED, {}, BOTH, PORTS, Always(768), 0);
    AddupPlaces(MIXED, {}, BOTH, PORTS, Always(768));
  }

  // ---------------------------------------------------------------- exhausted memory

  /** A device on bus 0 with 256 bytes of memory. */
  const CARD := Dev(0, [Reg(0, 256, MemReg, false), UNUSED, UNUSED, UNUSED, UNUSED, UNUSED, UNUSED],
                    Holding(0, 0), Holding(0, 0), Holding(0, 0), {}, 0, false, false)

  /** A machine with one page of memory. */
  const ONE_PAGE := Host([Page(0x1000, 0xffff)], 0, 0xffff, map[])

  /** A database that has nothing left. */
  function Never(): (r: Policy) { (req: Request, live: set<Chunk>) => None }

  lemma {:induction false} CardGathered()
    ensures Gather(CARD.regs, {InitBase(0)}, false) == Gathered(Sums(0, 256, 0, 256, 0), [Slot(256, 0)], false)
  {
    var regs, flags := CARD.regs, {InitBase(0)};
    var g := GatherBase(NOTHING, regs[0], 0, flags, false);
    assert GatherBases(NOTHING, regs, 0, flags, false) == GatherBases(g, regs, 1, flags, false);
    assert GatherBases(g, regs, 1, flags, false) == GatherBases(g, regs, 3, flags, false) == GatherBases(g, regs, 5, flags, false);
  }

  lemma {:induction false} CardFallsThrough(live: set<Chunk>)
    ensures ObtainAll(Claim(CARD, live, Ok), Sums(0, 256, 0, 256, 0), ONE_PAGE, Never())
         == Claim(CARD.(mem := Holding(0x1000, 256)), live, Short)
  {
    assert Alloc(ONE_PAGE, Never(), live, MemArea, 256, 256, 0) == FellThrough(0x1000);
  }

  lemma {:induction false} CardPlaced(live: set<Chunk>)
    ensures var c := Addup(CARD, live, {InitBase(0)}, false, false, ONE_PAGE, Never());
            c.status == Short && c.live == live && c.dev.regs == CARD.regs[0 := CARD.regs[0].(address := 0x1000)]
  {
    CardGathered();
    CardFallsThrough(live);
    var slots := [Slot(256, 0)];
    assert slots[1..] == [] && Sorted(slots, SlotKey) == slots;
  }

  /**
    When every page of the machine refuses, the call still succeeds, and the address it uses was never
    granted: two such devices end up at the same address.
  */
  lemma {:induction false} ExhaustedMemoryOverlaps(live: set<Chunk>, later: set<Chunk>)
    ensures Sound(Never())
    ensures var c, d := Addup(CARD, live, {InitBase(0)}, false, false, ONE_PAGE, Never()),
                        Addup(CARD, later, {InitBase(0)}, false, false, ONE_PAGE, Never());
            && c.status == Short && d.status == Short && |c.dev.regs| == 7 && |d.dev.regs| == 7
            && Assigned(c.dev.regs[0]) && Assigned(d.dev.regs[0]) && !Disjoint(c.dev.regs[0], d.dev.regs[0])
  {
    CardPlaced(live);
    CardPlaced(later);
  }
}
