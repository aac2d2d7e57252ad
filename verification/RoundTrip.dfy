/**
  Releasing undoes the first attach: the registers, the three holdings and the set of live chunks
  return to what they were, exactly when no chunk was granted at address 0.
*/
module RoundTrip {
  import opened Bits
  import opened Sorting
  import opened Registers
  import opened Carving
  import opened Resources
  import opened DeviceResources
  import opened DeviceTheorems

  /** The chunk that a device would give back for an area. */
  function Own(dev: Dev, a: Area): (r: Chunk) { ChunkAt(a, dev.bus, dev.At(a).address, dev.At(a).size) }

  function Owned(dev: Dev): (r: set<Chunk>) { set a | a in AREAS && dev.At(a).address != 0 :: Own(dev, a) }

  /** A register that `release_resources` can clear back to `Bare`. */
  predicate Clearable(reg: Reg, i: nat) {
    && !reg.enabled
    && reg.address % 2 == (if reg.kind == IoReg then 1 else 0)
    && (i == 6 ==> reg.kind != IoReg && Base(reg) % 2048 == 0)
  }

  lemma {:induction false} EvenRest(x: nat)
    requires x % 2 == 0
    ensures 2 * (x % 16 / 2) == x % 16
  {
    assert x % 16 == 2 * (x / 2 - 8 * (x / 16));
  }

  lemma {:induction false} RomBits(x: nat)
    requires x % 2 == 0 && (x - x % 16) % 2048 == 0
    ensures 2 * (x % 2048 / 2) == x % 16
  {
    EvenRest(x);
    ModUnique(x, 2048, (x - x % 16) / 2048, x % 16);
  }

  lemma {:induction false} FlagsAreBare(reg: Reg, i: nat)
    requires Clearable(reg, i)
    ensures Flags(reg.address, i) == Bare(reg).address
  {
    if i == 6 {
      RomBits(reg.address);
    }
  }

  function Bared(regs: seq<Reg>): (r: seq<Reg>)
    ensures |r| == |regs|
  {
    seq(|regs|, i requires 0 <= i < |regs| => Bare(regs[i]))
  }

  lemma {:induction false} ClearedFrom(regs: seq<Reg>, i: nat)
    requires |regs| == 7 && i <= 7 && forall k :: i <= k < 7 ==> Clearable(regs[k], k)
    ensures ClearRegs(regs, i, false).0 == regs[..i] + Bared(regs)[i..]
    decreases 7 - i
  {
    if i < 7 {
      FlagsAreBare(regs[i], i);
      var next := regs[i := Bare(regs[i])];
      assert ClearRegs(regs, i, false) == ClearRegs(next, i + 1, false);
      forall k | i + 1 <= k < 7 ensures Clearable(next[k], k) {
        assert next[k] == regs[k];
      }
      ClearedFrom(next, i + 1);
      assert next[..i + 1] == regs[..i] + [Bare(regs[i])];
      assert Bared(regs)[i..] == [Bare(regs[i])] + Bared(next)[i + 1..];
    }
  }

  /** Every register loses its address and keeps its flag bits. */
  lemma {:induction false} ClearingBares(regs: seq<Reg>)
    requires |regs| == 7 && forall k :: 0 <= k < 7 ==> Clearable(regs[k], k)
    ensures ClearRegs(regs, 0, false).0 == Bared(regs)
  {
    ClearedFrom(regs, 0);
    assert Bared(regs)[0..] == Bared(regs);
  }

  ghost predicate Returnable(dev: Dev, host: Host, a: Area) {
    dev.At(a).address != 0 ==> Reaches(host, dev.bus) && dev.At(a).address % Step(a) == 0
  }

  lemma {:induction false} ReturnOne(c: Claim, a: Area, host: Host)
    requires Returnable(c.dev, host, a)
    ensures var r := Return(c, a, host);
            && r.dev == c.dev.With(a, c.dev.At(a).(address := 0))
            && r.live == c.live - (if c.dev.At(a).address != 0 then {Own(c.dev, a)} else {})
  {
  }

  /** Without addresses and without chunks. */
  function Emptied(dev: Dev): (r: Dev) {
    dev.(regs := Bared(dev.regs), io := dev.io.(address := 0), mem := dev.mem.(address := 0), pref := dev.pref.(address := 0))
  }

  /** `release_resources` frees exactly the chunks of the device and clears every address. */
  lemma {:induction false} ReleaseEmpties(dev: Dev, live: set<Chunk>, host: Host)
    requires |dev.regs| == 7 && forall k :: 0 <= k < 7 ==> Clearable(dev.regs[k], k)
    requires forall a: Area :: Returnable(dev, host, a)
    ensures Release(dev, live, host).dev == Emptied(dev)
    ensures Release(dev, live, host).live == live - Owned(dev)
  {
    ClearingBares(dev.regs);
    assert Returnable(dev, host, IoArea) && Returnable(dev, host, MemArea) && Returnable(dev, host, PrefArea);
    ReturnAll(dev.(regs := Bared(dev.regs)), live, host);
    OwnedBy(dev);
  }

  /** The three returns, one after the other. */
  lemma {:induction false} ReturnAll(dev: Dev, live: set<Chunk>, host: Host)
    requires Returnable(dev, host, IoArea) && Returnable(dev, host, MemArea) && Returnable(dev, host, PrefArea)
    ensures var r := Return(Return(Return(Claim(dev, live, Ok), IoArea, host), MemArea, host), PrefArea, host);
            && r.dev == dev.(io := dev.io.(address := 0), mem := dev.mem.(address := 0), pref := dev.pref.(address := 0))
            && r.live == live - (if dev.io.address != 0 then {Own(dev, IoArea)} else {})
                              - (if dev.mem.address != 0 then {Own(dev, MemArea)} else {})
                              - (if dev.pref.address != 0 then {Own(dev, PrefArea)} else {})
  {
    var c0 := Claim(dev, live, Ok);
    var c1 := Return(c0, IoArea, host);
    var c2 := Return(c1, MemArea, host);
    ReturnOne(c0, IoArea, host);
    ReturnOne(c1, MemArea, host);
    ReturnOne(c2, PrefArea, host);
  }

  lemma {:induction false} OwnedBy(dev: Dev)
    ensures Owned(dev) == (if dev.io.address != 0 then {Own(dev, IoArea)} else {})
                        + (if dev.mem.address != 0 then {Own(dev, MemArea)} else {})
                        + (if dev.pref.address != 0 then {Own(dev, PrefArea)} else {})
  {
    assert dev.At(IoArea) == dev.io && dev.At(MemArea) == dev.mem && dev.At(PrefArea) == dev.pref;
  }

  // ---------------------------------------------------------------- attach, then release

  lemma {:induction false} BaseIsMultiple(reg: Reg)
    ensures Base(reg) % Limit(reg) == 0 && Base(reg) % 2 == 0
    ensures reg.address % 2 == Bare(reg).address % 2
  {
    var l := Limit(reg);
    assert Base(reg) == l * (reg.address / l);
    MultipleOf(Base(reg), l, reg.address / l);
    DividesTransitive(Base(reg), l, 2);
    ModOfSum(reg.address % l, Base(reg), 2);
  }

  lemma {:induction false} RomIsMultiple(reg: Reg)
    requires Sane(reg, 6) && reg.kind != Unused
    ensures reg.size % 2048 == 0 && reg.size > 0
  {
    SmallPowers();
    PowerIsMultiple(reg.size, 11);
  }

  /** A register without an address is not changed by clearing it. */
  lemma {:induction false} BareIsClearable(reg: Reg, i: nat)
    requires Sane(reg, i) && !Assigned(reg)
    ensures Clearable(reg, i) && Bare(reg) == reg
  {
  }

  /** A register that was given an address can be cleared, and clearing it restores it. */
  lemma {:induction false} AskedIsClearable(dev: Dev, flags: set<Flag>, sums: Sums, c: Dev, i: nat)
    requires Hardware(dev.regs) && PlacedAll(dev, flags, sums, c) && i < 7 && Asked(dev.regs, flags, i)
    ensures Clearable(c.regs[i], i) && Bare(c.regs[i]) == dev.regs[i]
  {
    assert Sane(dev.regs[i], i);
    BaseIsMultiple(c.regs[i]);
    if i == 6 {
      RomIsMultiple(dev.regs[i]);
      DividesTransitive(Base(c.regs[i]), c.regs[i].size, 2048);
    }
  }

  lemma {:induction false} PlacedIsClearable(dev: Dev, flags: set<Flag>, sums: Sums, c: Dev, i: nat)
    requires Hardware(dev.regs) && NoAddresses(dev.regs) && PlacedAll(dev, flags, sums, c) && i < 7
    ensures Clearable(c.regs[i], i) && Bare(c.regs[i]) == dev.regs[i]
  {
    if Asked(dev.regs, flags, i) {
      AskedIsClearable(dev, flags, sums, c, i);
    } else {
      assert Sane(dev.regs[i], i);
      BareIsClearable(dev.regs[i], i);
    }
  }

  /** An area that was asked for can be returned. */
  lemma {:induction false} ClaimIsReturnable(dev: Dev, live: set<Chunk>, flags: set<Flag>, c: Claim, host: Host,
          a: Area)
    requires Hardware(dev.regs) && dev.At(a).address == 0
    requires GotArea(dev, live, c, Gather(dev.regs, flags, false).sums, host, a) && c.dev.bus == dev.bus
    ensures Returnable(c.dev, host, a)
    ensures Gather(dev.regs, flags, false).sums.Of(a) != 0 ==>
              c.dev.At(a).address % Step(a) == 0 && Own(c.dev, a) == Claimed(c.dev, Gather(dev.regs, flags, false).sums, a)
  {
    var sums := Gather(dev.regs, flags, false).sums;
    if sums.Of(a) != 0 {
      if a == IoArea {
        IoClaimAligned(dev.regs, flags, c.dev.At(a).address);
      } else {
        MemClaimAligned(dev.regs, flags, a, c.dev.At(a).address);
      }
    }
  }

  ghost predicate Empty(dev: Dev) { forall a: Area :: dev.At(a).address == 0 }

  /** No chunk that was asked for was granted at address 0. */
  ghost predicate NoneAtZero(sums: Sums, dev: Dev) {
    forall a: Area {:trigger sums.Of(a)} :: sums.Of(a) != 0 ==> dev.At(a).address != 0
  }

  /** The chunk of an area that was asked for is live now and was not before. */
  ghost predicate NewChunk(live: set<Chunk>, c: Claim, sums: Sums, a: Area) {
    if sums.Of(a) == 0 then c.dev.At(a).address == 0
    else Own(c.dev, a) == Claimed(c.dev, sums, a) && Own(c.dev, a) in c.live && Own(c.dev, a) !in live
  }

  lemma {:induction false} AreaSettled(dev: Dev, live: set<Chunk>, flags: set<Flag>, c: Claim, host: Host, a: Area)
    requires Hardware(dev.regs) && Empty(dev)
    requires Got(dev, live, c.(dev := c.dev.(regs := dev.regs)), Gather(dev.regs, flags, false).sums, host, AREAS)
    ensures Returnable(c.dev, host, a) && NewChunk(live, c, Gather(dev.regs, flags, false).sums, a)
    ensures c.dev.At(a).address != 0 ==> InWindow(host, a, c.dev.bus, Own(c.dev, a).start, Own(c.dev, a).length)
  {
    var sums, c' := Gather(dev.regs, flags, false).sums, c.(dev := c.dev.(regs := dev.regs));
    assert GotArea(dev, live, c', sums, host, a);
    assert dev.At(a).address == 0;
    ClaimIsReturnable(dev, live, flags, c', host, a);
    assert c'.dev.At(a) == c.dev.At(a);
  }

  lemma {:induction false} OwnedIsNew(live: set<Chunk>, c: Claim, sums: Sums)
    requires forall a: Area :: NewChunk(live, c, sums, a)
    ensures Owned(c.dev) !! live
  {
    forall d | d in Owned(c.dev) ensures d !in live {
      var a :| a in AREAS && c.dev.At(a).address != 0 && d == Own(c.dev, a);
      assert NewChunk(live, c, sums, a);
    }
  }

  /** Taking back what the device owns leaves the chunks at address 0. */
  lemma {:induction false} ChunksReturned(dev: Dev, live: set<Chunk>, c: Claim, sums: Sums, host: Host)
    requires Got(dev, live, c.(dev := c.dev.(regs := dev.regs)), sums, host, AREAS)
    requires forall a: Area :: NewChunk(live, c, sums, a)
    ensures c.live - Owned(c.dev) == live <==> NoneAtZero(sums, c.dev)
  {
    var c' := c.(dev := c.dev.(regs := dev.regs));
    forall a: Area ensures Claimed(c'.dev, sums, a) == Claimed(c.dev, sums, a) {
    }
    if NoneAtZero(sums, c.dev) {
      OwnedIsNew(live, c, sums);
      forall d | d in c.live ensures d in live <==> d !in Owned(c.dev) {
        if d !in live {
          var a :| a in AREAS && sums.Of(a) != 0 && d == Claimed(c'.dev, sums, a);
          assert NewChunk(live, c, sums, a);
        }
      }
    } else {
      var a: Area :| sums.Of(a) != 0 && c.dev.At(a).address == 0;
      assert NewChunk(live, c, sums, a);
      StaysAtZero(c, sums, live, a);
    }
  }

  lemma {:induction false} StaysAtZero(c: Claim, sums: Sums, live: set<Chunk>, a: Area)
    requires sums.Of(a) != 0 && c.dev.At(a).address == 0 && NewChunk(live, c, sums, a)
    ensures Own(c.dev, a) in c.live - Owned(c.dev) && Own(c.dev, a) !in live
  {
    forall b | b in AREAS && c.dev.At(b).address != 0 ensures Own(c.dev, b) != Own(c.dev, a) {
    }
  }

  lemma {:induction false} PlacedAreBare(dev: Dev, flags: set<Flag>, sums: Sums, c: Dev)
    requires Hardware(dev.regs) && NoAddresses(dev.regs) && PlacedAll(dev, flags, sums, c)
    ensures forall k :: 0 <= k < 7 ==> Clearable(c.regs[k], k)
    ensures Bared(c.regs) == dev.regs
  {
    forall k: nat | k < 7 ensures Clearable(c.regs[k], k) && Bared(c.regs)[k] == dev.regs[k] {
      PlacedIsClearable(dev, flags, sums, c, k);
    }
  }

  lemma {:induction false} AttachSettles(dev: Dev, live: set<Chunk>, flags: set<Flag>, host: Host, policy: Policy)
    requires Hardware(dev.regs) && NoAddresses(dev.regs) && Empty(dev) && Sound(policy) && AllApart(live)
    requires Addup(dev, live, flags, false, false, host, policy).status == Ok
    ensures var c, sums := Addup(dev, live, flags, false, false, host, policy), Gather(dev.regs, flags, false).sums;
            && |c.dev.regs| == 7 && (forall k :: 0 <= k < 7 ==> Clearable(c.dev.regs[k], k)) && Bared(c.dev.regs) == dev.regs
            && (forall a: Area :: Returnable(c.dev, host, a))
            && (c.live - Owned(c.dev) == live <==> NoneAtZero(sums, c.dev))
  {
    var c, sums := Addup(dev, live, flags, false, false, host, policy), Gather(dev.regs, flags, false).sums;
    AddupPlaces(dev, live, flags, host, policy);
    PlacedAreBare(dev, flags, sums, c.dev);
    forall a: Area ensures Returnable(c.dev, host, a) && NewChunk(live, c, sums, a) {
      AreaSettled(dev, live, flags, c, host, a);
    }
    ChunksReturned(dev, live, c, sums, host);
  }

  lemma {:induction false} ReleaseRestores(dev: Dev, c: Claim, host: Host)
    requires |c.dev.regs| == 7 && (forall k :: 0 <= k < 7 ==> Clearable(c.dev.regs[k], k)) && Bared(c.dev.regs) == dev.regs
    requires forall a: Area :: Returnable(c.dev, host, a)
    ensures var r := Release(c.dev, c.live, host);
            r.dev.regs == dev.regs && Empty(r.dev) && r.live == c.live - Owned(c.dev)
  {
    ReleaseEmpties(c.dev, c.live, host);
  }

  /**
    The first attach followed by the last detach: addresses and holdings return to what they were,
    and so does the set of live chunks exactly when no chunk was granted at address 0, the value that
    `release_resources` takes for "nothing to free".
  */
  lemma {:induction false} AttachThenRelease(dev: Dev, live: set<Chunk>, flags: set<Flag>, host: Host, policy: Policy)
    requires Hardware(dev.regs) && NoAddresses(dev.regs) && Empty(dev) && Sound(policy) && AllApart(live)
    requires Addup(dev, live, flags, false, false, host, policy).status == Ok
    ensures var c, sums := Addup(dev, live, flags, false, false, host, policy), Gather(dev.regs, flags, false).sums;
            var r := Release(c.dev, c.live, host);
            && r.dev.regs == dev.regs && Empty(r.dev)
            && (r.live == live <==> NoneAtZero(sums, c.dev))
  {
    var c := Addup(dev, live, flags, false, false, host, policy);
    AttachSettles(dev, live, flags, host, policy);
    ReleaseRestores(dev, c, host);
  }
}
