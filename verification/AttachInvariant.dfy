/**
  What every attach and detach keeps for one device, and how they move chunks between the device and
  the rest of the machine.
*/
module AttachInvariant {
  import opened Common
  import opened Bits
  import opened Registers
  import opened Carving
  import opened Resources
  import opened DeviceResources
  import opened DeviceTheorems
  import opened RoundTrip
  import opened Attachment

  /** The address of register `i` lies in the device's own chunk; memory is naturally aligned. */
  predicate InOwn(dev: Dev, i: nat)
    requires i < |dev.regs|
  {
    var reg, a := dev.regs[i], AreaOf(dev.regs[i].kind);
    && dev.At(a).address != 0
    && Own(dev, a).start <= Base(reg) && Base(reg) + Units(reg) <= Own(dev, a).start + Own(dev, a).length
    && (reg.kind != IoReg ==> reg.size > 0 && Base(reg) % reg.size == 0)
  }

  ghost predicate RegOk(dev: Dev, hw: seq<Reg>, i: nat)
    requires i < |dev.regs| && i < |hw|
  {
    && Clearable(dev.regs[i], i) && Bare(dev.regs[i]) == hw[i]
    && (Assigned(dev.regs[i]) ==> InOwn(dev, i))
  }

  ghost predicate PairOk(dev: Dev, i: nat, j: nat)
    requires i < |dev.regs| && j < |dev.regs|
  {
    Assigned(dev.regs[i]) && Assigned(dev.regs[j]) && AreaOf(dev.regs[i].kind) == AreaOf(dev.regs[j].kind) ==>
      Disjoint(dev.regs[i], dev.regs[j])
  }

  ghost predicate AreaOk(dev: Dev, host: Host, live: set<Chunk>, a: Area) {
    && Returnable(dev, host, a)
    && (dev.At(a).address != 0 ==> Own(dev, a) in live && InWindow(host, a, dev.bus, Own(dev, a).start, Own(dev, a).length))
  }

  /** Registers and holdings; `hw` is how the hardware presents the registers without addresses. */
  ghost predicate ResourcesOk(dev: Dev, hw: seq<Reg>, host: Host, live: set<Chunk>) {
    && Hardware(hw) && NoAddresses(hw) && |dev.regs| == 7
    && (forall i: nat {:trigger RegOk(dev, hw, i)} :: i < 7 ==> RegOk(dev, hw, i))
    && (forall i: nat, j: nat {:trigger PairOk(dev, i, j)} :: i < j < 7 ==> PairOk(dev, i, j))
    && (forall a: Area {:trigger AreaOk(dev, host, live, a)} :: AreaOk(dev, host, live, a))
  }

  /** The holders agree with the flags, and nobody holding means nothing held. */
  ghost predicate HoldersOk(dev: Dev) {
    && !dev.persistent && dev.lock < 256
    && (if IsHeld(dev) then dev.flags * INIT != {} else dev.flags == {} && NoAddresses(dev.regs) && Empty(dev))
  }

  ghost predicate DevOk(dev: Dev, hw: seq<Reg>, host: Host, live: set<Chunk>) {
    ResourcesOk(dev, hw, host, live) && HoldersOk(dev)
  }

  /** Only registers and holdings matter for `ResourcesOk`. */
  lemma {:induction false} SameResources(dev: Dev, next: Dev, hw: seq<Reg>, host: Host, live: set<Chunk>)
    requires ResourcesOk(dev, hw, host, live)
    requires next == dev.(flags := next.flags, lock := next.lock, mgr := next.mgr, persistent := next.persistent)
    ensures ResourcesOk(next, hw, host, live) && Owned(next) == Owned(dev)
  {
    forall i: nat | i < 7 ensures RegOk(next, hw, i) {
      assert RegOk(dev, hw, i);
    }
    forall i: nat, j: nat | i < j < 7 ensures PairOk(next, i, j) {
      assert PairOk(dev, i, j);
    }
    forall a: Area ensures AreaOk(next, host, live, a) && next.At(a) == dev.At(a) {
      assert AreaOk(dev, host, live, a);
    }
  }

  /** A device does not notice what happens to chunks it does not own. */
  lemma {:induction false} OtherChunks(dev: Dev, hw: seq<Reg>, host: Host, live: set<Chunk>, next: set<Chunk>)
    requires ResourcesOk(dev, hw, host, live) && Owned(dev) <= next
    ensures ResourcesOk(dev, hw, host, next)
  {
    forall a: Area ensures AreaOk(dev, host, next, a) {
      assert AreaOk(dev, host, live, a);
      if dev.At(a).address != 0 {
        assert a in AREAS;
        assert Own(dev, a) in Owned(dev);
      }
    }
  }

  lemma {:induction false} OwnedIsLive(dev: Dev, hw: seq<Reg>, host: Host, live: set<Chunk>)
    requires ResourcesOk(dev, hw, host, live)
    ensures Owned(dev) <= live
  {
    forall d | d in Owned(dev) ensures d in live {
      var a :| a in AREAS && dev.At(a).address != 0 && d == Own(dev, a);
      assert AreaOk(dev, host, live, a);
    }
  }

  // ---------------------------------------------------------------- attach

  lemma {:induction false} QuietBases(regs: seq<Reg>, g: Gathered, i: nat, flags: set<Flag>)
    requires |regs| == 7 && i <= 6
    ensures GatherBases(g, regs, i, flags, true).sums == g.sums
    decreases 6 - i
  {
    if i < 6 {
      QuietBases(regs, GatherBase(g, regs[i], i, flags, true), i + 1, flags);
    }
  }

  /** Looking, or joining another holder, claims nothing. */
  lemma {:induction false} QuietAddup(dev: Dev, live: set<Chunk>, flags: set<Flag>, show: bool, next: bool, host: Host,
          policy: Policy)
    requires |dev.regs| == 7 && (show || next)
    ensures Addup(dev, live, flags, show, next, host, policy) == Claim(dev, live, Ok)
  {
    QuietBases(dev.regs, NOTHING, 0, flags);
  }

  /** The attach calls that the theorems are about: not persistent, granted, and not the 256th lock. */
  ghost predicate Grants(dev: Dev, flags: set<Flag>, e: Effect) {
    && Persist !in flags && dev.lock < 255 && e.reply == Attached(false)
    && (!IsHeld(dev) && !Shows(flags) && |dev.regs| == 7 ==> NoneAtZero(Gather(dev.regs, flags, false).sums, e.dev))
  }

  /** A placed register is in order. */
  lemma {:induction false} PlacedRegOk(dev: Dev, live: set<Chunk>, flags: set<Flag>, c: Claim, host: Host, i: nat)
    requires Hardware(dev.regs) && NoAddresses(dev.regs) && i < 7
    requires var sums := Gather(dev.regs, flags, false).sums;
             PlacedAll(dev, flags, sums, c.dev) && NoneAtZero(sums, c.dev) && forall a: Area :: NewChunk(live, c, sums, a)
    ensures RegOk(c.dev, dev.regs, i)
  {
    var sums := Gather(dev.regs, flags, false).sums;
    PlacedIsClearable(dev, flags, sums, c.dev, i);
    if Asked(dev.regs, flags, i) {
      SelectedIsNeeded(dev.regs, flags, i);
      assert NewChunk(live, c, sums, AreaOf(dev.regs[i].kind));
    }
  }

  lemma {:induction false} PlacedPairOk(dev: Dev, flags: set<Flag>, sums: Sums, c: Dev, i: nat, j: nat)
    requires |dev.regs| == 7 && NoAddresses(dev.regs) && i < j < 7 && PlacedAll(dev, flags, sums, c)
    ensures PairOk(c, i, j)
  {
    assert Asked(dev.regs, flags, i) || c.regs[i] == dev.regs[i];
    assert Asked(dev.regs, flags, j) || c.regs[j] == dev.regs[j];
  }

  /** The first attach leaves a device in order; what is new is its own. */
  lemma {:induction false} FirstAddup(dev: Dev, live: set<Chunk>, flags: set<Flag>, host: Host, policy: Policy)
    requires Hardware(dev.regs) && NoAddresses(dev.regs) && Empty(dev) && Sound(policy) && AllApart(live)
    requires var c := Addup(dev, live, flags, false, false, host, policy);
             c.status == Ok && NoneAtZero(Gather(dev.regs, flags, false).sums, c.dev)
    ensures var c := Addup(dev, live, flags, false, false, host, policy);
            && ResourcesOk(c.dev, dev.regs, host, c.live) && AllApart(c.live)
            && Owned(c.dev) !! live && c.live == live + Owned(c.dev)
  {
    var c, sums := Addup(dev, live, flags, false, false, host, policy), Gather(dev.regs, flags, false).sums;
    AddupPlaces(dev, live, flags, host, policy);
    forall a: Area ensures AreaOk(c.dev, host, c.live, a) && NewChunk(live, c, sums, a) {
      AreaSettled(dev, live, flags, c, host, a);
    }
    forall i: nat | i < 7 ensures RegOk(c.dev, dev.regs, i) {
      PlacedRegOk(dev, live, flags, c, host, i);
    }
    forall i: nat, j: nat | i < j < 7 ensures PairOk(c.dev, i, j) {
      PlacedPairOk(dev, flags, sums, c.dev, i, j);
    }
    OwnedIsNew(live, c, sums);
    OwnedIsLive(c.dev, dev.regs, host, c.live);
    ChunksReturned(dev, live, c, sums, host);
  }

  /** What a call on one device does to the chunks: they move between the device and the free space. */
  ghost predicate Moves(dev: Dev, live: set<Chunk>, e: Effect) {
    && AllApart(e.live)
    && e.live - Owned(e.dev) == live - Owned(dev)
    && Owned(e.dev) !! (live - Owned(dev))
  }

  lemma {:induction false} StillHeld(dev: Dev, c: Dev, flags: set<Flag>)
    requires HoldersOk(dev) && dev.lock < 255 && Persist !in flags
    requires c.flags == dev.flags && c.lock == dev.lock && c.mgr == (dev.mgr || MgrAttach in flags) && c.persistent == dev.persistent
    ensures HoldersOk(Mark(c, flags)) && IsHeld(Mark(c, flags))
    ensures Mark(c, flags) == c.(flags := Mark(c, flags).flags, lock := Mark(c, flags).lock)
  {
    var all := if Shows(flags) then flags + INIT else flags;
    assert InitIrq in INIT;
    assert all * INIT != {};
    assert (dev.flags + all) * INIT >= all * INIT;
  }

  lemma {:induction false} AttachKeeps(dev: Dev, hw: seq<Reg>, live: set<Chunk>, client: Client, d: nat,
          flags: set<Flag>, host: Host, policy: Policy)
    requires DevOk(dev, hw, host, live) && Sound(policy) && AllApart(live) && |client.slots| == NUM_DEVICES
    requires var e := AttachTo(dev, live, client, d, flags, host, policy); e.reply == EBusy || Grants(dev, flags, e)
    ensures var e := AttachTo(dev, live, client, d, flags, host, policy);
            DevOk(e.dev, hw, host, e.live) && Moves(dev, live, e)
  {
    if !IsBusy(dev, flags) {
      var claimed := dev.(mgr := dev.mgr || MgrAttach in flags);
      var all := if Shows(flags) then flags + INIT else flags;
      var c := Addup(claimed, live, all, Shows(flags), IsNext(dev), host, policy);
      SameResources(dev, claimed, hw, host, live);
      if Shows(flags) || IsNext(dev) {
        QuietAddup(claimed, live, all, Shows(flags), IsNext(dev), host, policy);
        OwnedIsLive(dev, hw, host, live);
      } else {
        IdleIsHardware(dev, hw, host, live);
        AddupLeaves(claimed, live, flags, host, policy);
        FirstAddup(claimed, live, flags, host, policy);
        NothingOwned(dev);
      }
      StillHeld(dev, c.dev, flags);
      SameResources(c.dev, Mark(c.dev, flags), hw, host, c.live);
    } else {
      OwnedIsLive(dev, hw, host, live);
    }
  }

  lemma {:induction false} IdleIsHardware(dev: Dev, hw: seq<Reg>, host: Host, live: set<Chunk>)
    requires ResourcesOk(dev, hw, host, live) && NoAddresses(dev.regs)
    ensures dev.regs == hw
  {
    forall i: nat | i < 7 ensures dev.regs[i] == hw[i] {
      assert RegOk(dev, hw, i);
    }
  }

  lemma {:induction false} NothingOwned(dev: Dev)
    requires Empty(dev)
    ensures Owned(dev) == {}
  {
    forall a | a in AREAS ensures dev.At(a).address == 0 {
    }
  }

  predicate SameHolders(d: Dev, e: Dev) {
    d.flags == e.flags && d.lock == e.lock && d.mgr == e.mgr && d.persistent == e.persistent && d.bus == e.bus
  }

  lemma {:induction false} ObtainLeaves(c: Claim, sums: Sums, a: Area, host: Host, policy: Policy)
    ensures SameHolders(c.dev, Obtain(c, sums, a, host, policy).dev) && Obtain(c, sums, a, host, policy).dev.regs == c.dev.regs
  {
  }

  /** `addup_resources` does not touch holders and flags. */
  lemma {:induction false} AddupLeaves(dev: Dev, live: set<Chunk>, flags: set<Flag>, host: Host, policy: Policy)
    requires |dev.regs| == 7
    ensures var c := Addup(dev, live, flags, false, false, host, policy);
            SameHolders(dev, c.dev) && |c.dev.regs| == 7
  {
    var sums := Gather(dev.regs, flags, false).sums;
    var c0 := Claim(dev, live, Ok);
    var c1 := Obtain(c0, sums, IoArea, host, policy);
    var c2 := Obtain(c1, sums, MemArea, host, policy);
    ObtainLeaves(c0, sums, IoArea, host, policy);
    ObtainLeaves(c1, sums, MemArea, host, policy);
    ObtainLeaves(c2, sums, PrefArea, host, policy);
  }

  // ---------------------------------------------------------------- detach

  /** What is left after a release: the hardware as it was found, and no chunk. */
  lemma {:induction false} EmptiedIsIdle(dev: Dev, hw: seq<Reg>, host: Host, live: set<Chunk>)
    requires ResourcesOk(dev, hw, host, live)
    ensures Emptied(dev).regs == hw && Empty(Emptied(dev)) && Owned(Emptied(dev)) == {}
    ensures ResourcesOk(Emptied(dev), hw, host, live - Owned(dev))
  {
    forall i: nat | i < 7 ensures Emptied(dev).regs[i] == hw[i] && RegOk(Emptied(dev), hw, i) {
      assert RegOk(dev, hw, i) && Sane(hw[i], i);
      BareIsClearable(hw[i], i);
    }
    NothingOwned(Emptied(dev));
  }

  lemma {:induction false} ReleaseKeeps(dev: Dev, hw: seq<Reg>, host: Host, live: set<Chunk>)
    requires ResourcesOk(dev, hw, host, live)
    ensures Release(dev, live, host).dev == Emptied(dev) && Release(dev, live, host).live == live - Owned(dev)
  {
    forall i: nat | i < 7 ensures Clearable(dev.regs[i], i) {
      assert RegOk(dev, hw, i);
    }
    forall a: Area ensures Returnable(dev, host, a) {
      assert AreaOk(dev, host, live, a);
    }
    ReleaseEmpties(dev, live, host);
  }

  lemma {:induction false} DetachKeeps(dev: Dev, hw: seq<Reg>, live: set<Chunk>, client: Client, d: nat, close: bool,
          host: Host)
    requires DevOk(dev, hw, host, live) && AllApart(live)
    ensures var e := DetachFrom(dev, live, client, d, close, host);
            DevOk(e.dev, hw, host, e.live) && Moves(dev, live, e)
  {
    var unlocked := Unlock(dev, client, close);
    var e := DetachFrom(dev, live, client, d, close, host);
    SameResources(dev, unlocked, hw, host, live);
    if Releases(unlocked) {
      ReleaseKeeps(unlocked, hw, host, live);
      EmptiedIsIdle(unlocked, hw, host, live);
      SameResources(Emptied(unlocked), e.dev, hw, host, live - Owned(dev));
      IdleIsBare(Emptied(unlocked), hw, host, live - Owned(dev));
    } else {
      SameResources(unlocked, e.dev, hw, host, live);
    }
  }

  lemma {:induction false} IdleIsBare(dev: Dev, hw: seq<Reg>, host: Host, live: set<Chunk>)
    requires ResourcesOk(dev, hw, host, live) && dev.regs == hw
    ensures NoAddresses(dev.regs)
  {
  }
}
