/**
  Courses of events in which attaches may fail half-way, be granted chunks at address 0 or make the
  lock counter wrap around.  Chunks may then stay behind, but assigned registers stay apart.
*/
module AttachCourses {
  import opened Common
  import opened Bits
  import opened Registers
  import opened Carving
  import opened Resources
  import opened DeviceResources
  import opened DeviceTheorems
  import opened RoundTrip
  import opened Attachment
  import opened AttachInvariant
  import opened AttachRuns

  // ---------------------------------------------------------------- one device

  predicate Lies(reg: Reg, bus: nat, c: Chunk) {
    && c.pool == PoolOf(AreaOf(reg.kind), bus)
    && c.start <= Base(reg) && Base(reg) + Units(reg) <= c.start + c.length
  }

  /** Register `i` is `hw[i]`, with or without an address, and its address lies in one of the chunks `held`. */
  ghost predicate FitsReg(dev: Dev, hw: seq<Reg>, held: set<Chunk>, i: nat)
    requires i < |dev.regs| && i < |hw|
  {
    && Clearable(dev.regs[i], i) && Bare(dev.regs[i]) == hw[i]
    && (Assigned(dev.regs[i]) ==> dev.regs[i].kind != Unused && exists c :: c in held && Lies(dev.regs[i], dev.bus, c))
  }

  /** What the device would give back is one of the chunks `held`. */
  ghost predicate FitsArea(dev: Dev, host: Host, held: set<Chunk>, a: Area) {
    Returnable(dev, host, a) && (dev.At(a).address != 0 ==> Own(dev, a) in held)
  }

  ghost predicate Fits(dev: Dev, hw: seq<Reg>, host: Host, held: set<Chunk>) {
    && Hardware(hw) && NoAddresses(hw) && |dev.regs| == 7 && !dev.persistent
    && (forall i: nat {:trigger FitsReg(dev, hw, held, i)} :: i < 7 ==> FitsReg(dev, hw, held, i))
    && (forall i: nat, j: nat {:trigger PairOk(dev, i, j)} :: i < j < 7 ==> PairOk(dev, i, j))
    && (forall a: Area {:trigger FitsArea(dev, host, held, a)} :: FitsArea(dev, host, held, a))
  }

  /** Only registers and holdings matter, and more chunks do no harm. */
  lemma {:induction false} FitsStill(dev: Dev, next: Dev, hw: seq<Reg>, host: Host, held: set<Chunk>, more: set<Chunk>)
    requires Fits(dev, hw, host, held) && held <= more && !next.persistent
    requires next == dev.(flags := next.flags, lock := next.lock, mgr := next.mgr, persistent := next.persistent)
    ensures Fits(next, hw, host, more)
  {
    forall i: nat | i < 7 ensures FitsReg(next, hw, more, i) {
      assert FitsReg(dev, hw, held, i);
    }
    forall i: nat, j: nat | i < j < 7 ensures PairOk(next, i, j) {
      assert PairOk(dev, i, j);
    }
    forall a: Area ensures FitsArea(next, host, more, a) {
      assert FitsArea(dev, host, held, a) && next.At(a) == dev.At(a);
    }
  }

  lemma {:induction false} SumToSame(regs: seq<Reg>, hw: seq<Reg>, i: nat, a: Area)
    requires i <= |regs| == |hw| && forall k :: 0 <= k < |hw| ==> regs[k].kind == hw[k].kind && regs[k].size == hw[k].size
    ensures SumTo(regs, i, a) == SumTo(hw, i, a)
  {
    if i > 0 {
      SumToSame(regs, hw, i - 1, a);
    }
  }

  lemma {:induction false} FitsIsHardware(dev: Dev, hw: seq<Reg>, host: Host, held: set<Chunk>)
    requires Fits(dev, hw, host, held)
    ensures Hardware(dev.regs)
  {
    forall i | 0 <= i < 7
      ensures Sane(dev.regs[i], i) && dev.regs[i].kind == hw[i].kind && dev.regs[i].size == hw[i].size
    {
      assert FitsReg(dev, hw, held, i) && Sane(hw[i], i);
    }
    forall a: Area ensures SumTo(dev.regs, 7, a) < 0x1_0000_0000 {
      SumToSame(dev.regs, hw, 7, a);
    }
  }

  // ---------------------------------------------------------------- what an attach claims

  /** Area `a` is as before, or holds one chunk that was not live before. */
  ghost predicate Obtained(dev: Dev, live: set<Chunk>, c: Claim, sums: Sums, host: Host, a: Area) {
    || c.dev.At(a) == dev.At(a)
    || (&& sums.Of(a) != 0 && c.dev.At(a).size == sums.Of(a) && AlignFor(sums, a) > 0
        && c.dev.At(a).address % AlignFor(sums, a) == 0 && Reaches(host, dev.bus)
        && Claimed(c.dev, sums, a) in c.live - live)
  }

  ghost predicate Grown(dev: Dev, live: set<Chunk>, c: Claim, sums: Sums, host: Host) {
    && c.dev == dev.(io := c.dev.io, mem := c.dev.mem, pref := c.dev.pref)
    && live <= c.live && AllApart(c.live)
    && forall a: Area {:trigger Obtained(dev, live, c, sums, host, a)} :: Obtained(dev, live, c, sums, host, a)
  }

  lemma {:induction false} ObtainGrows(dev: Dev, live: set<Chunk>, c: Claim, sums: Sums, host: Host, policy: Policy,
          a: Area)
    requires Sound(policy) && Grown(dev, live, c, sums, host) && Obtain(c, sums, a, host, policy).status != Short
    ensures Grown(dev, live, Obtain(c, sums, a, host, policy), sums, host)
  {
    var r := Obtain(c, sums, a, host, policy);
    if c.status != Error && sums.Of(a) != 0 && Alloc(host, policy, c.live, a, sums.Of(a), sums.AlignOf(a), c.dev.bus).Granted? {
      AllocGrants(host, policy, c.live, a, sums.Of(a), sums.AlignOf(a), c.dev.bus);
      var x := Claimed(r.dev, sums, a);
      GrantKeepsApart(c.live, x);
      assert x in c.live ==> Apart(x, x);
      assert Obtained(dev, live, r, sums, host, a);
    }
    forall b: Area ensures Obtained(dev, live, r, sums, host, b) {
      assert Obtained(dev, live, c, sums, host, b);
      if b != a {
        assert r.dev.At(b) == c.dev.At(b) && Claimed(r.dev, sums, b) == Claimed(c.dev, sums, b);
      }
    }
  }

  /** A memory request finds every page exhausted. */
  predicate Exhausts(dev: Dev, live: set<Chunk>, flags: set<Flag>, host: Host, policy: Policy)
    requires |dev.regs| == 7
  {
    var sums := Gather(dev.regs, flags, false).sums;
    var c1 := Obtain(Claim(dev, live, Ok), sums, IoArea, host, policy);
    var c2 := Obtain(c1, sums, MemArea, host, policy);
    c1.status == Short || c2.status == Short || Obtain(c2, sums, PrefArea, host, policy).status == Short
  }

  lemma {:induction false} ClaimsGrow(dev: Dev, live: set<Chunk>, flags: set<Flag>, host: Host, policy: Policy)
    requires |dev.regs| == 7 && Sound(policy) && AllApart(live) && !Exhausts(dev, live, flags, host, policy)
    ensures var sums := Gather(dev.regs, flags, false).sums;
            Grown(dev, live, ObtainAll(Claim(dev, live, Ok), sums, host, policy), sums, host)
  {
    var sums := Gather(dev.regs, flags, false).sums;
    var c0 := Claim(dev, live, Ok);
    var c1 := Obtain(c0, sums, IoArea, host, policy);
    assert Grown(dev, live, c0, sums, host);
    ObtainGrows(dev, live, c0, sums, host, policy, IoArea);
    ObtainGrows(dev, live, c1, sums, host, policy, MemArea);
    ObtainGrows(dev, live, Obtain(c1, sums, MemArea, host, policy), sums, host, policy, PrefArea);
  }

  /** The chunks held after the claims. */
  lemma {:induction false} AreaFits(dev: Dev, hw: seq<Reg>, live: set<Chunk>, flags: set<Flag>, c: Claim, host: Host,
          held: set<Chunk>, a: Area)
    requires Fits(dev, hw, host, held) && Hardware(dev.regs)
    requires Grown(dev, live, c, Gather(dev.regs, flags, false).sums, host)
    ensures FitsArea(c.dev, host, held + (c.live - live), a)
  {
    var sums := Gather(dev.regs, flags, false).sums;
    assert FitsArea(dev, host, held, a) && Obtained(dev, live, c, sums, host, a);
    if c.dev.At(a) != dev.At(a) {
      if a == IoArea {
        IoClaimAligned(dev.regs, flags, c.dev.At(a).address);
      } else {
        MemClaimAligned(dev.regs, flags, a, c.dev.At(a).address);
      }
      assert Own(c.dev, a) == Claimed(c.dev, sums, a);
    }
  }

  /** A register that was given an address lies in a chunk just granted. */
  lemma {:induction false} AskedFits(dev: Dev, hw: seq<Reg>, live: set<Chunk>, flags: set<Flag>, c: Claim, host: Host,
          i: nat)
    requires Hardware(dev.regs) && i < 7 && |hw| == 7 && Bare(dev.regs[i]) == hw[i] && Asked(dev.regs, flags, i)
    requires var sums := Gather(dev.regs, flags, false).sums;
             PlacedAll(dev, flags, sums, c.dev) && Got(dev, live, c.(dev := c.dev.(regs := dev.regs)), sums, host, AREAS)
    ensures FitsReg(c.dev, hw, c.live - live, i)
  {
    var sums, a := Gather(dev.regs, flags, false).sums, AreaOf(dev.regs[i].kind);
    var x := Claimed(c.dev, sums, a);
    AskedIsClearable(dev, flags, sums, c.dev, i);
    assert x in c.live - live by {
      SelectedIsNeeded(dev.regs, flags, i);
      NewlyHeld(dev, live, c, sums, host, a);
    }
    assert Lies(c.dev.regs[i], c.dev.bus, x) by {
      assert InChunk(c.dev, sums, i);
    }
  }

  /** The others stay where they are. */
  lemma {:induction false} PlacedFits(dev: Dev, hw: seq<Reg>, live: set<Chunk>, flags: set<Flag>, c: Claim, host: Host,
          held: set<Chunk>, i: nat)
    requires Fits(dev, hw, host, held) && Hardware(dev.regs) && i < 7
    requires var sums := Gather(dev.regs, flags, false).sums;
             PlacedAll(dev, flags, sums, c.dev) && Got(dev, live, c.(dev := c.dev.(regs := dev.regs)), sums, host, AREAS)
    ensures FitsReg(c.dev, hw, held + (c.live - live), i)
  {
    assert FitsReg(dev, hw, held, i);
    if Asked(dev.regs, flags, i) {
      assert dev.regs[i] == Bare(dev.regs[i]);
      AskedFits(dev, hw, live, flags, c, host, i);
    }
  }

  lemma {:induction false} NewlyHeld(dev: Dev, live: set<Chunk>, c: Claim, sums: Sums, host: Host, a: Area)
    requires Got(dev, live, c.(dev := c.dev.(regs := dev.regs)), sums, host, AREAS) && sums.Of(a) > 0
    ensures Claimed(c.dev, sums, a) in c.live - live
  {
    var c', x := c.(dev := c.dev.(regs := dev.regs)), Claimed(c.dev, sums, a);
    assert GotArea(dev, live, c', sums, host, a) && Claimed(c'.dev, sums, a) == x;
    assert x in live ==> Apart(x, x);
  }

  /** Registers placed now keep clear of each other, and of those placed before. */
  lemma {:induction false} PlacedPairs(dev: Dev, hw: seq<Reg>, live: set<Chunk>, flags: set<Flag>, c: Claim, host: Host,
          held: set<Chunk>, i: nat, j: nat)
    requires Fits(dev, hw, host, held) && Hardware(dev.regs) && i < 7 && j < 7 && i != j && held <= live
    requires var sums := Gather(dev.regs, flags, false).sums;
             PlacedAll(dev, flags, sums, c.dev) && Got(dev, live, c.(dev := c.dev.(regs := dev.regs)), sums, host, AREAS)
    requires Assigned(c.dev.regs[i]) && Assigned(c.dev.regs[j]) && AreaOf(c.dev.regs[i].kind) == AreaOf(c.dev.regs[j].kind)
    ensures Disjoint(c.dev.regs[i], c.dev.regs[j])
  {
    if Asked(dev.regs, flags, i) && !Asked(dev.regs, flags, j) {
      NewClearOfOld(dev, hw, live, flags, c, host, held, i, j);
    } else if Asked(dev.regs, flags, j) && !Asked(dev.regs, flags, i) {
      NewClearOfOld(dev, hw, live, flags, c, host, held, j, i);
    } else if !Asked(dev.regs, flags, i) {
      assert PairOk(dev, if i < j then i else j, if i < j then j else i);
    } else {
      assert Asked(dev.regs, flags, if i < j then i else j) && Asked(dev.regs, flags, if i < j then j else i);
    }
  }

  lemma {:induction false} NewClearOfOld(dev: Dev, hw: seq<Reg>, live: set<Chunk>, flags: set<Flag>, c: Claim,
          host: Host, held: set<Chunk>, i: nat, j: nat)
    requires Fits(dev, hw, host, held) && Hardware(dev.regs) && i < 7 && j < 7 && held <= live
    requires var sums := Gather(dev.regs, flags, false).sums;
             PlacedAll(dev, flags, sums, c.dev) && Got(dev, live, c.(dev := c.dev.(regs := dev.regs)), sums, host, AREAS)
    requires Asked(dev.regs, flags, i) && !Asked(dev.regs, flags, j) && Assigned(c.dev.regs[j])
    requires AreaOf(c.dev.regs[i].kind) == AreaOf(c.dev.regs[j].kind)
    ensures Disjoint(c.dev.regs[i], c.dev.regs[j])
  {
    var sums, a := Gather(dev.regs, flags, false).sums, AreaOf(dev.regs[i].kind);
    var c' := c.(dev := c.dev.(regs := dev.regs));
    assert FitsReg(dev, hw, held, j) && c.dev.regs[j] == dev.regs[j];
    SelectedIsNeeded(dev.regs, flags, i);
    assert GotArea(dev, live, c', sums, host, a);
    var d :| d in held && Lies(dev.regs[j], dev.bus, d);
    assert Apart(d, Claimed(c'.dev, sums, a)) && InChunk(c.dev, sums, i);
  }

  lemma {:induction false} GrantedFits(dev: Dev, hw: seq<Reg>, live: set<Chunk>, flags: set<Flag>, host: Host,
          policy: Policy, held: set<Chunk>)
    requires Fits(dev, hw, host, held) && held <= live && Sound(policy) && AllApart(live)
    requires !Exhausts(dev, live, flags, host, policy) && Addup(dev, live, flags, false, false, host, policy).status == Ok
    ensures var c := Addup(dev, live, flags, false, false, host, policy);
            Fits(c.dev, hw, host, held + (c.live - live)) && live <= c.live
  {
    var c := Addup(dev, live, flags, false, false, host, policy);
    var g, more := Gather(dev.regs, flags, false), held + (c.live - live);
    var b := ObtainAll(Claim(dev, live, Ok), g.sums, host, policy);
    FitsIsHardware(dev, hw, host, held);
    AddupPlaces(dev, live, flags, host, policy);
    ClaimsGrow(dev, live, flags, host, policy);
    AddupLeaves(dev, live, flags, host, policy);
    forall i: nat | i < 7 ensures FitsReg(c.dev, hw, more, i) {
      PlacedFits(dev, hw, live, flags, c, host, held, i);
    }
    forall i: nat, j: nat | i < j < 7 ensures PairOk(c.dev, i, j) {
      if Assigned(c.dev.regs[i]) && Assigned(c.dev.regs[j]) && AreaOf(c.dev.regs[i].kind) == AreaOf(c.dev.regs[j].kind) {
        PlacedPairs(dev, hw, live, flags, c, host, held, i, j);
      }
    }
    forall a: Area ensures FitsArea(c.dev, host, more, a) {
      AreaFits(dev, hw, live, flags, b, host, held, a);
      assert c.dev.At(a) == b.dev.At(a) && c.live == b.live && c.dev.bus == b.dev.bus;
    }
  }

  /** An attach that is refused half-way keeps what it has claimed; the registers are not touched. */
  lemma {:induction false} RefusedFits(dev: Dev, hw: seq<Reg>, live: set<Chunk>, flags: set<Flag>, host: Host,
          policy: Policy, held: set<Chunk>)
    requires Fits(dev, hw, host, held) && Sound(policy) && AllApart(live)
    requires !Exhausts(dev, live, flags, host, policy) && Addup(dev, live, flags, false, false, host, policy).status == Error
    ensures var c := Addup(dev, live, flags, false, false, host, policy);
            Fits(c.dev, hw, host, held + (c.live - live)) && live <= c.live
  {
    var c := Addup(dev, live, flags, false, false, host, policy);
    FitsIsHardware(dev, hw, host, held);
    ClaimsGrow(dev, live, flags, host, policy);
    forall i: nat | i < 7 ensures FitsReg(c.dev, hw, held + (c.live - live), i) {
      assert FitsReg(dev, hw, held, i);
    }
    forall i: nat, j: nat | i < j < 7 ensures PairOk(c.dev, i, j) {
      assert PairOk(dev, i, j);
    }
    forall a: Area ensures FitsArea(c.dev, host, held + (c.live - live), a) {
      AreaFits(dev, hw, live, flags, c, host, held, a);
    }
  }

  // ---------------------------------------------------------------- one call

  /** The device while its resources are claimed. */
  function Claiming(dev: Dev, flags: set<Flag>): (r: Dev) { dev.(mgr := dev.mgr || MgrAttach in flags) }

  /** Not persistent, and if the call claims anything no memory request finds every page exhausted. */
  predicate Spares(dev: Dev, live: set<Chunk>, flags: set<Flag>, host: Host, policy: Policy)
    requires |dev.regs| == 7
  {
    && Persist !in flags
    && (!IsBusy(dev, flags) && !Shows(flags) && !IsNext(dev) ==> !Exhausts(Claiming(dev, flags), live, flags, host, policy))
  }

  lemma {:induction false} AddupFits(dev: Dev, hw: seq<Reg>, live: set<Chunk>, flags: set<Flag>, host: Host,
          policy: Policy, held: set<Chunk>)
    requires Fits(dev, hw, host, held) && held <= live && Sound(policy) && AllApart(live)
    requires !Exhausts(dev, live, flags, host, policy)
    ensures var c := Addup(dev, live, flags, false, false, host, policy);
            && Fits(c.dev, hw, host, held + (c.live - live)) && live <= c.live && c.status != Short
            && SameHolders(dev, c.dev)
  {
    AddupLeaves(dev, live, flags, host, policy);
    if Addup(dev, live, flags, false, false, host, policy).status == Ok {
      GrantedFits(dev, hw, live, flags, host, policy, held);
    } else {
      RefusedFits(dev, hw, live, flags, host, policy, held);
    }
  }

  /** An attach takes nothing away, and what it claims it holds. */
  lemma {:induction false} AttachFits(dev: Dev, hw: seq<Reg>, live: set<Chunk>, client: Client, d: nat,
          flags: set<Flag>, host: Host, policy: Policy, held: set<Chunk>)
    requires Fits(dev, hw, host, held) && held <= live && Sound(policy) && AllApart(live) && |client.slots| == NUM_DEVICES
    requires Spares(dev, live, flags, host, policy)
    ensures var e := AttachTo(dev, live, client, d, flags, host, policy);
            Fits(e.dev, hw, host, held + (e.live - live)) && live <= e.live
  {
    var e := AttachTo(dev, live, client, d, flags, host, policy);
    if IsBusy(dev, flags) {
      FitsStill(dev, dev, hw, host, held, held + (e.live - live));
    } else {
      var claimed, all := Claiming(dev, flags), if Shows(flags) then flags + INIT else flags;
      var c := Addup(claimed, live, all, Shows(flags), IsNext(dev), host, policy);
      FitsStill(dev, claimed, hw, host, held, held);
      if Shows(flags) || IsNext(dev) {
        QuietAddup(claimed, live, all, Shows(flags), IsNext(dev), host, policy);
        FitsStill(claimed, claimed, hw, host, held, held + (c.live - live));
      } else {
        AddupFits(claimed, hw, live, flags, host, policy, held);
      }
      FitsStill(c.dev, e.dev, hw, host, held + (c.live - live), held + (e.live - live));
    }
  }

  lemma {:induction false} EmptiedFits(dev: Dev, hw: seq<Reg>, host: Host, held: set<Chunk>, less: set<Chunk>)
    requires Fits(dev, hw, host, held)
    ensures Fits(Emptied(dev), hw, host, less)
  {
    forall i: nat | i < 7 ensures Emptied(dev).regs[i] == hw[i] && FitsReg(Emptied(dev), hw, less, i) {
      assert FitsReg(dev, hw, held, i) && Sane(hw[i], i);
      BareIsClearable(hw[i], i);
    }
  }

  lemma {:induction false} OwnedIsHeld(dev: Dev, hw: seq<Reg>, host: Host, held: set<Chunk>)
    requires Fits(dev, hw, host, held)
    ensures Owned(dev) <= held
  {
    forall x | x in Owned(dev) ensures x in held {
      var a :| a in AREAS && dev.At(a).address != 0 && x == Own(dev, a);
      assert FitsArea(dev, host, held, a);
    }
  }

  lemma {:induction false} FitsReleases(dev: Dev, hw: seq<Reg>, live: set<Chunk>, host: Host, held: set<Chunk>)
    requires Fits(dev, hw, host, held)
    ensures Release(dev, live, host).dev == Emptied(dev) && Release(dev, live, host).live == live - Owned(dev)
  {
    forall i: nat | i < 7 ensures Clearable(dev.regs[i], i) {
      assert FitsReg(dev, hw, held, i);
    }
    forall a: Area ensures Returnable(dev, host, a) {
      assert FitsArea(dev, host, held, a);
    }
    ReleaseEmpties(dev, live, host);
  }

  /** A detach gives back chunks of its own device only. */
  lemma {:induction false} DetachFits(dev: Dev, hw: seq<Reg>, live: set<Chunk>, client: Client, d: nat, close: bool,
          host: Host, held: set<Chunk>)
    requires Fits(dev, hw, host, held) && held <= live
    ensures var e := DetachFrom(dev, live, client, d, close, host);
            Fits(e.dev, hw, host, held * e.live) && live - held <= e.live <= live
  {
    var unlocked := Unlock(dev, client, close);
    var e := DetachFrom(dev, live, client, d, close, host);
    FitsStill(dev, unlocked, hw, host, held, held);
    if Releases(unlocked) {
      FitsReleases(unlocked, hw, live, host, held);
      OwnedIsHeld(unlocked, hw, host, held);
      EmptiedFits(unlocked, hw, host, held, held * e.live);
      FitsStill(Emptied(unlocked), e.dev, hw, host, held * e.live, held * e.live);
    } else {
      assert held * e.live == held;
      FitsStill(unlocked, e.dev, hw, host, held, held);
    }
  }

  // ---------------------------------------------------------------- the world

  ghost predicate FitsAt(w: World, hws: seq<seq<Reg>>, host: Host, held: seq<set<Chunk>>, d: nat)
    requires d < |w.devs| == |hws| == |held|
  {
    Fits(w.devs[d], hws[d], host, held[d]) && held[d] <= w.live
  }

  ghost predicate Parted(held: seq<set<Chunk>>, d: nat, e: nat) {
    d < |held| && e < |held| && d != e ==> held[d] !! held[e]
  }

  /** `held` are the chunks granted to each device and not given back. */
  ghost predicate Steady(w: World, hws: seq<seq<Reg>>, host: Host, held: seq<set<Chunk>>) {
    && |hws| == |w.devs| == |held| && Shaped(w) && AllApart(w.live)
    && (forall d: nat {:trigger FitsAt(w, hws, host, held, d)} :: d < |w.devs| ==> FitsAt(w, hws, host, held, d))
    && (forall d: nat, e: nat {:trigger Parted(held, d, e)} :: Parted(held, d, e))
  }

  /** What is left of the chunks held. */
  ghost function Left(held: seq<set<Chunk>>, live: set<Chunk>): (r: seq<set<Chunk>>)
    ensures |r| == |held| && forall d :: 0 <= d < |r| ==> r[d] == held[d] * live
  {
    seq(|held|, d requires 0 <= d < |held| => held[d] * live)
  }

  lemma {:induction false} AllLeft(held: seq<set<Chunk>>, live: set<Chunk>)
    requires forall d :: 0 <= d < |held| ==> held[d] <= live
    ensures Left(held, live) == held
  {
    forall d | 0 <= d < |held| ensures Left(held, live)[d] == held[d] {
    }
  }

  lemma {:induction false} LeftTwice(held: seq<set<Chunk>>, live: set<Chunk>, less: set<Chunk>)
    requires less <= live
    ensures Left(Left(held, live), less) == Left(held, less)
  {
    forall d | 0 <= d < |held| ensures Left(Left(held, live), less)[d] == Left(held, less)[d] {
    }
  }

  /** The chunks held after an event. */
  ghost function HeldNext(held: seq<set<Chunk>>, w: World, e: Event, next: World): (r: seq<set<Chunk>>)
    ensures |r| == |held|
  {
    match e
    case Attach(d, _, _, _) => if d < |held| then held[d := held[d] + (next.live - w.live)] else held
    case _ => Left(held, next.live)
  }

  /** The events that the theorem is about; other programs leave the chunks of the devices alone. */
  ghost predicate Tolerated(w: World, held: seq<set<Chunk>>, e: Event, host: Host) {
    && Possible(w, e) && KeptByDatabase(e)
    && match e
       case Attach(d, _, flags, policy) => Spares(w.devs[d], w.live, flags, host, policy)
       case Others(live) => forall d :: 0 <= d < |held| ==> held[d] <= live
       case _ => true
  }

  lemma {:induction false} AttachSteady(w: World, hws: seq<seq<Reg>>, host: Host, held: seq<set<Chunk>>, d: nat, c: nat,
          flags: set<Flag>, policy: Policy)
    requires Steady(w, hws, host, held) && Tolerated(w, held, Attach(d, c, flags, policy), host)
    ensures var r := AttachRuns.Next(w, Attach(d, c, flags, policy), host);
            Steady(r, hws, host, HeldNext(held, w, Attach(d, c, flags, policy), r))
  {
    var ev := Attach(d, c, flags, policy);
    var r := AttachRuns.Next(w, ev, host);
    var h := HeldNext(held, w, ev, r);
    assert FitsAt(w, hws, host, held, d);
    AttachFits(w.devs[d], hws[d], w.live, w.clients[c], d, flags, host, policy, held[d]);
    NextShaped(w, ev, host);
    NextApart(w, ev, host);
    forall k: nat | k < |r.devs| ensures FitsAt(r, hws, host, h, k) {
      assert FitsAt(w, hws, host, held, k);
    }
    forall k: nat, m: nat ensures Parted(h, k, m) {
      assert Parted(held, k, m);
      if k < |held| && m < |held| {
        assert FitsAt(w, hws, host, held, k) && FitsAt(w, hws, host, held, m);
      }
    }
  }

  lemma {:induction false} DetachSteady(w: World, hws: seq<seq<Reg>>, host: Host, held: seq<set<Chunk>>, d: nat, c: nat,
          close: bool)
    requires Steady(w, hws, host, held) && d < |w.devs| && c < |w.clients|
    ensures var r := DetachOne(w, d, c, close, host); Steady(r, hws, host, Left(held, r.live)) && r.live <= w.live
  {
    var r := DetachOne(w, d, c, close, host);
    var h := Left(held, r.live);
    assert FitsAt(w, hws, host, held, d);
    DetachFits(w.devs[d], hws[d], w.live, w.clients[c], d, close, host, held[d]);
    DetachOneShaped(w, d, c, close, host);
    forall k: nat | k < |r.devs| ensures FitsAt(r, hws, host, h, k) {
      assert FitsAt(w, hws, host, held, k) && Parted(held, d, k);
      if k != d {
        assert held[k] * r.live == held[k];
      }
    }
    forall k: nat, m: nat ensures Parted(h, k, m) {
      assert Parted(held, k, m);
    }
  }

  lemma {:induction false} CloseSteady(w: World, hws: seq<seq<Reg>>, host: Host, held: seq<set<Chunk>>, c: nat, i: nat)
    requires Steady(w, hws, host, held) && c < |w.clients| && i <= NUM_DEVICES
    ensures var r := CloseFrom(w, c, i, host); Steady(r, hws, host, Left(held, r.live)) && r.live <= w.live
    decreases NUM_DEVICES - i
  {
    var r := CloseFrom(w, c, i, host);
    if i == NUM_DEVICES {
      forall d: nat | d < |held| ensures held[d] <= w.live {
        assert FitsAt(w, hws, host, held, d);
      }
      AllLeft(held, w.live);
    } else {
      match w.clients[c].slots[i]
      case Some(d) =>
        var v := DetachOne(w, d, c, true, host);
        DetachSteady(w, hws, host, held, d, c, true);
        CloseSteady(v, hws, host, Left(held, v.live), c, i + 1);
        LeftTwice(held, v.live, r.live);
      case None => CloseSteady(w, hws, host, held, c, i + 1);
    }
  }

  lemma {:induction false} OthersSteady(w: World, hws: seq<seq<Reg>>, host: Host, held: seq<set<Chunk>>,
          live: set<Chunk>)
    requires Steady(w, hws, host, held) && AllApart(live) && forall d :: 0 <= d < |held| ==> held[d] <= live
    ensures Steady(w.(live := live), hws, host, Left(held, live))
  {
    AllLeft(held, live);
    forall d: nat | d < |w.devs| ensures FitsAt(w.(live := live), hws, host, held, d) {
      assert FitsAt(w, hws, host, held, d);
    }
  }

  lemma {:induction false} NextSteady(w: World, hws: seq<seq<Reg>>, host: Host, held: seq<set<Chunk>>, e: Event)
    requires Steady(w, hws, host, held) && Tolerated(w, held, e, host)
    ensures Steady(AttachRuns.Next(w, e, host), hws, host, HeldNext(held, w, e, AttachRuns.Next(w, e, host)))
  {
    match e
    case Attach(d, c, flags, policy) => AttachSteady(w, hws, host, held, d, c, flags, policy);
    case Detach(d, c, close) => DetachSteady(w, hws, host, held, d, c, close);
    case Close(c) => CloseSteady(w, hws, host, held, c, 0);
    case Others(live) => OthersSteady(w, hws, host, held, live);
  }

  // ---------------------------------------------------------------- courses

  /** The chunks held after `i` events; nobody holds any at the beginning. */
  ghost function HeldAt(ws: seq<World>, es: seq<Event>, i: nat): (r: seq<set<Chunk>>)
    requires |ws| == |es| + 1 && i < |ws|
    ensures |r| == |ws[0].devs|
  {
    if i == 0 then seq(|ws[0].devs|, _ => {}) else HeldNext(HeldAt(ws, es, i - 1), ws[i - 1], es[i - 1], ws[i])
  }

  /** A course of tolerated events from a state in which nobody holds anything. */
  ghost predicate IsTolerated(ws: seq<World>, es: seq<Event>, hws: seq<seq<Reg>>, host: Host) {
    && IsCourse(ws, es, host) && Begins(ws[0], hws)
    && forall k: nat {:trigger HeldAt(ws, es, k)} :: k < |es| ==> Tolerated(ws[k], HeldAt(ws, es, k), es[k], host)
  }

  lemma {:induction false} BeginsSteady(w: World, hws: seq<seq<Reg>>, host: Host)
    requires Begins(w, hws)
    ensures Steady(w, hws, host, seq(|w.devs|, _ => {}))
  {
    var held: seq<set<Chunk>> := seq(|w.devs|, _ => {});
    forall d: nat | d < |w.devs| ensures FitsAt(w, hws, host, held, d) {
      forall i: nat | i < 7 ensures FitsReg(w.devs[d], hws[d], held[d], i) {
        assert Sane(hws[d][i], i);
        BareIsClearable(hws[d][i], i);
      }
    }
  }

  lemma {:induction false} CourseIsSteady(ws: seq<World>, es: seq<Event>, hws: seq<seq<Reg>>, host: Host, i: nat)
    requires IsTolerated(ws, es, hws, host) && i < |ws|
    ensures Steady(ws[i], hws, host, HeldAt(ws, es, i))
  {
    if i == 0 {
      BeginsSteady(ws[0], hws, host);
    } else {
      CourseIsSteady(ws, es, hws, host, i - 1);
      assert Tolerated(ws[i - 1], HeldAt(ws, es, i - 1), es[i - 1], host);
      NextSteady(ws[i - 1], hws, host, HeldAt(ws, es, i - 1), es[i - 1]);
    }
  }

  /** An assigned register lies in a live chunk that was granted to its device and not given back. */
  lemma {:induction false} AssignedAreHeld(ws: seq<World>, es: seq<Event>, hws: seq<seq<Reg>>, host: Host, i: nat,
          d: nat, j: nat) returns (x: Chunk)
    requires IsTolerated(ws, es, hws, host) && i < |ws| && d < |ws[i].devs| && j < 7
    requires |ws[i].devs[d].regs| == 7 && Assigned(ws[i].devs[d].regs[j])
    ensures d < |HeldAt(ws, es, i)| && x in HeldAt(ws, es, i)[d] && x in ws[i].live
    ensures Lies(ws[i].devs[d].regs[j], ws[i].devs[d].bus, x)
  {
    CourseIsSteady(ws, es, hws, host, i);
    assert FitsAt(ws[i], hws, host, HeldAt(ws, es, i), d);
    assert FitsReg(ws[i].devs[d], hws[d], HeldAt(ws, es, i)[d], j);
    x :| x in HeldAt(ws, es, i)[d] && Lies(ws[i].devs[d].regs[j], ws[i].devs[d].bus, x);
  }

  /**
    Assigned registers in one pool never overlap, whether they belong to one device or to two, whatever
    fails, is granted at address 0 or wraps around.
  */
  lemma {:induction false} RegistersStayApart(ws: seq<World>, es: seq<Event>, hws: seq<seq<Reg>>, host: Host, i: nat,
          d: nat, j: nat, e: nat, k: nat)
    requires IsTolerated(ws, es, hws, host) && i < |ws|
    requires d < |ws[i].devs| && e < |ws[i].devs| && j < 7 && k < 7 && (d != e || j != k)
    requires |ws[i].devs[d].regs| == 7 && |ws[i].devs[e].regs| == 7
    requires var p, q := ws[i].devs[d].regs[j], ws[i].devs[e].regs[k];
             && Assigned(p) && Assigned(q)
             && PoolOf(AreaOf(p.kind), ws[i].devs[d].bus) == PoolOf(AreaOf(q.kind), ws[i].devs[e].bus)
    ensures Disjoint(ws[i].devs[d].regs[j], ws[i].devs[e].regs[k])
  {
    CourseIsSteady(ws, es, hws, host, i);
    var w, held := ws[i], HeldAt(ws, es, i);
    if d == e {
      assert FitsAt(w, hws, host, held, d) && PairOk(w.devs[d], if j < k then j else k, if j < k then k else j);
    } else {
      var x := AssignedAreHeld(ws, es, hws, host, i, d, j);
      var y := AssignedAreHeld(ws, es, hws, host, i, e, k);
      assert Parted(held, d, e) && Apart(x, y);
    }
  }
}
