/**
  Whole runs: any number of clients attach to, detach from and close any number of devices, while
  other programs use the same resource database.
*/
module AttachRuns {
  import opened Common
  import opened Registers
  import opened Carving
  import opened Resources
  import opened DeviceResources
  import opened DeviceTheorems
  import opened RoundTrip
  import opened Attachment
  import opened AttachInvariant

  datatype World = World(devs: seq<Dev>, clients: seq<Client>, live: set<Chunk>)

  /** `Others`: other programs have changed the live chunks. */
  datatype Event =
    | Attach(d: nat, c: nat, flags: set<Flag>, policy: Policy)
    | Detach(d: nat, c: nat, close: bool)
    | Close(c: nat)
    | Others(live: set<Chunk>)

  ghost predicate Shaped(w: World) {
    && (forall d :: 0 <= d < |w.devs| ==> |w.devs[d].regs| == 7)
    && (forall c :: 0 <= c < |w.clients| ==> ShapedClient(w.clients[c], |w.devs|))
  }

  ghost predicate ShapedClient(client: Client, n: nat) {
    && |client.slots| == NUM_DEVICES
    && forall i :: 0 <= i < NUM_DEVICES && client.slots[i].Some? ==> client.slots[i].value < n
  }

  function Put(w: World, d: nat, c: nat, e: Effect): (r: World)
    requires d < |w.devs| && c < |w.clients|
  {
    World(w.devs[d := e.dev], w.clients[c := e.client], e.live)
  }

  function DetachOne(w: World, d: nat, c: nat, close: bool, host: Host): (r: World)
    requires d < |w.devs| && c < |w.clients| && |w.devs[d].regs| == 7
  {
    Put(w, d, c, DetachFrom(w.devs[d], w.live, w.clients[c], d, close, host))
  }

  lemma {:induction false} PutFromShaped(slots: seq<Option<nat>>, d: nat, i: nat, n: nat)
    requires i <= |slots| && d < n && forall k :: 0 <= k < |slots| && slots[k].Some? ==> slots[k].value < n
    ensures forall k :: 0 <= k < |slots| && PutFrom(slots, d, i)[k].Some? ==> PutFrom(slots, d, i)[k].value < n
    decreases |slots| - i
  {
    if i < |slots| && slots[i] != Some(d) && slots[i] != None {
      PutFromShaped(slots, d, i + 1, n);
    }
  }

  lemma {:induction false} ForgetShaped(client: Client, d: nat, i: nat, n: nat)
    requires ShapedClient(client, n) && i <= NUM_DEVICES
    ensures ShapedClient(ForgetFrom(client, d, i), n)
    decreases NUM_DEVICES - i
  {
    if i < NUM_DEVICES {
      ForgetShaped(if client.slots[i] == Some(d) then client.(slots := client.slots[i := None], num := client.num - 1) else client,
                   d, i + 1, n);
    }
  }

  lemma {:induction false} AttachShaped(dev: Dev, live: set<Chunk>, client: Client, d: nat, flags: set<Flag>,
          host: Host, policy: Policy, n: nat)
    requires |dev.regs| == 7 && ShapedClient(client, n) && d < n
    ensures ShapedClient(AttachTo(dev, live, client, d, flags, host, policy).client, n)
  {
    PutFromShaped(client.slots, d, 0, n);
  }

  lemma {:induction false} AttachSeven(dev: Dev, live: set<Chunk>, client: Client, d: nat, flags: set<Flag>,
          host: Host, policy: Policy)
    requires |dev.regs| == 7 && |client.slots| == NUM_DEVICES
    ensures |AttachTo(dev, live, client, d, flags, host, policy).dev.regs| == 7
  {
    SevenRemain(dev.(mgr := dev.mgr || MgrAttach in flags), live, if Shows(flags) then flags + INIT else flags,
                Shows(flags), IsNext(dev), host, policy);
  }

  lemma {:induction false} SevenRemain(dev: Dev, live: set<Chunk>, flags: set<Flag>, show: bool, next: bool,
          host: Host, policy: Policy)
    requires |dev.regs| == 7
    ensures |Addup(dev, live, flags, show, next, host, policy).dev.regs| == 7
  {
  }

  // ---------------------------------------------------------------- the invariant

  /** `hws` is how the hardware of every device presents itself without addresses. */
  ghost predicate Good(w: World, hws: seq<seq<Reg>>, host: Host) {
    && |hws| == |w.devs| && Shaped(w) && AllApart(w.live)
    && (forall d: nat {:trigger Fine(w, hws, host, d)} :: d < |w.devs| ==> Fine(w, hws, host, d))
    && (forall d: nat, e: nat {:trigger Strangers(w, d, e)} :: d < |w.devs| && e < |w.devs| && d != e ==> Strangers(w, d, e))
  }

  ghost predicate Fine(w: World, hws: seq<seq<Reg>>, host: Host, d: nat)
    requires d < |w.devs| == |hws|
  {
    DevOk(w.devs[d], hws[d], host, w.live)
  }

  /** No chunk belongs to two devices. */
  ghost predicate Strangers(w: World, d: nat, e: nat)
    requires d < |w.devs| && e < |w.devs|
  {
    Owned(w.devs[d]) !! Owned(w.devs[e])
  }

  lemma {:induction false} OwnedStays(dev: Dev, live: set<Chunk>, e: Effect, other: Dev)
    requires Moves(dev, live, e) && Owned(other) !! Owned(dev) && Owned(other) <= live
    ensures Owned(other) <= e.live && Owned(other) !! Owned(e.dev)
  {
    forall x | x in Owned(other) ensures x in e.live && x !in Owned(e.dev) {
      assert x in live - Owned(dev);
    }
  }

  lemma {:induction false} OtherFine(w: World, hws: seq<seq<Reg>>, host: Host, d: nat, c: nat, e: Effect, other: nat)
    requires Good(w, hws, host) && d < |w.devs| && c < |w.clients| && other < |w.devs| && other != d
    requires Moves(w.devs[d], w.live, e)
    ensures Fine(Put(w, d, c, e), hws, host, other)
    ensures Strangers(Put(w, d, c, e), d, other) && Strangers(Put(w, d, c, e), other, d)
  {
    assert Fine(w, hws, host, other) && Strangers(w, other, d);
    OwnedIsLive(w.devs[other], hws[other], host, w.live);
    OwnedStays(w.devs[d], w.live, e, w.devs[other]);
    OtherChunks(w.devs[other], hws[other], host, w.live, e.live);
  }

  /** A call that keeps its own device in order keeps the whole world in order. */
  lemma {:induction false} PutKeeps(w: World, hws: seq<seq<Reg>>, host: Host, d: nat, c: nat, e: Effect)
    requires Good(w, hws, host) && d < |w.devs| && c < |w.clients|
    requires DevOk(e.dev, hws[d], host, e.live) && Moves(w.devs[d], w.live, e) && ShapedClient(e.client, |w.devs|)
    ensures Good(Put(w, d, c, e), hws, host)
  {
    var r := Put(w, d, c, e);
    forall k: nat | k < |r.devs| ensures Fine(r, hws, host, k) {
      if k != d {
        OtherFine(w, hws, host, d, c, e, k);
      }
    }
    forall k: nat, m: nat | k < |r.devs| && m < |r.devs| && k != m ensures Strangers(r, k, m) {
      assert Strangers(w, k, m);
      if k == d {
        OtherFine(w, hws, host, d, c, e, m);
      } else if m == d {
        OtherFine(w, hws, host, d, c, e, k);
      }
    }
  }

  // ---------------------------------------------------------------- steps

  /** `PCI_OcbFree` from slot `i` on. */
  function CloseFrom(w: World, c: nat, i: nat, host: Host): (r: World)
    requires c < |w.clients| && i <= NUM_DEVICES && |w.clients[c].slots| == NUM_DEVICES
    ensures |r.devs| == |w.devs| && |r.clients| == |w.clients|
    decreases NUM_DEVICES - i
  {
    if i == NUM_DEVICES then w
    else match w.clients[c].slots[i]
      case Some(d) =>
        if d < |w.devs| && |w.devs[d].regs| == 7 then CloseFrom(DetachOne(w, d, c, true, host), c, i + 1, host)
        else CloseFrom(w, c, i + 1, host)
      case None => CloseFrom(w, c, i + 1, host)
  }

  /** The event names a device and a client that exist. */
  ghost predicate Possible(w: World, e: Event) {
    match e
    case Attach(d, c, _, _) => d < |w.devs| && c < |w.clients| && |w.devs[d].regs| == 7 && |w.clients[c].slots| == NUM_DEVICES
    case Detach(d, c, _) => d < |w.devs| && c < |w.clients| && |w.devs[d].regs| == 7
    case Close(c) => c < |w.clients| && |w.clients[c].slots| == NUM_DEVICES
    case Others(_) => true
  }

  /** The calls the theorems on resources are about. */
  ghost predicate Allowed(w: World, e: Event, host: Host) {
    Possible(w, e) &&
    match e
    case Attach(d, c, flags, policy) =>
      var r := AttachTo(w.devs[d], w.live, w.clients[c], d, flags, host, policy);
      Sound(policy) && (r.reply == EBusy || Grants(w.devs[d], flags, r))
    case Others(live) => AllApart(live) && forall d :: 0 <= d < |w.devs| ==> Owned(w.devs[d]) <= live
    case _ => true
  }

  ghost function Next(w: World, e: Event, host: Host): (r: World)
    requires Possible(w, e)
    ensures |r.devs| == |w.devs| && |r.clients| == |w.clients|
  {
    match e
    case Attach(d, c, flags, policy) => Put(w, d, c, AttachTo(w.devs[d], w.live, w.clients[c], d, flags, host, policy))
    case Detach(d, c, close) => DetachOne(w, d, c, close, host)
    case Close(c) => CloseFrom(w, c, 0, host)
    case Others(live) => w.(live := live)
  }

  lemma {:induction false} DetachOneKeeps(w: World, hws: seq<seq<Reg>>, host: Host, d: nat, c: nat, close: bool)
    requires Good(w, hws, host) && d < |w.devs| && c < |w.clients|
    ensures Good(DetachOne(w, d, c, close, host), hws, host)
  {
    assert Fine(w, hws, host, d);
    var client := w.clients[c];
    DetachKeeps(w.devs[d], hws[d], w.live, client, d, close, host);
    ForgetShaped(Paid(w.devs[d], client, close), d, 0, |w.devs|);
    PutKeeps(w, hws, host, d, c, DetachFrom(w.devs[d], w.live, client, d, close, host));
  }

  lemma {:induction false} CloseKeeps(w: World, hws: seq<seq<Reg>>, host: Host, c: nat, i: nat)
    requires Good(w, hws, host) && c < |w.clients| && i <= NUM_DEVICES
    ensures Good(CloseFrom(w, c, i, host), hws, host)
    decreases NUM_DEVICES - i
  {
    if i < NUM_DEVICES {
      match w.clients[c].slots[i]
      case Some(d) =>
        DetachOneKeeps(w, hws, host, d, c, true);
        CloseKeeps(DetachOne(w, d, c, true, host), hws, host, c, i + 1);
      case None => CloseKeeps(w, hws, host, c, i + 1);
    }
  }

  lemma {:induction false} OthersKeep(w: World, hws: seq<seq<Reg>>, host: Host, live: set<Chunk>)
    requires Good(w, hws, host) && Allowed(w, Others(live), host)
    ensures Good(w.(live := live), hws, host)
  {
    var r := w.(live := live);
    forall d: nat | d < |w.devs| ensures Fine(r, hws, host, d) {
      assert Fine(w, hws, host, d);
      OtherChunks(w.devs[d], hws[d], host, w.live, live);
    }
    forall d: nat, e: nat | d < |w.devs| && e < |w.devs| && d != e ensures Strangers(r, d, e) {
      assert Strangers(w, d, e);
    }
  }

  lemma {:induction false} NextKeeps(w: World, hws: seq<seq<Reg>>, host: Host, e: Event)
    requires Good(w, hws, host) && Allowed(w, e, host)
    ensures Good(Next(w, e, host), hws, host)
  {
    match e
    case Attach(d, c, flags, policy) =>
      assert Fine(w, hws, host, d);
      AttachKeeps(w.devs[d], hws[d], w.live, w.clients[c], d, flags, host, policy);
      AttachShaped(w.devs[d], w.live, w.clients[c], d, flags, host, policy, |w.devs|);
      PutKeeps(w, hws, host, d, c, AttachTo(w.devs[d], w.live, w.clients[c], d, flags, host, policy));
    case Detach(d, c, close) => DetachOneKeeps(w, hws, host, d, c, close);
    case Close(c) => CloseKeeps(w, hws, host, c, 0);
    case Others(live) => OthersKeep(w, hws, host, live);
  }

  // ---------------------------------------------------------------- shapes

  lemma {:induction false} DetachOneShaped(w: World, d: nat, c: nat, close: bool, host: Host)
    requires Shaped(w) && d < |w.devs| && c < |w.clients|
    ensures Shaped(DetachOne(w, d, c, close, host))
  {
    ForgetShaped(Paid(w.devs[d], w.clients[c], close), d, 0, |w.devs|);
  }

  lemma {:induction false} CloseShaped(w: World, c: nat, i: nat, host: Host)
    requires Shaped(w) && c < |w.clients| && i <= NUM_DEVICES
    ensures Shaped(CloseFrom(w, c, i, host))
    decreases NUM_DEVICES - i
  {
    if i < NUM_DEVICES {
      match w.clients[c].slots[i]
      case Some(d) =>
        DetachOneShaped(w, d, c, true, host);
        CloseShaped(DetachOne(w, d, c, true, host), c, i + 1, host);
      case None => CloseShaped(w, c, i + 1, host);
    }
  }

  /** Whatever a call returns, seven registers and twenty slots remain. */
  lemma {:induction false} NextShaped(w: World, e: Event, host: Host)
    requires Shaped(w) && Possible(w, e)
    ensures Shaped(Next(w, e, host))
  {
    match e
    case Attach(d, c, flags, policy) =>
      AttachShaped(w.devs[d], w.live, w.clients[c], d, flags, host, policy, |w.devs|);
      AttachSeven(w.devs[d], w.live, w.clients[c], d, flags, host, policy);
    case Detach(d, c, close) => DetachOneShaped(w, d, c, close, host);
    case Close(c) => CloseShaped(w, c, 0, host);
    case Others(_) =>
  }

  // ---------------------------------------------------------------- runs

  /** `ws` is what the events `es` lead to, whatever the calls return. */
  ghost predicate IsCourse(ws: seq<World>, es: seq<Event>, host: Host) {
    && |ws| == |es| + 1
    && forall i :: 0 <= i < |es| ==> Possible(ws[i], es[i]) && ws[i + 1] == Next(ws[i], es[i], host)
  }

  /** A course of allowed events. */
  ghost predicate IsRun(ws: seq<World>, es: seq<Event>, host: Host) {
    IsCourse(ws, es, host) && forall i :: 0 <= i < |es| ==> Allowed(ws[i], es[i], host)
  }

  /** Nobody holds anything yet: no addresses, no chunks, no holders. */
  ghost predicate Begins(w: World, hws: seq<seq<Reg>>) {
    && |hws| == |w.devs| && Shaped(w) && AllApart(w.live)
    && forall d :: 0 <= d < |w.devs| ==>
         && Hardware(hws[d]) && NoAddresses(hws[d]) && w.devs[d].regs == hws[d]
         && Empty(w.devs[d]) && HoldersOk(w.devs[d]) && !IsHeld(w.devs[d])
  }

  lemma {:induction false} BeginsGood(w: World, hws: seq<seq<Reg>>, host: Host)
    requires Begins(w, hws)
    ensures Good(w, hws, host)
  {
    forall d: nat | d < |w.devs| ensures Fine(w, hws, host, d) {
      forall i: nat | i < 7 ensures RegOk(w.devs[d], hws[d], i) {
        assert Sane(hws[d][i], i);
        BareIsClearable(hws[d][i], i);
      }
    }
    forall d: nat, e: nat | d < |w.devs| && e < |w.devs| && d != e ensures Strangers(w, d, e) {
      NothingOwned(w.devs[d]);
    }
  }

  lemma {:induction false} RunIsGood(ws: seq<World>, es: seq<Event>, hws: seq<seq<Reg>>, host: Host, i: nat)
    requires IsRun(ws, es, host) && Begins(ws[0], hws) && i < |ws|
    ensures Good(ws[i], hws, host)
  {
    if i == 0 {
      BeginsGood(ws[0], hws, host);
    } else {
      RunIsGood(ws, es, hws, host, i - 1);
      NextKeeps(ws[i - 1], hws, host, es[i - 1]);
    }
  }

  // ---------------------------------------------------------------- live chunks

  lemma {:induction false} ObtainApart(c: Claim, sums: Sums, a: Area, host: Host, policy: Policy)
    requires Sound(policy) && AllApart(c.live)
    ensures AllApart(Obtain(c, sums, a, host, policy).live)
  {
    if c.status != Error && sums.Of(a) != 0 {
      AllocGrants(host, policy, c.live, a, sums.Of(a), sums.AlignOf(a), c.dev.bus);
    }
  }

  lemma {:induction false} AddupApart(dev: Dev, live: set<Chunk>, flags: set<Flag>, show: bool, next: bool, host: Host,
          policy: Policy)
    requires |dev.regs| == 7 && Sound(policy) && AllApart(live)
    ensures AllApart(Addup(dev, live, flags, show, next, host, policy).live)
  {
    var sums := Gather(dev.regs, flags, show || next).sums;
    var c := Claim(dev, live, Ok);
    ObtainApart(c, sums, IoArea, host, policy);
    ObtainApart(Obtain(c, sums, IoArea, host, policy), sums, MemArea, host, policy);
    ObtainApart(Obtain(Obtain(c, sums, IoArea, host, policy), sums, MemArea, host, policy), sums, PrefArea, host, policy);
  }

  lemma {:induction false} ReleaseShrinks(dev: Dev, live: set<Chunk>, host: Host)
    requires |dev.regs| == 7
    ensures Release(dev, live, host).live <= live
  {
  }

  lemma {:induction false} DetachShrinks(w: World, d: nat, c: nat, close: bool, host: Host)
    requires d < |w.devs| && c < |w.clients| && |w.devs[d].regs| == 7
    ensures DetachOne(w, d, c, close, host).live <= w.live
  {
    ReleaseShrinks(Unlock(w.devs[d], w.clients[c], close), w.live, host);
  }

  lemma {:induction false} CloseShrinks(w: World, c: nat, i: nat, host: Host)
    requires c < |w.clients| && i <= NUM_DEVICES && |w.clients[c].slots| == NUM_DEVICES
    ensures CloseFrom(w, c, i, host).live <= w.live
    decreases NUM_DEVICES - i
  {
    if i < NUM_DEVICES {
      match w.clients[c].slots[i]
      case Some(d) =>
        if d < |w.devs| && |w.devs[d].regs| == 7 {
          DetachShrinks(w, d, c, true, host);
          CloseShrinks(DetachOne(w, d, c, true, host), c, i + 1, host);
        } else {
          CloseShrinks(w, c, i + 1, host);
        }
      case None => CloseShrinks(w, c, i + 1, host);
    }
  }

  /** The resource database keeps its contract, towards this program and others. */
  ghost predicate KeptByDatabase(e: Event) {
    match e
    case Attach(_, _, _, policy) => Sound(policy)
    case Others(live) => AllApart(live)
    case _ => true
  }

  lemma {:induction false} NextApart(w: World, e: Event, host: Host)
    requires Possible(w, e) && KeptByDatabase(e) && AllApart(w.live)
    ensures AllApart(Next(w, e, host).live)
  {
    match e
    case Attach(d, c, flags, policy) =>
      var dev := w.devs[d];
      AddupApart(dev.(mgr := dev.mgr || MgrAttach in flags), w.live, if Shows(flags) then flags + INIT else flags,
                 Shows(flags), IsNext(dev), host, policy);
    case Detach(d, c, close) => DetachShrinks(w, d, c, close, host);
    case Close(c) => CloseShrinks(w, c, 0, host);
    case Others(_) =>
  }

  /** Chunks of one pool never overlap, whatever the calls return. */
  lemma {:induction false} ChunksNeverOverlap(ws: seq<World>, es: seq<Event>, host: Host, i: nat)
    requires IsCourse(ws, es, host) && AllApart(ws[0].live) && i < |ws|
    requires forall k :: 0 <= k < |es| ==> KeptByDatabase(es[k])
    ensures AllApart(ws[i].live)
  {
    if i > 0 {
      ChunksNeverOverlap(ws, es, host, i - 1);
      NextApart(ws[i - 1], es[i - 1], host);
    }
  }

  // ---------------------------------------------------------------- what holds in every run

  /** Every chunk of a device is live. */
  lemma {:induction false} OwnedAreLive(ws: seq<World>, es: seq<Event>, hws: seq<seq<Reg>>, host: Host, i: nat)
    requires IsRun(ws, es, host) && Begins(ws[0], hws) && i < |ws|
    ensures forall d :: 0 <= d < |ws[i].devs| ==> Owned(ws[i].devs[d]) <= ws[i].live
  {
    RunIsGood(ws, es, hws, host, i);
    forall d: nat | d < |ws[i].devs| ensures Owned(ws[i].devs[d]) <= ws[i].live {
      assert Fine(ws[i], hws, host, d);
      OwnedIsLive(ws[i].devs[d], hws[d], host, ws[i].live);
    }
  }

  /**
    A device that nobody holds has no chunk, and its registers are back to what the hardware
    presented at the beginning.
  */
  lemma {:induction false} ReleasedMeansRestored(ws: seq<World>, es: seq<Event>, hws: seq<seq<Reg>>, host: Host,
          i: nat, d: nat)
    requires IsRun(ws, es, host) && Begins(ws[0], hws) && i < |ws| && d < |ws[i].devs| == |hws|
    requires !IsHeld(ws[i].devs[d])
    ensures ws[i].devs[d].regs == hws[d] && Owned(ws[i].devs[d]) == {} && ws[i].devs[d].flags == {}
  {
    RunIsGood(ws, es, hws, host, i);
    assert Fine(ws[i], hws, host, d);
    IdleIsHardware(ws[i].devs[d], hws[d], host, ws[i].live);
    NothingOwned(ws[i].devs[d]);
  }

  /** Assigned registers in one pool never overlap, whether they belong to one device or to two. */
  lemma {:induction false} RegistersNeverOverlap(ws: seq<World>, es: seq<Event>, hws: seq<seq<Reg>>, host: Host,
          i: nat, d: nat, j: nat, e: nat, k: nat)
    requires IsRun(ws, es, host) && Begins(ws[0], hws) && i < |ws|
    requires d < |ws[i].devs| && e < |ws[i].devs| && j < 7 && k < 7 && (d != e || j != k)
    requires |ws[i].devs[d].regs| == 7 && |ws[i].devs[e].regs| == 7
    requires var p, q := ws[i].devs[d].regs[j], ws[i].devs[e].regs[k];
             && Assigned(p) && Assigned(q)
             && PoolOf(AreaOf(p.kind), ws[i].devs[d].bus) == PoolOf(AreaOf(q.kind), ws[i].devs[e].bus)
    ensures Disjoint(ws[i].devs[d].regs[j], ws[i].devs[e].regs[k])
  {
    RunIsGood(ws, es, hws, host, i);
    var w := ws[i];
    var a := AreaOf(w.devs[d].regs[j].kind);
    assert Fine(w, hws, host, d) && Fine(w, hws, host, e);
    if d == e {
      assert PairOk(w.devs[d], if j < k then j else k, if j < k then k else j);
    } else {
      OwnsAssigned(w.devs[d], hws[d], host, w.live, j);
      OwnsAssigned(w.devs[e], hws[e], host, w.live, k);
      assert Strangers(w, d, e);
      assert Apart(Own(w.devs[d], a), Own(w.devs[e], a));
    }
  }

  lemma {:induction false} WindowShrinks(host: Host, a: Area, bus: nat, start: nat, length: nat, s: nat, l: nat)
    requires InWindow(host, a, bus, start, length) && start <= s && s + l <= start + length
    ensures InWindow(host, a, bus, s, l)
  {
    if a != IoArea {
      var i: nat :| i < |host.pages| && Within(MemRange(host, a, bus, i), start, length);
      assert Within(MemRange(host, a, bus, i), s, l);
    }
  }

  /**
    An assigned register lies in a live chunk that the device owns, in the window of its bus; memory is
    naturally aligned.
  */
  lemma {:induction false} OwnsAssigned(dev: Dev, hw: seq<Reg>, host: Host, live: set<Chunk>, i: nat)
    requires ResourcesOk(dev, hw, host, live) && i < 7 && Assigned(dev.regs[i])
    ensures InOwn(dev, i) && Own(dev, AreaOf(dev.regs[i].kind)) in Owned(dev) && Owned(dev) <= live
    ensures InWindow(host, AreaOf(dev.regs[i].kind), dev.bus, Base(dev.regs[i]), Units(dev.regs[i]))
  {
    assert RegOk(dev, hw, i);
    var a := AreaOf(dev.regs[i].kind);
    assert a in AREAS && AreaOk(dev, host, live, a);
    WindowShrinks(host, a, dev.bus, Own(dev, a).start, Own(dev, a).length, Base(dev.regs[i]), Units(dev.regs[i]));
    OwnedIsLive(dev, hw, host, live);
  }

  lemma {:induction false} AssignedAreOwned(ws: seq<World>, es: seq<Event>, hws: seq<seq<Reg>>, host: Host, i: nat,
          d: nat, j: nat)
    requires IsRun(ws, es, host) && Begins(ws[0], hws) && i < |ws| && d < |ws[i].devs| && j < 7
    requires |ws[i].devs[d].regs| == 7 && Assigned(ws[i].devs[d].regs[j])
    ensures IsHeld(ws[i].devs[d])
    ensures InOwn(ws[i].devs[d], j) && Own(ws[i].devs[d], AreaOf(ws[i].devs[d].regs[j].kind)) in ws[i].live
    ensures var reg := ws[i].devs[d].regs[j]; InWindow(host, AreaOf(reg.kind), ws[i].devs[d].bus, Base(reg), Units(reg))
  {
    RunIsGood(ws, es, hws, host, i);
    assert Fine(ws[i], hws, host, d);
    OwnsAssigned(ws[i].devs[d], hws[d], host, ws[i].live, j);
  }

  // ---------------------------------------------------------------- nothing is lost

  /** Live chunks that belong to no device. */
  ghost function Foreign(w: World): (r: set<Chunk>) {
    set x | x in w.live && forall d :: 0 <= d < |w.devs| ==> x !in Owned(w.devs[d])
  }

  lemma {:induction false} PutConserves(w: World, hws: seq<seq<Reg>>, host: Host, d: nat, c: nat, e: Effect)
    requires Good(w, hws, host) && d < |w.devs| && c < |w.clients| && Moves(w.devs[d], w.live, e)
    ensures Foreign(Put(w, d, c, e)) == Foreign(w)
  {
    var r := Put(w, d, c, e);
    assert forall k :: 0 <= k < |w.devs| && k != d ==> r.devs[k] == w.devs[k];
    forall x ensures x in Foreign(r) ==> x in Foreign(w) {
      if x in Foreign(r) {
        assert x in e.live - Owned(r.devs[d]);
        forall k | 0 <= k < |w.devs| ensures x !in Owned(w.devs[k]) {
          assert x !in Owned(r.devs[k]);
        }
      }
    }
    forall x ensures x in Foreign(w) ==> x in Foreign(r) {
      if x in Foreign(w) {
        assert x in w.live - Owned(w.devs[d]);
        forall k | 0 <= k < |r.devs| ensures x !in Owned(r.devs[k]) {
          assert x !in Owned(w.devs[k]);
        }
      }
    }
  }

  lemma {:induction false} DetachOneConserves(w: World, hws: seq<seq<Reg>>, host: Host, d: nat, c: nat, close: bool)
    requires Good(w, hws, host) && d < |w.devs| && c < |w.clients|
    ensures Foreign(DetachOne(w, d, c, close, host)) == Foreign(w)
  {
    assert Fine(w, hws, host, d);
    DetachKeeps(w.devs[d], hws[d], w.live, w.clients[c], d, close, host);
    PutConserves(w, hws, host, d, c, DetachFrom(w.devs[d], w.live, w.clients[c], d, close, host));
  }

  lemma {:induction false} CloseConserves(w: World, hws: seq<seq<Reg>>, host: Host, c: nat, i: nat)
    requires Good(w, hws, host) && c < |w.clients| && i <= NUM_DEVICES
    ensures Foreign(CloseFrom(w, c, i, host)) == Foreign(w)
    decreases NUM_DEVICES - i
  {
    if i < NUM_DEVICES {
      match w.clients[c].slots[i]
      case Some(d) =>
        DetachOneKeeps(w, hws, host, d, c, true);
        DetachOneConserves(w, hws, host, d, c, true);
        CloseConserves(DetachOne(w, d, c, true, host), hws, host, c, i + 1);
      case None => CloseConserves(w, hws, host, c, i + 1);
    }
  }

  /** Attaching, detaching and closing neither take nor leave a chunk that no device owns. */
  lemma {:induction false} NextConserves(w: World, hws: seq<seq<Reg>>, host: Host, e: Event)
    requires Good(w, hws, host) && Allowed(w, e, host) && !e.Others?
    ensures Foreign(Next(w, e, host)) == Foreign(w)
  {
    match e
    case Attach(d, c, flags, policy) =>
      assert Fine(w, hws, host, d);
      AttachKeeps(w.devs[d], hws[d], w.live, w.clients[c], d, flags, host, policy);
      PutConserves(w, hws, host, d, c, AttachTo(w.devs[d], w.live, w.clients[c], d, flags, host, policy));
    case Detach(d, c, close) => DetachOneConserves(w, hws, host, d, c, close);
    case Close(c) => CloseConserves(w, hws, host, c, 0);
  }

  lemma {:induction false} RunConserves(ws: seq<World>, es: seq<Event>, hws: seq<seq<Reg>>, host: Host, i: nat)
    requires IsRun(ws, es, host) && Begins(ws[0], hws) && i < |ws| && forall k :: 0 <= k < |es| ==> !es[k].Others?
    ensures Foreign(ws[i]) == Foreign(ws[0])
  {
    if i > 0 {
      RunConserves(ws, es, hws, host, i - 1);
      RunIsGood(ws, es, hws, host, i - 1);
      var w, e := ws[i - 1], es[i - 1];
      assert Allowed(w, e, host) && !e.Others? && ws[i] == Next(w, e, host);
      NextConserves(w, hws, host, e);
    }
  }

  /** When everybody has let go, every chunk is back. */
  lemma {:induction false} EverythingComesBack(ws: seq<World>, es: seq<Event>, hws: seq<seq<Reg>>, host: Host, i: nat)
    requires IsRun(ws, es, host) && Begins(ws[0], hws) && i < |ws| && forall k :: 0 <= k < |es| ==> !es[k].Others?
    requires forall d :: 0 <= d < |ws[i].devs| ==> !IsHeld(ws[i].devs[d])
    ensures ws[i].live == ws[0].live
  {
    RunConserves(ws, es, hws, host, i);
    RunIsGood(ws, es, hws, host, i);
    forall d: nat | d < |ws[i].devs| ensures Owned(ws[i].devs[d]) == {} {
      assert Fine(ws[i], hws, host, d);
      NothingOwned(ws[i].devs[d]);
    }
    forall d: nat | d < |ws[0].devs| ensures Owned(ws[0].devs[d]) == {} {
      NothingOwned(ws[0].devs[d]);
    }
    assert Foreign(ws[i]) == ws[i].live && Foreign(ws[0]) == ws[0].live;
  }
}
