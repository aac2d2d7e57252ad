/**
  Counters: the locks on devices against the locks of clients, and the device table of a client.
*/
module LockAccounting {
  import opened Common
  import opened Registers
  import opened Resources
  import opened DeviceResources
  import Carving
  import opened DeviceTheorems
  import opened RoundTrip
  import opened Attachment
  import opened AttachInvariant
  import opened AttachRuns

  // ---------------------------------------------------------------- locks

  function DeviceLocks(devs: seq<Dev>): (r: nat) {
    if devs == [] then 0 else devs[0].lock + DeviceLocks(devs[1..])
  }

  function ClientLocks(clients: seq<Client>): (r: nat) {
    if clients == [] then 0 else clients[0].lockflg + ClientLocks(clients[1..])
  }

  /** Locks on devices that no client accounts for. */
  function Imbalance(w: World): (r: int) { DeviceLocks(w.devs) - ClientLocks(w.clients) }

  lemma {:induction false} DeviceLocksUpdate(devs: seq<Dev>, d: nat, dev: Dev)
    requires d < |devs|
    ensures DeviceLocks(devs[d := dev]) == DeviceLocks(devs) - devs[d].lock + dev.lock
  {
    if d > 0 {
      assert devs[d := dev][1..] == devs[1..][d - 1 := dev];
      DeviceLocksUpdate(devs[1..], d - 1, dev);
    } else {
      assert devs[0 := dev][1..] == devs[1..];
    }
  }

  lemma {:induction false} ClientLocksUpdate(clients: seq<Client>, c: nat, client: Client)
    requires c < |clients|
    ensures ClientLocks(clients[c := client]) == ClientLocks(clients) - clients[c].lockflg + client.lockflg
  {
    if c > 0 {
      assert clients[c := client][1..] == clients[1..][c - 1 := client];
      ClientLocksUpdate(clients[1..], c - 1, client);
    } else {
      assert clients[0 := client][1..] == clients[1..];
    }
  }

  lemma {:induction false} PutImbalance(w: World, d: nat, c: nat, e: Effect)
    requires d < |w.devs| && c < |w.clients|
    ensures Imbalance(Put(w, d, c, e)) == Imbalance(w) + (e.dev.lock - w.devs[d].lock) - (e.client.lockflg - w.clients[c].lockflg)
  {
    DeviceLocksUpdate(w.devs, d, e.dev);
    ClientLocksUpdate(w.clients, c, e.client);
  }

  lemma {:induction false} ObtainHolders(c: Claim, sums: Sums, host: Host, policy: Policy)
    ensures SameHolders(c.dev, ObtainAll(c, sums, host, policy).dev)
  {
    var c1 := Obtain(c, sums, IoArea, host, policy);
    var c2 := Obtain(c1, sums, MemArea, host, policy);
    ObtainLeaves(c, sums, IoArea, host, policy);
    ObtainLeaves(c1, sums, MemArea, host, policy);
    ObtainLeaves(c2, sums, PrefArea, host, policy);
  }

  lemma {:induction false} AddupHolders(dev: Dev, live: set<Chunk>, flags: set<Flag>, show: bool, next: bool,
          host: Host, policy: Policy)
    requires |dev.regs| == 7
    ensures SameHolders(dev, Addup(dev, live, flags, show, next, host, policy).dev)
  {
    ObtainHolders(Claim(dev, live, Ok), Gather(dev.regs, flags, show || next).sums, host, policy);
  }

  /** What an attach does to the two counters and the manager flag. */
  lemma {:induction false} AttachCounts(dev: Dev, live: set<Chunk>, client: Client, d: nat, flags: set<Flag>,
          host: Host, policy: Policy)
    requires |dev.regs| == 7 && |client.slots| == NUM_DEVICES && dev.lock < 256
    ensures var e := AttachTo(dev, live, client, d, flags, host, policy);
            && e.client.lockflg == client.lockflg + (if e.reply.Attached? && !IsFirstManager(dev, flags) then 1 else 0)
            && e.dev.lock == Byte(dev.lock + (e.client.lockflg - client.lockflg))
            && (e.reply != EBusy ==> e.dev.mgr == (dev.mgr || MgrAttach in flags))
  {
    AddupHolders(dev.(mgr := dev.mgr || MgrAttach in flags), live, if Shows(flags) then flags + INIT else flags,
                 Shows(flags), IsNext(dev), host, policy);
  }

  /** The first attach, by a manager: it counts no lock. */
  predicate IsFirstManager(dev: Dev, flags: set<Flag>) { !Shows(flags) && dev.flags == {} && MgrAttach in flags }

  /** An attach keeps the difference of the two totals unless it succeeds with the 256th lock of the device. */
  lemma {:induction false} AttachBalancesIff(w: World, d: nat, c: nat, flags: set<Flag>, host: Host, policy: Policy)
    requires d < |w.devs| && c < |w.clients| && |w.devs[d].regs| == 7 && |w.clients[c].slots| == NUM_DEVICES && w.devs[d].lock < 256
    ensures var e := AttachTo(w.devs[d], w.live, w.clients[c], d, flags, host, policy);
            && (!e.reply.Attached? ==> Imbalance(Put(w, d, c, e)) == Imbalance(w))
            && (e.reply.Attached? ==>
                  (Imbalance(Put(w, d, c, e)) == Imbalance(w) <==> w.devs[d].lock < 255 || IsFirstManager(w.devs[d], flags)))
  {
    var e := AttachTo(w.devs[d], w.live, w.clients[c], d, flags, host, policy);
    PutImbalance(w, d, c, e);
    AttachCounts(w.devs[d], w.live, w.clients[c], d, flags, host, policy);
  }

  lemma {:induction false} ForgetLocks(client: Client, d: nat, i: nat)
    requires i <= |client.slots|
    ensures ForgetFrom(client, d, i).lockflg == client.lockflg
    decreases |client.slots| - i
  {
    if i < |client.slots| {
      ForgetLocks(if client.slots[i] == Some(d) then client.(slots := client.slots[i := None], num := client.num - 1) else client,
                  d, i + 1);
    }
  }

  lemma {:induction false} ReleaseHolders(dev: Dev, live: set<Chunk>, host: Host)
    requires |dev.regs| == 7
    ensures SameHolders(dev, Release(dev, live, host).dev)
  {
  }

  /**
    A detach keeps the difference of the two totals exactly when the device has no lock or the client
    has one; otherwise the device alone loses one.
  */
  lemma {:induction false} DetachBalancesIff(w: World, d: nat, c: nat, close: bool, host: Host)
    requires d < |w.devs| && c < |w.clients| && |w.devs[d].regs| == 7
    ensures Imbalance(DetachOne(w, d, c, close, host)) == Imbalance(w) <==> (w.devs[d].lock > 0 ==> w.clients[c].lockflg > 0)
  {
    var dev, client := w.devs[d], w.clients[c];
    var e := DetachFrom(dev, w.live, client, d, close, host);
    PutImbalance(w, d, c, e);
    ForgetLocks(Paid(dev, client, close), d, 0);
    ReleaseHolders(Unlock(dev, client, close), w.live, host);
  }

  /** Every detach that a close makes is made by a client that still holds a lock. */
  ghost predicate ClosesAsHolder(w: World, c: nat, i: nat, host: Host)
    requires c < |w.clients| && i <= NUM_DEVICES && |w.clients[c].slots| == NUM_DEVICES
    decreases NUM_DEVICES - i
  {
    i < NUM_DEVICES ==>
      match w.clients[c].slots[i]
      case Some(d) =>
        if d < |w.devs| && |w.devs[d].regs| == 7 then
          (w.devs[d].lock > 0 ==> w.clients[c].lockflg > 0) && ClosesAsHolder(DetachOne(w, d, c, true, host), c, i + 1, host)
        else ClosesAsHolder(w, c, i + 1, host)
      case None => ClosesAsHolder(w, c, i + 1, host)
  }

  lemma {:induction false} CloseBalances(w: World, c: nat, i: nat, host: Host)
    requires c < |w.clients| && i <= NUM_DEVICES && |w.clients[c].slots| == NUM_DEVICES && ClosesAsHolder(w, c, i, host)
    ensures Imbalance(CloseFrom(w, c, i, host)) == Imbalance(w)
    decreases NUM_DEVICES - i
  {
    if i < NUM_DEVICES {
      match w.clients[c].slots[i]
      case Some(d) =>
        if d < |w.devs| && |w.devs[d].regs| == 7 {
          DetachBalancesIff(w, d, c, true, host);
          CloseBalances(DetachOne(w, d, c, true, host), c, i + 1, host);
        } else {
          CloseBalances(w, c, i + 1, host);
        }
      case None => CloseBalances(w, c, i + 1, host);
    }
  }

  /** Only holders let go, and no attach asks for the 256th lock of a device that it may share. */
  ghost predicate ByHolder(w: World, e: Event, host: Host)
    requires Possible(w, e)
  {
    match e
    case Attach(d, _, flags, _) => IsBusy(w.devs[d], flags) || w.devs[d].lock < 255 || IsFirstManager(w.devs[d], flags)
    case Detach(d, c, _) => w.devs[d].lock > 0 ==> w.clients[c].lockflg > 0
    case Close(c) => ClosesAsHolder(w, c, 0, host)
    case Others(_) => true
  }

  /** `LockFlg` is a `uint8_t`. */
  ghost predicate LocksAreBytes(w: World) { forall d :: 0 <= d < |w.devs| ==> w.devs[d].lock < 256 }

  lemma {:induction false} DetachOneBytes(w: World, d: nat, c: nat, close: bool, host: Host)
    requires LocksAreBytes(w) && d < |w.devs| && c < |w.clients| && |w.devs[d].regs| == 7
    ensures LocksAreBytes(DetachOne(w, d, c, close, host))
  {
    ReleaseHolders(Unlock(w.devs[d], w.clients[c], close), w.live, host);
  }

  lemma {:induction false} CloseBytes(w: World, c: nat, i: nat, host: Host)
    requires LocksAreBytes(w) && c < |w.clients| && i <= NUM_DEVICES && |w.clients[c].slots| == NUM_DEVICES
    ensures LocksAreBytes(CloseFrom(w, c, i, host))
    decreases NUM_DEVICES - i
  {
    if i < NUM_DEVICES {
      match w.clients[c].slots[i]
      case Some(d) =>
        if d < |w.devs| && |w.devs[d].regs| == 7 {
          DetachOneBytes(w, d, c, true, host);
          CloseBytes(DetachOne(w, d, c, true, host), c, i + 1, host);
        } else {
          CloseBytes(w, c, i + 1, host);
        }
      case None => CloseBytes(w, c, i + 1, host);
    }
  }

  lemma {:induction false} NextBalances(w: World, host: Host, e: Event)
    requires LocksAreBytes(w) && Possible(w, e)
    ensures LocksAreBytes(Next(w, e, host))
    ensures ByHolder(w, e, host) ==> Imbalance(Next(w, e, host)) == Imbalance(w)
  {
    match e
    case Attach(d, c, flags, policy) =>
      AttachBalancesIff(w, d, c, flags, host, policy);
      AttachCounts(w.devs[d], w.live, w.clients[c], d, flags, host, policy);
    case Detach(d, c, close) =>
      DetachBalancesIff(w, d, c, close, host);
      DetachOneBytes(w, d, c, close, host);
    case Close(c) =>
      CloseBytes(w, c, 0, host);
      if ByHolder(w, e, host) {
        CloseBalances(w, c, 0, host);
      }
    case Others(_) =>
  }

  /**
    As long as only holders let go and no device has 256 locks, the locks on devices and those of the
    clients keep their difference, whatever the calls return.
  */
  lemma {:induction false} LocksBalance(ws: seq<World>, es: seq<Event>, host: Host, i: nat)
    requires IsCourse(ws, es, host) && LocksAreBytes(ws[0]) && i < |ws|
    requires forall k :: 0 <= k < |es| ==> ByHolder(ws[k], es[k], host)
    ensures LocksAreBytes(ws[i]) && Imbalance(ws[i]) == Imbalance(ws[0])
  {
    if i > 0 {
      LocksBalance(ws, es, host, i - 1);
      NextBalances(ws[i - 1], host, es[i - 1]);
    }
  }

  // ---------------------------------------------------------------- who holds

  /** After a successful attach the device is held, except that the 256th lock leaves none. */
  lemma {:induction false} AttachHoldsIff(dev: Dev, live: set<Chunk>, client: Client, d: nat, flags: set<Flag>,
          host: Host, policy: Policy)
    requires |dev.regs| == 7 && |client.slots| == NUM_DEVICES && dev.lock < 256
    requires AttachTo(dev, live, client, d, flags, host, policy).reply.Attached?
    ensures var e := AttachTo(dev, live, client, d, flags, host, policy);
            IsHeld(e.dev) <==> dev.mgr || MgrAttach in flags || dev.lock < 255
  {
    AttachCounts(dev, live, client, d, flags, host, policy);
  }

  /**
    A successful attach that is not just a look leaves a register it selects with an address exactly
    when it is the first one, or the register had an address: joining a holder assigns nothing.
  */
  lemma {:induction false} AttachAssignsIff(dev: Dev, hw: seq<Reg>, live: set<Chunk>, client: Client, d: nat,
          flags: set<Flag>, host: Host, policy: Policy, i: nat)
    requires DevOk(dev, hw, host, live) && Sound(policy) && AllApart(live) && |client.slots| == NUM_DEVICES
    requires !Shows(flags) && !IsBusy(dev, flags) && i < 7 && Selected(dev.regs, flags, i)
    requires Grants(dev, flags, AttachTo(dev, live, client, d, flags, host, policy))
    ensures var e := AttachTo(dev, live, client, d, flags, host, policy);
            |e.dev.regs| == 7 && (Assigned(e.dev.regs[i]) <==> !IsHeld(dev) || Assigned(dev.regs[i]))
  {
    var claimed := dev.(mgr := dev.mgr || MgrAttach in flags);
    AddupHolders(claimed, live, flags, false, IsNext(dev), host, policy);
    if IsNext(dev) {
      QuietAddup(claimed, live, flags, false, true, host, policy);
    } else {
      IdleIsHardware(dev, hw, host, live);
      forall a: Area ensures claimed.At(a).address == 0 {
        assert dev.At(a).address == 0;
      }
      FirstAssigns(claimed, live, flags, host, policy, i);
    }
  }

  lemma {:induction false} FirstAssigns(dev: Dev, live: set<Chunk>, flags: set<Flag>, host: Host, policy: Policy,
          i: nat)
    requires Hardware(dev.regs) && NoAddresses(dev.regs) && Empty(dev) && Sound(policy) && AllApart(live)
    requires i < 7 && Selected(dev.regs, flags, i)
    requires var c := Addup(dev, live, flags, false, false, host, policy);
             c.status == Ok && NoneAtZero(Gather(dev.regs, flags, false).sums, c.dev)
    ensures var c := Addup(dev, live, flags, false, false, host, policy);
            |c.dev.regs| == 7 && Assigned(c.dev.regs[i])
  {
    AddupPlaces(dev, live, flags, host, policy);
    SelectedIsNeeded(dev.regs, flags, i);
    PlacedIsAssigned(dev, flags, Gather(dev.regs, flags, false).sums, Addup(dev, live, flags, false, false, host, policy).dev, i);
  }

  lemma {:induction false} PlacedIsAssigned(dev: Dev, flags: set<Flag>, sums: Sums, c: Dev, i: nat)
    requires PlacedAll(dev, flags, sums, c) && NoneAtZero(sums, c) && i < 7 && Asked(dev.regs, flags, i)
    requires sums.Of(AreaOf(dev.regs[i].kind)) != 0
    ensures Assigned(c.regs[i])
  {
    BaseIsMultiple(c.regs[i]);
    assert c.At(AreaOf(dev.regs[i].kind)).address != 0;
    assert Carving.Base(c.regs[i]) > 0;
  }
}
