/**
  Attaching and detaching: who holds a device, and when its resources are claimed and released.
  Only the calls without a handle are modelled.
*/
module Attachment {
  import opened Common
  import opened Registers
  import opened Resources
  import opened DeviceResources

  const NUM_DEVICES: nat := 20

  /** `DEV_LIST`: what a client has open. */
  datatype Client = Client(lockflg: nat, num: int, slots: seq<Option<nat>>)

  datatype Reply = EBusy | Failed | Attached(short: bool)

  /** A device, the database and a client after a call. */
  datatype Effect = Effect(reply: Reply, dev: Dev, live: set<Chunk>, client: Client)

  // ---------------------------------------------------------------- attach

  /** Without any PCI_INIT flag the caller only wants to look. */
  predicate Shows(flags: set<Flag>) { flags * INIT == {} }

  predicate IsBusy(dev: Dev, flags: set<Flag>) {
    dev.lock > 0 && MgrAttach !in flags && !Shows(flags) && !(Share in dev.flags && Share in flags)
  }

  /** `next_attach`: somebody holds the device already. */
  predicate IsNext(dev: Dev) { dev.lock > 0 || dev.mgr }

  /** The first slot that holds `d` or nothing, from slot `i` on. */
  function PutFrom(slots: seq<Option<nat>>, d: nat, i: nat): (r: seq<Option<nat>>)
    requires i <= |slots|
    ensures |r| == |slots|
    decreases |slots| - i
  {
    if i == |slots| || slots[i] == Some(d) then slots
    else if slots[i] == None then slots[i := Some(d)]
    else PutFrom(slots, d, i + 1)
  }

  /** The device list of the client after an attach. */
  function Record(client: Client, d: nat): (r: Client)
    requires |client.slots| == NUM_DEVICES
  {
    client.(slots := if client.num == 0 then client.slots[0 := Some(d)] else PutFrom(client.slots, d, 0),
            num := client.num + 1)
  }

  /** PCI_PERSIST marks every register as enabled, so that nothing is ever released. */
  function Persisted(dev: Dev): (r: Dev)
    ensures |r.regs| == |dev.regs|
  {
    dev.(persistent := true,
         regs := seq(|dev.regs|, i requires 0 <= i < |dev.regs| =>
                   dev.regs[i].(enabled := dev.regs[i].kind != Unused || dev.regs[i].enabled)))
  }

  /** The device after a successful attach, apart from its resources. */
  function Mark(dev: Dev, flags: set<Flag>): (r: Dev) {
    var all := if Shows(flags) then flags + INIT else flags;
    var locked := dev.(flags := dev.flags + all, lock := Byte(dev.lock + 1));
    if Shows(flags) || dev.flags != {} then locked
    else
      var first := if MgrAttach in flags then locked.(lock := dev.lock) else locked;
      if !dev.persistent && Persist in flags then Persisted(first) else first
  }

  /** The client after a successful attach; `first` is `AttachFlags == 0` before it. */
  function MarkClient(client: Client, d: nat, flags: set<Flag>, first: bool): (r: Client)
    requires |client.slots| == NUM_DEVICES
  {
    if Shows(flags) then client.(lockflg := client.lockflg + 1)
    else Record(if first && MgrAttach in flags then client else client.(lockflg := client.lockflg + 1), d)
  }

  /** `PCI_attach_device` for device number `d`. */
  function AttachTo(dev: Dev, live: set<Chunk>, client: Client, d: nat, flags: set<Flag>, host: Host,
          policy: Policy): (r: Effect)
    requires |dev.regs| == 7 && |client.slots| == NUM_DEVICES
  {
    if IsBusy(dev, flags) then Effect(EBusy, dev, live, client)
    else
      var claimed := dev.(mgr := dev.mgr || MgrAttach in flags);
      var c := Addup(claimed, live, if Shows(flags) then flags + INIT else flags, Shows(flags), IsNext(dev), host, policy);
      if c.status == Error then Effect(Failed, c.dev, c.live, client)
      else Effect(Attached(c.status == Short), Mark(c.dev, flags), c.live, MarkClient(client, d, flags, c.dev.flags == {}))
  }

  // ---------------------------------------------------------------- detach

  /** How many locks a detach takes off; on close all of them if nobody else can hold one. */
  function Taken(dev: Dev, client: Client, close: bool): (r: nat) {
    if dev.lock == 0 then 0
    else if client.lockflg > 0 && close && client.lockflg == dev.lock then client.lockflg
    else 1
  }

  function ForgetFrom(client: Client, d: nat, i: nat): (r: Client)
    requires i <= |client.slots|
    ensures |r.slots| == |client.slots|
    decreases |client.slots| - i
  {
    if i == |client.slots| then client
    else if client.slots[i] == Some(d) then ForgetFrom(client.(slots := client.slots[i := None], num := client.num - 1), d, i + 1)
    else ForgetFrom(client, d, i + 1)
  }

  /** Lock and manager flag after a detach. */
  function Unlock(dev: Dev, client: Client, close: bool): (r: Dev) {
    if dev.lock > 0 then dev.(lock := dev.lock - Taken(dev, client, close)) else dev.(mgr := false)
  }

  function Paid(dev: Dev, client: Client, close: bool): (r: Client) {
    if client.lockflg > 0 then client.(lockflg := client.lockflg - Taken(dev, client, close)) else client
  }

  predicate IsHeld(dev: Dev) { dev.lock > 0 || dev.mgr }

  /** The last detach gives the resources back. */
  predicate Releases(dev: Dev) { !dev.persistent && dev.flags * INIT != {} && !IsHeld(dev) }

  /** `PCI_detach_device` */
  function DetachFrom(dev: Dev, live: set<Chunk>, client: Client, d: nat, close: bool, host: Host): (r: Effect)
    requires |dev.regs| == 7
  {
    var unlocked := Unlock(dev, client, close);
    var c := if Releases(unlocked) then Release(unlocked, live, host) else Claim(unlocked, live, Ok);
    Effect(Attached(false), if IsHeld(c.dev) then c.dev else c.dev.(flags := {}), c.live,
           ForgetFrom(Paid(dev, client, close), d, 0))
  }

  // ---------------------------------------------------------------- clients and devices as objects

  class DevList {
    var lockflg: nat
    var numDevices: int
    const devList: array<Option<nat>>

    ghost predicate Valid()
      reads this
    {
      devList.Length == NUM_DEVICES
    }

    function Value(): (r: Client)
      reads this, devList
    {
      Client(lockflg, numDevices, devList[..])
    }

    constructor ()
      ensures Valid() && fresh(devList) && Value() == Client(0, 0, seq(NUM_DEVICES, _ => None))
    {
      lockflg, numDevices := 0, 0;
      devList := new Option<nat>[NUM_DEVICES](_ => None);
    }

    method RecordDevice(d: nat)
      requires Valid()
      modifies this`numDevices, devList
      ensures Value() == Record(old(Value()), d)
    {
      if numDevices == 0 {
        devList[0] := Some(d);
        assert devList[..] == old(devList[..])[0 := Some(d)];
      } else {
        var i := 0;
        while i < NUM_DEVICES && devList[i] != Some(d) && devList[i] != None
          invariant 0 <= i <= NUM_DEVICES
          invariant PutFrom(devList[..], d, i) == PutFrom(devList[..], d, 0)
        {
          i := i + 1;
        }
        if i < NUM_DEVICES && devList[i] == None {
          devList[i] := Some(d);
          assert devList[..] == old(devList[..])[i := Some(d)];
        }
      }
      numDevices := numDevices + 1;
    }

    method ForgetDevice(d: nat)
      requires Valid()
      modifies this`numDevices, devList
      ensures Value() == ForgetFrom(old(Value()), d, 0)
    {
      var i := 0;
      while i < NUM_DEVICES
        invariant 0 <= i <= NUM_DEVICES
        invariant ForgetFrom(Value(), d, i) == ForgetFrom(old(Value()), d, 0)
      {
        if devList[i] == Some(d) {
          ghost var before := devList[..];
          devList[i] := None;
          numDevices := numDevices - 1;
          assert devList[..] == before[i := None];
        }
        i := i + 1;
      }
    }
  }

  /** Sets the persistent flag and marks the registers. */
  method MakePersistent(dev: Device)
    requires dev.Valid()
    modifies dev`persistent, dev.regs
    ensures dev.Value() == Persisted(old(dev.Value()))
  {
    dev.persistent := true;
    var i := 0;
    while i < 7
      modifies dev.regs
      invariant 0 <= i <= 7
      invariant forall k :: 0 <= k < 7 ==>
                  dev.regs[k] == if k < i then old(dev.regs[k]).(enabled := old(dev.regs[k]).kind != Unused || old(dev.regs[k]).enabled)
                                 else old(dev.regs[k])
    {
      if dev.regs[i].kind != Unused {
        dev.regs[i] := dev.regs[i].(enabled := true);
      }
      i := i + 1;
    }
    assert dev.regs[..] == Persisted(old(dev.Value())).regs;
  }

  /** What `PCI_attach_device` does once the resources are settled. */
  method MarkAttached(dev: Device, list: DevList, d: nat, flags: set<Flag>)
    requires dev.Valid() && list.Valid()
    modifies dev`attachFlags, dev`lockFlg, dev`persistent, dev.regs, list, list.devList
    ensures dev.Valid() && dev.Value() == Mark(old(dev.Value()), flags)
    ensures list.Value() == MarkClient(old(list.Value()), d, flags, old(dev.attachFlags) == {})
  {
    if Shows(flags) {
      dev.lockFlg := Byte(dev.lockFlg + 1);
      list.lockflg := list.lockflg + 1;
      dev.attachFlags := dev.attachFlags + (flags + INIT);
    } else {
      if dev.attachFlags == {} {
        dev.attachFlags := dev.attachFlags + flags;
        if MgrAttach !in flags {
          dev.lockFlg := Byte(dev.lockFlg + 1);
          list.lockflg := list.lockflg + 1;
        }
        if !dev.persistent && Persist in flags {
          MakePersistent(dev);
        }
      } else {
        dev.attachFlags := dev.attachFlags + flags;
        dev.lockFlg := Byte(dev.lockFlg + 1);
        list.lockflg := list.lockflg + 1;
      }
      list.RecordDevice(d);
    }
  }

  method AttachDevice(dev: Device, list: DevList, d: nat, flags: set<Flag>, db: ResourceDb, host: Host)
    returns (reply: Reply)
    requires dev.Valid() && list.Valid() && db.Valid()
    modifies dev, dev.regs, list, list.devList, db
    ensures dev.Valid() && list.Valid() && db.Valid()
    ensures Effect(reply, dev.Value(), db.live, list.Value())
         == AttachTo(old(dev.Value()), old(db.live), old(list.Value()), d, flags, host, db.policy)
  {
    var next := false;
    if dev.lockFlg > 0 {
      if MgrAttach !in flags && !Shows(flags) && !(Share in dev.attachFlags && Share in flags) {
        return EBusy;
      }
      next := true;
    }
    if !dev.mgrAttach {
      dev.mgrAttach := MgrAttach in flags;
    } else {
      next := true;
    }
    var status := dev.AddupResources(db, host, if Shows(flags) then flags + INIT else flags, Shows(flags), next);
    if status == Error {
      return Failed;
    }
    MarkAttached(dev, list, d, flags);
    reply := Attached(status == Short);
  }

  method UnlockDevice(dev: Device, list: DevList, close: bool)
    requires dev.Valid() && list.Valid()
    modifies dev`lockFlg, dev`mgrAttach, list`lockflg
    ensures dev.Valid() && dev.Value() == Unlock(old(dev.Value()), old(list.Value()), close)
    ensures list.Value() == Paid(old(dev.Value()), old(list.Value()), close)
  {
    if dev.lockFlg > 0 {
      if list.lockflg > 0 {
        var i := if close && list.lockflg == dev.lockFlg then list.lockflg else 1;
        dev.lockFlg := dev.lockFlg - i;
        list.lockflg := list.lockflg - i;
      } else {
        dev.lockFlg := dev.lockFlg - 1;
      }
    } else {
      dev.mgrAttach := false;
    }
  }

  method DetachDevice(dev: Device, list: DevList, d: nat, close: bool, db: ResourceDb, host: Host)
    requires dev.Valid() && list.Valid() && db.Valid()
    modifies dev, dev.regs, list, list.devList, db
    ensures dev.Valid() && list.Valid() && db.Valid()
    ensures Effect(Attached(false), dev.Value(), db.live, list.Value())
         == DetachFrom(old(dev.Value()), old(db.live), old(list.Value()), d, close, host)
  {
    UnlockDevice(dev, list, close);
    if !dev.persistent && dev.attachFlags * INIT != {} && dev.lockFlg == 0 && !dev.mgrAttach {
      dev.ReleaseResources(db, host);
    }
    list.ForgetDevice(d);
    if dev.lockFlg == 0 && !dev.mgrAttach {
      dev.attachFlags := {};
    }
  }
}
