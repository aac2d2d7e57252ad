/**
  The device table of a client: what is recorded on attach, forgotten on detach, and cleared when
  the client closes.
*/
module DeviceTable {
  import opened Common
  import opened Registers
  import opened Resources
  import opened DeviceResources
  import opened Attachment
  import opened AttachRuns

  function Occupied(slots: seq<Option<nat>>): (r: nat) {
    if slots == [] then 0 else (if slots[0].Some? then 1 else 0) + Occupied(slots[1..])
  }

  lemma {:induction false} OccupiedUpdate(slots: seq<Option<nat>>, i: nat, x: Option<nat>)
    requires i < |slots|
    ensures Occupied(slots[i := x]) == Occupied(slots) - (if slots[i].Some? then 1 else 0) + (if x.Some? then 1 else 0)
  {
    if i > 0 {
      assert slots[i := x][1..] == slots[1..][i - 1 := x];
      OccupiedUpdate(slots[1..], i - 1, x);
    } else {
      assert slots[0 := x][1..] == slots[1..];
    }
  }

  lemma {:induction false} NoneOccupied(slots: seq<Option<nat>>)
    ensures Occupied(slots) == 0 <==> forall i :: 0 <= i < |slots| ==> slots[i] == None
  {
    if slots != [] {
      NoneOccupied(slots[1..]);
      if slots[0] == None && forall i :: 0 <= i < |slots[1..]| ==> slots[1..][i] == None {
        forall i | 0 <= i < |slots| ensures slots[i] == None {
          assert i > 0 ==> slots[i] == slots[1..][i - 1];
        }
      }
    }
  }

  lemma {:induction false} PutCounts(slots: seq<Option<nat>>, d: nat, i: nat)
    requires i <= |slots|
    ensures Occupied(PutFrom(slots, d, i)) <= Occupied(slots) + 1
    decreases |slots| - i
  {
    if i < |slots| && slots[i] != Some(d) {
      if slots[i] == None {
        OccupiedUpdate(slots, i, Some(d));
      } else {
        PutCounts(slots, d, i + 1);
      }
    }
  }

  /** An attach is recorded exactly when the client had no device, had this one, or had a free slot. */
  lemma {:induction false} PutRecords(slots: seq<Option<nat>>, d: nat, i: nat)
    requires i <= |slots|
    ensures Some(d) in PutFrom(slots, d, i)[i..] <==> Some(d) in slots[i..] || None in slots[i..]
    ensures forall x: nat :: x != d ==> (Some(x) in PutFrom(slots, d, i) <==> Some(x) in slots)
    decreases |slots| - i
  {
    var r := PutFrom(slots, d, i);
    if i < |slots| {
      if slots[i] == Some(d) || slots[i] == None {
        assert r[i] == Some(d) && r[i..][0] == Some(d);
        assert slots[i..][0] == slots[i];
        forall x: nat | x != d ensures Some(x) in r <==> Some(x) in slots {
          if Some(x) in slots {
            var k :| 0 <= k < |slots| && slots[k] == Some(x);
            assert r[k] == Some(x);
          }
        }
      } else {
        PutRecords(slots, d, i + 1);
        PutLeaves(slots, d, i + 1);
        assert r[i..] == [slots[i]] + r[i + 1..] && slots[i..] == [slots[i]] + slots[i + 1..];
      }
    }
  }

  lemma {:induction false} PutLeaves(slots: seq<Option<nat>>, d: nat, i: nat)
    requires i <= |slots|
    ensures forall k :: 0 <= k < i ==> PutFrom(slots, d, i)[k] == slots[k]
    decreases |slots| - i
  {
    if i < |slots| {
      PutLeaves(slots, d, i + 1);
    }
  }

  /** Forgetting lowers the counter by exactly the slots it frees, and frees every slot of the device. */
  lemma {:induction false} ForgetCounts(client: Client, d: nat, i: nat)
    requires i <= |client.slots|
    ensures var r := ForgetFrom(client, d, i);
            && client.num - Occupied(client.slots) == r.num - Occupied(r.slots)
            && (forall k :: 0 <= k < |r.slots| ==> r.slots[k] == if k >= i && client.slots[k] == Some(d) then None else client.slots[k])
    decreases |client.slots| - i
  {
    if i < |client.slots| {
      if client.slots[i] == Some(d) {
        OccupiedUpdate(client.slots, i, None);
        ForgetCounts(client.(slots := client.slots[i := None], num := client.num - 1), d, i + 1);
      } else {
        ForgetCounts(client, d, i + 1);
      }
    }
  }

  predicate Covers(client: Client) { client.num >= Occupied(client.slots) }

  lemma {:induction false} PutFirst(slots: seq<Option<nat>>, d: nat, i: nat) returns (k: nat)
    requires i <= |slots|
    ensures i <= k <= |slots| && forall j :: i <= j < k ==> slots[j] != None && slots[j] != Some(d)
    ensures k < |slots| ==> slots[k] == None || slots[k] == Some(d)
    ensures PutFrom(slots, d, i) == if k < |slots| then slots[k := Some(d)] else slots
    decreases |slots| - i
  {
    k := i;
    if i < |slots| && slots[i] != Some(d) && slots[i] != None {
      k := PutFirst(slots, d, i + 1);
    }
  }

  /**
    With a counter that covers the slots in use, an attach writes the first slot that is free or holds
    the device already, through the shortcut or not, and no other.  So no other device is lost, and the
    device is recorded exactly when it, or a free slot, was there.
  */
  lemma {:induction false} RecordsDevice(client: Client, d: nat) returns (k: nat)
    requires |client.slots| == NUM_DEVICES && Covers(client)
    ensures k <= NUM_DEVICES && forall j :: 0 <= j < k ==> client.slots[j] != None && client.slots[j] != Some(d)
    ensures k < NUM_DEVICES ==> client.slots[k] == None || client.slots[k] == Some(d)
    ensures Record(client, d).slots == if k < NUM_DEVICES then client.slots[k := Some(d)] else client.slots
    ensures Some(d) in Record(client, d).slots <==> Some(d) in client.slots || None in client.slots
    ensures forall x: nat :: x != d ==> (Some(x) in Record(client, d).slots <==> Some(x) in client.slots)
  {
    if client.num == 0 {
      NoneOccupied(client.slots);
      assert client.slots[0] == None;
    }
    k := PutFirst(client.slots, d, 0);
    assert client.slots[0..] == client.slots && PutFrom(client.slots, d, 0)[0..] == PutFrom(client.slots, d, 0);
    PutRecords(client.slots, d, 0);
  }

  lemma {:induction false} RecordCovers(client: Client, d: nat)
    requires |client.slots| == NUM_DEVICES && Covers(client)
    ensures Covers(Record(client, d))
  {
    if client.num == 0 {
      OccupiedUpdate(client.slots, 0, Some(d));
    } else {
      PutCounts(client.slots, d, 0);
    }
  }

  lemma {:induction false} AttachCovers(dev: Dev, live: set<Chunk>, client: Client, d: nat, flags: set<Flag>,
          host: Host, policy: Policy)
    requires |dev.regs| == 7 && |client.slots| == NUM_DEVICES && Covers(client)
    ensures Covers(AttachTo(dev, live, client, d, flags, host, policy).client)
  {
    RecordCovers(client, d);
    RecordCovers(client.(lockflg := client.lockflg + 1), d);
  }

  lemma {:induction false} DetachCovers(dev: Dev, live: set<Chunk>, client: Client, d: nat, close: bool, host: Host)
    requires |dev.regs| == 7 && Covers(client)
    ensures Covers(DetachFrom(dev, live, client, d, close, host).client)
  {
    ForgetCounts(Paid(dev, client, close), d, 0);
  }

  ghost predicate AllCover(w: World) { forall c :: 0 <= c < |w.clients| ==> Covers(w.clients[c]) }

  lemma {:induction false} CloseCovers(w: World, c: nat, i: nat, host: Host)
    requires AllCover(w) && c < |w.clients| && i <= NUM_DEVICES && |w.clients[c].slots| == NUM_DEVICES
    ensures AllCover(CloseFrom(w, c, i, host))
    decreases NUM_DEVICES - i
  {
    if i < NUM_DEVICES {
      match w.clients[c].slots[i]
      case Some(d) =>
        if d < |w.devs| && |w.devs[d].regs| == 7 {
          DetachCovers(w.devs[d], w.live, w.clients[c], d, true, host);
          CloseCovers(DetachOne(w, d, c, true, host), c, i + 1, host);
        } else {
          CloseCovers(w, c, i + 1, host);
        }
      case None => CloseCovers(w, c, i + 1, host);
    }
  }

  lemma {:induction false} NextCovers(w: World, e: Event, host: Host)
    requires AllCover(w) && Possible(w, e)
    ensures AllCover(Next(w, e, host))
  {
    match e
    case Attach(d, c, flags, policy) => AttachCovers(w.devs[d], w.live, w.clients[c], d, flags, host, policy);
    case Detach(d, c, close) => DetachCovers(w.devs[d], w.live, w.clients[c], d, close, host);
    case Close(c) => CloseCovers(w, c, 0, host);
    case Others(_) =>
  }

  /**
    `num_devices` never falls below the number of occupied slots, so the shortcut that writes slot 0
    when it is zero never overwrites a device.  This holds whatever the calls return.
  */
  lemma {:induction false} SlotZeroIsFree(ws: seq<World>, es: seq<Event>, host: Host, i: nat)
    requires IsCourse(ws, es, host) && AllCover(ws[0]) && i < |ws|
    ensures AllCover(ws[i])
    ensures forall c, k :: 0 <= c < |ws[i].clients| && 0 <= k < |ws[i].clients[c].slots| && ws[i].clients[c].num == 0 ==>
              ws[i].clients[c].slots[k] == None
  {
    if i > 0 {
      SlotZeroIsFree(ws, es, host, i - 1);
      NextCovers(ws[i - 1], es[i - 1], host);
    }
    forall c | 0 <= c < |ws[i].clients| && ws[i].clients[c].num == 0
      ensures forall k :: 0 <= k < |ws[i].clients[c].slots| ==> ws[i].clients[c].slots[k] == None
    {
      NoneOccupied(ws[i].clients[c].slots);
    }
  }

  lemma {:induction false} DetachFrees(w: World, d: nat, c: nat, i: nat, host: Host)
    requires Shaped(w) && d < |w.devs| && c < |w.clients| && i < NUM_DEVICES && w.clients[c].slots[i] == Some(d)
    requires forall k :: 0 <= k < i ==> w.clients[c].slots[k] == None
    ensures var client := DetachOne(w, d, c, true, host).clients[c];
            |client.slots| == NUM_DEVICES && forall k :: 0 <= k < i + 1 ==> client.slots[k] == None
  {
    ForgetCounts(Paid(w.devs[d], w.clients[c], true), d, 0);
  }

  /** Closing leaves no slot occupied. */
  lemma {:induction false} CloseEmpties(w: World, c: nat, i: nat, host: Host)
    requires Shaped(w) && c < |w.clients| && i <= NUM_DEVICES
    requires forall k :: 0 <= k < i ==> w.clients[c].slots[k] == None
    ensures var client := CloseFrom(w, c, i, host).clients[c];
            |client.slots| == NUM_DEVICES && forall k :: 0 <= k < NUM_DEVICES ==> client.slots[k] == None
    decreases NUM_DEVICES - i
  {
    if i < NUM_DEVICES {
      match w.clients[c].slots[i]
      case Some(d) =>
        var next := DetachOne(w, d, c, true, host);
        DetachOneShaped(w, d, c, true, host);
        DetachFrees(w, d, c, i, host);
        CloseEmpties(next, c, i + 1, host);
      case None => CloseEmpties(w, c, i + 1, host);
    }
  }

  // ---------------------------------------------------------------- closing as a method

  /** The devices of the server are distinct objects. */
  ghost predicate Separate(devices: seq<Device>)
    reads devices
  {
    && (forall i :: 0 <= i < |devices| ==> devices[i].Valid())
    && (forall i, j :: 0 <= i < j < |devices| ==> devices[i] != devices[j] && devices[i].regs != devices[j].regs)
  }

  /** The server, with one client, as a value. */
  ghost predicate Portrays(w: World, devices: seq<Device>, list: DevList, db: ResourceDb)
    reads devices, set i | 0 <= i < |devices| :: devices[i].regs, list, list.devList, db
  {
    && |w.devs| == |devices| && (forall i :: 0 <= i < |devices| ==> w.devs[i] == devices[i].Value())
    && w.clients == [list.Value()] && w.live == db.live
  }

  method DetachNumber(devices: seq<Device>, d: nat, list: DevList, db: ResourceDb, host: Host, ghost w: World)
    returns (ghost r: World)
    requires Separate(devices) && list.Valid() && db.Valid() && d < |devices| && Portrays(w, devices, list, db)
    modifies devices[d], devices[d].regs, list, list.devList, db
    ensures Separate(devices) && list.Valid() && db.Valid() && |w.devs[d].regs| == 7
    ensures r == DetachOne(w, d, 0, true, host) && Portrays(r, devices, list, db)
  {
    r := DetachOne(w, d, 0, true, host);
    DetachDevice(devices[d], list, d, true, db, host);
  }

  /** One round of the loop over the slots. */
  method CloseSlot(devices: seq<Device>, i: nat, list: DevList, db: ResourceDb, host: Host, ghost w: World)
    returns (ghost r: World)
    requires Separate(devices) && list.Valid() && db.Valid() && i < NUM_DEVICES && Portrays(w, devices, list, db) && Shaped(w)
    modifies devices, set i | 0 <= i < |devices| :: devices[i].regs, list, list.devList, db
    ensures Separate(devices) && list.Valid() && db.Valid() && Portrays(r, devices, list, db) && Shaped(r)
    ensures CloseFrom(w, 0, i, host) == CloseFrom(r, 0, i + 1, host)
  {
    r := w;
    var slot := list.devList[i];
    assert w.clients[0].slots[i] == slot;
    if slot.Some? {
      DetachOneShaped(w, slot.value, 0, true, host);
      r := DetachNumber(devices, slot.value, list, db, host, w);
    }
  }

  /** `PCI_OcbFree`; `w` is the state before and `r` the state after. */
  method OcbFree(devices: seq<Device>, list: DevList, db: ResourceDb, host: Host, ghost w: World)
    returns (ghost r: World)
    requires Separate(devices) && list.Valid() && db.Valid() && Portrays(w, devices, list, db) && Shaped(w)
    modifies devices, set i | 0 <= i < |devices| :: devices[i].regs, list, list.devList, db
    ensures Separate(devices) && list.Valid() && db.Valid()
    ensures r == CloseFrom(w, 0, 0, host) && Portrays(r, devices, list, db)
    ensures forall k :: 0 <= k < NUM_DEVICES ==> list.devList[k] == None
  {
    CloseEmpties(w, 0, 0, host);
    r := w;
    var i := 0;
    while i < NUM_DEVICES
      invariant 0 <= i <= NUM_DEVICES && Separate(devices) && list.Valid() && db.Valid()
      invariant Portrays(r, devices, list, db) && Shaped(r)
      invariant CloseFrom(r, 0, i, host) == CloseFrom(w, 0, 0, host)
    {
      r := CloseSlot(devices, i, list, db, host, r);
      i := i + 1;
    }
  }
}
