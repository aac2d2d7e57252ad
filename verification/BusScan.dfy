/**
  The depth-first scan that numbers the buses: `setup_pci2pci_bridges` with the parts of
  `configure_bridge`, `scan_device` and `traverse_back` that it needs, over a finite tree of
  PCI-to-PCI bridges.
*/
module BusScan {
  import opened Common
  import opened BusTree
  import opened BusAlloc

  // ---------------------------------------------------------------- hardware

  /** A physical bus; functions past the end of the list are absent and read as all ones. */
  datatype Bus = Bus(fns: seq<Fn>)

  /** A function: vendor/device dword, class code, header type byte, and the bus behind it. */
  datatype Fn = Fn(id: nat, classCode: nat, header: nat, below: Bus)

  const ALL_ONES := 0xffffffff
  const CLASS_BRIDGE := 0x06

  function IdAt(hw: Bus, devfn: nat): (r: nat) { if devfn < |hw.fns| then hw.fns[devfn].id else ALL_ONES }

  function ClassAt(hw: Bus, devfn: nat): (r: nat) { if devfn < |hw.fns| then hw.fns[devfn].classCode else 0xffffff }

  function HeaderAt(hw: Bus, devfn: nat): (r: nat) { if devfn < |hw.fns| then hw.fns[devfn].header else 0xff }

  /** The class code is neither all zeroes nor all ones. */
  predicate HasClass(hw: Bus, devfn: nat) {
    ClassAt(hw, devfn) != 0 && ClassAt(hw, devfn) != 0xffffff
  }

  /** Function 0 of a device decides whether the other seven are looked at. */
  predicate MultiFunction(hw: Bus, devfn: nat) {
    HasClass(hw, devfn) && IdAt(hw, devfn) != ALL_ONES && HeaderAt(hw, devfn) / 128 % 2 == 1
  }

  /** The two scan loops reach this function. */
  predicate Visited(hw: Bus, devfn: nat) {
    devfn % 8 == 0 || MultiFunction(hw, devfn - devfn % 8)
  }

  /** A function of the bridge class whose header type is `kind`. */
  predicate BridgeOf(hw: Bus, devfn: nat, kind: nat) {
    && Visited(hw, devfn) && HasClass(hw, devfn)
    && (devfn % 8 == 0 ==> IdAt(hw, devfn) != ALL_ONES)
    && ClassAt(hw, devfn) / 0x10000 % 0x100 == CLASS_BRIDGE
    && HeaderAt(hw, devfn) % 128 == kind
  }

  /** A PCI-to-PCI bridge (header type 1) that the scan will number. */
  predicate IsBridge(hw: Bus, devfn: nat) {
    devfn < |hw.fns| && BridgeOf(hw, devfn, 1)
  }

  /** No CardBus bridges anywhere, and an absent function reads as all ones throughout. */
  predicate Plain(hw: Bus) {
    forall k :: 0 <= k < |hw.fns| ==>
      && !BridgeOf(hw, k, 2)
      && (HasClass(hw, k) ==> IdAt(hw, k) != ALL_ONES)
      && (IsBridge(hw, k) ==> Plain(hw.fns[k].below))
  }

  // ---------------------------------------------------------------- the steps

  /** `Fault` stands for following a null pointer. */
  datatype Ret = Zero | MinusOne | Fault

  /** Position of the listed bridge function, or the length of the list. */
  function BridgeAt(brs: seq<Bridge>, bus: nat, devfn: nat): (r: nat)
    ensures r <= |brs|
    ensures r < |brs| ==> brs[r].bus == bus && brs[r].devfn == devfn
    ensures forall k :: 0 <= k < r ==> !(brs[k].bus == bus && brs[k].devfn == devfn)
  {
    if brs == [] || (brs[0].bus == bus && brs[0].devfn == devfn) then 0
    else 1 + BridgeAt(brs[1..], bus, devfn)
  }

  /** The number a bridge function is given; an unlisted one is appended to the list. */
  function PickNumber(s: Scan, bus: nat, devfn: nat): (r: (Scan, nat))
    ensures r.0.nodes == s.nodes
  {
    var b := BridgeAt(s.bridges, bus, devfn);
    if b < |s.bridges| then (s, if s.bridges[b].sec != 0 then s.bridges[b].sec else s.lastbus)
    else (s.(bridges := s.bridges + [Bridge(bus, devfn, 0, 0)]), s.lastbus)
  }

  /** `find_bus`, and `alloc_bus` when that finds nothing. */
  ghost function FindOrAlloc(s: Scan, bus: nat, sec: nat): (r: (Scan, Option<nat>))
    requires TreeShape(s.nodes)
    ensures TreeShape(r.0.nodes) && r.0.bridges == s.bridges
    ensures r.1.Some? ==> r.1.value < |r.0.nodes|
  {
    match Find(s.nodes, sec)
    case Some(i) => (s, Some(i))
    case None => Alloc(s, bus, sec)
  }

  /** `configure_bridge`: the subordinate register is opened up until the subtree is numbered. */
  ghost function Configure(s: Scan, bus: nat, devfn: nat, sec: nat, header: nat): (r: Scan)
    requires TreeShape(s.nodes)
    ensures TreeShape(r.nodes) && r.bridges == s.bridges
  {
    var (t, i) := FindOrAlloc(s, bus, sec);
    if i.None? || header == 0 then t
    else t.(regs := t.regs[Address(bus, devfn) := BusRegs(bus, sec, 255)])
  }

  function SetDev(ns: seq<Node>, i: nat, dev: BridgeFn): (r: seq<Node>)
    requires i < |ns|
    ensures |r| == |ns|
  {
    ns[i := ns[i].(dev := Some(dev))]
  }

  lemma {:induction false} DevDoesNotShape(ns: seq<Node>, i: nat, dev: BridgeFn)
    requires TreeShape(ns) && i < |ns|
    ensures TreeShape(SetDev(ns, i, dev))
  {
    var r := SetDev(ns, i, dev);
    forall p: nat, k: nat ensures KidOk(r, p, k) {
      assert KidOk(ns, p, k);
    }
    forall j: nat ensures HangsOk(r, j) && KidsDistinct(r, j) {
      assert HangsOk(ns, j) && KidsDistinct(ns, j);
    }
  }

  /** `scan_device` as far as the bus structures go: the first device found for a bus is linked to it. */
  ghost function ScanDevice(s: Scan, bus: nat, sec: nat, devfn: nat, header: nat, code: nat): (r: (Scan, Ret))
    requires TreeShape(s.nodes)
    ensures TreeShape(r.0.nodes) && r.0.bridges == s.bridges
  {
    var (t, i) := FindOrAlloc(s, bus, sec);
    if i.None? then (t, MinusOne)
    else if t.nodes[i.value].dev.Some? then (t, Zero)
    else
      DevDoesNotShape(t.nodes, i.value, BridgeFn(bus, devfn, header, code));
      (t.(nodes := SetDev(t.nodes, i.value, BridgeFn(bus, devfn, header, code))), Zero)
  }

  function IndexIn(ks: seq<nat>, c: nat): (r: nat)
    ensures r <= |ks|
    ensures c in ks ==> r < |ks| && ks[r] == c
    ensures forall k :: 0 <= k < r ==> ks[k] != c
  {
    if ks == [] || ks[0] == c then 0 else 1 + IndexIn(ks[1..], c)
  }

  /** `prev` leads upwards, or to an earlier child of the same node. */
  lemma {:induction false} PrevDecreases(ns: seq<Node>, i: nat)
    requires TreeShape(ns) && 0 < i < |ns|
    ensures 0 <= ns[i].parent < i && 0 <= ns[i].prev < |ns|
    ensures var j, p := ns[i].prev, ns[i].parent;
            (j == p && ns[j].parent < p) ||
            (ns[j].parent == p && IndexIn(ns[p].kids, j) < IndexIn(ns[p].kids, i))
  {
    assert HangsOk(ns, i);
    var p := ns[i].parent;
    var k := IndexIn(ns[p].kids, i);
    assert KidOk(ns, p, k);
    if ns[i].prev == p {
      assert HangsOk(ns, p);
    } else {
      assert KidOk(ns, p, k - 1);
      assert KidsDistinct(ns, p);
    }
  }

  ghost function Position(ns: seq<Node>, i: nat): (r: nat)
    requires i < |ns|
  {
    if 0 <= ns[i].parent < |ns| then IndexIn(ns[ns[i].parent].kids, i) else 0
  }

  /** The loop over `prev` in `traverse_back`: wider subordinate numbers on the way to the root. */
  ghost function Climb(ns: seq<Node>, i: nat, bus: nat, sub: nat): (r: seq<Node>)
    requires TreeShape(ns) && i < |ns|
    ensures TreeShape(r) && |r| == |ns|
    decreases if ns[i].parent < 0 then 0 else ns[i].parent + 1, Position(ns, i)
  {
    if i == 0 then ns
    else
      PrevDecreases(ns, i);
      var j := ns[i].prev;
      if ns[j].dev.None? then ns
      else
        var wider := if ns[j].dev.value.bus != bus && ns[j].sub < sub then SetSub(ns, j, sub) else ns;
        SubDoesNotShape(ns, j, sub);
        Climb(wider, j, bus, sub)
  }

  /** The list entry of a bridge once the bus behind it is numbered. */
  function Settle(br: Bridge, sec: nat, sub: nat): (r: Bridge) {
    br.(sec := sec, sub := if br.sub < sub || br.sub == 0xff then sub else br.sub)
  }

  /** The first half of `traverse_back`: node `i` gets its subordinate number, in all three places. */
  ghost function SettleNode(s: Scan, i: nat, sub: nat): (r: Scan)
    requires TreeShape(s.nodes) && i < |s.nodes| && s.nodes[i].dev.Some?
    ensures TreeShape(r.nodes) && |r.nodes| == |s.nodes| && |r.bridges| == |s.bridges|
  {
    var dev := s.nodes[i].dev.value;
    var end := if s.nodes[i].kids == [] then s.cur else sub;
    var b := BridgeAt(s.bridges, dev.bus, dev.devfn);
    SubDoesNotShape(s.nodes, i, end);
    var t := if dev.header != 1 then s
             else s.(nodes := SetSub(s.nodes, i, end),
                     regs := s.regs[Address(dev.bus, dev.devfn) := BusRegs(dev.bus, s.cur, end)],
                     bridges := if b == |s.bridges| then s.bridges
                                else s.bridges[b := Settle(s.bridges[b], s.cur, sub)]);
    t.(cur := s.nodes[i].pri, endbus := if s.nodes[i].pri == 0 then 0 else t.endbus)
  }

  /** `traverse_back`, with the end of the numbers handed out so far as argument. */
  ghost function Traverse(s: Scan, sub: nat): (r: (Scan, Ret))
    requires TreeShape(s.nodes)
    ensures TreeShape(r.0.nodes) && |r.0.bridges| == |s.bridges|
  {
    match Find(s.nodes, s.cur)
    case None => (s, MinusOne)
    case Some(i) =>
      if s.nodes[i].dev.None? then (s, Fault)
      else
        var t := SettleNode(s, i, sub);
        (t.(nodes := Climb(t.nodes, i, s.nodes[i].dev.value.bus, sub)), Zero)
  }

  /** A bridge function, of class `code`, is listed, numbered, linked and given its registers. */
  ghost function Enter(s: Scan, bus: nat, devfn: nat, code: nat): (r: (Scan, nat, Ret))
    requires TreeShape(s.nodes)
    ensures TreeShape(r.0.nodes)
  {
    var (t, lb) := PickNumber(s, bus, devfn);
    var u := Configure(t, bus, devfn, lb, 1);
    var (v, ret) := ScanDevice(u, bus, lb, devfn, 1, code);
    (v, lb, ret)
  }

  /** After the call for the bus behind a bridge: settle the bridge, or return early. */
  ghost function Resume(v: Scan, inner: Ret): (r: (Scan, Option<Ret>))
    requires TreeShape(v.nodes)
    ensures TreeShape(r.0.nodes)
  {
    match inner
    case Fault => (v, Some(Fault))
    case MinusOne => (v, None)
    case Zero =>
      var (w, back) := Traverse(v, v.endbus);
      (w, if back == Zero then None else Some(if back == MinusOne then Zero else back))
  }

  /** `setup_pci2pci_bridges` from function `devfn` of the physical bus `hw`, numbered `bus`. */
  ghost function Setup(s: Scan, hw: Bus, devfn: nat, bus: nat): (r: (Scan, Ret))
    requires TreeShape(s.nodes) && devfn <= 256
    ensures TreeShape(r.0.nodes)
    decreases hw, 256 - devfn, 2
  {
    if devfn == 256 then (s, Zero)
    else if Visited(hw, devfn) then SetupFunction(s.(cur := bus), hw, devfn, bus)
    else Setup(s, hw, devfn + 1, bus)
  }

  /** The body of the function loop. */
  ghost function SetupFunction(s: Scan, hw: Bus, devfn: nat, bus: nat): (r: (Scan, Ret))
    requires TreeShape(s.nodes) && devfn < 256
    ensures TreeShape(r.0.nodes)
    decreases hw, 256 - devfn, 1
  {
    if !IsBridge(hw, devfn) then Setup(s, hw, devfn + 1, bus)
    else if s.bridges == [] then (s, Fault)
    else SetupBridge(s, hw, devfn, bus)
  }

  /** A PCI-to-PCI bridge: number it, scan behind it, settle it, go on. */
  ghost function SetupBridge(s: Scan, hw: Bus, devfn: nat, bus: nat): (r: (Scan, Ret))
    requires TreeShape(s.nodes) && devfn < 256 && IsBridge(hw, devfn)
    ensures TreeShape(r.0.nodes)
    decreases hw, 256 - devfn, 0
  {
    var (u, lb, ret) := Enter(s, bus, devfn, ClassAt(hw, devfn));
    if ret != Zero then (u, ret)
    else
      var (v, inner) := Setup(u, hw.fns[devfn].below, 0, lb);
      var (w, stop) := Resume(v, inner);
      if stop.Some? then (w, stop.value) else Setup(w, hw, devfn + 1, bus)
  }

  /** The list `find_bridges` makes when only bus 0 answers and no bus number is programmed. */
  function ListBridges(hw: Bus, devfn: nat): (r: seq<Bridge>)
    requires devfn <= 256
    decreases 256 - devfn
  {
    if devfn == 256 then []
    else if Visited(hw, devfn) && HasClass(hw, devfn) && IdAt(hw, devfn) != ALL_ONES
            && HeaderAt(hw, devfn) % 128 == 1
    then [Bridge(0, devfn, 0, 0)] + ListBridges(hw, devfn + 1)
    else ListBridges(hw, devfn + 1)
  }

  /** `find_bridges` and the first part of `find_host_bridge`: bus 0 with its host bridge. */
  ghost function Prepare(hw: Bus, host: nat): (r: (Scan, Ret))
    ensures TreeShape(r.0.nodes)
  {
    var s := Configure(Scan([], 0, 0, 0, ListBridges(hw, 0), map[]), 0, host, 0, 0);
    ScanDevice(s, 0, if s.lastbus > 0 then s.lastbus - 1 else 0, host, 0, ClassAt(hw, host))
  }

  /** `endbus` is assigned the return value of the scan. */
  function ReturnByte(ret: Ret): (r: nat) {
    if ret == MinusOne then 255 else 0
  }

  /** Cold start with the host bridge at function `host` of bus 0. */
  ghost function ColdStart(hw: Bus, host: nat): (r: (Scan, Ret)) {
    var (s, ret) := Prepare(hw, host);
    if ret != Zero then (s, ret)
    else
      var (t, inner) := Setup(s, hw, 0, 0);
      (t.(endbus := ReturnByte(inner)), inner)
  }
}
