/**
  The bus scan as the server runs it: `BUSMAP` objects linked by `next`, `peer` and `prev`, and the
  file-scope counters, updated in place.  Every method is tied to the function that specifies it.
*/
module BusServer {
  import opened Common
  import opened BusTree
  import opened BusAlloc
  import opened BusScan

  /** The part of `struct _server_device` that says where a device sits and what it is. */
  class DeviceSite {
    const bus: nat
    const devfn: nat
    const header: nat
    const classCode: nat

    constructor (bus: nat, devfn: nat, header: nat, classCode: nat)
      ensures this.bus == bus && this.devfn == devfn && this.header == header && this.classCode == classCode
    {
      this.bus := bus;
      this.devfn := devfn;
      this.header := header;
      this.classCode := classCode;
    }
  }

  class BusMap {
    var next: BusMap?
    var prev: BusMap?
    var peer: BusMap?
    var bdev: DeviceSite?
    var primary: nat
    var secondary: nat
    var subordinate: nat

    constructor (primary: nat, secondary: nat)
      ensures this.primary == primary && this.secondary == secondary && subordinate == 0
      ensures next == null && prev == null && peer == null && bdev == null
    {
      this.primary := primary;
      this.secondary := secondary;
      subordinate := 0;
      next, prev, peer, bdev := null, null, null, null;
    }
  }

  function DevOf(d: DeviceSite?): (r: Option<BridgeFn>) {
    if d == null then None else Some(BridgeFn(d.bus, d.devfn, d.header, d.classCode))
  }

  /** The object at position `i`, or null for a position outside the sequence. */
  function At(objs: seq<BusMap>, i: int): (r: BusMap?) {
    if 0 <= i < |objs| then objs[i] else null
  }

  /** The first object of a child list. */
  function Head(objs: seq<BusMap>, ks: seq<nat>): (r: BusMap?) {
    if ks == [] then null else At(objs, ks[0])
  }

  /** Object `i` holds the numbers and the links of node `i`. */
  predicate Mirrors(objs: seq<BusMap>, ns: seq<Node>, i: nat)
    reads objs
  {
    i < |objs| == |ns| ==>
      var o, n := objs[i], ns[i];
      && o.primary == n.pri && o.secondary == n.sec && o.subordinate == n.sub
      && o.next == Head(objs, n.kids) && o.prev == At(objs, n.prev) && DevOf(o.bdev) == n.dev
  }

  /** The entry after position `k`, or -1. */
  function Following(ks: seq<nat>, k: int): (r: int)
    requires -1 <= k
  {
    if k + 1 < |ks| then ks[k + 1] else -1
  }

  /** The k-th child of node `p` points to the child after it. */
  predicate Chained(objs: seq<BusMap>, ns: seq<Node>, p: nat, k: nat)
    reads objs
  {
    p < |objs| == |ns| && k < |ns[p].kids| && ns[p].kids[k] < |objs| ==>
      objs[ns[p].kids[k]].peer == At(objs, Following(ns[p].kids, k))
  }

  /** `Chained`, with the `peer` fields given as a sequence. */
  predicate PeerOk(objs: seq<BusMap>, ns: seq<Node>, peers: seq<BusMap?>, p: nat, k: nat) {
    p < |objs| == |ns| == |peers| && k < |ns[p].kids| && ns[p].kids[k] < |objs| ==>
      peers[ns[p].kids[k]] == At(objs, Following(ns[p].kids, k))
  }

  /** The `peer` fields after a new object is linked behind the (k-1)-th child of `p`. */
  function Relinked(os: seq<BusMap>, peers: seq<BusMap?>, ks: seq<nat>, k: nat, newMap: BusMap): (r: seq<BusMap?>)
    requires 0 < k <= |ks| && ks[k - 1] < |peers|
  {
    peers[ks[k - 1] := newMap] + [At(os, Following(ks, k - 1))]
  }

  /** That chains the child list of `p` and leaves every other list alone. */
  lemma {:induction false} PeersAfterLink(os: seq<BusMap>, ns: seq<Node>, peers: seq<BusMap?>, newMap: BusMap, p: nat,
          pri: nat, sec: nat, k: nat, q: nat, j: nat)
    requires TreeShape(ns) && |os| == |ns| == |peers| && p < |ns| && 0 < k <= |ns[p].kids|
    requires k == InsertPos(ns, ns[p].kids, sec) && ns[p].kids[k - 1] < |ns|
    requires forall q: nat, j: nat {:trigger PeerOk(os, ns, peers, q, j)} :: PeerOk(os, ns, peers, q, j)
    ensures PeerOk(os + [newMap], AddNode(ns, p, pri, sec), Relinked(os, peers, ns[p].kids, k, newMap), q, j)
  {
    var ks, n := ns[p].kids, |ns|;
    AddNodeFrame(ns, p, pri, sec);
    AddNodeKids(ns, p, pri, sec);
    assert KidOk(ns, p, k - 1) && KidsDistinct(ns, p);
    assert KidOk(ns, q, j) && KidOk(ns, q, j + 1);
    if q != p {
      assert PeerOk(os, ns, peers, q, j);
    } else if j < k {
      assert PeerOk(os, ns, peers, p, j);
    } else if j == k {
      assert KidOk(ns, p, k);
    } else {
      assert PeerOk(os, ns, peers, p, j - 1);
      assert KidOk(ns, p, j - 1);
    }
  }

  /** `next` and `prev` lead to nodes of the same tree. */
  lemma {:induction false} LinksInside(ns: seq<Node>, i: nat)
    requires TreeShape(ns)
    ensures i < |ns| ==> -1 <= ns[i].prev < |ns| && (ns[i].kids != [] ==> ns[i].kids[0] < |ns|)
  {
    if 0 < i < |ns| {
      PrevDecreases(ns, i);
    }
  }

  /** The functions of a single-function device after the first are not looked at. */
  lemma {:induction false} SkipFunctions(s: Scan, hw: Bus, dev: nat, func: nat, bus: nat)
    requires TreeShape(s.nodes) && dev < 32 && 0 < func <= 8
    requires func == 8 || !MultiFunction(hw, 8 * dev)
    ensures Setup(s, hw, 8 * dev + func, bus) == Setup(s, hw, 8 * (dev + 1), bus)
    decreases 8 - func
  {
    if func < 8 {
      assert (8 * dev + func) % 8 == func;
      assert !Visited(hw, 8 * dev + func);
      SkipFunctions(s, hw, dev, func + 1, bus);
    }
  }

  /** The loop counters name the functions that are looked at. */
  lemma {:induction false} FunctionVisited(hw: Bus, dev: nat, func: nat)
    requires func < 8 && (func > 0 ==> MultiFunction(hw, 8 * dev))
    ensures Visited(hw, 8 * dev + func)
  {
    assert (8 * dev + func) % 8 == func;
  }

  /** The fields of an object that `Mirrors` reads. */
  datatype Fields = Fields(pri: nat, sec: nat, sub: nat, next: BusMap?, prev: BusMap?, dev: Option<BridgeFn>)

  function FieldsOf(o: BusMap): (r: Fields)
    reads o
  {
    Fields(o.primary, o.secondary, o.subordinate, o.next, o.prev, DevOf(o.bdev))
  }

  /** `Mirrors`, with the fields given as a value. */
  predicate FieldsOk(objs: seq<BusMap>, ns: seq<Node>, f: Fields, i: nat) {
    i < |objs| == |ns| ==>
      var n := ns[i];
      f == Fields(n.pri, n.sec, n.sub, Head(objs, n.kids), At(objs, n.prev), n.dev)
  }

  /** Linking behind the (k-1)-th child of `p` changes one `prev`: that of the child pushed aside. */
  lemma {:induction false} FieldsAfterLink(os: seq<BusMap>, ns: seq<Node>, newMap: BusMap, p: nat, pri: nat, sec: nat,
          k: nat, f: Fields, i: nat)
    requires TreeShape(ns) && |os| == |ns| && p < |ns| && 0 < k <= |ns[p].kids|
    requires k == InsertPos(ns, ns[p].kids, sec) && i < |os| && FieldsOk(os, ns, f, i)
    ensures FieldsOk(os + [newMap], AddNode(ns, p, pri, sec),
                     if k < |ns[p].kids| && i == ns[p].kids[k] then f.(prev := newMap) else f, i)
  {
    AddNodeFrame(ns, p, pri, sec);
    AddNodeKids(ns, p, pri, sec);
    LinksInside(ns, i);
    assert KidOk(ns, p, k);
  }

  /** Exactly the fields that linking changes have changed: the linked objects are the new tree. */
  lemma {:induction false} LinkedIsTree(os: seq<BusMap>, ns: seq<Node>, fields: seq<Fields>, peers: seq<BusMap?>,
          newMap: BusMap, p: nat, k: nat)
    requires TreeShape(ns) && |os| == |ns| == |fields| == |peers| && p < |ns|
    requires 0 < k <= |ns[p].kids| && k == InsertPos(ns, ns[p].kids, newMap.secondary)
    requires forall i: nat :: i < |os| ==> FieldsOk(os, ns, fields[i], i)
    requires forall q: nat, j: nat {:trigger PeerOk(os, ns, peers, q, j)} :: PeerOk(os, ns, peers, q, j)
    requires forall i :: 0 <= i < |os| ==>
      FieldsOf(os[i]) == if k < |ns[p].kids| && i == ns[p].kids[k] then fields[i].(prev := newMap) else fields[i]
    requires forall i :: 0 <= i < |os| ==> os[i].peer == if i == ns[p].kids[k - 1] then newMap else peers[i]
    requires FieldsOf(newMap) == Fields(newMap.primary, newMap.secondary, 0, null, os[p], None)
    requires newMap.peer == At(os, Following(ns[p].kids, k - 1))
    ensures var objs, nodes := os + [newMap], AddNode(ns, p, newMap.primary, newMap.secondary);
            && (forall i: nat {:trigger Mirrors(objs, nodes, i)} :: Mirrors(objs, nodes, i))
            && (forall q: nat, j: nat {:trigger Chained(objs, nodes, q, j)} :: Chained(objs, nodes, q, j))
  {
    var pri, sec, ks := newMap.primary, newMap.secondary, ns[p].kids;
    var objs, nodes := os + [newMap], AddNode(ns, p, pri, sec);
    AddNodeFrame(ns, p, pri, sec);
    assert KidOk(ns, p, k - 1);
    forall i: nat ensures Mirrors(objs, nodes, i) {
      if i < |os| {
        FieldsAfterLink(os, ns, newMap, p, pri, sec, k, fields[i], i);
      }
    }
    forall q: nat, j: nat ensures Chained(objs, nodes, q, j) {
      PeersAfterLink(os, ns, peers, newMap, p, pri, sec, k, q, j);
      assert forall i :: 0 <= i <= |os| ==> objs[i].peer == Relinked(os, peers, ks, k, newMap)[i];
    }
  }

  /** `ks` is what is left of the children of `p`, or the root alone. */
  ghost predicate Siblings(ns: seq<Node>, p: int, ks: seq<nat>) {
    if p < 0 then ks == [] || ks == [0]
    else p < |ns| && |ks| <= |ns[p].kids| && ks == ns[p].kids[|ns[p].kids| - |ks|..]
  }

  class Server {
    var busMap: BusMap?
    var lastbus: nat
    var endbus: nat
    var curScanBus: nat
    var bridges: seq<Bridge>
    var regs: map<Address, BusRegs>
    ghost var objs: seq<BusMap>
    ghost var nodes: seq<Node>

    ghost function View(): (r: Scan)
      reads this
    {
      Scan(nodes, lastbus, endbus, curScanBus, bridges, regs)
    }

    ghost predicate Distinct()
      reads this`objs
    {
      forall i, j :: 0 <= i < j < |objs| ==> objs[i] != objs[j]
    }

    /** The linked objects are exactly the tree of nodes. */
    ghost predicate Valid()
      reads this`busMap, this`objs, this`nodes, objs
    {
      && |objs| == |nodes| && Distinct() && TreeShape(nodes)
      && busMap == At(objs, 0) && (objs != [] ==> objs[0].peer == null)
      && (forall i: nat {:trigger Mirrors(objs, nodes, i)} :: Mirrors(objs, nodes, i))
      && (forall p: nat, k: nat {:trigger Chained(objs, nodes, p, k)} :: Chained(objs, nodes, p, k))
    }

    /** The structure at the head of a sibling list is that node, and its links lead on. */
    lemma {:induction false} AtHead(p: int, ks: seq<nat>)
      requires Valid() && Siblings(nodes, p, ks) && ks != [] && ks[0] < |nodes|
      ensures var i := ks[0];
              && Siblings(nodes, p, ks[1..]) && Siblings(nodes, i, nodes[i].kids)
              && objs[i].peer == Head(objs, ks[1..]) && objs[i].next == Head(objs, nodes[i].kids)
              && objs[i].secondary == nodes[i].sec && objs[i].subordinate == nodes[i].sub
    {
      if p >= 0 {
        var all := nodes[p].kids;
        assert Chained(objs, nodes, p, |all| - |ks|);
      }
      assert Mirrors(objs, nodes, ks[0]);
    }

    /** One round of `find_bus`: from a structure with another number to the next one on the walk. */
    method StepBus(node: BusMap, bus: nat, ghost p: int, ghost ks: seq<nat>)
      returns (next: BusMap?, ghost q: int, ghost rest: seq<nat>)
      requires Valid() && Siblings(nodes, p, ks) && ks != [] && node == Head(objs, ks)
      requires -1 <= p < |nodes| && (forall k :: 0 <= k < |ks| ==> p < ks[k] < |nodes|) && nodes[ks[0]].sec != bus
      ensures -1 <= q < |nodes| && (forall k :: 0 <= k < |rest| ==> q < rest[k] < |nodes|)
      ensures Siblings(nodes, q, rest) && next == Head(objs, rest)
      ensures p < q || (p == q && |rest| < |ks|)
      ensures Walk(nodes, q, rest, bus) == Walk(nodes, p, ks, bus)
    {
      ghost var i := ks[0];
      AtHead(p, ks);
      next, q, rest := null, p, [];
      if node.secondary < bus {
        if node.subordinate < bus {
          if node.peer != null {
            next, rest := node.peer, ks[1..];
          } else if node.next != null {
            next, q, rest := node.next, i, nodes[i].kids;
          }
        } else if node.next != null {
          next, q, rest := node.next, i, nodes[i].kids;
        } else if node.peer != null {
          next, rest := node.peer, ks[1..];
        }
      } else if node.peer != null {
        next, rest := node.peer, ks[1..];
      }
    }

    /** `find_bus` */
    method FindBus(bus: nat) returns (node: BusMap?)
      requires Valid()
      ensures node == match Find(nodes, bus) case None => null case Some(i) => objs[i]
    {
      node := busMap;
      ghost var p: int, ks: seq<nat> := -1, if nodes == [] then [] else [0];
      if node != null {
        AtHead(p, ks);
      }
      while node != null && node.secondary != bus
        invariant -1 <= p < |nodes| && forall k :: 0 <= k < |ks| ==> p < ks[k] < |nodes|
        invariant Siblings(nodes, p, ks) && node == Head(objs, ks)
        invariant node != null ==> node.secondary == nodes[ks[0]].sec
        invariant Walk(nodes, p, ks, bus) == Find(nodes, bus)
        decreases |nodes| - p, |ks|
      {
        node, p, ks := StepBus(node, bus, p, ks);
        if node != null {
          AtHead(p, ks);
        }
      }
    }

    /** A fresh structure, set up for linking below node `p`. */
    ghost predicate Loose(o: BusMap, p: nat, peer: BusMap?)
      requires |objs| == |nodes|
      reads this`objs, this`nodes, o
    {
      && p < |nodes| && o !in objs && o.primary == nodes[p].sec && o.subordinate == 0
      && o.next == null && o.peer == peer && o.bdev == null && o.prev == objs[p]
    }

    /** `newMap` becomes the only child of `parent`. */
    method LinkFirst(parent: BusMap, newMap: BusMap, ghost p: nat)
      requires Valid() && Loose(newMap, p, null) && parent == objs[p] && nodes[p].kids == []
      modifies this`objs, this`nodes, parent`next
      ensures Valid() && objs == old(objs) + [newMap]
      ensures nodes == AddNode(old(nodes), p, newMap.primary, newMap.secondary)
    {
      ghost var pri, sec := newMap.primary, newMap.secondary;
      assert Mirrors(objs, nodes, p);
      parent.next := newMap;
      ghost var os, ns, n := objs, nodes, |nodes|;
      AddNodeShape(ns, p, pri, sec);
      AddNodeFrame(ns, p, pri, sec);
      AddNodeKids(ns, p, pri, sec);
      objs, nodes := os + [newMap], AddNode(ns, p, pri, sec);
      forall i: nat ensures Mirrors(objs, nodes, i) {
        assert old(Mirrors(os, ns, i));
        LinksInside(ns, i);
      }
      forall q: nat, k: nat ensures Chained(objs, nodes, q, k) {
        assert old(Chained(os, ns, q, k));
        if q < n && q != p && k < |ns[q].kids| {
          assert KidOk(ns, q, k) && KidOk(ns, q, k + 1);
        }
      }
    }

    /** `newMap` goes between the children `a` and `b` of node `p`; `b` may be missing. */
    method LinkAfter(a: BusMap, b: BusMap?, newMap: BusMap, ghost p: nat, ghost k: nat)
      requires Valid() && Loose(newMap, p, null)
      requires 0 < k <= |nodes[p].kids| && k == InsertPos(nodes, nodes[p].kids, newMap.secondary)
      requires a == objs[nodes[p].kids[k - 1]] && b == At(objs, Following(nodes[p].kids, k - 1))
      modifies this`objs, this`nodes, newMap`peer, objs
      ensures Valid() && objs == old(objs) + [newMap]
      ensures nodes == AddNode(old(nodes), p, newMap.primary, newMap.secondary)
    {
      ghost var os, ns := objs, nodes;
      ghost var ks := ns[p].kids;
      ghost var peers := seq(|os|, i requires 0 <= i < |os| reads os => os[i].peer);
      ghost var fields := seq(|os|, i requires 0 <= i < |os| reads os => FieldsOf(os[i]));
      Captured(fields, peers);
      assert KidOk(ns, p, k - 1) && KidOk(ns, p, k) && KidsDistinct(ns, p);
      Relink(a, b, newMap, ks[k - 1], Following(ks, k - 1));
      assert forall i :: 0 <= i < |os| ==> peers[i] == old(os[i].peer) && fields[i] == old(FieldsOf(os[i]));
      Adopt(fields, peers, newMap, p, k);
    }

    /** The pointer assignments: `newMap` between objects `ia` and `ib`. */
    method Relink(a: BusMap, b: BusMap?, newMap: BusMap, ghost ia: nat, ghost ib: int)
      requires Distinct() && newMap !in objs && ia < |objs| && a == objs[ia] && b == At(objs, ib) && ib < |objs|
      modifies newMap`peer, objs
      ensures newMap.peer == b
      ensures forall i :: 0 <= i < |objs| ==>
        && objs[i].peer == (if i == ia then newMap else old(objs[i].peer))
        && FieldsOf(objs[i]) == (if i == ib then old(FieldsOf(objs[i])).(prev := newMap) else old(FieldsOf(objs[i])))
    {
      newMap.peer := b;
      if b != null {
        b.prev := newMap;
      }
      a.peer := newMap;
    }

    /** The new object joins the tree once the pointers are right. */
    ghost method Adopt(fields: seq<Fields>, peers: seq<BusMap?>, newMap: BusMap, p: nat, k: nat)
      requires |objs| == |nodes| == |fields| == |peers| && Distinct() && TreeShape(nodes) && p < |nodes|
      requires busMap == At(objs, 0)
      requires 0 < k <= |nodes[p].kids| && k == InsertPos(nodes, nodes[p].kids, newMap.secondary)
      requires Loose(newMap, p, At(objs, Following(nodes[p].kids, k - 1)))
      requires forall i: nat :: i < |objs| ==> FieldsOk(objs, nodes, fields[i], i)
      requires forall q: nat, j: nat {:trigger PeerOk(objs, nodes, peers, q, j)} :: PeerOk(objs, nodes, peers, q, j)
      requires peers[0] == null
      requires forall i :: 0 <= i < |objs| ==>
        && objs[i].peer == (if i == nodes[p].kids[k - 1] then newMap else peers[i])
        && FieldsOf(objs[i]) == (if i == Following(nodes[p].kids, k - 1) then fields[i].(prev := newMap) else fields[i])
      modifies this`objs, this`nodes
      ensures Valid() && objs == old(objs) + [newMap]
      ensures nodes == AddNode(old(nodes), p, newMap.primary, newMap.secondary)
    {
      ghost var os, ns := objs, nodes;
      AddNodeShape(ns, p, newMap.primary, newMap.secondary);
      assert KidOk(ns, p, k - 1);
      objs, nodes := os + [newMap], AddNode(ns, p, newMap.primary, newMap.secondary);
      LinkedIsTree(os, ns, fields, peers, newMap, p, k);
    }

    /** The fields of the objects, taken as values. */
    lemma {:induction false} Captured(fields: seq<Fields>, peers: seq<BusMap?>)
      requires Valid() && |fields| == |peers| == |objs|
      requires forall i :: 0 <= i < |objs| ==> fields[i] == FieldsOf(objs[i]) && peers[i] == objs[i].peer
      ensures forall i: nat :: i < |objs| ==> FieldsOk(objs, nodes, fields[i], i)
      ensures forall q: nat, j: nat {:trigger PeerOk(objs, nodes, peers, q, j)} :: PeerOk(objs, nodes, peers, q, j)
    {
      forall i | 0 <= i < |objs| ensures FieldsOk(objs, nodes, fields[i], i) {
        assert Mirrors(objs, nodes, i);
      }
      forall q: nat, j: nat ensures PeerOk(objs, nodes, peers, q, j) {
        assert Chained(objs, nodes, q, j);
      }
    }

    /** The position that the peer loop stops at is unique. */
    lemma {:induction false} InsertPosIs(ks: seq<nat>, sec: nat, k: nat)
      requires forall j :: 0 <= j < |ks| ==> ks[j] < |nodes|
      requires 0 < k <= |ks| && forall j :: 0 < j < k ==> nodes[ks[j]].sec <= sec
      requires k < |ks| ==> nodes[ks[k]].sec > sec
      ensures InsertPos(nodes, ks, sec) == k
    {
      InsertPosSplits(nodes, ks, sec);
    }

    /** The linking half of `alloc_bus`. */
    method LinkBus(parent: BusMap, newMap: BusMap, ghost p: nat)
      requires Valid() && Loose(newMap, p, null) && parent == objs[p]
      modifies this`objs, this`nodes, newMap`peer, objs
      ensures Valid() && objs == old(objs) + [newMap]
      ensures nodes == AddNode(old(nodes), p, newMap.primary, newMap.secondary)
    {
      assert Mirrors(objs, nodes, p);
      if parent.next == null {
        LinkFirst(parent, newMap, p);
        return;
      }
      var node := parent.next;
      ghost var ks, k := nodes[p].kids, 0;
      assert KidOk(nodes, p, 0);
      assert Mirrors(objs, nodes, ks[0]) && Chained(objs, nodes, p, 0);
      if node.primary == newMap.primary {
        if node.peer == null {
          InsertPosIs(ks, newMap.secondary, 1);
          LinkAfter(node, null, newMap, p, 1);
        } else {
          while node.peer != null
            invariant k < |ks| && node == objs[ks[k]] && node.peer == At(objs, Following(ks, k))
            invariant forall j :: 0 < j <= k ==> nodes[ks[j]].sec <= newMap.secondary
            invariant node.peer != null
            decreases |ks| - k
          {
            var prevMap := node;
            node := node.peer;
            k := k + 1;
            assert KidOk(nodes, p, k);
            assert Mirrors(objs, nodes, ks[k]) && Chained(objs, nodes, p, k);
            if node.secondary > newMap.secondary {
              InsertPosIs(ks, newMap.secondary, k);
              LinkAfter(prevMap, node, newMap, p, k);
              return;
            } else if node.peer == null {
              InsertPosIs(ks, newMap.secondary, k + 1);
              LinkAfter(node, null, newMap, p, k + 1);
              return;
            }
          }
        }
      }
    }

    /** Sets the subordinate number of object `i`. */
    method SetSubordinate(o: BusMap, sub: nat, ghost i: nat)
      requires Valid() && i < |objs| && o == objs[i]
      modifies this`nodes, o`subordinate
      ensures Valid() && nodes == SetSub(old(nodes), i, sub)
    {
      ghost var ns := nodes;
      o.subordinate := sub;
      SubDoesNotShape(ns, i, sub);
      nodes := SetSub(ns, i, sub);
      forall j: nat ensures Mirrors(objs, nodes, j) {
        assert old(Mirrors(objs, ns, j));
      }
      forall q: nat, j: nat ensures Chained(objs, nodes, q, j) {
        assert old(Chained(objs, ns, q, j));
      }
    }

    /** The counting half of `alloc_bus`. */
    method CountBus(newMap: BusMap, pri: nat, sec: nat)
      requires Valid() && objs != [] && newMap == objs[|objs| - 1]
      modifies this`nodes, this`lastbus, objs
      ensures Valid() && View() == Count(old(View()), pri, sec)
    {
      var br := 0;
      while br < |bridges| && !(bridges[br].bus == pri && bridges[br].sec == sec)
        invariant br <= |bridges|
        invariant forall k :: 0 <= k < br ==> !(bridges[k].bus == pri && bridges[k].sec == sec)
      {
        br := br + 1;
      }
      assert br == BridgeTo(bridges, pri, sec);
      if br < |bridges| {
        if bridges[br].sec >= lastbus {
          lastbus := Byte(bridges[br].sec + 1);
          SetSubordinate(busMap, bridges[br].sec, 0);
        }
        SetSubordinate(newMap, bridges[br].sub, |objs| - 1);
      } else {
        lastbus := Byte(lastbus + 1);
        if sec > lastbus {
          lastbus := Byte(sec + 1);
          SetSubordinate(busMap, sec, 0);
        } else {
          SetSubordinate(busMap, lastbus, 0);
        }
      }
    }

    /** `newMap` gets its place: the root, or below its primary bus if that is found. */
    method PlaceBus(newMap: BusMap) returns (placed: bool)
      requires Valid() && newMap !in objs && newMap.subordinate == 0
      requires newMap.next == null && newMap.prev == null && newMap.peer == null && newMap.bdev == null
      modifies this`objs, this`nodes, this`busMap, newMap, objs
      ensures Valid()
      ensures var r := Place(old(nodes), old(newMap.primary), old(newMap.secondary));
              && placed == r.Some?
              && (if placed then objs == old(objs) + [newMap] && nodes == r.value
                  else objs == old(objs) && nodes == old(nodes))
    {
      var pri := newMap.primary;
      placed := true;
      if busMap == null {
        busMap := newMap;
        objs, nodes := [newMap], [Node(pri, newMap.secondary, 0, -1, -1, [], None)];
        assert Mirrors(objs, nodes, 0);
      } else {
        ghost var found := Find(nodes, pri);
        var parent := FindBus(pri);
        if parent == null {
          return false;
        }
        newMap.prev := parent;
        LinkBus(parent, newMap, found.value);
      }
    }

    /** `alloc_bus` */
    method AllocBus(pri: nat, sec: nat) returns (newMap: BusMap?)
      requires Valid()
      modifies this`objs, this`nodes, this`busMap, this`lastbus, this`endbus, objs
      ensures Valid()
      ensures var (r, i) := Alloc(old(View()), pri, sec);
              && View() == r
              && (if i.None? then newMap == null && objs == old(objs)
                  else newMap != null && fresh(newMap) && objs == old(objs) + [newMap])
    {
      if sec > endbus {
        endbus := sec;
      }
      var bus := new BusMap(pri, sec);
      newMap := null;
      var placed := PlaceBus(bus);
      if placed {
        CountBus(bus, pri, sec);
        newMap := bus;
      }
    }

    /** `find_bus`, and `alloc_bus` when that finds nothing. */
    method FindOrAllocBus(bus: nat, sec: nat) returns (node: BusMap?)
      requires Valid()
      modifies this`objs, this`nodes, this`busMap, this`lastbus, this`endbus, objs
      ensures Valid() && Grown(old(objs))
      ensures var (r, i) := FindOrAlloc(old(View()), bus, sec);
              View() == r && node == (match i case None => null case Some(k) => At(objs, k))
    {
      node := FindBus(sec);
      if node == null {
        node := AllocBus(bus, sec);
      }
    }

    /** Old objects keep their places; the others are new. */
    twostate predicate Grown(was: seq<BusMap>)
      reads this
    {
      was <= objs && forall i :: |was| <= i < |objs| ==> fresh(objs[i])
    }

    /** `configure_bridge`: bus structure and bus number registers. */
    method ConfigureBridge(bus: nat, devfn: nat, sec: nat, header: nat)
      requires Valid()
      modifies this`objs, this`nodes, this`busMap, this`lastbus, this`endbus, this`regs, objs
      ensures Valid() && Grown(old(objs))
      ensures View() == Configure(old(View()), bus, devfn, sec, header)
    {
      var node := FindOrAllocBus(bus, sec);
      if node == null || header == 0 {
        return;
      }
      regs := regs[Address(bus, devfn) := BusRegs(bus, sec, 255)];
    }

    /** Links the first device found for a bus to object `i`. */
    method LinkDevice(node: BusMap, dev: DeviceSite, ghost i: nat)
      requires Valid() && i < |objs| && node == objs[i]
      modifies this`nodes, node`bdev
      ensures Valid() && nodes == SetDev(old(nodes), i, BridgeFn(dev.bus, dev.devfn, dev.header, dev.classCode))
    {
      ghost var ns := nodes;
      node.bdev := dev;
      DevDoesNotShape(ns, i, BridgeFn(dev.bus, dev.devfn, dev.header, dev.classCode));
      nodes := SetDev(ns, i, BridgeFn(dev.bus, dev.devfn, dev.header, dev.classCode));
      forall j: nat ensures Mirrors(objs, nodes, j) {
        assert old(Mirrors(objs, ns, j));
      }
      forall q: nat, j: nat ensures Chained(objs, nodes, q, j) {
        assert old(Chained(objs, ns, q, j));
      }
    }

    /** `scan_device` as far as the bus structures go. */
    method ScanBusDevice(bus: nat, sec: nat, devfn: nat, header: nat, code: nat) returns (ret: Ret)
      requires Valid()
      modifies this`objs, this`nodes, this`busMap, this`lastbus, this`endbus, objs
      ensures Valid() && Grown(old(objs))
      ensures (View(), ret) == ScanDevice(old(View()), bus, sec, devfn, header, code)
    {
      ghost var i := FindOrAlloc(View(), bus, sec).1;
      var node := FindOrAllocBus(bus, sec);
      if node == null {
        return MinusOne;
      }
      assert Mirrors(objs, nodes, i.value);
      if node.bdev == null {
        var dev := new DeviceSite(bus, devfn, header, code);
        LinkDevice(node, dev, i.value);
      }
      return Zero;
    }

    /** The loop over `prev` in `traverse_back`. */
    method WidenAncestors(start: BusMap, bus: nat, sub: nat, ghost i0: nat)
      requires Valid() && i0 < |objs| && start == objs[i0]
      modifies this`nodes, objs
      ensures Valid() && nodes == Climb(old(nodes), i0, bus, sub)
    {
      var node: BusMap := start;
      ghost var i: nat := i0;
      assert Mirrors(objs, nodes, i);
      ClimbStops(nodes, i);
      while node.prev != null
        invariant Valid() && 0 <= i < |objs| && node == objs[i] && Mirrors(objs, nodes, i)
        invariant Climb(nodes, i, bus, sub) == Climb(old(nodes), i0, bus, sub)
        decreases if nodes[i].parent < 0 then 0 else nodes[i].parent + 1, Position(nodes, i)
      {
        PrevDecreases(nodes, i);
        ghost var ns, was := nodes, i;
        i := ns[i].prev;
        node := node.prev;
        assert Mirrors(objs, nodes, i);
        if node.bdev == null {
          return;
        }
        if node.bdev.bus != bus && node.subordinate < sub {
          SetSubordinate(node, sub, i);
        }
        assert Climb(ns, was, bus, sub) == Climb(nodes, i, bus, sub);
        SameClimbMeasure(ns, nodes, i);
        assert Mirrors(objs, nodes, i);
      }
      ClimbStops(nodes, i);
    }

    /** Only the root has no `prev`. */
    lemma {:induction false} ClimbStops(ns: seq<Node>, i: nat)
      requires TreeShape(ns) && i < |ns|
      ensures if i == 0 then ns[i].prev == -1 else 0 <= ns[i].prev < |ns|
    {
      if i > 0 {
        PrevDecreases(ns, i);
      }
    }

    lemma {:induction false} SameClimbMeasure(ns: seq<Node>, r: seq<Node>, i: nat)
      requires i < |ns| == |r| && forall j :: 0 <= j < |ns| ==> r[j].parent == ns[j].parent && r[j].kids == ns[j].kids
      ensures r[i].parent == ns[i].parent && Position(r, i) == Position(ns, i)
    {
    }

    /** The list entry of the finished bridge gets its numbers. */
    method SettleEntry(dev: DeviceSite, sub: nat)
      modifies this`bridges
      ensures var b := BridgeAt(old(bridges), dev.bus, dev.devfn);
              bridges == if b == |old(bridges)| then old(bridges)
                         else old(bridges)[b := Settle(old(bridges)[b], curScanBus, sub)]
    {
      var b := 0;
      while b < |bridges| && !(bridges[b].bus == dev.bus && bridges[b].devfn == dev.devfn)
        invariant b <= |bridges|
        invariant forall k :: 0 <= k < b ==> !(bridges[k].bus == dev.bus && bridges[k].devfn == dev.devfn)
      {
        b := b + 1;
      }
      assert b == BridgeAt(bridges, dev.bus, dev.devfn);
      if b < |bridges| {
        bridges := bridges[b := Settle(bridges[b], curScanBus, sub)];
      }
    }

    /** The first half of `traverse_back`: the finished bridge gets its subordinate number. */
    method SettleBus(node: BusMap, dev: DeviceSite, sub: nat, ghost i: nat)
      requires Valid() && i < |objs| && node == objs[i] && node.bdev == dev
      requires nodes[i].dev.Some?
      modifies this`nodes, this`regs, this`bridges, this`curScanBus, this`endbus, node`subordinate
      ensures Valid() && View() == SettleNode(old(View()), i, sub)
    {
      assert Mirrors(objs, nodes, i);
      if dev.header == 1 {
        var end := if node.next == null then curScanBus else sub;
        LinksInside(nodes, i);
        assert node.next == null <==> nodes[i].kids == [];
        regs := regs[Address(dev.bus, dev.devfn) := BusRegs(dev.bus, curScanBus, end)];
        SettleEntry(dev, sub);
        SetSubordinate(node, end, i);
      }
      assert Mirrors(objs, nodes, i);
      curScanBus, endbus := node.primary, if node.primary == 0 then 0 else endbus;
    }

    /** `traverse_back` */
    method TraverseBack(sub: nat) returns (ret: Ret)
      requires Valid()
      modifies this`nodes, this`regs, this`bridges, this`curScanBus, this`endbus, objs
      ensures Valid() && (View(), ret) == Traverse(old(View()), sub)
    {
      ghost var i := Find(nodes, curScanBus);
      var node := FindBus(curScanBus);
      if node == null {
        return MinusOne;
      }
      assert Mirrors(objs, nodes, i.value);
      var dev := node.bdev;
      if dev == null {
        return Fault;
      }
      SettleBus(node, dev, sub, i.value);
      WidenAncestors(node, dev.bus, sub, i.value);
      return Zero;
    }

    /** The choice of a number for a bridge function, with its entry in the list. */
    method PickBridge(bus: nat, devfn: nat) returns (lb: nat)
      modifies this`bridges
      ensures (View(), lb) == PickNumber(old(View()), bus, devfn)
    {
      var b := 0;
      while b < |bridges| && !(bridges[b].bus == bus && bridges[b].devfn == devfn)
        invariant b <= |bridges|
        invariant forall k :: 0 <= k < b ==> !(bridges[k].bus == bus && bridges[k].devfn == devfn)
      {
        b := b + 1;
      }
      assert b == BridgeAt(bridges, bus, devfn);
      if b < |bridges| {
        lb := if bridges[b].sec != 0 then bridges[b].sec else lastbus;
      } else {
        bridges := bridges + [Bridge(bus, devfn, 0, 0)];
        lb := lastbus;
      }
    }

    /** One function of one device; `stop` says that the whole call returns. */
    method ScanFunction(hw: Bus, bus: nat, devfn: nat) returns (stop: Option<Ret>)
      requires Valid() && Plain(hw) && devfn < 256 && Visited(hw, devfn)
      modifies this, objs
      ensures Valid() && Grown(old(objs))
      ensures Setup(old(View()), hw, devfn, bus) ==
              if stop.Some? then (View(), stop.value) else Setup(View(), hw, devfn + 1, bus)
      decreases hw, 1
    {
      ghost var s := View();
      curScanBus := bus;
      assert Setup(s, hw, devfn, bus) == SetupFunction(View(), hw, devfn, bus);
      if !IsBridge(hw, devfn) {
        return None;
      }
      if bridges == [] {
        return Some(Fault);
      }
      stop := ScanBridgeFunction(hw, bus, devfn);
    }

    /** A PCI-to-PCI bridge: number it, scan behind it, settle it. */
    method ScanBridgeFunction(hw: Bus, bus: nat, devfn: nat) returns (stop: Option<Ret>)
      requires Valid() && Plain(hw) && devfn < 256 && IsBridge(hw, devfn)
      modifies this, objs
      ensures Valid() && Grown(old(objs))
      ensures SetupBridge(old(View()), hw, devfn, bus) ==
              if stop.Some? then (View(), stop.value) else Setup(View(), hw, devfn + 1, bus)
      decreases hw, 0
    {
      var lb, ret := EnterBridge(bus, devfn, hw.fns[devfn].classCode);
      stop := Some(ret);
      if ret == Zero {
        var inner := SetupPci2PciBridges(hw.fns[devfn].below, lb);
        stop := ResumeScan(inner);
      }
    }

    method ResumeScan(inner: Ret) returns (stop: Option<Ret>)
      requires Valid()
      modifies this`nodes, this`regs, this`bridges, this`curScanBus, this`endbus, objs
      ensures Valid() && (View(), stop) == Resume(old(View()), inner)
    {
      stop := if inner == Fault then Some(Fault) else None;
      if inner == Zero {
        var back := TraverseBack(endbus);
        stop := if back == Zero then None else Some(if back == MinusOne then Zero else back);
      }
    }

    method EnterBridge(bus: nat, devfn: nat, code: nat) returns (lb: nat, ret: Ret)
      requires Valid()
      modifies this, objs
      ensures Valid() && Grown(old(objs)) && (View(), lb, ret) == Enter(old(View()), bus, devfn, code)
    {
      lb := PickBridge(bus, devfn);
      ConfigureBridge(bus, devfn, lb, 1);
      ret := ScanBusDevice(bus, lb, devfn, 1, code);
    }

    /** The function loop for one device. */
    method ScanFunctions(hw: Bus, bus: nat, dev: nat) returns (stop: Option<Ret>)
      requires Valid() && Plain(hw) && dev < 32
      modifies this, objs
      ensures Valid() && Grown(old(objs))
      ensures Setup(old(View()), hw, 8 * dev, bus) ==
              if stop.Some? then (View(), stop.value) else Setup(View(), hw, 8 * (dev + 1), bus)
      decreases hw, 2
    {
      var func, numFuncs := 0, 1;
      while func < numFuncs
        invariant 0 <= func <= numFuncs && (numFuncs == 1 || numFuncs == 8)
        invariant if func == 0 then numFuncs == 1 else numFuncs == 8 <==> MultiFunction(hw, 8 * dev)
        invariant Valid() && Grown(old(objs))
        invariant Setup(View(), hw, 8 * dev + func, bus) == Setup(old(View()), hw, 8 * dev, bus)
        decreases 8 - func
      {
        if func == 0 && MultiFunction(hw, 8 * dev) {
          numFuncs := 8;
        }
        FunctionVisited(hw, dev, func);
        stop := ScanFunction(hw, bus, 8 * dev + func);
        if stop.Some? {
          return;
        }
        func := func + 1;
      }
      SkipFunctions(View(), hw, dev, func, bus);
      stop := None;
    }

    /** `setup_pci2pci_bridges` */
    method SetupPci2PciBridges(hw: Bus, bus: nat) returns (ret: Ret)
      requires Valid() && Plain(hw)
      modifies this, objs
      ensures Valid() && Grown(old(objs))
      ensures (View(), ret) == Setup(old(View()), hw, 0, bus)
      decreases hw, 3
    {
      for dev := 0 to 32
        invariant Valid() && Grown(old(objs))
        invariant Setup(View(), hw, 8 * dev, bus) == Setup(old(View()), hw, 0, bus)
      {
        var stop := ScanFunctions(hw, bus, dev);
        if stop.Some? {
          return stop.value;
        }
      }
      return Zero;
    }

    /** The list of bridges, and bus 0 with its host bridge at function `host`. */
    method PrepareBusZero(hw: Bus, host: nat) returns (ret: Ret)
      requires Plain(hw) && busMap == null && objs == [] && nodes == []
      modifies this
      ensures Valid() && (forall i :: 0 <= i < |objs| ==> fresh(objs[i]))
      ensures (View(), ret) == Prepare(hw, host)
    {
      lastbus, endbus, curScanBus, bridges, regs := 0, 0, 0, ListBridges(hw, 0), map[];
      ConfigureBridge(0, host, lastbus, 0);
      ret := ScanBusDevice(0, if lastbus > 0 then lastbus - 1 else 0, host, 0, ClassAt(hw, host));
    }

    /** `PCI_Startup` up to the end of the bus scan. */
    method ScanFromColdStart(hw: Bus, host: nat) returns (ret: Ret)
      requires Plain(hw) && busMap == null && objs == [] && nodes == []
      modifies this
      ensures Valid() && (View(), ret) == ColdStart(hw, host)
    {
      ret := PrepareBusZero(hw, host);
      if ret == Zero {
        ret := SetupPci2PciBridges(hw, 0);
        endbus := ReturnByte(ret);
      }
    }
  }
}
