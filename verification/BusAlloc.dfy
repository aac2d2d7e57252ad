/** `alloc_bus`: a new bus structure is linked below its primary bus and the counters move on. */
module BusAlloc {
  import opened Common
  import opened BusTree

  /** One entry of the `pci_bridges` list. */
  datatype Bridge = Bridge(bus: nat, devfn: nat, sec: nat, sub: nat)

  /** The three bus number fields of a bridge's `Primary_Bus_Number` register. */
  datatype BusRegs = BusRegs(pri: nat, sec: nat, sub: nat)

  /** Where a bridge function is addressed: (bus, devfn). */
  datatype Address = Address(bus: nat, devfn: nat)

  /** The server's global state during the bus scan. */
  datatype Scan = Scan(nodes: seq<Node>, lastbus: nat, endbus: nat, cur: nat,
                       bridges: seq<Bridge>, regs: map<Address, BusRegs>)

  // ---------------------------------------------------------------- linking

  /** How many of the peers `ks` stay in front of a node numbered `sec`. */
  function PeersBefore(ns: seq<Node>, ks: seq<nat>, sec: nat): (r: nat)
    requires forall k :: 0 <= k < |ks| ==> ks[k] < |ns|
    ensures r <= |ks|
    ensures forall k :: 0 <= k < r ==> ns[ks[k]].sec <= sec
    ensures r < |ks| ==> ns[ks[r]].sec > sec
  {
    if ks == [] || ns[ks[0]].sec > sec then 0 else 1 + PeersBefore(ns, ks[1..], sec)
  }

  /** The first child keeps its place; the others are scanned for the first larger number. */
  function InsertPos(ns: seq<Node>, ks: seq<nat>, sec: nat): (r: nat)
    requires forall k :: 0 <= k < |ks| ==> ks[k] < |ns|
    ensures r <= |ks|
  {
    if ks == [] then 0 else 1 + PeersBefore(ns, ks[1..], sec)
  }

  function InsertAt(ks: seq<nat>, k: nat, c: nat): (r: seq<nat>)
    requires k <= |ks|
  {
    ks[..k] + [c] + ks[k..]
  }

  /** The nodes after linking a new one below `p`; a child pushed aside gets it as `prev`. */
  function AddNode(ns: seq<Node>, p: nat, pri: nat, sec: nat): (r: seq<Node>)
    requires Acyclic(ns) && p < |ns|
    ensures |r| == |ns| + 1
  {
    var ks := ns[p].kids;
    var k := InsertPos(ns, ks, sec);
    var linked := ns[p := ns[p].(kids := InsertAt(ks, k, |ns|))];
    var moved := if k < |ks| then linked[ks[k] := linked[ks[k]].(prev := |ns|)] else linked;
    moved + [Node(pri, sec, 0, p, p, [], None)]
  }

  /** All of a node except its links. */
  predicate SameBus(a: Node, b: Node) {
    a.pri == b.pri && a.sec == b.sec && a.sub == b.sub && a.parent == b.parent && a.dev == b.dev
  }

  /** What linking changes: one entry in one child list, and perhaps one `prev`. */
  lemma {:induction false} AddNodeFrame(ns: seq<Node>, p: nat, pri: nat, sec: nat)
    requires Acyclic(ns) && p < |ns|
    ensures var r := AddNode(ns, p, pri, sec);
            && (forall i :: 0 <= i < |ns| ==> SameBus(r[i], ns[i]))
            && (forall i :: 0 <= i < |ns| && i != p ==> r[i].kids == ns[i].kids)
            && r[p].kids == InsertAt(ns[p].kids, InsertPos(ns, ns[p].kids, sec), |ns|)
            && r[|ns|] == Node(pri, sec, 0, p, p, [], None)
  {
  }

  /** The child list of `p` after linking. */
  lemma {:induction false} AddNodeKids(ns: seq<Node>, p: nat, pri: nat, sec: nat)
    requires Acyclic(ns) && p < |ns|
    ensures var r, ks := AddNode(ns, p, pri, sec), ns[p].kids;
            var k := InsertPos(ns, ks, sec);
            && |r[p].kids| == |ks| + 1
            && (forall j :: 0 <= j < k ==> r[p].kids[j] == ks[j])
            && r[p].kids[k] == |ns|
            && (forall j :: k < j <= |ks| ==> r[p].kids[j] == ks[j - 1])
  {
    AddNodeFrame(ns, p, pri, sec);
  }

  lemma {:induction false} AddNodeKidOk(ns: seq<Node>, p: nat, pri: nat, sec: nat, q: nat, j: nat)
    requires TreeShape(ns) && p < |ns| && ns[p].sec == pri
    ensures KidOk(AddNode(ns, p, pri, sec), q, j)
  {
    var r, ks := AddNode(ns, p, pri, sec), ns[p].kids;
    var k := InsertPos(ns, ks, sec);
    AddNodeFrame(ns, p, pri, sec);
    AddNodeKids(ns, p, pri, sec);
    assert KidOk(ns, q, j);
    if q == p {
      assert j > 0 ==> KidOk(ns, p, j - 1);
      assert j != k && k < |ks| && j < |ks| + 1 ==>
          ks[if j < k then j else j - 1] == ks[k] ==> j == k + 1 by {
        assert KidsDistinct(ns, p);
      }
    } else if q < |ns| && j < |ns[q].kids| && k < |ks| {
      assert KidOk(ns, p, k);
      assert ns[q].kids[j] != ks[k];
    }
  }

  lemma {:induction false} AddNodeHangs(ns: seq<Node>, p: nat, pri: nat, sec: nat, i: nat)
    requires TreeShape(ns) && p < |ns|
    ensures HangsOk(AddNode(ns, p, pri, sec), i)
  {
    var r, ks := AddNode(ns, p, pri, sec), ns[p].kids;
    var k := InsertPos(ns, ks, sec);
    AddNodeFrame(ns, p, pri, sec);
    AddNodeKids(ns, p, pri, sec);
    if 0 < i < |ns| {
      assert HangsOk(ns, i);
      if ns[i].parent == p {
        var j :| 0 <= j < |ks| && ks[j] == i;
        assert r[p].kids[if j < k then j else j + 1] == i;
      }
    } else if i == |ns| {
      assert r[p].kids[k] == i;
    }
  }

  lemma {:induction false} AddNodeDistinct(ns: seq<Node>, p: nat, pri: nat, sec: nat, q: nat)
    requires TreeShape(ns) && p < |ns|
    ensures KidsDistinct(AddNode(ns, p, pri, sec), q)
  {
    AddNodeFrame(ns, p, pri, sec);
    assert KidsDistinct(ns, q);
    if q == p {
      AddNodeKids(ns, p, pri, sec);
    }
  }

  /** The result is again one tree: everything old plus the new node, and no cycle. */
  lemma {:induction false} AddNodeShape(ns: seq<Node>, p: nat, pri: nat, sec: nat)
    requires TreeShape(ns) && p < |ns| && ns[p].sec == pri
    ensures TreeShape(AddNode(ns, p, pri, sec))
  {
    var r := AddNode(ns, p, pri, sec);
    AddNodeFrame(ns, p, pri, sec);
    forall q: nat, j: nat ensures KidOk(r, q, j) {
      AddNodeKidOk(ns, p, pri, sec, q, j);
    }
    forall i: nat ensures HangsOk(r, i) {
      AddNodeHangs(ns, p, pri, sec, i);
    }
    forall q: nat ensures KidsDistinct(r, q) {
      AddNodeDistinct(ns, p, pri, sec, q);
    }
    forall q, j | 0 <= q < |r| && 0 <= j < |r[q].kids| ensures q < r[q].kids[j] < |r| {
      assert KidOk(r, q, j);
    }
    if InsertPos(ns, ns[p].kids, sec) < |ns[p].kids| {
      assert KidOk(ns, p, InsertPos(ns, ns[p].kids, sec));
    }
  }

  /** Peers after the first child are in ascending order of bus number. */
  predicate PeersSorted(ns: seq<Node>, p: nat)
    requires Acyclic(ns) && p < |ns|
  {
    forall j, k :: 0 < j < k < |ns[p].kids| ==> ns[ns[p].kids[j]].sec <= ns[ns[p].kids[k]].sec
  }

  /** The position found is after the first child, past every peer with a number up to `sec`. */
  lemma {:induction false} InsertPosSplits(ns: seq<Node>, ks: seq<nat>, sec: nat)
    requires forall k :: 0 <= k < |ks| ==> ks[k] < |ns|
    ensures var k := InsertPos(ns, ks, sec);
            && (ks != [] ==> 0 < k)
            && (forall j :: 0 < j < k ==> ns[ks[j]].sec <= sec)
            && (k < |ks| ==> ns[ks[k]].sec > sec)
  {
    if ks != [] {
      var k := InsertPos(ns, ks, sec);
      assert forall j :: 0 < j < |ks| ==> ks[j] == ks[1..][j - 1];
    }
  }

  /** Linking keeps every peer list sorted. */
  lemma {:induction false} AddNodeKeepsOrder(ns: seq<Node>, p: nat, pri: nat, sec: nat, q: nat)
    requires TreeShape(ns) && p < |ns| && ns[p].sec == pri && q < |ns| && PeersSorted(ns, q)
    ensures Acyclic(AddNode(ns, p, pri, sec)) && PeersSorted(AddNode(ns, p, pri, sec), q)
  {
    AddNodeShape(ns, p, pri, sec);
    AddNodeFrame(ns, p, pri, sec);
    if q == p {
      AddNodeKids(ns, p, pri, sec);
      InsertPosSplits(ns, ns[p].kids, sec);
    }
  }

  /** The first child stays first and each child list gains at most the new node. */
  lemma {:induction false} AddNodeKeepsKids(ns: seq<Node>, p: nat, pri: nat, sec: nat, q: nat)
    requires Acyclic(ns) && p < |ns| && q < |ns|
    ensures var r, ks := AddNode(ns, p, pri, sec), ns[q].kids;
            && (ks != [] ==> r[q].kids != [] && r[q].kids[0] == ks[0])
            && (forall c :: c in r[q].kids <==> c in ks || (q == p && c == |ns|))
  {
    AddNodeFrame(ns, p, pri, sec);
    if q == p {
      AddNodeKids(ns, p, pri, sec);
      InsertPosSplits(ns, ns[p].kids, sec);
      var r, ks, k := AddNode(ns, p, pri, sec), ns[p].kids, InsertPos(ns, ns[p].kids, sec);
      forall c | c in ks ensures c in r[p].kids {
        var j :| 0 <= j < |ks| && ks[j] == c;
        assert r[p].kids[if j < k then j else j + 1] == c;
      }
    }
  }

  /** Old nodes keep their subtrees, apart from the new node. */
  lemma {:induction false} AddNodeBelow(ns: seq<Node>, p: nat, pri: nat, sec: nat, i: nat, j: nat)
    requires Acyclic(ns) && p < |ns| && j < |ns|
    ensures Below(AddNode(ns, p, pri, sec), i, j) <==> Below(ns, i, j)
    decreases j
  {
    AddNodeFrame(ns, p, pri, sec);
    if i != j && 0 < j && 0 <= ns[j].parent < j {
      AddNodeBelow(ns, p, pri, sec, i, ns[j].parent);
    }
  }

  // ---------------------------------------------------------------- counters

  /** Position of the first listed bridge from `bus` to `sec`, or the length of the list. */
  function BridgeTo(brs: seq<Bridge>, bus: nat, sec: nat): (r: nat)
    ensures r <= |brs|
    ensures r < |brs| ==> brs[r].bus == bus && brs[r].sec == sec
    ensures forall k :: 0 <= k < r ==> !(brs[k].bus == bus && brs[k].sec == sec)
  {
    if brs == [] || (brs[0].bus == bus && brs[0].sec == sec) then 0
    else 1 + BridgeTo(brs[1..], bus, sec)
  }

  function SetSub(ns: seq<Node>, i: nat, sub: nat): (r: seq<Node>)
    requires i < |ns|
    ensures |r| == |ns|
  {
    ns[i := ns[i].(sub := sub)]
  }

  /** The counter updates at the end of `alloc_bus`; the new node is the last one. */
  function Count(s: Scan, pri: nat, sec: nat): (r: Scan)
    requires s.nodes != []
    ensures |r.nodes| == |s.nodes| && r.bridges == s.bridges
  {
    var br := BridgeTo(s.bridges, pri, sec);
    if br < |s.bridges| then
      var t := if sec >= s.lastbus
               then s.(lastbus := Byte(sec + 1), nodes := SetSub(s.nodes, 0, sec)) else s;
      t.(nodes := SetSub(t.nodes, |t.nodes| - 1, s.bridges[br].sub))
    else
      var next := Byte(s.lastbus + 1);
      if sec > next then s.(lastbus := Byte(sec + 1), nodes := SetSub(s.nodes, 0, sec))
      else s.(lastbus := next, nodes := SetSub(s.nodes, 0, next))
  }

  lemma {:induction false} SubDoesNotShape(ns: seq<Node>, i: nat, sub: nat)
    requires TreeShape(ns) && i < |ns|
    ensures TreeShape(SetSub(ns, i, sub))
  {
    var r := SetSub(ns, i, sub);
    forall p: nat, k: nat ensures KidOk(r, p, k) {
      assert KidOk(ns, p, k);
    }
    forall j: nat ensures HangsOk(r, j) && KidsDistinct(r, j) {
      assert HangsOk(ns, j) && KidsDistinct(ns, j);
    }
  }

  lemma {:induction false} CountKeepsShape(s: Scan, pri: nat, sec: nat)
    requires s.nodes != [] && TreeShape(s.nodes)
    ensures TreeShape(Count(s, pri, sec).nodes)
  {
    var br := BridgeTo(s.bridges, pri, sec);
    if br < |s.bridges| {
      SubDoesNotShape(s.nodes, 0, sec);
      SubDoesNotShape(if sec >= s.lastbus then SetSub(s.nodes, 0, sec) else s.nodes,
                      |s.nodes| - 1, s.bridges[br].sub);
    } else {
      var next := Byte(s.lastbus + 1);
      SubDoesNotShape(s.nodes, 0, if sec > next then sec else next);
    }
  }

  /** The nodes with a new one in its place, or none when the primary bus is unknown. */
  ghost function Place(ns: seq<Node>, pri: nat, sec: nat): (r: Option<seq<Node>>)
    requires TreeShape(ns)
    ensures r.Some? ==> TreeShape(r.value) && |r.value| == |ns| + 1
  {
    if ns == [] then Some([Node(pri, sec, 0, -1, -1, [], None)])
    else
      match Find(ns, pri)
      case None => None
      case Some(p) => AddNodeShape(ns, p, pri, sec); Some(AddNode(ns, p, pri, sec))
  }

  /** `alloc_bus`: the new state and the new node, or no node when the primary bus is unknown. */
  ghost function Alloc(s: Scan, pri: nat, sec: nat): (r: (Scan, Option<nat>))
    requires TreeShape(s.nodes)
    ensures TreeShape(r.0.nodes) && r.0.bridges == s.bridges
    ensures r.1.Some? ==> |r.0.nodes| == |s.nodes| + 1 && r.1.value == |s.nodes|
    ensures r.1.None? ==> r.0.nodes == s.nodes && r.0.lastbus == s.lastbus
  {
    var t := s.(endbus := if sec > s.endbus then sec else s.endbus);
    match Place(s.nodes, pri, sec)
    case None => (t, None)
    case Some(ns) =>
      CountKeepsShape(t.(nodes := ns), pri, sec);
      (Count(t.(nodes := ns), pri, sec), Some(|s.nodes|))
  }

  // ---------------------------------------------------------------- fresh numbers

  /** `lastbus` is above every number in use. */
  predicate NumbersBelowLast(s: Scan) {
    forall i :: 0 <= i < |s.nodes| ==> s.nodes[i].sec < s.lastbus
  }

  /** A request that keeps `lastbus` ahead: a listed bridge, or any number but `lastbus + 1`. */
  predicate KeepsAhead(s: Scan, pri: nat, sec: nat) {
    sec != 255 && (BridgeTo(s.bridges, pri, sec) < |s.bridges| || sec != s.lastbus + 1)
  }

  lemma {:induction false} CountSecs(s: Scan, pri: nat, sec: nat)
    requires s.nodes != []
    ensures var r := Count(s, pri, sec);
            forall i :: 0 <= i < |s.nodes| ==> r.nodes[i].sec == s.nodes[i].sec && r.nodes[i].dev == s.nodes[i].dev
  {
  }

  /**
    One call keeps `lastbus` above every number exactly for such requests.  With an unlisted
    `lastbus + 1` the counter ends up equal to the new number, because the test is `>`.
  */
  lemma {:induction false} AllocKeepsAheadIff(s: Scan, pri: nat, sec: nat)
    requires TreeShape(s.nodes) && s.nodes != [] && NumbersBelowLast(s)
    requires s.lastbus < 255 && sec < 256 && Find(s.nodes, pri).Some?
    ensures NumbersBelowLast(Alloc(s, pri, sec).0) <==> KeepsAhead(s, pri, sec)
  {
    var p := Find(s.nodes, pri).value;
    AddNodeFrame(s.nodes, p, pri, sec);
    var r := Alloc(s, pri, sec).0;
    var t := if sec > s.endbus then s.(endbus := sec) else s;
    var u := t.(nodes := AddNode(s.nodes, p, pri, sec));
    CountSecs(u, pri, sec);
    assert r == Count(u, pri, sec);
    var n := |s.nodes|;
    assert r.nodes[n].sec == sec;
    assert forall i :: 0 <= i < n ==> r.nodes[i].sec == s.nodes[i].sec < s.lastbus;
    if KeepsAhead(s, pri, sec) {
      assert r.lastbus > sec && r.lastbus >= s.lastbus;
    } else {
      assert r.lastbus <= sec;
    }
  }

  /** A sequence of `alloc_bus` calls with the given (primary, secondary) numbers. */
  ghost function AllocAll(s: Scan, reqs: seq<(nat, nat)>): (r: Scan)
    requires TreeShape(s.nodes)
    ensures TreeShape(r.nodes)
    decreases |reqs|
  {
    if reqs == [] then s else AllocAll(Alloc(s, reqs[0].0, reqs[0].1).0, reqs[1..])
  }

  ghost predicate AllKeepAhead(s: Scan, reqs: seq<(nat, nat)>)
    requires TreeShape(s.nodes)
    decreases |reqs|
  {
    reqs == [] ||
    (s.lastbus < 255 && reqs[0].1 < 256 && KeepsAhead(s, reqs[0].0, reqs[0].1) &&
     AllKeepAhead(Alloc(s, reqs[0].0, reqs[0].1).0, reqs[1..]))
  }

  /** Over any such sequence the number handed to the next unnumbered bridge is unused. */
  lemma {:induction false} FreshNumberIsUnused(s: Scan, reqs: seq<(nat, nat)>)
    requires TreeShape(s.nodes) && s.nodes != [] && NumbersBelowLast(s) && AllKeepAhead(s, reqs)
    ensures var r := AllocAll(s, reqs);
            NumbersBelowLast(r) && !Listed(r.nodes, r.lastbus)
    decreases |reqs|
  {
    if reqs != [] {
      var (pri, sec) := reqs[0];
      if Find(s.nodes, pri).Some? {
        AllocKeepsAheadIff(s, pri, sec);
      }
      FreshNumberIsUnused(Alloc(s, pri, sec).0, reqs[1..]);
    }
  }

  /** An unlisted bridge given `lastbus + 1` breaks it: the next fresh number is already taken. */
  lemma {:induction false} SkippedNumberCollides(s: Scan, pri: nat)
    requires TreeShape(s.nodes) && s.nodes != [] && s.lastbus < 254 && Find(s.nodes, pri).Some?
    requires BridgeTo(s.bridges, pri, s.lastbus + 1) == |s.bridges|
    ensures var r := Alloc(s, pri, s.lastbus + 1).0;
            Listed(r.nodes, r.lastbus)
  {
    var p, sec, n := Find(s.nodes, pri).value, s.lastbus + 1, |s.nodes|;
    var t := if sec > s.endbus then s.(endbus := sec) else s;
    var u := t.(nodes := AddNode(s.nodes, p, pri, sec));
    AddNodeFrame(s.nodes, p, pri, sec);
    CountSecs(u, pri, sec);
    assert Count(u, pri, sec).nodes[n].sec == sec;
  }
}
