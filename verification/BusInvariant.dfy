/**
  The invariant of the cold-start scan, and the two steps that keep it: entering a newly found
  bridge and settling it once the buses behind it are numbered.
*/
module BusInvariant {
  import opened Common
  import opened BusTree
  import opened BusAlloc
  import opened BusScan
  import opened BusNumbering

  function DevfnOf(ns: seq<Node>, i: nat): (r: nat)
    requires i < |ns|
  {
    if ns[i].dev.Some? then ns[i].dev.value.devfn else 0
  }

  function ClassOf(ns: seq<Node>, i: nat): (r: nat)
    requires i < |ns|
  {
    if ns[i].dev.Some? then ns[i].dev.value.classCode else 0
  }

  function ParentOf(ns: seq<Node>, i: nat): (r: nat)
    requires i < |ns|
  {
    if ns[i].parent >= 0 then ns[i].parent else 0
  }

  /** Bridges on one bus are numbered in the order of their functions. */
  predicate DevOrder(ns: seq<Node>, i: nat, j: nat) {
    0 < i < j < |ns| && ns[i].parent == ns[j].parent ==> DevfnOf(ns, i) < DevfnOf(ns, j)
  }

  /** The list entry a finished bridge ends up with. */
  function Settled(ns: seq<Node>, end: seq<nat>, i: nat): (r: Bridge)
    requires i < |ns| == |end|
  {
    Bridge(ParentOf(ns, i), DevfnOf(ns, i), i, end[i])
  }

  /** A listed bridge is either unnumbered or finished. */
  predicate EntryOk(ns: seq<Node>, brs: seq<Bridge>, path: seq<nat>, end: seq<nat>, b: nat) {
    b < |brs| && |ns| == |end| ==>
      || (brs[b].sec == 0 && brs[b].sub == 0)
      || (0 < brs[b].sec < |ns| && brs[b].sec !in path && ns[brs[b].sec].parent >= 0
          && brs[b] == Settled(ns, end, brs[b].sec))
  }

  /** A listed bridge on a bus other than 0 already has a bus behind it. */
  predicate EntryKnown(ns: seq<Node>, brs: seq<Bridge>, b: nat) {
    b < |brs| && brs[b].bus > 0 ==>
      exists i :: 0 < i < |ns| && ns[i].parent == brs[b].bus && DevfnOf(ns, i) == brs[b].devfn
  }

  predicate EntriesDiffer(brs: seq<Bridge>, b: nat, c: nat) {
    b < c < |brs| ==> brs[b].bus != brs[c].bus || brs[b].devfn != brs[c].devfn
  }

  /** Where node `i` is listed. */
  function EntryOf(ns: seq<Node>, brs: seq<Bridge>, i: nat): (r: nat)
    requires i < |ns|
  {
    BridgeAt(brs, ParentOf(ns, i), DevfnOf(ns, i))
  }

  /** Every bridge with a bus is listed, after its parent bridge; the entry is final once it is finished. */
  predicate ListedOk(ns: seq<Node>, brs: seq<Bridge>, path: seq<nat>, end: seq<nat>, i: nat) {
    0 < i < |ns| == |end| && 0 <= ns[i].parent < i ==>
      var b := EntryOf(ns, brs, i);
      && b < |brs|
      && (if i in path then brs[b].sec == 0 else brs[b] == Settled(ns, end, i))
      && (ns[i].parent > 0 && ns[ns[i].parent].parent >= 0 ==> EntryOf(ns, brs, ns[i].parent) < b)
  }

  /** The bus number registers of every bridge with a bus. */
  predicate RegsOk(ns: seq<Node>, regs: map<Address, BusRegs>, path: seq<nat>, end: seq<nat>, i: nat) {
    0 < i < |ns| == |end| && ns[i].parent >= 0 ==>
      var a := Address(ns[i].parent, DevfnOf(ns, i));
      a in regs && regs[a] == BusRegs(ns[i].parent, i, if i in path then 255 else end[i])
  }

  predicate Counters(s: Scan, path: seq<nat>) {
    && 0 < |s.nodes| <= 256
    && s.lastbus == Byte(|s.nodes|)
    && s.endbus == if |path| <= 1 then 0 else |s.nodes| - 1
  }

  ghost predicate Books(s: Scan, path: seq<nat>, end: seq<nat>) {
    && (forall i: nat, j: nat {:trigger DevOrder(s.nodes, i, j)} :: DevOrder(s.nodes, i, j))
    && (forall b: nat {:trigger EntryOk(s.nodes, s.bridges, path, end, b)} :: EntryOk(s.nodes, s.bridges, path, end, b))
    && (forall b: nat {:trigger EntryKnown(s.nodes, s.bridges, b)} :: EntryKnown(s.nodes, s.bridges, b))
    && (forall b: nat, c: nat {:trigger EntriesDiffer(s.bridges, b, c)} :: EntriesDiffer(s.bridges, b, c))
    && (forall i: nat {:trigger ListedOk(s.nodes, s.bridges, path, end, i)} :: ListedOk(s.nodes, s.bridges, path, end, i))
    && (forall i: nat {:trigger RegsOk(s.nodes, s.regs, path, end, i)} :: RegsOk(s.nodes, s.regs, path, end, i))
  }

  /** The whole invariant of a cold-start scan. */
  ghost predicate Cold(s: Scan, path: seq<nat>, end: seq<nat>) {
    Core(s.nodes, path, end) && Counters(s, path) && Books(s, path, end)
  }

  /** Function `devfn` of `bus` comes after every bridge already numbered on that bus. */
  predicate NewFunction(ns: seq<Node>, bus: nat, devfn: nat) {
    forall i :: 0 < i < |ns| && ns[i].parent == bus ==> DevfnOf(ns, i) < devfn
  }

  /** The records of the bridges numbered so far. */
  function Recs(ns: seq<Node>): (r: seq<Rec>)
    requires forall i :: 0 < i < |ns| ==> ns[i].parent >= 0
    ensures |r| == if ns == [] then 0 else |ns| - 1
  {
    seq(if ns == [] then 0 else |ns| - 1,
        i requires 0 <= i < |ns| - 1 && ns[i + 1].parent >= 0 => Rec(ns[i + 1].parent, DevfnOf(ns, i + 1), ClassOf(ns, i + 1)))
  }

  // ---------------------------------------------------------------- entering a bridge

  /** The nodes after a new bus behind function `devfn` of bus `p`; the root's number is updated too. */
  function Grow(ns: seq<Node>, p: nat, devfn: nat, code: nat, rootSub: nat): (r: seq<Node>)
    requires p < |ns|
    ensures |r| == |ns| + 1
  {
    var linked := ns[p := ns[p].(kids := ns[p].kids + [|ns|])];
    SetSub(linked, 0, rootSub) + [Node(p, |ns|, 0, p, p, [], Some(BridgeFn(p, devfn, 1, code)))]
  }

  function RootSub(n: nat): (r: nat) { if n == 255 then 255 else n + 1 }

  /** The list with the bridge in it. */
  function WithEntry(brs: seq<Bridge>, bus: nat, devfn: nat): (r: seq<Bridge>) {
    if BridgeAt(brs, bus, devfn) < |brs| then brs else brs + [Bridge(bus, devfn, 0, 0)]
  }

  function Entered(s: Scan, bus: nat, devfn: nat, code: nat): (r: Scan)
    requires bus < |s.nodes|
  {
    var n := |s.nodes|;
    Scan(Grow(s.nodes, bus, devfn, code, RootSub(n)), Byte(n + 1), n, s.cur, WithEntry(s.bridges, bus, devfn),
         s.regs[Address(bus, devfn) := BusRegs(bus, n, 255)])
  }

  lemma {:induction false} AddNodeAppends(ns: seq<Node>, path: seq<nat>, end: seq<nat>, p: nat)
    requires Core(ns, path, end) && p < |ns|
    ensures var n := |ns|;
            AddNode(ns, p, p, n) ==
            ns[p := ns[p].(kids := ns[p].kids + [n])] + [Node(p, n, 0, p, p, [], None)]
  {
    var n, ks := |ns|, ns[p].kids;
    InsertPosSplits(ns, ks, n);
    assert forall k :: 0 <= k < |ks| ==> ns[ks[k]].sec < n by {
      forall k | 0 <= k < |ks| ensures ns[ks[k]].sec < n {
        assert KidOk(ns, p, k) && NodeOk(ns, ks[k]);
      }
    }
    assert InsertAt(ks, |ks|, n) == ks + [n];
  }

  /** `Grow` is `alloc_bus` followed by the link to the device. */
  lemma {:induction false} GrowIs(ns: seq<Node>, path: seq<nat>, end: seq<nat>, p: nat, devfn: nat, code: nat, v: nat)
    requires Core(ns, path, end) && p < |ns|
    ensures Grow(ns, p, devfn, code, v) ==
            SetDev(SetSub(AddNode(ns, p, p, |ns|), 0, v), |ns|, BridgeFn(p, devfn, 1, code))
    ensures TreeShape(Grow(ns, p, devfn, code, v))
  {
    AddNodeAppends(ns, path, end, p);
    assert NodeOk(ns, p);
    AddNodeShape(ns, p, p, |ns|);
    SubDoesNotShape(AddNode(ns, p, p, |ns|), 0, v);
    DevDoesNotShape(SetSub(AddNode(ns, p, p, |ns|), 0, v), |ns|, BridgeFn(p, devfn, 1, code));
  }

  lemma {:induction false} GrowFrame(ns: seq<Node>, p: nat, devfn: nat, code: nat, v: nat)
    requires p < |ns|
    ensures var r := Grow(ns, p, devfn, code, v);
            && (forall i :: 0 <= i < |ns| ==> r[i].(kids := [], sub := 0) == ns[i].(kids := [], sub := 0))
            && (forall i :: 0 < i < |ns| ==> r[i].sub == ns[i].sub)
            && (forall i :: 0 <= i < |ns| && i != p ==> r[i].kids == ns[i].kids)
            && r[p].kids == ns[p].kids + [|ns|]
            && r[|ns|] == Node(p, |ns|, 0, p, p, [], Some(BridgeFn(p, devfn, 1, code)))
  {
  }

  /** The interval ends once node `|ns|` is open too. */
  function Stretch(end: seq<nat>, path: seq<nat>): (r: seq<nat>)
    ensures |r| == |end| + 1
    ensures forall i :: 0 <= i < |end| ==> r[i] == if i in path then |end| else end[i]
    ensures r[|end|] == |end|
  {
    seq(|end| + 1, i requires 0 <= i <= |end| => if i == |end| || i in path then |end| else end[i])
  }

  lemma {:induction false} TopIsLast(ns: seq<Node>, path: seq<nat>, i: nat)
    requires PathOk(ns, path) && i in path
    ensures i <= Top(path)
  {
  }

  /** The parent of an open node is open. */
  lemma {:induction false} OpenUpwards(ns: seq<Node>, path: seq<nat>, i: nat)
    requires PathOk(ns, path) && i in path && i > 0
    ensures ns[i].parent >= 0 && ns[i].parent as nat in path
  {
    var k :| 0 <= k < |path| && path[k] == i;
    assert PathLink(ns, path, k);
  }

  lemma {:induction false} GrowNested(ns: seq<Node>, path: seq<nat>, end: seq<nat>, devfn: nat, code: nat, v: nat)
    requires Core(ns, path, end)
    ensures Nested(Grow(ns, Top(path), devfn, code, v), Stretch(end, path))
  {
    var p, n := Top(path), |ns|;
    var r, e := Grow(ns, p, devfn, code, v), Stretch(end, path);
    GrowFrame(ns, p, devfn, code, v);
    forall i: nat ensures EndOk(r, e, i) {
      assert EndOk(ns, end, i) && SettledOk(ns, path, end, i);
      if 0 < i < n && i in path {
        OpenUpwards(ns, path, i);
      }
    }
    forall i: nat, j: nat ensures ApartOk(r, e, i, j) {
      assert ApartOk(ns, end, i, j);
      assert EndOk(ns, end, i) && SettledOk(ns, path, end, i);
      if 0 < i < n && i in path {
        TopIsLast(ns, path, i);
        assert HangsOk(ns, i);
      }
    }
    assert EndOk(ns, end, 0);
  }

  lemma {:induction false} GrowCore(ns: seq<Node>, path: seq<nat>, end: seq<nat>, devfn: nat, code: nat, v: nat)
    requires Core(ns, path, end)
    ensures Core(Grow(ns, Top(path), devfn, code, v), path + [|ns|], Stretch(end, path))
  {
    var p, n := Top(path), |ns|;
    var r, e, q := Grow(ns, p, devfn, code, v), Stretch(end, path), path + [n];
    GrowIs(ns, path, end, p, devfn, code, v);
    GrowFrame(ns, p, devfn, code, v);
    GrowNested(ns, path, end, devfn, code, v);
    forall i: nat ensures NodeOk(r, i) {
      assert NodeOk(ns, i) && NodeOk(ns, 0);
    }
    forall i: nat ensures KidsAscend(r, i) {
      assert KidsAscend(ns, i);
      if i == p {
        forall k | 0 <= k < |ns[p].kids| ensures ns[p].kids[k] < n {
          assert KidOk(ns, p, k);
        }
      }
    }
    forall i: nat ensures SettledOk(r, q, e, i) {
      assert SettledOk(ns, path, end, i);
      assert i in q <==> i in path || i == n;
    }
    GrowPath(ns, path, devfn, code, v);
  }

  lemma {:induction false} GrowPath(ns: seq<Node>, path: seq<nat>, devfn: nat, code: nat, v: nat)
    requires PathOk(ns, path)
    ensures PathOk(Grow(ns, Top(path), devfn, code, v), path + [|ns|])
  {
    var r, q := Grow(ns, Top(path), devfn, code, v), path + [|ns|];
    GrowFrame(ns, Top(path), devfn, code, v);
    forall k: nat ensures PathLink(r, q, k) {
      assert PathLink(ns, path, k);
    }
  }

  /** The bridge entered has no number yet, so it is given `lastbus`, which is new. */
  lemma {:induction false} EnterPicksFresh(s: Scan, path: seq<nat>, end: seq<nat>, bus: nat, devfn: nat)
    requires Cold(s, path, end) && NewFunction(s.nodes, bus, devfn) && |s.nodes| < 256
    ensures PickNumber(s, bus, devfn) == (s.(bridges := WithEntry(s.bridges, bus, devfn)), |s.nodes|)
    ensures BridgeTo(WithEntry(s.bridges, bus, devfn), bus, |s.nodes|) == |WithEntry(s.bridges, bus, devfn)|
  {
    var b := BridgeAt(s.bridges, bus, devfn);
    assert EntryOk(s.nodes, s.bridges, path, end, b);
    var brs := WithEntry(s.bridges, bus, devfn);
    var c := BridgeTo(brs, bus, |s.nodes|);
    assert forall k :: 0 <= k < |s.bridges| ==> s.bridges[k].sec != |s.nodes| by {
      forall k | 0 <= k < |s.bridges| ensures s.bridges[k].sec != |s.nodes| {
        assert EntryOk(s.nodes, s.bridges, path, end, k);
      }
    }
  }

  /** The walk never looks at the device links. */
  lemma {:induction false} WalkIgnoresDev(ns: seq<Node>, i: nat, dev: BridgeFn, p: int, ks: seq<nat>, b: nat)
    requires Acyclic(ns) && i < |ns| && -1 <= p < |ns| && forall k :: 0 <= k < |ks| ==> p < ks[k] < |ns|
    ensures Acyclic(SetDev(ns, i, dev))
    ensures Walk(SetDev(ns, i, dev), p, ks, b) == Walk(ns, p, ks, b)
    decreases |ns| - p, |ks|
  {
    if ks != [] {
      if |ks| > 1 {
        WalkIgnoresDev(ns, i, dev, p, ks[1..], b);
      }
      WalkIgnoresDev(ns, i, dev, ks[0], ns[ks[0]].kids, b);
    }
  }

  lemma {:induction false} FindIgnoresDev(ns: seq<Node>, i: nat, dev: BridgeFn, b: nat)
    requires Acyclic(ns) && i < |ns|
    ensures Acyclic(SetDev(ns, i, dev)) && Find(SetDev(ns, i, dev), b) == Find(ns, b)
  {
    WalkIgnoresDev(ns, i, dev, -1, [0], b);
  }

  lemma {:induction false} EnterIs(s: Scan, path: seq<nat>, end: seq<nat>, bus: nat, devfn: nat, code: nat)
    requires Cold(s, path, end) && bus == Top(path) && NewFunction(s.nodes, bus, devfn) && |s.nodes| < 256
    ensures Enter(s, bus, devfn, code) == (Entered(s, bus, devfn, code), |s.nodes|, Zero)
  {
    var n := |s.nodes|;
    EnterPicksFresh(s, path, end, bus, devfn);
    var t := s.(bridges := WithEntry(s.bridges, bus, devfn));
    FindDuringScan(s.nodes, path, end, n);
    FindDuringScan(s.nodes, path, end, bus);
    AddNodeAppends(s.nodes, path, end, bus);
    var u := Alloc(t, bus, n).0;
    assert u == t.(nodes := SetSub(AddNode(s.nodes, bus, bus, n), 0, RootSub(n)), lastbus := Byte(n + 1), endbus := n);
    var dev := BridgeFn(bus, devfn, 1, code);
    GrowIs(s.nodes, path, end, bus, devfn, code, RootSub(n));
    GrowCore(s.nodes, path, end, devfn, code, RootSub(n));
    FindDuringScan(SetDev(u.nodes, n, dev), path + [n], Stretch(end, path), n);
    FindIgnoresDev(u.nodes, n, dev, n);
  }

  lemma {:induction false} EntryStays(ns: seq<Node>, brs: seq<Bridge>, bus: nat, devfn: nat, p: nat, f: nat,
          code: nat, i: nat)
    requires p < |ns| && i < |ns| && ns[i].parent >= 0
    requires EntryOf(ns, brs, i) < |brs|
    ensures var r := Grow(ns, p, f, code, RootSub(|ns|));
            r[i].parent >= 0 && EntryOf(r, WithEntry(brs, bus, devfn), i) == EntryOf(ns, brs, i)
  {
    GrowFrame(ns, p, f, code, RootSub(|ns|));
    BridgeAtPrefix(brs, Bridge(bus, devfn, 0, 0), ns[i].parent, DevfnOf(ns, i));
  }

  /** Appending to the list does not move what is found in it. */
  lemma {:induction false} BridgeAtPrefix(brs: seq<Bridge>, br: Bridge, bus: nat, devfn: nat)
    ensures var b := BridgeAt(brs, bus, devfn);
            BridgeAt(brs + [br], bus, devfn) ==
            if b < |brs| || (br.bus == bus && br.devfn == devfn) then b else b + 1
  {
    if brs != [] && !(brs[0].bus == bus && brs[0].devfn == devfn) {
      BridgeAtPrefix(brs[1..], br, bus, devfn);
      assert (brs + [br])[1..] == brs[1..] + [br];
    }
  }

  lemma {:induction false} EnterListed(s: Scan, path: seq<nat>, end: seq<nat>, devfn: nat, code: nat, i: nat)
    requires Cold(s, path, end) && NewFunction(s.nodes, Top(path), devfn) && |s.nodes| < 256
    requires Top(path) == 0 ==> BridgeAt(s.bridges, 0, devfn) < |s.bridges|
    ensures var r := Entered(s, Top(path), devfn, code);
            ListedOk(r.nodes, r.bridges, path + [|s.nodes|], Stretch(end, path), i)
  {
    var p, n, ns := Top(path), |s.nodes|, s.nodes;
    var r, q, e := Entered(s, p, devfn, code), path + [n], Stretch(end, path);
    GrowFrame(ns, p, devfn, code, RootSub(n));
    assert i in q <==> i in path || i == n;
    var b := BridgeAt(s.bridges, p, devfn);
    if 0 < i < n && 0 <= ns[i].parent < i {
      assert ListedOk(ns, s.bridges, path, end, i);
      EntryStays(ns, s.bridges, p, devfn, p, devfn, code, i);
      var j := ns[i].parent;
      if j > 0 && ns[j].parent >= 0 {
        assert NodeOk(ns, j) && ListedOk(ns, s.bridges, path, end, j);
        EntryStays(ns, s.bridges, p, devfn, p, devfn, code, j);
      }
    } else if i == n {
      EnterPicksFresh(s, path, end, p, devfn);
      assert EntryOk(ns, s.bridges, path, end, b) && EntryKnown(ns, s.bridges, b);
      BridgeAtPrefix(s.bridges, Bridge(p, devfn, 0, 0), p, devfn);
      if p > 0 {
        assert NodeOk(ns, p) && ListedOk(ns, s.bridges, path, end, p);
        EntryStays(ns, s.bridges, p, devfn, p, devfn, code, p);
      }
    }
  }

  lemma {:induction false} EnterEntry(s: Scan, path: seq<nat>, end: seq<nat>, devfn: nat, code: nat, b: nat)
    requires Cold(s, path, end)
    ensures var r := Entered(s, Top(path), devfn, code);
            && EntryOk(r.nodes, r.bridges, path + [|s.nodes|], Stretch(end, path), b)
            && EntryKnown(r.nodes, r.bridges, b)
  {
    var p, n, ns := Top(path), |s.nodes|, s.nodes;
    var r := Entered(s, p, devfn, code);
    GrowFrame(ns, p, devfn, code, RootSub(n));
    assert EntryOk(ns, s.bridges, path, end, b) && EntryKnown(ns, s.bridges, b);
    if b < |s.bridges| && s.bridges[b].bus > 0 {
      var i :| 0 < i < n && ns[i].parent == s.bridges[b].bus && DevfnOf(ns, i) == s.bridges[b].devfn;
      assert r.nodes[i].parent == s.bridges[b].bus && DevfnOf(r.nodes, i) == s.bridges[b].devfn;
    }
    if b == |s.bridges| < |r.bridges| {
      assert r.nodes[n].parent == p && DevfnOf(r.nodes, n) == devfn;
    }
  }

  lemma {:induction false} EnterBooks(s: Scan, path: seq<nat>, end: seq<nat>, devfn: nat, code: nat)
    requires Cold(s, path, end) && NewFunction(s.nodes, Top(path), devfn) && |s.nodes| < 256
    requires Top(path) == 0 ==> BridgeAt(s.bridges, 0, devfn) < |s.bridges|
    ensures Books(Entered(s, Top(path), devfn, code), path + [|s.nodes|], Stretch(end, path))
  {
    var p, n, ns := Top(path), |s.nodes|, s.nodes;
    var r, q, e := Entered(s, p, devfn, code), path + [n], Stretch(end, path);
    GrowFrame(ns, p, devfn, code, RootSub(n));
    assert forall i :: i in q <==> i in path || i == n;
    forall i: nat, j: nat ensures DevOrder(r.nodes, i, j) {
      assert DevOrder(ns, i, j);
    }
    forall b: nat ensures EntryOk(r.nodes, r.bridges, q, e, b) && EntryKnown(r.nodes, r.bridges, b) {
      EnterEntry(s, path, end, devfn, code, b);
    }
    forall b: nat, c: nat ensures EntriesDiffer(r.bridges, b, c) {
      assert EntriesDiffer(s.bridges, b, c);
    }
    forall i: nat ensures ListedOk(r.nodes, r.bridges, q, e, i) {
      EnterListed(s, path, end, devfn, code, i);
    }
    forall i: nat ensures RegsOk(r.nodes, r.regs, q, e, i) {
      assert RegsOk(ns, s.regs, path, end, i) && SettledOk(ns, path, end, i);
    }
  }

  /** Entering a bridge: the new bus is open, on the path, and numbered after everything so far. */
  lemma {:induction false} EnterKeepsCold(s: Scan, path: seq<nat>, end: seq<nat>, devfn: nat, code: nat)
    requires Cold(s, path, end) && NewFunction(s.nodes, Top(path), devfn) && |s.nodes| < 256
    requires Top(path) == 0 ==> BridgeAt(s.bridges, 0, devfn) < |s.bridges|
    ensures var (r, lb, ret) := Enter(s, Top(path), devfn, code);
            && ret == Zero && lb == |s.nodes|
            && r == Entered(s, Top(path), devfn, code)
            && Cold(r, path + [|s.nodes|], Stretch(end, path))
  {
    EnterIs(s, path, end, Top(path), devfn, code);
    GrowCore(s.nodes, path, end, devfn, code, RootSub(|s.nodes|));
    EnterBooks(s, path, end, devfn, code);
  }

  // ---------------------------------------------------------------- settling a bridge

  /** Equal except for the subordinate number. */
  predicate SameLinks(a: Node, b: Node) {
    && a.pri == b.pri && a.sec == b.sec && a.parent == b.parent && a.prev == b.prev
    && a.kids == b.kids && a.dev == b.dev
  }

  /** `traverse_back` changes subordinate numbers only. */
  predicate OnlySubs(a: seq<Node>, b: seq<Node>) {
    |a| == |b| && forall i :: 0 <= i < |a| ==> SameLinks(a[i], b[i])
  }

  lemma {:induction false} OpenPathKept(ns: seq<Node>, r: seq<Node>, path: seq<nat>)
    requires PathOk(ns, path) && OnlySubs(ns, r)
    ensures PathOk(r, path)
  {
    forall k: nat ensures PathLink(r, path, k) {
      assert PathLink(ns, path, k);
      assert k < |path| ==> SameLinks(ns[path[k]], r[path[k]]);
    }
  }

  lemma {:induction false} NodesKept(ns: seq<Node>, r: seq<Node>, i: nat)
    requires OnlySubs(ns, r)
    ensures NodeOk(ns, i) ==> NodeOk(r, i)
    ensures KidsAscend(ns, i) ==> KidsAscend(r, i)
  {
    if i < |ns| {
      assert SameLinks(ns[i], r[i]);
    }
  }

  ghost predicate NodesOk(ns: seq<Node>) {
    forall i: nat {:trigger NodeOk(ns, i)} :: NodeOk(ns, i)
  }

  lemma {:induction false} SetSubFrame(ns: seq<Node>, path: seq<nat>, j: nat, sub: nat)
    requires TreeShape(ns) && PathOk(ns, path) && NodesOk(ns) && j < |ns|
    ensures var r := SetSub(ns, j, sub);
            TreeShape(r) && OnlySubs(ns, r) && PathOk(r, path) && NodesOk(r)
  {
    var r := SetSub(ns, j, sub);
    SubDoesNotShape(ns, j, sub);
    assert OnlySubs(ns, r);
    OpenPathKept(ns, r, path);
    forall m: nat ensures NodeOk(r, m) {
      assert NodeOk(ns, m);
      NodesKept(ns, r, m);
    }
  }

  lemma {:induction false} OnlySubsTransitive(a: seq<Node>, b: seq<Node>, c: seq<Node>)
    requires OnlySubs(a, b) && OnlySubs(b, c)
    ensures OnlySubs(a, c)
  {
    forall i | 0 <= i < |a| ensures SameLinks(a[i], c[i]) {
      assert SameLinks(a[i], b[i]) && SameLinks(b[i], c[i]);
    }
  }

  /** Subordinate numbers differ only in nodes of `open`. */
  predicate SubsDiffer(ns: seq<Node>, r: seq<Node>, open: seq<nat>) {
    OnlySubs(ns, r) && forall i :: 0 <= i < |ns| && i !in open ==> r[i].sub == ns[i].sub
  }

  lemma {:induction false} SubsDifferMore(ns: seq<Node>, j: nat, sub: nat, m: seq<Node>, r: seq<Node>, open: seq<nat>)
    requires j < |ns| && (m == ns || m == SetSub(ns, j, sub)) && SubsDiffer(m, r, open)
    ensures SubsDiffer(ns, r, open + [j])
  {
    assert OnlySubs(ns, m);
    OnlySubsTransitive(ns, m, r);
  }

  lemma {:induction false} ClimbStep(ns: seq<Node>, path: seq<nat>, k: nat, bus: nat, sub: nat) returns (m: seq<Node>)
    requires TreeShape(ns) && PathOk(ns, path) && 0 < k < |path| && NodesOk(ns)
    ensures m == ns || m == SetSub(ns, path[k - 1], sub)
    ensures TreeShape(m) && |m| == |ns| && Climb(ns, path[k], bus, sub) == Climb(m, path[k - 1], bus, sub)
  {
    var i, j := path[k], path[k - 1];
    assert NodeOk(ns, i) && NodeOk(ns, j) && PathLink(ns, path, k);
    PrevDecreases(ns, i);
    SubDoesNotShape(ns, j, sub);
    m := if ns[j].dev.value.bus != bus && ns[j].sub < sub then SetSub(ns, j, sub) else ns;
  }

  /** ... and above the settled node only those of open nodes. */
  lemma {:induction false} ClimbFrame(ns: seq<Node>, path: seq<nat>, k: nat, bus: nat, sub: nat)
    requires TreeShape(ns) && PathOk(ns, path) && k < |path| && NodesOk(ns)
    ensures SubsDiffer(ns, Climb(ns, path[k], bus, sub), path[..k])
    decreases k
  {
    if k > 0 {
      var j := path[k - 1];
      var wider := ClimbStep(ns, path, k, bus, sub);
      SetSubFrame(ns, path, j, sub);
      ClimbFrame(wider, path, k - 1, bus, sub);
      SubsDifferMore(ns, j, sub, wider, Climb(wider, j, bus, sub), path[..k - 1]);
      assert path[..k] == path[..k - 1] + [j];
    }
  }

  /** The bus structures after settling the top of the path: exact below it, untouched elsewhere. */
  predicate SettlesTop(ns: seq<Node>, r: seq<Node>, path: seq<nat>, end: seq<nat>)
    requires path != []
  {
    && OnlySubs(ns, r) && Top(path) < |ns| == |end|
    && r[Top(path)].sub == end[Top(path)]
    && forall i :: 0 <= i < |ns| && i !in path ==> r[i].sub == ns[i].sub
  }

  /** What the first half does to the bridge just finished. */
  lemma {:induction false} SettleIs(s: Scan, path: seq<nat>, end: seq<nat>)
    requires Cold(s, path, end) && |path| > 1 && s.cur == Top(path)
    ensures var t, b := Top(path), EntryOf(s.nodes, s.bridges, Top(path));
            && s.nodes[t].dev.Some? && s.nodes[t].parent == s.nodes[t].dev.value.bus == path[|path| - 2]
            && b < |s.bridges|
            && SettleNode(s, t, s.endbus) ==
               Scan(SetSub(s.nodes, t, end[t]), s.lastbus, if |path| == 2 then 0 else s.endbus,
                    path[|path| - 2], s.bridges[b := Settled(s.nodes, end, t)],
                    s.regs[Address(ParentOf(s.nodes, t), DevfnOf(s.nodes, t)) :=
                           BusRegs(ParentOf(s.nodes, t), t, end[t])])
  {
    var ns, t := s.nodes, Top(path);
    assert NodeOk(ns, t) && SettledOk(ns, path, end, t) && ListedOk(ns, s.bridges, path, end, t);
    if ns[t].kids == [] {
      LeafEnds(ns, end, t);
    }
    assert EntryOk(ns, s.bridges, path, end, EntryOf(ns, s.bridges, t));
    assert PathLink(ns, path, |path| - 1);
    assert path[|path| - 2] == 0 <==> |path| == 2;
  }

  /** `traverse_back` gives the bridge just finished its exact subordinate number. */
  lemma {:induction false} LeaveIs(s: Scan, path: seq<nat>, end: seq<nat>)
    requires Cold(s, path, end) && |path| > 1 && s.cur == Top(path)
    ensures var (r, ret) := Traverse(s, s.endbus);
            && ret == Zero && SettlesTop(s.nodes, r.nodes, path, end) && s.nodes[Top(path)].dev.Some?
            && r == SettleNode(s, Top(path), s.endbus).(nodes := r.nodes)
  {
    var ns, t := s.nodes, Top(path);
    FindDuringScan(ns, path, end, t);
    SettleIs(s, path, end);
    var settled := SetSub(ns, t, end[t]);
    SetSubFrame(ns, path, t, end[t]);
    ClimbFrame(settled, path, |path| - 1, ns[t].parent, s.endbus);
    LeaveSubs(ns, settled, Climb(settled, t, ns[t].parent, s.endbus), path, end);
  }

  lemma {:induction false} LeaveSubs(ns: seq<Node>, settled: seq<Node>, r: seq<Node>, path: seq<nat>, end: seq<nat>)
    requires PathOk(ns, path) && |end| == |ns| && settled == SetSub(ns, Top(path), end[Top(path)])
    requires SubsDiffer(settled, r, path[..|path| - 1])
    ensures SettlesTop(ns, r, path, end)
  {
    assert Top(path) !in path[..|path| - 1];
    forall i | 0 <= i < |ns| ensures SameLinks(ns[i], r[i]) {
      assert SameLinks(settled[i], r[i]);
    }
  }

  lemma {:induction false} LeaveCore(ns: seq<Node>, r: seq<Node>, path: seq<nat>, end: seq<nat>)
    requires Core(ns, path, end) && |path| > 1 && SettlesTop(ns, r, path, end) && TreeShape(r)
    ensures Core(r, path[..|path| - 1], end)
  {
    var q := path[..|path| - 1];
    assert path == q + [Top(path)];
    forall i: nat ensures NodeOk(r, i) && KidsAscend(r, i) {
      assert NodeOk(ns, i) && KidsAscend(ns, i);
      NodesKept(ns, r, i);
    }
    forall i: nat ensures SettledOk(r, q, end, i) && EndOk(r, end, i) {
      assert SettledOk(ns, path, end, i) && EndOk(ns, end, i);
      assert i < |ns| ==> SameLinks(ns[i], r[i]);
    }
    forall i: nat, j: nat ensures ApartOk(r, end, i, j) {
      assert ApartOk(ns, end, i, j);
      assert i < |ns| && j < |ns| ==> SameLinks(ns[i], r[i]) && SameLinks(ns[j], r[j]);
    }
    OpenPathKept(ns, r, path);
    forall k: nat ensures PathLink(r, q, k) {
      assert PathLink(r, path, k);
    }
  }

  lemma {:induction false} BridgeAtUpdate(brs: seq<Bridge>, b: nat, br: Bridge, bus: nat, devfn: nat)
    requires b < |brs| && br.bus == brs[b].bus && br.devfn == brs[b].devfn
    ensures BridgeAt(brs[b := br], bus, devfn) == BridgeAt(brs, bus, devfn)
  {
    if !(brs[0].bus == bus && brs[0].devfn == devfn) {
      if b > 0 {
        BridgeAtUpdate(brs[1..], b - 1, br, bus, devfn);
        assert brs[b := br][1..] == brs[1..][b - 1 := br];
      } else {
        assert brs[b := br][1..] == brs[1..];
      }
    }
  }

  /** Different numbered bridges are different functions, so they have different entries. */
  lemma {:induction false} EntriesSeparate(s: Scan, path: seq<nat>, end: seq<nat>, i: nat, j: nat)
    requires Cold(s, path, end) && 0 < i < |s.nodes| && 0 < j < |s.nodes| && i != j
    ensures s.nodes[i].parent >= 0 && s.nodes[j].parent >= 0
    ensures s.nodes[i].parent != s.nodes[j].parent || DevfnOf(s.nodes, i) != DevfnOf(s.nodes, j)
    ensures EntryOf(s.nodes, s.bridges, i) != EntryOf(s.nodes, s.bridges, j)
  {
    assert NodeOk(s.nodes, i) && NodeOk(s.nodes, j);
    assert DevOrder(s.nodes, i, j) && DevOrder(s.nodes, j, i);
    assert ListedOk(s.nodes, s.bridges, path, end, i) && ListedOk(s.nodes, s.bridges, path, end, j);
  }

  /** What `Books` reads of the nodes is not touched. */
  predicate SameFunctions(ns: seq<Node>, r: seq<Node>) {
    |r| == |ns| && forall i :: 0 <= i < |ns| ==> r[i].parent == ns[i].parent && DevfnOf(r, i) == DevfnOf(ns, i)
  }

  lemma {:induction false} LeaveFunctions(ns: seq<Node>, r: seq<Node>)
    requires OnlySubs(ns, r)
    ensures SameFunctions(ns, r)
  {
    forall i | 0 <= i < |ns| ensures r[i].parent == ns[i].parent && DevfnOf(r, i) == DevfnOf(ns, i) {
      assert SameLinks(ns[i], r[i]);
    }
  }

  lemma {:induction false} LeaveEntries(s: Scan, path: seq<nat>, end: seq<nat>, r: seq<Node>, c: nat)
    requires Cold(s, path, end) && |path| > 1 && SameFunctions(s.nodes, r)
    requires EntryOf(s.nodes, s.bridges, Top(path)) < |s.bridges|
    ensures var brs := s.bridges[EntryOf(s.nodes, s.bridges, Top(path)) := Settled(s.nodes, end, Top(path))];
            EntryOk(r, brs, path[..|path| - 1], end, c) && EntryKnown(r, brs, c)
  {
    var ns, t, q := s.nodes, Top(path), path[..|path| - 1];
    assert path == q + [t] && t !in q;
    assert NodeOk(ns, t);
    assert EntryOk(ns, s.bridges, path, end, c) && EntryKnown(ns, s.bridges, c);
  }

  lemma {:induction false} LeaveEntry(s: Scan, path: seq<nat>, end: seq<nat>, r: seq<Node>, i: nat)
    requires Cold(s, path, end) && |path| > 1 && SameFunctions(s.nodes, r)
    requires 0 < i < |s.nodes|
    ensures var t := Top(path);
            var b := EntryOf(s.nodes, s.bridges, t);
            b < |s.bridges| &&
            ListedOk(r, s.bridges[b := Settled(s.nodes, end, t)], path[..|path| - 1], end, i)
  {
    var ns, t, q := s.nodes, Top(path), path[..|path| - 1];
    assert path == q + [t] && t !in q;
    var b := EntryOf(ns, s.bridges, t);
    assert NodeOk(ns, t) && ListedOk(ns, s.bridges, path, end, t);
    assert NodeOk(ns, i) && ListedOk(ns, s.bridges, path, end, i);
    if i != t {
      EntriesSeparate(s, path, end, i, t);
    }
    BridgeAtUpdate(s.bridges, b, Settled(ns, end, t), ns[i].parent, DevfnOf(ns, i));
    var j := ns[i].parent;
    if j > 0 {
      assert NodeOk(ns, j);
      BridgeAtUpdate(s.bridges, b, Settled(ns, end, t), ns[j].parent, DevfnOf(ns, j));
    }
  }

  lemma {:induction false} LeaveRegs(s: Scan, path: seq<nat>, end: seq<nat>, r: seq<Node>, i: nat)
    requires Cold(s, path, end) && |path| > 1 && SameFunctions(s.nodes, r)
    ensures var ns, t := s.nodes, Top(path);
            RegsOk(r, s.regs[Address(ParentOf(ns, t), DevfnOf(ns, t)) := BusRegs(ParentOf(ns, t), t, end[t])],
                   path[..|path| - 1], end, i)
  {
    var ns, t, q := s.nodes, Top(path), path[..|path| - 1];
    assert path == q + [t] && t !in q;
    assert NodeOk(ns, t);
    if 0 < i < |ns| {
      assert NodeOk(ns, i) && RegsOk(ns, s.regs, path, end, i);
      if i != t {
        EntriesSeparate(s, path, end, i, t);
      }
    }
  }

  lemma {:induction false} LeaveBooks(s: Scan, path: seq<nat>, end: seq<nat>)
    requires Cold(s, path, end) && |path| > 1 && s.cur == Top(path)
    ensures Books(Traverse(s, s.endbus).0, path[..|path| - 1], end)
  {
    var ns, q, r := s.nodes, path[..|path| - 1], Traverse(s, s.endbus).0;
    LeaveIs(s, path, end);
    SettleIs(s, path, end);
    LeaveFunctions(ns, r.nodes);
    forall i: nat, j: nat ensures DevOrder(r.nodes, i, j) {
      assert DevOrder(ns, i, j);
    }
    forall c: nat ensures EntryOk(r.nodes, r.bridges, q, end, c) && EntryKnown(r.nodes, r.bridges, c) {
      LeaveEntries(s, path, end, r.nodes, c);
    }
    forall c: nat, d: nat ensures EntriesDiffer(r.bridges, c, d) {
      assert EntriesDiffer(s.bridges, c, d);
    }
    forall i: nat ensures ListedOk(r.nodes, r.bridges, q, end, i) && RegsOk(r.nodes, r.regs, q, end, i) {
      LeaveRegs(s, path, end, r.nodes, i);
      if 0 < i < |ns| {
        LeaveEntry(s, path, end, r.nodes, i);
      }
    }
  }

  /** Settling a bridge keeps the invariant, one bus higher on the path. */
  lemma {:induction false} LeaveKeepsCold(s: Scan, path: seq<nat>, end: seq<nat>)
    requires Cold(s, path, end) && |path| > 1 && s.cur == Top(path)
    ensures var (r, ret) := Traverse(s, s.endbus);
            && ret == Zero && Cold(r, path[..|path| - 1], end)
            && r.cur == Top(path[..|path| - 1]) && OnlySubs(s.nodes, r.nodes)
  {
    LeaveIs(s, path, end);
    SettleIs(s, path, end);
    LeaveCore(s.nodes, Traverse(s, s.endbus).0.nodes, path, end);
    LeaveBooks(s, path, end);
  }
}
