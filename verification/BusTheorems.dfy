/** The bus scan from a cold start follows the depth-first plan and leaves exact bus intervals. */
module BusTheorems {
  import opened Common
  import opened BusTree
  import opened BusAlloc
  import opened BusScan
  import opened BusNumbering
  import opened BusInvariant

  /** The invariant of the scan while the buses of `path` are open. */
  ghost predicate ColdAt(s: Scan, path: seq<nat>) {
    exists end :: Cold(s, path, end)
  }

  lemma {:induction false} ColdIgnoresCur(s: Scan, path: seq<nat>, end: seq<nat>, bus: nat)
    requires Cold(s, path, end)
    ensures Cold(s.(cur := bus), path, end)
  {
  }

  /** Everything listed in `a` is listed in `b`, and nothing more on bus 0. */
  ghost predicate ListsMore(a: seq<Bridge>, b: seq<Bridge>) {
    forall bus: nat, devfn: nat {:trigger BridgeAt(b, bus, devfn)} :: ListsAlike(a, b, bus, devfn)
  }

  ghost predicate ListsAlike(a: seq<Bridge>, b: seq<Bridge>, bus: nat, devfn: nat) {
    && (BridgeAt(a, bus, devfn) < |a| ==> BridgeAt(b, bus, devfn) < |b|)
    && (bus == 0 && BridgeAt(b, bus, devfn) < |b| ==> BridgeAt(a, bus, devfn) < |a|)
  }

  lemma {:induction false} ListsTransitive(a: seq<Bridge>, b: seq<Bridge>, c: seq<Bridge>)
    requires ListsMore(a, b) && ListsMore(b, c)
    ensures ListsMore(a, c)
  {
    forall bus: nat, devfn: nat ensures ListsAlike(a, c, bus, devfn) {
      assert ListsAlike(a, b, bus, devfn) && ListsAlike(b, c, bus, devfn);
    }
  }

  /** Every bridge on bus 0 from `devfn` on is listed. */
  ghost predicate BusZeroListed(brs: seq<Bridge>, hw: Bus, devfn: nat) {
    forall k: nat {:trigger BridgeAt(brs, 0, k)} :: devfn <= k < 256 && IsBridge(hw, k) ==> BridgeAt(brs, 0, k) < |brs|
  }

  /** Bridges planned on bus `bus` have functions from `devfn` on; all others hang below planned ones. */
  lemma {:induction false} PlanParents(hw: Bus, devfn: nat, bus: nat, next: nat, k: nat)
    requires devfn <= 256 && k < |Plan(hw, devfn, bus, next)|
    ensures var r := Plan(hw, devfn, bus, next)[k];
            if r.parent == bus then devfn <= r.devfn < 256 || r.parent >= next else r.parent >= next
    decreases hw, 256 - devfn
  {
    if devfn < 256 {
      if IsBridge(hw, devfn) {
        var inner := Plan(hw.fns[devfn].below, 0, next, next + 1);
        var sub := [Rec(bus, devfn, ClassAt(hw, devfn))] + inner;
        if 0 < k < |sub| {
          PlanParents(hw.fns[devfn].below, 0, next, next + 1, k - 1);
        } else if |sub| <= k {
          PlanParents(hw, devfn + 1, bus, next + |sub|, k - |sub|);
        }
      } else {
        PlanParents(hw, devfn + 1, bus, next, k);
      }
    }
  }

  lemma {:induction false} NodesHaveParents(ns: seq<Node>)
    requires NodesOk(ns)
    ensures forall i :: 0 < i < |ns| ==> ns[i].parent >= 0
  {
    forall i | 0 < i < |ns| ensures ns[i].parent >= 0 {
      assert NodeOk(ns, i);
    }
  }

  lemma {:induction false} GrowRecs(ns: seq<Node>, p: nat, devfn: nat, code: nat, v: nat)
    requires p < |ns| && forall i :: 0 < i < |ns| ==> ns[i].parent >= 0
    ensures var r := Grow(ns, p, devfn, code, v);
            (forall i :: 0 < i < |r| ==> r[i].parent >= 0) && Recs(r) == Recs(ns) + [Rec(p, devfn, code)]
  {
    GrowFrame(ns, p, devfn, code, v);
  }

  lemma {:induction false} SubsRecs(ns: seq<Node>, r: seq<Node>)
    requires OnlySubs(ns, r) && forall i :: 0 < i < |ns| ==> ns[i].parent >= 0
    ensures (forall i :: 0 < i < |r| ==> r[i].parent >= 0) && Recs(r) == Recs(ns)
  {
    forall i | 0 < i < |r| ensures r[i].parent >= 0 && DevfnOf(r, i) == DevfnOf(ns, i) && ClassOf(r, i) == ClassOf(ns, i) {
      assert SameLinks(ns[i], r[i]);
    }
  }

  /** After numbering what lies behind `devfn`, the next function of `bus` is still new. */
  lemma {:induction false} NextIsNew(ns: seq<Node>, r: seq<Node>, below: Bus, bus: nat, devfn: nat, code: nat)
    requires forall i :: 0 < i < |ns| ==> ns[i].parent >= 0
    requires forall i :: 0 < i < |r| ==> r[i].parent >= 0
    requires bus < |ns| && NewFunction(ns, bus, devfn)
    requires Recs(r) == Recs(ns) + [Rec(bus, devfn, code)] + Plan(below, 0, |ns|, |ns| + 1)
    ensures NewFunction(r, bus, devfn + 1)
  {
    forall i | 0 < i < |r| && r[i].parent == bus ensures DevfnOf(r, i) < devfn + 1 {
      assert Recs(r)[i - 1] == Rec(r[i].parent, DevfnOf(r, i), ClassOf(r, i));
      if i < |ns| {
        assert Recs(ns)[i - 1] == Rec(ns[i].parent, DevfnOf(ns, i), ClassOf(ns, i));
      } else if i > |ns| {
        PlanParents(below, 0, |ns|, |ns| + 1, i - 1 - |ns|);
      }
    }
  }

  lemma {:induction false} EntryListed(s: Scan, bus: nat, devfn: nat, code: nat)
    requires bus < |s.nodes| && (bus == 0 ==> BridgeAt(s.bridges, 0, devfn) < |s.bridges|)
    ensures ListsMore(s.bridges, Entered(s, bus, devfn, code).bridges)
  {
    var r := Entered(s, bus, devfn, code);
    forall b: nat, d: nat ensures ListsAlike(s.bridges, r.bridges, b, d) {
      BridgeAtPrefix(s.bridges, Bridge(bus, devfn, 0, 0), b, d);
    }
  }

  lemma {:induction false} LeaveListed(s: Scan, path: seq<nat>, end: seq<nat>)
    requires Cold(s, path, end) && |path| > 1 && s.cur == Top(path)
    ensures ListsMore(s.bridges, Traverse(s, s.endbus).0.bridges)
  {
    LeaveIs(s, path, end);
    SettleIs(s, path, end);
    var r := Traverse(s, s.endbus).0;
    forall b: nat, d: nat ensures ListsAlike(s.bridges, r.bridges, b, d) {
      assert BridgeAt(r.bridges, b, d) <= |r.bridges| && BridgeAt(s.bridges, b, d) <= |s.bridges|;
      BridgeAtUpdate(s.bridges, EntryOf(s.nodes, s.bridges, Top(path)), Settled(s.nodes, end, Top(path)), b, d);
    }
  }

  /** Bus 0 is still linked to the host bridge it was linked to. */
  predicate SameHost(a: seq<Node>, b: seq<Node>) {
    a != [] && b != [] && a[0].dev == b[0].dev
  }

  /** What one run of the scan over (the rest of) a bus achieves. */
  ghost predicate Scanned(s: Scan, r: Scan, hw: Bus, devfn: nat, path: seq<nat>)
    requires path != [] && devfn <= 256
  {
    && ColdAt(r, path) && r.cur == Top(path) && ListsMore(s.bridges, r.bridges) && SameHost(s.nodes, r.nodes)
    && (forall i :: 0 < i < |s.nodes| ==> s.nodes[i].parent >= 0)
    && (forall i :: 0 < i < |r.nodes| ==> r.nodes[i].parent >= 0)
    && Recs(r.nodes) == Recs(s.nodes) + Plan(hw, devfn, Top(path), |s.nodes|)
  }

  /** The scan from `s` ends without error in `r`, with the wanted effect. */
  ghost predicate ScansTo(s: Scan, r: Scan, hw: Bus, devfn: nat, path: seq<nat>) {
    && path != [] && devfn <= 256 && TreeShape(s.nodes)
    && Setup(s, hw, devfn, Top(path)) == (r, Zero) && Scanned(s, r, hw, devfn, path)
  }

  ghost predicate ScanWorks(s: Scan, hw: Bus, devfn: nat, path: seq<nat>) {
    exists r :: ScansTo(s, r, hw, devfn, path)
  }

  /** A state from which (the rest of) bus `Top(path)` can be scanned. */
  ghost predicate ReadyAt(s: Scan, hw: Bus, devfn: nat, path: seq<nat>, end: seq<nat>) {
    && devfn <= 256 && Cold(s, path, end) && (devfn == 0 || s.cur == Top(path))
    && NewFunction(s.nodes, Top(path), devfn)
    && |s.nodes| + |Plan(hw, devfn, Top(path), |s.nodes|)| <= 256
    && (Top(path) == 0 ==> BusZeroListed(s.bridges, hw, devfn))
  }

  ghost predicate CanScan(s: Scan, hw: Bus, devfn: nat, path: seq<nat>) {
    exists end :: ReadyAt(s, hw, devfn, path, end)
  }

  // ---------------------------------------------------------------- one function

  /** A function that is not a bridge changes at most the current bus. */
  lemma {:induction false} SetupSkip(s: Scan, hw: Bus, devfn: nat, bus: nat)
    requires devfn < 256 && !IsBridge(hw, devfn) && TreeShape(s.nodes)
    ensures Setup(s, hw, devfn, bus) ==
            Setup(if Visited(hw, devfn) then s.(cur := bus) else s, hw, devfn + 1, bus)
  {
    if Visited(hw, devfn) {
      assert Setup(s, hw, devfn, bus) == SetupFunction(s.(cur := bus), hw, devfn, bus);
    }
  }

  // ---------------------------------------------------------------- every point of the scan

  /** The states right after each bridge is entered and right after each bridge is settled. */
  ghost function Trace(s: Scan, hw: Bus, devfn: nat, bus: nat): (r: seq<Scan>)
    requires TreeShape(s.nodes) && devfn <= 256
    decreases hw, 256 - devfn, 1
  {
    if devfn == 256 then []
    else
      var t := if Visited(hw, devfn) then s.(cur := bus) else s;
      if IsBridge(hw, devfn) && s.bridges != [] then TraceBridge(t, hw, devfn, bus)
      else if IsBridge(hw, devfn) then []
      else Trace(t, hw, devfn + 1, bus)
  }

  ghost function TraceBridge(s: Scan, hw: Bus, devfn: nat, bus: nat): (r: seq<Scan>)
    requires TreeShape(s.nodes) && devfn < 256 && IsBridge(hw, devfn)
    decreases hw, 256 - devfn, 0
  {
    var (u, lb, ret) := Enter(s, bus, devfn, ClassAt(hw, devfn));
    var inside := if ret == Zero then Trace(u, hw.fns[devfn].below, 0, lb) else [];
    if ret != Zero || Setup(u, hw.fns[devfn].below, 0, lb).1 != Zero then [u] + inside
    else
      var v := Setup(u, hw.fns[devfn].below, 0, lb).0;
      var (w, back) := Traverse(v, v.endbus);
      [u] + inside + [w] + (if back == Zero then Trace(w, hw, devfn + 1, bus) else [])
  }

  ghost predicate IsCold(s: Scan) {
    exists path, end :: Cold(s, path, end)
  }

  ghost predicate AllCold(ts: seq<Scan>) {
    forall k :: 0 <= k < |ts| ==> IsCold(ts[k])
  }

  lemma {:induction false} AllColdParts(u: Scan, a: seq<Scan>, w: Scan, b: seq<Scan>)
    requires IsCold(u) && AllCold(a) && IsCold(w) && AllCold(b)
    ensures AllCold([u] + a + [w] + b)
  {
  }

  /** What one bridge adds to the trace. */
  ghost predicate TracesTo(s: Scan, u: Scan, w: Scan, hw: Bus, devfn: nat, path: seq<nat>) {
    && path != [] && devfn < 256 && IsBridge(hw, devfn) && TreeShape(s.nodes) && TreeShape(u.nodes)
    && TreeShape(w.nodes) && IsCold(u) && IsCold(w)
    && Trace(s, hw, devfn, Top(path)) ==
       [u] + Trace(u, hw.fns[devfn].below, 0, |s.nodes|) + [w] + Trace(w, hw, devfn + 1, Top(path))
  }

  lemma {:induction false} TraceStep(s: Scan, u: Scan, v: Scan, w: Scan, hw: Bus, devfn: nat, bus: nat)
    requires devfn < 256 && IsBridge(hw, devfn) && s.bridges != [] && TreeShape(s.nodes)
    requires Enter(s.(cur := bus), bus, devfn, ClassAt(hw, devfn)) == (u, |s.nodes|, Zero)
    requires TreeShape(u.nodes) && Setup(u, hw.fns[devfn].below, 0, |s.nodes|) == (v, Zero)
    requires TreeShape(v.nodes) && Traverse(v, v.endbus) == (w, Zero)
    ensures TreeShape(w.nodes)
    ensures Trace(s, hw, devfn, bus) ==
            [u] + Trace(u, hw.fns[devfn].below, 0, |s.nodes|) + [w] + Trace(w, hw, devfn + 1, bus)
  {
    assert Trace(s, hw, devfn, bus) == TraceBridge(s.(cur := bus), hw, devfn, bus);
  }

  // ---------------------------------------------------------------- one bridge

  lemma {:induction false} PlanFits(hw: Bus, devfn: nat, bus: nat, n: nat)
    requires devfn < 256 && IsBridge(hw, devfn)
    ensures var inner := Plan(hw.fns[devfn].below, 0, n, n + 1);
            |Plan(hw, devfn, bus, n)| == 1 + |inner| + |Plan(hw, devfn + 1, bus, n + 1 + |inner|)|
  {
  }

  /** A bridge found on bus 0 was listed beforehand; deeper down the list holds at least its parent. */
  lemma {:induction false} BridgeListIsThere(s: Scan, path: seq<nat>, end: seq<nat>, hw: Bus, devfn: nat)
    requires Cold(s, path, end) && devfn < 256 && IsBridge(hw, devfn)
    requires Top(path) == 0 ==> BusZeroListed(s.bridges, hw, devfn)
    ensures s.bridges != [] && (Top(path) == 0 ==> BridgeAt(s.bridges, 0, devfn) < |s.bridges|)
  {
    assert BridgeAt(s.bridges, 0, devfn) <= |s.bridges|;
    var t := Top(path);
    assert NodeOk(s.nodes, t) && ListedOk(s.nodes, s.bridges, path, end, t);
  }

  /** A bus just entered has no children yet. */
  lemma {:induction false} NewBusIsEmpty(s: Scan, path: seq<nat>, end: seq<nat>)
    requires Cold(s, path, end) && Top(path) == |s.nodes| - 1
    ensures NewFunction(s.nodes, Top(path), 0)
  {
    forall i | 0 < i < |s.nodes| ensures s.nodes[i].parent != Top(path) {
      assert NodeOk(s.nodes, i);
    }
  }

  /** `u` is the state in which the scan behind the bridge at `devfn` starts. */
  ghost predicate EntersAt(s: Scan, u: Scan, devfn: nat, code: nat, path: seq<nat>) {
    path != [] && Top(path) < |s.nodes| && u == Entered(s.(cur := Top(path)), Top(path), devfn, code)
  }

  lemma {:induction false} EnterScan(s: Scan, hw: Bus, devfn: nat, path: seq<nat>) returns (u: Scan)
    requires devfn < 256 && CanScan(s, hw, devfn, path) && IsBridge(hw, devfn)
    ensures EntersAt(s, u, devfn, ClassAt(hw, devfn), path) && CanScan(u, hw.fns[devfn].below, 0, path + [|s.nodes|])
    ensures TreeShape(s.nodes) && s.bridges != []
    ensures Enter(s.(cur := Top(path)), Top(path), devfn, ClassAt(hw, devfn)) == (u, |s.nodes|, Zero)
  {
    var n := |s.nodes|;
    var end :| ReadyAt(s, hw, devfn, path, end);
    var t := s.(cur := Top(path));
    ColdIgnoresCur(s, path, end, Top(path));
    PlanFits(hw, devfn, Top(path), n);
    BridgeListIsThere(t, path, end, hw, devfn);
    EnterKeepsCold(t, path, end, devfn, ClassAt(hw, devfn));
    u := Entered(t, Top(path), devfn, ClassAt(hw, devfn));
    assert Top(path + [n]) == n && |u.nodes| == n + 1;
    EnterReady(u, hw.fns[devfn].below, path + [n], Stretch(end, path));
  }

  lemma {:induction false} EnterReady(u: Scan, below: Bus, path: seq<nat>, end: seq<nat>)
    requires Cold(u, path, end) && 0 < Top(path) == |u.nodes| - 1
    requires |u.nodes| + |Plan(below, 0, |u.nodes| - 1, |u.nodes|)| <= 256
    ensures CanScan(u, below, 0, path)
  {
    NewBusIsEmpty(u, path, end);
    assert ReadyAt(u, below, 0, path, end);
  }

  /** From `s` to `w` one bridge and everything behind it has been numbered. */
  ghost predicate BridgeDone(s: Scan, w: Scan, hw: Bus, devfn: nat, path: seq<nat>)
    requires path != [] && IsBridge(hw, devfn)
  {
    && s.nodes != [] && w.nodes != [] && ListsMore(s.bridges, w.bridges) && SameHost(s.nodes, w.nodes)
    && (forall i :: 0 < i < |s.nodes| ==> s.nodes[i].parent >= 0)
    && (forall i :: 0 < i < |w.nodes| ==> w.nodes[i].parent >= 0)
    && Recs(w.nodes) == Recs(s.nodes) + [Rec(Top(path), devfn, ClassAt(hw, devfn))] +
                        Plan(hw.fns[devfn].below, 0, |s.nodes|, |s.nodes| + 1)
  }

  /** Without errors a bridge takes `setup_pci2pci_bridges` from `s` to `w`. */
  lemma {:induction false} SetupStep(s: Scan, u: Scan, v: Scan, w: Scan, hw: Bus, devfn: nat, bus: nat)
    requires devfn < 256 && IsBridge(hw, devfn) && s.bridges != [] && TreeShape(s.nodes)
    requires Enter(s.(cur := bus), bus, devfn, ClassAt(hw, devfn)) == (u, |s.nodes|, Zero)
    requires TreeShape(u.nodes) && Setup(u, hw.fns[devfn].below, 0, |s.nodes|) == (v, Zero)
    requires TreeShape(v.nodes) && Traverse(v, v.endbus) == (w, Zero)
    ensures TreeShape(w.nodes) && Setup(s, hw, devfn, bus) == Setup(w, hw, devfn + 1, bus)
  {
    assert Setup(s, hw, devfn, bus) == SetupFunction(s.(cur := bus), hw, devfn, bus);
    assert SetupFunction(s.(cur := bus), hw, devfn, bus) == SetupBridge(s.(cur := bus), hw, devfn, bus);
  }

  lemma {:induction false} BridgeLists(s: Scan, u: Scan, v: Scan, w: Scan, devfn: nat, code: nat,
          path: seq<nat>)
    requires path != [] && EntersAt(s, u, devfn, code, path) && ColdAt(v, path + [|s.nodes|]) && v.cur == Top(path + [|s.nodes|])
    requires Top(path) == 0 ==> BridgeAt(s.bridges, 0, devfn) < |s.bridges|
    requires ListsMore(u.bridges, v.bridges) && TreeShape(v.nodes) && w == Traverse(v, v.endbus).0
    ensures ListsMore(s.bridges, w.bridges)
  {
    var end :| Cold(v, path + [|s.nodes|], end);
    EntryListed(s.(cur := Top(path)), Top(path), devfn, code);
    LeaveListed(v, path + [|s.nodes|], end);
    ListsTransitive(s.bridges, u.bridges, v.bridges);
    ListsTransitive(s.bridges, v.bridges, w.bridges);
  }

  /** The records after one bridge and everything behind it. */
  lemma {:induction false} BridgeRecs(ns: seq<Node>, v: seq<Node>, w: seq<Node>, below: Bus, bus: nat, devfn: nat,
          code: nat)
    requires bus < |ns| && NewFunction(ns, bus, devfn)
    requires forall i :: 0 < i < |ns| ==> ns[i].parent >= 0
    requires forall i :: 0 < i < |Grow(ns, bus, devfn, code, RootSub(|ns|))| ==> Grow(ns, bus, devfn, code, RootSub(|ns|))[i].parent >= 0
    requires forall i :: 0 < i < |v| ==> v[i].parent >= 0
    requires Recs(v) == Recs(Grow(ns, bus, devfn, code, RootSub(|ns|))) + Plan(below, 0, |ns|, |ns| + 1) && OnlySubs(v, w)
    ensures forall i :: 0 < i < |w| ==> w[i].parent >= 0
    ensures Recs(w) == Recs(ns) + [Rec(bus, devfn, code)] + Plan(below, 0, |ns|, |ns| + 1) && NewFunction(w, bus, devfn + 1)
  {
    GrowRecs(ns, bus, devfn, code, RootSub(|ns|));
    SubsRecs(v, w);
    NextIsNew(ns, w, below, bus, devfn, code);
  }

  /** One bridge and everything behind it. */
  lemma {:induction false} OneBridge(s: Scan, u: Scan, v: Scan, w: Scan, hw: Bus, devfn: nat, path: seq<nat>)
    requires devfn < 256 && IsBridge(hw, devfn) && TreeShape(s.nodes) && ColdAt(s, path) && path != []
    requires NewFunction(s.nodes, Top(path), devfn) && EntersAt(s, u, devfn, ClassAt(hw, devfn), path)
    requires Top(path) == 0 ==> BridgeAt(s.bridges, 0, devfn) < |s.bridges|
    requires Scanned(u, v, hw.fns[devfn].below, 0, path + [|s.nodes|])
    requires TreeShape(v.nodes) && w == Traverse(v, v.endbus).0 && OnlySubs(v.nodes, w.nodes)
    ensures BridgeDone(s, w, hw, devfn, path) && NewFunction(w.nodes, Top(path), devfn + 1)
  {
    var bus, n := Top(path), |s.nodes|;
    var end :| Cold(s, path, end);
    NodesHaveParents(s.nodes);
    BridgeLists(s, u, v, w, devfn, ClassAt(hw, devfn), path);
    assert Top(path + [n]) == n;
    BridgeRecs(s.nodes, v.nodes, w.nodes, hw.fns[devfn].below, bus, devfn, ClassAt(hw, devfn));
  }

  /** The plan of a bus is its first bridge with what lies behind it, then the rest. */
  lemma {:induction false} PlanSplits(s: Scan, w: Scan, r: Scan, hw: Bus, devfn: nat, path: seq<nat>)
    requires path != [] && devfn < 256 && IsBridge(hw, devfn)
    requires BridgeDone(s, w, hw, devfn, path) && Scanned(w, r, hw, devfn + 1, path)
    ensures Scanned(s, r, hw, devfn, path)
  {
    var sub := [Rec(Top(path), devfn, ClassAt(hw, devfn))] + Plan(hw.fns[devfn].below, 0, |s.nodes|, |s.nodes| + 1);
    assert |w.nodes| == |s.nodes| + |sub|;
    assert Recs(w.nodes) == Recs(s.nodes) + sub;
    var rest := Plan(hw, devfn + 1, Top(path), |w.nodes|);
    assert Recs(s.nodes) + sub + rest == Recs(s.nodes) + (sub + rest);
    ListsTransitive(s.bridges, w.bridges, r.bridges);
  }

  /** The state `w` in which the scan goes on after the bridge at `devfn`. */
  ghost predicate LeavesTo(s: Scan, u: Scan, v: Scan, w: Scan, hw: Bus, devfn: nat, path: seq<nat>) {
    && path != [] && devfn < 256 && IsBridge(hw, devfn) && TreeShape(s.nodes) && TreeShape(u.nodes)
    && TreeShape(v.nodes) && TreeShape(w.nodes)
    && Setup(u, hw.fns[devfn].below, 0, |s.nodes|) == (v, Zero) && Traverse(v, v.endbus) == (w, Zero)
    && Setup(s, hw, devfn, Top(path)) == Setup(w, hw, devfn + 1, Top(path))
    && BridgeDone(s, w, hw, devfn, path)
  }

  lemma {:induction false} LeaveStep(s: Scan, u: Scan, hw: Bus, devfn: nat, path: seq<nat>) returns (v: Scan, w: Scan)
    requires devfn < 256 && CanScan(s, hw, devfn, path) && IsBridge(hw, devfn)
    requires EntersAt(s, u, devfn, ClassAt(hw, devfn), path) && ScanWorks(u, hw.fns[devfn].below, 0, path + [|s.nodes|])
    ensures LeavesTo(s, u, v, w, hw, devfn, path) && CanScan(w, hw, devfn + 1, path)
    ensures s.bridges != [] && Enter(s.(cur := Top(path)), Top(path), devfn, ClassAt(hw, devfn)) == (u, |s.nodes|, Zero)
  {
    var n := |s.nodes|;
    var u' := EnterScan(s, hw, devfn, path);
    assert Top(path + [n]) == n && (path + [n])[..|path|] == path;
    v :| ScansTo(u, v, hw.fns[devfn].below, 0, path + [n]);
    var end :| Cold(v, path + [n], end);
    w := Traverse(v, v.endbus).0;
    LeaveKeepsCold(v, path + [n], end);
    SetupStep(s, u, v, w, hw, devfn, Top(path));
    var end0 :| ReadyAt(s, hw, devfn, path, end0);
    assert ColdAt(s, path);
    BridgeListIsThere(s, path, end0, hw, devfn);
    OneBridge(s, u, v, w, hw, devfn, path);
    LeaveReady(s, w, hw, devfn, path, end);
  }

  lemma {:induction false} LeaveReady(s: Scan, w: Scan, hw: Bus, devfn: nat, path: seq<nat>, end: seq<nat>)
    requires devfn < 256 && CanScan(s, hw, devfn, path) && IsBridge(hw, devfn)
    requires path != [] && BridgeDone(s, w, hw, devfn, path) && NewFunction(w.nodes, Top(path), devfn + 1)
    requires Cold(w, path, end) && w.cur == Top(path)
    ensures CanScan(w, hw, devfn + 1, path)
  {
    var end0 :| ReadyAt(s, hw, devfn, path, end0);
    PlanFits(hw, devfn, Top(path), |s.nodes|);
    if Top(path) == 0 {
      forall k: nat | devfn + 1 <= k < 256 && IsBridge(hw, k) ensures BridgeAt(w.bridges, 0, k) < |w.bridges| {
        assert BridgeAt(s.bridges, 0, k) < |s.bridges|;
      }
    }
    assert ReadyAt(w, hw, devfn + 1, path, end);
  }

  ghost predicate TraceCold(s: Scan, hw: Bus, devfn: nat, path: seq<nat>) {
    path != [] && devfn <= 256 && TreeShape(s.nodes) && AllCold(Trace(s, hw, devfn, Top(path)))
  }

  lemma {:induction false} CanScanIsCold(s: Scan, hw: Bus, devfn: nat, path: seq<nat>)
    requires CanScan(s, hw, devfn, path)
    ensures IsCold(s) && TreeShape(s.nodes) && path != []
  {
    var end :| ReadyAt(s, hw, devfn, path, end);
  }

  // ---------------------------------------------------------------- the whole scan

  /** The scan ends as planned, and the invariant holds at every point on the way. */
  ghost predicate Works(s: Scan, hw: Bus, devfn: nat, path: seq<nat>) {
    ScanWorks(s, hw, devfn, path) && TraceCold(s, hw, devfn, path)
  }

  /** From `s` the scan goes on to `w`, where only functions after `devfn` are left. */
  ghost predicate GoesOn(s: Scan, w: Scan, hw: Bus, devfn: nat, path: seq<nat>) {
    CanScan(w, hw, devfn + 1, path) && (Works(w, hw, devfn + 1, path) ==> Works(s, hw, devfn, path))
  }

  lemma {:induction false} NothingLeft(s: Scan, hw: Bus, path: seq<nat>)
    requires CanScan(s, hw, 256, path)
    ensures Works(s, hw, 256, path)
  {
    var end :| ReadyAt(s, hw, 256, path, end);
    NodesHaveParents(s.nodes);
    assert Recs(s.nodes) + [] == Recs(s.nodes);
    assert ColdAt(s, path);
    forall b: nat, d: nat ensures ListsAlike(s.bridges, s.bridges, b, d) {
    }
    assert ScansTo(s, s, hw, 256, path);
  }

  lemma {:induction false} SkipScan(s: Scan, hw: Bus, devfn: nat, path: seq<nat>) returns (t: Scan)
    requires devfn < 256 && CanScan(s, hw, devfn, path) && !IsBridge(hw, devfn)
    ensures GoesOn(s, t, hw, devfn, path)
  {
    var end :| ReadyAt(s, hw, devfn, path, end);
    t := s.(cur := Top(path));
    ColdIgnoresCur(s, path, end, Top(path));
    assert ReadyAt(t, hw, devfn + 1, path, end);
    if Works(t, hw, devfn + 1, path) {
      SkipWorks(s, t, hw, devfn, path);
    }
  }

  lemma {:induction false} SkipWorks(s: Scan, t: Scan, hw: Bus, devfn: nat, path: seq<nat>)
    requires path != [] && devfn < 256 && !IsBridge(hw, devfn) && TreeShape(s.nodes)
    requires t == s.(cur := Top(path)) && (Visited(hw, devfn) || s == t)
    requires Works(t, hw, devfn + 1, path)
    ensures Works(s, hw, devfn, path)
  {
    SetupSkip(s, hw, devfn, Top(path));
    var r :| ScansTo(t, r, hw, devfn + 1, path);
    assert ScansTo(s, r, hw, devfn, path);
    assert Trace(s, hw, devfn, Top(path)) == Trace(t, hw, devfn + 1, Top(path));
  }

  lemma {:induction false} LeaveWithTrace(s: Scan, u: Scan, hw: Bus, devfn: nat, path: seq<nat>) returns (w: Scan)
    requires devfn < 256 && CanScan(s, hw, devfn, path) && IsBridge(hw, devfn)
    requires EntersAt(s, u, devfn, ClassAt(hw, devfn), path) && ScanWorks(u, hw.fns[devfn].below, 0, path + [|s.nodes|])
    requires CanScan(u, hw.fns[devfn].below, 0, path + [|s.nodes|])
    ensures CanScan(w, hw, devfn + 1, path) && TracesTo(s, u, w, hw, devfn, path)
    ensures ScanWorks(w, hw, devfn + 1, path) ==> ScanWorks(s, hw, devfn, path)
  {
    var v;
    v, w := LeaveStep(s, u, hw, devfn, path);
    TraceStep(s, u, v, w, hw, devfn, Top(path));
    CanScanIsCold(u, hw.fns[devfn].below, 0, path + [|s.nodes|]);
    CanScanIsCold(w, hw, devfn + 1, path);
    if ScanWorks(w, hw, devfn + 1, path) {
      var r :| ScansTo(w, r, hw, devfn + 1, path);
      PlanSplits(s, w, r, hw, devfn, path);
      assert ScansTo(s, r, hw, devfn, path);
    }
  }

  lemma {:induction false} BridgeResumes(s: Scan, u: Scan, hw: Bus, devfn: nat, path: seq<nat>) returns (w: Scan)
    requires devfn < 256 && CanScan(s, hw, devfn, path) && IsBridge(hw, devfn)
    requires EntersAt(s, u, devfn, ClassAt(hw, devfn), path) && Works(u, hw.fns[devfn].below, 0, path + [|s.nodes|])
    requires CanScan(u, hw.fns[devfn].below, 0, path + [|s.nodes|])
    ensures GoesOn(s, w, hw, devfn, path)
  {
    w := LeaveWithTrace(s, u, hw, devfn, path);
    if Works(w, hw, devfn + 1, path) {
      assert Top(path + [|s.nodes|]) == |s.nodes|;
      BridgeTrace(s, u, w, hw, devfn, path);
    }
  }

  lemma {:induction false} BridgeTrace(s: Scan, u: Scan, w: Scan, hw: Bus, devfn: nat, path: seq<nat>)
    requires TracesTo(s, u, w, hw, devfn, path) && Top(path + [|s.nodes|]) == |s.nodes|
    requires TraceCold(u, hw.fns[devfn].below, 0, path + [|s.nodes|]) && TraceCold(w, hw, devfn + 1, path)
    ensures TraceCold(s, hw, devfn, path)
  {
    AllColdParts(u, Trace(u, hw.fns[devfn].below, 0, |s.nodes|), w, Trace(w, hw, devfn + 1, Top(path)));
  }

  /** Scanning behind the bridge at `devfn` from `u` takes the scan past that bridge. */
  ghost predicate Enters(s: Scan, u: Scan, hw: Bus, devfn: nat, path: seq<nat>)
    requires IsBridge(hw, devfn)
  {
    var below := hw.fns[devfn].below;
    && CanScan(u, below, 0, path + [|s.nodes|])
    && (Works(u, below, 0, path + [|s.nodes|]) ==> exists w :: GoesOn(s, w, hw, devfn, path))
  }

  lemma {:induction false} BridgeEnters(s: Scan, hw: Bus, devfn: nat, path: seq<nat>) returns (u: Scan)
    requires devfn < 256 && CanScan(s, hw, devfn, path) && IsBridge(hw, devfn)
    ensures Enters(s, u, hw, devfn, path)
  {
    u := EnterScan(s, hw, devfn, path);
    if Works(u, hw.fns[devfn].below, 0, path + [|s.nodes|]) {
      var w := BridgeResumes(s, u, hw, devfn, path);
    }
  }

  /**
    The scan terminates without error on every finite tree of at most 256 buses, along the plan, and
    the invariant holds at every point on the way.
  */
  lemma {:induction false} ScanFollowsPlan(s: Scan, hw: Bus, devfn: nat, path: seq<nat>)
    requires devfn <= 256 && CanScan(s, hw, devfn, path) && Plain(hw)
    ensures Works(s, hw, devfn, path)
    decreases hw, 256 - devfn
  {
    if devfn == 256 {
      NothingLeft(s, hw, path);
    } else if !IsBridge(hw, devfn) {
      var t := SkipScan(s, hw, devfn, path);
      ScanFollowsPlan(t, hw, devfn + 1, path);
    } else {
      var u := BridgeEnters(s, hw, devfn, path);
      ScanFollowsPlan(u, hw.fns[devfn].below, 0, path + [|s.nodes|]);
      var w :| GoesOn(s, w, hw, devfn, path);
      ScanFollowsPlan(w, hw, devfn + 1, path);
    }
  }
}
