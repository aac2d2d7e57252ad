/** The promises of the bus scan, stated for a whole cold start with one host bridge. */
module BusColdStart {
  import opened Common
  import opened BusTree
  import opened BusAlloc
  import opened BusScan
  import opened BusNumbering
  import opened BusInvariant
  import opened BusTheorems

  /** Unnumbered entries of bus 0, in function order from `devfn` on. */
  predicate FreshList(brs: seq<Bridge>, devfn: nat) {
    && (forall b :: 0 <= b < |brs| ==> brs[b].bus == brs[b].sec == brs[b].sub == 0 && devfn <= brs[b].devfn)
    && (forall b, c :: 0 <= b < c < |brs| ==> brs[b].devfn < brs[c].devfn)
  }

  lemma {:induction false} FreshMore(rest: seq<Bridge>, devfn: nat)
    requires FreshList(rest, devfn + 1)
    ensures FreshList([Bridge(0, devfn, 0, 0)] + rest, devfn)
  {
    var brs := [Bridge(0, devfn, 0, 0)] + rest;
    assert forall b :: 0 < b < |brs| ==> brs[b] == rest[b - 1];
  }

  /** The list made from bus 0 is unnumbered, in function order, and complete. */
  lemma {:induction false} ListIsComplete(hw: Bus, devfn: nat)
    requires devfn <= 256 && Plain(hw)
    ensures FreshList(ListBridges(hw, devfn), devfn) && BusZeroListed(ListBridges(hw, devfn), hw, devfn)
    decreases 256 - devfn
  {
    if devfn < 256 {
      ListIsComplete(hw, devfn + 1);
      var brs, rest := ListBridges(hw, devfn), ListBridges(hw, devfn + 1);
      if brs != rest {
        FreshMore(rest, devfn);
        assert brs == [Bridge(0, devfn, 0, 0)] + rest && brs[1..] == rest;
      }
      forall k: nat | devfn <= k < 256 && IsBridge(hw, k) ensures BridgeAt(brs, 0, k) < |brs| {
        if k > devfn {
          assert BridgeAt(rest, 0, k) < |rest|;
        } else {
          assert brs != rest by {
            assert HasClass(hw, k) && IdAt(hw, k) != ALL_ONES;
          }
        }
      }
    }
  }

  /** The state in which the scan of bus 0 starts. */
  ghost function Ready(hw: Bus, host: nat): (r: Scan)
    ensures TreeShape(r.nodes)
  {
    Prepare(hw, host).0
  }

  lemma {:induction false} HostBusIs(brs: seq<Bridge>, host: nat)
    requires FreshList(brs, 0)
    ensures Configure(Scan([], 0, 0, 0, brs, map[]), 0, host, 0, 0) ==
            Scan([Node(0, 0, if brs == [] then 1 else 0, -1, -1, [], None)], 1, 0, 0, brs, map[])
  {
    if brs != [] {
      assert brs[0].bus == 0 && brs[0].sec == 0 && brs[0].sub == 0;
      assert BridgeTo(brs, 0, 0) == 0;
    }
  }

  lemma {:induction false} ReadyIs(hw: Bus, host: nat)
    requires Plain(hw)
    ensures var brs := ListBridges(hw, 0);
            Prepare(hw, host) ==
            (Scan([Node(0, 0, if brs == [] then 1 else 0, -1, -1, [], Some(BridgeFn(0, host, 0, ClassAt(hw, host))))],
                  1, 0, 0, brs, map[]), Zero)
  {
    var brs := ListBridges(hw, 0);
    ListIsComplete(hw, 0);
    HostBusIs(brs, host);
    var t := Scan([Node(0, 0, if brs == [] then 1 else 0, -1, -1, [], None)], 1, 0, 0, brs, map[]);
    var n := Node(0, 0, if brs == [] then 1 else 0, -1, -1, [], None);
    assert t.nodes == [n] && Find(t.nodes, 0) == Some(0);
    assert FindOrAlloc(t, 0, 0) == (t, Some(0));
    assert SetDev([n], 0, BridgeFn(0, host, 0, ClassAt(hw, host))) == [n.(dev := Some(BridgeFn(0, host, 0, ClassAt(hw, host))))];
  }

  lemma {:induction false} ReadyIsCold(hw: Bus, host: nat)
    requires Plain(hw)
    ensures Cold(Ready(hw, host), [0], [0]) && NewFunction(Ready(hw, host).nodes, 0, 0)
    ensures BusZeroListed(Ready(hw, host).bridges, hw, 0)
  {
    ReadyIs(hw, host);
    ListIsComplete(hw, 0);
    var s := Ready(hw, host);
    forall b: nat ensures EntryOk(s.nodes, s.bridges, [0], [0], b) && EntryKnown(s.nodes, s.bridges, b) {
    }
    forall b: nat, c: nat ensures EntriesDiffer(s.bridges, b, c) {
    }
  }

  /** The result of a cold start is an invariant state with nothing left open but bus 0. */
  lemma {:induction false} ColdStartIsCold(hw: Bus, host: nat) returns (end: seq<nat>)
    requires Plain(hw) && |Plan(hw, 0, 0, 1)| < 256
    ensures ColdStart(hw, host).1 == Zero
    ensures Cold(ColdStart(hw, host).0, [0], end)
    ensures var ns := ColdStart(hw, host).0.nodes;
            (forall i :: 0 < i < |ns| ==> ns[i].parent >= 0) && Recs(ns) == Plan(hw, 0, 0, 1)
    ensures ClassOf(ColdStart(hw, host).0.nodes, 0) == ClassAt(hw, host)
    ensures ListsMore(ListBridges(hw, 0), ColdStart(hw, host).0.bridges)
  {
    ReadyIs(hw, host);
    ReadyIsCold(hw, host);
    var s := Ready(hw, host);
    assert Top([0]) == 0 && ReadyAt(s, hw, 0, [0], [0]);
    ScanFollowsPlan(s, hw, 0, [0]);
    assert Recs(s.nodes) == [];
    assert Recs(s.nodes) + Plan(hw, 0, 0, 1) == Plan(hw, 0, 0, 1);
    var r :| ScansTo(s, r, hw, 0, [0]);
    end :| Cold(r, [0], end);
    assert Cold(r.(endbus := 0), [0], end);
  }

  /** Bus `i` is numbered `i` and lies behind the i-th bridge of the plan. */
  predicate Planned(ns: seq<Node>, plan: seq<Rec>, i: nat)
    requires i < |ns| == |plan| + 1
  {
    && ns[i].sec == i
    && (i > 0 ==> && ns[i].parent == ns[i].pri == plan[i - 1].parent
                  && ns[i].dev == Some(BridgeFn(plan[i - 1].parent, plan[i - 1].devfn, 1, plan[i - 1].classCode)))
  }

  lemma {:induction false} ColdIsPlanned(s: Scan, end: seq<nat>, plan: seq<Rec>)
    requires Cold(s, [0], end) && forall i :: 0 < i < |s.nodes| ==> s.nodes[i].parent >= 0
    requires Recs(s.nodes) == plan
    ensures |s.nodes| == |plan| + 1 && s.lastbus == Byte(|s.nodes|)
    ensures forall i :: 0 <= i < |s.nodes| ==> Planned(s.nodes, plan, i)
  {
    forall i | 0 <= i < |s.nodes| ensures Planned(s.nodes, plan, i) {
      assert NodeOk(s.nodes, i);
      if i > 0 {
        assert Recs(s.nodes)[i - 1] == Rec(s.nodes[i].parent, DevfnOf(s.nodes, i), ClassOf(s.nodes, i));
      }
    }
  }

  /**
    Bus numbers are handed out depth first: bus `i` lies behind the i-th bridge of the plan, and it
    is linked below the bus that bridge sits on.
  */
  lemma {:induction false} NumbersAreDepthFirst(hw: Bus, host: nat)
    requires Plain(hw) && |Plan(hw, 0, 0, 1)| < 256
    ensures var (r, ret) := ColdStart(hw, host);
            && ret == Zero && |r.nodes| == 1 + |Plan(hw, 0, 0, 1)| && r.lastbus == Byte(|r.nodes|)
            && forall i :: 0 <= i < |r.nodes| ==> Planned(r.nodes, Plan(hw, 0, 0, 1), i)
  {
    var end := ColdStartIsCold(hw, host);
    ColdIsPlanned(ColdStart(hw, host).0, end, Plan(hw, 0, 0, 1));
  }

  /** The numbers from secondary to subordinate are exactly the buses behind the bridge. */
  lemma {:induction false} IntervalsAreExact(hw: Bus, host: nat, i: nat, j: nat)
    requires Plain(hw) && |Plan(hw, 0, 0, 1)| < 256
    requires 0 < i < |ColdStart(hw, host).0.nodes| && j < |ColdStart(hw, host).0.nodes|
    ensures var ns := ColdStart(hw, host).0.nodes;
            Below(ns, i, j) <==> ns[i].sec <= ns[j].sec <= ns[i].sub
  {
    var end := ColdStartIsCold(hw, host);
    var ns := ColdStart(hw, host).0.nodes;
    assert NodeOk(ns, i) && NodeOk(ns, j) && SettledOk(ns, [0], end, i);
    IntervalIsSubtree(ns, end, i, j);
  }

  /** So two bridges' intervals nest or are disjoint. */
  lemma {:induction false} IntervalsNestOrPart(hw: Bus, host: nat, i: nat, j: nat)
    requires Plain(hw) && |Plan(hw, 0, 0, 1)| < 256
    requires 0 < i < j < |ColdStart(hw, host).0.nodes|
    ensures var ns := ColdStart(hw, host).0.nodes;
            if Below(ns, i, j) then ns[i].sec < ns[j].sec <= ns[j].sub <= ns[i].sub
            else ns[i].sub < ns[j].sec
  {
    var end := ColdStartIsCold(hw, host);
    var ns := ColdStart(hw, host).0.nodes;
    assert NodeOk(ns, i) && NodeOk(ns, j) && SettledOk(ns, [0], end, i) && SettledOk(ns, [0], end, j);
    IntervalIsSubtree(ns, end, i, j);
    assert EndOk(ns, end, j);
    if Below(ns, i, j) {
      BelowEnd(ns, end, i, j);
    }
  }

  /** At every point of a cold start `find_bus` finds exactly the buses that have been numbered. */
  lemma {:induction false} FindBusThroughoutScan(hw: Bus, host: nat, k: nat, b: nat)
    requires Plain(hw) && |Plan(hw, 0, 0, 1)| < 256
    requires k < |Trace(Ready(hw, host), hw, 0, 0)|
    ensures var ns := Trace(Ready(hw, host), hw, 0, 0)[k].nodes;
            && Acyclic(ns) && Find(ns, b) == (if b < |ns| then Some(b) else None)
            && (Find(ns, b).Some? <==> Listed(ns, b))
  {
    ReadyIs(hw, host);
    ReadyIsCold(hw, host);
    assert Top([0]) == 0 && ReadyAt(Ready(hw, host), hw, 0, [0], [0]);
    ScanFollowsPlan(Ready(hw, host), hw, 0, [0]);
    var t := Trace(Ready(hw, host), hw, 0, 0)[k];
    assert IsCold(t);
    var path, end :| Cold(t, path, end);
    FindDuringScan(t.nodes, path, end, b);
    CoreIsSearchable(t.nodes, path, end);
    FindIsExhaustive(t.nodes, b);
  }

  /**
    Throughout the scan the registers of a bridge claim a configuration cycle for bus `b` exactly
    when that bus lies behind it, so the cycle reaches bus `b` and no other.
  */
  lemma {:induction false} CyclesReachTheirBus(s: Scan, path: seq<nat>, end: seq<nat>, i: nat, b: nat)
    requires Cold(s, path, end) && 0 < i < |s.nodes| && b < |s.nodes|
    ensures var a := Address(ParentOf(s.nodes, i), DevfnOf(s.nodes, i));
            a in s.regs && (s.regs[a].sec <= b <= s.regs[a].sub <==> Below(s.nodes, i, b))
  {
    assert NodeOk(s.nodes, i) && RegsOk(s.nodes, s.regs, path, end, i) && SettledOk(s.nodes, path, end, i);
    IntervalIsSubtree(s.nodes, end, i, b);
  }

  /** After the scan the registers hold the numbers of the bus structures. */
  lemma {:induction false} RegistersMatchMap(hw: Bus, host: nat, i: nat)
    requires Plain(hw) && |Plan(hw, 0, 0, 1)| < 256 && 0 < i < |ColdStart(hw, host).0.nodes|
    ensures var r := ColdStart(hw, host).0;
            var a := Address(r.nodes[i].pri, DevfnOf(r.nodes, i));
            a in r.regs && r.regs[a] == BusRegs(r.nodes[i].pri, r.nodes[i].sec, r.nodes[i].sub)
  {
    var end := ColdStartIsCold(hw, host);
    var r := ColdStart(hw, host).0;
    assert NodeOk(r.nodes, i) && RegsOk(r.nodes, r.regs, [0], end, i) && SettledOk(r.nodes, [0], end, i);
  }

  /** Every bridge with a bus behind it is listed with its final numbers, after its parent bridge. */
  lemma {:induction false} ParentsAreListedFirst(hw: Bus, host: nat, i: nat)
    requires Plain(hw) && |Plan(hw, 0, 0, 1)| < 256 && 0 < i < |ColdStart(hw, host).0.nodes|
    ensures var r := ColdStart(hw, host).0;
            var b := EntryOf(r.nodes, r.bridges, i);
            && b < |r.bridges| && r.nodes[i].pri < i
            && r.bridges[b] == Bridge(r.nodes[i].pri, DevfnOf(r.nodes, i), i, r.nodes[i].sub)
            && (r.nodes[i].pri > 0 ==> EntryOf(r.nodes, r.bridges, r.nodes[i].pri) < b)
  {
    var end := ColdStartIsCold(hw, host);
    var r := ColdStart(hw, host).0;
    assert NodeOk(r.nodes, i) && ListedOk(r.nodes, r.bridges, [0], end, i) && SettledOk(r.nodes, [0], end, i);
    if r.nodes[i].pri > 0 {
      assert NodeOk(r.nodes, r.nodes[i].pri);
    }
  }

  /** The next fresh number is unused exactly while there are fewer than 256 buses. */
  lemma {:induction false} NextNumberIsUnusedIff(s: Scan, path: seq<nat>, end: seq<nat>)
    requires Cold(s, path, end)
    ensures !Listed(s.nodes, s.lastbus) <==> |s.nodes| < 256
  {
    assert NodeOk(s.nodes, s.lastbus);
    forall i | 0 <= i < |s.nodes| ensures s.nodes[i].sec == i {
      assert NodeOk(s.nodes, i);
    }
    if |s.nodes| == 256 {
      assert s.nodes[0].sec == s.lastbus;
    }
  }

  // ---------------------------------------------------------------- which listed bridges are numbered

  /** `find_bridges` goes by the header type alone. */
  predicate Listable(hw: Bus, k: nat) {
    Visited(hw, k) && HasClass(hw, k) && IdAt(hw, k) != ALL_ONES && HeaderAt(hw, k) % 128 == 1
  }

  /** The entries made from bus 0 are of listable functions. */
  lemma {:induction false} ListedIsListable(hw: Bus, devfn: nat, b: nat)
    requires devfn <= 256 && b < |ListBridges(hw, devfn)|
    ensures var e := ListBridges(hw, devfn)[b]; e.bus == 0 && e.devfn < 256 && Listable(hw, e.devfn)
    decreases 256 - devfn
  {
    if devfn < 256 {
      if Listable(hw, devfn) {
        if b > 0 {
          ListedIsListable(hw, devfn + 1, b - 1);
        }
      } else {
        ListedIsListable(hw, devfn + 1, b);
      }
    }
  }

  /** Exactly the bridges of a bus are planned on it. */
  lemma {:induction false} PlanHasBridges(hw: Bus, devfn: nat, bus: nat, next: nat, k: nat, code: nat)
    requires devfn <= 256 && bus < next
    ensures Rec(bus, k, code) in Plan(hw, devfn, bus, next) <==> devfn <= k < 256 && IsBridge(hw, k) && code == ClassAt(hw, k)
    decreases 256 - devfn
  {
    if devfn < 256 {
      if IsBridge(hw, devfn) {
        var inner := Plan(hw.fns[devfn].below, 0, next, next + 1);
        var sub := [Rec(bus, devfn, ClassAt(hw, devfn))] + inner;
        PlanHasBridges(hw, devfn + 1, bus, next + |sub|, k, code);
        forall i | 0 <= i < |inner| ensures inner[i].parent != bus {
          PlanParents(hw.fns[devfn].below, 0, next, next + 1, i);
        }
        assert Plan(hw, devfn, bus, next) == sub + Plan(hw, devfn + 1, bus, next + |sub|);
      } else {
        PlanHasBridges(hw, devfn + 1, bus, next, k, code);
      }
    }
  }

  /** A numbered bus is one that its entry names. */
  lemma {:induction false} NodeIsListed(s: Scan, end: seq<nat>, i: nat, b: nat)
    requires Cold(s, [0], end) && 0 < i < |s.nodes| && b < |s.bridges|
    requires s.nodes[i].parent >= 0 && s.bridges[b].bus == s.nodes[i].parent && s.bridges[b].devfn == DevfnOf(s.nodes, i)
    ensures s.bridges[b].sec == i
  {
    assert NodeOk(s.nodes, i) && ListedOk(s.nodes, s.bridges, [0], end, i);
    var c := EntryOf(s.nodes, s.bridges, i);
    assert EntriesDiffer(s.bridges, c, b) && EntriesDiffer(s.bridges, b, c);
  }

  lemma {:induction false} DeepEntryIsNumbered(s: Scan, end: seq<nat>, b: nat)
    requires Cold(s, [0], end) && b < |s.bridges| && s.bridges[b].bus > 0
    ensures s.bridges[b].sec != 0
  {
    var e := s.bridges[b];
    assert EntryKnown(s.nodes, s.bridges, b);
    var i :| 0 < i < |s.nodes| && s.nodes[i].parent == e.bus && DevfnOf(s.nodes, i) == e.devfn;
    NodeIsListed(s, end, i, b);
  }

  lemma {:induction false} NumberedIsPlanned(s: Scan, end: seq<nat>, b: nat)
    requires Cold(s, [0], end) && b < |s.bridges| && s.bridges[b].bus == 0 && s.bridges[b].sec != 0
    requires forall i :: 0 < i < |s.nodes| ==> s.nodes[i].parent >= 0
    ensures s.bridges[b].sec < |s.nodes|
    ensures Rec(0, s.bridges[b].devfn, ClassOf(s.nodes, s.bridges[b].sec)) in Recs(s.nodes)
  {
    assert EntryOk(s.nodes, s.bridges, [0], end, b);
    assert Recs(s.nodes)[s.bridges[b].sec - 1] == Rec(0, s.bridges[b].devfn, ClassOf(s.nodes, s.bridges[b].sec));
  }

  lemma {:induction false} PlannedIsNumbered(s: Scan, end: seq<nat>, b: nat, code: nat)
    requires Cold(s, [0], end) && b < |s.bridges| && s.bridges[b].bus == 0
    requires forall i :: 0 < i < |s.nodes| ==> s.nodes[i].parent >= 0
    requires Rec(0, s.bridges[b].devfn, code) in Recs(s.nodes)
    ensures s.bridges[b].sec != 0
  {
    var rs := Recs(s.nodes);
    var i: nat :| i < |rs| && rs[i] == Rec(0, s.bridges[b].devfn, code);
    NodeIsListed(s, end, i + 1, b);
  }

  /** A function on bus 0 is in the final list exactly when it is listable. */
  lemma {:induction false} BusZeroListIff(hw: Bus, host: nat, k: nat)
    requires Plain(hw) && |Plan(hw, 0, 0, 1)| < 256
    ensures var brs := ColdStart(hw, host).0.bridges;
            BridgeAt(brs, 0, k) < |brs| <==> k < 256 && Listable(hw, k)
  {
    var end := ColdStartIsCold(hw, host);
    var brs, a := ColdStart(hw, host).0.bridges, ListBridges(hw, 0);
    assert BridgeAt(brs, 0, k) <= |brs| && BridgeAt(a, 0, k) <= |a|;
    assert ListsAlike(a, brs, 0, k);
    if BridgeAt(a, 0, k) < |a| {
      ListedIsListable(hw, 0, BridgeAt(a, 0, k));
    } else if k < 256 && Listable(hw, k) {
      ListableIsListed(hw, 0, k);
    }
  }

  lemma {:induction false} ListableIsListed(hw: Bus, devfn: nat, k: nat)
    requires devfn <= k < 256 && Listable(hw, k)
    ensures BridgeAt(ListBridges(hw, devfn), 0, k) < |ListBridges(hw, devfn)|
    decreases 256 - devfn
  {
    if devfn < k {
      ListableIsListed(hw, devfn + 1, k);
    }
  }

  /**
    A listed entry has a number exactly when it is deeper than bus 0 or names a function of the bridge
    class: a function on bus 0 with a bridge header but another class stays in the list with number 0.
  */
  lemma {:induction false} EntryNumberedIff(hw: Bus, host: nat, b: nat)
    requires Plain(hw) && |Plan(hw, 0, 0, 1)| < 256 && b < |ColdStart(hw, host).0.bridges|
    ensures var e := ColdStart(hw, host).0.bridges[b];
            e.sec != 0 <==> e.bus > 0 || IsBridge(hw, e.devfn)
  {
    var end := ColdStartIsCold(hw, host);
    var s := ColdStart(hw, host).0;
    if s.bridges[b].bus > 0 {
      DeepEntryIsNumbered(s, end, b);
    } else {
      var k := s.bridges[b].devfn;
      assert BridgeAt(s.bridges, 0, k) <= b;
      BusZeroListIff(hw, host, k);
      if IsBridge(hw, k) {
        PlanHasBridges(hw, 0, 0, 1, k, ClassAt(hw, k));
        PlannedIsNumbered(s, end, b, ClassAt(hw, k));
      } else if s.bridges[b].sec != 0 {
        NumberedIsPlanned(s, end, b);
        PlanHasBridges(hw, 0, 0, 1, k, ClassOf(s.nodes, s.bridges[b].sec));
      }
    }
  }

  /** Every bridge header on bus 0 belongs to a function of the bridge class. */
  predicate HeadersMatchClass(hw: Bus) { forall k: nat :: k < 256 && Listable(hw, k) ==> IsBridge(hw, k) }

  /** Every listed entry is numbered exactly on such machines. */
  lemma {:induction false} AllNumberedIff(hw: Bus, host: nat)
    requires Plain(hw) && |Plan(hw, 0, 0, 1)| < 256
    ensures var brs := ColdStart(hw, host).0.bridges;
            (forall b :: 0 <= b < |brs| ==> brs[b].sec != 0) <==> HeadersMatchClass(hw)
  {
    var brs := ColdStart(hw, host).0.bridges;
    if HeadersMatchClass(hw) {
      forall b | 0 <= b < |brs| ensures brs[b].sec != 0 {
        EntryNumberedIff(hw, host, b);
        assert BridgeAt(brs, 0, brs[b].devfn) <= |brs|;
        BusZeroListIff(hw, host, brs[b].devfn);
        if brs[b].bus == 0 {
          assert BridgeAt(brs, 0, brs[b].devfn) <= b;
        }
      }
    } else {
      var k: nat :| k < 256 && Listable(hw, k) && !IsBridge(hw, k);
      BusZeroListIff(hw, host, k);
      EntryNumberedIff(hw, host, BridgeAt(brs, 0, k));
    }
  }
}
