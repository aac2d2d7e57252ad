/**
  The bus scan and the aperture setup together: what a cold start leaves is what the aperture results
  ask for.
*/
module ColdApertures {
  import opened Common
  import opened BusTree
  import opened BusAlloc
  import opened BusScan
  import opened BusNumbering
  import opened BusInvariant
  import opened BusColdStart
  import A = Apertures
  import S = ApertureShares
  import N = ApertureNesting

  /**
    `t` holds the bus structures `ns` before the bridges get apertures; bus 0 may have a window and
    requirements of any size.  The class of the host bridge is the class of the device of bus 0.
  */
  ghost predicate SpansOf(t: seq<A.Span>, ns: seq<Node>) {
    && |t| == |ns|
    && (forall i :: 0 <= i < |t| ==> t[i].sec == ns[i].sec && (i > 0 ==> t[i].start == 0 && t[i].end == 0))
    && (forall i :: 0 <= i < |t| ==> t[i].parent == if i == 0 then -1 else ns[i].prev)
    && (forall i :: 0 <= i < |t| ==> t[i].host == (ClassOf(ns, i) == ClassOf(ns, 0)))
  }

  /** The secondary numbers in the order of the bridge list. */
  function Listing(brs: seq<Bridge>): (r: seq<nat>)
    ensures |r| == |brs| && forall k :: 0 <= k < |r| ==> r[k] == brs[k].sec
  {
    seq(|brs|, k requires 0 <= k < |brs| => brs[k].sec)
  }

  lemma {:induction false} SpansAreLinked(s: Scan, end: seq<nat>, t: seq<A.Span>)
    requires Cold(s, [0], end) && SpansOf(t, s.nodes)
    ensures A.WellLinked(t) && A.Unset(t)
    ensures forall i :: 0 <= i < |t| ==> t[i].sec == i && A.Lookup(t, i) == Some(i)
  {
    forall i | 0 <= i < |t| ensures t[i].sec == i && -1 <= t[i].parent < i && (i > 0 ==> t[i].parent >= 0) {
      assert NodeOk(s.nodes, i);
    }
    forall i | 0 <= i < |t| ensures A.Lookup(t, i) == Some(i) {
      A.LookupAt(t, i);
    }
  }

  /** Being under a bridge in the model of the apertures is being behind it in the bus tree. */
  lemma {:induction false} UnderIsBelow(s: Scan, end: seq<nat>, t: seq<A.Span>, a: nat, i: nat)
    requires Cold(s, [0], end) && SpansOf(t, s.nodes) && A.WellLinked(t) && a < |t| && i < |t|
    requires forall k :: 0 < k < |s.nodes| ==> s.nodes[k].parent >= 0
    ensures a > 0 ==> (A.Under(t, a, i) <==> Below(s.nodes, a, i))
    decreases i
  {
    assert NodeOk(s.nodes, i);
    if i > 0 && a != i {
      UnderIsBelow(s, end, t, a, t[i].parent);
    }
  }

  /** The entry of a bus comes after the entries of the buses above it. */
  lemma {:induction false} EntriesGrow(s: Scan, end: seq<nat>, t: seq<A.Span>, a: nat, i: nat)
    requires Cold(s, [0], end) && SpansOf(t, s.nodes) && A.WellLinked(t)
    requires 0 < a < |t| && i < |t| && a != i && A.Under(t, a, i)
    requires s.nodes[a].parent >= 0
    ensures EntryOf(s.nodes, s.bridges, a) < EntryOf(s.nodes, s.bridges, i)
    decreases i
  {
    var p := t[i].parent;
    A.UnderIsLater(t, a, p);
    assert NodeOk(s.nodes, i) && NodeOk(s.nodes, p) && ListedOk(s.nodes, s.bridges, [0], end, i);
    if p != a {
      EntriesGrow(s, end, t, a, p);
    }
  }

  /** A numbered entry is the entry of its own bus. */
  lemma {:induction false} EntryOfSec(s: Scan, end: seq<nat>, b: nat)
    requires Cold(s, [0], end) && b < |s.bridges| && s.bridges[b].sec != 0
    ensures s.bridges[b].sec < |s.nodes| && s.nodes[s.bridges[b].sec].parent >= 0
    ensures EntryOf(s.nodes, s.bridges, s.bridges[b].sec) == b
  {
    assert EntryOk(s.nodes, s.bridges, [0], end, b);
    var i := s.bridges[b].sec;
    assert s.bridges[b] == Settled(s.nodes, end, i);
    var c := EntryOf(s.nodes, s.bridges, i);
    assert EntriesDiffer(s.bridges, c, b);
  }

  lemma {:induction false} ListedAreKnown(s: Scan, end: seq<nat>, t: seq<A.Span>)
    requires Cold(s, [0], end) && SpansOf(t, s.nodes)
    ensures forall k :: 0 <= k < |s.bridges| ==> s.bridges[k].sec < |t| && A.Lookup(t, s.bridges[k].sec) == Some(s.bridges[k].sec)
  {
    SpansAreLinked(s, end, t);
    forall k | 0 <= k < |s.bridges| ensures s.bridges[k].sec < |t| {
      assert EntryOk(s.nodes, s.bridges, [0], end, k);
    }
  }

  lemma {:induction false} ListingIsAncestorsFirst(s: Scan, end: seq<nat>, t: seq<A.Span>)
    requires Cold(s, [0], end) && SpansOf(t, s.nodes)
    ensures A.WellLinked(t) && A.Unset(t) && S.Known(t, Listing(s.bridges)) && S.AncestorsFirst(t, Listing(s.bridges))
  {
    var list := Listing(s.bridges);
    SpansAreLinked(s, end, t);
    ListedAreKnown(s, end, t);
    forall j: nat, k: nat | j < k < |list| ensures !S.TakesTurn(t, list, j, k) {
      if S.TakesTurn(t, list, j, k) {
        A.ReachesIsUnder(t, list[k], list[j]);
        assert list[k] != 0;
        NoTurnTaken(s, end, t, j, k);
      }
    }
  }

  lemma {:induction false} NoTurnTaken(s: Scan, end: seq<nat>, t: seq<A.Span>, j: nat, k: nat)
    requires Cold(s, [0], end) && SpansOf(t, s.nodes) && A.WellLinked(t) && j < k < |s.bridges|
    requires s.bridges[j].sec < |t| && 0 < s.bridges[k].sec < |t|
    ensures !A.Under(t, s.bridges[k].sec, s.bridges[j].sec)
  {
    EntryOfSec(s, end, k);
    if A.Under(t, s.bridges[k].sec, s.bridges[j].sec) {
      A.UnderIsLater(t, s.bridges[k].sec, s.bridges[j].sec);
      EntryOfSec(s, end, j);
      EntriesGrow(s, end, t, s.bridges[k].sec, s.bridges[j].sec);
    }
  }

  /** After a cold start every listed number is known, and the bridges are listed ancestors first. */
  lemma {:induction false} ColdStartListsAncestorsFirst(hw: Bus, host: nat, t: seq<A.Span>)
    requires Plain(hw) && |Plan(hw, 0, 0, 1)| < 256 && SpansOf(t, ColdStart(hw, host).0.nodes)
    ensures A.WellLinked(t) && A.Unset(t)
    ensures var list := Listing(ColdStart(hw, host).0.bridges); S.Known(t, list) && S.AncestorsFirst(t, list)
  {
    var end := ColdStartIsCold(hw, host);
    ListingIsAncestorsFirst(ColdStart(hw, host).0, end, t);
  }

  /** So every bridge that wants an aperture gets exactly one slice of its own. */
  lemma {:induction false} ColdStartServesEveryone(hw: Bus, host: nat, t: seq<A.Span>, base: nat)
    requires Plain(hw) && |Plan(hw, 0, 0, 1)| < 256 && SpansOf(t, ColdStart(hw, host).0.nodes) && base > 0
    ensures A.WellLinked(t)
    ensures var list := Listing(ColdStart(hw, host).0.bridges);
            var l := A.Setup(t, list, Some(base));
            l.ok && S.OwnersOf(l.slices) == S.Needy(t, list)
  {
    ColdStartListsAncestorsFirst(hw, host, t);
    S.EveryoneServedIff(t, Listing(ColdStart(hw, host).0.bridges), base);
  }

  // ---------------------------------------------------------------- nesting

  /** Bridge `k` of the plan sits on a bus behind a bridge with class `hbc` and has another class. */
  predicate Crosses(plan: seq<Rec>, hbc: nat, k: nat) {
    && k < |plan| && 0 < plan[k].parent <= |plan|
    && plan[plan[k].parent - 1].classCode == hbc && plan[k].classCode != hbc
  }

  /** On a bus behind a bridge with class `hbc` there are only bridges with that class. */
  ghost predicate RunsDown(plan: seq<Rec>, hbc: nat) {
    forall k: nat {:trigger Crosses(plan, hbc, k)} :: !Crosses(plan, hbc, k)
  }

  /** The host flags of the spans are the class codes of the plan. */
  lemma {:induction false} FlagIsClass(hw: Bus, host: nat, t: seq<A.Span>, i: nat)
    requires Plain(hw) && |Plan(hw, 0, 0, 1)| < 256 && SpansOf(t, ColdStart(hw, host).0.nodes) && 0 < i < |t|
    ensures var plan := Plan(hw, 0, 0, 1);
            |t| == |plan| + 1 && t[0].host && t[i].parent == plan[i - 1].parent < i
            && (t[i].host <==> plan[i - 1].classCode == ClassAt(hw, host))
  {
    var end := ColdStartIsCold(hw, host);
    NumbersAreDepthFirst(hw, host);
    var ns := ColdStart(hw, host).0.nodes;
    assert Planned(ns, Plan(hw, 0, 0, 1), i) && NodeOk(ns, i);
  }

  /** Then the flag runs down the tree. */
  lemma {:induction false} FlagRunsDown(hw: Bus, host: nat, t: seq<A.Span>, a: nat, i: nat)
    requires Plain(hw) && |Plan(hw, 0, 0, 1)| < 256 && SpansOf(t, ColdStart(hw, host).0.nodes)
    requires RunsDown(Plan(hw, 0, 0, 1), ClassAt(hw, host))
    requires A.WellLinked(t) && 0 < a < |t| && i < |t| && A.Under(t, a, i) && t[a].host
    ensures t[i].host
    decreases i
  {
    A.UnderIsLater(t, a, i);
    FlagIsClass(hw, host, t, i);
    if a != i {
      var p := t[i].parent;
      A.UnderIsLater(t, a, p);
      FlagRunsDown(hw, host, t, a, p);
      FlagIsClass(hw, host, t, p);
      assert !Crosses(Plan(hw, 0, 0, 1), ClassAt(hw, host), i - 1);
    }
  }

  /** Then every aperture contains those of all bridges behind it, whatever the buses want. */
  lemma {:induction false} ColdStartAperturesNest(hw: Bus, host: nat, t: seq<A.Span>, base: nat)
    requires Plain(hw) && |Plan(hw, 0, 0, 1)| < 256 && SpansOf(t, ColdStart(hw, host).0.nodes) && base > 0
    requires RunsDown(Plan(hw, 0, 0, 1), ClassAt(hw, host))
    ensures A.WellLinked(t) && N.AllNest(t, A.Setup(t, Listing(ColdStart(hw, host).0.bridges), Some(base)).spans)
  {
    ColdStartListsAncestorsFirst(hw, host, t);
    var list := Listing(ColdStart(hw, host).0.bridges);
    forall a: nat, k: nat ensures !N.Shades(t, list, a, k) {
      if N.Shades(t, list, a, k) {
        FlagRunsDown(hw, host, t, a, A.Lookup(t, list[k]).value);
      }
    }
    N.AllNestIff(t, list, base);
  }

  /** The structures of a machine on which every bus wants a megabyte. */
  function Greedy(ns: seq<Node>): (t: seq<A.Span>)
    requires ns != []
    ensures |t| == |ns|
  {
    seq(|ns|, i requires 0 <= i < |ns| =>
          A.Span(ns[i].sec, if i == 0 then -1 else ns[i].prev, ClassOf(ns, i) == ClassOf(ns, 0), MEG1, 0, 0))
  }

  /** Bus `i` is listed under its number. */
  lemma {:induction false} BusIsListed(s: Scan, end: seq<nat>, i: nat) returns (b: nat)
    requires Cold(s, [0], end) && 0 < i < |s.nodes| && forall k :: 0 < k < |s.nodes| ==> s.nodes[k].parent >= 0
    ensures b < |s.bridges| && s.bridges[b].sec == i
  {
    assert NodeOk(s.nodes, i) && ListedOk(s.nodes, s.bridges, [0], end, i);
    b := EntryOf(s.nodes, s.bridges, i);
  }

  /** A bridge that sits behind one of the host bridge's class, has another and wants a slice is shaded. */
  lemma {:induction false} ClassShades(hw: Bus, host: nat, t: seq<A.Span>, i: nat) returns (k: nat)
    requires Plain(hw) && |Plan(hw, 0, 0, 1)| < 256 && SpansOf(t, ColdStart(hw, host).0.nodes)
    requires 0 < i < |t| && t[i].parent > 0 && A.WellLinked(t) && t[t[i].parent].host && !t[i].host && A.Wanting(t[i])
    ensures var list := Listing(ColdStart(hw, host).0.bridges);
            k < |list| && list[k] == i && A.Lookup(t, i) == Some(i) && N.Shades(t, list, t[i].parent, k)
  {
    var end := ColdStartIsCold(hw, host);
    var s := ColdStart(hw, host).0;
    SpansAreLinked(s, end, t);
    k := BusIsListed(s, end, i);
    FlagIsClass(hw, host, t, t[i].parent);
    assert NodeOk(s.nodes, t[i].parent) && A.Under(t, t[i].parent, t[i].parent);
  }

  /** Its aperture sticks out. */
  lemma {:induction false} ClassBreaksNesting(hw: Bus, host: nat, t: seq<A.Span>, base: nat, i: nat)
    requires Plain(hw) && |Plan(hw, 0, 0, 1)| < 256 && SpansOf(t, ColdStart(hw, host).0.nodes) && base > 0
    requires 0 < i < |t| && t[i].parent > 0 && A.WellLinked(t) && t[t[i].parent].host && !t[i].host && A.Wanting(t[i])
    ensures var l := A.Setup(t, Listing(ColdStart(hw, host).0.bridges), Some(base));
            l.spans[t[i].parent].end == 0 && l.spans[i].end != 0 && !N.AllNest(t, l.spans)
  {
    ColdStartListsAncestorsFirst(hw, host, t);
    var k := ClassShades(hw, host, t, i);
    N.ShadedSticksOut(t, Listing(ColdStart(hw, host).0.bridges), base, t[i].parent, k);
  }

  /** The apertures nest, whatever the buses want. */
  ghost predicate AlwaysNest(s: Scan, base: nat) {
    forall t {:trigger SpansOf(t, s.nodes)} :: SpansOf(t, s.nodes) ==>
      A.WellLinked(t) && N.AllNest(t, A.Setup(t, Listing(s.bridges), Some(base)).spans)
  }

  lemma {:induction false} GreedyIsSpans(ns: seq<Node>)
    requires ns != []
    ensures SpansOf(Greedy(ns), ns) && forall i :: 0 <= i < |ns| ==> A.Wanting(Greedy(ns)[i])
  {
  }

  lemma {:induction false} CrossingBreaks(hw: Bus, host: nat, t: seq<A.Span>, base: nat, k: nat)
    requires Plain(hw) && |Plan(hw, 0, 0, 1)| < 256 && SpansOf(t, ColdStart(hw, host).0.nodes) && base > 0
    requires Crosses(Plan(hw, 0, 0, 1), ClassAt(hw, host), k) && A.WellLinked(t) && k + 1 < |t| && A.Wanting(t[k + 1])
    ensures !N.AllNest(t, A.Setup(t, Listing(ColdStart(hw, host).0.bridges), Some(base)).spans)
  {
    FlagIsClass(hw, host, t, k + 1);
    FlagIsClass(hw, host, t, Plan(hw, 0, 0, 1)[k].parent);
    ClassBreaksNesting(hw, host, t, base, k + 1);
  }

  lemma {:induction false} GreedySticksOut(hw: Bus, host: nat, base: nat, k: nat)
    requires Plain(hw) && |Plan(hw, 0, 0, 1)| < 256 && base > 0 && Crosses(Plan(hw, 0, 0, 1), ClassAt(hw, host), k)
    ensures !AlwaysNest(ColdStart(hw, host).0, base)
  {
    var s := ColdStart(hw, host).0;
    NumbersAreDepthFirst(hw, host);
    var t := Greedy(s.nodes);
    GreedyIsSpans(s.nodes);
    ColdStartListsAncestorsFirst(hw, host, t);
    CrossingBreaks(hw, host, t, base, k);
    OneIsEnough(s, base, t);
  }

  lemma {:induction false} OneIsEnough(s: Scan, base: nat, t: seq<A.Span>)
    requires SpansOf(t, s.nodes) && A.WellLinked(t)
    requires !N.AllNest(t, A.Setup(t, Listing(s.bridges), Some(base)).spans)
    ensures !AlwaysNest(s, base)
  {
  }

  /**
    After a cold start every aperture contains those of the bridges behind it, whatever the buses want,
    exactly when no bridge of another class sits behind a bridge with the class of the host bridge.
  */
  lemma {:induction false} ColdStartNestsIff(hw: Bus, host: nat, base: nat)
    requires Plain(hw) && |Plan(hw, 0, 0, 1)| < 256 && base > 0
    ensures AlwaysNest(ColdStart(hw, host).0, base) <==> RunsDown(Plan(hw, 0, 0, 1), ClassAt(hw, host))
  {
    var s, plan := ColdStart(hw, host).0, Plan(hw, 0, 0, 1);
    if RunsDown(plan, ClassAt(hw, host)) {
      forall t | SpansOf(t, s.nodes)
        ensures A.WellLinked(t) && N.AllNest(t, A.Setup(t, Listing(s.bridges), Some(base)).spans)
      {
        ColdStartAperturesNest(hw, host, t, base);
      }
    } else {
      var k: nat :| Crosses(plan, ClassAt(hw, host), k);
      GreedySticksOut(hw, host, base, k);
    }
  }

  // ---------------------------------------------------------------- a machine that does not nest

  const NOTHING := Bus([])
  const ABSENT := Fn(ALL_ONES, 0xffffff, 0xff, NOTHING)

  /** A host bridge; next to it a bridge that calls itself a host bridge; behind that an ordinary bridge. */
  const MISLABELLED :=
    Bus([Fn(1, 0x060000, 0, NOTHING), ABSENT, ABSENT, ABSENT, ABSENT, ABSENT, ABSENT, ABSENT,
         Fn(2, 0x060000, 1, Bus([Fn(3, 0x060400, 1, NOTHING)]))])

  lemma {:induction false} PlanSkips(hw: Bus, devfn: nat, to: nat, bus: nat, next: nat)
    requires devfn <= to <= 256 && forall k :: devfn <= k < to ==> !IsBridge(hw, k)
    ensures Plan(hw, devfn, bus, next) == Plan(hw, to, bus, next)
    decreases 256 - devfn
  {
    if devfn < to {
      PlanSkips(hw, devfn + 1, to, bus, next);
    }
  }

  lemma {:induction false} MislabelledPlan()
    ensures Plain(MISLABELLED) && Plan(MISLABELLED, 0, 0, 1) == [Rec(0, 8, 0x060000), Rec(1, 0, 0x060400)]
  {
    var hw := MISLABELLED;
    var below := hw.fns[8].below;
    assert !MultiFunction(hw, 0);
    PlanSkips(hw, 0, 8, 0, 1);
    PlanSkips(hw, 9, 256, 0, 3);
    PlanSkips(below, 1, 256, 1, 3);
    PlanSkips(NOTHING, 0, 256, 2, 3);
    assert IsBridge(below, 0) && Plan(below, 0, 1, 2) == [Rec(1, 0, 0x060400)];
    assert IsBridge(hw, 8) && Plan(hw, 8, 0, 1) == [Rec(0, 8, 0x060000)] + Plan(below, 0, 1, 2);
  }

  /** There the bridge behind the mislabelled one gets an aperture, and the mislabelled one gets none. */
  lemma {:induction false} MislabelledSticksOut(t: seq<A.Span>, base: nat)
    requires SpansOf(t, ColdStart(MISLABELLED, 0).0.nodes) && base > 0
    ensures |t| == 3 && A.WellLinked(t)
    ensures var l := A.Setup(t, Listing(ColdStart(MISLABELLED, 0).0.bridges), Some(base));
            t[2].reqd > 0 ==> l.spans[1].end == 0 && l.spans[2].end != 0 && !N.AllNest(t, l.spans)
  {
    MislabelledPlan();
    NumbersAreDepthFirst(MISLABELLED, 0);
    ColdStartListsAncestorsFirst(MISLABELLED, 0, t);
    FlagIsClass(MISLABELLED, 0, t, 1);
    FlagIsClass(MISLABELLED, 0, t, 2);
    if t[2].reqd > 0 {
      ClassBreaksNesting(MISLABELLED, 0, t, base, 2);
    }
  }

  // ---------------------------------------------------------------- the length of the chunk

  /** `scan_all` raises `lastbus` to the highest subordinate number in the list. */
  function Raised(lastbus: nat, brs: seq<Bridge>): (r: nat)
    ensures r >= lastbus && forall b :: 0 <= b < |brs| ==> brs[b].sub <= r
    ensures r == lastbus || exists b :: 0 <= b < |brs| && brs[b].sub == r
  {
    if brs == [] then lastbus
    else
      var rest := Raised(lastbus, brs[..|brs| - 1]);
      if brs[|brs| - 1].sub > rest then brs[|brs| - 1].sub else rest
  }

  /** So the counter ends at the number of buses, and at 255 when all 256 numbers are taken. */
  lemma {:induction false} LastBusIs(s: Scan, end: seq<nat>)
    requires Cold(s, [0], end) && forall i :: 0 < i < |s.nodes| ==> s.nodes[i].parent >= 0
    ensures Raised(s.lastbus, s.bridges) == if |s.nodes| < 256 then |s.nodes| else 255
  {
    var n, r := |s.nodes|, Raised(s.lastbus, s.bridges);
    forall b | 0 <= b < |s.bridges| ensures s.bridges[b].sub < n {
      assert EntryOk(s.nodes, s.bridges, [0], end, b) && EndOk(s.nodes, end, s.bridges[b].sec);
    }
    if n == 256 {
      assert NodeOk(s.nodes, 255) && ListedOk(s.nodes, s.bridges, [0], end, 255) && EndOk(s.nodes, end, 255);
      assert s.bridges[EntryOf(s.nodes, s.bridges, 255)].sub == 255;
    }
  }

  /** Only numbered bridges want a slice if bus 0 wants none, or no entry stands for bus 0. */
  lemma {:induction false} OnlyBridgesWant(s: Scan, end: seq<nat>, t: seq<A.Span>)
    requires Cold(s, [0], end) && SpansOf(t, s.nodes) && forall i :: 0 < i < |s.nodes| ==> s.nodes[i].parent >= 0
    requires !A.Wanting(t[0]) || forall b :: 0 <= b < |s.bridges| ==> s.bridges[b].sec != 0
    requires |t| < 256 || !A.Wanting(t[255])
    ensures S.OnlyBridgesWant(t, Listing(s.bridges), Raised(s.lastbus, s.bridges))
  {
    var list, lastbus := Listing(s.bridges), Raised(s.lastbus, s.bridges);
    LastBusIs(s, end);
    ListedAreKnown(s, end, t);
    forall k | 0 <= k < |list| && S.Needs(t, list, k) ensures 1 <= list[k] < lastbus && list[k] !in list[..k] {
      if j: nat :| j < k && list[..k][j] == list[k] {
        EntryOfSec(s, end, j);
        EntryOfSec(s, end, k);
      }
    }
  }

  /**
    And no slice runs past the chunk, on every machine whose bus 0 wants no slice or whose bridge
    headers on bus 0 all belong to functions of the bridge class; with all 256 numbers taken, if bus 255
    wants none.
  */
  lemma {:induction false} ColdStartSlicesStayInChunk(hw: Bus, host: nat, t: seq<A.Span>, u: seq<A.Span>, base: nat,
          lastbus: nat, g: nat)
    requires Plain(hw) && |Plan(hw, 0, 0, 1)| < 256 && SpansOf(t, ColdStart(hw, host).0.nodes) && base > 0 && g > 0
    requires |t| > 0 && (!A.Wanting(t[0]) || HeadersMatchClass(hw)) && (|t| < 256 || !A.Wanting(t[255]))
    requires lastbus == Raised(ColdStart(hw, host).0.lastbus, ColdStart(hw, host).0.bridges)
    requires S.AfterRounding(t, u, lastbus, g) && A.TotalFrom(u, 1, lastbus, g) < TWO64
    ensures A.WellLinked(t)
    ensures S.Holds(A.Setup(t, Listing(ColdStart(hw, host).0.bridges), Some(base)).slices, base,
                    A.W64(A.TotalFrom(u, 1, lastbus, g)))
  {
    var end := ColdStartIsCold(hw, host);
    var s := ColdStart(hw, host).0;
    SpansAreLinked(s, end, t);
    AllNumberedIff(hw, host);
    OnlyBridgesWant(s, end, t);
    S.SlicesStayInChunk(t, u, Listing(s.bridges), base, lastbus, g);
  }
}
