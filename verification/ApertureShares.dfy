/**
  Who gets a slice of the chunk, and whether the chunk is long enough for all of them.
*/
module ApertureShares {
  import opened Common
  import opened Apertures

  lemma {:induction false} SpansKeep(l: Layout, t: seq<Span>, grant: Option<nat>, i: nat)
    requires LaidOut(l, t, grant) && i < |t|
    ensures l.spans[i].sec == t[i].sec && l.spans[i].reqd == t[i].reqd
  {
    assert l.spans[i] == t[i].(start := l.spans[i].start, end := l.spans[i].end);
  }

  /** Secondary numbers are never changed, so a search has the same result before and after. */
  lemma {:induction false} LookupSame(l: Layout, t: seq<Span>, grant: Option<nat>, sec: nat)
    requires LaidOut(l, t, grant)
    ensures Lookup(l.spans, sec) == Lookup(t, sec)
  {
    forall i: nat | i < |t| ensures l.spans[i].sec == t[i].sec {
      SpansKeep(l, t, grant, i);
    }
  }

  // ---------------------------------------------------------------- who gets a slice

  /** A bridge that has had its turn: a slice has reached it. */
  predicate HadTurn(t: seq<Span>, slices: seq<Slice>, i: nat)
    requires WellLinked(t) && i < |t| && forall k :: 0 <= k < |slices| ==> slices[k].owner < |t|
  {
    SlicesOf(t, slices, i) != []
  }

  /**
    A listed bus gets a slice of its own exactly when it wants one and has not had its turn.  No slice
    reaches bus 0 or a bridge with the class of the host bridge: it wants one each time it is listed.
  */
  lemma {:induction false} ServedIff(t: seq<Span>, list: seq<nat>, sec: nat, base: nat, i: nat)
    requires WellLinked(t) && Unset(t) && base > 0 && i < |t| && Lookup(t, sec) == Some(i)
    requires Setup(t, list, Some(base)).ok
    ensures var l, r := Setup(t, list, Some(base)), Setup(t, list + [sec], Some(base));
            && r.ok && Owners(t, l.slices)
            && (r.slices == l.slices <==> !(Wanting(t[i]) && !HadTurn(t, l.slices, i)))
            && (r.slices != l.slices ==> r.slices == l.slices + [Slice(i, if l.next.Some? then l.next.value else base, t[i].reqd)])
  {
    var l := Setup(t, list, Some(base));
    assert (list + [sec])[..|list|] == list;
    ApertureIsHull(t, list, Some(base));
    LookupSame(l, t, Some(base), sec);
    WantingIff(l, t, base, i);
  }

  lemma {:induction false} WantingIff(l: Layout, t: seq<Span>, base: nat, i: nat)
    requires LaidOut(l, t, Some(base)) && Unset(t) && base > 0 && i < |t|
    ensures Wanting(l.spans[i]) <==> Wanting(t[i]) && !HadTurn(t, l.slices, i)
  {
    SpansKeep(l, t, Some(base), i);
    assert SpanRight(l.spans[i], t, l.slices, i);
    if SlicesOf(t, l.slices, i) != [] {
      var m := PositionOf(t, l.slices, i, 0);
      ReachesIsUnder(t, i, l.slices[m].owner);
      SliceAtLeast(t, l.slices, l.next, base, i, 0);
    }
  }

  /** Every listed number is known. */
  predicate Known(t: seq<Span>, list: seq<nat>) { forall k :: 0 <= k < |list| ==> Lookup(t, list[k]).Some? }

  /** Entry `k` of the list is a bus that wants a slice. */
  predicate Needs(t: seq<Span>, list: seq<nat>, k: nat)
    requires k < |list|
  {
    Lookup(t, list[k]).Some? && Wanting(t[Lookup(t, list[k]).value])
  }

  /** Entry `j` of the list takes the turn of entry `k`: its slice reaches that bridge. */
  predicate TakesTurn(t: seq<Span>, list: seq<nat>, j: nat, k: nat)
    requires WellLinked(t) && j < k < |list|
  {
    && Needs(t, list, j) && Needs(t, list, k)
    && Reaches(t, Lookup(t, list[k]).value, Lookup(t, list[j]).value)
  }

  /** No entry of the list takes the turn of a later one. */
  ghost predicate AncestorsFirst(t: seq<Span>, list: seq<nat>)
    requires WellLinked(t)
  {
    forall j: nat, k: nat {:trigger TakesTurn(t, list, j, k)} :: j < k < |list| ==> !TakesTurn(t, list, j, k)
  }

  /** The buses that want a slice, in the order of the list. */
  function Needy(t: seq<Span>, list: seq<nat>): (r: seq<nat>)
    ensures forall k :: 0 <= k < |r| ==> r[k] < |t|
  {
    if list == [] then []
    else
      var n := |list| - 1;
      match Lookup(t, list[n])
      case Some(i) => Needy(t, list[..n]) + if Wanting(t[i]) then [i] else []
      case None => Needy(t, list[..n])
  }

  function OwnersOf(slices: seq<Slice>): (r: seq<nat>)
    ensures |r| == |slices| && forall k :: 0 <= k < |r| ==> r[k] == slices[k].owner
  {
    seq(|slices|, k requires 0 <= k < |slices| => slices[k].owner)
  }

  lemma {:induction false} NeedyAreListed(t: seq<Span>, list: seq<nat>, k: nat) returns (j: nat)
    requires k < |Needy(t, list)|
    ensures j < |list| && Needs(t, list, j) && Lookup(t, list[j]) == Some(Needy(t, list)[k])
  {
    var n := |list| - 1;
    if k < |Needy(t, list[..n])| {
      j := NeedyAreListed(t, list[..n], k);
      assert list[..n][j] == list[j];
    } else {
      j := n;
    }
  }

  lemma {:induction false} ListedAreNeedy(t: seq<Span>, list: seq<nat>, j: nat)
    requires j < |list| && Needs(t, list, j)
    ensures Lookup(t, list[j]).value in Needy(t, list)
    decreases |list|
  {
    var n := |list| - 1;
    if j < n {
      assert list[..n][j] == list[j];
      ListedAreNeedy(t, list[..n], j);
    }
  }

  lemma {:induction false} PrefixTurns(t: seq<Span>, list: seq<nat>, j: nat, k: nat)
    requires WellLinked(t) && list != [] && j < k < |list| - 1
    ensures TakesTurn(t, list[..|list| - 1], j, k) <==> TakesTurn(t, list, j, k)
  {
    assert list[..|list| - 1][j] == list[j] && list[..|list| - 1][k] == list[k];
  }

  /** With the prefix served in full, the last entry has had its turn exactly if an earlier one takes it. */
  lemma {:induction false} LastHadTurn(t: seq<Span>, list: seq<nat>, slices: seq<Slice>)
    requires WellLinked(t) && list != [] && Owners(t, slices) && Needs(t, list, |list| - 1)
    requires OwnersOf(slices) == Needy(t, list[..|list| - 1])
    ensures HadTurn(t, slices, Lookup(t, list[|list| - 1]).value) <==>
            exists j: nat {:trigger TakesTurn(t, list, j, |list| - 1)} :: j < |list| - 1 && TakesTurn(t, list, j, |list| - 1)
  {
    var n := |list| - 1;
    var i := Lookup(t, list[n]).value;
    if HadTurn(t, slices, i) {
      var x := SlicesOf(t, slices, i)[0];
      InSlicesOf(t, slices, i, x);
      var k: nat :| k < |slices| && slices[k] == x;
      assert OwnersOf(slices)[k] == x.owner;
      var j := NeedyAreListed(t, list[..n], k);
      assert list[..n][j] == list[j];
      assert TakesTurn(t, list, j, n);
    }
    if j: nat :| j < n && TakesTurn(t, list, j, n) {
      assert list[..n][j] == list[j];
      ListedAreNeedy(t, list[..n], j);
      var k: nat :| k < |slices| && OwnersOf(slices)[k] == Lookup(t, list[j]).value;
      InSlicesOf(t, slices, i, slices[k]);
    }
  }

  /** What serving one more entry does to the slices and to the buses that want one. */
  lemma {:induction false} NextEntry(t: seq<Span>, list: seq<nat>, base: nat)
    requires WellLinked(t) && Unset(t) && base > 0 && Known(t, list) && list != []
    requires Setup(t, list[..|list| - 1], Some(base)).ok
    ensures var n := |list| - 1;
            var l, r, i := Setup(t, list[..n], Some(base)), Setup(t, list, Some(base)), Lookup(t, list[n]).value;
            && r.ok && Owners(t, l.slices)
            && Needy(t, list) == Needy(t, list[..n]) + (if Wanting(t[i]) then [i] else [])
            && OwnersOf(r.slices) == OwnersOf(l.slices) + (if Wanting(t[i]) && !HadTurn(t, l.slices, i) then [i] else [])
  {
    var n := |list| - 1;
    assert list[..n] + [list[n]] == list;
    ServedIff(t, list[..n], list[n], base, Lookup(t, list[n]).value);
  }

  /** How the slices compare with what is wanted, on the way to the theorem. */
  ghost predicate Compares(t: seq<Span>, list: seq<nat>, l: Layout)
    requires WellLinked(t)
  {
    && l.ok && |l.slices| <= |Needy(t, list)|
    && (if AncestorsFirst(t, list) then OwnersOf(l.slices) == Needy(t, list) else |l.slices| < |Needy(t, list)|)
  }

  lemma {:induction false} SlicesCompare(t: seq<Span>, list: seq<nat>, base: nat)
    requires WellLinked(t) && Unset(t) && base > 0 && Known(t, list)
    ensures Compares(t, list, Setup(t, list, Some(base)))
    decreases |list|
  {
    if list != [] {
      SlicesCompare(t, list[..|list| - 1], base);
      LastCompares(t, list, base);
    }
  }

  lemma {:induction false} LastCompares(t: seq<Span>, list: seq<nat>, base: nat)
    requires WellLinked(t) && Unset(t) && base > 0 && Known(t, list) && list != []
    requires Compares(t, list[..|list| - 1], Setup(t, list[..|list| - 1], Some(base)))
    ensures Compares(t, list, Setup(t, list, Some(base)))
  {
    var n := |list| - 1;
    var l, i := Setup(t, list[..n], Some(base)), Lookup(t, list[n]).value;
    NextEntry(t, list, base);
    if AncestorsFirst(t, list[..n]) {
      LastDecides(t, list);
      if Wanting(t[i]) {
        LastHadTurn(t, list, l.slices);
      }
    } else {
      var j: nat, k: nat :| j < k < n && TakesTurn(t, list[..n], j, k);
      PrefixTurns(t, list, j, k);
    }
  }

  lemma {:induction false} LastDecides(t: seq<Span>, list: seq<nat>)
    requires WellLinked(t) && list != [] && AncestorsFirst(t, list[..|list| - 1])
    ensures AncestorsFirst(t, list) <==>
            !exists j: nat {:trigger TakesTurn(t, list, j, |list| - 1)} :: j < |list| - 1 && TakesTurn(t, list, j, |list| - 1)
  {
    forall j: nat, k: nat | j < k < |list| - 1 ensures !TakesTurn(t, list, j, k) {
      PrefixTurns(t, list, j, k);
    }
  }

  /**
    Every bus that wants a slice gets exactly one each time it is listed, in list order, exactly when
    the bridges are listed ancestors first; otherwise some get none.
  */
  lemma {:induction false} EveryoneServedIff(t: seq<Span>, list: seq<nat>, base: nat)
    requires WellLinked(t) && Unset(t) && base > 0 && Known(t, list)
    ensures Setup(t, list, Some(base)).ok
    ensures OwnersOf(Setup(t, list, Some(base)).slices) == Needy(t, list) <==> AncestorsFirst(t, list)
    ensures !AncestorsFirst(t, list) ==> |Setup(t, list, Some(base)).slices| < |Needy(t, list)|
  {
    SlicesCompare(t, list, base);
  }

  /** A bridge listed before its parent takes the parent's place: the parent gets no slice of its own. */
  lemma {:induction false} ChildFirstStarvesParent(base: nat)
    requires base > 0
    ensures var t := [Span(0, -1, true, 0, 0, 0), Span(1, 0, false, 4096, 0, 0), Span(2, 1, false, 4096, 0, 0)];
            WellLinked(t) && Setup(t, [2, 1], Some(base)).slices == [Slice(2, base, 4096)]
  {
    var t := [Span(0, -1, true, 0, 0, 0), Span(1, 0, false, 4096, 0, 0), Span(2, 1, false, 4096, 0, 0)];
    LookupAt(t, 1);
    LookupAt(t, 2);
    assert [2, 1][..1] == [2] && [2][..0] == [];
    var l := HandOut(Setup(t, [], Some(base)), 2, Some(base));
    assert l.spans == Climb(t, 2, base, 4096);
    ClimbWidens(t, 2, base, 4096, 1);
    assert Reaches(t, 1, 2);
    LookupAt(l.spans, 1);
    assert !Wanting(l.spans[1]);
  }

  // ---------------------------------------------------------------- is the chunk long enough

  /** The sizes of the slices whose bus has a secondary number from `b` on. */
  function SizeFrom(t: seq<Span>, slices: seq<Slice>, b: nat): (r: nat)
    requires forall k :: 0 <= k < |slices| ==> slices[k].owner < |t|
  {
    if slices == [] then 0
    else
      var n := |slices| - 1;
      SizeFrom(t, slices[..n], b) + if t[slices[n].owner].sec >= b then slices[n].size else 0
  }

  /** Every slice has the size its bus needs. */
  ghost predicate Fitting(t: seq<Span>, slices: seq<Slice>) {
    Owners(t, slices) && forall k :: 0 <= k < |slices| ==> slices[k].size == t[slices[k].owner].reqd
  }

  /** Every bridge owns at most one slice, of the size it needs, and has a number from `1` to `lastbus - 1`. */
  ghost predicate OneEach(t: seq<Span>, slices: seq<Slice>, lastbus: nat) {
    && Fitting(t, slices)
    && (forall k :: 0 <= k < |slices| ==> 1 <= t[slices[k].owner].sec < lastbus)
    && (forall j, k :: 0 <= j < k < |slices| ==> slices[j].owner != slices[k].owner)
  }

  lemma {:induction false} SizeStep(t: seq<Span>, slices: seq<Slice>, lastbus: nat, b: nat)
    requires WellLinked(t) && OneEach(t, slices, lastbus)
    ensures SizeFrom(t, slices, b) <= SizeFrom(t, slices, b + 1) + (match Lookup(t, b) case Some(i) => t[i].reqd case None => 0)
    ensures (forall k :: 0 <= k < |slices| ==> t[slices[k].owner].sec != b) ==> SizeFrom(t, slices, b) == SizeFrom(t, slices, b + 1)
    decreases |slices|
  {
    if slices != [] {
      var n := |slices| - 1;
      SizeStep(t, slices[..n], lastbus, b);
      if t[slices[n].owner].sec == b {
        forall k | 0 <= k < n ensures t[slices[..n][k].owner].sec != b {
          assert slices[..n][k] == slices[k];
        }
      }
    }
  }

  lemma {:induction false} NoneBeyond(t: seq<Span>, slices: seq<Slice>, lastbus: nat, b: nat)
    requires OneEach(t, slices, lastbus) && b >= lastbus
    ensures SizeFrom(t, slices, b) == 0
    decreases |slices|
  {
    if slices != [] {
      NoneBeyond(t, slices[..|slices| - 1], lastbus, b);
    }
  }

  lemma {:induction false} NoneBelow(t: seq<Span>, slices: seq<Slice>, lastbus: nat)
    requires OneEach(t, slices, lastbus)
    ensures SizeFrom(t, slices, 0) == SizeFrom(t, slices, 1)
    decreases |slices|
  {
    if slices != [] {
      NoneBelow(t, slices[..|slices| - 1], lastbus);
    }
  }

  /** `t` is `u` after the rounding pass. */
  ghost predicate AfterRounding(t: seq<Span>, u: seq<Span>, lastbus: nat, g: nat)
    requires g > 0
  {
    |t| == |u| && forall i :: 0 <= i < |t| ==> t[i] == RoundSpan(u[i], lastbus, g)
  }

  lemma {:induction false} SameNumbers(t: seq<Span>, u: seq<Span>, lastbus: nat, g: nat, b: nat)
    requires g > 0 && AfterRounding(t, u, lastbus, g)
    ensures Lookup(t, b) == Lookup(u, b)
    decreases |t|
  {
    if t != [] {
      var n := |t| - 1;
      assert t[n] == RoundSpan(u[n], lastbus, g);
      SameNumbers(t[..n], u[..n], lastbus, g, b);
    }
  }

  /** Slices of distinct buses add up to no more than what rounding charged for all buses. */
  lemma {:induction false} SlicesWithinTotal(t: seq<Span>, u: seq<Span>, slices: seq<Slice>, b: nat, lastbus: nat,
          g: nat)
    requires g > 0 && WellLinked(t) && OneEach(t, slices, lastbus) && b >= 1 && AfterRounding(t, u, lastbus, g)
    ensures SizeFrom(t, slices, b) <= TotalFrom(u, b, lastbus, g)
    decreases lastbus - b
  {
    if b >= lastbus {
      NoneBeyond(t, slices, lastbus, b);
    } else {
      SlicesWithinTotal(t, u, slices, b + 1, lastbus, g);
      SizeStep(t, slices, lastbus, b);
      SameNumbers(t, u, lastbus, g, b);
    }
  }

  /** Consecutive slices end where their sizes add up to. */
  lemma {:induction false} EndOfSlices(t: seq<Span>, slices: seq<Slice>, base: nat)
    requires Owners(t, slices) && slices != []
    requires slices[0].start == base && forall k: nat {:trigger Follows(slices, k)} :: 0 < k < |slices| ==> Follows(slices, k)
    ensures slices[|slices| - 1].start + slices[|slices| - 1].size == base + SizeFrom(t, slices, 0)
    decreases |slices|
  {
    var n := |slices| - 1;
    if n > 0 {
      forall k: nat | 0 < k < n ensures Follows(slices[..n], k) {
        assert Follows(slices, k);
      }
      EndOfSlices(t, slices[..n], base);
      assert Follows(slices, n);
    } else {
      assert slices[..0] == [];
    }
  }

  /** The chunk from `base`, of that length, holds every slice. */
  ghost predicate Holds(slices: seq<Slice>, base: nat, length: nat) {
    forall k :: 0 <= k < |slices| ==> base <= slices[k].start && slices[k].start + slices[k].size <= base + length
  }

  /** Which comes down to the sum of the sizes. */
  lemma {:induction false} HoldsBySize(t: seq<Span>, slices: seq<Slice>, next: Option<nat>, base: nat, length: nat)
    requires Owners(t, slices) && Consecutive(slices, next, Some(base))
    ensures Holds(slices, base, length) <==> SizeFrom(t, slices, 0) <= length
  {
    if slices != [] {
      EndOfSlices(t, slices, base);
      ConsecutiveIsInOrder(slices, next, Some(base));
      forall k: nat | k < |slices| ensures slices[k].start >= base {
        AtLeastBase(slices, next, base, k);
      }
    }
  }

  /**
    Whatever wants a slice and is listed is a bridge numbered from 1 to `lastbus - 1`, and those with the
    class of the host bridge are listed once.
  */
  ghost predicate OnlyBridgesWant(t: seq<Span>, list: seq<nat>, lastbus: nat) {
    forall k :: 0 <= k < |list| && Needs(t, list, k) ==>
      1 <= list[k] < lastbus && (t[Lookup(t, list[k]).value].host ==> list[k] !in list[..k])
  }

  ghost predicate OwnersIn(t: seq<Span>, slices: seq<Slice>, list: seq<nat>)
    requires Owners(t, slices)
  {
    forall k :: 0 <= k < |slices| ==> t[slices[k].owner].sec in list
  }

  /** Then, however the bridges are listed, none gets more than one slice. */
  lemma {:induction false} OneSliceEach(t: seq<Span>, list: seq<nat>, base: nat, lastbus: nat)
    requires WellLinked(t) && Unset(t) && base > 0 && OnlyBridgesWant(t, list, lastbus)
    ensures OneEach(t, Setup(t, list, Some(base)).slices, lastbus)
    ensures OwnersIn(t, Setup(t, list, Some(base)).slices, list)
    decreases |list|
  {
    if list != [] {
      var n := |list| - 1;
      forall k | 0 <= k < n && Needs(t, list[..n], k)
        ensures 1 <= list[..n][k] < lastbus
        ensures t[Lookup(t, list[..n][k]).value].host ==> list[..n][k] !in list[..n][..k]
      {
        assert Needs(t, list, k) && list[..n][..k] == list[..k];
      }
      OneSliceEach(t, list[..n], base, lastbus);
      LastOne(t, list, base, lastbus);
    }
  }

  /** One more slice, for the bus that the last entry of `list` names. */
  lemma {:induction false} OneMore(t: seq<Span>, slices: seq<Slice>, x: Slice, list: seq<nat>, lastbus: nat)
    requires WellLinked(t) && OneEach(t, slices, lastbus) && list != [] && OwnersIn(t, slices, list[..|list| - 1])
    requires x.owner < |t| && x.size == t[x.owner].reqd && t[x.owner].sec == list[|list| - 1] && !HadTurn(t, slices, x.owner)
    requires 1 <= list[|list| - 1] < lastbus && (t[x.owner].host ==> list[|list| - 1] !in list[..|list| - 1])
    ensures OneEach(t, slices + [x], lastbus) && OwnersIn(t, slices + [x], list)
  {
    forall k | 0 <= k < |slices| ensures slices[k].owner != x.owner {
      InSlicesOf(t, slices, x.owner, slices[k]);
    }
  }

  lemma {:induction false} LastOne(t: seq<Span>, list: seq<nat>, base: nat, lastbus: nat)
    requires WellLinked(t) && Unset(t) && base > 0 && OnlyBridgesWant(t, list, lastbus) && list != []
    requires OneEach(t, Setup(t, list[..|list| - 1], Some(base)).slices, lastbus)
    requires OwnersIn(t, Setup(t, list[..|list| - 1], Some(base)).slices, list[..|list| - 1])
    ensures OneEach(t, Setup(t, list, Some(base)).slices, lastbus)
    ensures OwnersIn(t, Setup(t, list, Some(base)).slices, list)
  {
    var n := |list| - 1;
    var l := Setup(t, list[..n], Some(base));
    ApertureIsHull(t, list[..n], Some(base));
    LookupSame(l, t, Some(base), list[n]);
    if l.ok && Lookup(t, list[n]).Some? {
      var i := Lookup(t, list[n]).value;
      assert list[..n] + [list[n]] == list;
      ServedIff(t, list[..n], list[n], base, i);
      if Wanting(t[i]) && !HadTurn(t, l.slices, i) {
        assert Needs(t, list, n);
        OneMore(t, l.slices, Slice(i, if l.next.Some? then l.next.value else base, t[i].reqd), list, lastbus);
      }
    }
  }

  /**
    Conservation: if only numbered bridges want a slice, no slice runs past a chunk as long as the
    total that the rounding pass computed, unless that total has wrapped around at 2^64.
  */
  lemma {:induction false} SlicesStayInChunk(t: seq<Span>, u: seq<Span>, list: seq<nat>, base: nat, lastbus: nat,
          g: nat)
    requires g > 0 && WellLinked(t) && Unset(t) && base > 0 && OnlyBridgesWant(t, list, lastbus)
    requires AfterRounding(t, u, lastbus, g) && TotalFrom(u, 1, lastbus, g) < TWO64
    ensures Holds(Setup(t, list, Some(base)).slices, base, W64(TotalFrom(u, 1, lastbus, g)))
  {
    var l := Setup(t, list, Some(base));
    ApertureIsHull(t, list, Some(base));
    OneSliceEach(t, list, base, lastbus);
    SlicesWithinTotal(t, u, l.slices, 1, lastbus, g);
    NoneBelow(t, l.slices, lastbus);
    HoldsBySize(t, l.slices, l.next, base, W64(TotalFrom(u, 1, lastbus, g)));
  }

  /** The sum of what the given buses need. */
  function SumOf(t: seq<Span>, buses: seq<nat>): (r: nat)
    requires forall k :: 0 <= k < |buses| ==> buses[k] < |t|
  {
    if buses == [] then 0 else SumOf(t, buses[..|buses| - 1]) + t[buses[|buses| - 1]].reqd
  }

  lemma {:induction false} SizeIsSum(t: seq<Span>, slices: seq<Slice>)
    requires Fitting(t, slices)
    ensures SizeFrom(t, slices, 0) == SumOf(t, OwnersOf(slices))
    decreases |slices|
  {
    if slices != [] {
      var n := |slices| - 1;
      SizeIsSum(t, slices[..n]);
      assert OwnersOf(slices)[..n] == OwnersOf(slices[..n]);
    }
  }

  /**
    With ancestors listed first the chunk holds every slice exactly when what the listed buses want,
    bus 0 included and once for every time it is listed, is no more than the total.
  */
  lemma {:induction false} ChunkHoldsIff(t: seq<Span>, u: seq<Span>, list: seq<nat>, base: nat, lastbus: nat, g: nat)
    requires g > 0 && WellLinked(t) && Unset(t) && base > 0 && Known(t, list) && AncestorsFirst(t, list)
    requires AfterRounding(t, u, lastbus, g)
    ensures Holds(Setup(t, list, Some(base)).slices, base, W64(TotalFrom(u, 1, lastbus, g))) <==>
            SumOf(t, Needy(t, list)) <= W64(TotalFrom(u, 1, lastbus, g))
  {
    var l := Setup(t, list, Some(base));
    ApertureIsHull(t, list, Some(base));
    EveryoneServedIff(t, list, base);
    SizeIsSum(t, l.slices);
    HoldsBySize(t, l.slices, l.next, base, W64(TotalFrom(u, 1, lastbus, g)));
  }

  /** Two buses that both want a slice: the second is served after the first. */
  lemma {:induction false} TwoServed(t: seq<Span>, a: nat, b: nat, i: nat, j: nat, base: nat)
    requires WellLinked(t) && Unset(t) && base > 0 && i < |t| && j < |t|
    requires Lookup(t, a) == Some(i) && Lookup(t, b) == Some(j) && Wanting(t[i]) && Wanting(t[j]) && !Reaches(t, j, i)
    ensures Setup(t, [a, b], Some(base)).slices == [Slice(i, base, t[i].reqd), Slice(j, base + t[i].reqd, t[j].reqd)]
  {
    assert [] + [a] == [a] && [a] + [b] == [a, b];
    ServedIff(t, [], a, base, i);
    var l := Setup(t, [a], Some(base));
    var x := Slice(i, base, t[i].reqd);
    assert l.slices == [x];
    ApertureIsHull(t, [a], Some(base));
    assert [x][..0] == [] && SlicesOf(t, [x], j) == [];
    assert l.next == Some(base + t[i].reqd);
    ServedIff(t, [a], b, base, j);
  }

  lemma {:induction false} SecondSticksOut(slices: seq<Slice>, base: nat)
    requires |slices| == 2 && slices[1].start + slices[1].size > base + MEG1
    ensures !Holds(slices, base, MEG1)
  {
  }

  /** Bus 0 and a bridge, which both want a megabyte. */
  const ROOT_WANTS := [Span(0, -1, true, MEG1, 0, 0), Span(1, 0, false, MEG1, 0, 0)]

  /**
    A listed function without a number stands for bus 0.  If bus 0 wants a slice, as it may for
    prefetchable memory, it takes one that the total never counted, and the next slice runs past the
    chunk.
  */
  lemma {:induction false} UnnumberedEntryOverflows(base: nat)
    requires base > 0
    ensures WellLinked(ROOT_WANTS) && TotalFrom(ROOT_WANTS, 1, 2, MEG1) == MEG1 && AfterRounding(ROOT_WANTS, ROOT_WANTS, 2, MEG1)
    ensures Setup(ROOT_WANTS, [0, 1], Some(base)).slices == [Slice(0, base, MEG1), Slice(1, base + MEG1, MEG1)]
    ensures !Holds(Setup(ROOT_WANTS, [0, 1], Some(base)).slices, base, MEG1)
  {
    LookupAt(ROOT_WANTS, 0);
    LookupAt(ROOT_WANTS, 1);
    assert TotalFrom(ROOT_WANTS, 2, 2, MEG1) == 0;
    TwoServed(ROOT_WANTS, 0, 1, 0, 1, base);
    SecondSticksOut(Setup(ROOT_WANTS, [0, 1], Some(base)).slices, base);
  }

  /** Two bridges of bus 0 that want a megabyte each, the second numbered 255. */
  const LAST_WANTS := [Span(0, -1, true, 0, 0, 0), Span(1, 0, false, MEG1, 0, 0), Span(255, 0, false, MEG1, 0, 0)]

  /**
    With 256 buses the eight-bit counter ends at 255, and the rounding pass stops before bus 255: its
    slice is not part of the total and lies behind the chunk.
  */
  lemma {:induction false} UncountedBusOverflows(base: nat)
    requires base > 0
    ensures WellLinked(LAST_WANTS) && TotalFrom(LAST_WANTS, 1, 255, MEG1) == MEG1
    ensures AfterRounding(LAST_WANTS, LAST_WANTS, 255, MEG1)
    ensures Setup(LAST_WANTS, [1, 255], Some(base)).slices == [Slice(1, base, MEG1), Slice(2, base + MEG1, MEG1)]
    ensures !Holds(Setup(LAST_WANTS, [1, 255], Some(base)).slices, base, MEG1)
  {
    LookupAt(LAST_WANTS, 1);
    LookupAt(LAST_WANTS, 2);
    NothingCharged(LAST_WANTS, 2);
    TwoServed(LAST_WANTS, 1, 255, 1, 2, base);
    SecondSticksOut(Setup(LAST_WANTS, [1, 255], Some(base)).slices, base);
  }

  lemma {:induction false} NothingCharged(t: seq<Span>, b: nat)
    requires forall i :: 0 <= i < |t| ==> !(b <= t[i].sec < 255)
    ensures TotalFrom(t, b, 255, MEG1) == 0
    decreases 255 - b
  {
    if b < 255 {
      NothingCharged(t, b + 1);
    }
  }
}
