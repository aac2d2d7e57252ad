/**
  Which bridges get an aperture, and when every aperture contains those of the bridges behind it: the
  climb from a bridge stops at the first that has the class code of the host bridge.
*/
module ApertureNesting {
  import opened Common
  import opened Apertures
  import opened ApertureShares

  /** Entry `k` of the list wants a slice, and the slice reaches bridge `i`. */
  predicate Feeds(t: seq<Span>, list: seq<nat>, k: nat, i: nat)
    requires WellLinked(t) && k < |list|
  {
    Needs(t, list, k) && Reaches(t, i, Lookup(t, list[k]).value)
  }

  // ---------------------------------------------------------------- who gets an aperture

  /** What serving the last entry of the list does. */
  lemma {:induction false} LastServed(t: seq<Span>, list: seq<nat>, base: nat)
    requires WellLinked(t) && Unset(t) && base > 0 && Known(t, list) && list != []
    ensures var n := |list| - 1;
            var l, r, i := Setup(t, list[..n], Some(base)), Setup(t, list, Some(base)), Lookup(t, list[n]).value;
            && Owners(t, l.slices)
            && if Wanting(t[i]) && !HadTurn(t, l.slices, i)
               then r.slices == l.slices + [Slice(i, if l.next.Some? then l.next.value else base, t[i].reqd)]
               else r.slices == l.slices
  {
    var n := |list| - 1;
    assert list[..n] + [list[n]] == list;
    assert Setup(t, list[..n], Some(base)).ok by {
      EveryoneServedIff(t, list[..n], base);
    }
    ServedIff(t, list[..n], list[n], base, Lookup(t, list[n]).value);
  }

  /** Every slice was handed out for an entry of the list that wants one. */
  lemma {:induction false} OwnerIsListed(t: seq<Span>, list: seq<nat>, base: nat, x: Slice) returns (j: nat)
    requires WellLinked(t) && Unset(t) && base > 0 && Known(t, list) && x in Setup(t, list, Some(base)).slices
    ensures j < |list| && Needs(t, list, j) && Lookup(t, list[j]) == Some(x.owner)
    decreases |list|
  {
    var n := |list| - 1;
    LastServed(t, list, base);
    if x in Setup(t, list[..n], Some(base)).slices {
      j := OwnerIsListed(t, list[..n], base, x);
      assert list[..n][j] == list[j];
    } else {
      j := n;
    }
  }

  /** Once an entry that wants a slice has been looked at, a slice has reached its bridge. */
  lemma {:induction false} EntryHasTurn(t: seq<Span>, list: seq<nat>, base: nat, j: nat) returns (x: Slice)
    requires WellLinked(t) && Unset(t) && base > 0 && Known(t, list)
    requires j < |list| && Needs(t, list, j) && !t[Lookup(t, list[j]).value].host
    ensures x in Setup(t, list, Some(base)).slices && x.owner < |t| && Reaches(t, Lookup(t, list[j]).value, x.owner)
    decreases |list|
  {
    var n := |list| - 1;
    LastServed(t, list, base);
    if j < n {
      assert list[..n][j] == list[j];
      x := EntryHasTurn(t, list[..n], base, j);
    } else {
      x := LastHasTurn(t, list, base);
    }
  }

  lemma {:induction false} LastHasTurn(t: seq<Span>, list: seq<nat>, base: nat) returns (x: Slice)
    requires WellLinked(t) && Unset(t) && base > 0 && Known(t, list)
    requires list != [] && Needs(t, list, |list| - 1) && !t[Lookup(t, list[|list| - 1]).value].host
    ensures x in Setup(t, list, Some(base)).slices && x.owner < |t|
    ensures Reaches(t, Lookup(t, list[|list| - 1]).value, x.owner)
  {
    var n := |list| - 1;
    var l, i := Setup(t, list[..n], Some(base)), Lookup(t, list[n]).value;
    LastServed(t, list, base);
    if HadTurn(t, l.slices, i) {
      x := SlicesOf(t, l.slices, i)[0];
      InSlicesOf(t, l.slices, i, x);
    } else {
      x := Slice(i, if l.next.Some? then l.next.value else base, t[i].reqd);
    }
  }

  /** A bridge ends up with an aperture exactly when a listed bus that wants a slice feeds it. */
  lemma {:induction false} ApertureSetIff(t: seq<Span>, list: seq<nat>, base: nat, i: nat)
    requires WellLinked(t) && Unset(t) && base > 0 && Known(t, list) && i < |t| && (t[i].parent >= 0 || !t[i].host)
    ensures Setup(t, list, Some(base)).spans[i].end != 0 <==>
            exists k: nat {:trigger Feeds(t, list, k, i)} :: k < |list| && Feeds(t, list, k, i)
  {
    var l := Setup(t, list, Some(base));
    ApertureIsHull(t, list, Some(base));
    assert SpanRight(l.spans[i], t, l.slices, i);
    if l.spans[i].end != 0 {
      var x := SlicesOf(t, l.slices, i)[0];
      InSlicesOf(t, l.slices, i, x);
      var k := OwnerIsListed(t, list, base, x);
      assert Feeds(t, list, k, i);
    }
    if k: nat :| k < |list| && Feeds(t, list, k, i) {
      FedIsSet(t, list, base, i, k);
    }
  }

  lemma {:induction false} FedIsSet(t: seq<Span>, list: seq<nat>, base: nat, i: nat, k: nat)
    requires WellLinked(t) && Unset(t) && base > 0 && Known(t, list) && i < |t| && k < |list| && Feeds(t, list, k, i)
    ensures Setup(t, list, Some(base)).spans[i].end != 0
  {
    var l, b := Setup(t, list, Some(base)), Lookup(t, list[k]).value;
    ApertureIsHull(t, list, Some(base));
    ReachesIsUnder(t, i, b);
    assert !t[b].host;
    var x := EntryHasTurn(t, list, base, k);
    ReachesTransitive(t, i, b, x.owner);
    InSlicesOf(t, l.slices, i, x);
    ApertureContains(t, list, base, i, x);
  }

  // ---------------------------------------------------------------- nesting

  /** The apertures of bridge `i` and of bridge `a`, which `i` lies behind. */
  ghost predicate Nest(t: seq<Span>, spans: seq<Span>, a: nat, i: nat)
    requires WellLinked(t) && |spans| == |t|
  {
    a < |t| && i < |t| && t[a].parent >= 0 && Under(t, a, i) && spans[i].end != 0 ==> Encloses(spans[a], spans[i])
  }

  /** Every aperture contains the apertures of all bridges behind it. */
  ghost predicate AllNest(t: seq<Span>, spans: seq<Span>)
    requires WellLinked(t) && |spans| == |t|
  {
    forall a: nat, i: nat {:trigger Nest(t, spans, a, i)} :: Nest(t, spans, a, i)
  }

  /** Bridge `a` has the class of the host bridge, and entry `k`, which has not, wants a slice behind it. */
  predicate Shades(t: seq<Span>, list: seq<nat>, a: nat, k: nat)
    requires WellLinked(t)
  {
    && a < |t| && k < |list| && t[a].parent >= 0 && t[a].host && Needs(t, list, k)
    && !t[Lookup(t, list[k]).value].host && Under(t, a, Lookup(t, list[k]).value)
  }

  ghost predicate NothingShaded(t: seq<Span>, list: seq<nat>)
    requires WellLinked(t)
  {
    forall a: nat, k: nat {:trigger Shades(t, list, a, k)} :: !Shades(t, list, a, k)
  }

  /** If nothing is shaded, a slice that reaches a bridge reaches all the bridges above it. */
  lemma {:induction false} ReachesUp(t: seq<Span>, list: seq<nat>, k: nat, a: nat, i: nat)
    requires WellLinked(t) && NothingShaded(t, list) && k < |list| && a < |t| && i < |t| && t[a].parent >= 0
    requires Needs(t, list, k) && !t[Lookup(t, list[k]).value].host
    requires Under(t, i, Lookup(t, list[k]).value) && Under(t, a, i)
    ensures Reaches(t, a, i)
    decreases i
  {
    assert t[i].parent >= 0;
    assert !Shades(t, list, i, k);
    if a != i {
      var p := t[i].parent;
      assert Under(t, p, i);
      UnderTransitive(t, p, i, Lookup(t, list[k]).value);
      ReachesUp(t, list, k, a, p);
    }
  }

  /** A bridge of the host bridge's class keeps no aperture, so what it shades is not contained in it. */
  lemma {:induction false} ShadedSticksOut(t: seq<Span>, list: seq<nat>, base: nat, a: nat, k: nat)
    requires WellLinked(t) && Unset(t) && base > 0 && Known(t, list) && Shades(t, list, a, k)
    ensures var l := Setup(t, list, Some(base));
            l.spans[a].end == 0 && l.spans[Lookup(t, list[k]).value].end != 0 && !AllNest(t, l.spans)
  {
    var l, i := Setup(t, list, Some(base)), Lookup(t, list[k]).value;
    ApertureIsHull(t, list, Some(base));
    assert SpanRight(l.spans[a], t, l.slices, a);
    assert Feeds(t, list, k, i);
    FedIsSet(t, list, base, i, k);
    assert !Nest(t, l.spans, a, i);
  }

  /**
    Every aperture contains those of the bridges behind it exactly when no listed bridge that wants a
    slice lies behind one with the class of the host bridge without having that class itself.
  */
  lemma {:induction false} AllNestIff(t: seq<Span>, list: seq<nat>, base: nat)
    requires WellLinked(t) && Unset(t) && base > 0 && Known(t, list)
    ensures AllNest(t, Setup(t, list, Some(base)).spans) <==> NothingShaded(t, list)
  {
    var l := Setup(t, list, Some(base));
    if NothingShaded(t, list) {
      forall a: nat, i: nat ensures Nest(t, l.spans, a, i) {
        if a < |t| && i < |t| && t[a].parent >= 0 && Under(t, a, i) && l.spans[i].end != 0 {
          NestsUnlessShaded(t, list, base, a, i);
        }
      }
    } else {
      var a: nat, k: nat :| Shades(t, list, a, k);
      ShadedSticksOut(t, list, base, a, k);
    }
  }

  lemma {:induction false} NestsUnlessShaded(t: seq<Span>, list: seq<nat>, base: nat, a: nat, i: nat)
    requires WellLinked(t) && Unset(t) && base > 0 && Known(t, list) && NothingShaded(t, list)
    requires a < |t| && i < |t| && t[a].parent >= 0 && Under(t, a, i) && Setup(t, list, Some(base)).spans[i].end != 0
    ensures Reaches(t, a, i) && Encloses(Setup(t, list, Some(base)).spans[a], Setup(t, list, Some(base)).spans[i])
  {
    UnderIsLater(t, a, i);
    ApertureSetIff(t, list, base, i);
    var k: nat :| k < |list| && Feeds(t, list, k, i);
    ReachesIsUnder(t, i, Lookup(t, list[k]).value);
    ReachesUp(t, list, k, a, i);
    AperturesNest(t, list, base, a, i);
  }

  /** Behind bus 0 a bridge with the class of the host bridge, and behind it one that has another. */
  const HIDDEN := [Span(0, -1, true, 0, 0, 0), Span(1, 0, true, MEG1, 0, 0), Span(2, 1, false, MEG1, 0, 0)]

  /** Both want a megabyte and are given a slice, but only the second has an aperture in the end. */
  lemma {:induction false} HostClassHidesAperture(base: nat)
    requires base > 0
    ensures WellLinked(HIDDEN) && Unset(HIDDEN)
    ensures var l := Setup(HIDDEN, [1, 2], Some(base));
            && l.slices == [Slice(1, base, MEG1), Slice(2, base + MEG1, MEG1)]
            && l.spans[1].end == 0 && l.spans[2].end != 0
  {
    LookupAt(HIDDEN, 1);
    LookupAt(HIDDEN, 2);
    TwoServed(HIDDEN, 1, 2, 1, 2, base);
    assert Under(HIDDEN, 1, 2) && Shades(HIDDEN, [1, 2], 1, 1);
    ShadedSticksOut(HIDDEN, [1, 2], base, 1, 1);
  }
}
