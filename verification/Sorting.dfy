/**
  The bubble sort that the server uses twice: on the base registers of a device (largest size first)
  and on the pages of PCI memory (shortest first).  It runs until a pass swaps nothing.
*/
module Sorting {

  /** The elements whose key is `v`, in order. */
  function WithKey<T>(s: seq<T>, key: T -> int, v: int): (r: seq<T>) {
    if s == [] then []
    else if key(s[0]) == v then [s[0]] + WithKey(s[1..], key, v)
    else WithKey(s[1..], key, v)
  }

  predicate Ascending<T>(s: seq<T>, key: T -> int) {
    forall i, j :: 0 <= i < j < |s| ==> key(s[i]) <= key(s[j])
  }

  /** For every key the elements with that key are the same, in the same order. */
  ghost predicate SameOrder<T>(s: seq<T>, t: seq<T>, key: T -> int) {
    forall v :: WithKey(s, key, v) == WithKey(t, key, v)
  }

  /** `t` is `s` sorted stably. */
  ghost predicate SortedVersion<T>(s: seq<T>, t: seq<T>, key: T -> int) {
    Ascending(t, key) && SameOrder(s, t, key)
  }

  /** How many elements have a key below `k`. */
  function Smaller<T>(s: seq<T>, key: T -> int, k: int): (r: nat) {
    if s == [] then 0 else (if key(s[0]) < k then 1 else 0) + Smaller(s[1..], key, k)
  }

  /** Pairs in the wrong order. */
  function Inversions<T>(s: seq<T>, key: T -> int): (r: nat) {
    if s == [] then 0 else Smaller(s[1..], key, key(s[0])) + Inversions(s[1..], key)
  }

  // ---------------------------------------------------------------- swapping neighbours

  function Swapped<T>(s: seq<T>, i: nat): (r: seq<T>)
    requires i + 1 < |s|
  {
    s[i := s[i + 1]][i + 1 := s[i]]
  }

  lemma {:induction false} SwappedTail<T>(s: seq<T>, i: nat)
    requires 0 < i && i + 1 < |s|
    ensures Swapped(s, i)[0] == s[0] && Swapped(s, i)[1..] == Swapped(s[1..], i - 1)
  {
  }

  lemma {:induction false} SwapKeepsOrder<T>(s: seq<T>, i: nat, key: T -> int, v: int)
    requires i + 1 < |s| && key(s[i]) != key(s[i + 1])
    ensures WithKey(Swapped(s, i), key, v) == WithKey(s, key, v)
  {
    var t := Swapped(s, i);
    if i > 0 {
      SwappedTail(s, i);
      SwapKeepsOrder(s[1..], i - 1, key, v);
    } else {
      assert t[1..][1..] == s[1..][1..];
      assert t[1..][0] == s[0] && s[1..][0] == t[0];
    }
  }

  lemma {:induction false} SwapKeepsSmaller<T>(s: seq<T>, i: nat, key: T -> int, k: int)
    requires i + 1 < |s|
    ensures Smaller(Swapped(s, i), key, k) == Smaller(s, key, k)
  {
    var t := Swapped(s, i);
    if i > 0 {
      SwappedTail(s, i);
      SwapKeepsSmaller(s[1..], i - 1, key, k);
    } else {
      assert t[1..][1..] == s[1..][1..];
      assert t[1..][0] == s[0] && s[1..][0] == t[0];
    }
  }

  /** Each swap removes exactly one inversion. */
  lemma {:induction false} SwapRemovesInversion<T>(s: seq<T>, i: nat, key: T -> int)
    requires i + 1 < |s| && key(s[i]) > key(s[i + 1])
    ensures Inversions(Swapped(s, i), key) == Inversions(s, key) - 1
  {
    var t := Swapped(s, i);
    if i > 0 {
      SwappedTail(s, i);
      SwapKeepsSmaller(s[1..], i - 1, key, key(s[0]));
      SwapRemovesInversion(s[1..], i - 1, key);
    } else {
      assert t[1..][1..] == s[1..][1..];
      assert t[1..][0] == s[0] && s[1..][0] == t[0];
    }
  }

  // ---------------------------------------------------------------- what the contract means

  lemma {:induction false} MemberHasKey<T>(s: seq<T>, key: T -> int, i: nat)
    requires i < |s|
    ensures WithKey(s, key, key(s[i])) != []
  {
    if i > 0 {
      MemberHasKey(s[1..], key, i - 1);
    }
  }

  lemma {:induction false} KeysComeFrom<T>(s: seq<T>, key: T -> int, v: int)
    ensures WithKey(s, key, v) != [] ==> exists i :: 0 <= i < |s| && key(s[i]) == v
  {
    if s != [] && key(s[0]) != v {
      KeysComeFrom(s[1..], key, v);
      if WithKey(s, key, v) != [] {
        var i :| 0 <= i < |s[1..]| && key(s[1..][i]) == v;
        assert key(s[i + 1]) == v;
      }
    } else if s != [] {
      assert key(s[0]) == v;
    }
  }

  /** The first elements of two sorted versions agree. */
  lemma {:induction false} SameHead<T>(s: seq<T>, t: seq<T>, key: T -> int)
    requires Ascending(s, key) && Ascending(t, key) && SameOrder(s, t, key) && s != []
    ensures t != [] && s[0] == t[0]
  {
    var v := key(s[0]);
    MemberHasKey(s, key, 0);
    KeysComeFrom(t, key, v);
    MemberHasKey(t, key, 0);
    KeysComeFrom(s, key, key(t[0]));
    assert key(t[0]) == v;
    assert WithKey(s, key, v)[0] == s[0] && WithKey(t, key, v)[0] == t[0];
  }

  /** There is only one stable sorting, so the sort behaves as a function of its input. */
  lemma {:induction false} SortedVersionIsUnique<T>(s: seq<T>, t: seq<T>, key: T -> int)
    requires Ascending(s, key) && Ascending(t, key) && SameOrder(s, t, key)
    ensures s == t
  {
    if s == [] {
      if t != [] {
        SameHead(t, s, key);
      }
    } else {
      SameHead(s, t, key);
      forall v ensures WithKey(s[1..], key, v) == WithKey(t[1..], key, v) {
        assert WithKey(s, key, v) == WithKey(t, key, v);
        if key(s[0]) == v {
          assert WithKey(s, key, v)[1..] == WithKey(s[1..], key, v);
          assert WithKey(t, key, v)[1..] == WithKey(t[1..], key, v);
        }
      }
      SortedVersionIsUnique(s[1..], t[1..], key);
      assert s == [s[0]] + s[1..] && t == [t[0]] + t[1..];
    }
  }

  function Insert<T>(x: T, s: seq<T>, key: T -> int): (r: seq<T>) {
    if s == [] || key(x) <= key(s[0]) then [x] + s else [s[0]] + Insert(x, s[1..], key)
  }

  /** The stable sorting of `s`, which is what any correct sort that keeps equal elements in order returns. */
  function Sorted<T>(s: seq<T>, key: T -> int): (r: seq<T>) {
    if s == [] then [] else Insert(s[0], Sorted(s[1..], key), key)
  }

  lemma {:induction false} InsertKeys<T>(x: T, s: seq<T>, key: T -> int, v: int)
    ensures WithKey(Insert(x, s, key), key, v) == (if key(x) == v then [x] else []) + WithKey(s, key, v)
  {
    if s == [] || key(x) <= key(s[0]) {
      assert ([x] + s)[1..] == s;
    } else {
      InsertKeys(x, s[1..], key, v);
      assert ([s[0]] + Insert(x, s[1..], key))[1..] == Insert(x, s[1..], key);
    }
  }

  lemma {:induction false} InsertAscends<T>(x: T, s: seq<T>, key: T -> int)
    requires Ascending(s, key)
    ensures var t := Insert(x, s, key);
            Ascending(t, key) && t != [] && (key(t[0]) == key(x) || (s != [] && key(t[0]) == key(s[0])))
  {
    if s != [] && key(x) > key(s[0]) {
      InsertAscends(x, s[1..], key);
      var t := Insert(x, s[1..], key);
      assert forall k :: 0 <= k < |t| ==> key(t[0]) <= key(t[k]);
      assert key(s[0]) <= key(t[0]);
    }
  }

  lemma {:induction false} SortedIsSorted<T>(s: seq<T>, key: T -> int)
    ensures SortedVersion(s, Sorted(s, key), key)
  {
    if s != [] {
      SortedIsSorted(s[1..], key);
      InsertAscends(s[0], Sorted(s[1..], key), key);
      forall v ensures WithKey(s, key, v) == WithKey(Sorted(s, key), key, v) {
        InsertKeys(s[0], Sorted(s[1..], key), key, v);
        assert WithKey(s[1..], key, v) == WithKey(Sorted(s[1..], key), key, v);
      }
    }
  }

  lemma {:induction false} SortedVersionIsSorted<T>(s: seq<T>, t: seq<T>, key: T -> int)
    requires SortedVersion(s, t, key)
    ensures t == Sorted(s, key)
  {
    SortedIsSorted(s, key);
    forall v ensures WithKey(t, key, v) == WithKey(Sorted(s, key), key, v) {
      assert WithKey(s, key, v) == WithKey(t, key, v);
    }
    SortedVersionIsUnique(t, Sorted(s, key), key);
  }

  lemma {:induction false} CountByKey<T>(s: seq<T>, key: T -> int, x: T)
    ensures multiset(s)[x] == multiset(WithKey(s, key, key(x)))[x]
  {
    if s != [] {
      CountByKey(s[1..], key, x);
      assert s == [s[0]] + s[1..];
    }
  }

  /** Nothing is lost or invented. */
  lemma {:induction false} SameOrderIsPermutation<T>(s: seq<T>, t: seq<T>, key: T -> int)
    requires SameOrder(s, t, key)
    ensures multiset(s) == multiset(t)
  {
    forall x: T ensures multiset(s)[x] == multiset(t)[x] {
      CountByKey(s, key, x);
      CountByKey(t, key, x);
      assert WithKey(s, key, key(x)) == WithKey(t, key, key(x));
    }
  }

  lemma {:induction false} PairsInOrder<T>(s: seq<T>, key: T -> int)
    requires forall k :: 0 <= k < |s| - 1 ==> key(s[k]) <= key(s[k + 1])
    ensures Ascending(s, key)
  {
    forall i, j | 0 <= i < j < |s| ensures key(s[i]) <= key(s[j]) {
      var k := i + 1;
      while k < j
        invariant i < k <= j && key(s[i]) <= key(s[k])
      {
        k := k + 1;
      }
    }
  }

  // ---------------------------------------------------------------- the sort

  /** One pass over the first `n` elements; `swap` says whether anything moved. */
  method Pass<T>(a: array<T>, n: nat, key: T -> int) returns (swap: bool)
    requires n <= a.Length
    modifies a
    ensures a[n..] == old(a[n..]) && SameOrder(old(a[..n]), a[..n], key)
    ensures if swap then Inversions(a[..n], key) < Inversions(old(a[..n]), key)
            else a[..n] == old(a[..n]) && Ascending(a[..n], key)
  {
    swap := false;
    var i := 0;
    while i < n - 1
      invariant 0 <= i && (i == 0 || i <= n - 1)
      invariant a[n..] == old(a[n..]) && SameOrder(old(a[..n]), a[..n], key)
      invariant if swap then Inversions(a[..n], key) < Inversions(old(a[..n]), key)
                else a[..n] == old(a[..n]) && forall k :: 0 <= k < i && k + 1 < n ==> key(a[k]) <= key(a[k + 1])
    {
      if key(a[i]) > key(a[i + 1]) {
        ghost var s := a[..n];
        a[i], a[i + 1] := a[i + 1], a[i];
        assert a[..n] == Swapped(s, i);
        SwapRemovesInversion(s, i, key);
        forall v ensures WithKey(a[..n], key, v) == WithKey(s, key, v) {
          SwapKeepsOrder(s, i, key, v);
        }
        swap := true;
      }
      i := i + 1;
    }
    if !swap {
      PairsInOrder(a[..n], key);
    }
  }

  /** Passes until nothing moves. */
  method BubbleSort<T>(a: array<T>, n: nat, key: T -> int)
    requires n <= a.Length
    modifies a
    ensures a[n..] == old(a[n..]) && SortedVersion(old(a[..n]), a[..n], key)
    ensures a[..n] == Sorted(old(a[..n]), key)
  {
    var swap := true;
    while swap
      invariant a[n..] == old(a[n..]) && SameOrder(old(a[..n]), a[..n], key)
      invariant !swap ==> Ascending(a[..n], key)
      decreases Inversions(a[..n], key), swap
    {
      swap := Pass(a, n, key);
    }
    SortedVersionIsSorted(old(a[..n]), a[..n], key);
  }

  /** A page of PCI memory. */
  datatype Page = Page(start: nat, end: nat)

  /** `uint64_t` difference. */
  function PageLength(p: Page): (r: int) { (p.end - p.start) % 0x1_0000_0000_0000_0000 }

  /** The page sort of `find_ranges`, skipped for fewer than two pages. */
  method SortPages(pages: array<Page>, count: nat)
    requires count <= pages.Length
    modifies pages
    ensures SortedVersion(old(pages[..count]), pages[..count], PageLength)
    ensures multiset(pages[..count]) == multiset(old(pages[..count]))
  {
    if count > 1 {
      BubbleSort(pages, count, PageLength);
      SameOrderIsPermutation(old(pages[..count]), pages[..count], PageLength);
    }
  }
}
