/**
  The list of devices: the index each device is given among those with the same ids, and the searches
  that find a device by ids and index or by class and position.
*/
module DeviceList {
  import opened Common

  datatype Ids = Ids(vendor: nat, device: nat)

  /** `Index` is a `uint8_t`. */
  datatype Entry = Entry(ids: Ids, classCode: nat, index: nat)

  /** How many entries satisfy `p`. */
  function Count(list: seq<Entry>, p: Entry -> bool): (r: nat) {
    if list == [] then 0 else Count(list[..|list| - 1], p) + if p(list[|list| - 1]) then 1 else 0
  }

  /** Position `k` holds the `n`-th entry, counting from 0, that satisfies `p`. */
  predicate IsNth(list: seq<Entry>, p: Entry -> bool, n: nat, k: nat) {
    k < |list| && p(list[k]) && Count(list[..k], p) == n
  }

  lemma {:induction false} CountGrows(list: seq<Entry>, p: Entry -> bool, j: nat, k: nat)
    requires j <= k <= |list|
    ensures Count(list[..j], p) <= Count(list[..k], p)
    ensures j < k && p(list[j]) ==> Count(list[..j], p) < Count(list[..k], p)
    decreases k
  {
    if j < k {
      assert list[..k][..k - 1] == list[..k - 1];
      if j < k - 1 {
        CountGrows(list, p, j, k - 1);
      }
    }
  }

  /** There is at most one `n`-th entry. */
  lemma {:induction false} NthIsUnique(list: seq<Entry>, p: Entry -> bool, n: nat, j: nat, k: nat)
    requires IsNth(list, p, n, j) && IsNth(list, p, n, k)
    ensures j == k
  {
    if j < k {
      CountGrows(list, p, j, k);
    } else if k < j {
      CountGrows(list, p, k, j);
    }
  }

  lemma {:induction false} OnlyNth(list: seq<Entry>, p: Entry -> bool, n: nat, k: nat)
    requires IsNth(list, p, n, k)
    ensures forall j: nat :: IsNth(list, p, n, j) ==> j == k
  {
    forall j: nat | IsNth(list, p, n, j) ensures j == k {
      NthIsUnique(list, p, n, j, k);
    }
  }

  /** There is one exactly when enough entries satisfy `p`. */
  lemma {:induction false} NthExistsIff(list: seq<Entry>, p: Entry -> bool, n: nat)
    ensures (exists k :: IsNth(list, p, n, k)) <==> n < Count(list, p)
    decreases |list|
  {
    if list != [] {
      var m := |list| - 1;
      NthExistsIff(list[..m], p, n);
      if k: nat :| IsNth(list[..m], p, n, k) {
        assert list[..m][..k] == list[..k];
        assert IsNth(list, p, n, k);
      } else if n < Count(list, p) {
        assert IsNth(list, p, n, m);
      }
      forall k | IsNth(list, p, n, k) ensures n < Count(list, p) {
        CountGrows(list, p, k, |list|);
        assert list[..|list|] == list;
      }
    }
  }

  // ---------------------------------------------------------------- indices

  function Same(ids: Ids): Entry -> bool { (e: Entry) => e.ids == ids }

  function OfClass(c: nat): Entry -> bool { (e: Entry) => e.classCode == c }

  /** Every index counts the earlier devices with the same ids, modulo 256. */
  predicate Numbered(list: seq<Entry>) {
    forall k {:trigger list[k].index} :: 0 <= k < |list| ==> list[k].index == Byte(Count(list[..k], Same(list[k].ids)))
  }

  class Devices {
    var list: seq<Entry>

    constructor ()
      ensures list == []
    {
      list := [];
    }

    /** The part of `scan_device` that gives a new device its index and appends it. */
    method Append(ids: Ids, classCode: nat)
      requires Numbered(list)
      modifies this
      ensures Numbered(list)
      ensures list == old(list) + [Entry(ids, classCode, Byte(Count(old(list), Same(ids))))]
    {
      var index: nat := 0;
      var i := 0;
      assert list[..0] == [];
      while i < |list|
        invariant list == old(list) && 0 <= i <= |list| && Byte(index) == Byte(Count(list[..i], Same(ids))) && index <= 256
      {
        assert list[..i + 1][..i] == list[..i];
        if list[i].ids == ids {
          NextIndex(list, i, ids);
          index := list[i].index + 1;
        }
        i := i + 1;
      }
      assert list[..|list|] == list;
      AppendNumbered(list, Entry(ids, classCode, Byte(index)));
      list := list + [Entry(ids, classCode, Byte(index))];
    }

    /** `search_venddev` with both masks full */
    method SearchVendDev(ids: Ids, idx: nat) returns (k: Option<nat>)
      requires Numbered(list)
      ensures k.Some? ==> IsNth(list, Same(ids), idx, k.value) && forall j: nat :: IsNth(list, Same(ids), idx, j) ==> j == k.value
      ensures k == None <==> idx >= 256 || Count(list, Same(ids)) <= idx
    {
      var i := 0;
      while i < |list|
        invariant 0 <= i <= |list|
        invariant forall j :: 0 <= j < i ==> list[j].ids != ids || list[j].index != idx
      {
        if list[i].ids == ids && list[i].index == idx {
          FirstIsNth(list, ids, idx, i);
          OnlyNth(list, Same(ids), idx, i);
          NthExistsIff(list, Same(ids), idx);
          return Some(i);
        }
        i := i + 1;
      }
      k := None;
      NoneMeansFew(list, ids, idx);
    }

    /** `search_class` */
    method SearchClass(c: nat, idx: nat) returns (k: Option<nat>)
      ensures k.Some? ==> IsNth(list, OfClass(c), idx, k.value) && forall j: nat :: IsNth(list, OfClass(c), idx, j) ==> j == k.value
      ensures k == None <==> Count(list, OfClass(c)) <= idx
    {
      var i, oidx := 0, 0;
      assert list[..0] == [];
      while i < |list|
        invariant 0 <= i <= |list| && oidx == Count(list[..i], OfClass(c)) <= idx
      {
        assert list[..i + 1][..i] == list[..i];
        if list[i].classCode == c {
          if oidx == idx {
            NthExistsIff(list, OfClass(c), idx);
            OnlyNth(list, OfClass(c), idx, i);
            return Some(i);
          }
          oidx := oidx + 1;
        }
        i := i + 1;
      }
      assert list[..|list|] == list;
      k := None;
    }
  }

  lemma {:induction false} NextIndex(list: seq<Entry>, i: nat, ids: Ids)
    requires Numbered(list) && i < |list| && list[i].ids == ids
    ensures list[i].index < 256 && Byte(list[i].index + 1) == Byte(Count(list[..i + 1], Same(ids)))
  {
    assert list[..i + 1][..i] == list[..i];
    ByteStep(Count(list[..i], Same(ids)));
  }

  lemma {:induction false} ByteStep(n: nat)
    ensures Byte(Byte(n) + 1) == Byte(n + 1)
  {
  }

  lemma {:induction false} AppendNumbered(list: seq<Entry>, e: Entry)
    requires Numbered(list) && e.index == Byte(Count(list, Same(e.ids)))
    ensures Numbered(list + [e])
  {
    var next := list + [e];
    forall k | 0 <= k < |next| ensures next[k].index == Byte(Count(next[..k], Same(next[k].ids))) {
      assert next[..k] == list[..k];
      if k < |list| {
        assert list[k].index == Byte(Count(list[..k], Same(list[k].ids)));
      } else {
        assert list[..k] == list;
      }
    }
  }

  /** Each of the first 256 devices with the ids carries its position as its index. */
  lemma {:induction false} IndexOfNth(list: seq<Entry>, ids: Ids, idx: nat, k: nat) returns (j: nat)
    requires Numbered(list) && k <= |list| && idx < 256 && idx < Count(list[..k], Same(ids))
    ensures j < k && list[j].ids == ids && list[j].index == idx
  {
    NthExistsIff(list[..k], Same(ids), idx);
    j :| IsNth(list[..k], Same(ids), idx, j);
    assert list[..k][..j] == list[..j];
    assert list[j].index == Byte(Count(list[..j], Same(list[j].ids)));
  }

  /** The first device with the ids and the index is the one with that many before it. */
  lemma {:induction false} FirstIsNth(list: seq<Entry>, ids: Ids, idx: nat, k: nat)
    requires Numbered(list) && k < |list| && list[k].ids == ids && list[k].index == idx
    requires forall j :: 0 <= j < k ==> list[j].ids != ids || list[j].index != idx
    ensures idx < 256 && IsNth(list, Same(ids), idx, k)
  {
    if Count(list[..k], Same(ids)) >= 256 {
      var j := IndexOfNth(list, ids, idx, k);
    }
  }

  lemma {:induction false} NoneMeansFew(list: seq<Entry>, ids: Ids, idx: nat)
    requires Numbered(list) && forall j :: 0 <= j < |list| ==> list[j].ids != ids || list[j].index != idx
    ensures idx >= 256 || Count(list, Same(ids)) <= idx
  {
    assert list[..|list|] == list;
    if idx < 256 && idx < Count(list, Same(ids)) {
      var j := IndexOfNth(list, ids, idx, |list|);
    }
  }
}
