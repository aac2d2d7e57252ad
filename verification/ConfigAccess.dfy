/**
  The six configuration accessors as they run, over registers and buffers updated in place.
*/
module ConfigAccess {
  import opened ConfigSpace

  /** A client sends the count of a byte or word call as an `ushort_t`. */
  type Count = n: nat | n < 0x1_0000

  /** The configuration space of one function, as the low-level driver gives access to it. */
  class Function {
    const dwords: array<nat>
    /** Registers that the driver can reach. */
    const reachable: nat -> bool
    /** Extended space: whether the server has it, and the verdict on this function. */
    const extended: bool
    const verdict: Status

    constructor (dwords: array<nat>, reachable: nat -> bool, extended: bool, verdict: Status)
      ensures this.dwords == dwords && this.reachable == reachable && this.extended == extended && this.verdict == verdict
    {
      this.dwords, this.reachable, this.extended, this.verdict := dwords, reachable, extended, verdict;
    }

    predicate Answers(j: nat) { j < dwords.Length && reachable(j) }

    /** `read_cnfg` */
    method ReadCnfg(j: nat) returns (status: Status, d: nat)
      ensures status == if Answers(j) then Success else DeviceError
      ensures status == Success ==> d == dwords[j]
    {
      status, d := DeviceError, 0;
      if Answers(j) {
        status, d := Success, dwords[j];
      }
    }

    /** `write_cnfg` */
    method WriteCnfg(j: nat, d: nat) returns (status: Status)
      modifies dwords
      ensures status == if Answers(j) then Success else DeviceError
      ensures dwords[..] == if status == Success then old(dwords[..])[j := d] else old(dwords[..])
    {
      status := DeviceError;
      if Answers(j) {
        status := Success;
        dwords[j] := d;
      }
    }

    /** `pciex_check` */
    function PciexCheck(offset: nat, cnt: nat): (r: Status) {
      if !extended then Unsupported
      else if offset + cnt * 4 > 4096 then BadRegister
      else verdict
    }

    predicate AllAnswer(s: Span) { forall j :: s.first <= j < s.first + s.count ==> Answers(j) }

    /** The offset of a call, in units. */
    static function UnitOf(offset: nat, w: Width): (r: nat) { if w.Byte? then offset else offset / 2 }

    /** What the checks before the first register access say. */
    function Checks(offset: nat, cnt: Count, w: Width): (r: Status) {
      var s := SpanOf(UnitOf(offset, w), cnt, w);
      if cnt > w.Times(64) then BufferTooSmall
      else if w.Word? && offset % 2 == 1 then BadRegister
      else if s.first * 4 >= 0x100 then PciexCheck(s.first * 4, s.count)
      else Success
    }

    /** The copy to or from the local buffer of 256 bytes would run past its end. */
    ghost predicate Overruns(offset: nat, cnt: Count, w: Width) {
      var s := SpanOf(UnitOf(offset, w), cnt, w);
      Checks(offset, cnt, w) == Success && AllAnswer(s) && s.rest + cnt > w.Times(64)
    }

    /** The status of a byte or word call. */
    ghost function Outcome(offset: nat, cnt: Count, w: Width): (r: Status) {
      if Checks(offset, cnt, w) != Success then Checks(offset, cnt, w)
      else if AllAnswer(SpanOf(UnitOf(offset, w), cnt, w)) then Success
      else DeviceError
    }

    /** One register into the buffer, as units. */
    method FetchOne(j: nat, w: Width, temp: array<nat>, p: nat) returns (status: Status)
      requires p + w.Per() <= temp.Length && temp != dwords
      modifies temp
      ensures status == if Answers(j) then Success else DeviceError
      ensures status != Success ==> temp[..] == old(temp[..])
      ensures status == Success ==> temp[..] == old(temp[..p]) + Units(dwords[j], w) + old(temp[p + w.Per()..])
    {
      var d;
      status, d := ReadCnfg(j);
      if status == Success {
        var u := Units(d, w);
        forall k | 0 <= k < |u| {
          temp[p + k] := u[k];
        }
        assert temp[..p] == old(temp[..p]) && temp[p..p + w.Per()] == u && temp[p + w.Per()..] == old(temp[p + w.Per()..]);
        assert temp[..] == temp[..p] + temp[p..p + w.Per()] + temp[p + w.Per()..];
      }
    }

    static lemma {:induction false} OneMore(blocks: seq<seq<nat>>, first: nat, i: nat)
      requires first + i < |blocks|
      ensures Flat(blocks[first..first + i + 1]) == Flat(blocks[first..first + i]) + blocks[first + i]
    {
      var a, b := blocks[first..first + i], [blocks[first + i]];
      assert blocks[first..first + i + 1] == a + b;
      FlatAppend(a, b);
      assert Flat(b[1..]) == [];
    }

    static lemma {:induction false} Shift(done: seq<nat>, was: seq<nat>, u: seq<nat>, now: seq<nat>)
      requires |done| + |u| <= |was|
      requires now == (done + was[|done|..])[..|done|] + u + (done + was[|done|..])[|done| + |u|..]
      ensures now == (done + u) + was[|done + u|..]
    {
    }

    /** The buffer once the first `i` registers of a stretch are in it. */
    ghost function Loaded(s: Span, w: Width, i: nat, was: seq<nat>): (r: seq<nat>)
      reads dwords
      requires w.Times(i) <= |was|
    {
      if s.first + i <= dwords.Length then Flat(Blocks(dwords[..], w)[s.first..s.first + i]) + was[w.Times(i)..] else was
    }

    lemma {:induction false} LoadOne(s: Span, w: Width, i: nat, was: seq<nat>, next: seq<nat>)
      requires s.first + i < dwords.Length && w.Times(i + 1) <= |was| && |Loaded(s, w, i, was)| == |was|
      requires next == Loaded(s, w, i, was)[..w.Times(i)] + Units(dwords[s.first + i], w) + Loaded(s, w, i, was)[w.Times(i + 1)..]
      ensures next == Loaded(s, w, i + 1, was)
    {
      var blocks := Blocks(dwords[..], w);
      OneMore(blocks, s.first, i);
      FlatLength(blocks[s.first..s.first + i], w);
      Shift(Flat(blocks[s.first..s.first + i]), was, blocks[s.first + i], next);
    }

    lemma {:induction false} NoneLoaded(s: Span, w: Width, was: seq<nat>)
      ensures Loaded(s, w, 0, was) == was
    {
      if s.first <= dwords.Length {
        assert Blocks(dwords[..], w)[s.first..s.first] == [];
      }
    }

    lemma {:induction false} LoadedLength(s: Span, w: Width, i: nat, was: seq<nat>)
      requires w.Times(i) <= |was|
      ensures |Loaded(s, w, i, was)| == |was|
    {
      if s.first + i <= dwords.Length {
        FlatLength(Blocks(dwords[..], w)[s.first..s.first + i], w);
      }
    }

    method FetchNext(s: Span, w: Width, i: nat, temp: array<nat>, ghost was: seq<nat>) returns (status: Status)
      requires temp != dwords && |was| == temp.Length && w.Times(i + 1) <= temp.Length && temp[..] == Loaded(s, w, i, was)
      modifies temp
      ensures status == if Answers(s.first + i) then Success else DeviceError
      ensures status == Success ==> temp[..] == Loaded(s, w, i + 1, was)
    {
      LoadedLength(s, w, i, was);
      status := FetchOne(s.first + i, w, temp, w.Times(i));
      if status == Success {
        LoadOne(s, w, i, was, temp[..]);
      }
    }

    /** Reads `s.count` registers into the buffer, one after the other. */
    method Fetch(s: Span, w: Width, temp: array<nat>) returns (status: Status)
      requires w.Times(s.count) <= temp.Length && temp != dwords
      modifies temp
      ensures status == if AllAnswer(s) then Success else DeviceError
      ensures status == Success ==> temp[..] == Loaded(s, w, s.count, old(temp[..]))
    {
      ghost var was := temp[..];
      NoneLoaded(s, w, was);
      status := Success;
      var i := 0;
      while i < s.count
        invariant 0 <= i <= s.count && status == Success
        invariant AllAnswer(Span(s.first, s.rest, i))
        invariant temp[..] == Loaded(s, w, i, was)
      {
        status := FetchNext(s, w, i, temp, was);
        if status != Success {
          return;
        }
        i := i + 1;
      }
    }

    /** The registers cut from a row of units. */
    static function Registers(u: seq<nat>, w: Width, n: nat): (r: seq<nat>)
      requires |u| >= w.Times(n)
      ensures |r| == n
    {
      seq(n, j requires 0 <= j < n => Register(u[w.Times(j)..w.Times(j) + w.Per()], w))
    }

    static lemma {:induction false} ChopAt(u: seq<nat>, w: Width, n: nat, j: nat)
      requires |u| >= w.Times(n) && j < n
      ensures Chop(u, w, n)[j] == u[w.Times(j)..w.Times(j) + w.Per()]
      decreases n
    {
      var p := w.Per();
      assert Chop(u, w, n) == [u[..p]] + Chop(u[p..], w, n - 1);
      if j > 0 {
        ChopAt(u[p..], w, n - 1, j - 1);
        assert w.Times(j) == p + w.Times(j - 1);
        assert u[p..][w.Times(j - 1)..w.Times(j - 1) + p] == u[w.Times(j)..w.Times(j) + p];
      }
    }

    static lemma {:induction false} BlockOfRegister(u: seq<nat>, w: Width, n: nat, j: nat)
      requires |u| >= w.Times(n) && AllUnits(u[..w.Times(n)], w) && j < n
      ensures Units(Registers(u, w, n)[j], w) == u[w.Times(j)..w.Times(j) + w.Per()]
    {
      var part := u[w.Times(j)..w.Times(j) + w.Per()];
      forall k | 0 <= k < |part| ensures part[k] < w.Radix() {
        assert part[k] == u[..w.Times(n)][w.Times(j) + k];
      }
      UnitsOfRegister(part, w);
    }

    /** Registers put together from units split into those units again. */
    static lemma {:induction false} BlocksOfRegisters(u: seq<nat>, w: Width, n: nat)
      requires |u| >= w.Times(n) && AllUnits(u[..w.Times(n)], w)
      ensures Blocks(Registers(u, w, n), w) == Chop(u, w, n)
    {
      forall j: nat | j < n ensures Blocks(Registers(u, w, n), w)[j] == Chop(u, w, n)[j] {
        ChopAt(u, w, n, j);
        BlockOfRegister(u, w, n, j);
      }
    }

    static lemma {:induction false} PutAt(a: seq<nat>, r: seq<nat>, z: seq<nat>, d: nat)
      requires z != []
      ensures (a + r + z)[|a| + |r| := d] == a + (r + [d]) + z[1..]
    {
    }

    /** The first `i` registers of a stretch have been written. */
    ghost predicate Stored(s: Span, w: Width, i: nat, temp: seq<nat>, was: seq<nat>)
      reads dwords
    {
      && s.first + i <= |was| == dwords.Length && w.Times(i) <= |temp|
      && dwords[..] == was[..s.first] + Registers(temp, w, i) + was[s.first + i..]
    }

    method StoreNext(s: Span, w: Width, i: nat, temp: array<nat>, ghost was: seq<nat>) returns (status: Status)
      requires temp != dwords && w.Times(i + 1) <= temp.Length && Stored(s, w, i, temp[..], was)
      requires s.first + i < dwords.Length && Answers(s.first + i)
      modifies dwords
      ensures status == Success && Stored(s, w, i + 1, temp[..], was)
    {
      var d := Register(temp[w.Times(i)..w.Times(i) + w.Per()], w);
      ghost var regs := Registers(temp[..], w, i);
      PutAt(was[..s.first], regs, was[s.first + i..], d);
      assert temp[w.Times(i)..w.Times(i) + w.Per()] == temp[..][w.Times(i)..w.Times(i) + w.Per()];
      assert Registers(temp[..], w, i + 1) == regs + [d];
      status := WriteCnfg(s.first + i, d);
    }

    /** Writes `s.count` registers from the buffer. */
    method Store(s: Span, w: Width, temp: array<nat>) returns (status: Status)
      requires w.Times(s.count) <= temp.Length && temp != dwords && AllAnswer(s) && s.first + s.count <= dwords.Length
      modifies dwords
      ensures status == Success && Stored(s, w, s.count, temp[..], old(dwords[..]))
    {
      ghost var was := dwords[..];
      assert was == was[..s.first] + [] + was[s.first..];
      status := Success;
      var i := 0;
      while i < s.count
        invariant 0 <= i <= s.count && status == Success && Stored(s, w, i, temp[..], was)
      {
        status := StoreNext(s, w, i, temp, was);
        i := i + 1;
      }
    }

    // -------------------------------------------------------------- the accessors

    /** The buffer `temp` is a local of the call: 256 bytes. */
    ghost predicate Usable(w: Width, temp: array<nat>, buf: array<nat>, cnt: nat) {
      temp.Length == w.Times(64) && temp != dwords && buf != dwords && buf != temp && buf.Length >= cnt
    }

    static lemma {:induction false} SpanInBuffer(o: nat, cnt: nat, w: Width)
      requires cnt <= w.Times(64)
      ensures w.Times(SpanOf(o, cnt, w).count) <= w.Times(64)
    {
    }

    lemma {:induction false} LoadedIsFetched(o: nat, cnt: nat, w: Width, was: seq<nat>)
      requires cnt > 0 && AllAnswer(SpanOf(o, cnt, w)) && w.Times(SpanOf(o, cnt, w).count) <= |was|
      ensures InSpace(Blocks(dwords[..], w), o, cnt, w)
      ensures Loaded(SpanOf(o, cnt, w), w, SpanOf(o, cnt, w).count, was)
           == Fetched(Blocks(dwords[..], w), o, cnt, w) + was[w.Times(SpanOf(o, cnt, w).count)..]
    {
      var s := SpanOf(o, cnt, w);
      assert Answers(s.first + s.count - 1);
    }

    /** The buffer of the caller after a read; `was` is the local buffer before it. */
    ghost predicate GaveBack(offset: nat, cnt: nat, w: Width, was: seq<nat>, before: seq<nat>, after: seq<nat>)
      reads dwords
    {
      var o, space := UnitOf(offset, w), Blocks(dwords[..], w);
      var n := w.Times(SpanOf(o, cnt, w).count);
      && InSpace(space, o, cnt, w) && |was| >= n && Inside(o, cnt, w, was[n..]) && |before| >= cnt
      && after == ReadBack(space, o, cnt, w, was[n..]) + before[cnt..]
    }

    /** `memcpy` */
    static method Copy(to: array<nat>, i: nat, from: array<nat>, k: nat, n: nat)
      requires to != from && i + n <= to.Length && k + n <= from.Length
      modifies to
      ensures to[..] == old(to[..i]) + from[k..k + n] + old(to[i + n..])
    {
      forall j | 0 <= j < n {
        to[i + j] := from[k + j];
      }
      assert to[i..i + n] == from[k..k + n];
      assert to[..] == to[..i] + to[i..i + n] + to[i + n..];
    }

    lemma {:induction false} FetchedGiven(offset: nat, cnt: nat, w: Width, was: seq<nat>, before: seq<nat>,
            now: seq<nat>)
      requires cnt > 0 && AllAnswer(SpanOf(UnitOf(offset, w), cnt, w)) && cnt <= w.Times(64)
      requires |was| == |now| == w.Times(64) && |before| >= cnt && SpanOf(UnitOf(offset, w), cnt, w).rest + cnt <= w.Times(64)
      requires var s := SpanOf(UnitOf(offset, w), cnt, w); w.Times(s.count) <= |was| && now == Loaded(s, w, s.count, was)
      ensures var r := SpanOf(UnitOf(offset, w), cnt, w).rest;
              r + cnt <= |now| && GaveBack(offset, cnt, w, was, before, now[r..r + cnt] + before[cnt..])
    {
      SpanInBuffer(UnitOf(offset, w), cnt, w);
      LoadedIsFetched(UnitOf(offset, w), cnt, w, was);
    }

    /** The registers are in the buffer: the units asked for are copied out. */
    method CopyOut(offset: nat, cnt: nat, w: Width, temp: array<nat>, buf: array<nat>, ghost was: seq<nat>)
      requires Usable(w, temp, buf, cnt) && cnt <= w.Times(64) && SpanOf(UnitOf(offset, w), cnt, w).rest + cnt <= temp.Length
      requires cnt > 0 ==>
                 && AllAnswer(SpanOf(UnitOf(offset, w), cnt, w)) && |was| == temp.Length
                 && w.Times(SpanOf(UnitOf(offset, w), cnt, w).count) <= |was|
                 && temp[..] == Loaded(SpanOf(UnitOf(offset, w), cnt, w), w, SpanOf(UnitOf(offset, w), cnt, w).count, was)
      modifies buf
      ensures cnt == 0 ==> buf[..] == old(buf[..])
      ensures cnt > 0 ==> GaveBack(offset, cnt, w, was, old(buf[..]), buf[..])
    {
      var rest := SpanOf(UnitOf(offset, w), cnt, w).rest;
      if cnt > 0 {
        FetchedGiven(offset, cnt, w, was, buf[..], temp[..]);
      }
      assert temp[..][rest..rest + cnt] == temp[rest..rest + cnt];
      Copy(buf, 0, temp, rest, cnt);
    }

    /** A read once the checks have passed; it stops before a copy that would run past the buffer. */
    method ReadUnits(offset: nat, cnt: nat, w: Width, temp: array<nat>, buf: array<nat>) returns (status: Status,
            overrun: bool)
      requires Usable(w, temp, buf, cnt) && cnt <= w.Times(64)
      modifies temp, buf
      ensures status == if AllAnswer(SpanOf(UnitOf(offset, w), cnt, w)) then Success else DeviceError
      ensures overrun <==> status == Success && SpanOf(UnitOf(offset, w), cnt, w).rest + cnt > w.Times(64)
      ensures status != Success || cnt == 0 ==> buf[..] == old(buf[..])
      ensures status == Success && cnt > 0 && !overrun ==> GaveBack(offset, cnt, w, old(temp[..]), old(buf[..]), buf[..])
    {
      ghost var was := temp[..];
      var s := SpanOf(UnitOf(offset, w), cnt, w);
      SpanInBuffer(UnitOf(offset, w), cnt, w);
      status := Fetch(s, w, temp);
      overrun := status == Success && s.rest + cnt > temp.Length;
      if status == Success && !overrun {
        CopyOut(offset, cnt, w, temp, buf, was);
      }
    }

    /** `PCI_read_config8` and `PCI_read_config16` */
    method ReadConfig(offset: nat, cnt: Count, w: Width, temp: array<nat>, buf: array<nat>) returns (status: Status,
            overrun: bool)
      requires Usable(w, temp, buf, cnt)
      modifies temp, buf
      ensures status == Outcome(offset, cnt, w) && (overrun <==> Overruns(offset, cnt, w))
      ensures status != Success || cnt == 0 ==> buf[..] == old(buf[..])
      ensures status == Success && cnt > 0 && !overrun ==> GaveBack(offset, cnt, w, old(temp[..]), old(buf[..]), buf[..])
    {
      status, overrun := Checks(offset, cnt, w), false;
      if status == Success {
        status, overrun := ReadUnits(offset, cnt, w, temp, buf);
      }
    }

    static lemma {:induction false} BlocksAfterStore(space: seq<nat>, first: nat, count: nat, u: seq<nat>, w: Width)
      requires first + count <= |space| && |u| >= w.Times(count) && AllUnits(u[..w.Times(count)], w)
      ensures Blocks(space[..first] + Registers(u, w, count) + space[first + count..], w)
           == Blocks(space, w)[..first] + Chop(u, w, count) + Blocks(space, w)[first + count..]
    {
      BlocksOfRegisters(u, w, count);
      var r := Registers(u, w, count);
      assert Blocks(space[..first] + r + space[first + count..], w)
          == Blocks(space[..first], w) + Blocks(r, w) + Blocks(space[first + count..], w);
      assert Blocks(space[..first], w) == Blocks(space, w)[..first];
      assert Blocks(space[first + count..], w) == Blocks(space, w)[first + count..];
    }

    /** The registers after a write; `was` is the local buffer before it. */
    static ghost predicate Took(offset: nat, data: seq<nat>, w: Width, was: seq<nat>, before: seq<nat>,
            after: seq<nat>) {
      var o, space := UnitOf(offset, w), Blocks(before, w);
      var n := w.Times(SpanOf(o, |data|, w).count);
      && InSpace(space, o, |data|, w) && |was| >= n && Inside(o, |data|, w, was[n..])
      && Blocks(after, w) == WriteBack(space, o, data, w, was[n..])
    }

    /** The registers are in the buffer: the data is put over them and they are written back. */
    method PutOver(offset: nat, cnt: nat, w: Width, temp: array<nat>, buf: array<nat>, ghost was: seq<nat>)
      returns (status: Status)
      requires Usable(w, temp, buf, cnt) && AllUnits(buf[..cnt], w) && AllAnswer(SpanOf(UnitOf(offset, w), cnt, w))
      requires var o := UnitOf(offset, w);
               var s, space := SpanOf(o, cnt, w), Blocks(dwords[..], w);
               && InSpace(space, o, cnt, w) && |was| >= w.Times(s.count) && s.rest + cnt <= temp.Length
               && temp[..] == Fetched(space, o, cnt, w) + was[w.Times(s.count)..]
      modifies temp, dwords
      ensures status == Success && Took(offset, buf[..cnt], w, was, old(dwords[..]), dwords[..])
    {
      var s := SpanOf(UnitOf(offset, w), cnt, w);
      FetchedTaken(offset, buf[..cnt], w, was, temp[..], dwords[..]);
      ghost var loaded := temp[..];
      Copy(temp, s.rest, buf, 0, cnt);
      assert temp[..] == Splice(loaded, s.rest, buf[..cnt]);
      status := Store(s, w, temp);
    }

    /**
      A write once the checks have passed: whole registers are read, changed and written back.  It stops
      before a copy that would run past the buffer.
    */
    method WriteUnits(offset: nat, cnt: nat, w: Width, temp: array<nat>, buf: array<nat>) returns (status: Status,
            overrun: bool)
      requires Usable(w, temp, buf, cnt) && cnt <= w.Times(64) && AllUnits(buf[..cnt], w)
      modifies temp, dwords
      ensures status == if AllAnswer(SpanOf(UnitOf(offset, w), cnt, w)) then Success else DeviceError
      ensures overrun <==> status == Success && SpanOf(UnitOf(offset, w), cnt, w).rest + cnt > w.Times(64)
      ensures status != Success || cnt == 0 ==> dwords[..] == old(dwords[..])
      ensures status == Success && cnt > 0 && !overrun ==> Took(offset, buf[..cnt], w, old(temp[..]), old(dwords[..]), dwords[..])
    {
      ghost var was := temp[..];
      var s := SpanOf(UnitOf(offset, w), cnt, w);
      SpanInBuffer(UnitOf(offset, w), cnt, w);
      status := Fetch(s, w, temp);
      overrun := status == Success && s.rest + cnt > temp.Length;
      if status == Success && cnt > 0 && !overrun {
        LoadedIsFetched(UnitOf(offset, w), cnt, w, was);
        status := PutOver(offset, cnt, w, temp, buf, was);
      }
    }

    static lemma {:induction false} FetchedTaken(offset: nat, data: seq<nat>, w: Width, was: seq<nat>, now: seq<nat>,
            before: seq<nat>)
      requires var o := UnitOf(offset, w);
               var s, space := SpanOf(o, |data|, w), Blocks(before, w);
               && InSpace(space, o, |data|, w) && |was| >= w.Times(s.count) && s.rest + |data| <= |now|
               && now == Fetched(space, o, |data|, w) + was[w.Times(s.count)..]
      requires AllUnits(data, w)
      ensures var s := SpanOf(UnitOf(offset, w), |data|, w);
              && w.Times(s.count) <= |now|
              && Took(offset, data, w, was, before,
                      before[..s.first] + Registers(Splice(now, s.rest, data), w, s.count) + before[s.first + s.count..])
    {
      var o := UnitOf(offset, w);
      var s, space := SpanOf(o, |data|, w), Blocks(before, w);
      FetchedLength(space, o, |data|, w);
      var u := Splice(now, s.rest, data);
      assert AllUnits(u[..w.Times(s.count)], w) by {
        FetchedUnits(space, s, w);
        SplicedUnits(Fetched(space, o, |data|, w), was[w.Times(s.count)..], s.rest, data, w);
      }
      BlocksAfterStore(before, s.first, s.count, u, w);
    }

    static lemma {:induction false} SplicedUnits(u: seq<nat>, tail: seq<nat>, r: nat, data: seq<nat>, w: Width)
      requires r + |data| <= |u + tail| && AllUnits(u, w) && AllUnits(data, w)
      ensures AllUnits(Splice(u + tail, r, data)[..|u|], w)
    {
    }

    static lemma {:induction false} FetchedUnits(space: seq<seq<nat>>, s: Span, w: Width)
      requires s.first + s.count <= |space| && forall j :: 0 <= j < |space| ==> AllUnits(space[j], w)
      ensures AllUnits(Flat(space[s.first..s.first + s.count]), w)
    {
      FlatUnits(space[s.first..s.first + s.count], w);
    }

    static lemma {:induction false} FlatUnits(blocks: seq<seq<nat>>, w: Width)
      requires forall j :: 0 <= j < |blocks| ==> AllUnits(blocks[j], w)
      ensures AllUnits(Flat(blocks), w)
    {
      if blocks != [] {
        FlatUnits(blocks[1..], w);
      }
    }

    /** `PCI_write_config8` and `PCI_write_config16` */
    method WriteConfig(offset: nat, cnt: Count, w: Width, temp: array<nat>, buf: array<nat>) returns (status: Status,
            overrun: bool)
      requires Usable(w, temp, buf, cnt) && AllUnits(buf[..cnt], w)
      modifies temp, dwords
      ensures status == Outcome(offset, cnt, w) && (overrun <==> Overruns(offset, cnt, w))
      ensures status != Success || cnt == 0 ==> dwords[..] == old(dwords[..])
      ensures status == Success && cnt > 0 && !overrun ==> Took(offset, buf[..cnt], w, old(temp[..]), old(dwords[..]), dwords[..])
    {
      status, overrun := Checks(offset, cnt, w), false;
      if status == Success {
        status, overrun := WriteUnits(offset, cnt, w, temp, buf);
      }
    }

    /**
      When a call that passes the checks runs past the buffer: byte calls whose offset in the register
      and count exceed 256, word calls for 128 words from the middle of a register.
    */
    lemma {:induction false} OverrunIff(offset: nat, cnt: Count, w: Width)
      ensures Overruns(offset, cnt, w) <==>
              && Outcome(offset, cnt, w) == Success
              && (if w.Byte? then offset % 4 + cnt > 256 else offset % 4 == 2 && cnt == 128)
    {
      if w.Word? {
        HalfOffset(offset);
      }
    }

    static lemma {:induction false} HalfOffset(offset: nat)
      ensures offset % 2 == 0 ==> (offset / 2 % 2 == 1 <==> offset % 4 == 2)
    {
    }

    /** A stretch that fits the registers fetched never does. */
    lemma {:induction false} FittingNeverOverruns(offset: nat, cnt: Count, w: Width)
      requires Fits(UnitOf(offset, w), cnt, w)
      ensures !Overruns(offset, cnt, w)
    {
      if cnt <= w.Times(64) {
        SpanInBuffer(UnitOf(offset, w), cnt, w);
      }
    }

    /** 256 bytes from offset 1 pass every check. */
    lemma {:induction false} OverrunHappens()
      requires forall j :: 0 <= j < 64 ==> Answers(j)
      ensures Overruns(1, 256, Byte) && Overruns(2, 128, Word)
    {
    }

    /** What a successful byte or word read gives the caller: the addressed units, when they fit. */
    lemma {:induction false} ReadGivesUnits(offset: nat, cnt: nat, w: Width, was: seq<nat>, before: seq<nat>,
            after: seq<nat>)
      requires GaveBack(offset, cnt, w, was, before, after) && Fits(UnitOf(offset, w), cnt, w)
      ensures var o, flat := UnitOf(offset, w), Flat(Blocks(dwords[..], w));
              o + cnt <= |flat| && after == flat[o..o + cnt] + before[cnt..]
    {
      ReadIsExact(Blocks(dwords[..], w), UnitOf(offset, w), cnt, w, was[w.Times(SpanOf(UnitOf(offset, w), cnt, w).count)..]);
    }

    /** What a successful byte or word write does: it changes the addressed units and no other, when they fit. */
    static lemma {:induction false} WriteChangesUnits(offset: nat, data: seq<nat>, w: Width, was: seq<nat>,
            before: seq<nat>, after: seq<nat>)
      requires Took(offset, data, w, was, before, after) && Fits(UnitOf(offset, w), |data|, w)
      ensures var o, flat := UnitOf(offset, w), Flat(Blocks(before, w));
              o + |data| <= |flat| && Flat(Blocks(after, w)) == Splice(flat, o, data)
    {
      WriteIsExact(Blocks(before, w), UnitOf(offset, w), data, w, was[w.Times(SpanOf(UnitOf(offset, w), |data|, w).count)..]);
    }

    // -------------------------------------------------------------- whole registers

    /** How many of the registers from `j` on answer, up to `n`. */
    function AnswerRun(j: nat, n: nat): (r: nat)
      ensures r <= n && (r > 0 ==> j + r <= dwords.Length) && (r < n ==> !Answers(j + r))
      ensures forall k :: j <= k < j + r ==> Answers(k)
      decreases n
    {
      if n == 0 || !Answers(j) then 0 else 1 + AnswerRun(j + 1, n - 1)
    }

    lemma {:induction false} RunReaches(j: nat, n: nat, i: nat)
      requires i <= n && forall k :: j <= k < j + i ==> Answers(k)
      ensures AnswerRun(j, n) >= i && (i < n && !Answers(j + i) ==> AnswerRun(j, n) == i)
      decreases i
    {
      if i > 0 {
        RunReaches(j + 1, n - 1, i - 1);
      }
    }

    function Checks32(offset: nat, n: nat): (r: Status) {
      if offset % 4 != 0 then BadRegister
      else if offset >= 0x100 then PciexCheck(offset, n)
      else Success
    }

    /** `PCI_read_config32`: at most 64 registers, whatever the caller asked for. */
    method ReadConfig32(offset: nat, cnt: nat, buf: array<nat>) returns (status: Status)
      requires buf.Length >= cnt && buf != dwords
      modifies buf
      ensures var n := if cnt > 64 then 64 else cnt;
              var k := if Checks32(offset, n) == Success then AnswerRun(offset / 4, n) else 0;
              && (status == Success <==> Checks32(offset, n) == Success && k == n)
              && (k > 0 ==> buf[..k] == dwords[offset / 4..offset / 4 + k])
              && buf[k..] == old(buf[k..])
    {
      var n := if cnt > 64 then 64 else cnt;
      status := Checks32(offset, n);
      var i := 0;
      while i < n && status == Success
        invariant 0 <= i <= n && (status == Success ==> Checks32(offset, n) == Success)
        invariant forall k :: offset / 4 <= k < offset / 4 + i ==> Answers(k)
        invariant i > 0 ==> offset / 4 + i <= dwords.Length && buf[..i] == dwords[offset / 4..offset / 4 + i]
        invariant buf[i..] == old(buf[i..])
        invariant status != Success ==> if Checks32(offset, n) != Success then i == 0 else i < n && !Answers(offset / 4 + i)
        decreases n - i, status == Success
      {
        var d;
        status, d := ReadCnfg(offset / 4 + i);
        if status == Success {
          buf[i] := d;
          i := i + 1;
        }
      }
      RunReaches(offset / 4, n, i);
    }

    /** `PCI_write_config32` */
    method WriteConfig32(offset: nat, cnt: nat, buf: array<nat>) returns (status: Status)
      requires buf.Length >= cnt && buf != dwords
      modifies dwords
      ensures var k := if Checks32(offset, cnt) == Success then AnswerRun(offset / 4, cnt) else 0;
              && (status == Success <==> Checks32(offset, cnt) == Success && k == cnt)
              && dwords[..] == if k == 0 then old(dwords[..])
                               else old(dwords[..offset / 4]) + buf[..k] + old(dwords[offset / 4 + k..])
    {
      ghost var was := dwords[..];
      status := Checks32(offset, cnt);
      var i := 0;
      while i < cnt && status == Success
        invariant 0 <= i <= cnt && (status == Success ==> Checks32(offset, cnt) == Success)
        invariant forall k :: offset / 4 <= k < offset / 4 + i ==> Answers(k)
        invariant i == 0 ==> dwords[..] == was
        invariant i > 0 ==> offset / 4 + i <= dwords.Length && dwords[..] == was[..offset / 4] + buf[..i] + was[offset / 4 + i..]
        invariant status != Success ==> if Checks32(offset, cnt) != Success then i == 0 else i < cnt && !Answers(offset / 4 + i)
        decreases cnt - i, status == Success
      {
        status := WriteCnfg(offset / 4 + i, buf[i]);
        if status == Success {
          i := i + 1;
        }
      }
      RunReaches(offset / 4, cnt, i);
    }
  }
}
