/**
  The resource database and the two functions that take chunks from it and give them back.

  The database is a separate program, so it is described by its contract only: a policy picks a
  start for a request, and whatever it picks is aligned, inside the requested range, and clear of
  the live chunks of the same named pool.  Names are unique per pool (see `BusNames`).
*/
module Resources {
  import opened Bits
  import opened Common
  import opened Sorting
  import opened Registers

  /** What a resource name stands for. */
  datatype Pool = Pool(io: bool, bus: nat, prefetch: bool)

  datatype Chunk = Chunk(pool: Pool, start: nat, length: nat)

  /** `rsrc_request_t`; `range` is absent when RSRCDBMGR_FLAG_RANGE is not set. */
  datatype Request = Request(pool: Pool, length: nat, align: nat, range: Option<Page>)

  predicate Within(range: Option<Page>, start: nat, length: nat) {
    range.Some? ==> range.value.start <= start && start + length <= range.value.end + 1
  }

  predicate Apart(c: Chunk, d: Chunk) {
    c.pool == d.pool ==> c.start + c.length <= d.start || d.start + d.length <= c.start
  }

  /** Live chunks of one pool do not overlap. */
  ghost predicate AllApart(live: set<Chunk>) {
    forall c, d :: c in live && d in live && c != d ==> Apart(c, d)
  }

  /** What the database promises about a start it grants. */
  predicate Grantable(live: set<Chunk>, req: Request, start: nat) {
    && req.align > 0 && start % req.align == 0
    && Within(req.range, start, req.length)
    && forall c :: c in live ==> Apart(c, Chunk(req.pool, start, req.length))
  }

  type Policy = (Request, set<Chunk>) -> Option<nat>

  ghost predicate Sound(policy: Policy) {
    forall req, live ::
      policy(req, live).Some? ==> Grantable(live, req, policy(req, live).value)
  }

  /** The windows a bridge passes to its bus. */
  datatype Windows = Windows(io: Page, mem: Page, pref: Page)

  /** What the server knows of the machine; `windows` holds the buses that `find_bus` finds. */
  datatype Host = Host(pages: seq<Page>, ioLow: nat, ioHigh: nat, windows: map<nat, Windows>)

  /** `FellThrough`: bus 0, every page refused, and yet the call returns PCI_SUCCESS. */
  datatype Answer = Refused | FellThrough(start: nat) | Granted(start: nat)

  function Length(size: nat): (r: nat) { if size < 256 then 256 else size }

  function PoolOf(a: Area, bus: nat): (r: Pool) { Pool(a == IoArea, bus, a == PrefArea) }

  predicate Reaches(host: Host, bus: nat) { bus == 0 || bus in host.windows }

  /** An empty window: no range on a bus behind a bridge, an impossible one on bus 0. */
  function MemRange(host: Host, a: Area, bus: nat, i: nat): (r: Option<Page>)
    requires Reaches(host, bus) && i < |host.pages|
  {
    if bus != 0 then
      var w := if a == PrefArea then host.windows[bus].pref else host.windows[bus].mem;
      if w.start == w.end then None else Some(w)
    else Some(if host.pages[i].start == host.pages[i].end then Page(0, 0) else host.pages[i])
  }

  function MemRequest(host: Host, a: Area, size: nat, align: nat, bus: nat, i: nat): (r: Request)
    requires Reaches(host, bus) && i < |host.pages|
  {
    Request(PoolOf(a, bus), Length(size), if align != 0 then align else Length(size), MemRange(host, a, bus, i))
  }

  /** An empty window means all the ports of the machine. */
  function IoRange(host: Host, bus: nat): (r: Page)
    requires Reaches(host, bus)
  {
    var w := if bus != 0 then host.windows[bus].io else Page(0, 0);
    if w.start == w.end then Page(host.ioLow, host.ioHigh) else w
  }

  function IoRequest(host: Host, size: nat, align: nat, bus: nat): (r: Request)
    requires Reaches(host, bus)
  {
    Request(PoolOf(IoArea, bus), Length(size), if align != 0 then align else Length(size), Some(IoRange(host, bus)))
  }

  /** A stretch lies in the window that the bridge passes to its bus, or on bus 0 in a page of the machine. */
  ghost predicate InWindow(host: Host, a: Area, bus: nat, start: nat, length: nat) {
    && Reaches(host, bus)
    && if a == IoArea then Within(Some(IoRange(host, bus)), start, length)
       else exists i: nat {:trigger MemRange(host, a, bus, i)} :: i < |host.pages| && Within(MemRange(host, a, bus, i), start, length)
  }

  /** The pages of bus 0 from page `i` on. */
  function TryPages(host: Host, policy: Policy, live: set<Chunk>, a: Area, size: nat, align: nat, bus: nat,
          i: nat): (r: Answer)
    requires Reaches(host, bus) && i <= |host.pages|
    decreases |host.pages| - i
  {
    if i == |host.pages| then
      FellThrough(if i == 0 || host.pages[i - 1].start == host.pages[i - 1].end then 0 else host.pages[i - 1].start)
    else match policy(MemRequest(host, a, size, align, bus, i), live)
      case Some(start) => Granted(start)
      case None => if bus != 0 then Refused else TryPages(host, policy, live, a, size, align, bus, i + 1)
  }

  /** `pci_alloc_resource`, for a register that carries no flag bits. */
  function Alloc(host: Host, policy: Policy, live: set<Chunk>, a: Area, size: nat, align: nat, bus: nat): (r: Answer) {
    if !Reaches(host, bus) then Refused
    else if a == IoArea then
      match policy(IoRequest(host, size, align, bus), live)
      case Some(start) => Granted(start)
      case None => Refused
    else TryPages(host, policy, live, a, size, align, bus, 0)
  }

  /** The addresses below this are flag bits. */
  function Step(a: Area): (r: nat) { if a == IoArea then 4 else 16 }

  /** The chunk that `pci_free_resource` hands back: pool, start and length are all recomputed. */
  function ChunkAt(a: Area, bus: nat, address: nat, size: nat): (r: Chunk) {
    Chunk(PoolOf(a, bus), address - address % Step(a), Length(size))
  }

  lemma {:induction false} PagesGrant(host: Host, policy: Policy, live: set<Chunk>, a: Area, size: nat, align: nat,
          bus: nat, i: nat)
    requires Sound(policy) && Reaches(host, bus) && i <= |host.pages|
    ensures var r := TryPages(host, policy, live, a, size, align, bus, i);
            r.Granted? ==>
              && r.start % (if align != 0 then align else Length(size)) == 0
              && (exists k: nat {:trigger MemRange(host, a, bus, k)} ::
                    k < |host.pages| && Within(MemRange(host, a, bus, k), r.start, Length(size)))
              && forall c :: c in live ==> Apart(c, Chunk(PoolOf(a, bus), r.start, Length(size)))
    decreases |host.pages| - i
  {
    if i < |host.pages| {
      var req := MemRequest(host, a, size, align, bus, i);
      if policy(req, live).Some? {
        assert Grantable(live, req, policy(req, live).value) && req.range == MemRange(host, a, bus, i);
      } else if bus == 0 {
        PagesGrant(host, policy, live, a, size, align, bus, i + 1);
      }
    }
  }

  /** A granted chunk is aligned, in the window of its bus, and clear of everything live in its pool. */
  lemma {:induction false} AllocGrants(host: Host, policy: Policy, live: set<Chunk>, a: Area, size: nat, align: nat,
          bus: nat)
    requires Sound(policy)
    ensures var r := Alloc(host, policy, live, a, size, align, bus);
            r.Granted? ==>
              && r.start % (if align != 0 then align else Length(size)) == 0
              && InWindow(host, a, bus, r.start, Length(size))
              && forall c :: c in live ==> Apart(c, Chunk(PoolOf(a, bus), r.start, Length(size)))
  {
    if Reaches(host, bus) {
      if a == IoArea {
        var req := IoRequest(host, size, align, bus);
        if policy(req, live).Some? {
          assert Grantable(live, req, policy(req, live).value);
        }
      } else {
        PagesGrant(host, policy, live, a, size, align, bus, 0);
      }
    }
  }

  lemma {:induction false} PagesExhausted(host: Host, policy: Policy, live: set<Chunk>, a: Area, size: nat, align: nat,
          i: nat)
    requires i <= |host.pages|
    ensures var r := TryPages(host, policy, live, a, size, align, 0, i);
            && !r.Refused?
            && (r.FellThrough? <==> forall k :: i <= k < |host.pages| ==> policy(MemRequest(host, a, size, align, 0, k), live).None?)
    decreases |host.pages| - i
  {
    if i < |host.pages| {
      PagesExhausted(host, policy, live, a, size, align, i + 1);
    }
  }

  /**
    Memory requests on bus 0 are never refused: when every page of the machine has refused, the call
    succeeds without holding a chunk.
  */
  lemma {:induction false} ExhaustionIsSilent(host: Host, policy: Policy, live: set<Chunk>, a: Area, size: nat,
          align: nat)
    requires a != IoArea
    ensures var r := Alloc(host, policy, live, a, size, align, 0);
            && !r.Refused?
            && (r.FellThrough? <==> forall k :: 0 <= k < |host.pages| ==> policy(MemRequest(host, a, size, align, 0, k), live).None?)
  {
    PagesExhausted(host, policy, live, a, size, align, 0);
  }

  /** Flag bits are merged into the low bits of a start and taken out again. */
  lemma {:induction false} FlagsComeOff(a: Area, start: nat, flags: nat)
    requires flags < Step(a) && start % Step(a) == 0
    ensures var x := Or(flags, start); x - x % Step(a) == start
  {
    assert Pow2(2) == 4 && Pow2(4) == 4 * Pow2(2);
    OrIsSum(flags, start, if a == IoArea then 2 else 4);
    ModUnique(flags + start, Step(a), start / Step(a), flags);
  }

  /**
    What is freed is what was granted: the chunk recomputed from the register, flag bits and all, is the
    one taken from the database, provided it was asked for at a multiple of the flag bits.
  */
  lemma {:induction false} FreedIsGranted(host: Host, policy: Policy, live: set<Chunk>, a: Area, size: nat, align: nat,
          bus: nat, flags: nat)
    requires Sound(policy) && flags < Step(a) && (if align != 0 then align else Length(size)) % Step(a) == 0
    requires Alloc(host, policy, live, a, size, align, bus).Granted?
    ensures var start := Alloc(host, policy, live, a, size, align, bus).start;
            && ChunkAt(a, bus, Or(flags, start), size) == Chunk(PoolOf(a, bus), start, Length(size))
            && live + {Chunk(PoolOf(a, bus), start, Length(size))} - {ChunkAt(a, bus, Or(flags, start), size)} == live
  {
    var start := Alloc(host, policy, live, a, size, align, bus).start;
    AllocGrants(host, policy, live, a, size, align, bus);
    DividesTransitive(start, if align != 0 then align else Length(size), Step(a));
    FlagsComeOff(a, start, flags);
    var c := Chunk(PoolOf(a, bus), start, Length(size));
    assert c in live ==> Apart(c, c);
  }

  lemma {:induction false} GrantKeepsApart(live: set<Chunk>, c: Chunk)
    requires AllApart(live) && forall d :: d in live ==> Apart(d, c)
    ensures AllApart(live + {c})
  {
  }

  /** The database as an object. */
  class ResourceDb {
    const policy: Policy
    var live: set<Chunk>

    ghost predicate Valid()
      reads this
    {
      Sound(policy) && AllApart(live)
    }

    constructor (policy: Policy)
      requires Sound(policy)
      ensures Valid() && this.policy == policy && live == {}
    {
      this.policy := policy;
      live := {};
    }

    /** `rsrcdbmgr_attach` */
    method Attach(req: Request) returns (start: Option<nat>)
      requires Valid()
      modifies this
      ensures Valid() && start == policy(req, old(live))
      ensures live == if start.Some? then old(live) + {Chunk(req.pool, start.value, req.length)} else old(live)
      ensures start.Some? ==> Grantable(old(live), req, start.value)
    {
      start := policy(req, live);
      if start.Some? {
        assert Grantable(live, req, start.value);
        GrantKeepsApart(live, Chunk(req.pool, start.value, req.length));
        live := live + {Chunk(req.pool, start.value, req.length)};
      }
    }

    /** `rsrcdbmgr_detach` of a whole chunk */
    method Detach(chunk: Chunk) returns (ok: bool)
      requires Valid()
      modifies this
      ensures Valid() && ok == (chunk in old(live)) && live == old(live) - {chunk}
    {
      ok := chunk in live;
      live := live - {chunk};
    }

    method AllocResource(host: Host, a: Area, size: nat, align: nat, bus: nat) returns (answer: Answer)
      requires Valid()
      modifies this
      ensures Valid() && answer == Alloc(host, policy, old(live), a, size, align, bus)
      ensures live == if answer.Granted? then old(live) + {Chunk(PoolOf(a, bus), answer.start, Length(size))} else old(live)
    {
      if bus != 0 && bus !in host.windows {
        return Refused;
      }
      var start: Option<nat>;
      if a == IoArea {
        start := Attach(IoRequest(host, size, align, bus));
        return if start.Some? then Granted(start.value) else Refused;
      }
      var i, last := 0, 0;
      while i < |host.pages|
        invariant 0 <= i <= |host.pages| && live == old(live) && Valid()
        invariant Alloc(host, policy, live, a, size, align, bus) == TryPages(host, policy, live, a, size, align, bus, i)
        invariant last == if i == 0 || host.pages[i - 1].start == host.pages[i - 1].end then 0 else host.pages[i - 1].start
      {
        last := if host.pages[i].start == host.pages[i].end then 0 else host.pages[i].start;
        start := Attach(MemRequest(host, a, size, align, bus, i));
        if start.Some? {
          return Granted(start.value);
        }
        if bus != 0 {
          return Refused;
        }
        i := i + 1;
      }
      answer := FellThrough(last);
    }

    method FreeResource(host: Host, a: Area, address: nat, size: nat, bus: nat) returns (rest: nat)
      requires Valid()
      modifies this
      ensures Valid()
      ensures if Reaches(host, bus)
              then live == old(live) - {ChunkAt(a, bus, address, size)} && rest == address % Step(a)
              else live == old(live) && rest == address
    {
      rest := address;
      if Reaches(host, bus) {
        var ok := Detach(ChunkAt(a, bus, address, size));
        rest := address % Step(a);
      }
    }
  }
}
