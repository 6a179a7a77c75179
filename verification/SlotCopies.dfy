/** Copies between slots through the page map, and what a write to one slot, or a
    malloc, leaves alone. */
module SlotCopies {
  import opened Seqs
  import opened Memory
  import opened Geometry
  import opened PoolProofs
  import opened Aliasing
  import opened SlotChains
  import opened PoolRep
  import opened PoolSteps
  import opened ThreadBins
  import opened Compaction
  import opened Arena
  import SlabPool

  // Through the page map the n bytes at p are those at `at`.
  ghost predicate Backs(remap: map<nat, nat>, p: nat, at: nat, n: nat) {
    forall a: nat {:trigger Tr(remap, a)} :: p <= a < p + n ==> Tr(remap, a) == a - p + at
  }

  lemma SlotBacks(c: SizeClass, remap: map<nat, nat>, alias: map<SlabId, SlabId>, x: Slot, n: nat)
    requires SlotMapped(c, remap, alias, x) && n <= c.size
    ensures Backs(remap, Addr(c, x), Addr(c, Backing(alias, x)), n)
  {}

  // memcpy of n bytes, through the page map
  method CopyBytes(remap: map<nat, nat>, m: Mem, q: nat, p: nat, n: nat, ghost dst: nat, ghost src: nat)
    returns (m': Mem)
    requires Backs(remap, q, dst, n) && Backs(remap, p, src, n) && (dst + n <= src || src + n <= dst)
    ensures Copied(m, m', dst, src, n) && Carried(remap, m, m', p, q, n)
  {
    m' := m;
    for i := 0 to n
      invariant Copied(m, m', dst, src, i)
    {
      CopiedStep(m, m', dst, src, n, i);
      assert Tr(remap, q + i) == dst + i && Tr(remap, p + i) == src + i;
      m' := m'[Tr(remap, q + i) := Load(m', Tr(remap, p + i))];
    }
    CopiedCarried(remap, m, m', q, p, n, dst, src);
  }

  lemma CopiedOnly(d: SizeClass, m: Mem, m': Mem, y: Slot, src: nat, n: nat)
    requires Copied(m, m', Addr(d, y), src, n) && n <= d.size
    ensures Only(d, m, m', {y})
  {
    forall a: nat | !Touched(d, {y}, a) ensures Load(m', a) == Load(m, a) {
      assert !InSlot(d, y, a);
    }
  }

  // memset to zero, through the page map
  method ZeroBytes(remap: map<nat, nat>, m: Mem, p: nat, n: nat, ghost at: nat) returns (m': Mem)
    requires Backs(remap, p, at, n)
    ensures Zeroed(m, m', at, n)
  {
    m' := m;
    for i := 0 to n
      invariant Zeroed(m, m', at, i)
    {
      ZeroedStep(m, m', at, i);
      assert Tr(remap, p + i) == at + i;
      m' := m'[Tr(remap, p + i) := 0];
    }
  }

  lemma ZeroedOnly(c: SizeClass, m: Mem, m': Mem, y: Slot, n: nat)
    requires Zeroed(m, m', Addr(c, y), n) && n <= c.size
    ensures Only(c, m, m', {y})
  {
    forall a: nat | !Touched(c, {y}, a) ensures Load(m', a) == Load(m, a) {
      assert !InSlot(c, y, a);
    }
  }

  // Read at their own addresses, the first n bytes at q are those that were at p.
  ghost predicate Carried(remap: map<nat, nat>, m: Mem, m': Mem, p: nat, q: nat, n: nat) {
    forall a: nat {:trigger Tr(remap, a)} :: q <= a < q + n ==> Load(m', Tr(remap, a)) == Load(m, Tr(remap, a - q + p))
  }

  lemma CopiedCarried(remap: map<nat, nat>, m: Mem, m': Mem, q: nat, p: nat, n: nat, dst: nat, src: nat)
    requires Backs(remap, q, dst, n) && Backs(remap, p, src, n) && Copied(m, m', dst, src, n)
    ensures Carried(remap, m, m', p, q, n)
  {
    forall a: nat | q <= a < q + n ensures Load(m', Tr(remap, a)) == Load(m, Tr(remap, a - q + p)) {
      assert Tr(remap, a) == a - q + dst;
      assert Tr(remap, a - q + p) == a - q + src;
    }
  }

  // Where two slots in use of different pools are stored.
  lemma StoredApart(space: SlabPool.Space, pools: seq<SlabPool.Pool>, i: nat, j: nat, x: Slot, y: Slot,
                    outs: seq<set<Slot>>, hids: seq<set<Slot>>)
    requires ArenaOk(space, pools, outs, hids) && i < |pools| && j < |pools| && i != j && x in outs[i] && y in outs[j]
    ensures NoShare(pools[j].c, Backing(pools[j].alias, y), pools[i].c, Backing(pools[i].alias, x))
  {
    StoredHere(pools[i], outs[i], hids[i], x);
    StoredHere(pools[j], outs[j], hids[j], y);
    ChunksNoShare(pools[j].c, Backing(pools[j].alias, y), pools[i].c, Backing(pools[i].alias, x));
  }

  lemma StoredHere(p: SlabPool.Pool, out: set<Slot>, hidden: set<Slot>, x: Slot)
    requires p.Valid(out, hidden) && x in out
    ensures SlotOk(p.c, Backing(p.alias, x)) && Backing(p.alias, x).slab.chunk in p.view.live
  {
    p.Open(out, hidden);
    BackingHeld(p.c, p.view, out, hidden, p.alias, x);
    SlabKnown(p.c, p.view, out, hidden, Backing(p.alias, x).slab);
  }

  // memcpy from a slot of pool i to a slot of pool j, both in use
  method CopyBetween(space: SlabPool.Space, pools: seq<SlabPool.Pool>, i: nat, j: nat, p: nat, q: nat, n: nat,
                     ghost x: Slot, ghost y: Slot, ghost outs: seq<set<Slot>>, ghost hids: seq<set<Slot>>)
    requires ArenaOk(space, pools, outs, hids) && i < |pools| && j < |pools| && i != j && x in outs[i] && y in outs[j]
    requires p == Addr(pools[i].c, x) && q == Addr(pools[j].c, y) && n <= pools[i].c.size && n <= pools[j].c.size
    modifies space`mem
    ensures ArenaOk(space, pools, outs, hids)
    ensures Carried(space.remap, old(space.mem), space.mem, p, q, n)
    ensures AllRead(pools, space.remap, old(space.mem), space.remap, space.mem, outs[j := outs[j] - {y}])
    ensures BytesOut(old(space.mem), space.mem, pools[j].view.live.Keys)
  {
    ghost var m0, remap := space.mem, space.remap;
    ghost var c, d, a, b := pools[i].c, pools[j].c, pools[i].alias, pools[j].alias;
    pools[i].UsedMapped(outs[i], hids[i], x);
    pools[j].UsedMapped(outs[j], hids[j], y);
    StoredApart(space, pools, i, j, x, y, outs, hids);
    SlotBacks(c, remap, a, x, n);
    SlotBacks(d, remap, b, y, n);
    var m := CopyBytes(space.remap, space.mem, q, p, n, Addr(d, Backing(b, y)), Addr(c, Backing(a, x)));
    CopiedOnly(d, m0, m, Backing(b, y), Addr(c, Backing(a, x)), n);
    WriteIn(space, pools, j, m, y, outs, hids);
  }

  // a write to one slot in use
  method WriteIn(space: SlabPool.Space, pools: seq<SlabPool.Pool>, j: nat, m: Mem, ghost y: Slot,
                 ghost outs: seq<set<Slot>>, ghost hids: seq<set<Slot>>)
    requires ArenaOk(space, pools, outs, hids) && j < |pools| && y in outs[j]
    requires Only(pools[j].c, space.mem, m, {Backing(pools[j].alias, y)})
    modifies space`mem
    ensures ArenaOk(space, pools, outs, hids) && space.mem == m
    ensures AllRead(pools, space.remap, old(space.mem), space.remap, space.mem, outs[j := outs[j] - {y}])
    ensures BytesOut(old(space.mem), space.mem, pools[j].view.live.Keys)
  {
    ghost var m0, remap, ks := space.mem, space.remap, pools[j].view.live.Keys;
    ChunksAligned(pools[j], outs[j], hids[j]);
    pools[j].SetSlot(m, y, outs[j], hids[j]);
    Singleton(pools[j].alias, y, outs[j]);
    pools[j].Wrote(m0, [y], outs[j] - {y}, outs[j], hids[j]);
    KeptReads(pools[j], m0, outs[j] - {y}, outs[j], hids[j]);
    Rejoin(space, pools, j, m0, remap, outs, hids, ks, outs[j] - {y}, outs[j], hids[j]);
    assert outs[j := outs[j]] == outs && hids[j := hids[j]] == hids;
  }

  lemma Singleton(alias: map<SlabId, SlabId>, y: Slot, out: set<Slot>)
    requires y in out
    ensures Backings(alias, [y]) == {Backing(alias, y)} && Elems([y]) <= out && out - {y} <= out - Elems([y])
  {
    assert y in [y];
  }

  // ---- what the steps leave alone ----

  lemma ReadsKept(p: SlabPool.Pool, m: Mem, held: set<Slot>, out: set<Slot>, hidden: set<Slot>)
    requires p.Valid(out, hidden) && held <= out && SameReads(p.c, p.space.remap, m, p.space.remap, p.space.mem, held)
    ensures Kept(p.c, p.alias, m, p.space.mem, held)
  {
    forall x | x in held ensures SlotSame(p.c, m, p.space.mem, Backing(p.alias, x)) {
      p.UsedMapped(out, hidden, x);
      var a := Addr(p.c, Backing(p.alias, x));
      forall k | a <= k < a + p.c.size ensures Load(m, k) == Load(p.space.mem, k) {
        ReadsCopied(p.c, p.space.remap, m, p.alias, p.space.remap, p.space.mem, p.alias, x, k - a);
      }
    }
  }

  // A bin of this thread, whose slots all read the same, is still that bin.
  lemma BinElsewhere(p: SlabPool.Pool, m: Mem, bin: Bin, slots: seq<Slot>, users: set<Slot>, held: set<Slot>,
                     out: set<Slot>, hidden: set<Slot>)
    requires p.Valid(out, hidden) && Served(p.c, p.alias, m, p.key, bin, slots, users, out)
    requires Elems(slots) <= held <= out && SameReads(p.c, p.space.remap, m, p.space.remap, p.space.mem, held)
    ensures Served(p.c, p.alias, p.space.mem, p.key, bin, slots, users, out)
  {
    ReadsKept(p, m, held, out, hidden);
    BinKept(p.c, p.alias, m, p.space.mem, p.key, bin, slots, users, held);
  }

  lemma AllReadLess(pools: seq<SlabPool.Pool>, remap: map<nat, nat>, m: Mem, m': Mem, outs: seq<set<Slot>>,
                    less: seq<set<Slot>>)
    requires AllRead(pools, remap, m, remap, m', outs) && |less| == |outs|
    requires forall k :: 0 <= k < |outs| ==> less[k] <= outs[k]
    ensures AllRead(pools, remap, m, remap, m', less)
  {}

  // What a step leaves alone at x is carried in the next.
  lemma CarriedFrom(remap: map<nat, nat>, m0: Mem, m1: Mem, m2: Mem, c: SizeClass, x: Slot, q: nat, n: nat)
    requires SlotReads(c, remap, m0, remap, m1, x) && Carried(remap, m1, m2, Addr(c, x), q, n) && n <= c.size
    ensures Carried(remap, m0, m2, Addr(c, x), q, n)
  {
    var p := Addr(c, x);
    forall a: nat | q <= a < q + n ensures Load(m2, Tr(remap, a)) == Load(m0, Tr(remap, a - q + p)) {
      assert InSlot(c, x, a - q + p);
    }
  }

  // What is carried to y stays there.
  lemma CarriedTo(remap: map<nat, nat>, m1: Mem, m2: Mem, m3: Mem, p: nat, d: SizeClass, y: Slot, n: nat)
    requires Carried(remap, m1, m2, p, Addr(d, y), n) && SlotReads(d, remap, m2, remap, m3, y) && n <= d.size
    ensures Carried(remap, m1, m3, p, Addr(d, y), n)
  {
    var q := Addr(d, y);
    forall a: nat | q <= a < q + n ensures Load(m3, Tr(remap, a)) == Load(m1, Tr(remap, a - q + p)) {
      assert InSlot(d, y, a);
    }
  }

  // A thread's bin over pool k of the arena.
  ghost predicate BinAt(space: SlabPool.Space, pools: seq<SlabPool.Pool>, k: nat, bin: Bin, slots: seq<Slot>,
                        users: set<Slot>, outs: seq<set<Slot>>)
    requires k < |pools| == |outs|
    reads space, pools
  {
    Served(pools[k].c, pools[k].alias, space.mem, pools[k].key, bin, slots, users, outs[k])
  }

  // malloc, where all chunks the pools have or may take are among ks
  method TakeIn(space: SlabPool.Space, pools: seq<SlabPool.Pool>, j: nat, bin: Bin, cap: nat, got: Option<nat>,
                inc: Incoming, ghost ks: set<nat>, ghost slots: seq<Slot>, ghost users: set<Slot>,
                ghost outs: seq<set<Slot>>, ghost hids: seq<set<Slot>>)
    returns (bin': Bin, q: nat, ghost y: Option<Slot>, ghost slots': seq<Slot>, ghost outs': seq<set<Slot>>)
    requires ArenaOk(space, pools, outs, hids) && j < |pools|
    requires BinAt(space, pools, j, bin, slots, users, outs) && bin.count <= cap && cap > 0
    requires FreshOk(pools[j].view, got) && Brings(space.mem, pools[j].descs, got, inc) && Unclaimed(pools, got)
    requires Within(pools, ks) && (got.Some? ==> got.value in ks)
    modifies space`mem, pools[j]
    ensures |outs'| == |outs| && outs' == outs[j := outs'[j]] && ArenaOk(space, pools, outs', hids)
    ensures space.remap == old(space.remap) && pools[j].alias == old(pools[j].alias) && bin'.count <= cap
    ensures y.None? <==> slots == [] && RefillFails(pools[j].c, old(pools[j].view), got)
    ensures Returned(pools[j].c, q, y, users) && (q == 0 <==> y.None?)
    ensures BinAt(space, pools, j, bin', slots', users + One(y), outs')
    ensures AllRead(pools, space.remap, old(space.mem), space.remap, space.mem, outs[j := users])
    ensures Within(pools, ks) && BytesOut(old(space.mem), space.mem, ks)
  {
    ghost var m0 := space.mem;
    bin', q, y, slots', outs' := MallocIn(space, pools, j, bin, cap, got, inc, slots, users, outs, hids);
    BytesOutTrans(m0, m0, space.mem, {}, pools[j].view.live.Keys, ks);
    if y.Some? { SlotBounds(pools[j].c, y.value); }
  }

  // free, where all chunks the pools have are among ks
  method GiveIn(space: SlabPool.Space, pools: seq<SlabPool.Pool>, i: nat, bin: Bin, cap: nat, p: nat,
                ghost ks: set<nat>,
                ghost x: Slot, ghost slots: seq<Slot>, ghost users: set<Slot>, ghost outs: seq<set<Slot>>,
                ghost hids: seq<set<Slot>>)
    returns (bin': Bin, ghost slots': seq<Slot>, ghost outs': seq<set<Slot>>)
    requires ArenaOk(space, pools, outs, hids) && i < |pools| && x in users && p == Addr(pools[i].c, x)
    requires BinAt(space, pools, i, bin, slots, users, outs) && bin.count <= cap && Within(pools, ks)
    modifies space`mem, pools[i]
    ensures |outs'| == |outs| && outs' == outs[i := outs'[i]] && ArenaOk(space, pools, outs', hids)
    ensures space.remap == old(space.remap) && pools[i].alias == old(pools[i].alias) && bin'.count <= cap
    ensures BinAt(space, pools, i, bin', slots', users - {x}, outs')
    ensures AllRead(pools, space.remap, old(space.mem), space.remap, space.mem, outs[i := users - {x}])
    ensures Within(pools, ks) && BytesOut(old(space.mem), space.mem, ks)
  {
    ghost var m0, ls := space.mem, pools[i].view.live.Keys;
    bin', slots', outs' := FreeIn(space, pools, i, bin, cap, p, x, slots, users, outs, hids);
    BytesOutTrans(m0, m0, space.mem, {}, ls, ks);
  }

  // Read at their own addresses, the n bytes at p are zero.
  ghost predicate ReadsZero(remap: map<nat, nat>, m: Mem, p: nat, n: nat) {
    forall a: nat {:trigger Tr(remap, a)} :: p <= a < p + n ==> Load(m, Tr(remap, a)) == 0
  }

  // memset of a slot in use
  method ClearIn(space: SlabPool.Space, pools: seq<SlabPool.Pool>, j: nat, p: nat, n: nat, ghost y: Slot,
                 ghost outs: seq<set<Slot>>, ghost hids: seq<set<Slot>>)
    requires ArenaOk(space, pools, outs, hids) && j < |pools| && y in outs[j] && p == Addr(pools[j].c, y)
    requires n <= pools[j].c.size
    modifies space`mem
    ensures ArenaOk(space, pools, outs, hids) && ReadsZero(space.remap, space.mem, p, n)
    ensures AllRead(pools, space.remap, old(space.mem), space.remap, space.mem, outs[j := outs[j] - {y}])
    ensures BytesOut(old(space.mem), space.mem, pools[j].view.live.Keys)
  {
    ghost var m0, d, z := space.mem, pools[j].c, Backing(pools[j].alias, y);
    pools[j].UsedMapped(outs[j], hids[j], y);
    SlotBacks(d, space.remap, pools[j].alias, y, n);
    var m := ZeroBytes(space.remap, space.mem, p, n, Addr(d, z));
    ZeroedOnly(d, m0, m, z, n);
    WriteIn(space, pools, j, m, y, outs, hids);
  }
}
