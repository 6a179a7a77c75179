/** Several pools over one memory. No pool has a chunk of another, so what one
    pool's operations do to its own chunks is invisible to the others. */
module Arena {
  import opened Bits
  import opened Seqs
  import opened Memory
  import opened Geometry
  import opened PoolSpec
  import opened PoolProofs
  import opened Aliasing
  import opened SlotChains
  import opened PoolRep
  import opened PoolSteps
  import opened Epochs
  import SlabPool
  import A = Allocator
  import C = Lifecycle
  import opened ThreadBins
  import opened Compaction
  import opened Tiering

  // ---- one pool, while others work ----

  lemma MappedElsewhere(c: SizeClass, remap: map<nat, nat>, remap': map<nat, nat>, alias: map<SlabId, SlabId>,
                        live: map<nat, nat>, ks: set<nat>)
    requires Mapped(c, remap, alias, live) && PagesOut(remap, remap', ks) && ks !! live.Keys
    requires forall k :: k in ks ==> k % CHUNK == 0
    ensures Mapped(c, remap', alias, live)
  {
    forall s | SlabOk(c, s) && s.chunk in live ensures SlabMapped(c, remap', alias, s) {
      forall k: nat | k < c.slots ensures SlotMapped(c, remap', alias, Slot(s, k)) {
        var x := Slot(s, k);
        MappedSlot(c, remap, alias, live, x);
        forall a: nat | Addr(c, x) <= a < Addr(c, x) + c.size
          ensures Tr(remap', a) == a - Addr(c, x) + Addr(c, Backing(alias, x))
        {
          SlotOutside(c, x, ks, a);
        }
      }
    }
  }

  lemma SlabsElsewhere(c: SizeClass, key: nat, m: Mem, m': Mem, d: Descs, v: PoolSpec.Pool, out: set<Slot>,
                       hidden: set<Slot>, alias: map<SlabId, SlabId>, ks: set<nat>)
    requires SlabsOk(c, key, m, d, v, alias) && Core(c, v, out, hidden) && BytesOut(m, m', ks) && ks !! v.live.Keys
    requires forall k :: k in ks ==> k % CHUNK == 0
    ensures SlabsOk(c, key, m', d, v, alias)
  {
    forall t | Active(v.slabs, v.warm, v.cold, t) ensures ChainRep(c, alias, key, m', d.freeHead, v.slabs, t) {
      assert ChainRep(c, alias, key, m, d.freeHead, v.slabs, t);
      SlabKnown(c, v, out, hidden, t);
      ChainOutside(c, alias, m, m', key, Num(d.freeHead, t), t, v.slabs[t].free, ks);
    }
  }

  lemma ReadsElsewhere(c: SizeClass, m: Mem, m': Mem, remap: map<nat, nat>, remap': map<nat, nat>, v: PoolSpec.Pool,
                       out: set<Slot>, hidden: set<Slot>, alias: map<SlabId, SlabId>, ks: set<nat>)
    requires Mapped(c, remap, alias, v.live) && Mapped(c, remap', alias, v.live)
    requires PoolInv(c, v, out, hidden) && AliasOk(v, out, hidden, alias) && BytesOut(m, m', ks) && ks !! v.live.Keys
    requires forall k :: k in ks ==> k % CHUNK == 0
    ensures Kept(c, alias, m, m', out) && SameReads(c, remap, m, remap', m', out)
  {
    forall x | x in out ensures SlotSame(c, m, m', Backing(alias, x)) && SlotReads(c, remap, m, remap', m', x) {
      BackingHeld(c, v, out, hidden, alias, x);
      SlabKnown(c, v, out, hidden, Backing(alias, x).slab);
      SlotSameOutside(c, m, m', Backing(alias, x), ks);
      SameIsCopied(c, m, m', Backing(alias, x));
      OutMapped(c, remap, v, out, hidden, alias, x);
      OutMapped(c, remap', v, out, hidden, alias, x);
      CopiedReads(c, remap, m, alias, remap', m', alias, x);
    }
  }

  /** A pool none of whose chunks is among ks is as it was, and every slot of it in
      use reads the same, after anything that happens inside the chunks ks. */
  lemma PoolElsewhere(p: SlabPool.Pool, m: Mem, remap: map<nat, nat>, out: set<Slot>, hidden: set<Slot>, ks: set<nat>)
    requires p.ValidIn(m, remap, p.space.epoch, out, hidden) && ks !! p.view.live.Keys
    requires BytesOut(m, p.space.mem, ks) && PagesOut(remap, p.space.remap, ks)
    requires forall k :: k in ks ==> k % CHUNK == 0
    ensures p.Valid(out, hidden) && Kept(p.c, p.alias, m, p.space.mem, out)
    ensures SameReads(p.c, remap, m, p.space.remap, p.space.mem, out)
  {
    assert SlabPool.Shown(0, m, out);
    MappedElsewhere(p.c, remap, p.space.remap, p.alias, p.view.live, ks);
    SlabsElsewhere(p.c, p.key, m, p.space.mem, p.descs, p.view, out, hidden, p.alias, ks);
    ReadsElsewhere(p.c, m, p.space.mem, remap, p.space.remap, p.view, out, hidden, p.alias, ks);
  }

  // ---- all pools ----

  // No two pools share a chunk.
  ghost predicate Separate(pools: seq<SlabPool.Pool>)
    reads pools`view
  {
    forall i, j {:trigger pools[i], pools[j]} :: 0 <= i < |pools| && 0 <= j < |pools| && i != j ==>
      pools[i] != pools[j] && pools[i].view.live.Keys !! pools[j].view.live.Keys
  }

  // Only pages of slabs that have been meshed away are remapped.
  ghost predicate Tame(remap: map<nat, nat>, pools: seq<SlabPool.Pool>)
    reads pools`alias
  {
    forall a: nat {:trigger Tr(remap, a)} :: Tr(remap, a) == a || Remote(pools, a)
  }

  ghost predicate Remote(pools: seq<SlabPool.Pool>, a: nat)
    reads pools`alias
  {
    exists i :: 0 <= i < |pools| && InDonor(pools[i].c, pools[i].alias, a)
  }

  ghost predicate ArenaOk(space: SlabPool.Space, pools: seq<SlabPool.Pool>, outs: seq<set<Slot>>, hids: seq<set<Slot>>)
    reads space, pools
  {
    && |outs| == |pools| == |hids| && Separate(pools) && Tame(space.remap, pools)
    && (forall i :: 0 <= i < |pools| ==> pools[i].space == space)
    && (forall i :: 0 <= i < |pools| ==> pools[i].Valid(outs[i], hids[i]))
  }

  /** A chunk that is no pool's, whether or not it was one's before, is not remapped. */
  lemma UnclaimedUnmapped(space: SlabPool.Space, pools: seq<SlabPool.Pool>, outs: seq<set<Slot>>, hids: seq<set<Slot>>,
                          k: nat)
    requires ArenaOk(space, pools, outs, hids) && Unclaimed(pools, Some(k)) && k % CHUNK == 0
    ensures Unmapped(space.remap, k)
  {
    forall a: nat | InChunk(k, a) ensures Tr(space.remap, a) == a {
      if Remote(pools, a) {
        var i :| 0 <= i < |pools| && InDonor(pools[i].c, pools[i].alias, a);
        DonorChunk(pools[i], outs[i], hids[i], k, a);
      }
    }
  }

  lemma DonorChunk(p: SlabPool.Pool, out: set<Slot>, hidden: set<Slot>, k: nat, a: nat)
    requires p.Valid(out, hidden) && InDonor(p.c, p.alias, a) && k % CHUNK == 0 && k !in p.view.live
    ensures !InChunk(k, a)
  {
    p.Open(out, hidden);
    var d :| d in p.alias && InRun(p.c, d, a);
    SlabKnown(p.c, p.view, out, hidden, d);
    MultiplesApart(k, d.chunk, CHUNK);
  }

  // Chunk `got` belongs to no pool.
  ghost predicate Unclaimed(pools: seq<SlabPool.Pool>, got: Option<nat>)
    reads pools`view
  {
    got.Some? ==> forall j :: 0 <= j < |pools| ==> got.value !in pools[j].view.live
  }

  function Nothing(n: nat): (r: seq<set<Slot>>)
    ensures |r| == n && forall i :: 0 <= i < n ==> r[i] == {}
  {
    seq(n, _ => {})
  }

  /** btm_init: one empty pool per class, over an empty memory. */
  method NewPools(cs: seq<SizeClass>, key: nat) returns (space: SlabPool.Space, pools: seq<SlabPool.Pool>)
    requires key < WORD && forall i :: 0 <= i < |cs| ==> cs[i].Valid()
    ensures |pools| == |cs| && forall i :: 0 <= i < |cs| ==> pools[i].c == cs[i] && pools[i].key == key
    ensures ArenaOk(space, pools, Nothing(|cs|), Nothing(|cs|)) && fresh(space) && forall p :: p in pools ==> fresh(p)
    ensures forall i :: 0 <= i < |pools| ==> pools[i].view == EMPTY
  {
    space := new SlabPool.Space();
    pools := [];
    for i := 0 to |cs|
      invariant fresh(space) && space.epoch == 0 && space.remap == map[] && |pools| == i
      invariant forall j :: 0 <= j < i ==> pools[j].c == cs[j] && pools[j].key == key
      invariant forall j :: 0 <= j < i ==>
                  fresh(pools[j]) && pools[j].space == space && pools[j].Valid({}, {}) && pools[j].view == EMPTY
      invariant forall j, k :: 0 <= j < k < i ==> pools[j] != pools[k]
    {
      var p := new SlabPool.Pool(cs[i], key, space);
      pools := pools + [p];
    }
    NothingRemapped(pools);
    EmptySeparate(pools);
  }

  lemma NothingRemapped(pools: seq<SlabPool.Pool>)
    ensures Tame(map[], pools)
  {}

  lemma EmptySeparate(pools: seq<SlabPool.Pool>)
    requires forall i :: 0 <= i < |pools| ==> pools[i].view == EMPTY
    requires forall i, j :: 0 <= i < j < |pools| ==> pools[i] != pools[j]
    ensures Separate(pools)
  {}

  // Every slot of these pools reads the same at its own address, before and after.
  ghost predicate AllRead(pools: seq<SlabPool.Pool>, remap: map<nat, nat>, m: Mem, remap': map<nat, nat>, m': Mem,
                          outs: seq<set<Slot>>) {
    |outs| == |pools| && forall i :: 0 <= i < |pools| ==> SameReads(pools[i].c, remap, m, remap', m', outs[i])
  }

  lemma AllReadTrans(pools: seq<SlabPool.Pool>, r0: map<nat, nat>, m0: Mem, r1: map<nat, nat>, m1: Mem,
                     r2: map<nat, nat>, m2: Mem, outs: seq<set<Slot>>)
    requires AllRead(pools, r0, m0, r1, m1, outs) && AllRead(pools, r1, m1, r2, m2, outs)
    ensures AllRead(pools, r0, m0, r2, m2, outs)
  {
    forall i | 0 <= i < |pools| ensures SameReads(pools[i].c, r0, m0, r2, m2, outs[i]) {
      forall x | x in outs[i] ensures SlotReads(pools[i].c, r0, m0, r2, m2, x) {
        assert SlotReads(pools[i].c, r0, m0, r1, m1, x) && SlotReads(pools[i].c, r1, m1, r2, m2, x);
      }
    }
  }

  lemma ChunksAligned(p: SlabPool.Pool, out: set<Slot>, hidden: set<Slot>)
    requires p.Valid(out, hidden)
    ensures forall k :: k in p.view.live.Keys ==> k % CHUNK == 0
  {
    p.Open(out, hidden);
    assert forall k :: k in p.view.nextPage.Keys ==> ChunkBaseOk(k);
  }

  ghost function Others(pools: seq<SlabPool.Pool>, i: nat): set<SlabPool.Pool> {
    set j | 0 <= j < |pools| && j != i :: pools[j]
  }

  // Every pool but the i-th was valid over the memory m.
  ghost predicate Bystanders(pools: seq<SlabPool.Pool>, i: nat, m: Mem, remap: map<nat, nat>, e: nat,
                             outs: seq<set<Slot>>, hids: seq<set<Slot>>, ks: set<nat>)
    reads Others(pools, i)
  {
    && |outs| == |pools| == |hids|
    && forall j :: 0 <= j < |pools| && j != i ==>
         pools[j].ValidIn(m, remap, e, outs[j], hids[j]) && ks !! pools[j].view.live.Keys
  }

  /** Pool i has done something inside the chunks ks, which are no other pool's. */
  lemma Rejoin(space: SlabPool.Space, pools: seq<SlabPool.Pool>, i: nat, m: Mem, remap: map<nat, nat>,
               outs: seq<set<Slot>>,
               hids: seq<set<Slot>>, ks: set<nat>, held: set<Slot>, out: set<Slot>, hid: set<Slot>)
    requires i < |pools| && Separate(pools) && Tame(space.remap, pools)
    requires forall j :: 0 <= j < |pools| ==> pools[j].space == space
    requires Bystanders(pools, i, m, remap, space.epoch, outs, hids, ks)
    requires BytesOut(m, space.mem, ks) && PagesOut(remap, space.remap, ks) && forall k :: k in ks ==> k % CHUNK == 0
    requires pools[i].Valid(out, hid) && SameReads(pools[i].c, remap, m, space.remap, space.mem, held)
    ensures ArenaOk(space, pools, outs[i := out], hids[i := hid])
    ensures AllRead(pools, remap, m, space.remap, space.mem, outs[i := held])
  {
    forall j | 0 <= j < |pools| && j != i
      ensures pools[j].Valid(outs[j], hids[j])
      ensures SameReads(pools[j].c, remap, m, space.remap, space.mem, outs[j])
    {
      PoolElsewhere(pools[j], m, remap, outs[j], hids[j], ks);
    }
  }

  // ---- compaction ----

  // No slab that a pass would mesh away backs another.
  ghost predicate Safe(p: SlabPool.Pool)
    reads p
  {
    DonorsFree(p.alias, Greedy(p.c, p.view, Candidates(p.c, p.view), {}, 0))
  }

  // Every address the page map moves is in a donor's run, those of pool i given by `alias`.
  ghost predicate TameBut(pools: seq<SlabPool.Pool>, i: nat, remap: map<nat, nat>, alias: map<SlabId, SlabId>)
    requires i < |pools|
    reads pools
  {
    forall a: nat {:trigger Tr(remap, a)} :: Tr(remap, a) == a || InDonor(pools[i].c, alias, a) ||
      exists j :: 0 <= j < |pools| && j != i && InDonor(pools[j].c, pools[j].alias, a)
  }

  lemma TameAfter(pools: seq<SlabPool.Pool>, i: nat, remap: map<nat, nat>, remap': map<nat, nat>,
                  alias: map<SlabId, SlabId>)
    requires i < |pools| && TameBut(pools, i, remap, alias)
    requires Redrawn(pools[i].c, remap, remap', alias, pools[i].alias)
    ensures Tame(remap', pools)
  {
    forall a: nat ensures Tr(remap', a) == a || Remote(pools, a) {
      if Tr(remap', a) == Tr(remap, a) != a && InDonor(pools[i].c, alias, a) {
        var d :| d in alias && InRun(pools[i].c, d, a);
        assert d in alias.Keys && d in pools[i].alias.Keys;
        assert d in pools[i].alias;
      }
    }
  }

  // A pass took a pool from v to v' by meshing these pairs: slabs at most half used that do not
  // collide, until none of the first 64 is left that could be meshed.
  ghost predicate Meshes(c: SizeClass, v: PoolSpec.Pool, v': PoolSpec.Pool, alias: map<SlabId, SlabId>,
                         alias': map<SlabId, SlabId>, pairs: seq<(SlabId, SlabId)>, bytes: nat) {
    && c.Valid() && v' == MeshAll(c, v, pairs) && PairsOk(c, v, pairs) && NoneLeft(c, v, pairs)
    && Reclaims(c, alias, alias', bytes)
  }

  // ... or skipped it, because its slabs have one page.
  ghost predicate Compacted(c: SizeClass, v: PoolSpec.Pool, v': PoolSpec.Pool, alias: map<SlabId, SlabId>,
                            alias': map<SlabId, SlabId>, pairs: seq<(SlabId, SlabId)>, bytes: nat) {
    if c.run >= 2 then Meshes(c, v, v', alias, alias', pairs, bytes) else v' == v && alias' == alias && bytes == 0
  }

  method CompactAt(space: SlabPool.Space, pools: seq<SlabPool.Pool>, i: nat, ghost outs: seq<set<Slot>>,
                   ghost hids: seq<set<Slot>>)
    returns (reclaimed: nat, ghost hids': seq<set<Slot>>, ghost pairs: seq<(SlabId, SlabId)>)
    requires ArenaOk(space, pools, outs, hids) && i < |pools| && Safe(pools[i])
    modifies space`mem, space`remap, pools[i]
    ensures ArenaOk(space, pools, outs, hids')
    ensures AllRead(pools, old(space.remap), old(space.mem), space.remap, space.mem, outs)
    ensures Meshes(pools[i].c, old(pools[i].view), pools[i].view, old(pools[i].alias), pools[i].alias, pairs, reclaimed)
  {
    ghost var ks, m, remap, alias := pools[i].view.live.Keys, space.mem, space.remap, pools[i].alias;
    ChunksAligned(pools[i], outs[i], hids[i]);
    ghost var h;
    reclaimed, h, pairs := CompactPool(pools[i], outs[i], hids[i]);
    hids' := hids[i := h];
    TameAfter(pools, i, remap, space.remap, alias);
    Rejoin(space, pools, i, m, remap, outs, hids, ks, outs[i], outs[i], h);
    assert outs[i := outs[i]] == outs;
  }

  ghost function Views(pools: seq<SlabPool.Pool>): (r: seq<PoolSpec.Pool>)
    reads pools`view
    ensures |r| == |pools| && forall k :: 0 <= k < |pools| ==> r[k] == pools[k].view
  {
    if pools == [] then [] else [pools[0].view] + Views(pools[1..])
  }

  ghost function Aliases(pools: seq<SlabPool.Pool>): (r: seq<map<SlabId, SlabId>>)
    reads pools`alias
    ensures |r| == |pools| && forall k :: 0 <= k < |pools| ==> r[k] == pools[k].alias
  {
    if pools == [] then [] else [pools[0].alias] + Aliases(pools[1..])
  }

  // These pools have not had their turn.
  ghost predicate Waiting(pools: seq<SlabPool.Pool>, vs: seq<PoolSpec.Pool>, as0: seq<map<SlabId, SlabId>>)
    reads pools
  {
    && |vs| == |as0| == |pools|
    && forall k :: 0 <= k < |pools| ==>
         && pools[k].view == vs[k] && pools[k].alias == as0[k] && (pools[k].c.run >= 2 ==> Safe(pools[k]))
  }

  // These pools have had it.
  ghost predicate PassedOver(pools: seq<SlabPool.Pool>, vs: seq<PoolSpec.Pool>, as0: seq<map<SlabId, SlabId>>,
                             picks: seq<seq<(SlabId, SlabId)>>, gains: seq<nat>)
    reads pools`view, pools`alias
  {
    && |vs| == |as0| == |picks| == |gains| == |pools|
    && forall k :: 0 <= k < |pools| ==>
         Compacted(pools[k].c, vs[k], pools[k].view, as0[k], pools[k].alias, picks[k], gains[k])
  }

  lemma WaitingNext(pools: seq<SlabPool.Pool>, vs: seq<PoolSpec.Pool>, as0: seq<map<SlabId, SlabId>>, i: nat)
    requires i < |pools| == |vs| == |as0| && Waiting(pools[i..], vs[i..], as0[i..])
    ensures pools[i].view == vs[i] && pools[i].alias == as0[i] && (pools[i].c.run >= 2 ==> Safe(pools[i]))
    ensures Waiting(pools[i + 1..], vs[i + 1..], as0[i + 1..])
  {
    var ps, qs, ws, bs := pools[i..], pools[i + 1..], vs[i + 1..], as0[i + 1..];
    assert ps[0] == pools[i];
    forall k | 0 <= k < |qs| ensures qs[k].view == ws[k] && qs[k].alias == bs[k] && (qs[k].c.run >= 2 ==> Safe(qs[k])) {
      assert qs[k] == ps[k + 1] && ws[k] == vs[i..][k + 1] && bs[k] == as0[i..][k + 1];
    }
  }

  lemma PassedNext(pools: seq<SlabPool.Pool>, vs: seq<PoolSpec.Pool>, as0: seq<map<SlabId, SlabId>>,
                   picks: seq<seq<(SlabId, SlabId)>>, gains: seq<nat>, i: nat, pairs: seq<(SlabId, SlabId)>, bytes: nat)
    requires i < |pools| == |vs| == |as0| && PassedOver(pools[..i], vs[..i], as0[..i], picks, gains)
    requires Compacted(pools[i].c, vs[i], pools[i].view, as0[i], pools[i].alias, pairs, bytes)
    ensures PassedOver(pools[..i + 1], vs[..i + 1], as0[..i + 1], picks + [pairs], gains + [bytes])
  {
    forall k | 0 <= k < i
      ensures Compacted(pools[k].c, vs[k], pools[k].view, as0[k], pools[k].alias, picks[k], gains[k])
    {
      assert pools[..i][k] == pools[k] && vs[..i][k] == vs[k] && as0[..i][k] == as0[k];
    }
  }

  // Pool i is neither among those before it nor among those after it.
  lemma NotAround(pools: seq<SlabPool.Pool>, i: nat)
    requires i < |pools| && Separate(pools)
    ensures pools[i] !in pools[..i] && pools[i] !in pools[i + 1..]
  {}

  // one pool's turn
  method CompactTurn(space: SlabPool.Space, pools: seq<SlabPool.Pool>, i: nat, ghost outs: seq<set<Slot>>,
                     ghost hids: seq<set<Slot>>, ghost vs: seq<PoolSpec.Pool>, ghost as0: seq<map<SlabId, SlabId>>)
    returns (reclaimed: nat, ghost hids': seq<set<Slot>>, ghost pairs: seq<(SlabId, SlabId)>)
    requires ArenaOk(space, pools, outs, hids) && i < |pools| == |vs| == |as0| && Waiting(pools[i..], vs[i..], as0[i..])
    modifies space`mem, space`remap, pools[i]
    ensures ArenaOk(space, pools, outs, hids')
    ensures AllRead(pools, old(space.remap), old(space.mem), space.remap, space.mem, outs)
    ensures Compacted(pools[i].c, vs[i], pools[i].view, as0[i], pools[i].alias, pairs, reclaimed)
    ensures Waiting(pools[i + 1..], vs[i + 1..], as0[i + 1..]) && pools[i] !in pools[..i]
  {
    WaitingNext(pools, vs, as0, i);
    NotAround(pools, i);
    if pools[i].c.run < 2 { return 0, hids, []; }
    reclaimed, hids', pairs := CompactAt(space, pools, i, outs, hids);
  }

  method CompactNext(space: SlabPool.Space, pools: seq<SlabPool.Pool>, i: nat, ghost outs: seq<set<Slot>>,
                     ghost hids: seq<set<Slot>>, ghost vs: seq<PoolSpec.Pool>, ghost as0: seq<map<SlabId, SlabId>>,
                     ghost picks: seq<seq<(SlabId, SlabId)>>, ghost gains: seq<nat>)
    returns (reclaimed: nat, ghost hids': seq<set<Slot>>, ghost pairs: seq<(SlabId, SlabId)>)
    requires ArenaOk(space, pools, outs, hids) && i < |pools| == |vs| == |as0| && Waiting(pools[i..], vs[i..], as0[i..])
    requires PassedOver(pools[..i], vs[..i], as0[..i], picks, gains)
    modifies space`mem, space`remap, pools[i]
    ensures ArenaOk(space, pools, outs, hids')
    ensures AllRead(pools, old(space.remap), old(space.mem), space.remap, space.mem, outs)
    ensures Waiting(pools[i + 1..], vs[i + 1..], as0[i + 1..])
    ensures PassedOver(pools[..i + 1], vs[..i + 1], as0[..i + 1], picks + [pairs], gains + [reclaimed])
  {
    ghost var ps := pools[..i];
    NotAround(pools, i);
    reclaimed, hids', pairs := CompactTurn(space, pools, i, outs, hids, vs, as0);
    assert forall k :: 0 <= k < |ps| ==> ps[k] != pools[i];
    assert PassedOver(ps, vs[..i], as0[..i], picks, gains);
    PassedNext(pools, vs, as0, picks, gains, i, pairs, reclaimed);
  }

  // the loop over the pools
  method CompactEach(space: SlabPool.Space, pools: seq<SlabPool.Pool>, ghost outs: seq<set<Slot>>,
                     ghost hids: seq<set<Slot>>, ghost vs: seq<PoolSpec.Pool>, ghost as0: seq<map<SlabId, SlabId>>)
    returns (reclaimed: nat, ghost hids': seq<set<Slot>>, ghost picks: seq<seq<(SlabId, SlabId)>>,
             ghost gains: seq<nat>)
    requires ArenaOk(space, pools, outs, hids) && |vs| == |as0| == |pools| && Waiting(pools[0..], vs[0..], as0[0..])
    modifies space`mem, space`remap, pools
    ensures ArenaOk(space, pools, outs, hids') && reclaimed == Total(gains)
    ensures AllRead(pools, old(space.remap), old(space.mem), space.remap, space.mem, outs)
    ensures var n := |pools|; PassedOver(pools[..n], vs[..n], as0[..n], picks, gains)
  {
    reclaimed, hids', picks, gains := 0, hids, [], [];
    var i := 0;
    while i < |pools|
      invariant i <= |pools| && ArenaOk(space, pools, outs, hids') && Waiting(pools[i..], vs[i..], as0[i..])
      invariant AllRead(pools, old(space.remap), old(space.mem), space.remap, space.mem, outs)
      invariant reclaimed == Total(gains) && PassedOver(pools[..i], vs[..i], as0[..i], picks, gains)
    {
      var freed: nat;
      ghost var pairs;
      ghost var remap, m := space.remap, space.mem;
      freed, hids', pairs := CompactNext(space, pools, i, outs, hids', vs, as0, picks, gains);
      AllReadTrans(pools, old(space.remap), old(space.mem), remap, m, space.remap, space.mem, outs);
      TotalSnoc(gains, freed);
      reclaimed, picks, gains := reclaimed + freed, picks + [pairs], gains + [freed];
      i := i + 1;
    }
  }

  /** btm_compact over all pools, whichever remaps fail: if no donor of the greedy
      pairs backs another slab, every slot in use or cached, in every pool, reads
      the same at its own address. Classes of one page a slab are skipped. */
  method CompactAll(space: SlabPool.Space, pools: seq<SlabPool.Pool>, ghost outs: seq<set<Slot>>,
                    ghost hids: seq<set<Slot>>)
    returns (reclaimed: nat, ghost hids': seq<set<Slot>>, ghost picks: seq<seq<(SlabId, SlabId)>>,
             ghost gains: seq<nat>)
    requires ArenaOk(space, pools, outs, hids) && forall p :: p in pools && p.c.run >= 2 ==> Safe(p)
    modifies space`mem, space`remap, pools
    ensures ArenaOk(space, pools, outs, hids')
    ensures AllRead(pools, old(space.remap), old(space.mem), space.remap, space.mem, outs)
    ensures |picks| == |gains| == |pools| && reclaimed == Total(gains)
    ensures forall k :: 0 <= k < |pools| ==>
              Compacted(pools[k].c, old(pools[k].view), pools[k].view, old(pools[k].alias), pools[k].alias, picks[k],
                        gains[k])
  {
    ghost var vs, as0 := Views(pools), Aliases(pools);
    reclaimed, hids', picks, gains := CompactEach(space, pools, outs, hids, vs, as0);
    assert pools[..|pools|] == pools && vs[..|pools|] == vs && as0[..|pools|] == as0;
  }

  // ---- malloc and free of a small object ----

  lemma KeptReads(p: SlabPool.Pool, m: Mem, users: set<Slot>, out: set<Slot>, hidden: set<Slot>)
    requires p.Valid(out, hidden) && users <= out && Kept(p.c, p.alias, m, p.space.mem, users)
    ensures SameReads(p.c, p.space.remap, m, p.space.remap, p.space.mem, users)
  {
    forall x | x in users ensures SlotReads(p.c, p.space.remap, m, p.space.remap, p.space.mem, x) {
      p.UsedMapped(out, hidden, x);
      assert SlotSame(p.c, m, p.space.mem, Backing(p.alias, x));
      SameIsCopied(p.c, m, p.space.mem, Backing(p.alias, x));
      CopiedReads(p.c, p.space.remap, m, p.alias, p.space.remap, p.space.mem, p.alias, x);
    }
  }

  // Slot x of pool i overlaps none of the slots `held`, in any pool.
  ghost predicate Alone(pools: seq<SlabPool.Pool>, i: nat, x: Slot, held: seq<set<Slot>>)
    requires i < |pools| == |held|
  {
    forall j, y :: 0 <= j < |pools| && y in held[j] ==> NoShare(pools[i].c, x, pools[j].c, y)
  }

  lemma NewAlone(space: SlabPool.Space, pools: seq<SlabPool.Pool>, i: nat, x: Slot, users: set<Slot>,
                 outs: seq<set<Slot>>, hids: seq<set<Slot>>)
    requires ArenaOk(space, pools, outs, hids) && i < |pools| && x in outs[i] && users <= outs[i] && x !in users
    ensures Alone(pools, i, x, outs[i := users])
  {
    pools[i].UsedMapped(outs[i], hids[i], x);
    forall j, y | 0 <= j < |pools| && y in outs[i := users][j] ensures NoShare(pools[i].c, x, pools[j].c, y) {
      pools[j].UsedMapped(outs[j], hids[j], y);
      if j == i { SlotsApart(pools[i].c, x, y); } else { ChunksNoShare(pools[i].c, x, pools[j].c, y); }
    }
  }

  // Pool i is offered a chunk that is no pool's.
  lemma StandBy(space: SlabPool.Space, pools: seq<SlabPool.Pool>, i: nat, outs: seq<set<Slot>>, hids: seq<set<Slot>>,
                got: Option<nat>, ls: set<nat>)
    requires ArenaOk(space, pools, outs, hids) && i < |pools| && Unclaimed(pools, got) && FreshOk(pools[i].view, got)
    requires ls == pools[i].view.live.Keys + (if got.Some? then {got.value} else {})
    ensures Bystanders(pools, i, space.mem, space.remap, space.epoch, outs, hids, ls)
    ensures forall k :: k in ls ==> k % CHUNK == 0
  {
    ChunksAligned(pools[i], outs[i], hids[i]);
  }

  // the bytes outside the pool's chunks, and the other pools
  method MallocAt(space: SlabPool.Space, pools: seq<SlabPool.Pool>, i: nat, bin: Bin, cap: nat, got: Option<nat>,
                  inc: Incoming, ghost slots: seq<Slot>, ghost users: set<Slot>, ghost outs: seq<set<Slot>>,
                  ghost hids: seq<set<Slot>>)
    returns (bin': Bin, p: nat, ghost x: Option<Slot>, ghost slots': seq<Slot>, ghost out: set<Slot>)
    requires ArenaOk(space, pools, outs, hids) && i < |pools| && bin.count <= cap
    requires pools[i].Offered(got, inc) && Unclaimed(pools, got)
    requires Served(pools[i].c, pools[i].alias, space.mem, pools[i].key, bin, slots, users, outs[i])
    modifies space`mem, pools[i]
    ensures ArenaOk(space, pools, outs[i := out], hids)
    ensures x.None? <==> slots == [] && RefillFails(pools[i].c, old(pools[i].view), got)
    ensures Returned(pools[i].c, p, x, users)
    ensures Served(pools[i].c, pools[i].alias, space.mem, pools[i].key, bin', slots', users + One(x), out)
    ensures (cap > 0 ==> bin'.count <= cap) && space.remap == old(space.remap) && pools[i].alias == old(pools[i].alias)
    ensures AllRead(pools, space.remap, old(space.mem), space.remap, space.mem, outs[i := users])
    ensures DrawnOut(old(space.mem), space.mem, old(pools[i].view), pools[i].view, got)
  {
    ghost var m, remap := space.mem, space.remap;
    ghost var ls := pools[i].view.live.Keys + (if got.Some? then {got.value} else {});
    StandBy(space, pools, i, outs, hids, got, ls);
    bin', p, x, slots', out := Malloc(pools[i], bin, cap, got, inc, slots, users, outs[i], hids[i]);
    BytesOutTrans(m, m, space.mem, {}, pools[i].view.live.Keys, ls);
    KeptReads(pools[i], m, users, out, hids[i]);
    Rejoin(space, pools, i, m, remap, outs, hids, ls, users, out, hids[i]);
    assert hids[i := hids[i]] == hids;
  }

  /** The small path of btm_malloc_at on one of the pools: the slot returned
      overlaps nothing in use in any pool, and everything in use in any pool, or
      cached by another thread, reads the same. */
  method MallocIn(space: SlabPool.Space, pools: seq<SlabPool.Pool>, i: nat, bin: Bin, cap: nat, got: Option<nat>,
                  inc: Incoming, ghost slots: seq<Slot>, ghost users: set<Slot>, ghost outs: seq<set<Slot>>,
                  ghost hids: seq<set<Slot>>)
    returns (bin': Bin, p: nat, ghost x: Option<Slot>, ghost slots': seq<Slot>, ghost outs': seq<set<Slot>>)
    requires ArenaOk(space, pools, outs, hids) && i < |pools| && bin.count <= cap
    requires FreshOk(pools[i].view, got) && Brings(space.mem, pools[i].descs, got, inc) && Unclaimed(pools, got)
    requires Served(pools[i].c, pools[i].alias, space.mem, pools[i].key, bin, slots, users, outs[i])
    modifies space`mem, pools[i]
    ensures |outs'| == |outs| && outs' == outs[i := outs'[i]] && ArenaOk(space, pools, outs', hids)
    ensures x.None? <==> slots == [] && RefillFails(pools[i].c, old(pools[i].view), got)
    ensures Returned(pools[i].c, p, x, users) && (x.Some? ==> Alone(pools, i, x.value, outs[i := users]))
    ensures Served(pools[i].c, pools[i].alias, space.mem, pools[i].key, bin', slots', users + One(x), outs'[i])
    ensures (cap > 0 ==> bin'.count <= cap) && space.remap == old(space.remap) && pools[i].alias == old(pools[i].alias)
    ensures AllRead(pools, space.remap, old(space.mem), space.remap, space.mem, outs[i := users])
    ensures DrawnOut(old(space.mem), space.mem, old(pools[i].view), pools[i].view, got)
  {
    if got.Some? { UnclaimedUnmapped(space, pools, outs, hids, got.value); }
    ghost var out;
    bin', p, x, slots', out := MallocAt(space, pools, i, bin, cap, got, inc, slots, users, outs, hids);
    outs' := outs[i := out];
    if x.Some? {
      NewAlone(space, pools, i, x.value, users, outs', hids);
      assert outs'[i := users] == outs[i := users];
    }
  }

  /** The small path of btm_free on one of the pools: everything else in use in any
      pool, or cached by another thread, reads the same. */
  method FreeIn(space: SlabPool.Space, pools: seq<SlabPool.Pool>, i: nat, bin: Bin, cap: nat, p: nat, ghost x: Slot,
                ghost slots: seq<Slot>, ghost users: set<Slot>, ghost outs: seq<set<Slot>>, ghost hids: seq<set<Slot>>)
    returns (bin': Bin, ghost slots': seq<Slot>, ghost outs': seq<set<Slot>>)
    requires ArenaOk(space, pools, outs, hids) && i < |pools| && x in users && p == Addr(pools[i].c, x)
    requires bin.count <= cap
    requires Served(pools[i].c, pools[i].alias, space.mem, pools[i].key, bin, slots, users, outs[i])
    modifies space`mem, pools[i]
    ensures |outs'| == |outs| && outs' == outs[i := outs'[i]] && ArenaOk(space, pools, outs', hids)
    ensures bin'.count <= cap
    ensures Given(pools[i].c, old(pools[i].view), [x] + slots, slots', pools[i].view)
    ensures |slots'| == if |slots| < cap then |slots| + 1 else cap / 2
    ensures Served(pools[i].c, pools[i].alias, space.mem, pools[i].key, bin', slots', users - {x}, outs'[i])
    ensures space.remap == old(space.remap) && pools[i].alias == old(pools[i].alias)
    ensures AllRead(pools, space.remap, old(space.mem), space.remap, space.mem, outs[i := users - {x}])
    ensures FreedOut(old(space.mem), space.mem, old(pools[i].view), pools[i].view)
  {
    ghost var m, remap, ks := space.mem, space.remap, pools[i].view.live.Keys;
    StandBy(space, pools, i, outs, hids, None, ks);
    ghost var out;
    bin', slots', out := Free(pools[i], bin, cap, p, x, slots, users, outs[i], hids[i]);
    KeptReads(pools[i], m, users - {x}, out, hids[i]);
    outs' := outs[i := out];
    Rejoin(space, pools, i, m, remap, outs, hids, ks, users - {x}, out, hids[i]);
    assert hids[i := hids[i]] == hids;
  }

  // ---- chunks of no pool ----

  /** While the pools mirror the allocator's, no two of them share a chunk, and the
      chunk any thread has obtained is no pool's. */
  lemma OwnedSeparate(s: A.State, ids: seq<A.PoolId>, pools: seq<SlabPool.Pool>)
    requires A.Inv(s) && NoDup(ids) && |ids| == |pools|
    requires forall i, j :: 0 <= i < j < |pools| ==> pools[i] != pools[j]
    requires forall i :: 0 <= i < |pools| ==> pools[i].view.live.Keys == A.Live(s, ids[i])
    ensures Separate(pools)
    ensures forall t :: C.HandOf(s.life, t).Carrying? ==> Unclaimed(pools, Some(C.HandOf(s.life, t).c))
  {
    forall i, j | 0 <= i < |pools| && 0 <= j < |pools| && i != j
      ensures pools[i].view.live.Keys !! pools[j].view.live.Keys
    {
      forall k | k in A.Live(s, ids[i]) && k in A.Live(s, ids[j]) ensures false {
        A.PoolsDistinct(s, ids[i], k, ids[j], k);
      }
    }
    forall t | C.HandOf(s.life, t).Carrying? ensures Unclaimed(pools, Some(C.HandOf(s.life, t).c)) {
      forall j | 0 <= j < |pools| ensures C.HandOf(s.life, t).c !in pools[j].view.live {
        A.CarriedIsFresh(s, ids[j], t);
      }
    }
  }

  // None of the chunks ks belongs to a pool.
  ghost predicate NoPools(pools: seq<SlabPool.Pool>, ks: set<nat>)
    reads pools`view
  {
    forall j :: 0 <= j < |pools| ==> ks !! pools[j].view.live.Keys
  }

  // All chunks of the pools are among ks.
  ghost predicate Within(pools: seq<SlabPool.Pool>, ks: set<nat>)
    reads pools`view
  {
    forall j :: 0 <= j < |pools| ==> pools[j].view.live.Keys <= ks
  }

  /** chunk_decommit, a mapping or an unmapping: whatever becomes of the bytes of
      chunks that are no pool's, every pool is as it was and everything in use reads
      the same. */
  method LoseChunks(space: SlabPool.Space, pools: seq<SlabPool.Pool>, m: Mem, ghost ks: set<nat>,
                    ghost outs: seq<set<Slot>>, ghost hids: seq<set<Slot>>)
    requires ArenaOk(space, pools, outs, hids) && NoPools(pools, ks) && forall k :: k in ks ==> k % CHUNK == 0
    requires BytesOut(space.mem, m, ks)
    modifies space`mem
    ensures ArenaOk(space, pools, outs, hids) && space.mem == m
    ensures AllRead(pools, space.remap, old(space.mem), space.remap, space.mem, outs)
  {
    ghost var m0, remap := space.mem, space.remap;
    space.mem := m;
    forall j | 0 <= j < |pools|
      ensures pools[j].Valid(outs[j], hids[j])
      ensures SameReads(pools[j].c, remap, m0, space.remap, space.mem, outs[j])
    {
      PoolElsewhere(pools[j], m0, remap, outs[j], hids[j], ks);
    }
  }

  // ---- tiering ----

  // The slabs evicted are those already evicted and the cold ones.
  ghost predicate Evicted(v: PoolSpec.Pool, hist: seq<Event>, was: map<SlabId, bool>, now: map<SlabId, bool>) {
    forall s :: Flag(now, s) <==> Flag(was, s) || Cold(v, hist, s)
  }

  // The pageout has ended in pool p, where the history was `hist` and the slabs `was` had been evicted;
  // `bytes` is the runs of those evicted now.
  ghost predicate PagedOut(p: SlabPool.Pool, hist: seq<Event>, was: map<SlabId, bool>, bytes: nat)
    reads p
  {
    && p.history == hist + [Advance] && Evicted(p.view, hist, was, p.descs.pagedOut)
    && bytes == |Evictions(p.view, hist, was)| * (p.c.run * PAGE)
  }

  ghost function Evictions(v: PoolSpec.Pool, hist: seq<Event>, was: map<SlabId, bool>): set<SlabId> {
    set s | s in v.slabs && Cold(v, hist, s) && !Flag(was, s)
  }

  // one pool's turn; its history then records the end of the pageout
  method PageoutOne(p: SlabPool.Pool, ghost m: Mem, ghost remap: map<nat, nat>, ghost e: nat, ghost out: set<Slot>,
                    ghost hidden: set<Slot>)
    returns (bytes: nat)
    requires p.ValidIn(m, remap, e, out, hidden) && m == p.space.mem && remap == p.space.remap && e == p.space.epoch
    modifies p`descs, p`history
    ensures p.ValidIn(m, remap, e + 1, out, hidden) && PagedOut(p, old(p.history), old(p.descs).pagedOut, bytes)
  {
    var evicted; ghost var visited;
    evicted, visited := PageoutCold(p, out, hidden);
    p.Tick(m, remap, e, out, hidden);
    bytes := evicted * (p.c.run * PAGE);
  }

  // Every pool is valid over this memory.
  ghost predicate AllIn(pools: seq<SlabPool.Pool>, m: Mem, remap: map<nat, nat>, e: nat, outs: seq<set<Slot>>,
                        hids: seq<set<Slot>>)
    reads pools
  {
    && |outs| == |pools| == |hids| && Separate(pools) && Tame(remap, pools)
    && forall i :: 0 <= i < |pools| ==> pools[i].ValidIn(m, remap, e, outs[i], hids[i])
  }

  lemma AllValid(space: SlabPool.Space, pools: seq<SlabPool.Pool>, m: Mem, remap: map<nat, nat>, e: nat,
                 outs: seq<set<Slot>>, hids: seq<set<Slot>>)
    requires m == space.mem && remap == space.remap && e == space.epoch && AllIn(pools, m, remap, e, outs, hids)
    requires forall i :: 0 <= i < |pools| ==> pools[i].space == space
    ensures ArenaOk(space, pools, outs, hids)
  {}

  method EndPageout(space: SlabPool.Space, pools: seq<SlabPool.Pool>, ghost m: Mem, ghost remap: map<nat, nat>,
                    ghost e: nat, ghost outs: seq<set<Slot>>, ghost hids: seq<set<Slot>>)
    requires AllIn(pools, m, remap, e + 1, outs, hids) && m == space.mem && remap == space.remap && e == space.epoch
    requires forall i :: 0 <= i < |pools| ==> pools[i].space == space
    modifies space`epoch
    ensures ArenaOk(space, pools, outs, hids) && space.epoch == e + 1
  {
    space.epoch := space.epoch + 1;
    AllValid(space, pools, m, remap, e + 1, outs, hids);
  }

  ghost function Histories(pools: seq<SlabPool.Pool>): (r: seq<seq<Event>>)
    reads pools`history
    ensures |r| == |pools| && forall k :: 0 <= k < |pools| ==> r[k] == pools[k].history
  {
    if pools == [] then [] else [pools[0].history] + Histories(pools[1..])
  }

  ghost function Paged(pools: seq<SlabPool.Pool>): (r: seq<map<SlabId, bool>>)
    reads pools`descs
    ensures |r| == |pools| && forall k :: 0 <= k < |pools| ==> r[k] == pools[k].descs.pagedOut
  {
    if pools == [] then [] else [pools[0].descs.pagedOut] + Paged(pools[1..])
  }

  // These pools have not had their turn.
  ghost predicate Due(pools: seq<SlabPool.Pool>, m: Mem, remap: map<nat, nat>, e: nat, outs: seq<set<Slot>>,
                      hids: seq<set<Slot>>, hs: seq<seq<Event>>, ws: seq<map<SlabId, bool>>)
    reads pools
  {
    && |outs| == |hids| == |hs| == |ws| == |pools|
    && forall k :: 0 <= k < |pools| ==> DueOne(pools[k], m, remap, e, outs[k], hids[k], hs[k], ws[k])
  }

  ghost predicate DueOne(p: SlabPool.Pool, m: Mem, remap: map<nat, nat>, e: nat, out: set<Slot>, hidden: set<Slot>,
                         hist: seq<Event>, was: map<SlabId, bool>)
    reads p
  {
    p.ValidIn(m, remap, e, out, hidden) && p.history == hist && p.descs.pagedOut == was
  }

  // These pools have had it.
  ghost predicate Swept(pools: seq<SlabPool.Pool>, m: Mem, remap: map<nat, nat>, e: nat, outs: seq<set<Slot>>,
                        hids: seq<set<Slot>>, hs: seq<seq<Event>>, ws: seq<map<SlabId, bool>>, parts: seq<nat>)
    reads pools
  {
    && |outs| == |hids| == |hs| == |ws| == |parts| == |pools|
    && forall k :: 0 <= k < |pools| ==> SweptOne(pools[k], m, remap, e, outs[k], hids[k], hs[k], ws[k], parts[k])
  }

  ghost predicate SweptOne(p: SlabPool.Pool, m: Mem, remap: map<nat, nat>, e: nat, out: set<Slot>, hidden: set<Slot>,
                           hist: seq<Event>, was: map<SlabId, bool>, bytes: nat)
    reads p
  {
    p.ValidIn(m, remap, e + 1, out, hidden) && PagedOut(p, hist, was, bytes)
  }

  lemma DueNext(pools: seq<SlabPool.Pool>, m: Mem, remap: map<nat, nat>, e: nat, outs: seq<set<Slot>>,
                hids: seq<set<Slot>>, hs: seq<seq<Event>>, ws: seq<map<SlabId, bool>>)
    requires pools != [] && Due(pools, m, remap, e, outs, hids, hs, ws)
    ensures DueOne(pools[0], m, remap, e, outs[0], hids[0], hs[0], ws[0])
    ensures Due(pools[1..], m, remap, e, outs[1..], hids[1..], hs[1..], ws[1..])
  {}

  lemma SweptNext(pools: seq<SlabPool.Pool>, m: Mem, remap: map<nat, nat>, e: nat, outs: seq<set<Slot>>,
                  hids: seq<set<Slot>>, hs: seq<seq<Event>>, ws: seq<map<SlabId, bool>>, parts: seq<nat>,
                  p: SlabPool.Pool, out: set<Slot>, hidden: set<Slot>, hist: seq<Event>, was: map<SlabId, bool>,
                  bytes: nat)
    requires Swept(pools, m, remap, e, outs, hids, hs, ws, parts)
    requires SweptOne(p, m, remap, e, out, hidden, hist, was, bytes)
    ensures Swept(pools + [p], m, remap, e, outs + [out], hids + [hidden], hs + [hist], ws + [was], parts + [bytes])
  {}

  lemma Tails<T>(s: seq<T>, i: nat)
    requires i < |s|
    ensures s[i..][0] == s[i] && s[i..][1..] == s[i + 1..] && s[..i] + [s[i]] == s[..i + 1]
  {}

  lemma SweptAll(pools: seq<SlabPool.Pool>, m: Mem, remap: map<nat, nat>, e: nat, outs: seq<set<Slot>>,
                 hids: seq<set<Slot>>, hs: seq<seq<Event>>, ws: seq<map<SlabId, bool>>, parts: seq<nat>)
    requires Separate(pools) && Tame(remap, pools) && Swept(pools, m, remap, e, outs, hids, hs, ws, parts)
    ensures AllIn(pools, m, remap, e + 1, outs, hids) && |parts| == |pools|
    ensures forall k :: 0 <= k < |pools| ==> PagedOut(pools[k], hs[k], ws[k], parts[k])
  {
    forall k | 0 <= k < |pools|
      ensures pools[k].ValidIn(m, remap, e + 1, outs[k], hids[k]) && PagedOut(pools[k], hs[k], ws[k], parts[k])
    {
      assert SweptOne(pools[k], m, remap, e, outs[k], hids[k], hs[k], ws[k], parts[k]);
    }
  }

  method PageoutTurn(space: SlabPool.Space, ghost pools: seq<SlabPool.Pool>, ghost i: nat, p: SlabPool.Pool,
                     ghost m: Mem, ghost remap: map<nat, nat>, ghost e: nat, ghost outs: seq<set<Slot>>,
                     ghost hids: seq<set<Slot>>, ghost hs: seq<seq<Event>>,
                     ghost ws: seq<map<SlabId, bool>>, ghost parts: seq<nat>)
    returns (bytes: nat)
    requires i < |pools| == |outs| == |hids| == |hs| == |ws| && Separate(pools) && p == pools[i]
    requires m == space.mem && remap == space.remap && e == space.epoch && p.space == space
    requires Due(pools[i..], m, remap, e, outs[i..], hids[i..], hs[i..], ws[i..])
    requires Swept(pools[..i], m, remap, e, outs[..i], hids[..i], hs[..i], ws[..i], parts)
    modifies p`descs, p`history
    ensures Due(pools[i + 1..], m, remap, e, outs[i + 1..], hids[i + 1..], hs[i + 1..], ws[i + 1..])
    ensures Swept(pools[..i + 1], m, remap, e, outs[..i + 1], hids[..i + 1], hs[..i + 1], ws[..i + 1], parts + [bytes])
  {
    Tails(pools, i);
    Tails(outs, i);
    Tails(hids, i);
    Tails(hs, i);
    Tails(ws, i);
    NotAround(pools, i);
    DueNext(pools[i..], m, remap, e, outs[i..], hids[i..], hs[i..], ws[i..]);
    ghost var before, after := pools[..i], pools[i + 1..];
    bytes := PageoutOne(p, m, remap, e, outs[i], hids[i]);
    assert Swept(before, m, remap, e, outs[..i], hids[..i], hs[..i], ws[..i], parts);
    assert Due(after, m, remap, e, outs[i + 1..], hids[i + 1..], hs[i + 1..], ws[i + 1..]);
    SweptNext(before, m, remap, e, outs[..i], hids[..i], hs[..i], ws[..i], parts, pools[i], outs[i], hids[i], hs[i],
              ws[i], bytes);
  }

  lemma AllDue(space: SlabPool.Space, pools: seq<SlabPool.Pool>, outs: seq<set<Slot>>, hids: seq<set<Slot>>)
    requires ArenaOk(space, pools, outs, hids)
    ensures Due(pools, space.mem, space.remap, space.epoch, outs, hids, Histories(pools), Paged(pools))
  {}

  method PageoutEach(space: SlabPool.Space, pools: seq<SlabPool.Pool>, ghost m: Mem, ghost remap: map<nat, nat>,
                     ghost e: nat, ghost outs: seq<set<Slot>>, ghost hids: seq<set<Slot>>, ghost hs: seq<seq<Event>>,
                     ghost ws: seq<map<SlabId, bool>>)
    returns (total: nat, ghost parts: seq<nat>)
    requires Separate(pools) && forall k :: 0 <= k < |pools| ==> pools[k].space == space
    requires m == space.mem && remap == space.remap && e == space.epoch
    requires Due(pools, m, remap, e, outs, hids, hs, ws)
    modifies pools`descs, pools`history
    ensures Swept(pools, m, remap, e, outs, hids, hs, ws, parts) && total == Total(parts)
  {
    total, parts := 0, [];
    var i := 0;
    Whole(pools);
    Whole(outs);
    Whole(hids);
    Whole(hs);
    Whole(ws);
    while i < |pools|
      invariant i <= |pools| && |parts| == i && total == Total(parts)
      invariant Due(pools[i..], m, remap, e, outs[i..], hids[i..], hs[i..], ws[i..])
      invariant Swept(pools[..i], m, remap, e, outs[..i], hids[..i], hs[..i], ws[..i], parts)
    {
      var bytes := PageoutTurn(space, pools, i, pools[i], m, remap, e, outs, hids, hs, ws, parts);
      TotalSnoc(parts, bytes);
      total, parts := total + bytes, parts + [bytes];
      i := i + 1;
    }
  }

  lemma Whole<T>(s: seq<T>)
    ensures s[0..] == s && s[..|s|] == s
  {}

  method PageoutPools(space: SlabPool.Space, pools: seq<SlabPool.Pool>, ghost m: Mem, ghost remap: map<nat, nat>,
                      ghost e: nat, ghost outs: seq<set<Slot>>, ghost hids: seq<set<Slot>>, ghost hs: seq<seq<Event>>,
                      ghost ws: seq<map<SlabId, bool>>)
    returns (total: nat, ghost parts: seq<nat>)
    requires Separate(pools) && Tame(remap, pools) && forall k :: 0 <= k < |pools| ==> pools[k].space == space
    requires m == space.mem && remap == space.remap && e == space.epoch
    requires Due(pools, m, remap, e, outs, hids, hs, ws)
    modifies pools`descs, pools`history
    ensures AllIn(pools, m, remap, e + 1, outs, hids) && |parts| == |pools| && total == Total(parts)
    ensures forall k :: 0 <= k < |pools| ==> PagedOut(pools[k], hs[k], ws[k], parts[k])
  {
    total, parts := PageoutEach(space, pools, m, remap, e, outs, hids, hs, ws);
    SweptAll(pools, m, remap, e, outs, hids, hs, ws, parts);
  }

  /** btm_pageout_cold over all pools: in each, the slabs newly evicted are exactly
      those with every slot in use that have not been touched since the previous
      pageout ended; then the epoch advances, once. The bytes returned are the runs of
      the slabs newly evicted. */
  method PageoutAll(space: SlabPool.Space, pools: seq<SlabPool.Pool>, ghost outs: seq<set<Slot>>,
                    ghost hids: seq<set<Slot>>)
    returns (total: nat, ghost parts: seq<nat>)
    requires ArenaOk(space, pools, outs, hids)
    modifies space`epoch, pools`descs, pools`history
    ensures ArenaOk(space, pools, outs, hids) && space.epoch == old(space.epoch) + 1
    ensures |parts| == |pools| && total == Total(parts)
    ensures forall i :: 0 <= i < |pools| ==>
              PagedOut(pools[i], old(pools[i].history), old(pools[i].descs).pagedOut, parts[i])
  {
    ghost var m, remap, e := space.mem, space.remap, space.epoch;
    ghost var hs, ws := Histories(pools), Paged(pools);
    AllDue(space, pools, outs, hids);
    total, parts := PageoutPools(space, pools, m, remap, e, outs, hids, hs, ws);
    EndPageout(space, pools, m, remap, e, outs, hids);
  }
}
