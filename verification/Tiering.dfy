/** Cold-data tiering: the walk over a pool's slabs, and what the epochs it
    compares say about the history of a slab. */
module Tiering {
  import opened Bits
  import opened Seqs
  import opened Geometry
  import opened PoolSpec
  import opened PoolRep
  import opened PoolSteps
  import opened Epochs
  import SlabPool
  import L = Links

  // ---- the walk ----

  // Full, not meshed away, not evicted already, and not touched in epoch g.
  predicate Settled(d: Descs, g: nat, paged: map<SlabId, bool>, s: SlabId) {
    Num(d.freeCount, s) == 0 && !Flag(d.retired, s) && !Flag(paged, s) && Num(d.epochOf, s) < g
  }

  ghost function SettledOf(d: Descs, g: nat, visited: seq<SlabId>): set<SlabId> {
    set s | s in visited && Settled(d, g, d.pagedOut, s)
  }

  /** The slabs visited so far, in order: each once, and evicted exactly if it was
      settled; every other slab is as before. */
  ghost predicate Walked(d: Descs, paged: map<SlabId, bool>, g: nat, visited: seq<SlabId>, evicted: nat) {
    && NoDup(visited) && evicted == |SettledOf(d, g, visited)|
    && (forall s :: s in visited ==> Flag(paged, s) == (Flag(d.pagedOut, s) || Settled(d, g, d.pagedOut, s)))
    && (forall s :: s !in visited ==> Flag(paged, s) == Flag(d.pagedOut, s))
  }

  lemma CountStep(d: Descs, g: nat, visited: seq<SlabId>, s: SlabId)
    requires s !in visited
    ensures |SettledOf(d, g, visited + [s])| == |SettledOf(d, g,
                                                           visited)| + (if Settled(d, g, d.pagedOut, s) then 1 else 0)
  {
    var a, b := SettledOf(d, g, visited), SettledOf(d, g, visited + [s]);
    if Settled(d, g, d.pagedOut, s) { assert b == a + {s}; } else { assert b == a; }
  }

  lemma WalkStep(d: Descs, paged: map<SlabId, bool>, g: nat, visited: seq<SlabId>, n: nat, s: SlabId)
    requires Walked(d, paged, g, visited, n) && s !in visited
    ensures Settled(d, g, paged, s) ==> Walked(d, paged[s := true], g, visited + [s], n + 1)
    ensures !Settled(d, g, paged, s) ==> Walked(d, paged, g, visited + [s], n)
  {
    CountStep(d, g, visited, s);
  }

  // The slabs of chunk k at the pages walked so far.
  ghost predicate ChunkWalked(c: SizeClass, k: nat, page: nat, before: seq<SlabId>, visited: seq<SlabId>)
    requires c.Valid()
  {
    && DATA_START <= page && (page - DATA_START) % c.run == 0
    && forall s :: s in visited <==>
         s in before || (s.chunk == k && DATA_START <= s.page < page && (s.page - DATA_START) % c.run == 0)
  }

  lemma NextRun(c: SizeClass, page: nat, p: nat)
    requires c.Valid() && DATA_START <= page && (page - DATA_START) % c.run == 0
    ensures (page + c.run - DATA_START) % c.run == 0
    ensures DATA_START <= p < page + c.run && (p - DATA_START) % c.run == 0 ==> p < page || p == page
  {
    ModUnique(page + c.run - DATA_START, c.run, (page - DATA_START) / c.run + 1, 0);
    if page < p < page + c.run && (p - DATA_START) % c.run == 0 {
      MultiplesApart(page - DATA_START, p - DATA_START, c.run);
    }
  }

  lemma ChunkStep(c: SizeClass, k: nat, page: nat, before: seq<SlabId>, visited: seq<SlabId>)
    requires c.Valid() && ChunkWalked(c, k, page, before, visited) && forall s :: s in before ==> s.chunk != k
    ensures SlabId(k, page) !in visited
    ensures ChunkWalked(c, k, page + c.run, before, visited + [SlabId(k, page)])
  {
    NextRun(c, page, page);
    forall s: SlabId ensures s in visited + [SlabId(k, page)] <==>
        s in before || (s.chunk == k && DATA_START <= s.page < page + c.run && (s.page - DATA_START) % c.run == 0)
    {
      NextRun(c, page, s.page);
    }
  }

  // the inner loop: one chunk
  method WalkChunk(c: SizeClass, d: Descs, paged: map<SlabId, bool>, k: nat, next: nat, g: nat, n: nat,
                   ghost before: seq<SlabId>)
    returns (paged': map<SlabId, bool>, n': nat, ghost visited: seq<SlabId>)
    requires c.Valid() && BumpOk(c.run, next) && Walked(d, paged, g, before, n)
    requires forall s :: s in before ==> s.chunk != k
    ensures Walked(d, paged', g, visited, n') && ChunkWalked(c, k, next, before, visited)
  {
    paged', n', visited := paged, n, before;
    var page := DATA_START;
    while page < next
      invariant page <= next && Walked(d, paged', g, visited, n') && ChunkWalked(c, k, page, before, visited)
    {
      var s := SlabId(k, page);
      ChunkStep(c, k, page, before, visited);
      WalkStep(d, paged', g, visited, n', s);
      if Settled(d, g, paged', s) {
        paged', n' := paged'[s := true], n' + 1;
      }
      visited := visited + [s];
      MultiplesApart(page - DATA_START, next - DATA_START, c.run);
      page := page + c.run;
    }
  }

  // The carved slabs of the first i chunks have been visited.
  ghost predicate ChunksWalked(c: SizeClass, v: Pool, i: nat, visited: seq<SlabId>)
    requires c.Valid()
  {
    i <= |v.chunks| && forall s :: s in visited <==> Carved(c.run, v.nextPage, s) && s.chunk in v.chunks[..i]
  }

  lemma CarvedBelow(c: SizeClass, next: nat, p: nat)
    requires c.Valid() && BumpOk(c.run, next)
    ensures (DATA_START <= p < next && (p - DATA_START) % c.run == 0) <==>
            (DATA_START <= p && p + c.run <= next && (p - DATA_START) % c.run == 0)
  {
    if DATA_START <= p < next && (p - DATA_START) % c.run == 0 { MultiplesApart(p - DATA_START, next - DATA_START,
                                                                                c.run); }
  }

  lemma ChunksStep(c: SizeClass, v: Pool, i: nat, before: seq<SlabId>, visited: seq<SlabId>)
    requires c.Valid() && ChunksWalked(c, v, i, before) && i < |v.chunks| && v.chunks[i] in v.nextPage
    requires BumpOk(c.run, v.nextPage[v.chunks[i]])
    requires ChunkWalked(c, v.chunks[i], v.nextPage[v.chunks[i]], before, visited)
    ensures ChunksWalked(c, v, i + 1, visited)
  {
    assert v.chunks[..i + 1] == v.chunks[..i] + [v.chunks[i]];
    forall s: SlabId ensures s in visited <==> Carved(c.run, v.nextPage, s) && s.chunk in v.chunks[..i + 1] {
      CarvedBelow(c, v.nextPage[v.chunks[i]], s.page);
    }
  }

  lemma ChunkNew(c: SizeClass, v: Pool, i: nat, before: seq<SlabId>)
    requires c.Valid() && ChunksWalked(c, v, i, before) && i < |v.chunks| && NoDup(v.chunks)
    ensures forall s :: s in before ==> s.chunk != v.chunks[i]
  {
    assert v.chunks[i] !in v.chunks[..i];
  }

  lemma ChunkKnown(c: SizeClass, h: Head, k: Headers, v: Pool, i: nat)
    requires c.Valid() && Shape(c, v) && ChunksOk(c, h, k, v) && i < |v.chunks|
    ensures var a := v.chunks[i];
            && a in v.nextPage && BumpOk(c.run, v.nextPage[a]) && a in k.nextPage && k.nextPage[a] == v.nextPage[a]
            && a in k.links && k.links[a].next == L.At(v.chunks, i + 1)
  {
    assert v.chunks[i] in v.chunks;
  }

  // the outer loop's body
  method WalkNext(c: SizeClass, d: Descs, k: Headers, a: nat, paged: map<SlabId, bool>, g: nat, n: nat,
                  ghost h: Head, ghost v: PoolSpec.Pool, ghost i: nat, ghost before: seq<SlabId>)
    returns (paged': map<SlabId, bool>, n': nat, next: Option<nat>, ghost visited: seq<SlabId>)
    requires c.Valid() && Shape(c, v) && ChunksOk(c, h, k, v) && i < |v.chunks| && a == v.chunks[i]
    requires ChunksWalked(c, v, i, before) && Walked(d, paged, g, before, n)
    ensures ChunksWalked(c, v, i + 1, visited) && Walked(d, paged', g, visited, n') && next == L.At(v.chunks, i + 1)
  {
    ChunkKnown(c, h, k, v, i);
    ChunkNew(c, v, i, before);
    paged', n', visited := WalkChunk(c, d, paged, a, k.nextPage[a], g, n, before);
    ChunksStep(c, v, i, before, visited);
    next := k.links[a].next;
  }

  /** btm_pageout_cold on one pool: every carved slab is visited exactly once, and
      evicted exactly if it was settled. */
  method Pageout(c: SizeClass, h: Head, d: Descs, k: Headers, g: nat, ghost v: PoolSpec.Pool)
    returns (paged: map<SlabId, bool>, evicted: nat, ghost visited: seq<SlabId>)
    requires c.Valid() && Shape(c, v) && ChunksOk(c, h, k, v)
    ensures forall s :: Flag(paged, s) == (Flag(d.pagedOut, s) || (s in v.slabs && Settled(d, g, d.pagedOut, s)))
    ensures evicted == |set s | s in v.slabs && Settled(d, g, d.pagedOut, s)|
    ensures NoDup(visited) && (forall s :: s in visited <==> s in v.slabs)
  {
    paged, evicted, visited := d.pagedOut, 0, [];
    var cur := h.chunks;
    ghost var i := 0;
    assert SettledOf(d, g, []) == {};
    while cur.Some?
      invariant cur == L.At(v.chunks, i) && ChunksWalked(c, v, i, visited) && Walked(d, paged, g, visited, evicted)
      decreases |v.chunks| - i
    {
      paged, evicted, cur, visited := WalkNext(c, d, k, cur.value, paged, g, evicted, h, v, i, visited);
      i := i + 1;
    }
    WalkDone(c, v, visited);
    WalkResult(d, paged, g, visited, evicted, v.slabs);
  }

  lemma WalkDone(c: SizeClass, v: Pool, visited: seq<SlabId>)
    requires c.Valid() && Shape(c, v) && ChunksWalked(c, v, |v.chunks|, visited)
    ensures forall s :: s in visited <==> s in v.slabs
  {
    assert v.chunks[..|v.chunks|] == v.chunks;
  }

  lemma WalkResult(d: Descs, paged: map<SlabId, bool>, g: nat, visited: seq<SlabId>, n: nat, slabs: map<SlabId, Slab>)
    requires Walked(d, paged, g, visited, n) && forall s :: s in visited <==> s in slabs
    ensures forall s :: Flag(paged, s) == (Flag(d.pagedOut, s) || (s in slabs && Settled(d, g, d.pagedOut, s)))
    ensures n == |set s | s in slabs && Settled(d, g, d.pagedOut, s)|
  {
    assert SettledOf(d, g, visited) == set s | s in slabs && Settled(d, g, d.pagedOut, s);
  }

  // Every slot of slab s is in use, the slab has not been meshed away, and a pageout
  // has ended since it was last touched.
  ghost predicate Cold(v: Pool, hist: seq<Event>, s: SlabId) {
    s in v.slabs && v.slabs[s].free == [] && !v.slabs[s].retired && IdleAcross(hist, s)
  }

  lemma SettledCold(d: Descs, v: Pool, hist: seq<Event>, e: nat, s: SlabId)
    requires CountsRep(d.freeCount, d.retired, v.slabs) && HistOk(d, v, hist, e) && s in v.slabs
    ensures Settled(d, e, d.pagedOut, s) <==> Cold(v, hist, s) && !Flag(d.pagedOut, s)
  {
    BehindIffIdle(hist, s);
  }

  /** btm_pageout_cold on one pool: every carved slab is visited exactly once, and
      the slabs evicted are exactly the cold ones that were not evicted already. */
  method PageoutCold(pool: SlabPool.Pool, ghost out: set<Slot>, ghost hidden: set<Slot>)
    returns (evicted: nat, ghost visited: seq<SlabId>)
    requires pool.Valid(out, hidden)
    modifies pool`descs
    ensures pool.Valid(out, hidden)
    ensures forall s :: Flag(pool.descs.pagedOut, s) <==>
              Flag(old(pool.descs).pagedOut, s) || Cold(pool.view, pool.history, s)
    ensures evicted == |set s | s in pool.view.slabs && Cold(pool.view, pool.history, s)
                        && !Flag(old(pool.descs).pagedOut, s)|
    ensures NoDup(visited) && (forall s :: s in visited <==> s in pool.view.slabs)
  {
    pool.Open(out, hidden);
    var paged;
    paged, evicted, visited := Pageout(pool.c, pool.head, pool.descs, pool.hdrs, pool.space.epoch, pool.view);
    AllSettledCold(pool.descs, paged, evicted, pool.view, pool.history, pool.space.epoch);
    pool.SetPaged(paged, out, hidden);
  }

  lemma AllSettledCold(d: Descs, paged: map<SlabId, bool>, n: nat, v: Pool, hist: seq<Event>, e: nat)
    requires CountsRep(d.freeCount, d.retired, v.slabs) && HistOk(d, v, hist, e)
    requires forall s :: Flag(paged, s) == (Flag(d.pagedOut, s) || (s in v.slabs && Settled(d, e, d.pagedOut, s)))
    requires n == |set s | s in v.slabs && Settled(d, e, d.pagedOut, s)|
    ensures forall s :: Flag(paged, s) <==> Flag(d.pagedOut, s) || Cold(v, hist, s)
    ensures n == |set s | s in v.slabs && Cold(v, hist, s) && !Flag(d.pagedOut, s)|
  {
    forall s | s in v.slabs ensures Settled(d, e, d.pagedOut, s) <==> Cold(v, hist, s) && !Flag(d.pagedOut, s) {
      SettledCold(d, v, hist, e, s);
    }
    assert (set s | s in v.slabs && Settled(d, e, d.pagedOut, s)) ==
           set s | s in v.slabs && Cold(v, hist, s) && !Flag(d.pagedOut, s);
  }
}
