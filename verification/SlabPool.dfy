/** The pool's structures as the allocator updates them: linked slab and chunk
    lists, descriptor fields, and freelists threaded through the slots' bytes.
    Every method is proved against the pool as a value, and says which bytes it
    leaves alone. */
module SlabPool {
  import opened Bits
  import opened Seqs
  import opened Memory
  import opened Geometry
  import opened PoolSpec
  import opened PoolProofs
  import opened Aliasing
  import opened SlotChains
  import opened PoolRep
  import opened PoolSteps
  import opened Epochs
  import L = Links

  // page_owner entries of one run
  method OwnRun(owner: seq<nat>, page: nat, run: nat) returns (owner': seq<nat>)
    requires |owner| == PAGES && page + run <= PAGES
    ensures |owner'| == PAGES
    ensures forall p: nat :: p < PAGES ==> owner'[p] == if page <= p < page + run then page else owner[p]
  {
    owner' := owner;
    var p := page;
    while p < page + run
      invariant page <= p <= page + run && |owner'| == PAGES
      invariant forall q: nat :: q < PAGES ==> owner'[q] == if page <= q < p then page else owner[q]
    {
      owner' := owner'[p := page];
      p := p + 1;
    }
  }

  // slab_format: the freelist, the descriptor's fields and the chunk's count of live slabs
  method FormatFields(c: SizeClass, key: nat, m: Mem, remap: map<nat, nat>, e: nat, h: Head, d: Descs, k: Headers,
                      s: SlabId, ghost v: PoolSpec.Pool, ghost alias: map<SlabId, SlabId>, ghost hist: seq<Event>)
    returns (m': Mem, d': Descs, k': Headers)
    requires RepOf(c, key, m, remap, e, h, d, k, v, alias, hist)
    requires SlabOk(c, s) && s !in v.slabs && s.chunk in v.live && s !in v.partial && s !in v.cold
    ensures RepOf(c, key, m', remap, e, h, d', k', Format(c, v, s), alias, hist + [Touch(s)])
    ensures Only(c, m, m', SlotSet(s, c.slots))
  {
    var first: nat;
    assert SlabMapped(c, remap, alias, s);
    m', first := FormatSlots(c, key, remap, m, s, alias);
    FormatStored(c, key, m, m', remap, e, h, d, k, v, alias, hist, s, first);
    d' := FormatDescs(c, d, s, first, e);
    k' := k.(live := k.live[s.chunk := k.live[s.chunk] + 1]);
  }

  // refill's locked loop, on the head slab's freelist and descriptor
  method TakeFields(c: SizeClass, key: nat, m: Mem, remap: map<nat, nat>, e: nat, h: Head, d: Descs, ghost k: Headers,
                    s: SlabId,
                    want: nat, ghost v: PoolSpec.Pool, ghost alias: map<SlabId, SlabId>, ghost hist: seq<Event>)
    returns (m': Mem, d': Descs, local: nat, n: nat)
    requires RepOf(c, key, m, remap, e, h, d, k, v, alias, hist) && Active(v.slabs, v.warm, v.cold, s)
    requires SlabOk(c, s) && s.chunk in v.live
    ensures n == Grabbed(v.slabs[s].free, want) && Num(d'.freeCount, s) == |v.slabs[s].free| - n
    ensures RepOf(c, key, m', remap, e, h.(outstanding := h.outstanding + n), d', k, Shortened(v, s, n), alias,
                  hist + [Touch(s)])
    ensures ChainOf(c, alias, m', key, local, BatchOf(s, v.slabs[s].free, want))
    ensures Only(c, m, m', Elems(BatchOf(s, v.slabs[s].free, want)))
  {
    assert ChainRep(c, alias, key, m, d.freeHead, v.slabs, s);
    FreeMapped(c, remap, alias, v.live, s, v.slabs[s].free);
    var first: nat;
    m', first, local, n := PopBatch(c, key, remap, m, Num(d.freeHead, s), want, alias, SlotsAt(s, v.slabs[s].free));
    TakeStored(c, key, m, m', remap, e, h, d, k, v, alias, hist, s, first, local, n);
    ReverseSet(SlotsAt(s, v.slabs[s].free[..n]));
    d' := TakeDescs(d, s, first, n, e);
  }

  lemma FreeMapped(c: SizeClass, remap: map<nat, nat>, alias: map<SlabId, SlabId>, live: map<nat, nat>, s: SlabId,
                   f: seq<nat>)
    requires Mapped(c, remap, alias, live) && s.chunk in live && OkSlots(c, alias, SlotsAt(s, f))
    ensures SlotsMapped(c, remap, alias, SlotsAt(s, f))
  {
    var xs := SlotsAt(s, f);
    forall i | 0 <= i < |xs| ensures SlotMapped(c, remap, alias, xs[i]) {
      assert PlacedOk(c, alias, xs[i]);
      MappedSlot(c, remap, alias, live, xs[i]);
    }
  }

  // chunk_of and btm_slab_of
  method HomeSlab(c: SizeClass, k: Headers, p: nat, ghost nextPage: map<nat, nat>, ghost x: Slot) returns (s: SlabId)
    requires OwnersRep(c, k.owner, nextPage) && SlotOk(c, x) && p == Addr(c, x)
    requires x.slab.chunk in nextPage && x.slab.page + c.run <= nextPage[x.slab.chunk]
    ensures s == x.slab
  {
    HomeOfSlot(c, k.owner[x.slab.chunk], nextPage[x.slab.chunk], x, 0);
    s := SlabOf(k.owner[ChunkOf(p)], ChunkOf(p), p);
  }

  // pushing slot p back on the freelist of its slab
  method ReturnFields(c: SizeClass, key: nat, m: Mem, remap: map<nat, nat>, e: nat, h: Head, d: Descs,
                      ghost k: Headers, s: SlabId,
                      p: nat, ghost v: PoolSpec.Pool, ghost alias: map<SlabId, SlabId>, ghost hist: seq<Event>,
                      ghost x: Slot)
    returns (m': Mem, h': Head, d': Descs)
    requires RepOf(c, key, m, remap, e, h, d, k, v, alias, hist)
    requires FreePlan(c, v, alias, x) && p == Addr(c, x) && s == x.slab
    ensures RepOf(c, key, m', remap, e, h', d', k, Return(v, x), alias, hist + [Touch(x.slab)])
    ensures Only(c, m, m', {Backing(alias, x)})
  {
    ReturnStored(c, key, m, remap, e, h, d, k, v, alias, hist, x);
    MappedSlot(c, remap, alias, v.live, x);
    TrSlot(c, remap, alias, x);
    m' := SetLink(m, key, Tr(remap, p), p, Num(d.freeHead, s));
    h' := h.(outstanding := if h.outstanding > 0 then h.outstanding - 1 else 0);
    d' := ReturnDescs(d, s, p, e);
  }

  // Mentioning Shown(u, m, out) opens the invariant of a pool over memory m; proofs
  // that only pass it on do without its clauses.
  ghost predicate Shown(u: nat, m: Mem, out: set<Slot>) { true }

  /** What every pool shares: the process's memory, the pages that meshing has
      remapped, and the tiering epoch. */
  class Space {
    var mem: Mem
    var remap: map<nat, nat>
    var epoch: nat                 // btm_tier_epoch

    constructor ()
      ensures mem == map[] && remap == map[] && epoch == 0
    {
      mem, remap, epoch := map[], map[], 0;
    }
  }

  class Pool {
    const c: SizeClass
    const key: nat
    const space: Space
    var head: Head
    var descs: Descs
    var hdrs: Headers

    ghost var view: PoolSpec.Pool
    ghost var alias: map<SlabId, SlabId>
    ghost var history: seq<Event>  // slab_touch calls and epoch advances so far

    ghost predicate Rep()
      reads this, space
    {
      RepOf(c, key, space.mem, space.remap, space.epoch, head, descs, hdrs, view, alias, history)
    }

    /** Over this memory the structures represent the pool, whose slots `out` are in
        use or cached and whose slots `hidden` back slots of meshed slabs. */
    ghost predicate HoldsIn(m: Mem, remap: map<nat, nat>, e: nat, out: set<Slot>, hidden: set<Slot>)
      reads this
    {
      && RepOf(c, key, m, remap, e, head, descs, hdrs, view, alias, history)
      && PoolInv(c, view, out, hidden) && AliasOk(view, out, hidden, alias)
    }

    ghost predicate ValidIn(m: Mem, remap: map<nat, nat>, e: nat, out: set<Slot>, hidden: set<Slot>)
      reads this
    {
      forall u: nat {:trigger Shown(u, m, out)} :: Shown(u, m, out) ==> HoldsIn(m, remap, e, out, hidden)
    }

    ghost predicate Valid(out: set<Slot>, hidden: set<Slot>)
      reads this, space
    {
      ValidIn(space.mem, space.remap, space.epoch, out, hidden)
    }

    lemma Open(out: set<Slot>, hidden: set<Slot>)
      requires Valid(out, hidden)
      ensures Rep() && PoolInv(c, view, out, hidden) && AliasOk(view, out, hidden, alias)
    {
      assert Shown(0, space.mem, out);
    }

    // A slot in use is mapped as its slab says.
    lemma UsedMapped(out: set<Slot>, hidden: set<Slot>, x: Slot)
      requires Valid(out, hidden) && x in out
      ensures SlotOk(c, x) && x.slab.chunk in view.live && SlotMapped(c, space.remap, alias, x) && PlacedOk(c, alias, x)
      ensures key < WORD
    {
      Open(out, hidden);
      OutMapped(c, space.remap, view, out, hidden, alias, x);
      BackingHeld(c, view, out, hidden, alias, x);
    }

    lemma UsedApart(out: set<Slot>, hidden: set<Slot>, x: Slot, xs: seq<Slot>)
      requires Valid(out, hidden) && x in out && Elems(xs) <= out && x !in xs
      ensures Elsewhere(alias, x, xs)
    {
      Open(out, hidden);
      UsedElsewhere(c, view, out, hidden, alias, xs, x);
    }

    // The slots b in use have been written to.
    lemma Wrote(m: Mem, b: seq<Slot>, keep: set<Slot>, out: set<Slot>, hidden: set<Slot>)
      requires Valid(out, hidden) && Elems(b) <= out && keep <= out - Elems(b)
      requires Only(c, m, space.mem, Backings(alias, b))
      ensures Kept(c, alias, m, space.mem, keep) && BytesOut(m, space.mem, view.live.Keys)
    {
      Open(out, hidden);
      UsedWriteKeeps(c, m, space.mem, view, out, hidden, alias, b, keep);
      UsedWriteOut(c, m, space.mem, view, out, hidden, alias, b);
    }

    // Chunk `got` can be mapped, with whatever bytes and descriptors `inc` shows.
    ghost predicate Offered(got: Option<nat>, inc: Incoming)
      reads this, space
    {
      FreshOk(view, got) && Arrives(space.mem, space.remap, descs, got, inc)
    }

    constructor (c: SizeClass, key: nat, space: Space)
      requires c.Valid() && key < WORD && space.epoch == 0
      ensures Valid({}, {}) && view == EMPTY && alias == map[] && history == []
      ensures this.c == c && this.key == key && this.space == space
    {
      this.c, this.key, this.space := c, key, space;
      head := Head(None, None, None, 0, None, None, 0, 0);
      descs := Descs(map[], map[], map[], map[], map[], map[], map[], map[]);
      hdrs := Headers(map[], map[], map[], map[]);
      view, alias, history := EMPTY, map[], [];
      new;
      EmptyInv(c);
    }

    // the fields a mesh changes
    method Install(m: Mem, pages: map<nat, nat>, d: Descs, ghost v: PoolSpec.Pool, ghost a: map<SlabId, SlabId>)
      requires RepOf(c, key, m, pages, space.epoch, head, d, hdrs, v, a, history)
      modifies space`mem, space`remap, `descs, `view, `alias
      ensures Rep() && space.mem == m && space.remap == pages && view == v && alias == a
    {
      space.mem, space.remap, descs, view, alias := m, pages, d, v, a;
    }

    // the fields the other operations change
    method Update(m: Mem, h: Head, d: Descs, k: Headers, ghost v: PoolSpec.Pool, ghost hist: seq<Event>)
      requires RepOf(c, key, m, space.remap, space.epoch, h, d, k, v, alias, hist)
      modifies space`mem, `head, `descs, `hdrs, `view, `history
      ensures Rep() && space.mem == m && head == h && descs == d && hdrs == k && view == v && history == hist
    {
      space.mem, head, descs, hdrs, view, history := m, h, d, k, v, hist;
    }

    // ... without touching memory
    method Relist(h: Head, d: Descs, k: Headers, ghost v: PoolSpec.Pool)
      requires RepOf(c, key, space.mem, space.remap, space.epoch, h, d, k, v, alias, history)
      modifies `head, `descs, `hdrs, `view
      ensures Rep() && head == h && descs == d && hdrs == k && view == v
    {
      head, descs, hdrs, view := h, d, k, v;
    }

    // the end of a pageout, as this pool's history records it
    ghost method Tick(m: Mem, remap: map<nat, nat>, e: nat, out: set<Slot>, hidden: set<Slot>)
      requires ValidIn(m, remap, e, out, hidden)
      modifies `history
      ensures ValidIn(m, remap, e + 1, out, hidden) && history == old(history) + [Advance]
    {
      assert Shown(0, m, out);
      HistAdvance(descs, view, history, e);
      history := history + [Advance];
    }

    // the field a pageout changes
    method SetPaged(paged: map<SlabId, bool>, ghost out: set<Slot>, ghost hidden: set<Slot>)
      requires Valid(out, hidden)
      modifies `descs
      ensures Valid(out, hidden) && descs == old(descs).(pagedOut := paged)
    {
      Open(out, hidden);
      ListsFrame(head, head, descs, descs.(pagedOut := paged), view, view);
      SlabsFrame(c, key, space.mem, descs, descs.(pagedOut := paged), view, view, alias);
      HistFrame(descs, descs.(pagedOut := paged), view, view, history, space.epoch);
      descs := descs.(pagedOut := paged);
    }

    // ---- partial list ----

    method PushPartial(s: SlabId)
      requires Rep() && s !in view.partial && s !in view.warm && s !in view.cold
      modifies `head, `descs, `hdrs, `view
      ensures Rep() && view == Push(old(view), s)
    {
      PushPartialStored(c, key, space.mem, space.remap, space.epoch, head, descs, hdrs, view, alias, history, s);
      Relist(head.(partial := Some(s)),
             descs.(links := L.PushD(descs.links, head.partial, s), inPartial := descs.inPartial[s := true]), hdrs,
             Push(view, s));
    }

    method RemovePartial(s: SlabId)
      requires Rep() && s in view.partial
      modifies `head, `descs, `hdrs, `view
      ensures Rep() && view == OffPartial(old(view), s) && s in descs.links && unchanged(`hdrs)
    {
      RemovePartialStored(c, key, space.mem, space.remap, space.epoch, head, descs, hdrs, view, alias, history, s);
      Relist(head.(partial := L.HeadAfter(descs.links, head.partial, s)),
             descs.(links := L.RemoveD(descs.links, s), inPartial := descs.inPartial[s := false]), hdrs,
             OffPartial(view, s));
    }

    // ---- a new slab ----

    method PopWarm() returns (s: SlabId)
      requires Rep() && view.warm != [] && view.warm[0] !in alias
      modifies `head, `descs, `hdrs, `view
      ensures Rep() && s == old(view).warm[0] && view == TakenWarm(old(view))
    {
      PopWarmStored(c, key, space.mem, space.remap, space.epoch, head, descs, hdrs, view, alias, history);
      s := head.warm.value;
      Relist(head.(warm := descs.links[s].next, warmCount := head.warmCount - 1), descs, hdrs, TakenWarm(view));
    }

    method PopCold() returns (s: SlabId)
      requires Rep() && view.cold != [] && view.cold[0] !in alias
      modifies `head, `descs, `hdrs, `view
      ensures Rep() && s == old(view).cold[0] && view == TakenCold(old(view))
    {
      PopColdStored(c, key, space.mem, space.remap, space.epoch, head, descs, hdrs, view, alias, history);
      s := head.cold.value;
      Relist(head.(cold := descs.links[s].next), descs, hdrs, TakenCold(view));
    }

    // slab_format, and the chunk's count of live slabs
    method FormatSlab(s: SlabId)
      requires Rep() && SlabOk(c, s) && s !in view.slabs && s.chunk in view.live
      requires s !in view.partial && s !in view.cold
      modifies space`mem, `head, `descs, `hdrs, `view, `history
      ensures Rep() && view == Format(c, old(view), s) && Only(c, old(space.mem), space.mem, SlotSet(s, c.slots))
      ensures history == old(history) + [Touch(s)]
    {
      var m, d, k := FormatFields(c, key, space.mem, space.remap, space.epoch, head, descs, hdrs, s, view, alias,
                                  history);
      Update(m, head, d, k, Format(c, view, s), history + [Touch(s)]);
    }

    // the bump pointer and page_owner
    method Bump(k: nat) returns (s: SlabId)
      requires Rep() && k in view.nextPage && view.nextPage[k] + c.run <= PAGES
      modifies `head, `descs, `hdrs, `view
      ensures Rep() && s == NextSlab(old(view), k) && view == Bumped(c, old(view), k)
    {
      var page := hdrs.nextPage[k];
      var own := OwnRun(hdrs.owner[k], page, c.run);
      BumpStored(c, key, space.mem, space.remap, space.epoch, head, descs, hdrs, view, alias, history, k, own);
      s := SlabId(k, page);
      Relist(head.(nslabs := head.nslabs + 1), descs,
             hdrs.(nextPage := hdrs.nextPage[k := page + c.run], owner := hdrs.owner[k := own]), Bumped(c, view, k));
    }

    // A mapped chunk joins the pool; its pages hold what they hold.
    method LinkChunk(k: nat, inc: Incoming)
      requires Rep() && NewTo(view, k) && Arrives(space.mem, space.remap, descs, Some(k), inc)
      modifies space`mem, `head, `descs, `hdrs, `view, `history
      ensures Rep() && view == AddChunk(old(view), k) && space.mem == inc.mem && unchanged(`history)
    {
      LinkStored(c, key, space.mem, inc.mem, space.remap, space.epoch, head, descs, inc.descs, hdrs, view, alias,
                 history, k);
      Update(inc.mem, head.(chunks := Some(k), active := Some(k)), inc.descs,
             Headers(L.PushD(hdrs.links, head.chunks, k), hdrs.nextPage[k := DATA_START], hdrs.live[k := 0],
                     hdrs.owner[k := UNOWNED]),
             AddChunk(view, k), history);
    }

    // btm_slab_new, recycling an empty slab
    method RecycleWarm() returns (s: SlabId)
      requires Rep() && view.warm != [] && view.warm[0] !in alias && Detached(c, TakenWarm(view), view.warm[0])
      modifies space`mem, `head, `descs, `hdrs, `view, `history
      ensures Rep() && s == old(view).warm[0] && view == Format(c, TakenWarm(old(view)), s)
      ensures Only(c, old(space.mem), space.mem, SlotSet(s, c.slots)) && history == old(history) + [Touch(s)]
    {
      s := PopWarm();
      FormatSlab(s);
    }

    method RecycleCold() returns (s: SlabId)
      requires Rep() && view.cold != [] && view.cold[0] !in alias && Detached(c, TakenCold(view), view.cold[0])
      modifies space`mem, `head, `descs, `hdrs, `view, `history
      ensures Rep() && s == old(view).cold[0] && view == Format(c, TakenCold(old(view)), s)
      ensures Only(c, old(space.mem), space.mem, SlotSet(s, c.slots)) && history == old(history) + [Touch(s)]
    {
      s := PopCold();
      FormatSlab(s);
    }

    // btm_slab_new, carving the next run of a chunk
    method CarveNext(k: nat) returns (s: SlabId)
      requires Rep() && CanCut(c, view, k)
      modifies space`mem, `head, `descs, `hdrs, `view, `history
      ensures Rep() && s == NextSlab(old(view), k) && view == Carve(c, old(view), k)
      ensures Only(c, old(space.mem), space.mem, SlotSet(s, c.slots)) && history == old(history) + [Touch(s)]
    {
      s := Bump(k);
      FormatSlab(s);
    }

    // ... of the active chunk, or of the chunk `got` if that one is used up
    method CarveSlab(got: Option<nat>, inc: Incoming) returns (s: Option<SlabId>)
      requires Rep() && view.warm == [] && view.cold == [] && NewPlan(c, view, got, alias)
      requires Arrives(space.mem, space.remap, descs, got, inc)
      modifies space`mem, `head, `descs, `hdrs, `view, `history
      ensures Rep() && NewSlab(c, old(view), got, view, s)
      ensures Made(c, old(view), got, inc, s, old(space.mem), space.mem, old(history), history)
    {
      var t: SlabId;
      if head.active.Some? && hdrs.nextPage[head.active.value] + c.run <= PAGES {
        t := CarveNext(head.active.value);
      } else if got.None? {
        return None;
      } else {
        LinkChunk(got.value, inc);
        t := CarveNext(got.value);
      }
      return Some(t);
    }

    /** btm_slab_new: recycle an empty slab, else carve one, obtaining a chunk if
        the active one is used up. */
    method SlabNew(got: Option<nat>, inc: Incoming) returns (s: Option<SlabId>)
      requires Rep() && NewPlan(c, view, got, alias) && Arrives(space.mem, space.remap, descs, got, inc)
      modifies space`mem, `head, `descs, `hdrs, `view, `history
      ensures Rep() && NewSlab(c, old(view), got, view, s)
      ensures Made(c, old(view), got, inc, s, old(space.mem), space.mem, old(history), history)
    {
      Reformatted(c, view, got);
      if head.warm.Some? {
        var t := RecycleWarm();
        return Some(t);
      } else if head.cold.Some? {
        var t := RecycleCold();
        return Some(t);
      }
      s := CarveSlab(got, inc);
    }

    // ---- refill ----

    // the locked loop, and the head slab's bookkeeping
    method TakeSlots(s: SlabId, want: nat) returns (local: nat, n: nat)
      requires Rep() && Active(view.slabs, view.warm, view.cold, s) && SlabOk(c, s) && s.chunk in view.live
      modifies space`mem, `head, `descs, `hdrs, `view, `history
      ensures Rep() && n == Grabbed(old(view).slabs[s].free, want) && view == Shortened(old(view), s, n)
      ensures ChainOf(c, alias, space.mem, key, local, BatchOf(s, old(view).slabs[s].free, want))
      ensures Only(c, old(space.mem), space.mem, Elems(BatchOf(s, old(view).slabs[s].free, want)))
      ensures history == old(history) + [Touch(s)]
    {
      var m, d: Descs;
      m, d, local, n := TakeFields(c, key, space.mem, space.remap, space.epoch, head, descs, hdrs, s, want, view,
                                   alias, history);
      Update(m, head.(outstanding := head.outstanding + n), d, hdrs, Shortened(view, s, n), history + [Touch(s)]);
    }

    // a slab with nothing left leaves the partial list
    method DropTaken(s: SlabId)
      requires Rep() && s in view.partial && Active(view.slabs, view.warm, view.cold, s)
      modifies `head, `descs, `hdrs, `view
      ensures Rep() && view == if old(view).slabs[s].free == [] then OffPartial(old(view), s) else old(view)
    {
      if Num(descs.freeCount, s) == 0 { RemovePartial(s); }
    }

    lemma PartialHead()
      requires Rep() && view.partial != []
      ensures head.partial == Some(view.partial[0]) && NoDup(view.partial)
    {}

    method TakeBatch(want: nat) returns (local: nat, n: nat, ghost batch: seq<Slot>)
      requires Rep() && TakeReady(c, view)
      modifies space`mem, `head, `descs, `hdrs, `view, `history
      ensures Rep() && Taken(view, batch) == Take(old(view), want)
      ensures ChainOf(c, alias, space.mem, key, local, batch) && n == |batch|
      ensures Only(c, old(space.mem), space.mem, Elems(batch))
      ensures history == old(history) + [Touch(old(view).partial[0])]
    {
      PartialHead();
      var s := head.partial.value;
      ghost var v := view;
      batch := BatchOf(s, v.slabs[s].free, want);
      local, n := TakeSlots(s, want);
      TakeEnds(c, v, view, want, n);
      DropTaken(s);
    }

    // a new slab at the head of the partial list
    method NewPartial(got: Option<nat>, inc: Incoming) returns (s: Option<SlabId>)
      requires Rep() && NewPlan(c, view, got, alias) && view.partial == []
      requires Arrives(space.mem, space.remap, descs, got, inc)
      modifies space`mem, `head, `descs, `hdrs, `view, `history
      ensures Rep() && Headed(c, old(view), got, inc, s, view, old(space.mem), space.mem, old(history), history)
    {
      s := SlabNew(got, inc);
      MadeReady(c, old(view), got, alias, view, s);
      if s.Some? { PushPartial(s.value); }
    }

    // ... from which the batch is then taken
    method RefillMade(want: nat, got: Option<nat>, inc: Incoming, s: SlabId, ghost v: PoolSpec.Pool, ghost m: Mem,
                      ghost hist: seq<Event>)
      returns (local: nat, n: nat, ghost batch: seq<Slot>)
      requires Rep() && Headed(c, v, got, inc, Some(s), view, m, space.mem, hist, history)
      modifies space`mem, `head, `descs, `hdrs, `view, `history
      ensures Rep() && Refills(c, v, want, got, Taken(view, batch))
      ensures ChainOf(c, alias, space.mem, key, local, batch) && n == |batch|
      ensures Refilled(c, v, got, inc, batch, m, space.mem, hist, history)
    {
      local, n, batch := TakeBatch(want);
      RefillNewDone(c, v, want, got, inc, Some(s), old(view), Taken(view, batch), m, old(space.mem), space.mem, hist,
                    old(history), history);
    }

    method RefillNew(want: nat, got: Option<nat>, inc: Incoming) returns (local: nat, n: nat, ghost batch: seq<Slot>)
      requires Rep() && view.partial == [] && NewPlan(c, view, got, alias)
      requires Arrives(space.mem, space.remap, descs, got, inc)
      modifies space`mem, `head, `descs, `hdrs, `view, `history
      ensures Rep() && Refills(c, old(view), want, got, Taken(view, batch))
      ensures ChainOf(c, alias, space.mem, key, local, batch) && n == |batch|
      ensures Refilled(c, old(view), got, inc, batch, old(space.mem), space.mem, old(history), history)
    {
      var s := NewPartial(got, inc);
      if s.Some? {
        local, n, batch := RefillMade(want, got, inc, s.value, old(view), old(space.mem), old(history));
      } else {
        RefillNewDone(c, old(view), want, got, inc, s, view, Taken(view, []), old(space.mem), space.mem, space.mem,
                      old(history), history, history);
        EmptyChain(c, alias, space.mem, key);
        local, n, batch := 0, 0, [];
      }
    }

    method RefillSlots(want: nat, got: Option<nat>, inc: Incoming) returns (local: nat, n: nat, ghost batch: seq<Slot>)
      requires Rep() && RefillPlan(c, view, got, alias) && Arrives(space.mem, space.remap, descs, got, inc)
      modifies space`mem, `head, `descs, `hdrs, `view, `history
      ensures Rep() && Refills(c, old(view), want, got, Taken(view, batch))
      ensures ChainOf(c, alias, space.mem, key, local, batch) && n == |batch|
      ensures Refilled(c, old(view), got, inc, batch, old(space.mem), space.mem, old(history), history)
    {
      if head.partial.None? {
        local, n, batch := RefillNew(want, got, inc);
      } else {
        local, n, batch := TakeBatch(want);
        RefillOldBytes(c, old(view), got, inc, batch, old(space.mem), space.mem, old(history));
      }
    }

    method RefillOpen(want: nat, got: Option<nat>, inc: Incoming, ghost out: set<Slot>, ghost hidden: set<Slot>)
      returns (local: nat, n: nat, ghost batch: seq<Slot>)
      requires Rep() && PoolInv(c, view, out, hidden) && AliasOk(view, out, hidden, alias) && Offered(got, inc)
      modifies space`mem, `head, `descs, `hdrs, `view, `history
      ensures Rep() && Refills(c, old(view), want, got, Taken(view, batch))
      ensures ChainOf(c, alias, space.mem, key, local, batch) && n == |batch|
      ensures Refilled(c, old(view), got, inc, batch, old(space.mem), space.mem, old(history), history)
      ensures batch != [] ==> LastTouched(history, batch[0].slab)
    {
      ghost var v, hist := view, history;
      RefillReady(c, view, out, hidden, alias, got);
      local, n, batch := RefillSlots(want, got, inc);
      if batch != [] { TouchedNow(c, v, want, got, Taken(view, batch), hist); }
    }

    /** btm_pool_refill under the lock: a batch of slots leaves the pool on a chain
        of its own. No byte of a slot in use or cached changes, and none outside
        the pool's chunks. */
    method Refill(want: nat, got: Option<nat>, inc: Incoming, ghost out: set<Slot>, ghost hidden: set<Slot>)
      returns (local: nat, n: nat, ghost batch: seq<Slot>)
      requires Valid(out, hidden) && Offered(got, inc) && want >= 1
      modifies space`mem, `head, `descs, `hdrs, `view, `history
      ensures Valid(out + Elems(batch), hidden) && Refills(c, old(view), want, got, Taken(view, batch))
      ensures ChainOf(c, alias, space.mem, key, local, batch) && n == |batch|
      ensures NoDup(batch) && Elems(batch) !! out && |batch| <= want
      ensures batch == [] <==> RefillFails(c, old(view), got)
      ensures Kept(c, alias, old(space.mem), space.mem, out) && BytesOut(old(space.mem), space.mem, view.live.Keys)
      ensures history == old(history) + RefillTouches(c, old(view), got)
      ensures batch != [] ==> LastTouched(history, batch[0].slab)
    {
      ghost var m0, d0, v0, hist0 := space.mem, descs, view, history;
      Open(out, hidden);
      local, n, batch := RefillOpen(want, got, inc, out, hidden);
      RefillEnds(c, alias, m0, space.mem, space.remap, d0, v0, Taken(view, batch), out, hidden, want, got, inc, hist0,
                 history);
    }

    // ---- reclaim ----

    method DropLive(k: nat)
      requires Rep() && k in view.live && view.live[k] > 0
      modifies `head, `descs, `hdrs, `view
      ensures Rep() && view == LessLive(old(view), k) && unchanged(`descs)
    {
      LessLiveStored(c, key, space.mem, space.remap, space.epoch, head, descs, hdrs, view, alias, history, k);
      Relist(head, descs, hdrs.(live := hdrs.live[k := hdrs.live[k] - 1]), LessLive(view, k));
    }

    method KeepWarm(s: SlabId)
      requires Rep() && s in descs.links && s !in view.partial && s !in view.warm && s !in view.cold
      modifies `head, `descs, `hdrs, `view
      ensures Rep() && view == old(view).(warm := [s] + old(view.warm))
    {
      WarmStored(c, key, space.mem, space.remap, space.epoch, head, descs, hdrs, view, alias, history, s);
      Relist(head.(warm := Some(s), warmCount := head.warmCount + 1),
             descs.(links := L.PushS(descs.links, head.warm, s)), hdrs, view.(warm := [s] + view.warm));
    }

    // slab_decommit, and the push on the cold list
    method Decommit(s: SlabId)
      requires Rep() && SlabOk(c, s) && s in view.slabs
      requires s in descs.links && s !in view.partial && s !in view.warm && s !in view.cold
      modifies space`mem, `head, `descs, `hdrs, `view, `history
      ensures Rep() && view == old(view).(cold := [s] + old(view.cold)) && space.mem == Discard(c, old(space.mem), s)
      ensures unchanged(`history)
    {
      ColdStored(c, key, space.mem, space.remap, space.epoch, head, descs, hdrs, view, alias, history, s);
      var m := space.mem;
      if !Flag(descs.decommitted, s) { m := Discard(c, m, s); }
      Update(m, head.(cold := Some(s)),
             descs.(links := L.PushS(descs.links, head.cold, s), decommitted := descs.decommitted[s := true]), hdrs,
             view.(cold := [s] + view.cold), history);
    }

    // purge_empties_of_chunk, the active pointer and chunk_unlink
    method DropChunk(k: nat)
      requires Rep() && k in view.chunks && forall e :: e in alias ==> e.chunk != k
      modifies `head, `descs, `hdrs, `view
      ensures Rep() && view == PoolSpec.DropChunk(old(view), k)
    {
      var l2, warm1, cold1, n1 := PurgeEmpties(head, descs, k, view);
      DropStored(c, key, space.mem, space.remap, space.epoch, head, descs, hdrs, view, alias, history, k, l2, warm1,
                 cold1, n1);
      Relist(head.(warm := warm1, cold := cold1, warmCount := n1, chunks := L.HeadAfter(hdrs.links, head.chunks, k),
                   active := if head.active == Some(k) then None else head.active),
             descs.(links := l2),
             Headers(L.RemoveD(hdrs.links, k), hdrs.nextPage - {k}, hdrs.live - {k}, hdrs.owner),
             PoolSpec.DropChunk(view, k));
    }

    method Unlink(s: SlabId)
      requires Rep() && s in view.partial && s.chunk in view.live && view.live[s.chunk] > 0
      modifies `head, `descs, `hdrs, `view
      ensures Rep() && view == LessLive(OffPartial(old(view), s), s.chunk) && s in descs.links && s !in view.partial
    {
      WithoutElems(view.partial, {s});
      RemovePartial(s);
      DropLive(s.chunk);
    }

    /** slab_became_free: the slab leaves the partial list; its chunk is disposed if
        that was the last live slab, else the slab is kept warm or its pages are
        released. */
    method BecameFree(s: SlabId) returns (disposed: Option<nat>, released: Option<SlabId>)
      requires Rep() && DrainPlan(c, view, alias, s)
      modifies space`mem, `head, `descs, `hdrs, `view, `history
      ensures Rep() && Freed(view, disposed, released) == PoolSpec.BecameFree(old(view), s)
      ensures space.mem == if released.Some? then Discard(c, old(space.mem), released.value) else old(space.mem)
      ensures unchanged(`history)
    {
      BecameFreeIs(view, s);
      Unlink(s);
      if hdrs.live[s.chunk] == 0 {
        DropChunk(s.chunk);
        return Some(s.chunk), None;
      } else if head.warmCount < KEEP_WARM {
        KeepWarm(s);
        return None, None;
      } else {
        Decommit(s);
        return None, Some(s);
      }
    }

    // the freelist push
    method ReturnSlot(p: nat, ghost x: Slot) returns (s: SlabId)
      requires Rep() && FreePlan(c, view, alias, x) && p == Addr(c, x)
      modifies space`mem, `head, `descs, `hdrs, `view, `history
      ensures Rep() && s == x.slab && view == Return(old(view), x)
      ensures Only(c, old(space.mem), space.mem, {Backing(alias, x)}) && history == old(history) + [Touch(x.slab)]
    {
      s := HomeSlab(c, hdrs, p, view.nextPage, x);
      var m, h, d := ReturnFields(c, key, space.mem, space.remap, space.epoch, head, descs, hdrs, s, p, view, alias,
                                  history, x);
      Update(m, h, d, hdrs, Return(view, x), history + [Touch(x.slab)]);
    }

    // where the slab goes after that
    method PlaceReturned(s: SlabId) returns (disposed: Option<nat>, released: Option<SlabId>)
      requires Rep() && s in view.slabs && s.chunk in view.live && view.live[s.chunk] > 0 && s !in view.warm
      requires s !in view.cold
      requires !view.slabs[s].retired && |view.slabs[s].free| == c.slots ==> DrainPlan(c, view, alias, s)
      modifies space`mem, `head, `descs, `hdrs, `view, `history
      ensures Rep() && Freed(view, disposed, released) == AfterReturn(c, old(view), s)
      ensures space.mem == if released.Some? then Discard(c, old(space.mem), released.value) else old(space.mem)
      ensures unchanged(`history)
    {
      if Flag(descs.retired, s) {
        return None, None;
      } else if Num(descs.freeCount, s) == c.slots {
        disposed, released := BecameFree(s);
      } else if !Flag(descs.inPartial, s) {
        PushPartial(s);
        return None, None;
      } else {
        return None, None;
      }
    }

    method FreeSlots(p: nat, ghost x: Slot) returns (disposed: Option<nat>, released: Option<SlabId>)
      requires Rep() && FreePlan(c, view, alias, x) && p == Addr(c, x)
      modifies space`mem, `head, `descs, `hdrs, `view, `history
      ensures Rep() && Frees(c, old(view), x, Freed(view, disposed, released))
      ensures FreeBytes(c, alias, old(space.mem), space.mem, x, released)
      ensures history == old(history) + [Touch(x.slab)]
    {
      var s := ReturnSlot(p, x);
      disposed, released := PlaceReturned(s);
    }

    /** btm_pool_free_one, and one iteration of btm_pool_flush: the slot goes back
        to its home slab, found from its address. No byte of another slot in use
        or cached changes, none outside the pool's chunks, and what is disposed or
        released is idle. */
    method FreeOne(p: nat, ghost x: Slot, ghost out: set<Slot>, ghost hidden: set<Slot>)
      returns (disposed: Option<nat>, released: Option<SlabId>)
      requires Valid(out, hidden) && x in out && p == Addr(c, x)
      modifies space`mem, `head, `descs, `hdrs, `view, `history
      ensures Valid(out - {x}, hidden) && Frees(c, old(view), x, Freed(view, disposed, released))
      ensures disposed.Some? ==> disposed.value !in view.live && ChunkIdle(disposed.value, out - {x}, hidden)
      ensures released.Some? ==> SlabIdle(released.value, out - {x}, hidden)
      ensures Kept(c, alias, old(space.mem), space.mem, out - {x})
      ensures BytesOut(old(space.mem), space.mem, old(view).live.Keys) && view.live.Keys <= old(view).live.Keys
      ensures history == old(history) + [Touch(x.slab)]
    {
      Open(out, hidden);
      FreeReady(c, view, out, hidden, alias, x);
      disposed, released := FreeSlots(p, x);
      FreeEnds(c, alias, old(space.mem), space.mem, old(view), Freed(view, disposed, released), out, hidden, x);
    }

    // btm_pool_free_one; what became of the slab and the chunk is not reported
    method FreeQuiet(p: nat, ghost x: Slot, ghost out: set<Slot>, ghost hidden: set<Slot>)
      requires Valid(out, hidden) && x in out && p == Addr(c, x)
      modifies space`mem, `head, `descs, `hdrs, `view, `history
      ensures Valid(out - {x}, hidden) && Kept(c, alias, old(space.mem), space.mem, out - {x})
      ensures BytesOut(old(space.mem), space.mem, old(view).live.Keys) && view.live.Keys <= old(view).live.Keys
      ensures FreesTo(c, old(view), x, view)
    {
      var d, r := FreeOne(p, x, out, hidden);
    }

    // ---- bytes of a slot in use ----

    method SetBytes(m: Mem)
      requires RepOf(c, key, m, space.remap, space.epoch, head, descs, hdrs, view, alias, history)
      modifies space`mem
      ensures Rep() && space.mem == m
    {
      space.mem := m;
    }

    // the bytes of a slot in use become those of m
    method SetSlot(m: Mem, ghost x: Slot, ghost out: set<Slot>, ghost hidden: set<Slot>)
      requires Valid(out, hidden) && x in out && Only(c, space.mem, m, {Backing(alias, x)})
      modifies space`mem
      ensures Valid(out, hidden) && space.mem == m
    {
      Open(out, hidden);
      BackingHeld(c, view, out, hidden, alias, x);
      UsedWriteStored(c, key, space.mem, m, space.remap, space.epoch, head, descs, hdrs, view, alias, history,
                      {Backing(alias, x)});
      SetBytes(m);
    }

    // btm_fl_set on a slot that has left the pool
    method StoreLink(p: nat, next: nat, ghost x: Slot, ghost out: set<Slot>, ghost hidden: set<Slot>)
      requires Valid(out, hidden) && x in out && p == Addr(c, x)
      modifies space`mem
      ensures Valid(out, hidden) && space.mem == SetLink(old(space.mem), key, Place(c, alias, x), p, next)
    {
      UsedMapped(out, hidden, x);
      TrSlot(c, space.remap, alias, x);
      SetLinkOnly(c, alias, space.mem, key, x, next);
      SetSlot(SetLink(space.mem, key, Tr(space.remap, p), p, next), x, out, hidden);
    }

    // the relinking of a batch after the lock is dropped
    method Splice(local: nat, n: nat, bin: nat, ghost b: seq<Slot>, ghost xs: seq<Slot>, ghost out: set<Slot>,
                  ghost hidden: set<Slot>)
      returns (p: nat, bin': nat)
      requires Valid(out, hidden) && n == |b| > 0 && Elems(b) <= out && Elems(xs) <= out
      requires forall x :: x in b ==> x !in xs
      requires ChainOf(c, alias, space.mem, key, local, b) && ChainOf(c, alias, space.mem, key, bin, xs)
      modifies space`mem
      ensures Valid(out, hidden) && p == Addr(c, b[0]) && ChainOf(c, alias, space.mem, key, bin', b[1..] + xs)
      ensures Only(c, old(space.mem), space.mem, Backings(alias, b))
    {
      Open(out, hidden);
      BatchReady(c, space.remap, view, out, hidden, alias, b, xs);
      var m;
      m, p, bin' := SpliceBatch(c, key, space.remap, space.mem, local, n, bin, alias, b, xs);
      UsedWriteStored(c, key, space.mem, m, space.remap, space.epoch, head, descs, hdrs, view, alias, history,
                      Backings(alias, b));
      SetBytes(m);
    }
  }
}
