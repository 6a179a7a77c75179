/** One lemma for each update of a pool's structures: the new fields represent the
    new pool value. */
module PoolSteps {
  import opened Bits
  import opened Seqs
  import opened Memory
  import opened Geometry
  import opened PoolSpec
  import opened PoolProofs
  import opened Aliasing
  import opened SlotChains
  import opened PoolRep
  import opened Epochs
  import L = Links

  /** The recorded epoch of every carved slab is the one of its last touch. */
  ghost predicate HistOk(d: Descs, v: Pool, hist: seq<Event>, e: nat) {
    && e == EpochAfter(hist)
    && forall s :: s in v.slabs ==> RecordedAfter(hist, s) == Some(Num(d.epochOf, s))
  }

  /** The fields represent the pool value v. */
  ghost predicate RepOf(c: SizeClass, key: nat, m: Mem, remap: map<nat, nat>, e: nat, h: Head, d: Descs, k: Headers,
                        v: Pool, alias: map<SlabId, SlabId>, hist: seq<Event>) {
    && c.Valid() && key < WORD && Mapped(c, remap, alias, v.live)
    && ListsOk(h, d, v) && SlabsOk(c, key, m, d, v, alias) && ChunksOk(c, h, k, v) && HistOk(d, v, hist, e)
  }

  // slab_touch: activity in the current epoch
  ghost predicate Touches(d: Descs, d': Descs, s: SlabId, epoch: nat) {
    d'.epochOf == d.epochOf[s := epoch] && d'.pagedOut == d.pagedOut[s := false]
  }

  lemma HistTouch(d: Descs, d': Descs, v: Pool, w: Pool, hist: seq<Event>, e: nat, s: SlabId)
    requires HistOk(d, v, hist, e) && Touches(d, d', s, e) && forall t :: t in w.slabs ==> t in v.slabs || t == s
    ensures HistOk(d', w, hist + [Touch(s)], e)
  {
    EpochSnoc(hist, Touch(s));
    forall t | t in w.slabs ensures RecordedAfter(hist + [Touch(s)], t) == Some(Num(d'.epochOf, t)) {
      RecordedSnoc(hist, Touch(s), t);
    }
  }

  lemma HistAdvance(d: Descs, v: Pool, hist: seq<Event>, e: nat)
    requires HistOk(d, v, hist, e)
    ensures HistOk(d, v, hist + [Advance], e + 1)
  {
    EpochSnoc(hist, Advance);
    forall t | t in v.slabs ensures RecordedAfter(hist + [Advance], t) == Some(Num(d.epochOf, t)) {
      RecordedSnoc(hist, Advance, t);
    }
  }

  lemma HistFrame(d: Descs, d': Descs, v: Pool, w: Pool, hist: seq<Event>, e: nat)
    requires HistOk(d, v, hist, e) && d'.epochOf == d.epochOf && forall t :: t in w.slabs ==> t in v.slabs
    ensures HistOk(d', w, hist, e)
  {}

  lemma MappedFrame(c: SizeClass, remap: map<nat, nat>, alias: map<SlabId, SlabId>, l: map<nat, nat>, l': map<nat, nat>)
    requires Mapped(c, remap, alias, l) && forall k :: k in l' ==> k in l
    ensures Mapped(c, remap, alias, l')
  {
    forall s | SlabOk(c, s) && s.chunk in l' ensures SlabMapped(c, remap, alias, s) {}
  }

  // ---- lists ----

  lemma PushPartialStored(c: SizeClass, key: nat, m: Mem, remap: map<nat, nat>, e: nat, h: Head, d: Descs, k: Headers,
                        v: Pool, alias: map<SlabId, SlabId>, hist: seq<Event>, s: SlabId)
    requires RepOf(c, key, m, remap, e, h, d, k, v, alias, hist) && s !in v.partial && s !in v.warm && s !in v.cold
    ensures h.partial.Some? ==> h.partial.value in d.links
    ensures RepOf(c, key, m, remap, e, h.(partial := Some(s)),
                  d.(links := L.PushD(d.links, h.partial, s), inPartial := d.inPartial[s := true]), k, Push(v, s),
                  alias, hist)
  {
    PushPartialOk(h, d, v, s);
  }

  lemma RemovePartialStored(c: SizeClass, key: nat, m: Mem, remap: map<nat, nat>, e: nat, h: Head, d: Descs, k: Headers,
                          v: Pool, alias: map<SlabId, SlabId>, hist: seq<Event>, s: SlabId)
    requires RepOf(c, key, m, remap, e, h, d, k, v, alias, hist) && s in v.partial
    ensures s in d.links && (d.links[s].prev.Some? ==> d.links[s].prev.value in d.links)
    ensures d.links[s].next.Some? ==> d.links[s].next.value in d.links
    ensures RepOf(c, key, m, remap, e, h.(partial := L.HeadAfter(d.links, h.partial, s)),
                  d.(links := L.RemoveD(d.links, s), inPartial := d.inPartial[s := false]), k, OffPartial(v, s), alias,
                  hist)
    ensures s in L.RemoveD(d.links, s)
  {
    RemovePartialOk(h, d, v, s);
  }

  lemma PopWarmStored(c: SizeClass, key: nat, m: Mem, remap: map<nat, nat>, e: nat, h: Head, d: Descs, k: Headers,
                    v: Pool, alias: map<SlabId, SlabId>, hist: seq<Event>)
    requires RepOf(c, key, m, remap, e, h, d, k, v, alias, hist) && v.warm != [] && v.warm[0] !in alias
    ensures h.warm == Some(v.warm[0]) && v.warm[0] in d.links && h.warmCount > 0
    ensures RepOf(c, key, m, remap, e, h.(warm := d.links[v.warm[0]].next, warmCount := h.warmCount - 1), d, k,
                  TakenWarm(v), alias, hist)
  {
    PopWarmOk(h, d, v);
    assert v.warm == [v.warm[0]] + v.warm[1..];
    SlabLeaves(c, key, m, d, v, TakenWarm(v), alias, v.warm[0]);
  }

  lemma PopColdStored(c: SizeClass, key: nat, m: Mem, remap: map<nat, nat>, e: nat, h: Head, d: Descs, k: Headers,
                    v: Pool, alias: map<SlabId, SlabId>, hist: seq<Event>)
    requires RepOf(c, key, m, remap, e, h, d, k, v, alias, hist) && v.cold != [] && v.cold[0] !in alias
    ensures h.cold == Some(v.cold[0]) && v.cold[0] in d.links
    ensures RepOf(c, key, m, remap, e, h.(cold := d.links[v.cold[0]].next), d, k, TakenCold(v), alias, hist)
  {
    PopColdOk(h, d, v);
    assert v.cold == [v.cold[0]] + v.cold[1..];
    SlabLeaves(c, key, m, d, v, TakenCold(v), alias, v.cold[0]);
  }

  lemma WarmStored(c: SizeClass, key: nat, m: Mem, remap: map<nat, nat>, e: nat, h: Head, d: Descs, k: Headers,
                 v: Pool, alias: map<SlabId, SlabId>, hist: seq<Event>, s: SlabId)
    requires RepOf(c, key, m, remap, e, h, d, k, v, alias, hist)
    requires s in d.links && s !in v.partial && s !in v.warm && s !in v.cold
    ensures RepOf(c, key, m, remap, e, h.(warm := Some(s), warmCount := h.warmCount + 1),
                  d.(links := L.PushS(d.links, h.warm, s)), k, v.(warm := [s] + v.warm), alias, hist)
  {
    PushWarmOk(c, key, m, h, d, v, alias, s);
  }

  lemma ColdStored(c: SizeClass, key: nat, m: Mem, remap: map<nat, nat>, e: nat, h: Head, d: Descs, k: Headers,
                 v: Pool, alias: map<SlabId, SlabId>, hist: seq<Event>, s: SlabId)
    requires RepOf(c, key, m, remap, e, h, d, k, v, alias, hist) && SlabOk(c, s)
    requires s in d.links && s !in v.partial && s !in v.warm && s !in v.cold
    ensures RepOf(c, key, Discard(c, m, s), remap, e, h.(cold := Some(s)),
                  d.(links := L.PushS(d.links, h.cold, s), decommitted := d.decommitted[s := true]), k,
                  v.(cold := [s] + v.cold), alias, hist)
  {
    PushColdOk(c, key, m, h, d, v, alias, s);
  }

  // ---- chunks ----

  lemma BumpStored(c: SizeClass, key: nat, m: Mem, remap: map<nat, nat>, e: nat, h: Head, d: Descs, k: Headers,
                 v: Pool, alias: map<SlabId, SlabId>, hist: seq<Event>, a: nat, own: seq<nat>)
    requires RepOf(c, key, m, remap, e, h, d, k, v, alias, hist)
    requires a in v.nextPage && v.nextPage[a] + c.run <= PAGES && |own| == PAGES
    requires forall p: nat :: p < PAGES ==>
               own[p] == if v.nextPage[a] <= p < v.nextPage[a] + c.run then v.nextPage[a] else k.owner[a][p]
    ensures RepOf(c, key, m, remap, e, h.(nslabs := h.nslabs + 1), d,
                  k.(nextPage := k.nextPage[a := k.nextPage[a] + c.run], owner := k.owner[a := own]),
                  Bumped(c, v, a), alias, hist)
  {
    BumpOwners(c, h, k, v, a, own);
  }

  // Descriptors outside chunk a are as before; those inside may hold anything.
  ghost predicate DescsOff(d: Descs, d': Descs, a: nat) {
    forall s: SlabId :: s.chunk != a ==>
      && Num(d'.freeHead, s) == Num(d.freeHead, s) && Num(d'.freeCount, s) == Num(d.freeCount, s)
      && Flag(d'.inPartial, s) == Flag(d.inPartial, s) && Flag(d'.retired, s) == Flag(d.retired, s)
      && Flag(d'.decommitted, s) == Flag(d.decommitted, s) && Flag(d'.pagedOut, s) == Flag(d.pagedOut, s)
      && Num(d'.epochOf, s) == Num(d.epochOf, s)
      && (s in d.links ==> s in d'.links && d'.links[s] == d.links[s])
  }

  // The pages of chunk a are not remapped.
  ghost predicate Unmapped(remap: map<nat, nat>, a: nat) {
    forall b: nat {:trigger Tr(remap, b)} :: InChunk(a, b) ==> Tr(remap, b) == b
  }

  lemma LinkLists(h: Head, d: Descs, d': Descs, v: Pool, a: nat)
    requires ListsOk(h, d, v) && NewTo(v, a) && DescsOff(d, d', a)
    ensures ListsOk(h.(chunks := Some(a), active := Some(a)), d', AddChunk(v, a))
  {
    L.SListFrame(d.links, d'.links, h.partial, v.partial);
    L.SListFrame(d.links, d'.links, h.warm, v.warm);
    L.SListFrame(d.links, d'.links, h.cold, v.cold);
  }

  lemma LinkSlabs(c: SizeClass, key: nat, m: Mem, m': Mem, d: Descs, d': Descs, v: Pool, alias: map<SlabId, SlabId>,
                  a: nat)
    requires SlabsOk(c, key, m, d, v, alias) && NewTo(v, a) && DescsOff(d, d', a) && BytesOut(m, m', {a})
    requires a % CHUNK == 0
    ensures SlabsOk(c, key, m', d', AddChunk(v, a), alias)
  {
    forall s | Active(v.slabs, v.warm, v.cold, s) ensures ChainRep(c, alias, key, m', d'.freeHead, v.slabs, s) {
      assert ChainRep(c, alias, key, m, d.freeHead, v.slabs, s);
      ChainOutside(c, alias, m, m', key, Num(d.freeHead, s), s, v.slabs[s].free, {a});
    }
  }

  // A freelist survives changes outside its chunk.
  lemma ChainOutside(c: SizeClass, alias: map<SlabId, SlabId>, m: Mem, m': Mem, key: nat, head: nat, s: SlabId,
                     f: seq<nat>, ks: set<nat>)
    requires ChainOf(c, alias, m, key, head, SlotsAt(s, f)) && BytesOut(m, m', ks) && s !in alias && s.chunk !in ks
    requires forall k :: k in ks ==> k % CHUNK == 0
    ensures ChainOf(c, alias, m', key, head, SlotsAt(s, f))
  {
    var xs := SlotsAt(s, f);
    forall i | 0 <= i < |xs| ensures SlotSame(c, m, m', Backing(alias, xs[i])) {
      assert PlacedOk(c, alias, xs[i]);
      SlotSameOutside(c, m, m', xs[i], ks);
    }
    ChainOfSame(c, alias, m, m', key, head, xs);
  }

  lemma SlotSameOutside(c: SizeClass, m: Mem, m': Mem, x: Slot, ks: set<nat>)
    requires SlotOk(c, x) && x.slab.chunk !in ks && BytesOut(m, m', ks) && forall k :: k in ks ==> k % CHUNK == 0
    ensures SlotSame(c, m, m', x)
  {
    forall a | Addr(c, x) <= a < Addr(c, x) + c.size ensures Load(m, a) == Load(m', a) { SlotOutside(c, x, ks, a); }
  }

  lemma LinkMapped(c: SizeClass, remap: map<nat, nat>, alias: map<SlabId, SlabId>, v: Pool, a: nat)
    requires Mapped(c, remap, alias, v.live) && Unmapped(remap, a) && DonorsRetired(alias, v.slabs) && NewTo(v, a)
    ensures Mapped(c, remap, alias, AddChunk(v, a).live)
  {
    forall s | SlabOk(c, s) && s.chunk in AddChunk(v, a).live ensures SlabMapped(c, remap, alias, s) {
      if s.chunk == a {
        forall k: nat | k < c.slots ensures SlotMapped(c, remap, alias, Slot(s, k)) {
          SlotBounds(c, Slot(s, k));
          assert s !in alias;
        }
      }
    }
  }

  lemma LinkStored(c: SizeClass, key: nat, m: Mem, m': Mem, remap: map<nat, nat>, e: nat, h: Head, d: Descs, d': Descs,
                 k: Headers, v: Pool, alias: map<SlabId, SlabId>, hist: seq<Event>, a: nat)
    requires RepOf(c, key, m, remap, e, h, d, k, v, alias, hist) && NewTo(v, a) && a % CHUNK == 0
    requires DescsOff(d, d', a) && BytesOut(m, m', {a}) && Unmapped(remap, a)
    ensures h.chunks.Some? ==> h.chunks.value in k.links
    ensures RepOf(c, key, m', remap, e, h.(chunks := Some(a), active := Some(a)), d',
                  Headers(L.PushD(k.links, h.chunks, a), k.nextPage[a := DATA_START], k.live[a := 0],
                          k.owner[a := UNOWNED]),
                  AddChunk(v, a), alias, hist)
  {
    AddChunkOk(c, h, k, v, a);
    LinkLists(h, d, d', v, a);
    LinkSlabs(c, key, m, m', d, d', v, alias, a);
    LinkMapped(c, remap, alias, v, a);
  }

  lemma LessLiveStored(c: SizeClass, key: nat, m: Mem, remap: map<nat, nat>, e: nat, h: Head, d: Descs, k: Headers,
                     v: Pool, alias: map<SlabId, SlabId>, hist: seq<Event>, a: nat)
    requires RepOf(c, key, m, remap, e, h, d, k, v, alias, hist) && a in v.live && v.live[a] > 0
    ensures a in k.live && k.live[a] > 0
    ensures RepOf(c, key, m, remap, e, h, d, k.(live := k.live[a := k.live[a] - 1]), LessLive(v, a), alias, hist)
  {
    LessLiveOk(c, key, m, h, d, k, v, alias, a);
    MappedFrame(c, remap, alias, v.live, LessLive(v, a).live);
  }

  // ---- slots ----

  lemma FormatStored(c: SizeClass, key: nat, m: Mem, m': Mem, remap: map<nat, nat>, e: nat, h: Head, d: Descs,
                     k: Headers,
                   v: Pool, alias: map<SlabId, SlabId>, hist: seq<Event>, s: SlabId, first: nat)
    requires RepOf(c, key, m, remap, e, h, d, k, v, alias, hist)
    requires SlabOk(c, s) && s !in v.slabs && s.chunk in v.live && s !in v.partial && s !in v.cold
    requires ChainOf(c, alias, m', key, first, SlotsAt(s, Iota(c.slots))) && Only(c, m, m', SlotSet(s, c.slots))
    ensures s.chunk in k.live
    ensures RepOf(c, key, m', remap, e, h, FormatDescs(c, d, s, first, e),
                  k.(live := k.live[s.chunk := k.live[s.chunk] + 1]), Format(c, v, s), alias, hist + [Touch(s)])
  {
    FormatSlabsOk(c, key, m, m', d, v, alias, s, first, e);
    FormatListsOk(c, h, d, v, s, first, e);
    FormatChunksOk(c, h, k, v, s);
    HistTouch(d, FormatDescs(c, d, s, first, e), v, Format(c, v, s), hist, e, s);
    MappedFrame(c, remap, alias, v.live, Format(c, v, s).live);
  }

  lemma TakeStored(c: SizeClass, key: nat, m: Mem, m': Mem, remap: map<nat, nat>, e: nat, h: Head, d: Descs, k: Headers,
                 v: Pool, alias: map<SlabId, SlabId>, hist: seq<Event>, s: SlabId, first: nat, local: nat, n: nat)
    requires RepOf(c, key, m, remap, e, h, d, k, v, alias, hist) && Active(v.slabs, v.warm, v.cold, s)
    requires OkSlots(c, alias, SlotsAt(s, v.slabs[s].free))
    requires Split(c, alias, m, m', key, first, local, SlotsAt(s, v.slabs[s].free), n)
    ensures n <= Num(d.freeCount, s) == |v.slabs[s].free|
    ensures RepOf(c, key, m', remap, e, h.(outstanding := h.outstanding + n), TakeDescs(d, s, first, n, e), k,
                  Shortened(v, s, n), alias, hist + [Touch(s)])
    ensures var b := SlotsAt(s, v.slabs[s].free[..n]);
            ChainOf(c, alias, m', key, local, Reverse(b)) && Only(c, m, m', Elems(b))
  {
    TakeSlabsOk(c, key, m, m', d, v, alias, s, first, local, n, e);
    TakeListsOk(h, d, v, s, n, first, e);
    HistTouch(d, TakeDescs(d, s, first, n, e), v, Shortened(v, s, n), hist, e, s);
  }

  lemma ReturnStored(c: SizeClass, key: nat, m: Mem, remap: map<nat, nat>, e: nat, h: Head, d: Descs, k: Headers,
                   v: Pool, alias: map<SlabId, SlabId>, hist: seq<Event>, x: Slot)
    requires RepOf(c, key, m, remap, e, h, d, k, v, alias, hist) && FreePlan(c, v, alias, x)
    ensures var m' := SetLink(m, key, Place(c, alias, x), Addr(c, x), Num(d.freeHead, x.slab));
            && RepOf(c, key, m', remap, e, h.(outstanding := if h.outstanding > 0 then h.outstanding - 1 else 0),
                     ReturnDescs(d, x.slab, Addr(c, x), e), k, Return(v, x), alias, hist + [Touch(x.slab)])
            && Only(c, m, m', {Backing(alias, x)})
  {
    ReturnSlabsOk(c, key, m, d, v, alias, x, e);
    ReturnListsOk(h, d, v, x, Addr(c, x), e, if h.outstanding > 0 then h.outstanding - 1 else 0);
    HistTouch(d, ReturnDescs(d, x.slab, Addr(c, x), e), v, Return(v, x), hist, e, x.slab);
  }

  lemma DropStored(c: SizeClass, key: nat, m: Mem, remap: map<nat, nat>, e: nat, h: Head, d: Descs, k: Headers,
                 v: Pool, alias: map<SlabId, SlabId>, hist: seq<Event>, a: nat,
                 l: Nodes, warm: Option<SlabId>, cold: Option<SlabId>, count: nat)
    requires RepOf(c, key, m, remap, e, h, d, k, v, alias, hist) && a in v.chunks
    requires forall t :: t in alias ==> t.chunk != a
    requires ListsOk(h.(warm := warm, cold := cold, warmCount := count), d.(links := l), DropChunk(v, a))
    ensures a in k.links && (k.links[a].prev.Some? ==> k.links[a].prev.value in k.links)
    ensures k.links[a].next.Some? ==> k.links[a].next.value in k.links
    ensures RepOf(c, key, m, remap, e,
                  h.(warm := warm, cold := cold, warmCount := count, chunks := L.HeadAfter(k.links, h.chunks, a),
                     active := if h.active == Some(a) then None else h.active),
                  d.(links := l), Headers(L.RemoveD(k.links, a), k.nextPage - {a}, k.live - {a}, k.owner),
                  DropChunk(v, a), alias, hist)
  {
    DropSlabsOk(c, key, m, d, v, alias, a, l);
    DropChunksOk(c, h, k, v, a);
    MappedFrame(c, remap, alias, v.live, DropChunk(v, a).live);
    HistFrame(d, d.(links := l), v, DropChunk(v, a), hist, e);
  }

  lemma UsedWriteStored(c: SizeClass, key: nat, m: Mem, m': Mem, remap: map<nat, nat>, e: nat, h: Head, d: Descs,
                        k: Headers,
                      v: Pool, alias: map<SlabId, SlabId>, hist: seq<Event>, ys: set<Slot>)
    requires RepOf(c, key, m, remap, e, h, d, k, v, alias, hist) && Only(c, m, m', ys) && NotFree(c, v.slabs, ys)
    ensures RepOf(c, key, m', remap, e, h, d, k, v, alias, hist)
  {
    UsedWriteOk(c, key, m, m', d, v, alias, ys);
  }

  // ---- what lies outside the pool's chunks ----

  /** Writing to slots of some chunks changes no byte outside these chunks. */
  lemma OnlyOut(c: SizeClass, m: Mem, m': Mem, ys: set<Slot>, ks: set<nat>)
    requires Only(c, m, m', ys) && forall y :: y in ys ==> SlotOk(c, y) && y.slab.chunk in ks
    ensures BytesOut(m, m', ks)
  {
    forall a: nat | Outside(ks, a) ensures Load(m', a) == Load(m, a) {
      forall y | y in ys ensures !(Addr(c, y) <= a < Addr(c, y) + c.size) {
        SlotBounds(c, y);
        assert !InChunk(y.slab.chunk, a);
      }
    }
  }

  lemma DiscardOut(c: SizeClass, m: Mem, s: SlabId, ks: set<nat>)
    requires SlabOk(c, s) && s.chunk in ks
    ensures BytesOut(m, Discard(c, m, s), ks)
  {
    forall a: nat | Outside(ks, a) ensures Load(Discard(c, m, s), a) == Load(m, a) {
      assert !InChunk(s.chunk, a);
    }
  }

  /** A slot in use is mapped as its slab says. */
  lemma OutMapped(c: SizeClass, remap: map<nat, nat>, v: Pool, out: set<Slot>, hidden: set<Slot>,
                  alias: map<SlabId, SlabId>, x: Slot)
    requires Mapped(c, remap, alias, v.live) && Core(c, v, out, hidden) && x in out
    ensures SlotOk(c, x) && x.slab.chunk in v.live && SlotMapped(c, remap, alias, x)
  {
    OutKnown(c, v, out, hidden, x);
    MappedSlot(c, remap, alias, v.live, x);
  }

  lemma OutKnown(c: SizeClass, v: Pool, out: set<Slot>, hidden: set<Slot>, x: Slot)
    requires Core(c, v, out, hidden) && x in out
    ensures SlotOk(c, x) && x.slab in v.slabs && x.slab.chunk in v.live
  {
    assert x.slab in v.slabs && x.k < c.slots;
    SlabKnown(c, v, out, hidden, x.slab);
  }

  // A batch fresh from the pool, next to a bin's chain.
  lemma BatchReady(c: SizeClass, remap: map<nat, nat>, v: Pool, out: set<Slot>, hidden: set<Slot>,
                   alias: map<SlabId, SlabId>, b: seq<Slot>, xs: seq<Slot>)
    requires Mapped(c, remap, alias, v.live) && PoolInv(c, v, out, hidden) && AliasOk(v, out, hidden, alias)
    requires Elems(b) <= out && Elems(xs) <= out && forall x :: x in b ==> x !in xs
    ensures SlotsMapped(c, remap, alias, b) && Disjoint(alias, b, xs) && NotFree(c, v.slabs, Backings(alias, b))
  {
    UsedNotFree(c, v, out, hidden, alias, b);
    forall i | 0 <= i < |b| ensures SlotMapped(c, remap, alias, b[i]) && Elsewhere(alias, b[i], xs) {
      assert b[i] in Elems(b);
      OutMapped(c, remap, v, out, hidden, alias, b[i]);
      UsedElsewhere(c, v, out, hidden, alias, xs, b[i]);
    }
  }

  lemma UsedWriteOut(c: SizeClass, m: Mem, m': Mem, v: Pool, out: set<Slot>, hidden: set<Slot>,
                     alias: map<SlabId, SlabId>, b: seq<Slot>)
    requires PoolInv(c, v, out, hidden) && AliasOk(v, out, hidden, alias) && Elems(b) <= out
    requires Only(c, m, m', Backings(alias, b))
    ensures BytesOut(m, m', v.live.Keys)
  {
    UsedNotFree(c, v, out, hidden, alias, b);
    forall y | y in Backings(alias, b) ensures y.slab.chunk in v.live.Keys { SlabKnown(c, v, out, hidden, y.slab); }
    OnlyOut(c, m, m', Backings(alias, b), v.live.Keys);
  }

  // ---- a chunk arrives ----

  // Memory and descriptors with the pages of a newly mapped chunk in place. What
  // these pages hold is not known: the chunk may have been used before.
  datatype Incoming = Incoming(mem: Mem, descs: Descs)

  ghost predicate Brings(m: Mem, d: Descs, got: Option<nat>, inc: Incoming) {
    got.Some? ==> BytesOut(m, inc.mem, {got.value}) && DescsOff(d, inc.descs, got.value)
  }

  ghost predicate Arrives(m: Mem, remap: map<nat, nat>, d: Descs, got: Option<nat>, inc: Incoming) {
    Brings(m, d, got, inc) && (got.Some? ==> got.value % CHUNK == 0 && Unmapped(remap, got.value))
  }

  // The memory btm_slab_new works on: it takes the chunk only if it needs one.
  function NewBase(c: SizeClass, v: Pool, got: Option<nat>, m: Mem, inc: Incoming): Mem
    requires Indexed(v)
  {
    if NeedsChunk(c, v) && got.Some? then inc.mem else m
  }

  function Base(c: SizeClass, v: Pool, got: Option<nat>, m: Mem, inc: Incoming): Mem
    requires Indexed(v)
  {
    if v.partial != [] then m else NewBase(c, v, got, m, inc)
  }

  lemma ArriveKeeps(c: SizeClass, alias: map<SlabId, SlabId>, m: Mem, remap: map<nat, nat>, d: Descs, v: Pool,
                    out: set<Slot>, hidden: set<Slot>, got: Option<nat>, inc: Incoming)
    requires PoolInv(c, v, out, hidden) && AliasOk(v, out, hidden, alias) && FreshOk(v, got) && Indexed(v)
    requires Arrives(m, remap, d, got, inc)
    ensures Kept(c, alias, m, Base(c, v, got, m, inc), out)
  {
    forall x | x in out ensures SlotSame(c, m, Base(c, v, got, m, inc), Backing(alias, x)) {
      BackingHeld(c, v, out, hidden, alias, x);
      SlabKnown(c, v, out, hidden, Backing(alias, x).slab);
      if got.Some? { SlotSameOutside(c, m, inc.mem, Backing(alias, x), {got.value}); }
    }
  }

  // The touches of a refill: the slab it makes, and the slab it takes slots from.
  function RefillTouches(c: SizeClass, v: Pool, got: Option<nat>): seq<Event>
    requires c.Valid() && Indexed(v)
  {
    if v.partial != [] then [Touch(v.partial[0])]
    else match MadeSlab(c, v, got) case None => [] case Some(s) => [Touch(s), Touch(s)]
  }

  // The slab the batch comes from is touched last.
  lemma BatchTouched(c: SizeClass, v: Pool, want: nat, got: Option<nat>, t: Taken)
    requires Refills(c, v, want, got, t) && t.batch != []
    ensures var ts := RefillTouches(c, v, got); ts != [] && ts[|ts| - 1] == Touch(t.batch[0].slab)
  {
    if v.partial != [] {
      BatchFrom(v, want);
    } else {
      var (q, s) := SlabNew(c, v, got).value;
      BatchFrom(Push(q, s), want);
    }
  }

  ghost predicate LastTouched(hist: seq<Event>, s: SlabId) {
    hist != [] && hist[|hist| - 1] == Touch(s)
  }

  lemma TouchedNow(c: SizeClass, v: Pool, want: nat, got: Option<nat>, t: Taken, hist: seq<Event>)
    requires Refills(c, v, want, got, t) && t.batch != []
    ensures LastTouched(hist + RefillTouches(c, v, got), t.batch[0].slab)
  {
    BatchTouched(c, v, want, got, t);
  }

  // What btm_slab_new does to memory, and the touch it records.
  ghost predicate Made(c: SizeClass, v: Pool, got: Option<nat>, inc: Incoming, s: Option<SlabId>, m: Mem, m': Mem,
                       hist: seq<Event>, hist': seq<Event>) {
    Indexed(v) && if s.Some? then Only(c, NewBase(c, v, got, m, inc), m', SlotSet(s.value, c.slots))
      && hist' == hist + [Touch(s.value)]
                  else m' == m && hist' == hist
  }

  // What a refill does to memory, and the touches it records.
  ghost predicate Refilled(c: SizeClass, v: Pool, got: Option<nat>, inc: Incoming, batch: seq<Slot>, m: Mem, m': Mem,
                           hist: seq<Event>, hist': seq<Event>) {
    && c.Valid() && Indexed(v)
    && Only(c, Base(c, v, got, m, inc), m', MadeSlots(c, MadeSlab(c, v, got)) + Elems(batch))
    && hist' == hist + RefillTouches(c, v, got)
  }

  lemma RefillOldBytes(c: SizeClass, v: Pool, got: Option<nat>, inc: Incoming, batch: seq<Slot>, m: Mem, m': Mem,
                       hist: seq<Event>)
    requires c.Valid() && Indexed(v) && v.partial != [] && Only(c, m, m', Elems(batch))
    ensures Refilled(c, v, got, inc, batch, m, m', hist, hist + [Touch(v.partial[0])])
  {
    assert {} + Elems(batch) == Elems(batch);
  }

  lemma RefillNewBytes(c: SizeClass, v: Pool, got: Option<nat>, inc: Incoming, s: Option<SlabId>, batch: seq<Slot>,
                       m: Mem, m1: Mem, m2: Mem, hist: seq<Event>, hist1: seq<Event>)
    requires c.Valid() && Indexed(v) && v.partial == [] && s == MadeSlab(c, v, got)
    requires Made(c, v, got, inc, s, m, m1, hist, hist1)
    requires if s.Some? then Only(c, m1, m2, Elems(batch)) else m2 == m1 && batch == []
    requires s.None? ==> NewBase(c, v, got, m, inc) == m
    ensures Refilled(c, v, got, inc, batch, m, m2, hist, hist1 + if s.Some? then [Touch(s.value)] else [])
  {
    if s.Some? {
      OnlyTrans(c, NewBase(c, v, got, m, inc), m1, m2, SlotSet(s.value, c.slots), Elems(batch));
      assert hist + [Touch(s.value)] + [Touch(s.value)] == hist + [Touch(s.value), Touch(s.value)];
    }
  }

  // The pool with its new slab, if there is one, on the partial list.
  function WithMade(c: SizeClass, v: Pool, got: Option<nat>): Pool
    requires c.Valid() && Indexed(v)
  {
    match SlabNew(c, v, got) case None => v case Some(r) => Push(r.0, r.1)
  }

  // A refill can take slots from the head of the partial list.
  ghost predicate TakeReady(c: SizeClass, v: Pool) {
    && v.partial != [] && Active(v.slabs, v.warm, v.cold, v.partial[0])
    && SlabOk(c, v.partial[0]) && v.partial[0].chunk in v.live
  }

  // The head slab's freelist has been shortened.
  lemma TakeEnds(c: SizeClass, v: Pool, w: Pool, want: nat, n: nat)
    requires TakeReady(c, v) && NoDup(v.partial)
    requires n == Grabbed(v.slabs[v.partial[0]].free, want) && w == Shortened(v, v.partial[0], n)
    ensures var s := v.partial[0]; var batch := BatchOf(s, v.slabs[s].free, want);
            && s in w.partial && Active(w.slabs, w.warm, w.cold, s) && |batch| == n
            && Take(v, want) == Taken(if w.slabs[s].free == [] then OffPartial(w, s) else w, batch)
  {
    TakeIs(v, want);
  }

  lemma MadeReady(c: SizeClass, v: Pool, got: Option<nat>, alias: map<SlabId, SlabId>, w: Pool, s: Option<SlabId>)
    requires NewPlan(c, v, got, alias) && NewSlab(c, v, got, w, s) && v.partial == []
    ensures s == MadeSlab(c, v, got) && WithMade(c, v, got) == if s.Some? then Push(w, s.value) else w
    ensures s.Some? ==>
              && s.value !in w.partial && s.value !in w.warm && s.value !in w.cold
              && TakeReady(c, Push(w, s.value))
  {
    if s.Some? { NewSlabActive(c, v, got, alias, w, s.value); }
  }

  // The pool's new slab, if there is one, heads the partial list.
  ghost predicate Headed(c: SizeClass, v: Pool, got: Option<nat>, inc: Incoming, s: Option<SlabId>, w: Pool, m: Mem,
                         m': Mem, hist: seq<Event>, hist': seq<Event>) {
    && c.Valid() && Indexed(v) && v.partial == []
    && s == MadeSlab(c, v, got) && w == WithMade(c, v, got) && (s.Some? ==> TakeReady(c, w))
    && Made(c, v, got, inc, s, m, m', hist, hist')
  }

  lemma EmptyChain(c: SizeClass, alias: map<SlabId, SlabId>, m: Mem, key: nat)
    ensures ChainOf(c, alias, m, key, 0, [])
  {}

  lemma RefillNewDone(c: SizeClass, v: Pool, want: nat, got: Option<nat>, inc: Incoming, s: Option<SlabId>, w: Pool,
                      t: Taken, m: Mem, m1: Mem, m2: Mem, hist: seq<Event>, hist1: seq<Event>, hist2: seq<Event>)
    requires Headed(c, v, got, inc, s, w, m, m1, hist, hist1)
    requires if s.Some? then t == Take(w, want) && Only(c, m1, m2, Elems(t.batch))
               && hist2 == hist1 + [Touch(w.partial[0])]
             else t == Taken(w, []) && m2 == m1 && hist2 == hist1
    ensures Refills(c, v, want, got, t) && Refilled(c, v, got, inc, t.batch, m, m2, hist, hist2)
  {
    RefillNewBytes(c, v, got, inc, s, t.batch, m, m1, m2, hist, hist1);
  }

  lemma MadeKnown(c: SizeClass, v: Pool, t: Taken, want: nat, got: Option<nat>)
    requires Refills(c, v, want, got, t)
    ensures MadeSlab(c, v, got).Some? ==> MadeSlab(c, v, got).value in t.pool.slabs
    ensures v.partial == [] && NeedsChunk(c, v) && got.Some? ==> got.value in t.pool.live
  {}

  /** A refill changes no byte outside the chunks the pool has afterwards. */
  lemma RefillOut(c: SizeClass, m: Mem, m': Mem, remap: map<nat, nat>, d: Descs, v: Pool, t: Taken, out: set<Slot>,
                  hidden: set<Slot>, want: nat, got: Option<nat>, inc: Incoming)
    requires Refills(c, v, want, got, t) && PoolInv(c, t.pool, out + Elems(t.batch), hidden)
    requires Arrives(m, remap, d, got, inc)
    requires Only(c, Base(c, v, got, m, inc), m', MadeSlots(c, MadeSlab(c, v, got)) + Elems(t.batch))
    ensures BytesOut(m, m', t.pool.live.Keys)
  {
    var ys, ks := MadeSlots(c, MadeSlab(c, v, got)) + Elems(t.batch), t.pool.live.Keys;
    MadeKnown(c, v, t, want, got);
    forall y | y in ys ensures SlotOk(c, y) && y.slab.chunk in ks {
      if y in Elems(t.batch) {
        OutKnown(c, t.pool, out + Elems(t.batch), hidden, y);
      } else {
        SlabKnown(c, t.pool, out + Elems(t.batch), hidden, y.slab);
      }
    }
    OnlyOut(c, Base(c, v, got, m, inc), m', ys, ks);
    BytesOutTrans(m, Base(c, v, got, m, inc), m',
                  if v.partial == [] && NeedsChunk(c, v) && got.Some? then {got.value} else {}, ks, ks);
  }

  lemma RefillEnds(c: SizeClass, alias: map<SlabId, SlabId>, m: Mem, m': Mem, remap: map<nat, nat>, d: Descs, v: Pool,
                   t: Taken,
                   out: set<Slot>, hidden: set<Slot>, want: nat, got: Option<nat>, inc: Incoming, hist: seq<Event>,
                   hist': seq<Event>)
    requires PoolInv(c, v, out, hidden) && AliasOk(v, out, hidden, alias) && FreshOk(v, got) && want >= 1
    requires Refills(c, v, want, got, t) && Arrives(m, remap, d, got, inc)
    requires Refilled(c, v, got, inc, t.batch, m, m', hist, hist')
    ensures PoolInv(c, t.pool, out + Elems(t.batch), hidden)
    ensures AliasOk(t.pool, out + Elems(t.batch), hidden, alias)
    ensures NoDup(t.batch) && Elems(t.batch) !! out && |t.batch| <= want
    ensures t.batch == [] <==> RefillFails(c, v, got)
    ensures Kept(c, alias, m, m', out) && BytesOut(m, m', t.pool.live.Keys)
  {
    RefillDone(c, alias, Base(c, v, got, m, inc), m', v, t, out, hidden, want, got);
    ArriveKeeps(c, alias, m, remap, d, v, out, hidden, got, inc);
    KeptTrans(c, alias, m, Base(c, v, got, m, inc), m', out);
    RefillOut(c, m, m', remap, d, v, t, out, hidden, want, got, inc);
  }

  lemma BackingChunk(c: SizeClass, alias: map<SlabId, SlabId>, v: Pool, out: set<Slot>, hidden: set<Slot>, x: Slot)
    requires PoolInv(c, v, out, hidden) && AliasOk(v, out, hidden, alias) && x in out
    ensures SlotOk(c, Backing(alias, x)) && Backing(alias, x).slab.chunk in v.live
  {
    BackingHeld(c, v, out, hidden, alias, x);
    SlabKnown(c, v, out, hidden, Backing(alias, x).slab);
  }

  // Only the slab of the freed slot is ever released.
  lemma ReleasedOwn(c: SizeClass, v: Pool, x: Slot, r: Freed)
    requires Frees(c, v, x, r) && r.released.Some?
    ensures r.released.value == x.slab
  {}

  /** A free changes no byte outside the chunks the pool had before. */
  lemma FreeOut(c: SizeClass, alias: map<SlabId, SlabId>, m: Mem, m': Mem, v: Pool, r: Freed, out: set<Slot>,
                hidden: set<Slot>, x: Slot)
    requires PoolInv(c, v, out, hidden) && AliasOk(v, out, hidden, alias) && x in out && Frees(c, v, x, r)
    requires FreeBytes(c, alias, m, m', x, r.released)
    ensures BytesOut(m, m', v.live.Keys)
  {
    var m1 :| Only(c, m, m1, {Backing(alias, x)}) && m' == if r.released.Some? then Discard(c, m1, r.released.value)
      else m1;
    BackingChunk(c, alias, v, out, hidden, x);
    OnlyOut(c, m, m1, {Backing(alias, x)}, v.live.Keys);
    if r.released.Some? {
      ReleasedOwn(c, v, x, r);
      OutKnown(c, v, out, hidden, x);
      DiscardOut(c, m1, r.released.value, v.live.Keys);
      BytesOutTrans(m, m1, m', v.live.Keys, v.live.Keys, v.live.Keys);
    }
  }

  lemma FreeEnds(c: SizeClass, alias: map<SlabId, SlabId>, m: Mem, m': Mem, v: Pool, r: Freed, out: set<Slot>,
                 hidden: set<Slot>, x: Slot)
    requires PoolInv(c, v, out, hidden) && AliasOk(v, out, hidden, alias) && x in out && Frees(c, v, x, r)
    requires FreeBytes(c, alias, m, m', x, r.released)
    ensures FreedOk(c, r, out - {x}, hidden) && AliasOk(r.pool, out - {x}, hidden, alias)
    ensures Kept(c, alias, m, m', out - {x})
    ensures BytesOut(m, m', v.live.Keys) && r.pool.live.Keys <= v.live.Keys
  {
    FreeDone(c, alias, m, m', v, r, out, hidden, x);
    FreeOut(c, alias, m, m', v, r, out, hidden, x);
    FreeShrinks(c, v, x, r);
  }

  lemma FreeShrinks(c: SizeClass, v: Pool, x: Slot, r: Freed)
    requires Frees(c, v, x, r)
    ensures r.pool.live.Keys <= v.live.Keys
  {}
}
