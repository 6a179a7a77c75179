/** How the fields of a pool's structures represent the pool as a value. Each
    descriptor field is a map from slab to its value; an absent entry reads as
    zero, as in freshly mapped descriptor pages. */
module PoolRep {
  import opened Bits
  import opened Seqs
  import opened Memory
  import opened Geometry
  import opened PoolSpec
  import opened PoolProofs
  import opened Aliasing
  import opened SlotChains
  import L = Links

  type Nodes = map<SlabId, L.Link<SlabId>>

  function Flag(col: map<SlabId, bool>, s: SlabId): bool {
    s in col && col[s]
  }

  function Num(col: map<SlabId, nat>, s: SlabId): nat {
    if s in col then col[s] else 0
  }

  ghost predicate Off(a: seq<SlabId>, b: seq<SlabId>) {
    forall s :: s in a ==> s !in b
  }

  // The three slab lists share one pair of link fields.
  ghost predicate ListsRep(l: Nodes, partial: Option<SlabId>, warm: Option<SlabId>, cold: Option<SlabId>,
                           ps: seq<SlabId>, ws: seq<SlabId>, cs: seq<SlabId>) {
    && L.DList(l, partial, ps) && L.SList(l, warm, ws) && L.SList(l, cold, cs)
    && Off(ps, ws) && Off(ps, cs) && Off(ws, cs)
  }

  ghost predicate FlagsRep(col: map<SlabId, bool>, slabs: map<SlabId, Slab>, on: seq<SlabId>) {
    forall s :: s in slabs ==> Flag(col, s) == (s in on)
  }

  ghost predicate CountsRep(counts: map<SlabId, nat>, retired: map<SlabId, bool>, slabs: map<SlabId, Slab>) {
    forall s :: s in slabs ==> Num(counts, s) == |slabs[s].free| && Flag(retired, s) == slabs[s].retired
  }

  // A slab whose freelist may be read: neither meshed away nor empty.
  predicate Active(slabs: map<SlabId, Slab>, ws: seq<SlabId>, cs: seq<SlabId>, s: SlabId) {
    s in slabs && !slabs[s].retired && s !in ws && s !in cs
  }

  ghost predicate ChainRep(c: SizeClass, alias: map<SlabId, SlabId>, key: nat, m: Mem, heads: map<SlabId, nat>,
                           slabs: map<SlabId, Slab>, s: SlabId) {
    s in slabs && ChainOf(c, alias, m, key, Num(heads, s), SlotsAt(s, slabs[s].free))
  }

  ghost predicate ChainsRep(c: SizeClass, alias: map<SlabId, SlabId>, key: nat, m: Mem, heads: map<SlabId, nat>,
                            slabs: map<SlabId, Slab>, ws: seq<SlabId>, cs: seq<SlabId>) {
    forall s {:trigger ChainRep(c, alias, key, m, heads, slabs, s)} ::
      Active(slabs, ws, cs, s) ==> ChainRep(c, alias, key, m, heads, slabs, s)
  }

  ghost predicate OwnersRep(c: SizeClass, owner: map<nat, seq<nat>>, nextPage: map<nat, nat>) {
    forall k :: k in nextPage ==> k in owner && Tiled(c, owner[k], nextPage[k])
  }

  ghost predicate DonorsRetired(alias: map<SlabId, SlabId>, slabs: map<SlabId, Slab>) {
    forall d :: d in alias ==> d in slabs && slabs[d].retired
  }

  // ---- the structures ----

  // btm_scpool
  datatype Head = Head(
    partial: Option<SlabId>, warm: Option<SlabId>, cold: Option<SlabId>, warmCount: nat,
    chunks: Option<nat>, active: Option<nat>, nslabs: nat, outstanding: nat)

  // btm_slab, one map a field
  datatype Descs = Descs(
    links: Nodes, freeHead: map<SlabId, nat>, freeCount: map<SlabId, nat>,
    inPartial: map<SlabId, bool>, retired: map<SlabId, bool>, decommitted: map<SlabId, bool>,
    pagedOut: map<SlabId, bool>, epochOf: map<SlabId, nat>)

  // btm_chunk, one map a field
  datatype Headers = Headers(
    links: map<nat, L.Link<nat>>, nextPage: map<nat, nat>, live: map<nat, nat>, owner: map<nat, seq<nat>>)

  ghost predicate ListsOk(h: Head, d: Descs, v: Pool) {
    && ListsRep(d.links, h.partial, h.warm, h.cold, v.partial, v.warm, v.cold) && h.warmCount == |v.warm|
    && FlagsRep(d.inPartial, v.slabs, v.partial) && FlagsRep(d.decommitted, v.slabs, v.cold)
  }

  ghost predicate SlabsOk(c: SizeClass, key: nat, m: Mem, d: Descs, v: Pool, alias: map<SlabId, SlabId>) {
    && CountsRep(d.freeCount, d.retired, v.slabs)
    && ChainsRep(c, alias, key, m, d.freeHead, v.slabs, v.warm, v.cold)
    && DonorsRetired(alias, v.slabs)
  }

  ghost predicate ChunksOk(c: SizeClass, h: Head, k: Headers, v: Pool) {
    && L.DList(k.links, h.chunks, v.chunks)
    && OwnersRep(c, k.owner, v.nextPage)
    && k.nextPage == v.nextPage && k.live == v.live && h.active == v.active
    && h.nslabs == v.nslabs && h.outstanding == v.outstanding
  }

  // ... which hold of every structure that agrees on the fields they speak of.

  lemma ListsFrame(h: Head, h': Head, d: Descs, d': Descs, v: Pool, w: Pool)
    requires ListsOk(h, d, v) && w.slabs.Keys == v.slabs.Keys
    requires h'.partial == h.partial && h'.warm == h.warm && h'.cold == h.cold && h'.warmCount == h.warmCount
    requires d'.links == d.links && d'.inPartial == d.inPartial && d'.decommitted == d.decommitted
    requires w.partial == v.partial && w.warm == v.warm && w.cold == v.cold
    ensures ListsOk(h', d', w)
  {}

  lemma SlabsFrame(c: SizeClass, key: nat, m: Mem, d: Descs, d': Descs, v: Pool, w: Pool, alias: map<SlabId, SlabId>)
    requires SlabsOk(c, key, m, d, v, alias)
    requires d'.freeHead == d.freeHead && d'.freeCount == d.freeCount && d'.retired == d.retired
    requires w.slabs == v.slabs && w.warm == v.warm && w.cold == v.cold
    ensures SlabsOk(c, key, m, d', w, alias)
  {}

  // ---- bytes ----

  /** The bytes of every slot in xs, wherever it is stored, are unchanged. */
  ghost predicate Kept(c: SizeClass, alias: map<SlabId, SlabId>, m: Mem, m': Mem, xs: set<Slot>) {
    forall x {:trigger Backing(alias, x)} :: x in xs ==> SlotSame(c, m, m', Backing(alias, x))
  }

  lemma KeptTrans(c: SizeClass, alias: map<SlabId, SlabId>, m: Mem, m1: Mem, m2: Mem, xs: set<Slot>)
    requires Kept(c, alias, m, m1, xs) && Kept(c, alias, m1, m2, xs)
    ensures Kept(c, alias, m, m2, xs)
  {
    forall x | x in xs ensures SlotSame(c, m, m2, Backing(alias, x)) {
      assert SlotSame(c, m, m1, Backing(alias, x)) && SlotSame(c, m1, m2, Backing(alias, x));
    }
  }

  lemma KeptLess(c: SizeClass, alias: map<SlabId, SlabId>, m: Mem, m': Mem, xs: set<Slot>, ys: set<Slot>)
    requires Kept(c, alias, m, m', xs) && ys <= xs
    ensures Kept(c, alias, m, m', ys)
  {}

  lemma OnlyKept(c: SizeClass, alias: map<SlabId, SlabId>, m: Mem, m': Mem, xs: set<Slot>, ys: set<Slot>)
    requires Only(c, m, m', ys) && forall y :: y in ys ==> SlotOk(c, y)
    requires forall x {:trigger Backing(alias, x)} :: x in xs ==>
               SlotOk(c, Backing(alias, x)) && Backing(alias, x) !in ys
    ensures Kept(c, alias, m, m', xs)
  {
    forall x | x in xs ensures SlotSame(c, m, m', Backing(alias, x)) { OnlyElse(c, m, m', ys, Backing(alias, x)); }
  }

  /** A thread's chain of slots in use survives whatever keeps slots in use. */
  lemma ChainKept(c: SizeClass, alias: map<SlabId, SlabId>, m: Mem, m': Mem, key: nat, head: nat, xs: seq<Slot>,
                  ys: set<Slot>)
    requires ChainOf(c, alias, m, key, head, xs) && Kept(c, alias, m, m', ys)
    requires forall i :: 0 <= i < |xs| ==> xs[i] in ys
    ensures ChainOf(c, alias, m', key, head, xs)
  {
    forall i | 0 <= i < |xs| ensures SlotSame(c, m, m', Backing(alias, xs[i])) {}
    ChainOfSame(c, alias, m, m', key, head, xs);
  }

  // ---- freelists after one slab changed ----

  // Every slab other than s that has a freelist had the same one before.
  ghost predicate OthersSame(heads: map<SlabId, nat>, slabs: map<SlabId, Slab>, ws: seq<SlabId>, cs: seq<SlabId>,
                             heads': map<SlabId, nat>, slabs': map<SlabId, Slab>, ws': seq<SlabId>, cs': seq<SlabId>,
                             s: SlabId) {
    forall t :: t != s && Active(slabs', ws', cs', t) ==>
      Active(slabs, ws, cs, t) && slabs'[t] == slabs[t] && Num(heads', t) == Num(heads, t)
  }

  // The slots ys lie in slab s or are on no freelist.
  ghost predicate OffLists(slabs: map<SlabId, Slab>, s: SlabId, ys: set<Slot>) {
    forall y :: y in ys ==> y.slab == s || (y.slab in slabs && y.k !in slabs[y.slab].free)
  }

  lemma ChainUntouched(c: SizeClass, alias: map<SlabId, SlabId>, key: nat, m: Mem, m': Mem, heads: map<SlabId, nat>,
                       slabs: map<SlabId, Slab>, s: SlabId, t: SlabId, ys: set<Slot>)
    requires ChainRep(c, alias, key, m, heads, slabs, t) && t !in alias && t != s
    requires Only(c, m, m', ys) && OffLists(slabs, s, ys) && forall y :: y in ys ==> SlotOk(c, y)
    ensures ChainRep(c, alias, key, m', heads, slabs, t)
  {
    var xs := SlotsAt(t, slabs[t].free);
    forall i | 0 <= i < |xs| ensures Backing(alias, xs[i]) !in ys { assert xs[i].k == slabs[t].free[i]; }
    ChainOfOnly(c, alias, m, m', key, Num(heads, t), xs, ys);
  }

  lemma ChainsUpdate(c: SizeClass, alias: map<SlabId, SlabId>, key: nat, m: Mem, m': Mem,
                     heads: map<SlabId, nat>, slabs: map<SlabId, Slab>, ws: seq<SlabId>, cs: seq<SlabId>,
                     heads': map<SlabId, nat>, slabs': map<SlabId, Slab>, ws': seq<SlabId>, cs': seq<SlabId>,
                     s: SlabId, ys: set<Slot>)
    requires ChainsRep(c, alias, key, m, heads, slabs, ws, cs) && DonorsRetired(alias, slabs)
    requires OthersSame(heads, slabs, ws, cs, heads', slabs', ws', cs', s)
    requires Only(c, m, m', ys) && OffLists(slabs, s, ys) && forall y :: y in ys ==> SlotOk(c, y)
    requires Active(slabs', ws', cs', s) ==> ChainRep(c, alias, key, m', heads', slabs', s)
    ensures ChainsRep(c, alias, key, m', heads', slabs', ws', cs')
  {
    forall t | Active(slabs', ws', cs', t) ensures ChainRep(c, alias, key, m', heads', slabs', t) {
      if t != s {
        assert ChainRep(c, alias, key, m, heads, slabs, t);
        ChainUntouched(c, alias, key, m, m', heads, slabs, s, t, ys);
      }
    }
  }

  // Slabs may leave, or become empty, without any byte changing.
  lemma ChainsShrink(c: SizeClass, alias: map<SlabId, SlabId>, key: nat, m: Mem, heads: map<SlabId, nat>,
                     slabs: map<SlabId, Slab>, ws: seq<SlabId>, cs: seq<SlabId>,
                     slabs': map<SlabId, Slab>, ws': seq<SlabId>, cs': seq<SlabId>)
    requires ChainsRep(c, alias, key, m, heads, slabs, ws, cs)
    requires forall t :: Active(slabs', ws', cs', t) ==> Active(slabs, ws, cs, t) && slabs'[t] == slabs[t]
    ensures ChainsRep(c, alias, key, m, heads, slabs', ws', cs')
  {
    forall t | Active(slabs', ws', cs', t) ensures ChainRep(c, alias, key, m, heads, slabs', t) {
      assert ChainRep(c, alias, key, m, heads, slabs, t);
    }
  }

  // ---- lists ----

  lemma PushPartialRep(l: Nodes, partial: Option<SlabId>, warm: Option<SlabId>, cold: Option<SlabId>,
                       ps: seq<SlabId>, ws: seq<SlabId>, cs: seq<SlabId>, s: SlabId)
    requires ListsRep(l, partial, warm, cold, ps, ws, cs) && s !in ps && s !in ws && s !in cs
    ensures partial.Some? ==> partial.value in l
    ensures ListsRep(L.PushD(l, partial, s), Some(s), warm, cold, [s] + ps, ws, cs)
  {
    var l' := L.PushD(l, partial, s);
    L.PushDList(l, partial, ps, s);
    L.SListFrame(l, l', warm, ws);
    L.SListFrame(l, l', cold, cs);
  }

  lemma RemovePartialRep(l: Nodes, partial: Option<SlabId>, warm: Option<SlabId>, cold: Option<SlabId>,
                         ps: seq<SlabId>, ws: seq<SlabId>, cs: seq<SlabId>, s: SlabId)
    requires ListsRep(l, partial, warm, cold, ps, ws, cs) && s in ps
    ensures s in l && (l[s].prev.Some? ==> l[s].prev.value in l) && (l[s].next.Some? ==> l[s].next.value in l)
    ensures ListsRep(L.RemoveD(l, s), L.HeadAfter(l, partial, s), warm, cold, Without(ps, {s}), ws, cs)
    ensures s in L.RemoveD(l, s)
  {
    var i :| 0 <= i < |ps| && ps[i] == s;
    L.RemoveDList(l, partial, ps, i);
    L.RemoveDFrame(l, partial, ps, i);
    WithoutOne(ps, i);
    WithoutElems(ps, {s});
    L.SListFrame(l, L.RemoveD(l, s), warm, ws);
    L.SListFrame(l, L.RemoveD(l, s), cold, cs);
  }

  lemma PopWarmRep(l: Nodes, partial: Option<SlabId>, warm: Option<SlabId>, cold: Option<SlabId>,
                   ps: seq<SlabId>, ws: seq<SlabId>, cs: seq<SlabId>)
    requires ListsRep(l, partial, warm, cold, ps, ws, cs) && ws != []
    ensures warm == Some(ws[0]) && ws[0] in l && ListsRep(l, partial, l[ws[0]].next, cold, ps, ws[1..], cs)
  {
    L.PopSList(l, warm, ws);
  }

  lemma PopColdRep(l: Nodes, partial: Option<SlabId>, warm: Option<SlabId>, cold: Option<SlabId>,
                   ps: seq<SlabId>, ws: seq<SlabId>, cs: seq<SlabId>)
    requires ListsRep(l, partial, warm, cold, ps, ws, cs) && cs != []
    ensures cold == Some(cs[0]) && cs[0] in l && ListsRep(l, partial, warm, l[cs[0]].next, ps, ws, cs[1..])
  {
    L.PopSList(l, cold, cs);
  }

  lemma PushWarmRep(l: Nodes, partial: Option<SlabId>, warm: Option<SlabId>, cold: Option<SlabId>,
                    ps: seq<SlabId>, ws: seq<SlabId>, cs: seq<SlabId>, s: SlabId)
    requires ListsRep(l, partial, warm, cold, ps, ws, cs) && s in l && s !in ps && s !in ws && s !in cs
    ensures ListsRep(L.PushS(l, warm, s), partial, Some(s), cold, ps, [s] + ws, cs)
  {
    var l' := L.PushS(l, warm, s);
    L.PushSList(l, warm, ws, s);
    L.SListFrame(l, l', partial, ps);
    L.SListFrame(l, l', cold, cs);
  }

  lemma PushColdRep(l: Nodes, partial: Option<SlabId>, warm: Option<SlabId>, cold: Option<SlabId>,
                    ps: seq<SlabId>, ws: seq<SlabId>, cs: seq<SlabId>, s: SlabId)
    requires ListsRep(l, partial, warm, cold, ps, ws, cs) && s in l && s !in ps && s !in ws && s !in cs
    ensures ListsRep(L.PushS(l, cold, s), partial, warm, Some(s), ps, ws, [s] + cs)
  {
    var l' := L.PushS(l, cold, s);
    L.PushSList(l, cold, cs, s);
    L.SListFrame(l, l', partial, ps);
    L.SListFrame(l, l', warm, ws);
  }

  // ---- the same, on the structures ----

  lemma PushPartialOk(h: Head, d: Descs, v: Pool, s: SlabId)
    requires ListsOk(h, d, v) && s !in v.partial && s !in v.warm && s !in v.cold
    ensures h.partial.Some? ==> h.partial.value in d.links
    ensures ListsOk(h.(partial := Some(s)),
                    d.(links := L.PushD(d.links, h.partial, s), inPartial := d.inPartial[s := true]), Push(v, s))
  {
    PushPartialRep(d.links, h.partial, h.warm, h.cold, v.partial, v.warm, v.cold, s);
  }

  lemma RemovePartialOk(h: Head, d: Descs, v: Pool, s: SlabId)
    requires ListsOk(h, d, v) && s in v.partial
    ensures s in d.links && (d.links[s].prev.Some? ==> d.links[s].prev.value in d.links)
    ensures d.links[s].next.Some? ==> d.links[s].next.value in d.links
    ensures ListsOk(h.(partial := L.HeadAfter(d.links, h.partial, s)),
                    d.(links := L.RemoveD(d.links, s), inPartial := d.inPartial[s := false]),
                    v.(partial := Without(v.partial, {s})))
    ensures s in L.RemoveD(d.links, s)
  {
    RemovePartialRep(d.links, h.partial, h.warm, h.cold, v.partial, v.warm, v.cold, s);
    WithoutElems(v.partial, {s});
  }

  // An empty slab taken off its list leaves the pool until it is formatted.
  function TakenWarm(v: Pool): Pool
    requires v.warm != []
  {
    v.(warm := v.warm[1..], slabs := v.slabs - {v.warm[0]})
  }

  function TakenCold(v: Pool): Pool
    requires v.cold != []
  {
    v.(cold := v.cold[1..], slabs := v.slabs - {v.cold[0]})
  }

  lemma PopWarmOk(h: Head, d: Descs, v: Pool)
    requires ListsOk(h, d, v) && v.warm != []
    ensures h.warm == Some(v.warm[0]) && v.warm[0] in d.links && h.warmCount > 0
    ensures ListsOk(h.(warm := d.links[v.warm[0]].next, warmCount := h.warmCount - 1), d, TakenWarm(v))
  {
    PopWarmRep(d.links, h.partial, h.warm, h.cold, v.partial, v.warm, v.cold);
  }

  lemma PopColdOk(h: Head, d: Descs, v: Pool)
    requires ListsOk(h, d, v) && v.cold != []
    ensures h.cold == Some(v.cold[0]) && v.cold[0] in d.links
    ensures ListsOk(h.(cold := d.links[v.cold[0]].next), d, TakenCold(v))
  {
    PopColdRep(d.links, h.partial, h.warm, h.cold, v.partial, v.warm, v.cold);
    assert v.cold == [v.cold[0]] + v.cold[1..];
  }

  lemma SlabLeaves(c: SizeClass, key: nat, m: Mem, d: Descs, v: Pool, w: Pool, alias: map<SlabId, SlabId>, s: SlabId)
    requires SlabsOk(c, key, m, d, v, alias) && s !in alias && w.slabs == v.slabs - {s}
    requires forall t :: t != s ==> (t in w.warm <==> t in v.warm) && (t in w.cold <==> t in v.cold)
    ensures SlabsOk(c, key, m, d, w, alias)
  {
    ChainsShrink(c, alias, key, m, d.freeHead, v.slabs, v.warm, v.cold, w.slabs, w.warm, w.cold);
  }

  // ---- formatting and carving ----

  function FormatDescs(c: SizeClass, d: Descs, s: SlabId, head: nat, epoch: nat): Descs {
    d.(freeHead := d.freeHead[s := head], freeCount := d.freeCount[s := c.slots],
       inPartial := d.inPartial[s := false], retired := d.retired[s := false],
       decommitted := d.decommitted[s := false], pagedOut := d.pagedOut[s := false],
       epochOf := d.epochOf[s := epoch])
  }

  lemma FormatSlabsOk(c: SizeClass, key: nat, m: Mem, m': Mem, d: Descs, v: Pool, alias: map<SlabId, SlabId>,
                      s: SlabId, head: nat, epoch: nat)
    requires SlabsOk(c, key, m, d, v, alias) && SlabOk(c, s) && s !in v.slabs && s.chunk in v.live
    requires ChainOf(c, alias, m', key, head, SlotsAt(s, Iota(c.slots))) && Only(c, m, m', SlotSet(s, c.slots))
    ensures SlabsOk(c, key, m', FormatDescs(c, d, s, head, epoch), Format(c, v, s), alias)
  {
    var w := Format(c, v, s);
    ChainsUpdate(c, alias, key, m, m', d.freeHead, v.slabs, v.warm, v.cold,
                 d.freeHead[s := head], w.slabs, w.warm, w.cold, s, SlotSet(s, c.slots));
  }

  lemma FormatListsOk(c: SizeClass, h: Head, d: Descs, v: Pool, s: SlabId, head: nat, epoch: nat)
    requires ListsOk(h, d, v) && c.Valid() && s.chunk in v.live && s !in v.partial && s !in v.cold
    ensures ListsOk(h, FormatDescs(c, d, s, head, epoch), Format(c, v, s))
  {}

  lemma FormatChunksOk(c: SizeClass, h: Head, k: Headers, v: Pool, s: SlabId)
    requires ChunksOk(c, h, k, v) && c.Valid() && s.chunk in v.live
    ensures ChunksOk(c, h, k.(live := k.live[s.chunk := k.live[s.chunk] + 1]), Format(c, v, s))
  {}

  // The bump pointer moves past one run, whose pages get their owner.
  function Bumped(c: SizeClass, v: Pool, k: nat): Pool
    requires k in v.nextPage
  {
    v.(nextPage := v.nextPage[k := v.nextPage[k] + c.run], nslabs := v.nslabs + 1)
  }

  lemma BumpOwners(c: SizeClass, h: Head, k: Headers, v: Pool, a: nat, owner': seq<nat>)
    requires ChunksOk(c, h, k, v) && a in v.nextPage && v.nextPage[a] + c.run <= PAGES && |owner'| == PAGES
    requires forall p: nat :: p < PAGES ==>
               owner'[p] == if v.nextPage[a] <= p < v.nextPage[a] + c.run then v.nextPage[a] else k.owner[a][p]
    ensures ChunksOk(c, h.(nslabs := h.nslabs + 1),
                     k.(nextPage := k.nextPage[a := k.nextPage[a] + c.run], owner := k.owner[a := owner']),
                     Bumped(c, v, a))
  {
    CarveTiles(c, k.owner[a], v.nextPage[a], owner');
  }

  const UNOWNED: seq<nat> := seq(PAGES, _ => PAGE_NONE)

  lemma AddChunkOk(c: SizeClass, h: Head, k: Headers, v: Pool, a: nat)
    requires ChunksOk(c, h, k, v) && c.Valid() && a !in v.chunks
    ensures h.chunks.Some? ==> h.chunks.value in k.links
    ensures ChunksOk(c, h.(chunks := Some(a), active := Some(a)),
                     Headers(L.PushD(k.links, h.chunks, a), k.nextPage[a := DATA_START], k.live[a := 0],
                             k.owner[a := UNOWNED]), AddChunk(v, a))
  {
    L.PushDList(k.links, h.chunks, v.chunks, a);
  }

  // ---- taking a batch ----

  lemma SlotsAtSplit(s: SlabId, f: seq<nat>, n: nat)
    requires n <= |f|
    ensures SlotsAt(s, f)[..n] == SlotsAt(s, f[..n]) && SlotsAt(s, f)[n..] == SlotsAt(s, f[n..])
  {}

  lemma OwnBackings(alias: map<SlabId, SlabId>, s: SlabId, ks: seq<nat>)
    requires s !in alias
    ensures Backings(alias, SlotsAt(s, ks)) == Elems(SlotsAt(s, ks))
  {
    var xs := SlotsAt(s, ks);
    forall x | x in xs ensures Backing(alias, x) == x {}
    assert forall x :: x in Elems(xs) ==> x in xs && Backing(alias, x) in Backings(alias, xs);
  }

  function TakeDescs(d: Descs, s: SlabId, head: nat, n: nat, epoch: nat): Descs
    requires n <= Num(d.freeCount, s)
  {
    d.(freeHead := d.freeHead[s := head], freeCount := d.freeCount[s := Num(d.freeCount, s) - n],
       epochOf := d.epochOf[s := epoch], pagedOut := d.pagedOut[s := false])
  }

  // The slab's freelist without its first n slots.
  function Shortened(v: Pool, s: SlabId, n: nat): Pool
    requires s in v.slabs && n <= |v.slabs[s].free|
  {
    v.(slabs := v.slabs[s := v.slabs[s].(free := v.slabs[s].free[n..])], outstanding := v.outstanding + n)
  }

  lemma TakeSlabsOk(c: SizeClass, key: nat, m: Mem, m': Mem, d: Descs, v: Pool, alias: map<SlabId, SlabId>,
                    s: SlabId, head: nat, local: nat, n: nat, epoch: nat)
    requires SlabsOk(c, key, m, d, v, alias) && Active(v.slabs, v.warm, v.cold, s)
    requires OkSlots(c, alias, SlotsAt(s, v.slabs[s].free))
    requires Split(c, alias, m, m', key, head, local, SlotsAt(s, v.slabs[s].free), n)
    ensures n <= Num(d.freeCount, s)
    ensures SlabsOk(c, key, m', TakeDescs(d, s, head, n, epoch), Shortened(v, s, n), alias)
    ensures var b := SlotsAt(s, v.slabs[s].free[..n]);
            ChainOf(c, alias, m', key, local, Reverse(b)) && Only(c, m, m', Elems(b))
  {
    var f := v.slabs[s].free;
    var w, b := Shortened(v, s, n), SlotsAt(s, f[..n]);
    SlotsAtSplit(s, f, n);
    OwnBackings(alias, s, f[..n]);
    forall x | x in Elems(b) ensures SlotOk(c, x) && x.slab == s { BatchSlotOk(c, alias, s, f, n, x); }
    ChainsUpdate(c, alias, key, m, m', d.freeHead, v.slabs, v.warm, v.cold,
                 d.freeHead[s := head], w.slabs, w.warm, w.cold, s, Elems(b));
  }

  lemma TakeListsOk(h: Head, d: Descs, v: Pool, s: SlabId, n: nat, head: nat, epoch: nat)
    requires ListsOk(h, d, v) && s in v.slabs && n <= |v.slabs[s].free| && n <= Num(d.freeCount, s)
    ensures ListsOk(h.(outstanding := h.outstanding + n), TakeDescs(d, s, head, n, epoch), Shortened(v, s, n))
  {}

  // The slots a refill takes, in the order they are chained.
  ghost function BatchOf(s: SlabId, f: seq<nat>, want: nat): seq<Slot> { Reverse(SlotsAt(s, f[..Grabbed(f, want)])) }

  // Take, once the slab's freelist has been shortened.
  lemma TakeIs(v: Pool, want: nat)
    requires v.partial != [] && v.partial[0] in v.slabs && NoDup(v.partial)
    ensures var s := v.partial[0]; var f := v.slabs[s].free; var w := Shortened(v, s, Grabbed(f, want));
            Take(v, want) == Taken(if Grabbed(f, want) == |f| then w.(partial := Without(w.partial, {s})) else w,
                                   BatchOf(s, f, want))
  {
    WithoutFirst(v.partial);
    var s := v.partial[0];
    assert Shortened(v, s, Grabbed(v.slabs[s].free, want)).partial == v.partial;
  }

  lemma WithoutFirst(l: seq<SlabId>)
    requires l != [] && NoDup(l)
    ensures Without(l, {l[0]}) == l[1..]
  {
    WithoutOne(l, 0);
    assert l[..0] + l[1..] == l[1..];
  }

  lemma BatchSlotOk(c: SizeClass, alias: map<SlabId, SlabId>, s: SlabId, f: seq<nat>, n: nat, x: Slot)
    requires OkSlots(c, alias, SlotsAt(s, f)) && n <= |f| && x in SlotsAt(s, f[..n])
    ensures SlotOk(c, x) && x.slab == s
  {
    var i :| 0 <= i < n && SlotsAt(s, f[..n])[i] == x;
    assert SlotsAt(s, f)[i] == x;
    assert PlacedOk(c, alias, SlotsAt(s, f)[i]);
  }

  // ---- returning a slot ----

  function ReturnDescs(d: Descs, s: SlabId, p: nat, epoch: nat): Descs {
    d.(freeHead := d.freeHead[s := p], freeCount := d.freeCount[s := Num(d.freeCount, s) + 1],
       epochOf := d.epochOf[s := epoch], pagedOut := d.pagedOut[s := false])
  }

  lemma SlotsAtCons(x: Slot, f: seq<nat>)
    ensures SlotsAt(x.slab, [x.k] + f) == [x] + SlotsAt(x.slab, f)
  {}

  lemma ReturnChain(c: SizeClass, key: nat, m: Mem, heads: map<SlabId, nat>, v: Pool, alias: map<SlabId, SlabId>,
                    x: Slot)
    requires x.slab in v.slabs && key < WORD && PlacedOk(c, alias, x)
    requires ChainRep(c, alias, key, m, heads, v.slabs, x.slab)
    requires x.k !in v.slabs[x.slab].free && OffLists(v.slabs, x.slab, {Backing(alias, x)})
    ensures var m' := SetLink(m, key, Place(c, alias, x), Addr(c, x), Num(heads, x.slab));
            ChainRep(c, alias, key, m', heads[x.slab := Addr(c, x)], Return(v, x).slabs, x.slab)
  {
    PushSlot(c, alias, m, key, Num(heads, x.slab), SlotsAt(x.slab, v.slabs[x.slab].free), x);
    SlotsAtCons(x, v.slabs[x.slab].free);
  }

  lemma ReturnSlabsOk(c: SizeClass, key: nat, m: Mem, d: Descs, v: Pool, alias: map<SlabId, SlabId>, x: Slot,
                      epoch: nat)
    requires SlabsOk(c, key, m, d, v, alias) && x.slab in v.slabs && key < WORD && PlacedOk(c, alias, x)
    requires x.k !in v.slabs[x.slab].free && OffLists(v.slabs, x.slab, {Backing(alias, x)})
    requires x.slab !in v.warm && x.slab !in v.cold
    ensures var m' := SetLink(m, key, Place(c, alias, x), Addr(c, x), Num(d.freeHead, x.slab));
            && SlabsOk(c, key, m', ReturnDescs(d, x.slab, Addr(c, x), epoch), Return(v, x), alias)
            && Only(c, m, m', {Backing(alias, x)})
  {
    var s := x.slab;
    var m' := SetLink(m, key, Place(c, alias, x), Addr(c, x), Num(d.freeHead, s));
    var w := Return(v, x);
    SetLinkOnly(c, alias, m, key, x, Num(d.freeHead, s));
    if !v.slabs[s].retired { ReturnChain(c, key, m, d.freeHead, v, alias, x); }
    ChainsUpdate(c, alias, key, m, m', d.freeHead, v.slabs, v.warm, v.cold,
                 d.freeHead[s := Addr(c, x)], w.slabs, w.warm, w.cold, s, {Backing(alias, x)});
  }

  // ---- purging one chunk's slabs from an empty list ----

  function OfChunk(list: seq<SlabId>, k: nat): set<SlabId> {
    set s | s in list && s.chunk == k
  }

  // The list has been walked up to position i; `done` is what was kept.
  ghost predicate Purging(l0: Nodes, l: Nodes, head: Option<SlabId>, prev: Option<SlabId>, cur: Option<SlabId>,
                          list: seq<SlabId>, k: nat, i: nat, done: seq<SlabId>) {
    && i <= |list| && done == Without(list[..i], OfChunk(list, k))
    && L.SList(l, head, done + list[i..])
    && prev == L.At(done, |done| - 1) && cur == L.At(list, i)
    && L.SameOff(l0, l, list) && l.Keys == l0.Keys
  }

  lemma WithoutSnoc(s: seq<SlabId>, i: nat, drop: set<SlabId>)
    requires i < |s|
    ensures Without(s[..i + 1], drop) == if s[i] in drop then Without(s[..i], drop) else Without(s[..i], drop) + [s[i]]
  {
    assert s[..i + 1] == s[..i] + [s[i]];
    WithoutConcat(s[..i], [s[i]], drop);
  }

  lemma PurgeKeep(l0: Nodes, l: Nodes, head: Option<SlabId>, prev: Option<SlabId>, cur: Option<SlabId>,
                  list: seq<SlabId>, k: nat, i: nat, done: seq<SlabId>)
    requires Purging(l0, l, head, prev, cur, list, k, i, done) && i < |list| && list[i].chunk != k
    ensures list[i] in l && Purging(l0, l, head, Some(list[i]), l[list[i]].next, list, k, i + 1, done + [list[i]])
  {
    WithoutSnoc(list, i, OfChunk(list, k));
    var all := done + list[i..];
    assert all[|done|] == list[i];
    assert l[all[|done|]].next == L.At(all, |done| + 1);
    Shift(done, list, i);
  }

  lemma Shift(done: seq<SlabId>, list: seq<SlabId>, i: nat)
    requires i < |list|
    ensures done + [list[i]] + list[i + 1..] == done + list[i..]
    ensures L.At(done + list[i..], |done| + 1) == L.At(list, i + 1)
  {}

  lemma PurgeDrop(l0: Nodes, l: Nodes, head: Option<SlabId>, prev: Option<SlabId>, cur: Option<SlabId>,
                  list: seq<SlabId>, k: nat, i: nat, done: seq<SlabId>)
    requires Purging(l0, l, head, prev, cur, list, k, i, done) && i < |list| && list[i].chunk == k
    ensures list[i] in l && (prev.Some? ==> prev.value in l)
    ensures Purging(l0, L.Bypass(l, prev, l[list[i]].next), if prev.Some? then head else l[list[i]].next,
                    prev, l[list[i]].next, list, k, i + 1, done)
  {
    WithoutSnoc(list, i, OfChunk(list, k));
    assert done + list[i..] == done + [list[i]] + list[i + 1..];
    L.BypassList(l, head, done, list[i], list[i + 1..]);
    PurgeFrame(l0, l, prev, l[list[i]].next, list, k, i, done);
  }

  lemma PurgeFrame(l0: Nodes, l: Nodes, prev: Option<SlabId>, next: Option<SlabId>, list: seq<SlabId>, k: nat, i: nat,
                   done: seq<SlabId>)
    requires L.SameOff(l0, l, list) && l.Keys == l0.Keys && i <= |list|
    requires done == Without(list[..i], OfChunk(list, k)) && prev == L.At(done, |done| - 1)
    requires prev.Some? ==> prev.value in l
    ensures L.SameOff(l0, L.Bypass(l, prev, next), list) && L.Bypass(l, prev, next).Keys == l0.Keys
  {
    if prev.Some? {
      WithoutElems(list[..i], OfChunk(list, k));
      assert prev.value in done;
      assert prev.value in list[..i] && prev.value in list;
    }
  }

  /** purge_empties_of_chunk, one list: every slab of chunk k is unlinked and the
      rest keeps its order. */
  method PurgeList(l: Nodes, head: Option<SlabId>, count: nat, k: nat, ghost list: seq<SlabId>)
    returns (l': Nodes, head': Option<SlabId>, count': int)
    requires L.SList(l, head, list)
    ensures L.SList(l', head', Without(list, OfChunk(list, k)))
    ensures L.SameOff(l, l', list) && l'.Keys == l.Keys
    ensures count' == count - (|list| - |Without(list, OfChunk(list, k))|)
  {
    l', head', count' := l, head, count;
    var prev: Option<SlabId> := None;
    var cur := head;
    ghost var i, done := 0, [];
    assert [] + list[0..] == list;
    while cur.Some?
      invariant Purging(l, l', head', prev, cur, list, k, i, done)
      invariant count' == count - (i - |done|)
      decreases |list| - i
    {
      if cur.value.chunk == k {
        PurgeDrop(l, l', head', prev, cur, list, k, i, done);
        var next := l'[cur.value].next;
        if prev.Some? { l' := L.Bypass(l', prev, next); } else { head' := next; }
        cur, count' := next, count' - 1;
      } else {
        PurgeKeep(l, l', head', prev, cur, list, k, i, done);
        done := done + [cur.value];
        prev, cur := cur, l'[cur.value].next;
      }
      i := i + 1;
    }
    assert list[..i] == list && done + list[i..] == done;
  }

  // ---- a drained slab ----

  lemma PushWarmOk(c: SizeClass, key: nat, m: Mem, h: Head, d: Descs, v: Pool, alias: map<SlabId, SlabId>, s: SlabId)
    requires ListsOk(h, d, v) && SlabsOk(c, key, m, d, v, alias)
    requires s in d.links && s !in v.partial && s !in v.warm && s !in v.cold
    ensures var w, d' := v.(warm := [s] + v.warm), d.(links := L.PushS(d.links, h.warm, s));
            && ListsOk(h.(warm := Some(s), warmCount := h.warmCount + 1), d', w)
            && SlabsOk(c, key, m, d', w, alias)
  {
    PushWarmRep(d.links, h.partial, h.warm, h.cold, v.partial, v.warm, v.cold, s);
    ChainsShrink(c, alias, key, m, d.freeHead, v.slabs, v.warm, v.cold, v.slabs, [s] + v.warm, v.cold);
  }

  // The slab's pages are handed back to the kernel and read as zero.
  function Discard(c: SizeClass, m: Mem, s: SlabId): Mem {
    map a | a in m && !(Data(s) <= a < Data(s) + c.run * PAGE) :: m[a]
  }

  lemma DiscardSame(c: SizeClass, m: Mem, s: SlabId, y: Slot)
    requires SlabOk(c, s) && SlotOk(c, y) && y.slab != s
    ensures SlotSame(c, m, Discard(c, m, s), y)
  {
    SlotBounds(c, y);
    RunsApart(c, s, y.slab);
  }

  lemma DiscardChain(c: SizeClass, key: nat, m: Mem, heads: map<SlabId, nat>, slabs: map<SlabId, Slab>,
                     alias: map<SlabId, SlabId>, s: SlabId, t: SlabId)
    requires SlabOk(c, s) && t != s && t !in alias && ChainRep(c, alias, key, m, heads, slabs, t)
    ensures ChainRep(c, alias, key, Discard(c, m, s), heads, slabs, t)
  {
    var xs := SlotsAt(t, slabs[t].free);
    forall i | 0 <= i < |xs| ensures SlotSame(c, m, Discard(c, m, s), Backing(alias, xs[i])) {
      assert PlacedOk(c, alias, xs[i]);
      DiscardSame(c, m, s, xs[i]);
    }
    ChainOfSame(c, alias, m, Discard(c, m, s), key, Num(heads, t), xs);
  }

  lemma PushColdOk(c: SizeClass, key: nat, m: Mem, h: Head, d: Descs, v: Pool, alias: map<SlabId, SlabId>, s: SlabId)
    requires ListsOk(h, d, v) && SlabsOk(c, key, m, d, v, alias) && SlabOk(c, s)
    requires s in d.links && s !in v.partial && s !in v.warm && s !in v.cold
    ensures var w := v.(cold := [s] + v.cold);
            var d' := d.(links := L.PushS(d.links, h.cold, s), decommitted := d.decommitted[s := true]);
            && ListsOk(h.(cold := Some(s)), d', w)
            && SlabsOk(c, key, Discard(c, m, s), d', w, alias)
  {
    PushColdRep(d.links, h.partial, h.warm, h.cold, v.partial, v.warm, v.cold, s);
    var w := v.(cold := [s] + v.cold);
    forall t | Active(w.slabs, w.warm, w.cold, t)
      ensures ChainRep(c, alias, key, Discard(c, m, s), d.freeHead, w.slabs, t) {
      assert ChainRep(c, alias, key, m, d.freeHead, v.slabs, t);
      DiscardChain(c, key, m, d.freeHead, v.slabs, alias, s, t);
    }
  }

  // ---- a drained chunk ----

  lemma PurgedLists(l: Nodes, l1: Nodes, l2: Nodes, partial: Option<SlabId>, warm: Option<SlabId>, cold: Option<SlabId>,
                    warm1: Option<SlabId>, cold1: Option<SlabId>, ps: seq<SlabId>, ws: seq<SlabId>, cs: seq<SlabId>,
                    k: nat)
    requires ListsRep(l, partial, warm, cold, ps, ws, cs)
    requires L.SList(l1, warm1, Without(ws, OfChunk(ws, k))) && L.SameOff(l, l1, ws)
    requires L.SList(l2, cold1, Without(cs, OfChunk(cs, k))) && L.SameOff(l1, l2, cs)
    ensures ListsRep(l2, partial, warm1, cold1, ps, Without(ws, OfChunk(ws, k)), Without(cs, OfChunk(cs, k)))
  {
    WithoutElems(ws, OfChunk(ws, k));
    WithoutElems(cs, OfChunk(cs, k));
    L.SListFrame(l, l1, partial, ps);
    L.SListFrame(l1, l2, partial, ps);
    L.SListFrame(l1, l2, warm1, Without(ws, OfChunk(ws, k)));
  }

  /** purge_empties_of_chunk: both empty lists, and the count of the warm one. */
  method PurgeEmpties(h: Head, d: Descs, k: nat, ghost v: Pool)
    returns (l: Nodes, warm: Option<SlabId>, cold: Option<SlabId>, count: nat)
    requires ListsOk(h, d, v)
    ensures ListsOk(h.(warm := warm, cold := cold, warmCount := count), d.(links := l), DropChunk(v, k))
  {
    var l1, n;
    l1, warm, n := PurgeList(d.links, h.warm, h.warmCount, k, v.warm);
    L.SListFrame(d.links, l1, h.cold, v.cold);
    count := n;
    l, cold, n := PurgeList(l1, h.cold, 0, k, v.cold);
    PurgedLists(d.links, l1, l, h.partial, h.warm, h.cold, warm, cold, v.partial, v.warm, v.cold, k);
    DropListsOk(h, d, v, k, l, warm, cold, count);
  }

  lemma DropListsOk(h: Head, d: Descs, v: Pool, k: nat, l2: Nodes, warm1: Option<SlabId>, cold1: Option<SlabId>,
                    count: nat)
    requires ListsOk(h, d, v) && count == |DropChunk(v, k).warm|
    requires ListsRep(l2, h.partial, warm1, cold1, v.partial, DropChunk(v, k).warm, DropChunk(v, k).cold)
    ensures ListsOk(h.(warm := warm1, cold := cold1, warmCount := count), d.(links := l2), DropChunk(v, k))
  {
    WithoutElems(v.cold, OfChunk(v.cold, k));
  }

  lemma DropSlabsOk(c: SizeClass, key: nat, m: Mem, d: Descs, v: Pool, alias: map<SlabId, SlabId>, k: nat, l2: Nodes)
    requires SlabsOk(c, key, m, d, v, alias) && forall e :: e in alias ==> e.chunk != k
    ensures SlabsOk(c, key, m, d.(links := l2), DropChunk(v, k), alias)
  {
    WithoutElems(v.warm, OfChunk(v.warm, k));
    WithoutElems(v.cold, OfChunk(v.cold, k));
    var w := DropChunk(v, k);
    ChainsShrink(c, alias, key, m, d.freeHead, v.slabs, v.warm, v.cold, w.slabs, w.warm, w.cold);
  }

  lemma DropChunksOk(c: SizeClass, h: Head, k: Headers, v: Pool, a: nat)
    requires ChunksOk(c, h, k, v) && a in v.chunks
    ensures a in k.links && (k.links[a].prev.Some? ==> k.links[a].prev.value in k.links)
    ensures k.links[a].next.Some? ==> k.links[a].next.value in k.links
    ensures ChunksOk(c, h.(chunks := L.HeadAfter(k.links, h.chunks, a),
                           active := if h.active == Some(a) then None else h.active),
                     Headers(L.RemoveD(k.links, a), k.nextPage - {a}, k.live - {a}, k.owner), DropChunk(v, a))
  {
    var i :| 0 <= i < |v.chunks| && v.chunks[i] == a;
    L.RemoveDList(k.links, h.chunks, v.chunks, i);
    WithoutOne(v.chunks, i);
  }

  // ---- what the pool invariant says of the slabs an operation touches ----

  lemma SlabKnown(c: SizeClass, v: Pool, out: set<Slot>, hidden: set<Slot>, s: SlabId)
    requires Core(c, v, out, hidden) && s in v.slabs
    ensures SlabOk(c, s) && s.chunk in v.live && s.chunk in v.nextPage && s.page + c.run <= v.nextPage[s.chunk]
  {
    assert Carved(c.run, v.nextPage, s);
  }

  lemma EmptyKnown(c: SizeClass, v: Pool, out: set<Slot>, hidden: set<Slot>, alias: map<SlabId, SlabId>, s: SlabId)
    requires PoolInv(c, v, out, hidden) && DonorsRetired(alias, v.slabs) && (s in v.warm || s in v.cold)
    ensures s in v.slabs && SlabOk(c, s) && s.chunk in v.live && s !in alias
    ensures s !in v.partial && !(s in v.warm && s in v.cold) && |v.slabs[s].free| == c.slots
    ensures forall x :: x in out || x in hidden ==> x.slab != s
  {
    SlabKnown(c, v, out, hidden, s);
    assert Placed(c.slots, v, hidden, s);
    FreeSlabIdle(c.slots, v.slabs, out, hidden, s);
  }

  // Slab s is on no list of the pool and about to be formatted.
  ghost predicate Detached(c: SizeClass, v: Pool, s: SlabId) {
    && SlabOk(c, s) && s !in v.slabs && s.chunk in v.live
    && s !in v.partial && s !in v.warm && s !in v.cold
  }

  ghost predicate CanCut(c: SizeClass, v: Pool, k: nat) {
    && k in v.nextPage && k in v.live && v.nextPage[k] + c.run <= PAGES
    && Detached(c, v, NextSlab(v, k))
  }

  // No slab of the pool, listed or carved, is in chunk a.
  ghost predicate NewTo(v: Pool, a: nat) {
    && a !in v.chunks && a !in v.live
    && (forall s :: s in v.slabs ==> s.chunk != a)
    && (forall s :: s in v.partial || s in v.warm || s in v.cold ==> s.chunk != a)
  }

  // What btm_slab_new relies on, case by case.
  ghost predicate NewPlan(c: SizeClass, v: Pool, got: Option<nat>, alias: map<SlabId, SlabId>) {
    && c.Valid() && Indexed(v)
    && if v.warm != [] then v.warm[0] !in alias && Detached(c, TakenWarm(v), v.warm[0])
       else if v.cold != [] then v.cold[0] !in alias && Detached(c, TakenCold(v), v.cold[0])
       else if !NeedsChunk(c, v) then CanCut(c, v, v.active.value)
       else got.Some? ==> NewTo(v, got.value) && CanCut(c, AddChunk(v, got.value), got.value)
  }

  // What btm_slab_new does to the pool, and the slab it returns.
  ghost predicate NewSlab(c: SizeClass, v: Pool, got: Option<nat>, v': Pool, s: Option<SlabId>) {
    && c.Valid() && Indexed(v)
    && SlabNew(c, v, got) == (if s.Some? then Some((v', s.value)) else None)
    && (s.None? ==> v' == v)
  }

  lemma WarmDetached(c: SizeClass, v: Pool, out: set<Slot>, hidden: set<Slot>, alias: map<SlabId, SlabId>)
    requires PoolInv(c, v, out, hidden) && DonorsRetired(alias, v.slabs) && v.warm != []
    ensures v.warm[0] !in alias && Detached(c, TakenWarm(v), v.warm[0])
  {
    EmptyKnown(c, v, out, hidden, alias, v.warm[0]);
    NoDupTail(v.warm);
  }

  lemma ColdDetached(c: SizeClass, v: Pool, out: set<Slot>, hidden: set<Slot>, alias: map<SlabId, SlabId>)
    requires PoolInv(c, v, out, hidden) && DonorsRetired(alias, v.slabs) && v.cold != [] && v.warm == []
    ensures v.cold[0] !in alias && Detached(c, TakenCold(v), v.cold[0])
  {
    EmptyKnown(c, v, out, hidden, alias, v.cold[0]);
    NoDupTail(v.cold);
  }

  lemma CutReady(c: SizeClass, v: Pool, out: set<Slot>, hidden: set<Slot>, k: nat)
    requires CanCarve(c, v, out, hidden, k)
    ensures CanCut(c, v, k)
  {
    CarvedNext(c, v.nextPage, k, NextSlab(v, k));
  }

  lemma PlanReady(c: SizeClass, v: Pool, out: set<Slot>, hidden: set<Slot>, alias: map<SlabId, SlabId>,
                  got: Option<nat>)
    requires PoolInv(c, v, out, hidden) && DonorsRetired(alias, v.slabs) && FreshOk(v, got)
    ensures NewPlan(c, v, got, alias)
  {
    IndexedOk(c, v, out, hidden);
    if v.warm != [] {
      WarmDetached(c, v, out, hidden, alias);
    } else if v.cold != [] {
      ColdDetached(c, v, out, hidden, alias);
    } else if !NeedsChunk(c, v) {
      CutReady(c, v, out, hidden, v.active.value);
    } else if got.Some? {
      FreshNew(c, v, out, hidden, got.value);
      AddChunkCanCarve(c, v, out, hidden, got.value);
      CutReady(c, AddChunk(v, got.value), out, hidden, got.value);
    }
  }

  lemma FreshNew(c: SizeClass, v: Pool, out: set<Slot>, hidden: set<Slot>, a: nat)
    requires PoolInv(c, v, out, hidden) && a !in v.live
    ensures NewTo(v, a)
  {
    IndexedOk(c, v, out, hidden);
  }

  // A slab taken off its list and formatted again.
  lemma Reformatted(c: SizeClass, v: Pool, got: Option<nat>)
    requires c.Valid() && Indexed(v)
    ensures v.warm != [] ==> NewSlab(c, v, got, Format(c, TakenWarm(v), v.warm[0]), Some(v.warm[0]))
    ensures v.warm == [] && v.cold != [] ==> NewSlab(c, v, got, Format(c, TakenCold(v), v.cold[0]), Some(v.cold[0]))
  {
    var x := Slab(Iota(c.slots), false);
    if v.warm != [] { assert (v.slabs - {v.warm[0]})[v.warm[0] := x] == v.slabs[v.warm[0] := x]; }
    if v.cold != [] { assert (v.slabs - {v.cold[0]})[v.cold[0] := x] == v.slabs[v.cold[0] := x]; }
  }

  lemma NewSlabIdle(c: SizeClass, v: Pool, got: Option<nat>, v': Pool, s: SlabId, out: set<Slot>, hidden: set<Slot>)
    requires PoolInv(c, v, out, hidden) && FreshOk(v, got) && NewSlab(c, v, got, v', Some(s))
    ensures SlabOk(c, s) && Unplaced(c, v', out, hidden, s)
    ensures forall x :: x in out || x in hidden ==> x.slab != s
  {
    SlabNewUnplaced(c, v, got, out, hidden);
    SlabKnown(c, v', out, hidden, s);
    FreeSlabIdle(c.slots, v'.slabs, out, hidden, s);
  }

  /** Formatting a slab none of whose slots is in use or hidden changes no slot in use. */
  lemma FormatKeeps(c: SizeClass, alias: map<SlabId, SlabId>, m: Mem, m': Mem, v: Pool, out: set<Slot>,
                    hidden: set<Slot>, s: SlabId)
    requires Core(c, v, out, hidden) && Backed(out, hidden, alias) && SlabOk(c, s)
    requires forall x :: x in out || x in hidden ==> x.slab != s
    requires Only(c, m, m', SlotSet(s, c.slots))
    ensures Kept(c, alias, m, m', out)
  {
    forall x | x in out ensures SlotOk(c, Backing(alias, x)) && Backing(alias, x) !in SlotSet(s, c.slots) {
      BackingHeld(c, v, out, hidden, alias, x);
    }
    OnlyKept(c, alias, m, m', out, SlotSet(s, c.slots));
  }

  /** Slots taken from a freelist are none of those in use. */
  lemma TakeKeeps(c: SizeClass, alias: map<SlabId, SlabId>, m: Mem, m': Mem, v: Pool, out: set<Slot>, hidden: set<Slot>,
                  want: nat)
    requires CanTake(c, v, out, hidden) && Backed(out, hidden, alias)
    requires Only(c, m, m', Elems(Take(v, want).batch))
    ensures Kept(c, alias, m, m', out)
  {
    var s, b := v.partial[0], Elems(Take(v, want).batch);
    var f := v.slabs[s].free;
    SlabKnown(c, v, out, hidden, s);
    assert SlabParts(c.slots, s, f, out, hidden);
    BatchElems(v, want);
    forall y | y in b ensures SlotOk(c, y) && y.slab == s && y.k in f { assert y in Take(v, want).batch; }
    forall x | x in out ensures SlotOk(c, Backing(alias, x)) && Backing(alias, x) !in b {
      BackingHeld(c, v, out, hidden, alias, x);
    }
    OnlyKept(c, alias, m, m', out, b);
  }

  // ---- refill as a whole ----

  ghost predicate RefillPlan(c: SizeClass, v: Pool, got: Option<nat>, alias: map<SlabId, SlabId>) {
    && c.Valid() && Indexed(v)
    && if v.partial != [] then Active(v.slabs, v.warm, v.cold, v.partial[0]) && SlabOk(c, v.partial[0])
    && v.partial[0].chunk in v.live
       else NewPlan(c, v, got, alias)
  }

  // The slab a refill formats, if it has to make one.
  function MadeSlab(c: SizeClass, v: Pool, got: Option<nat>): Option<SlabId>
    requires c.Valid() && Indexed(v)
  {
    if v.partial != [] then None
    else match SlabNew(c, v, got) case None => None case Some(r) => Some(r.1)
  }

  function MadeSlots(c: SizeClass, s: Option<SlabId>): set<Slot> {
    if s.Some? then SlotSet(s.value, c.slots) else {}
  }

  lemma RefillReady(c: SizeClass, v: Pool, out: set<Slot>, hidden: set<Slot>, alias: map<SlabId, SlabId>,
                    got: Option<nat>)
    requires PoolInv(c, v, out, hidden) && DonorsRetired(alias, v.slabs) && FreshOk(v, got)
    ensures RefillPlan(c, v, got, alias)
  {
    PlanReady(c, v, out, hidden, alias, got);
    if v.partial != [] {
      assert Placed(c.slots, v, hidden, v.partial[0]);
      SlabKnown(c, v, out, hidden, v.partial[0]);
    }
  }

  lemma NewSlabActive(c: SizeClass, v: Pool, got: Option<nat>, alias: map<SlabId, SlabId>, w: Pool, s: SlabId)
    requires NewPlan(c, v, got, alias) && NewSlab(c, v, got, w, Some(s))
    ensures Active(w.slabs, w.warm, w.cold, s) && s !in w.partial && SlabOk(c, s) && s.chunk in w.live
  {}

  lemma MadeKeeps(c: SizeClass, alias: map<SlabId, SlabId>, m: Mem, m': Mem, v: Pool, w: Pool, s: SlabId,
                  out: set<Slot>, hidden: set<Slot>, want: nat, got: Option<nat>)
    requires PoolInv(c, v, out, hidden) && Backed(out, hidden, alias) && FreshOk(v, got)
    requires v.partial == [] && NewSlab(c, v, got, w, Some(s))
    requires Push(w, s).partial[0] in Push(w, s).slabs
    requires Only(c, m, m', SlotSet(s, c.slots) + Elems(Take(Push(w, s), want).batch))
    ensures Kept(c, alias, m, m', out)
  {
    NewSlabIdle(c, v, got, w, s, out, hidden);
    BatchInside(Push(w, s), want, c.slots);
    FormatKeeps(c, alias, m, m', v, out, hidden, s);
  }

  // A batch taken from a formatted slab adds no slot to those formatting wrote.
  lemma BatchInside(v: Pool, want: nat, n: nat)
    requires v.partial != [] && v.partial[0] in v.slabs && v.slabs[v.partial[0]].free == Iota(n)
    ensures SlotSet(v.partial[0], n) + Elems(Take(v, want).batch) == SlotSet(v.partial[0], n)
  {
    var s, b := v.partial[0], Take(v, want).batch;
    BatchElems(v, want);
    forall x | x in Elems(b) ensures x in SlotSet(s, n) {
      assert x in b && x.k in v.slabs[s].free;
    }
  }

  lemma RefillKeeps(c: SizeClass, alias: map<SlabId, SlabId>, m: Mem, m': Mem, v: Pool, t: Taken, out: set<Slot>,
                    hidden: set<Slot>, want: nat, got: Option<nat>)
    requires PoolInv(c, v, out, hidden) && Backed(out, hidden, alias) && FreshOk(v, got) && Refills(c, v, want, got, t)
    requires Only(c, m, m', MadeSlots(c, MadeSlab(c, v, got)) + Elems(t.batch))
    ensures Kept(c, alias, m, m', out)
  {
    if v.partial != [] {
      InvCanTake(c, v, out, hidden);
      assert {} + Elems(t.batch) == Elems(t.batch);
      TakeKeeps(c, alias, m, m', v, out, hidden, want);
    } else if SlabNew(c, v, got).Some? {
      var (w, s) := SlabNew(c, v, got).value;
      NewSlabIdle(c, v, got, w, s, out, hidden);
      MadeKeeps(c, alias, m, m', v, w, s, out, hidden, want, got);
    } else {
      NothingKept(c, alias, m, m', v, out, hidden);
    }
  }

  lemma NothingKept(c: SizeClass, alias: map<SlabId, SlabId>, m: Mem, m': Mem, v: Pool, out: set<Slot>,
                    hidden: set<Slot>)
    requires Core(c, v, out, hidden) && Backed(out, hidden, alias) && Only(c, m, m', {})
    ensures Kept(c, alias, m, m', out)
  {
    forall x | x in out ensures SlotOk(c, Backing(alias, x)) { BackingHeld(c, v, out, hidden, alias, x); }
    OnlyKept(c, alias, m, m', out, {});
  }

  lemma RefillDone(c: SizeClass, alias: map<SlabId, SlabId>, m: Mem, m': Mem, v: Pool, t: Taken, out: set<Slot>,
                   hidden: set<Slot>, want: nat, got: Option<nat>)
    requires PoolInv(c, v, out, hidden) && AliasOk(v, out, hidden, alias) && FreshOk(v, got) && want >= 1
    requires Refills(c, v, want, got, t) && Only(c, m, m', MadeSlots(c, MadeSlab(c, v, got)) + Elems(t.batch))
    ensures PoolInv(c, t.pool, out + Elems(t.batch), hidden)
    ensures AliasOk(t.pool, out + Elems(t.batch), hidden, alias)
    ensures NoDup(t.batch) && Elems(t.batch) !! out && |t.batch| <= want
    ensures t.batch == [] <==> RefillFails(c, v, got)
    ensures Kept(c, alias, m, m', out)
  {
    RefillInv(c, v, out, hidden, want, got);
    AliasRefill(c, v, out, hidden, alias, want, got, t);
    RefillKeeps(c, alias, m, m', v, t, out, hidden, want, got);
  }

  // ---- free as a whole ----

  // What slab_became_free relies on.
  ghost predicate DrainPlan(c: SizeClass, v: Pool, alias: map<SlabId, SlabId>, s: SlabId) {
    && SlabOk(c, s) && s in v.slabs && s in v.partial && s !in v.warm && s !in v.cold && NoDup(v.partial)
    && s.chunk in v.live && v.live[s.chunk] > 0 && s.chunk in v.chunks
    && (v.live[s.chunk] == 1 ==> forall e :: e in alias ==> e.chunk != s.chunk)
  }

  // What btm_pool_free_one relies on.
  ghost predicate FreePlan(c: SizeClass, v: Pool, alias: map<SlabId, SlabId>, x: Slot) {
    && c.Valid() && x.slab in v.slabs && x.slab.chunk in v.nextPage && x.slab.page + c.run <= v.nextPage[x.slab.chunk]
    && PlacedOk(c, alias, x) && x.k !in v.slabs[x.slab].free && x.slab !in v.warm && x.slab !in v.cold
    && OffLists(v.slabs, x.slab, {Backing(alias, x)})
    && x.slab.chunk in v.live && v.live[x.slab.chunk] > 0
    && (!v.slabs[x.slab].retired && |v.slabs[x.slab].free| + 1 == c.slots ==> DrainPlan(c, Return(v, x), alias, x.slab))
  }

  lemma DrainReady(c: SizeClass, v: Pool, out: set<Slot>, hidden: set<Slot>, alias: map<SlabId, SlabId>, s: SlabId)
    requires Drained(c, v, out, hidden, s) && DonorsRetired(alias, v.slabs)
    ensures DrainPlan(c, v, alias, s)
  {
    SlabKnown(c, v, out, hidden, s);
    BecameFreeOk(c, v, out, hidden, s);
    if v.live[s.chunk] == 1 {
      LastLiveIdle(c, v, out, hidden, s);
      forall e | e in alias ensures e.chunk != s.chunk { RetiredElsewhere(c, v, hidden, s, e); }
    }
  }

  // A retired slab is on no empty list, so it is not in a chunk whose other slabs all are.
  lemma RetiredElsewhere(c: SizeClass, v: Pool, hidden: set<Slot>, s: SlabId, e: SlabId)
    requires s in v.slabs && !v.slabs[s].retired && e in v.slabs && v.slabs[e].retired
    requires forall t :: t in v.slabs && t != s ==> Placed(c.slots, v, hidden, t)
    requires forall t :: t in v.slabs && t.chunk == s.chunk ==> t == s || t in v.warm || t in v.cold
    ensures e.chunk != s.chunk
  {
    assert Placed(c.slots, v, hidden, e);
  }

  lemma FreeDrains(c: SizeClass, v: Pool, out: set<Slot>, hidden: set<Slot>, alias: map<SlabId, SlabId>, x: Slot)
    requires PoolInv(c, v, out, hidden) && DonorsRetired(alias, v.slabs) && x in out && x.slab in v.slabs
    requires !v.slabs[x.slab].retired && |v.slabs[x.slab].free| + 1 == c.slots
    ensures DrainPlan(c, Return(v, x), alias, x.slab)
  {
    ReturnDrained(c, v, out, hidden, x);
    DrainReady(c, Return(v, x), out - {x}, hidden, alias, x.slab);
  }

  lemma FreeKnown(c: SizeClass, v: Pool, out: set<Slot>, hidden: set<Slot>, alias: map<SlabId, SlabId>, x: Slot)
    requires PoolInv(c, v, out, hidden) && AliasOk(v, out, hidden, alias) && x in out
    ensures x.slab in v.slabs && SlabOk(c, x.slab) && PlacedOk(c, alias, x) && x.k !in v.slabs[x.slab].free
    ensures x.slab.chunk in v.nextPage && x.slab.page + c.run <= v.nextPage[x.slab.chunk]
    ensures x.slab !in v.warm && x.slab !in v.cold && OffLists(v.slabs, x.slab, {Backing(alias, x)})
  {
    OutNotFree(c, v, out, hidden, x);
    SlabKnown(c, v, out, hidden, x.slab);
    BackingHeld(c, v, out, hidden, alias, x);
    ReturnPlaced(c, v, out, hidden, x);
  }

  lemma FreeReady(c: SizeClass, v: Pool, out: set<Slot>, hidden: set<Slot>, alias: map<SlabId, SlabId>, x: Slot)
    requires PoolInv(c, v, out, hidden) && AliasOk(v, out, hidden, alias) && x in out
    ensures FreePlan(c, v, alias, x)
  {
    FreeSlotInv(c, v, out, hidden, x);
    FreeKnown(c, v, out, hidden, alias, x);
    if !v.slabs[x.slab].retired && |v.slabs[x.slab].free| + 1 == c.slots {
      FreeDrains(c, v, out, hidden, alias, x);
    }
  }

  function OffPartial(v: Pool, s: SlabId): Pool {
    v.(partial := Without(v.partial, {s}))
  }

  function LessLive(v: Pool, k: nat): Pool
    requires k in v.live && v.live[k] > 0
  {
    v.(live := v.live[k := v.live[k] - 1])
  }

  lemma BecameFreeIs(v: Pool, s: SlabId)
    requires s.chunk in v.live && v.live[s.chunk] > 0
    ensures var q := LessLive(OffPartial(v, s), s.chunk);
            BecameFree(v, s) == if q.live[s.chunk] == 0 then Freed(DropChunk(q, s.chunk), Some(s.chunk), None)
                                else if |q.warm| < KEEP_WARM then Freed(q.(warm := [s] + q.warm), None, None)
                                else Freed(q.(cold := [s] + q.cold), None, Some(s))
  {}

  lemma LessLiveOk(c: SizeClass, key: nat, m: Mem, h: Head, d: Descs, k: Headers, v: Pool, alias: map<SlabId, SlabId>,
                   a: nat)
    requires ListsOk(h, d, v) && SlabsOk(c, key, m, d, v, alias) && ChunksOk(c, h, k, v) && a in v.live && v.live[a] > 0
    ensures a in k.live && k.live[a] > 0 && ListsOk(h, d, LessLive(v, a))
    ensures SlabsOk(c, key, m, d, LessLive(v, a), alias)
    ensures ChunksOk(c, h, k.(live := k.live[a := k.live[a] - 1]), LessLive(v, a))
  {}

  lemma ReturnListsOk(h: Head, d: Descs, v: Pool, x: Slot, p: nat, epoch: nat, left: nat)
    requires ListsOk(h, d, v) && x.slab in v.slabs
    ensures ListsOk(h.(outstanding := left), ReturnDescs(d, x.slab, p, epoch), Return(v, x))
  {}

  // The bytes a free changes: the slot's own, and the pages of a released slab.
  ghost predicate FreeBytes(c: SizeClass, alias: map<SlabId, SlabId>, m: Mem, m': Mem, x: Slot,
                            released: Option<SlabId>) {
    exists m1 :: Only(c, m, m1, {Backing(alias, x)}) && m' == if released.Some? then Discard(c, m1, released.value)
      else m1
  }

  lemma FreeKeeps(c: SizeClass, alias: map<SlabId, SlabId>, m: Mem, m1: Mem, v: Pool, out: set<Slot>,
                  hidden: set<Slot>, x: Slot)
    requires PoolInv(c, v, out, hidden) && AliasOk(v, out, hidden, alias) && x in out
    requires Only(c, m, m1, {Backing(alias, x)})
    ensures Kept(c, alias, m, m1, out - {x})
  {
    BackingHeld(c, v, out, hidden, alias, x);
    forall y | y in out - {x} ensures SlotOk(c, Backing(alias, y)) && Backing(alias, y) !in {Backing(alias, x)} {
      BackingsApart(c, v, out, hidden, alias, x, y);
    }
    OnlyKept(c, alias, m, m1, out - {x}, {Backing(alias, x)});
  }

  lemma DiscardKeeps(c: SizeClass, alias: map<SlabId, SlabId>, m: Mem, v: Pool, out: set<Slot>, hidden: set<Slot>,
                     s: SlabId)
    requires PoolInv(c, v, out, hidden) && AliasOk(v, out, hidden, alias) && s in v.slabs && SlabIdle(s, out, hidden)
    ensures Kept(c, alias, m, Discard(c, m, s), out)
  {
    SlabKnown(c, v, out, hidden, s);
    forall y | y in out ensures SlotSame(c, m, Discard(c, m, s), Backing(alias, y)) {
      BackingHeld(c, v, out, hidden, alias, y);
      DiscardSame(c, m, s, Backing(alias, y));
    }
  }

  lemma FreeDone(c: SizeClass, alias: map<SlabId, SlabId>, m: Mem, m': Mem, v: Pool, r: Freed, out: set<Slot>,
                 hidden: set<Slot>, x: Slot)
    requires PoolInv(c, v, out, hidden) && AliasOk(v, out, hidden, alias) && x in out && Frees(c, v, x, r)
    requires FreeBytes(c, alias, m, m', x, r.released)
    ensures FreedOk(c, r, out - {x}, hidden) && AliasOk(r.pool, out - {x}, hidden, alias)
    ensures Kept(c, alias, m, m', out - {x})
  {
    FreeSlotInv(c, v, out, hidden, x);
    AliasFree(c, v, out, hidden, alias, x, r);
    var m1 :| Only(c, m, m1, {Backing(alias, x)}) && m' == if r.released.Some? then Discard(c, m1, r.released.value)
      else m1;
    FreeKeeps(c, alias, m, m1, v, out, hidden, x);
    if r.released.Some? {
      DiscardKeeps(c, alias, m1, r.pool, out - {x}, hidden, r.released.value);
      KeptTrans(c, alias, m, m1, m', out - {x});
    }
  }

  // ---- writing to a slot in use ----

  ghost predicate NotFree(c: SizeClass, slabs: map<SlabId, Slab>, ys: set<Slot>) {
    forall y :: y in ys ==> SlotOk(c, y) && y.slab in slabs && y.k !in slabs[y.slab].free
  }

  // Writing to slots that are on no freelist disturbs no freelist.
  lemma UsedWriteOk(c: SizeClass, key: nat, m: Mem, m': Mem, d: Descs, v: Pool, alias: map<SlabId, SlabId>,
                    ys: set<Slot>)
    requires SlabsOk(c, key, m, d, v, alias) && Only(c, m, m', ys) && NotFree(c, v.slabs, ys)
    ensures SlabsOk(c, key, m', d, v, alias)
  {
    forall t | Active(v.slabs, v.warm, v.cold, t) ensures ChainRep(c, alias, key, m', d.freeHead, v.slabs, t) {
      assert ChainRep(c, alias, key, m, d.freeHead, v.slabs, t);
      var xs := SlotsAt(t, v.slabs[t].free);
      forall i | 0 <= i < |xs| ensures Backing(alias, xs[i]) !in ys { assert xs[i].k == v.slabs[t].free[i]; }
      ChainOfOnly(c, alias, m, m', key, Num(d.freeHead, t), xs, ys);
    }
  }

  lemma UsedNotFree(c: SizeClass, v: Pool, out: set<Slot>, hidden: set<Slot>, alias: map<SlabId, SlabId>, xs: seq<Slot>)
    requires Core(c, v, out, hidden) && Backed(out, hidden, alias) && Elems(xs) <= out
    ensures NotFree(c, v.slabs, Backings(alias, xs))
  {
    forall y | y in Backings(alias, xs) ensures SlotOk(c, y) && y.slab in v.slabs && y.k !in v.slabs[y.slab].free {
      var x :| x in xs && Backing(alias, x) == y;
      assert x in Elems(xs);
      BackingHeld(c, v, out, hidden, alias, x);
    }
  }

  /** Writing to some slots in use leaves the bytes of the others alone. */
  lemma UsedWriteKeeps(c: SizeClass, m: Mem, m': Mem, v: Pool, out: set<Slot>, hidden: set<Slot>,
                       alias: map<SlabId, SlabId>, xs: seq<Slot>, keep: set<Slot>)
    requires PoolInv(c, v, out, hidden) && AliasOk(v, out, hidden, alias) && Elems(xs) <= out && keep <= out - Elems(xs)
    requires Only(c, m, m', Backings(alias, xs))
    ensures Kept(c, alias, m, m', keep)
  {
    UsedNotFree(c, v, out, hidden, alias, xs);
    forall k | k in keep ensures SlotOk(c, Backing(alias, k)) && Backing(alias, k) !in Backings(alias, xs) {
      UsedElsewhere(c, v, out, hidden, alias, xs, k);
    }
    OnlyKept(c, alias, m, m', keep, Backings(alias, xs));
  }

  lemma UsedElsewhere(c: SizeClass, v: Pool, out: set<Slot>, hidden: set<Slot>, alias: map<SlabId, SlabId>,
                      xs: seq<Slot>, k: Slot)
    requires PoolInv(c, v, out, hidden) && AliasOk(v, out, hidden, alias) && Elems(xs) <= out && k in out && k !in xs
    ensures PlacedOk(c, alias, k) && Backing(alias, k) !in Backings(alias, xs) && Elsewhere(alias, k, xs)
  {
    BackingHeld(c, v, out, hidden, alias, k);
    forall x | x in xs ensures Backing(alias, x) != Backing(alias, k) {
      assert x in Elems(xs);
      BackingsApart(c, v, out, hidden, alias, x, k);
    }
  }
}
