/** Compaction: pairs of sparse slabs whose occupied slots do not overlap are
    meshed. Every slot in use reads the same at its own address afterwards. */
module Compaction {
  import opened Seqs
  import opened Memory
  import opened Geometry
  import opened PoolSpec
  import opened PoolProofs
  import opened Aliasing
  import opened SlotChains
  import opened PoolRep
  import opened PoolSteps
  import opened Epochs
  import opened Occupancy
  import opened Meshing
  import SlabPool
  import L = Links

  // ---- reads through the page map ----

  /** Every byte of slot x reads the same at its own address, before and after. */
  ghost predicate SlotReads(c: SizeClass, remap: map<nat, nat>, m: Mem, remap': map<nat, nat>, m': Mem, x: Slot) {
    forall a: nat :: InSlot(c, x, a) ==> Load(m', Tr(remap', a)) == Load(m, Tr(remap, a))
  }

  ghost predicate SameReads(c: SizeClass, remap: map<nat, nat>, m: Mem, remap': map<nat, nat>, m': Mem, xs: set<Slot>) {
    forall x :: x in xs ==> SlotReads(c, remap, m, remap', m', x)
  }

  lemma ReadByte(c: SizeClass, remap: map<nat, nat>, m: Mem, alias: map<SlabId, SlabId>, x: Slot, a: nat)
    requires SlotMapped(c, remap, alias, x) && InSlot(c, x, a)
    ensures Load(m, Tr(remap, a)) == Load(m, a - Addr(c, x) + Addr(c, Backing(alias, x)))
  {}

  // Reads at x's own address are reads of the slot that backs it.
  lemma CopiedReads(c: SizeClass, remap: map<nat, nat>, m: Mem, alias: map<SlabId, SlabId>,
                    remap': map<nat, nat>, m': Mem, alias': map<SlabId, SlabId>, x: Slot)
    requires SlotMapped(c, remap, alias, x) && SlotMapped(c, remap', alias', x)
    requires SlotCopied(c, m, m', Backing(alias', x), Backing(alias, x))
    ensures SlotReads(c, remap, m, remap', m', x)
  {
    forall a: nat | InSlot(c, x, a) ensures Load(m', Tr(remap', a)) == Load(m, Tr(remap, a)) {
      ReadByte(c, remap, m, alias, x, a);
      ReadByte(c, remap', m', alias', x, a);
      assert InSlot(c, Backing(alias', x), a - Addr(c, x) + Addr(c, Backing(alias', x)));
    }
  }

  lemma ReadsCopied(c: SizeClass, remap: map<nat, nat>, m: Mem, alias: map<SlabId, SlabId>,
                    remap': map<nat, nat>, m': Mem, alias': map<SlabId, SlabId>, x: Slot, b: nat)
    requires SlotMapped(c, remap, alias, x) && SlotMapped(c, remap', alias', x)
    requires SlotReads(c, remap, m, remap', m', x) && b < c.size
    ensures Load(m', Addr(c, Backing(alias', x)) + b) == Load(m, Addr(c, Backing(alias, x)) + b)
  {
    var a := Addr(c, x) + b;
    ReadByte(c, remap, m, alias, x, a);
    ReadByte(c, remap', m', alias', x, a);
    assert InSlot(c, x, a);
  }

  lemma SameIsCopied(c: SizeClass, m: Mem, m': Mem, x: Slot)
    requires SlotSame(c, m, m', x)
    ensures SlotCopied(c, m, m', x, x)
  {}

  // ---- one pair ----

  // Memory once the donor's pages have been remapped, or the remap has failed.
  function Punched(c: SizeClass, m: Mem, d: SlabId, ok: bool): Mem {
    if ok then Discard(c, m, d) else m
  }

  lemma PunchSame(c: SizeClass, m: Mem, d: SlabId, ok: bool, y: Slot)
    requires SlabOk(c, d) && SlotOk(c, y) && y.slab != d
    ensures SlotSame(c, m, Punched(c, m, d, ok), y)
  {
    if ok { DiscardSame(c, m, d, y); }
  }

  // The donor's own slots.
  lemma DonorCopied(c: SizeClass, m: Mem, m1: Mem, alias: map<SlabId, SlabId>, r: SlabId, d: SlabId,
                    rf: seq<nat>, df: seq<nat>, ok: bool, x: Slot)
    requires Merged(c, m, m1, r, d, rf, df) && SlabOk(c, r) && SlabOk(c, d) && r != d && d !in alias
    requires forall i :: 0 <= i < |rf| ==> rf[i] < c.slots
    requires x.slab == d && x.k < c.slots && x.k !in df
    ensures SlotCopied(c, m, Punched(c, m1, d, ok), Backing(Remapped(alias, r, d, ok), x), Backing(alias, x))
  {
    var y := Slot(r, x.k);
    if ok {
      assert CopiedAt(c, m, m1, r, d, x.k);
      PunchSame(c, m1, d, ok, y);
      CopyThen(c, m, m1, Punched(c, m1, d, ok), y, x);
    } else {
      FreeElse(c, m, m1, r, rf, x);
      SameIsCopied(c, m, m1, x);
    }
  }

  lemma CopyThen(c: SizeClass, m: Mem, m1: Mem, m2: Mem, x: Slot, y: Slot)
    requires SlotCopied(c, m, m1, x, y) && SlotSame(c, m1, m2, x)
    ensures SlotCopied(c, m, m2, x, y)
  {
    forall a: nat | InSlot(c, x, a) ensures Load(m2, a) == Load(m, a - Addr(c, x) + Addr(c, y)) {
      assert Load(m1, a) == Load(m2, a);
    }
  }

  // A slot that is not one of the recipient's free ones is untouched by the merge.
  lemma FreeElse(c: SizeClass, m: Mem, m1: Mem, r: SlabId, rf: seq<nat>, y: Slot)
    requires Only(c, m, m1, Elems(SlotsAt(r, rf))) && SlotOk(c, y) && SlabOk(c, r)
    requires forall i :: 0 <= i < |rf| ==> rf[i] < c.slots
    requires y.slab == r ==> y.k !in rf
    ensures SlotSame(c, m, m1, y)
  {
    forall z | z in Elems(SlotsAt(r, rf)) ensures SlotOk(c, z) && z != y {
      var i :| 0 <= i < |rf| && SlotsAt(r, rf)[i] == z;
    }
    OnlyElse(c, m, m1, Elems(SlotsAt(r, rf)), y);
  }

  // Slots stored in any slab but the donor.
  lemma OthersCopied(c: SizeClass, m: Mem, m1: Mem, alias: map<SlabId, SlabId>, r: SlabId, d: SlabId,
                     rf: seq<nat>, df: seq<nat>, ok: bool, x: Slot)
    requires Merged(c, m, m1, r, d, rf, df) && SlabOk(c, r) && SlabOk(c, d)
    requires forall i :: 0 <= i < |rf| ==> rf[i] < c.slots
    requires x.slab != d && SlotOk(c, Backing(alias, x)) && (ok ==> Backing(alias, x).slab != d)
    requires Backing(alias, x).slab == r ==> Backing(alias, x).k !in rf
    ensures SlotCopied(c, m, Punched(c, m1, d, ok), Backing(Remapped(alias, r, d, ok), x), Backing(alias, x))
  {
    var y := Backing(alias, x);
    FreeElse(c, m, m1, r, rf, y);
    SameIsCopied(c, m, m1, y);
    if ok {
      PunchSame(c, m1, d, ok, y);
      CopyThen(c, m, m1, Punched(c, m1, d, ok), y, y);
    }
  }

  // What meshing d into r has done to memory and to the page map.
  ghost predicate Meshed(c: SizeClass, remap: map<nat, nat>, m: Mem, remap': map<nat, nat>, m': Mem,
                         v: Pool, r: SlabId, d: SlabId, ok: bool) {
    && r in v.slabs && d in v.slabs
    && (if ok then Redirected(c, remap, remap', r, d, c.run) else remap' == remap)
    && exists m1 :: Merged(c, m, m1, r, d, v.slabs[r].free, v.slabs[d].free) && m' == Punched(c, m1, d, ok)
  }

  // Slot x is another slab's, stored in the donor d.
  predicate StoredIn(alias: map<SlabId, SlabId>, d: SlabId, x: Slot) {
    x.slab != d && x.slab in alias && alias[x.slab] == d
  }

  lemma MeshKnown(c: SizeClass, v: Pool, out: set<Slot>, hidden: set<Slot>, alias: map<SlabId, SlabId>, r: SlabId,
                  d: SlabId)
    requires PoolInv(c, v, out, hidden) && AliasOk(v, out, hidden, alias) && Meshable(c, v, r, d)
    ensures SlabOk(c, r) && SlabOk(c, d) && r != d && r !in alias && d !in alias
    ensures !v.slabs[r].retired && !v.slabs[d].retired && r !in v.warm && r !in v.cold
    ensures r.chunk in v.live && d.chunk in v.live
    ensures forall i :: 0 <= i < |v.slabs[r].free| ==> v.slabs[r].free[i] < c.slots
  {
    SlabKnown(c, v, out, hidden, r);
    SlabKnown(c, v, out, hidden, d);
    assert Placed(c.slots, v, hidden, r) && Placed(c.slots, v, hidden, d);
    assert SlabParts(c.slots, r, v.slabs[r].free, out, hidden);
  }

  lemma MeshMapped(c: SizeClass, remap: map<nat, nat>, m: Mem, remap': map<nat, nat>, m': Mem, v: Pool,
                   alias: map<SlabId, SlabId>, r: SlabId, d: SlabId, ok: bool)
    requires SlabOk(c, r) && SlabOk(c, d) && Mapped(c, remap, alias, v.live)
    requires Meshed(c, remap, m, remap', m', v, r, d, ok)
    ensures Mapped(c, remap', Remapped(alias, r, d, ok), v.live)
  {
    if ok { RemapMapped(c, remap, remap', alias, r, d, v.live); }
  }

  /** A mesh moves nothing outside the chunks of the two slabs. */
  lemma MeshOut(c: SizeClass, remap: map<nat, nat>, m: Mem, remap': map<nat, nat>, m': Mem, v: Pool,
                alias: map<SlabId, SlabId>, r: SlabId, d: SlabId, ok: bool)
    requires MeshPlan(c, v, alias, r, d) && Meshed(c, remap, m, remap', m', v, r, d, ok)
    ensures BytesOut(m, m', v.live.Keys) && PagesOut(remap, remap', v.live.Keys)
  {
    var ks, ys := v.live.Keys, Elems(SlotsAt(r, v.slabs[r].free));
    var m1 :| Merged(c, m, m1, r, d, v.slabs[r].free, v.slabs[d].free) && m' == Punched(c, m1, d, ok);
    forall y | y in ys ensures SlotOk(c, y) && y.slab.chunk in ks {
      var i :| 0 <= i < |v.slabs[r].free| && SlotsAt(r, v.slabs[r].free)[i] == y;
    }
    OnlyOut(c, m, m1, ys, ks);
    if ok {
      DiscardOut(c, m1, d, ks);
      BytesOutTrans(m, m1, m', ks, ks, ks);
      forall a: nat | Outside(ks, a) ensures Tr(remap', a) == Tr(remap, a) {
        assert !InChunk(d.chunk, a);
        RemapElse(c, remap, remap', r, d, a);
      }
    }
  }

  lemma BothMapped(c: SizeClass, remap: map<nat, nat>, m: Mem, remap': map<nat, nat>, m': Mem, v: Pool,
                   out: set<Slot>, hidden: set<Slot>, alias: map<SlabId, SlabId>, r: SlabId, d: SlabId, ok: bool,
                   x: Slot)
    requires PoolInv(c, v, out, hidden) && AliasOk(v, out, hidden, alias) && Meshable(c, v, r, d)
    requires Mapped(c, remap, alias, v.live) && Meshed(c, remap, m, remap', m', v, r, d, ok) && x in out
    ensures SlotMapped(c, remap, alias, x) && SlotMapped(c, remap', Remapped(alias, r, d, ok), x)
  {
    MeshKnown(c, v, out, hidden, alias, r, d);
    MeshMapped(c, remap, m, remap', m', v, alias, r, d, ok);
    OutMapped(c, remap, v, out, hidden, alias, x);
    OutMapped(c, remap', v, out, hidden, Remapped(alias, r, d, ok), x);
  }

  /** A slot in use that is not stored in the donor on behalf of another slab
      reads the same after meshing, and every slot in use does if the remap fails. */
  lemma MeshReads(c: SizeClass, remap: map<nat, nat>, m: Mem, remap': map<nat, nat>, m': Mem, v: Pool,
                  out: set<Slot>, hidden: set<Slot>, alias: map<SlabId, SlabId>, r: SlabId, d: SlabId, ok: bool,
                  x: Slot)
    requires PoolInv(c, v, out, hidden) && AliasOk(v, out, hidden, alias) && Meshable(c, v, r, d)
    requires Mapped(c, remap, alias, v.live) && Meshed(c, remap, m, remap', m', v, r, d, ok)
    requires x in out && (ok ==> !StoredIn(alias, d, x))
    ensures SlotReads(c, remap, m, remap', m', x)
  {
    MeshKnown(c, v, out, hidden, alias, r, d);
    BothMapped(c, remap, m, remap', m', v, out, hidden, alias, r, d, ok, x);
    BackingHeld(c, v, out, hidden, alias, x);
    OutNotFree(c, v, out, hidden, x);
    var rf, df := v.slabs[r].free, v.slabs[d].free;
    var m1 :| Merged(c, m, m1, r, d, rf, df) && m' == Punched(c, m1, d, ok);
    if x.slab == d {
      DonorCopied(c, m, m1, alias, r, d, rf, df, ok, x);
    } else {
      OthersCopied(c, m, m1, alias, r, d, rf, df, ok, x);
    }
    CopiedReads(c, remap, m, alias, remap', m', Remapped(alias, r, d, ok), x);
  }

  ghost predicate SlotZero(c: SizeClass, m: Mem, y: Slot) {
    forall a: nat :: InSlot(c, y, a) ==> Load(m, a) == 0
  }

  lemma ZeroReads(c: SizeClass, remap: map<nat, nat>, m: Mem, alias: map<SlabId, SlabId>,
                  remap': map<nat, nat>, m': Mem, alias': map<SlabId, SlabId>, x: Slot)
    requires SlotMapped(c, remap, alias, x) && SlotMapped(c, remap', alias', x)
    requires Backing(alias', x) == Backing(alias, x) && SlotZero(c, m', Backing(alias, x))
    ensures SlotReads(c, remap, m, remap', m', x) <==> SlotZero(c, m, Backing(alias, x))
  {
    var y := Backing(alias, x);
    if SlotReads(c, remap, m, remap', m', x) {
      forall a: nat | InSlot(c, y, a) ensures Load(m, a) == 0 {
        ReadsCopied(c, remap, m, alias, remap', m', alias', x, a - Addr(c, y));
      }
    }
    if SlotZero(c, m, y) { CopiedReads(c, remap, m, alias, remap', m', alias', x); }
  }

  lemma DiscardZero(c: SizeClass, m: Mem, y: Slot)
    requires SlotOk(c, y)
    ensures SlotZero(c, Discard(c, m, y.slab), y)
  {
    SlotBounds(c, y);
  }

  /** A slot stored in the donor on behalf of another slab reads as zero once the
      donor's pages have been punched. */
  lemma MeshLosesStored(c: SizeClass, remap: map<nat, nat>, m: Mem, remap': map<nat, nat>, m': Mem, v: Pool,
                        out: set<Slot>, hidden: set<Slot>, alias: map<SlabId, SlabId>, r: SlabId, d: SlabId, x: Slot)
    requires PoolInv(c, v, out, hidden) && AliasOk(v, out, hidden, alias) && Meshable(c, v, r, d)
    requires Mapped(c, remap, alias, v.live) && Meshed(c, remap, m, remap', m', v, r, d, true)
    requires x in out && StoredIn(alias, d, x)
    ensures SlotReads(c, remap, m, remap', m', x) <==> SlotZero(c, m, Backing(alias, x))
  {
    MeshKnown(c, v, out, hidden, alias, r, d);
    BothMapped(c, remap, m, remap', m', v, out, hidden, alias, r, d, true, x);
    BackingHeld(c, v, out, hidden, alias, x);
    var m1 :| Merged(c, m, m1, r, d, v.slabs[r].free, v.slabs[d].free) && m' == Punched(c, m1, d, true);
    DiscardZero(c, m1, Backing(alias, x));
    ZeroReads(c, remap, m, alias, remap', m', alias[d := r], x);
  }

  /** Meshing d into r keeps every slot in use readable at its own address exactly
      when the remap fails or no other slab's slot stored in d holds anything but
      zeros. */
  lemma MeshKeepsIff(c: SizeClass, remap: map<nat, nat>, m: Mem, remap': map<nat, nat>, m': Mem, v: Pool,
                     out: set<Slot>, hidden: set<Slot>, alias: map<SlabId, SlabId>, r: SlabId, d: SlabId, ok: bool)
    requires PoolInv(c, v, out, hidden) && AliasOk(v, out, hidden, alias) && Meshable(c, v, r, d)
    requires Mapped(c, remap, alias, v.live) && Meshed(c, remap, m, remap', m', v, r, d, ok)
    ensures SameReads(c, remap, m, remap', m', out) <==>
            (ok ==> forall x :: x in out && StoredIn(alias, d, x) ==> SlotZero(c, m, Backing(alias, x)))
  {
    forall x | x in out
      ensures SlotReads(c, remap, m, remap', m', x) <==>
                (ok && StoredIn(alias, d, x) ==> SlotZero(c, m, Backing(alias, x)))
    {
      if ok && StoredIn(alias, d, x) {
        MeshLosesStored(c, remap, m, remap', m', v, out, hidden, alias, r, d, x);
      } else {
        MeshReads(c, remap, m, remap', m', v, out, hidden, alias, r, d, ok, x);
      }
    }
  }

  // ---- the pool's structures ----

  // The pool between the merge and the donor's removal from the partial list.
  ghost function MeshedSlabs(c: SizeClass, v: Pool, r: SlabId, d: SlabId): Pool
    requires c.Valid() && r in v.slabs && d in v.slabs
  {
    v.(slabs := v.slabs[r := v.slabs[r].(free := BothFree(c, v, r, d))][d := v.slabs[d].(retired := true)])
  }

  function MeshDescs(d: Descs, r: SlabId, donor: SlabId, head: nat, count: nat): Descs {
    d.(freeHead := d.freeHead[r := head], freeCount := d.freeCount[r := count], retired := d.retired[donor := true])
  }

  ghost predicate MeshPlan(c: SizeClass, v: Pool, alias: map<SlabId, SlabId>, r: SlabId, d: SlabId) {
    && c.Valid() && SlabOk(c, r) && SlabOk(c, d) && r != d && r in v.slabs && d in v.slabs
    && !v.slabs[r].retired && !v.slabs[d].retired && r !in alias && d !in alias && d in v.partial
    && r !in v.warm && r !in v.cold && r.chunk in v.live && d.chunk in v.live
    && (forall i :: 0 <= i < |v.slabs[r].free| ==> v.slabs[r].free[i] < c.slots)
    && (forall k: nat :: k < c.slots ==> k in v.slabs[r].free || k in v.slabs[d].free)
  }

  lemma FreeFromAll(c: SizeClass, v: Pool, r: SlabId, d: SlabId)
    requires c.Valid() && r in v.slabs && d in v.slabs
    ensures FreeFrom(0, c.slots, v.slabs[r].free, v.slabs[d].free) == BothFree(c, v, r, d)
  {
    assert Iota(c.slots)[0..] == Iota(c.slots);
  }

  // A chain of a slab that has not been remapped is the same chain afterwards.
  lemma ChainRemapped(c: SizeClass, alias: map<SlabId, SlabId>, r: SlabId, d: SlabId, ok: bool, m: Mem, key: nat,
                      head: nat, t: SlabId, ks: seq<nat>)
    requires t != d && ChainOf(c, alias, m, key, head, SlotsAt(t, ks))
    ensures ChainOf(c, Remapped(alias, r, d, ok), m, key, head, SlotsAt(t, ks))
  {
    var a, xs := Remapped(alias, r, d, ok), SlotsAt(t, ks);
    assert Places(c, a, xs) == Places(c, alias, xs);
    forall i | 0 <= i < |xs| ensures PlacedOk(c, a, xs[i]) { assert PlacedOk(c, alias, xs[i]); }
    forall i, j | 0 <= i < j < |xs| ensures Backing(a, xs[i]) != Backing(a, xs[j]) {
      assert Backing(alias, xs[i]) != Backing(alias, xs[j]);
    }
  }

  lemma PunchChain(c: SizeClass, alias: map<SlabId, SlabId>, d: SlabId, ok: bool, m: Mem, key: nat,
                   heads: map<SlabId, nat>, slabs: map<SlabId, Slab>, t: SlabId)
    requires SlabOk(c, d) && t != d && t !in alias && ChainRep(c, alias, key, m, heads, slabs, t)
    ensures ChainRep(c, alias, key, Punched(c, m, d, ok), heads, slabs, t)
  {
    if ok { DiscardChain(c, key, m, heads, slabs, alias, d, t); }
  }

  // Freelists after the merge.
  lemma MergedChains(c: SizeClass, key: nat, m: Mem, m1: Mem, d: Descs, v: Pool, alias: map<SlabId, SlabId>,
                     r: SlabId, donor: SlabId, head: nat, count: nat, t: SlabId)
    requires SlabsOk(c, key, m, d, v, alias) && MeshPlan(c, v, alias, r, donor)
    requires Merged(c, m, m1, r, donor, v.slabs[r].free, v.slabs[donor].free)
    requires ChainOf(c, alias, m1, key, head, SlotsAt(r, BothFree(c, v, r, donor)))
    requires var w := MeshedSlabs(c, v, r, donor); Active(w.slabs, w.warm, w.cold, t)
    ensures ChainRep(c, alias, key, m1, MeshDescs(d, r, donor, head, count).freeHead,
                     MeshedSlabs(c, v, r, donor).slabs, t)
  {
    if t != r {
      assert ChainRep(c, alias, key, m, d.freeHead, v.slabs, t);
      var ys := Elems(SlotsAt(r, v.slabs[r].free));
      forall y | y in ys ensures SlotOk(c, y) && y.slab == r {
        var i :| 0 <= i < |v.slabs[r].free| && SlotsAt(r, v.slabs[r].free)[i] == y;
      }
      ChainUntouched(c, alias, key, m, m1, d.freeHead, v.slabs, r, t, ys);
    }
  }

  lemma MeshSlabsOk(c: SizeClass, key: nat, m: Mem, m1: Mem, d: Descs, v: Pool, alias: map<SlabId, SlabId>,
                    r: SlabId, donor: SlabId, head: nat, count: nat, ok: bool)
    requires SlabsOk(c, key, m, d, v, alias) && MeshPlan(c, v, alias, r, donor)
    requires Merged(c, m, m1, r, donor, v.slabs[r].free, v.slabs[donor].free)
    requires ChainOf(c, alias, m1, key, head, SlotsAt(r, BothFree(c, v, r, donor)))
    requires count == |BothFree(c, v, r, donor)|
    ensures SlabsOk(c, key, Punched(c, m1, donor, ok), MeshDescs(d, r, donor, head, count), MeshedSlabs(c, v, r, donor),
                    Remapped(alias, r, donor, ok))
  {
    var w, d', m2 := MeshedSlabs(c, v, r, donor), MeshDescs(d, r, donor, head, count), Punched(c, m1, donor, ok);
    forall t | Active(w.slabs, w.warm, w.cold, t)
      ensures ChainRep(c, Remapped(alias, r, donor, ok), key, m2, d'.freeHead, w.slabs, t)
    {
      MergedChains(c, key, m, m1, d, v, alias, r, donor, head, count, t);
      PunchChain(c, alias, donor, ok, m1, key, d'.freeHead, w.slabs, t);
      ChainRemapped(c, alias, r, donor, ok, m2, key, Num(d'.freeHead, t), t, w.slabs[t].free);
    }
  }

  lemma MeshListsOk(c: SizeClass, h: Head, d: Descs, v: Pool, r: SlabId, donor: SlabId, head: nat, count: nat)
    requires ListsOk(h, d, v) && c.Valid() && r in v.slabs && donor in v.slabs
    ensures ListsOk(h, MeshDescs(d, r, donor, head, count), MeshedSlabs(c, v, r, donor))
  {}

  lemma MeshChunksOk(c: SizeClass, h: Head, k: Headers, v: Pool, r: SlabId, d: SlabId)
    requires ChunksOk(c, h, k, v) && c.Valid() && r in v.slabs && d in v.slabs
    ensures ChunksOk(c, h, k, MeshedSlabs(c, v, r, d))
  {}

  lemma MeshReady(c: SizeClass, v: Pool, out: set<Slot>, hidden: set<Slot>, alias: map<SlabId, SlabId>, r: SlabId,
                  d: SlabId)
    requires PoolInv(c, v, out, hidden) && AliasOk(v, out, hidden, alias) && Meshable(c, v, r, d)
    ensures MeshPlan(c, v, alias, r, d)
  {
    MeshKnown(c, v, out, hidden, alias, r, d);
  }

  lemma MeshStored(c: SizeClass, key: nat, m: Mem, m1: Mem, remap: map<nat, nat>, remap': map<nat, nat>, e: nat,
                   h: Head, d: Descs,
                   k: Headers, v: Pool, alias: map<SlabId, SlabId>, hist: seq<Event>, r: SlabId, donor: SlabId,
                   head: nat, count: nat, ok: bool)
    requires RepOf(c, key, m, remap, e, h, d, k, v, alias, hist) && MeshPlan(c, v, alias, r, donor)
    requires Merged(c, m, m1, r, donor, v.slabs[r].free, v.slabs[donor].free)
    requires ChainOf(c, alias, m1, key, head, SlotsAt(r, BothFree(c, v, r, donor)))
    requires count == |BothFree(c, v, r, donor)|
    requires if ok then Redirected(c, remap, remap', r, donor, c.run) else remap' == remap
    ensures RepOf(c, key, Punched(c, m1, donor, ok), remap', e, h, MeshDescs(d, r, donor, head, count), k,
                  MeshedSlabs(c, v, r, donor), Remapped(alias, r, donor, ok), hist)
  {
    MeshSlabsOk(c, key, m, m1, d, v, alias, r, donor, head, count, ok);
    MeshListsOk(c, h, d, v, r, donor, head, count);
    MeshChunksOk(c, h, k, v, r, donor);
    HistFrame(d, MeshDescs(d, r, donor, head, count), v, MeshedSlabs(c, v, r, donor), hist, e);
    MeshMapped(c, remap, m, remap', Punched(c, m1, donor, ok), v, alias, r, donor, ok);
  }

  method MeshFields(c: SizeClass, key: nat, m: Mem, remap: map<nat, nat>, ghost e: nat, ghost h: Head, d: Descs,
                    ghost k: Headers, r: SlabId, donor: SlabId, rocc: seq<nat>, docc: seq<nat>, ok: bool,
                    ghost v: PoolSpec.Pool, ghost alias: map<SlabId, SlabId>, ghost hist: seq<Event>)
    returns (m': Mem, remap': map<nat, nat>, d': Descs)
    requires RepOf(c, key, m, remap, e, h, d, k, v, alias, hist) && MeshPlan(c, v, alias, r, donor)
    requires OccOk(rocc, c.slots, v.slabs[r].free) && OccOk(docc, c.slots, v.slabs[donor].free)
    ensures RepOf(c, key, m', remap', e, h, d', k, MeshedSlabs(c, v, r, donor), Remapped(alias, r, donor, ok), hist)
    ensures Meshed(c, remap, m, remap', m', v, r, donor, ok)
  {
    assert SlabMapped(c, remap, alias, r) && SlabMapped(c, remap, alias, donor);
    var m1, head, count := Merge(c, key, remap, m, r, donor, rocc, docc, alias, v.slabs[r].free, v.slabs[donor].free);
    FreeFromAll(c, v, r, donor);
    d' := MeshDescs(d, r, donor, head, count);
    m', remap' := m1, remap;
    // btm_mesh_remap: nothing more happens if the mapping fails
    if ok {
      remap' := RemapRun(c, remap, r, donor);
      m' := Discard(c, m1, donor);
    }
    MeshStored(c, key, m, m1, remap, remap', e, h, d, k, v, alias, hist, r, donor, head, count, ok);
    assert m' == Punched(c, m1, donor, ok);
  }

  method MeshSlots(pool: SlabPool.Pool, r: SlabId, d: SlabId, rocc: seq<nat>, docc: seq<nat>, ok: bool)
    requires pool.Rep() && MeshPlan(pool.c, pool.view, pool.alias, r, d)
    requires OccOk(rocc, pool.c.slots, pool.view.slabs[r].free) && OccOk(docc, pool.c.slots, pool.view.slabs[d].free)
    modifies pool.space`mem, pool.space`remap, pool`head, pool`descs, pool`hdrs, pool`view, pool`alias
    ensures pool.Rep() && pool.view == Mesh(pool.c, old(pool.view), r, d)
    ensures pool.alias == Remapped(old(pool.alias), r, d, ok)
    ensures Meshed(pool.c, old(pool.space.remap), old(pool.space.mem), pool.space.remap, pool.space.mem,
                   old(pool.view), r, d, ok)
  {
    ghost var v, alias := pool.view, pool.alias;
    var m, remap, descs := MeshFields(pool.c, pool.key, pool.space.mem, pool.space.remap, pool.space.epoch, pool.head,
                                      pool.descs, pool.hdrs, r, d, rocc, docc, ok, v, alias, pool.history);
    pool.Install(m, remap, descs, MeshedSlabs(pool.c, v, r, d), Remapped(alias, r, d, ok));
    pool.RemovePartial(d);
  }

  lemma MeshRedraws(c: SizeClass, remap: map<nat, nat>, m: Mem, remap': map<nat, nat>, m': Mem, v: Pool,
                    alias: map<SlabId, SlabId>, r: SlabId, d: SlabId, ok: bool)
    requires MeshPlan(c, v, alias, r, d) && Meshed(c, remap, m, remap', m', v, r, d, ok)
    ensures Redrawn(c, remap, remap', alias, Remapped(alias, r, d, ok))
  {
    var alias' := Remapped(alias, r, d, ok);
    forall a: nat ensures Tr(remap', a) == Tr(remap, a) || InDonor(c, alias', a) {
      if ok {
        if InRun(c, d, a) { assert d in alias'; } else { RemapElse(c, remap, remap', r, d, a); }
      }
    }
  }

  lemma MeshDone(c: SizeClass, remap: map<nat, nat>, m: Mem, remap': map<nat, nat>, m': Mem, v: Pool,
                 out: set<Slot>, hidden: set<Slot>, alias: map<SlabId, SlabId>, r: SlabId, d: SlabId, ok: bool)
    requires PoolInv(c, v, out, hidden) && AliasOk(v, out, hidden, alias) && Meshable(c, v, r, d) && d !in alias.Values
    requires Mapped(c, remap, alias, v.live) && Meshed(c, remap, m, remap', m', v, r, d, ok)
    ensures PoolInv(c, Mesh(c, v, r, d), out, hidden + DonorHeld(c, v, r, d))
    ensures AliasOk(Mesh(c, v, r, d), out, hidden + DonorHeld(c, v, r, d), Remapped(alias, r, d, ok))
    ensures SameReads(c, remap, m, remap', m', out)
    ensures BytesOut(m, m', v.live.Keys) && PagesOut(remap, remap', v.live.Keys)
    ensures Redrawn(c, remap, remap', alias, Remapped(alias, r, d, ok))
  {
    MeshReady(c, v, out, hidden, alias, r, d);
    MeshRedraws(c, remap, m, remap', m', v, alias, r, d, ok);
    MeshOut(c, remap, m, remap', m', v, alias, r, d, ok);
    MeshInv(c, v, out, hidden, r, d);
    AliasMesh(c, v, out, hidden, alias, r, d, ok);
    forall x | x in out ensures SlotReads(c, remap, m, remap', m', x) {
      assert x.slab in alias ==> alias[x.slab] in alias.Values;
      MeshReads(c, remap, m, remap', m', v, out, hidden, alias, r, d, ok, x);
    }
  }

  // What a mesh or a whole pass leaves alone: reads at the addresses of slots in
  // use, the bytes and pages outside the pool's chunks, and which chunks it has.
  ghost predicate Unmoved(c: SizeClass, remap: map<nat, nat>, m: Mem, v: Pool, remap': map<nat, nat>, m': Mem, v': Pool,
                          out: set<Slot>) {
    && SameReads(c, remap, m, remap', m', out)
    && BytesOut(m, m', v.live.Keys) && PagesOut(remap, remap', v.live.Keys) && v'.live.Keys == v.live.Keys
  }

  lemma UnmovedTrans(c: SizeClass, r0: map<nat, nat>, m0: Mem, v0: Pool, r1: map<nat, nat>, m1: Mem, v1: Pool,
                     r2: map<nat, nat>, m2: Mem, v2: Pool, xs: set<Slot>)
    requires Unmoved(c, r0, m0, v0, r1, m1, v1, xs) && Unmoved(c, r1, m1, v1, r2, m2, v2, xs)
    ensures Unmoved(c, r0, m0, v0, r2, m2, v2, xs)
  {
    forall x | x in xs ensures SlotReads(c, r0, m0, r2, m2, x) {
      assert SlotReads(c, r0, m0, r1, m1, x) && SlotReads(c, r1, m1, r2, m2, x);
    }
    BytesOutTrans(m0, m1, m2, v0.live.Keys, v0.live.Keys, v0.live.Keys);
    PagesOutTrans(r0, r1, r2, v0.live.Keys, v0.live.Keys, v0.live.Keys);
  }

  /** mesh_pair, whether or not the remap succeeds: provided the donor backs no
      other slab, every slot in use reads the same at its own address. */
  method MeshPair(pool: SlabPool.Pool, r: SlabId, d: SlabId, rocc: seq<nat>, docc: seq<nat>, ok: bool,
                  ghost out: set<Slot>, ghost hidden: set<Slot>)
    requires pool.Valid(out, hidden) && Meshable(pool.c, pool.view, r, d) && d !in pool.alias.Values
    requires OccOk(rocc, pool.c.slots, pool.view.slabs[r].free) && OccOk(docc, pool.c.slots, pool.view.slabs[d].free)
    modifies pool.space`mem, pool.space`remap, pool`head, pool`descs, pool`hdrs, pool`view, pool`alias
    ensures pool.Valid(out, hidden + DonorHeld(pool.c, old(pool.view), r, d))
    ensures pool.view == Mesh(pool.c, old(pool.view), r, d) && pool.alias == Remapped(old(pool.alias), r, d, ok)
    ensures Unmoved(pool.c, old(pool.space.remap), old(pool.space.mem), old(pool.view), pool.space.remap,
                    pool.space.mem, pool.view, out)
    ensures Redrawn(pool.c, old(pool.space.remap), pool.space.remap, old(pool.alias), pool.alias)
  {
    ghost var v, alias, remap, m := pool.view, pool.alias, pool.space.remap, pool.space.mem;
    pool.Open(out, hidden);
    MeshReady(pool.c, v, out, hidden, alias, r, d);
    MeshSlots(pool, r, d, rocc, docc, ok);
    MeshDone(pool.c, remap, m, pool.space.remap, pool.space.mem, v, out, hidden, alias, r, d, ok);
  }

  // ---- choosing pairs ----

  const MAX_CANDS: nat := 64
  const OCC_MAXSLOTS: nat := 1024

  // At least one slot in use, and at most half of them.
  predicate Sparse(c: SizeClass, v: Pool, s: SlabId) {
    s in v.slabs && 1 <= c.slots - |v.slabs[s].free| && (c.slots - |v.slabs[s].free|) * 2 <= c.slots
  }

  predicate Wanted(c: SizeClass, v: Pool, s: SlabId) {
    Sparse(c, v, s) && !v.slabs[s].retired && c.slots <= OCC_MAXSLOTS
  }

  function Sieve(c: SizeClass, v: Pool, list: seq<SlabId>): seq<SlabId> {
    if list == [] then [] else (if Wanted(c, v, list[0]) then [list[0]] else []) + Sieve(c, v, list[1..])
  }

  // The candidates of a pass: the first 64 sparse slabs of the partial list.
  function Candidates(c: SizeClass, v: Pool): seq<SlabId> {
    var all := Sieve(c, v, v.partial);
    if |all| <= MAX_CANDS then all else all[..MAX_CANDS]
  }

  // The slabs have no occupied slot in common.
  ghost predicate Unmixed(c: SizeClass, v: Pool, s: SlabId, t: SlabId) {
    s in v.slabs && t in v.slabs && forall k: nat :: k < c.slots ==> k in v.slabs[s].free || k in v.slabs[t].free
  }

  // The first candidate from j on that i can be meshed with.
  ghost function Partner(c: SizeClass, v: Pool, ss: seq<SlabId>, used: set<SlabId>, i: nat, j: nat): (r: nat)
    requires i < |ss| && j <= |ss|
    ensures j <= r <= |ss|
    decreases |ss| - j
  {
    if j == |ss| || (j != i && ss[j] !in used && Unmixed(c, v, ss[i], ss[j])) then j
      else Partner(c, v, ss, used, i, j + 1)
  }

  // The pairs (recipient, donor) the greedy loop picks from its i-th turn on.
  ghost function Greedy(c: SizeClass, v: Pool, ss: seq<SlabId>, used: set<SlabId>, i: nat): seq<(SlabId, SlabId)>
    requires i <= |ss|
    decreases |ss| - i
  {
    if i == |ss| then []
    else if ss[i] in used || Partner(c, v, ss, used, i, 0) == |ss| then Greedy(c, v, ss, used, i + 1)
    else
      var d := ss[Partner(c, v, ss, used, i, 0)];
      [(ss[i], d)] + Greedy(c, v, ss, used + {ss[i], d}, i + 1)
  }

  // No donor among these pairs backs another slab.
  ghost predicate DonorsFree(alias: map<SlabId, SlabId>, pairs: seq<(SlabId, SlabId)>) {
    forall k :: 0 <= k < |pairs| ==> pairs[k].1 !in alias.Values
  }

  // The pool after these meshes.
  ghost function MeshAll(c: SizeClass, v: Pool, pairs: seq<(SlabId, SlabId)>): Pool
    requires c.Valid()
    decreases |pairs|
  {
    if pairs == [] then v
    else
      var q, p := MeshAll(c, v, pairs[..|pairs| - 1]), pairs[|pairs| - 1];
      if p.0 in q.slabs && p.1 in q.slabs then Mesh(c, q, p.0, p.1) else q
  }

  lemma {:induction false} SieveSnoc(c: SizeClass, v: Pool, list: seq<SlabId>, s: SlabId)
    ensures Sieve(c, v, list + [s]) == Sieve(c, v, list) + if Wanted(c, v, s) then [s] else []
  {
    if list == [] {
      assert [s][1..] == [];
    } else {
      assert (list + [s])[1..] == list[1..] + [s];
      SieveSnoc(c, v, list[1..], s);
    }
  }

  lemma {:induction false} SievePrefix(c: SizeClass, v: Pool, a: seq<SlabId>, b: seq<SlabId>)
    ensures Sieve(c, v, a + b) == Sieve(c, v, a) + Sieve(c, v, b)
    decreases |b|
  {
    if b == [] {
      assert a + b == a;
    } else {
      assert a + b == (a + [b[0]]) + b[1..];
      SievePrefix(c, v, a + [b[0]], b[1..]);
      SieveSnoc(c, v, a, b[0]);
    }
  }

  lemma {:induction false} SieveElems(c: SizeClass, v: Pool, list: seq<SlabId>, s: SlabId)
    ensures s in Sieve(c, v, list) <==> s in list && Wanted(c, v, s)
  {
    if list == [] {
    } else {
      SieveElems(c, v, list[1..], s);
    }
  }

  datatype Cand = Cand(slab: SlabId, occ: seq<nat>, used: bool)

  function Slabs(cs: seq<Cand>): (r: seq<SlabId>)
    ensures |r| == |cs| && forall i :: 0 <= i < |cs| ==> r[i] == cs[i].slab
  {
    seq(|cs|, i requires 0 <= i < |cs| => cs[i].slab)
  }

  // An unused candidate: its bitmap is its occupancy.
  ghost predicate CandOk(c: SizeClass, v: Pool, s: SlabId, bm: seq<nat>) {
    && s in v.partial && s in v.slabs && OccOk(bm, c.slots, v.slabs[s].free)
  }

  ghost predicate CandsOk(c: SizeClass, v: Pool, cs: seq<Cand>) {
    && (forall i :: 0 <= i < |cs| ==> |cs[i].occ| == Words(c.slots) && Tidy(cs[i].occ))
    && (forall i :: 0 <= i < |cs| && !cs[i].used ==> CandOk(c, v, cs[i].slab, cs[i].occ))
    && (forall i, j :: 0 <= i < j < |cs| ==> cs[i].slab != cs[j].slab)
  }

  ghost predicate Fits(cs: seq<Cand>, i: nat, j: nat)
    requires i < |cs| && j < |cs|
  {
    j != i && !cs[j].used && forall k: nat :: !Clash(cs[i].occ, cs[j].occ, k)
  }

  /** The inner loop of btm_compact: the first unused candidate whose occupied
      slots do not overlap candidate i's, if there is one. */
  method FindPartner(cs: seq<Cand>, i: nat) returns (j: nat)
    requires i < |cs| && forall k, l :: 0 <= k < |cs| && 0 <= l < |cs| ==> |cs[k].occ| == |cs[l].occ|
    requires Tidy(cs[i].occ)
    ensures j <= |cs| && (j < |cs| ==> Fits(cs, i, j)) && forall k: nat :: k < j ==> !Fits(cs, i, k)
  {
    j := 0;
    while j < |cs|
      invariant j <= |cs| && forall k: nat :: k < j ==> !Fits(cs, i, k)
    {
      if j != i && !cs[j].used {
        var yes := NoOverlap(cs[i].occ, cs[j].occ);
        if yes { return; }
      }
      j := j + 1;
    }
  }

  // Bitmaps that do not clash are those of slabs without a common occupied slot.
  lemma FitsUnmixed(c: SizeClass, v: Pool, cs: seq<Cand>, i: nat, j: nat)
    requires CandsOk(c, v, cs) && i < |cs| && j < |cs| && !cs[i].used && !cs[j].used && i != j
    ensures Fits(cs, i, j) <==> Unmixed(c, v, cs[i].slab, cs[j].slab)
  {
    var a, b := cs[i], cs[j];
    assert CandOk(c, v, a.slab, a.occ) && CandOk(c, v, b.slab, b.occ);
    if Fits(cs, i, j) {
      forall k: nat | k < c.slots ensures k in v.slabs[a.slab].free || k in v.slabs[b.slab].free {
        assert !Clash(a.occ, b.occ, k);
      }
    }
    if Unmixed(c, v, a.slab, b.slab) {
      forall k: nat
        ensures !Clash(a.occ, b.occ, k) { assert Used(a.occ, k) ==> k < c.slots && k !in v.slabs[a.slab].free; }
    }
  }

  // What gathering relies on: every slab on the partial list has a freelist.
  ghost predicate GatherPlan(c: SizeClass, v: Pool) {
    && NoDup(v.partial)
    && forall s :: s in v.partial ==> Active(v.slabs, v.warm, v.cold, s) && SlabOk(c, s) && s.chunk in v.live
  }

  // The first i slabs of the partial list have been looked at.
  ghost predicate Gathered(c: SizeClass, v: Pool, cs: seq<Cand>, i: nat) {
    && i <= |v.partial| && CandsOk(c, v, cs) && |cs| <= MAX_CANDS
    && Slabs(cs) == Sieve(c, v, v.partial[..i]) && forall j :: 0 <= j < |cs| ==> !cs[j].used
  }

  lemma GatherAdd(c: SizeClass, v: Pool, cs: seq<Cand>, i: nat, bm: seq<nat>)
    requires Gathered(c, v, cs, i) && i < |v.partial| && NoDup(v.partial) && |cs| < MAX_CANDS
    requires CandOk(c, v, v.partial[i], bm) && Wanted(c, v, v.partial[i])
    ensures Gathered(c, v, cs + [Cand(v.partial[i], bm, false)], i + 1)
  {
    var t := cs + [Cand(v.partial[i], bm, false)];
    assert v.partial[..i + 1] == v.partial[..i] + [v.partial[i]];
    SieveSnoc(c, v, v.partial[..i], v.partial[i]);
    assert Slabs(t) == Slabs(cs) + [v.partial[i]];
    forall j | 0 <= j < |cs| ensures cs[j].slab != v.partial[i] {
      SieveElems(c, v, v.partial[..i], cs[j].slab);
      assert Slabs(cs)[j] == cs[j].slab;
    }
  }

  lemma GatherSkip(c: SizeClass, v: Pool, cs: seq<Cand>, i: nat)
    requires Gathered(c, v, cs, i) && i < |v.partial| && !Wanted(c, v, v.partial[i])
    ensures Gathered(c, v, cs, i + 1)
  {
    assert v.partial[..i + 1] == v.partial[..i] + [v.partial[i]];
    SieveSnoc(c, v, v.partial[..i], v.partial[i]);
  }

  method GatherOne(c: SizeClass, key: nat, remap: map<nat, nat>, m: Mem, d: Descs, s: SlabId, cs: seq<Cand>,
                   ghost v: PoolSpec.Pool, ghost alias: map<SlabId, SlabId>, ghost i: nat)
    returns (cs': seq<Cand>)
    requires Mapped(c, remap, alias, v.live) && SlabsOk(c, key, m, d, v, alias) && GatherPlan(c, v)
    requires Gathered(c, v, cs, i) && i < |v.partial| && s == v.partial[i] && |cs| < MAX_CANDS
    ensures Gathered(c, v, cs', i + 1)
  {
    assert s in v.partial;
    var used := c.slots - Num(d.freeCount, s);
    if Flag(d.retired, s) || c.slots > OCC_MAXSLOTS || used <= 0 || used * 2 > c.slots {
      GatherSkip(c, v, cs, i);
      return cs;
    }
    assert ChainRep(c, alias, key, m, d.freeHead, v.slabs, s);
    SlabPool.FreeMapped(c, remap, alias, v.live, s, v.slabs[s].free);
    var bm := BuildOcc(c, key, remap, m, s, Num(d.freeHead, s), alias, v.slabs[s].free);
    GatherAdd(c, v, cs, i, bm);
    cs' := cs + [Cand(s, bm, false)];
  }

  // The walk ended, or 64 candidates have been found.
  lemma GatherEnd(c: SizeClass, v: Pool, cs: seq<Cand>, i: nat)
    requires Gathered(c, v, cs, i) && (i == |v.partial| || |cs| == MAX_CANDS)
    ensures Slabs(cs) == Candidates(c, v)
  {
    assert v.partial == v.partial[..i] + v.partial[i..];
    SievePrefix(c, v, v.partial[..i], v.partial[i..]);
  }

  // Some slot of slab s is in use, and at most half of them are.
  ghost predicate HalfUsed(c: SizeClass, v: Pool, s: SlabId) {
    s in v.slabs && 1 <= c.slots - |v.slabs[s].free| && 2 * (c.slots - |v.slabs[s].free|) <= c.slots
  }

  // The candidates are half used slabs of the partial list, each once.
  lemma CandidateIs(c: SizeClass, v: Pool, s: SlabId)
    requires s in Candidates(c, v)
    ensures s in v.partial && HalfUsed(c, v, s)
  {
    SieveElems(c, v, v.partial, s);
  }

  /** The gathering loop of btm_compact: exactly the candidates, each with its
      occupancy bitmap. */
  method Gather(c: SizeClass, key: nat, remap: map<nat, nat>, m: Mem, h: Head, d: Descs,
                ghost v: PoolSpec.Pool, ghost alias: map<SlabId, SlabId>)
    returns (cs: seq<Cand>)
    requires Mapped(c, remap, alias, v.live) && SlabsOk(c, key, m, d, v, alias) && GatherPlan(c, v)
    requires L.SList(d.links, h.partial, v.partial)
    ensures CandsOk(c, v, cs) && Slabs(cs) == Candidates(c, v) && forall j :: 0 <= j < |cs| ==> !cs[j].used
    ensures forall j :: 0 <= j < |cs| ==> cs[j].slab in v.partial && HalfUsed(c, v, cs[j].slab)
  {
    cs := [];
    var cur := h.partial;
    ghost var i := 0;
    while cur.Some? && |cs| < MAX_CANDS
      invariant Gathered(c, v, cs, i) && cur == L.At(v.partial, i)
      decreases |v.partial| - i
    {
      cs := GatherOne(c, key, remap, m, d, cur.value, cs, v, alias, i);
      cur := d.links[cur.value].next;
      i := i + 1;
    }
    GatherEnd(c, v, cs, i);
    forall j | 0 <= j < |cs| ensures cs[j].slab in v.partial && HalfUsed(c, v, cs[j].slab) {
      assert Slabs(cs)[j] == cs[j].slab;
      CandidateIs(c, v, cs[j].slab);
    }
  }

  // ---- the pass ----

  function Mark(cs: seq<Cand>, i: nat, j: nat): seq<Cand>
    requires i < |cs| && j < |cs|
  {
    cs[i := cs[i].(used := true)][j := cs[j].(used := true)]
  }

  lemma CandAfter(c: SizeClass, v: Pool, r: SlabId, d: SlabId, s: SlabId, bm: seq<nat>)
    requires c.Valid() && r in v.slabs && d in v.slabs && s != r && s != d && CandOk(c, v, s, bm)
    ensures CandOk(c, Mesh(c, v, r, d), s, bm)
  {
    WithoutElems(v.partial, {d});
  }

  lemma CandsAfter(c: SizeClass, v: Pool, cs: seq<Cand>, i: nat, j: nat)
    requires c.Valid() && CandsOk(c, v, cs) && i < |cs| && j < |cs| && !cs[i].used && !cs[j].used && i != j
    ensures cs[i].slab in v.slabs && cs[j].slab in v.slabs
    ensures CandsOk(c, Mesh(c, v, cs[i].slab, cs[j].slab), Mark(cs, i, j)) && Slabs(Mark(cs, i, j)) == Slabs(cs)
  {
    var r, d, t := cs[i].slab, cs[j].slab, Mark(cs, i, j);
    assert CandOk(c, v, r, cs[i].occ) && CandOk(c, v, d, cs[j].occ);
    forall k | 0 <= k < |t| && !t[k].used ensures CandOk(c, Mesh(c, v, r, d), t[k].slab, t[k].occ) {
      assert t[k] == cs[k];
      CandAfter(c, v, r, d, t[k].slab, t[k].occ);
    }
  }

  // A member of the list, not yet used.
  lemma {:induction false} PartnerIn(c: SizeClass, v: Pool, ss: seq<SlabId>, used: set<SlabId>, i: nat, j: nat)
    requires i < |ss| && j <= |ss| && Partner(c, v, ss, used, i, j) < |ss|
    ensures var p := Partner(c, v, ss, used, i, j); p != i && ss[p] !in used && Unmixed(c, v, ss[i], ss[p])
    decreases |ss| - j
  {
    if j != i && ss[j] !in used && Unmixed(c, v, ss[i], ss[j]) {
    } else {
      PartnerIn(c, v, ss, used, i, j + 1);
    }
  }

  // Whoever is used already is no donor of a later pair.
  lemma {:induction false} GreedyUnused(c: SizeClass, v: Pool, ss: seq<SlabId>, used: set<SlabId>, i: nat, k: nat)
    requires i <= |ss| && k < |Greedy(c, v, ss, used, i)|
    ensures Greedy(c, v, ss, used, i)[k].1 !in used
    decreases |ss| - i
  {
    if ss[i] in used || Partner(c, v, ss, used, i, 0) == |ss| {
      GreedyUnused(c, v, ss, used, i + 1, k);
    } else {
      PartnerIn(c, v, ss, used, i, 0);
      var d := ss[Partner(c, v, ss, used, i, 0)];
      if k > 0 { GreedyUnused(c, v, ss, used + {ss[i], d}, i + 1, k - 1); }
    }
  }

  // ---- what the greedy choice guarantees ----

  // The slabs among the first n of the partial list that are worth meshing.
  ghost function HalfUsedAmong(c: SizeClass, v: Pool, n: nat): set<SlabId>
    requires n <= |v.partial|
  {
    set s | s in v.partial[..n] && HalfUsed(c, v, s)
  }

  // Slab s is in one of these pairs.
  ghost predicate Paired(pairs: seq<(SlabId, SlabId)>, s: SlabId) {
    exists k :: 0 <= k < |pairs| && (pairs[k].0 == s || pairs[k].1 == s)
  }

  // Some slot is in use in both slabs.
  ghost predicate Collide(c: SizeClass, v: Pool, s: SlabId, t: SlabId) {
    s in v.slabs && t in v.slabs && exists k: nat :: k < c.slots && k !in v.slabs[s].free && k !in v.slabs[t].free
  }

  // Slab s comes before t in the list.
  ghost predicate Before(list: seq<SlabId>, s: SlabId, t: SlabId) {
    exists i: nat, j: nat :: i < j < |list| && list[i] == s && list[j] == t
  }

  // Slab s is one of the first 64 of the partial list that are worth meshing.
  ghost predicate Early(c: SizeClass, v: Pool, s: SlabId) {
    exists n: nat :: n <= |v.partial| && |HalfUsedAmong(c, v, n)| <= 64 && s in HalfUsedAmong(c, v, n)
  }

  // The slabs of every pair are among those first 64, the recipient before the donor; they are in no other
  // pair and do not collide.
  ghost predicate PairsOk(c: SizeClass, v: Pool, pairs: seq<(SlabId, SlabId)>) {
    && (forall k :: 0 <= k < |pairs| ==>
          && pairs[k].0 in v.partial && pairs[k].1 in v.partial && pairs[k].0 != pairs[k].1
          && HalfUsed(c, v, pairs[k].0) && HalfUsed(c, v, pairs[k].1) && !Collide(c, v, pairs[k].0, pairs[k].1)
          && Early(c, v, pairs[k].0) && Early(c, v, pairs[k].1) && Before(v.partial, pairs[k].0, pairs[k].1))
    && (forall k, l :: 0 <= k < l < |pairs| ==>
          pairs[k].0 != pairs[l].0 && pairs[k].0 != pairs[l].1 && pairs[k].1 != pairs[l].0 && pairs[k].1 != pairs[l].1)
  }

  // Of the first 64 slabs that are worth meshing no two are left over that could be meshed.
  ghost predicate NoneLeft(c: SizeClass, v: Pool, pairs: seq<(SlabId, SlabId)>) {
    c.slots <= 1024 ==> forall n: nat :: n <= |v.partial| && |HalfUsedAmong(c, v, n)| <= 64 ==>
      forall s, t :: s in HalfUsedAmong(c, v, n) && t in HalfUsedAmong(c, v, n) && s != t ==>
        Paired(pairs, s) || Paired(pairs, t) || Collide(c, v, s, t)
  }

  lemma {:induction false} PartnerNone(c: SizeClass, v: Pool, ss: seq<SlabId>, used: set<SlabId>, i: nat, j: nat,
                                       k: nat)
    requires i < |ss| && j <= k < |ss| && Partner(c, v, ss, used, i, j) == |ss| && k != i && ss[k] !in used
    ensures !Unmixed(c, v, ss[i], ss[k])
    decreases |ss| - j
  {
    if j == k {
    } else {
      PartnerNone(c, v, ss, used, i, j + 1, k);
    }
  }

  // The k-th pair is of unused members of the list that do not collide.
  lemma {:induction false} GreedyPair(c: SizeClass, v: Pool, ss: seq<SlabId>, used: set<SlabId>, i: nat, k: nat)
    requires i <= |ss| && k < |Greedy(c, v, ss, used, i)| && NoDup(ss)
    ensures var p := Greedy(c, v, ss, used, i)[k];
            p.0 in ss && p.1 in ss && p.0 !in used && p.1 !in used && p.0 != p.1 && Unmixed(c, v, p.0, p.1)
    decreases |ss| - i
  {
    if ss[i] in used || Partner(c, v, ss, used, i, 0) == |ss| {
      GreedyPair(c, v, ss, used, i + 1, k);
    } else {
      PartnerIn(c, v, ss, used, i, 0);
      var d := ss[Partner(c, v, ss, used, i, 0)];
      if k > 0 { GreedyPair(c, v, ss, used + {ss[i], d}, i + 1, k - 1); }
    }
  }

  // No slab is in two pairs.
  lemma {:induction false} GreedyApart(c: SizeClass, v: Pool, ss: seq<SlabId>, used: set<SlabId>, i: nat, k: nat,
                                       l: nat)
    requires i <= |ss| && k < l < |Greedy(c, v, ss, used, i)| && NoDup(ss)
    ensures var p, q := Greedy(c, v, ss, used, i)[k], Greedy(c, v, ss, used, i)[l];
            p.0 != q.0 && p.0 != q.1 && p.1 != q.0 && p.1 != q.1
    decreases |ss| - i
  {
    if ss[i] in used || Partner(c, v, ss, used, i, 0) == |ss| {
      GreedyApart(c, v, ss, used, i + 1, k, l);
    } else {
      var d := ss[Partner(c, v, ss, used, i, 0)];
      if k > 0 {
        GreedyApart(c, v, ss, used + {ss[i], d}, i + 1, k - 1, l - 1);
      } else {
        GreedyPair(c, v, ss, used + {ss[i], d}, i + 1, l - 1);
      }
    }
  }

  // The first i members have had their turn: those still unused collide with all others still unused.
  ghost predicate Exhausted(c: SizeClass, v: Pool, ss: seq<SlabId>, used: set<SlabId>, i: nat) {
    forall a: nat, b: nat :: a < i <= |ss| && b < |ss| && a != b && ss[a] !in used && ss[b] !in used ==>
      !Unmixed(c, v, ss[a], ss[b])
  }

  lemma NoPartnerBefore(c: SizeClass, v: Pool, ss: seq<SlabId>, used: set<SlabId>, i: nat)
    requires i < |ss| && ss[i] !in used && Exhausted(c, v, ss, used, i)
    ensures Partner(c, v, ss, used, i, 0) > i
  {
    var j := Partner(c, v, ss, used, i, 0);
    if j < |ss| {
      PartnerIn(c, v, ss, used, i, 0);
      assert Unmixed(c, v, ss[j], ss[i]);
    }
  }

  lemma StillExhausted(c: SizeClass, v: Pool, ss: seq<SlabId>, used: set<SlabId>, i: nat)
    requires i < |ss| && Exhausted(c, v, ss, used, i)
    requires ss[i] in used || Partner(c, v, ss, used, i, 0) == |ss|
    ensures Exhausted(c, v, ss, used, i + 1)
  {
    forall b: nat | b < |ss| && b != i && ss[i] !in used && ss[b] !in used ensures !Unmixed(c, v, ss[i], ss[b]) {
      PartnerNone(c, v, ss, used, i, 0, b);
    }
  }

  // Though the search for a donor starts at the front, it finds none there: the recipient comes first.
  lemma {:induction false} GreedyForward(c: SizeClass, v: Pool, ss: seq<SlabId>, used: set<SlabId>, i: nat, k: nat)
    requires i <= |ss| && k < |Greedy(c, v, ss, used, i)| && Exhausted(c, v, ss, used, i)
    ensures var p := Greedy(c, v, ss, used, i)[k]; Before(ss, p.0, p.1)
    decreases |ss| - i
  {
    if ss[i] in used || Partner(c, v, ss, used, i, 0) == |ss| {
      StillExhausted(c, v, ss, used, i);
      GreedyForward(c, v, ss, used, i + 1, k);
    } else {
      NoPartnerBefore(c, v, ss, used, i);
      var d := ss[Partner(c, v, ss, used, i, 0)];
      if k > 0 { GreedyForward(c, v, ss, used + {ss[i], d}, i + 1, k - 1); }
    }
  }

  // Two members that end in no pair collide.
  lemma {:induction false} GreedyMaximal(c: SizeClass, v: Pool, ss: seq<SlabId>, used: set<SlabId>, i: nat, x: nat,
                                         y: nat)
    requires i <= x < |ss| && y < |ss| && x != y && ss[x] !in used && ss[y] !in used
    requires !Paired(Greedy(c, v, ss, used, i), ss[x]) && !Paired(Greedy(c, v, ss, used, i), ss[y])
    ensures !Unmixed(c, v, ss[x], ss[y])
    decreases |ss| - i
  {
    var all := Greedy(c, v, ss, used, i);
    if ss[i] in used || Partner(c, v, ss, used, i, 0) == |ss| {
      if i == x {
        PartnerNone(c, v, ss, used, i, 0, y);
      } else {
        GreedyMaximal(c, v, ss, used, i + 1, x, y);
      }
    } else {
      var d := ss[Partner(c, v, ss, used, i, 0)];
      var rest := Greedy(c, v, ss, used + {ss[i], d}, i + 1);
      assert all == [(ss[i], d)] + rest && all[0] == (ss[i], d);
      assert forall k :: 0 <= k < |rest| ==> all[k + 1] == rest[k];
      NotPaired(all, rest, ss[x]);
      NotPaired(all, rest, ss[y]);
      GreedyMaximal(c, v, ss, used + {ss[i], d}, i + 1, x, y);
    }
  }

  lemma NotPaired(all: seq<(SlabId, SlabId)>, rest: seq<(SlabId, SlabId)>, s: SlabId)
    requires |all| == |rest| + 1 && (forall k :: 0 <= k < |rest| ==> all[k + 1] == rest[k]) && !Paired(all, s)
    ensures !Paired(rest, s) && all[0].0 != s && all[0].1 != s
  {
    forall k | 0 <= k < |rest| ensures rest[k].0 != s && rest[k].1 != s { assert all[k + 1] == rest[k]; }
  }

  lemma CollideIff(c: SizeClass, v: Pool, s: SlabId, t: SlabId)
    requires s in v.slabs && t in v.slabs
    ensures Collide(c, v, s, t) <==> !Unmixed(c, v, s, t)
  {}

  lemma {:induction false} SieveNoDup(c: SizeClass, v: Pool, list: seq<SlabId>)
    requires NoDup(list)
    ensures NoDup(Sieve(c, v, list))
  {
    if list == [] {
    } else {
      NoDupTail(list);
      assert list == [list[0]] + list[1..];
      SieveNoDup(c, v, list[1..]);
      SieveElems(c, v, list[1..], list[0]);
      NoDupPush(list[0], Sieve(c, v, list[1..]));
    }
  }

  lemma CandidatesNoDup(c: SizeClass, v: Pool)
    requires NoDup(v.partial)
    ensures NoDup(Candidates(c, v))
  {
    SieveNoDup(c, v, v.partial);
  }

  // The half used slabs among the first n are those the sieve lets through.
  lemma SieveEarly(c: SizeClass, v: Pool, n: nat)
    requires NoDup(v.partial) && n <= |v.partial|
    requires c.slots <= 1024 && forall t :: t in v.partial ==> t in v.slabs && !v.slabs[t].retired
    ensures Elems(Sieve(c, v, v.partial[..n])) == HalfUsedAmong(c, v, n)
    ensures |Sieve(c, v, v.partial[..n])| == |HalfUsedAmong(c, v, n)|
  {
    var a := v.partial[..n];
    var early := Sieve(c, v, a);
    assert forall t :: t in a ==> t in v.partial;
    forall t ensures t in early <==> t in HalfUsedAmong(c, v, n) { SieveElems(c, v, a, t); }
    assert Elems(early) == HalfUsedAmong(c, v, n);
    assert NoDup(a);
    SieveNoDup(c, v, a);
    NoDupCard(early);
  }

  // Each of the first 64 half used slabs is a candidate.
  lemma EarlyIsCandidate(c: SizeClass, v: Pool, n: nat, s: SlabId)
    requires NoDup(v.partial) && n <= |v.partial| && |HalfUsedAmong(c, v, n)| <= 64 && s in HalfUsedAmong(c, v, n)
    requires c.slots <= 1024 && forall t :: t in v.partial ==> t in v.slabs && !v.slabs[t].retired
    ensures s in Candidates(c, v)
  {
    SieveEarly(c, v, n);
    SievePrefix(c, v, v.partial[..n], v.partial[n..]);
    assert v.partial[..n] + v.partial[n..] == v.partial;
    var early := Sieve(c, v, v.partial[..n]);
    assert s in Elems(early);
    var i :| 0 <= i < |early| && early[i] == s;
    assert Sieve(c, v, v.partial)[i] == s;
  }

  // The sieve lets through no more than i slabs before the one it lists i-th.
  lemma SieveAt(c: SizeClass, v: Pool, list: seq<SlabId>, p: nat, i: nat)
    requires NoDup(list) && p < |list| && i < |Sieve(c, v, list)| && Sieve(c, v, list)[i] == list[p]
    ensures |Sieve(c, v, list[..p])| <= i
  {
    SievePrefix(c, v, list[..p], list[p..]);
    assert list[..p] + list[p..] == list;
    SieveElems(c, v, list[..p], list[p]);
  }

  lemma CandidateAt(c: SizeClass, v: Pool, s: SlabId) returns (i: nat)
    requires s in Candidates(c, v)
    ensures i < 64 && i < |Sieve(c, v, v.partial)| && Sieve(c, v, v.partial)[i] == s
  {
    i :| 0 <= i < |Candidates(c, v)| && Candidates(c, v)[i] == s;
  }

  // Each candidate is one of the first 64 half used slabs.
  lemma CandidateEarly(c: SizeClass, v: Pool, s: SlabId)
    requires NoDup(v.partial) && s in Candidates(c, v)
    requires forall t :: t in v.partial ==> t in v.slabs && !v.slabs[t].retired
    ensures Early(c, v, s)
  {
    var i := CandidateAt(c, v, s);
    SieveElems(c, v, v.partial, s);
    var p :| 0 <= p < |v.partial| && v.partial[p] == s;
    SieveAt(c, v, v.partial, p, i);
    SieveSnoc(c, v, v.partial[..p], s);
    assert v.partial[..p] + [s] == v.partial[..p + 1];
    SieveEarly(c, v, p + 1);
    assert v.partial[..p + 1][p] == s;
    assert s in HalfUsedAmong(c, v, p + 1);
  }

  lemma BeforeTail(list: seq<SlabId>, s: SlabId, t: SlabId)
    requires list != [] && Before(list[1..], s, t)
    ensures Before(list, s, t)
  {
    var tail := list[1..];
    var i: nat, j: nat :| i < j < |tail| && tail[i] == s && tail[j] == t;
    assert list[i + 1] == s && list[j + 1] == t;
  }

  // The sieve keeps the order.
  lemma {:induction false} SieveOrder(c: SizeClass, v: Pool, list: seq<SlabId>, i: nat, j: nat)
    requires i < j < |Sieve(c, v, list)|
    ensures Before(list, Sieve(c, v, list)[i], Sieve(c, v, list)[j])
  {
    var s, t := Sieve(c, v, list)[i], Sieve(c, v, list)[j];
    var rest := Sieve(c, v, list[1..]);
    if !Wanted(c, v, list[0]) {
      SieveOrder(c, v, list[1..], i, j);
      BeforeTail(list, s, t);
    } else if i > 0 {
      SieveOrder(c, v, list[1..], i - 1, j - 1);
      BeforeTail(list, s, t);
    } else {
      assert t == rest[j - 1];
      SieveElems(c, v, list[1..], t);
      var k :| 0 <= k < |list[1..]| && list[1..][k] == t;
      assert list[0] == s && list[k + 1] == t;
    }
  }

  lemma PairInOrder(c: SizeClass, v: Pool, k: nat)
    requires k < |Greedy(c, v, Candidates(c, v), {}, 0)|
    ensures var p := Greedy(c, v, Candidates(c, v), {}, 0)[k]; Before(v.partial, p.0, p.1)
  {
    var ss := Candidates(c, v);
    var p := Greedy(c, v, ss, {}, 0)[k];
    GreedyForward(c, v, ss, {}, 0, k);
    var i: nat, j: nat :| i < j < |ss| && ss[i] == p.0 && ss[j] == p.1;
    SieveOrder(c, v, v.partial, i, j);
  }

  /** The pairs a pass meshes: of the first 64 slabs of the partial list with at least one
      and at most half of their slots in use, two that do not collide, the earlier one
      the recipient, each in one pair; and no two of those 64 are left over that could
      have been meshed. */
  lemma GreedyChoice(c: SizeClass, v: Pool, out: set<Slot>, hidden: set<Slot>)
    requires PoolInv(c, v, out, hidden)
    ensures var pairs := Greedy(c, v, Candidates(c, v), {}, 0); PairsOk(c, v, pairs) && NoneLeft(c, v, pairs)
  {
    CandidatesNoDup(c, v);
    ChoicePairs(c, v);
    forall s | s in v.partial ensures s in v.slabs && !v.slabs[s].retired { assert Placed(c.slots, v, hidden, s); }
    ChoiceMaximal(c, v);
  }

  lemma ChoicePairs(c: SizeClass, v: Pool)
    requires NoDup(Candidates(c, v)) && NoDup(v.partial)
    requires forall t :: t in v.partial ==> t in v.slabs && !v.slabs[t].retired
    ensures PairsOk(c, v, Greedy(c, v, Candidates(c, v), {}, 0))
  {
    var ss := Candidates(c, v);
    var pairs := Greedy(c, v, ss, {}, 0);
    forall k | 0 <= k < |pairs|
      ensures pairs[k].0 in v.partial && pairs[k].1 in v.partial && pairs[k].0 != pairs[k].1
      ensures HalfUsed(c, v, pairs[k].0) && HalfUsed(c, v, pairs[k].1) && !Collide(c, v, pairs[k].0, pairs[k].1)
      ensures Early(c, v, pairs[k].0) && Early(c, v, pairs[k].1) && Before(v.partial, pairs[k].0, pairs[k].1)
    {
      GreedyPair(c, v, ss, {}, 0, k);
      CandidateEarly(c, v, pairs[k].0);
      CandidateEarly(c, v, pairs[k].1);
      PairInOrder(c, v, k);
      CandidateIs(c, v, pairs[k].0);
      CandidateIs(c, v, pairs[k].1);
      CollideIff(c, v, pairs[k].0, pairs[k].1);
    }
    forall k, l | 0 <= k < l < |pairs|
      ensures pairs[k].0 != pairs[l].0 && pairs[k].0 != pairs[l].1 && pairs[k].1 != pairs[l].0
      ensures pairs[k].1 != pairs[l].1
    {
      GreedyApart(c, v, ss, {}, 0, k, l);
    }
  }

  lemma ChoiceMaximal(c: SizeClass, v: Pool)
    requires NoDup(v.partial) && forall t :: t in v.partial ==> t in v.slabs && !v.slabs[t].retired
    ensures NoneLeft(c, v, Greedy(c, v, Candidates(c, v), {}, 0))
  {
    var ss := Candidates(c, v);
    var pairs := Greedy(c, v, ss, {}, 0);
    forall n: nat, s, t | c.slots <= 1024 && n <= |v.partial| && |HalfUsedAmong(c, v, n)| <= 64
                          && s in HalfUsedAmong(c, v, n) && t in HalfUsedAmong(c, v, n) && s != t
      ensures Paired(pairs, s) || Paired(pairs, t) || Collide(c, v, s, t)
    {
      EarlyIsCandidate(c, v, n, s);
      EarlyIsCandidate(c, v, n, t);
      LeftCollide(c, v, ss, pairs, s, t);
    }
  }

  lemma LeftCollide(c: SizeClass, v: Pool, ss: seq<SlabId>, pairs: seq<(SlabId, SlabId)>, s: SlabId, t: SlabId)
    requires s in ss && t in ss && s != t && s in v.slabs && t in v.slabs && pairs == Greedy(c, v, ss, {}, 0)
    ensures Paired(pairs, s) || Paired(pairs, t) || Collide(c, v, s, t)
  {
    if !Paired(pairs, s) && !Paired(pairs, t) {
      var x: nat :| x < |ss| && ss[x] == s;
      var y: nat :| y < |ss| && ss[y] == t;
      GreedyMaximal(c, v, ss, {}, 0, x, y);
      CollideIff(c, v, s, t);
    }
  }

  // The first of the remaining pairs is meshed: the donors after it back nothing still.
  lemma DonorsAfter(c: SizeClass, v: Pool, ss: seq<SlabId>, used: set<SlabId>, i: nat, alias: map<SlabId, SlabId>,
                    j: nat, ok: bool)
    requires i < |ss| && ss[i] !in used && Partner(c, v, ss, used, i, 0) == j < |ss|
    requires DonorsFree(alias, Greedy(c, v, ss, used, i))
    ensures ss[j] !in alias.Values
    ensures DonorsFree(Remapped(alias, ss[i], ss[j], ok), Greedy(c, v, ss, used + {ss[i], ss[j]}, i + 1))
  {
    var all, rest := Greedy(c, v, ss, used, i), Greedy(c, v, ss, used + {ss[i], ss[j]}, i + 1);
    assert all == [(ss[i], ss[j])] + rest && all[0] == (ss[i], ss[j]);
    var a := Remapped(alias, ss[i], ss[j], ok);
    forall k | 0 <= k < |rest| ensures rest[k].1 !in a.Values {
      assert all[k + 1] == rest[k];
      GreedyUnused(c, v, ss, used + {ss[i], ss[j]}, i + 1, k);
      forall e | e in a ensures a[e] != rest[k].1 { assert e in alias ==> alias[e] in alias.Values; }
    }
  }

  // The greedy loop before its i-th turn: `pairs` have been meshed.
  ghost predicate Passing(c: SizeClass, v0: Pool, v: Pool, cs: seq<Cand>, used: set<SlabId>,
                          pairs: seq<(SlabId, SlabId)>, i: nat) {
    && c.Valid() && i <= |cs| && v == MeshAll(c, v0, pairs) && CandsOk(c, v, cs) && Slabs(cs) == Candidates(c, v0)
    && (forall k :: 0 <= k < |cs| ==> (cs[k].used <==> cs[k].slab in used))
    && (forall k :: 0 <= k < |cs| && !cs[k].used ==> SameFree(v0, v, cs[k].slab))
    && pairs + Greedy(c, v0, Slabs(cs), used, i) == Greedy(c, v0, Candidates(c, v0), {}, 0)
  }

  ghost predicate SameFree(v0: Pool, v: Pool, s: SlabId) {
    s in v0.slabs && s in v.slabs && v.slabs[s].free == v0.slabs[s].free
  }

  lemma PassStart(c: SizeClass, v: Pool, cs: seq<Cand>)
    requires c.Valid() && CandsOk(c, v, cs) && Slabs(cs) == Candidates(c, v)
    requires forall j :: 0 <= j < |cs| ==> !cs[j].used
    ensures Passing(c, v, v, cs, {}, [], 0)
  {
    assert forall k :: 0 <= k < |cs| ==> CandOk(c, v, cs[k].slab, cs[k].occ);
  }

  lemma {:induction false} PartnerIs(c: SizeClass, v: Pool, ss: seq<SlabId>, used: set<SlabId>, i: nat, from: nat,
                                     j: nat)
    requires i < |ss| && from <= j <= |ss|
    requires forall k :: from <= k < j ==> !(k != i && ss[k] !in used && Unmixed(c, v, ss[i], ss[k]))
    requires j < |ss| ==> j != i && ss[j] !in used && Unmixed(c, v, ss[i], ss[j])
    ensures Partner(c, v, ss, used, i, from) == j
    decreases j - from
  {
    if from == j {
    } else {
      PartnerIs(c, v, ss, used, i, from + 1, j);
    }
  }

  // What FindPartner returns is the partner the greedy choice names.
  lemma FoundIsPartner(c: SizeClass, v0: Pool, v: Pool, cs: seq<Cand>, used: set<SlabId>, pairs: seq<(SlabId, SlabId)>,
                       i: nat, j: nat)
    requires Passing(c, v0, v, cs, used, pairs, i) && i < |cs| && !cs[i].used
    requires j <= |cs| && (j < |cs| ==> Fits(cs, i, j)) && forall k: nat :: k < j ==> !Fits(cs, i, k)
    ensures Partner(c, v0, Slabs(cs), used, i, 0) == j
  {
    forall k: nat | k < |cs| && k != i && !cs[k].used
      ensures Fits(cs, i, k) <==> Unmixed(c, v0, cs[i].slab, cs[k].slab) {
      FitsUnmixed(c, v, cs, i, k);
    }
    PartnerIs(c, v0, Slabs(cs), used, i, 0, j);
  }

  lemma PassSkip(c: SizeClass, v0: Pool, v: Pool, cs: seq<Cand>, used: set<SlabId>, pairs: seq<(SlabId, SlabId)>,
                 i: nat)
    requires Passing(c, v0, v, cs, used, pairs, i) && i < |cs|
    requires cs[i].used || Partner(c, v0, Slabs(cs), used, i, 0) == |cs|
    ensures Passing(c, v0, v, cs, used, pairs, i + 1)
  {}

  lemma GreedyStep(pairs: seq<(SlabId, SlabId)>, p: (SlabId, SlabId), rest: seq<(SlabId, SlabId)>)
    ensures pairs + ([p] + rest) == (pairs + [p]) + rest && (pairs + [p])[..|pairs + [p]| - 1] == pairs
  {}

  lemma PassMesh(c: SizeClass, v0: Pool, v: Pool, cs: seq<Cand>, used: set<SlabId>, pairs: seq<(SlabId, SlabId)>,
                 i: nat, j: nat)
    requires Passing(c, v0, v, cs, used, pairs, i) && i < |cs| && !cs[i].used && j < |cs| && Fits(cs, i, j)
    requires Partner(c, v0, Slabs(cs), used, i, 0) == j
    ensures cs[i].slab in v.slabs && cs[j].slab in v.slabs
    ensures Passing(c, v0, Mesh(c, v, cs[i].slab, cs[j].slab), Mark(cs, i, j), used + {cs[i].slab, cs[j].slab},
                    pairs + [(cs[i].slab, cs[j].slab)], i + 1)
  {
    var r, d, t := cs[i].slab, cs[j].slab, Mark(cs, i, j);
    CandsAfter(c, v, cs, i, j);
    var rest := Greedy(c, v0, Slabs(cs), used + {r, d}, i + 1);
    GreedyStep(pairs, (r, d), rest);
    forall k | 0 <= k < |t|
      ensures (t[k].used <==> t[k].slab in used + {r, d}) && (!t[k].used ==> SameFree(v0, Mesh(c, v, r, d), t[k].slab))
    {
      assert t[k].slab == cs[k].slab && (k != i && k != j ==> t[k] == cs[k]);
    }
  }

  lemma FoundReady(c: SizeClass, v: Pool, cs: seq<Cand>, i: nat, j: nat)
    requires c.Valid() && CandsOk(c, v, cs) && i < |cs| && j < |cs| && !cs[i].used && Fits(cs, i, j)
    ensures Meshable(c, v, cs[i].slab, cs[j].slab)
    ensures OccOk(cs[i].occ, c.slots, v.slabs[cs[i].slab].free) && OccOk(cs[j].occ, c.slots, v.slabs[cs[j].slab].free)
  {
    FitsUnmixed(c, v, cs, i, j);
    assert CandOk(c, v, cs[i].slab, cs[i].occ) && CandOk(c, v, cs[j].slab, cs[j].occ);
  }

  // A slab on the partial list has not been meshed away.
  lemma DonorNew(pool: SlabPool.Pool, out: set<Slot>, hidden: set<Slot>, d: SlabId)
    requires pool.Valid(out, hidden) && d in pool.view.partial && d in pool.view.slabs
    ensures d !in pool.alias
  {
    pool.Open(out, hidden);
    assert Placed(pool.c.slots, pool.view, hidden, d);
  }

  method MeshFound(pool: SlabPool.Pool, cs: seq<Cand>, i: nat, j: nat, ok: bool, ghost out: set<Slot>,
                   ghost hidden: set<Slot>)
    returns (ghost hidden': set<Slot>)
    requires pool.Valid(out, hidden) && pool.c.Valid() && CandsOk(pool.c, pool.view, cs)
    requires i < |cs| && j < |cs| && !cs[i].used && Fits(cs, i, j) && cs[j].slab !in pool.alias.Values
    modifies pool.space`mem, pool.space`remap, pool`head, pool`descs, pool`hdrs, pool`view, pool`alias
    ensures pool.Valid(out, hidden') && hidden <= hidden'
    ensures pool.alias == Remapped(old(pool.alias), cs[i].slab, cs[j].slab, ok)
    ensures |pool.alias| == |old(pool.alias)| + (if ok then 1 else 0)
    ensures cs[i].slab in old(pool.view).slabs && cs[j].slab in old(pool.view).slabs
    ensures pool.view == Mesh(pool.c, old(pool.view), cs[i].slab, cs[j].slab)
    ensures Unmoved(pool.c, old(pool.space.remap), old(pool.space.mem), old(pool.view), pool.space.remap,
                    pool.space.mem, pool.view, out)
    ensures Redrawn(pool.c, old(pool.space.remap), pool.space.remap, old(pool.alias), pool.alias)
  {
    ghost var v := pool.view;
    FoundReady(pool.c, v, cs, i, j);
    DonorNew(pool, out, hidden, cs[j].slab);
    MeshPair(pool, cs[i].slab, cs[j].slab, cs[i].occ, cs[j].occ, ok, out, hidden);
    hidden' := hidden + DonorHeld(pool.c, v, cs[i].slab, cs[j].slab);
  }

  // one turn of the greedy loop; the kernel decides whether a remap succeeds
  method MeshOne(pool: SlabPool.Pool, cs: seq<Cand>, i: nat, ghost out: set<Slot>, ghost hidden: set<Slot>,
                 ghost v0: PoolSpec.Pool, ghost used: set<SlabId>, ghost pairs: seq<(SlabId, SlabId)>)
    returns (cs': seq<Cand>, freed: nat, ghost hidden': set<Slot>, ghost used': set<SlabId>,
             ghost pairs': seq<(SlabId, SlabId)>)
    requires pool.Valid(out, hidden) && i < |cs| && DonorsFree(pool.alias, Greedy(pool.c, v0, Slabs(cs), used, i))
    requires Passing(pool.c, v0, pool.view, cs, used, pairs, i)
    modifies pool.space`mem, pool.space`remap, pool`head, pool`descs, pool`hdrs, pool`view, pool`alias
    ensures pool.Valid(out, hidden') && hidden <= hidden' && |cs'| == |cs| && i + 1 <= |cs'|
    ensures DonorsFree(pool.alias, Greedy(pool.c, v0, Slabs(cs'), used', i + 1))
    ensures (freed == 0 && |pool.alias| == |old(pool.alias)|)
            || (freed == pool.c.run * PAGE && |pool.alias| == |old(pool.alias)| + 1)
    ensures Passing(pool.c, v0, pool.view, cs', used', pairs', i + 1)
    ensures Unmoved(pool.c, old(pool.space.remap), old(pool.space.mem), old(pool.view), pool.space.remap,
                    pool.space.mem, pool.view, out)
    ensures Redrawn(pool.c, old(pool.space.remap), pool.space.remap, old(pool.alias), pool.alias)
  {
    cs', freed, hidden', used', pairs' := cs, 0, hidden, used, pairs;
    if cs[i].used {
      PassSkip(pool.c, v0, pool.view, cs, used, pairs, i);
      return;
    }
    var j := FindPartner(cs, i);
    FoundIsPartner(pool.c, v0, pool.view, cs, used, pairs, i, j);
    if j == |cs| {
      PassSkip(pool.c, v0, pool.view, cs, used, pairs, i);
      return;
    }
    var ok: bool := *;
    PassMesh(pool.c, v0, pool.view, cs, used, pairs, i, j);
    DonorsAfter(pool.c, v0, Slabs(cs), used, i, pool.alias, j, ok);
    hidden' := MeshFound(pool, cs, i, j, ok, out, hidden);
    cs' := Mark(cs, i, j);
    freed := if ok then pool.c.run * PAGE else 0;
    used', pairs' := used + {cs[i].slab, cs[j].slab}, pairs + [(cs[i].slab, cs[j].slab)];
  }

  lemma GatherReady(c: SizeClass, v: Pool, out: set<Slot>, hidden: set<Slot>)
    requires PoolInv(c, v, out, hidden)
    ensures GatherPlan(c, v)
  {
    forall s | s in v.partial ensures Active(v.slabs, v.warm, v.cold, s) && SlabOk(c, s) && s.chunk in v.live {
      assert Placed(c.slots, v, hidden, s);
      SlabKnown(c, v, out, hidden, s);
    }
  }

  /** The candidates of a pass over this pool, whatever has been meshed before. */
  method Survey(pool: SlabPool.Pool, ghost out: set<Slot>, ghost hidden: set<Slot>) returns (cs: seq<Cand>)
    requires pool.Valid(out, hidden)
    ensures pool.c.Valid() && CandsOk(pool.c, pool.view, cs) && Slabs(cs) == Candidates(pool.c, pool.view)
    ensures forall j :: 0 <= j < |cs| ==> !cs[j].used
  {
    pool.Open(out, hidden);
    GatherReady(pool.c, pool.view, out, hidden);
    cs := Gather(pool.c, pool.key, pool.space.remap, pool.space.mem, pool.head, pool.descs, pool.view, pool.alias);
  }

  /** The first pair a pass over this pool meshes, whatever has been meshed before. */
  method FirstPair(pool: SlabPool.Pool, ghost out: set<Slot>, ghost hidden: set<Slot>)
    returns (pair: Option<(SlabId, SlabId)>)
    requires pool.Valid(out, hidden)
    ensures var all := Greedy(pool.c, pool.view, Candidates(pool.c, pool.view), {}, 0);
            pair == if all == [] then None else Some(all[0])
  {
    var cs := Survey(pool, out, hidden);
    PassStart(pool.c, pool.view, cs);
    var i := 0;
    while i < |cs|
      invariant i <= |cs| && Passing(pool.c, pool.view, pool.view, cs, {}, [], i)
    {
      var j := FindPartner(cs, i);
      FoundIsPartner(pool.c, pool.view, pool.view, cs, {}, [], i, j);
      if j < |cs| {
        PassMesh(pool.c, pool.view, pool.view, cs, {}, [], i, j);
        return Some((cs[i].slab, cs[j].slab));
      }
      PassSkip(pool.c, pool.view, pool.view, cs, {}, [], i);
      i := i + 1;
    }
    return None;
  }

  // The bytes reclaimed are the runs of the slabs that have been remapped since.
  ghost predicate Reclaims(c: SizeClass, alias: map<SlabId, SlabId>, alias': map<SlabId, SlabId>, bytes: nat) {
    |alias| <= |alias'| && bytes == (|alias'| - |alias|) * (c.run * PAGE)
  }

  lemma ReclaimsNone(c: SizeClass, alias: map<SlabId, SlabId>)
    ensures Reclaims(c, alias, alias, 0)
  {}

  lemma ReclaimsMore(c: SizeClass, a0: map<SlabId, SlabId>, a1: map<SlabId, SlabId>, a2: map<SlabId, SlabId>,
                     bytes: nat, freed: nat)
    requires Reclaims(c, a0, a1, bytes)
    requires (freed == 0 && |a2| == |a1|) || (freed == c.run * PAGE && |a2| == |a1| + 1)
    ensures Reclaims(c, a0, a2, bytes + freed)
  {
    var n, x := |a1| - |a0|, c.run * PAGE;
    assert (n + 1) * x == n * x + x;
  }

  lemma Chosen(pool: SlabPool.Pool, out: set<Slot>, hidden: set<Slot>)
    requires pool.Valid(out, hidden)
    ensures var pairs := Greedy(pool.c, pool.view, Candidates(pool.c, pool.view), {}, 0);
            PairsOk(pool.c, pool.view, pairs) && NoneLeft(pool.c, pool.view, pairs)
  {
    pool.Open(out, hidden);
    GreedyChoice(pool.c, pool.view, out, hidden);
  }

  // the pass
  method MeshPairs(pool: SlabPool.Pool, ghost out: set<Slot>, ghost hidden: set<Slot>)
    returns (reclaimed: nat, ghost hidden': set<Slot>, ghost pairs: seq<(SlabId, SlabId)>)
    requires pool.Valid(out, hidden)
    requires DonorsFree(pool.alias, Greedy(pool.c, pool.view, Candidates(pool.c, pool.view), {}, 0))
    modifies pool.space`mem, pool.space`remap, pool`head, pool`descs, pool`hdrs, pool`view, pool`alias
    ensures pool.Valid(out, hidden') && hidden <= hidden' && pool.c.Valid()
    ensures pool.view == MeshAll(pool.c, old(pool.view), pairs)
    ensures pairs == Greedy(pool.c, old(pool.view), Candidates(pool.c, old(pool.view)), {}, 0)
    ensures Reclaims(pool.c, old(pool.alias), pool.alias, reclaimed)
    ensures Unmoved(pool.c, old(pool.space.remap), old(pool.space.mem), old(pool.view), pool.space.remap,
                    pool.space.mem, pool.view, out)
    ensures Redrawn(pool.c, old(pool.space.remap), pool.space.remap, old(pool.alias), pool.alias)
  {
    var cs := Survey(pool, out, hidden);
    PassStart(pool.c, pool.view, cs);
    ReclaimsNone(pool.c, pool.alias);
    reclaimed, hidden', pairs := 0, hidden, [];
    ghost var used: set<SlabId> := {};
    var i := 0;
    while i < |cs|
      invariant i <= |cs| && pool.Valid(out, hidden') && hidden <= hidden'
      invariant DonorsFree(pool.alias, Greedy(pool.c, old(pool.view), Slabs(cs), used, i))
      invariant Redrawn(pool.c, old(pool.space.remap), pool.space.remap, old(pool.alias), pool.alias)
      invariant Passing(pool.c, old(pool.view), pool.view, cs, used, pairs, i)
      invariant Reclaims(pool.c, old(pool.alias), pool.alias, reclaimed)
      invariant Unmoved(pool.c, old(pool.space.remap), old(pool.space.mem), old(pool.view), pool.space.remap,
                        pool.space.mem, pool.view, out)
    {
      ghost var remap, m, v, alias := pool.space.remap, pool.space.mem, pool.view, pool.alias;
      var freed: nat;
      cs, freed, hidden', used, pairs := MeshOne(pool, cs, i, out, hidden', old(pool.view), used, pairs);
      ReclaimsMore(pool.c, old(pool.alias), alias, pool.alias, reclaimed, freed);
      reclaimed := reclaimed + freed;
      UnmovedTrans(pool.c, old(pool.space.remap), old(pool.space.mem), old(pool.view), remap, m, v, pool.space.remap,
                   pool.space.mem, pool.view, out);
      RedrawnTrans(pool.c, old(pool.space.remap), remap, pool.space.remap, old(pool.alias), alias, pool.alias);
      i := i + 1;
    }
    assert pairs == pairs + Greedy(pool.c, old(pool.view), Slabs(cs), used, i);
  }

  /** btm_compact on one pool, whichever remaps fail, if no donor of the greedy pairs
      backs another slab (as when nothing has been meshed before): these pairs are
      meshed, in order, every slot in use or cached reads the same at its own
      address, and nothing outside the pool's chunks changes. Only the first 64 slabs
      that are at most half used are meshed, and none of them is left that could be. */
  method CompactPool(pool: SlabPool.Pool, ghost out: set<Slot>, ghost hidden: set<Slot>)
    returns (reclaimed: nat, ghost hidden': set<Slot>, ghost pairs: seq<(SlabId, SlabId)>)
    requires pool.Valid(out, hidden)
    requires DonorsFree(pool.alias, Greedy(pool.c, pool.view, Candidates(pool.c, pool.view), {}, 0))
    modifies pool.space`mem, pool.space`remap, pool`head, pool`descs, pool`hdrs, pool`view, pool`alias
    ensures pool.Valid(out, hidden') && hidden <= hidden' && pool.c.Valid()
    ensures pool.view == MeshAll(pool.c, old(pool.view), pairs)
    ensures PairsOk(pool.c, old(pool.view), pairs) && NoneLeft(pool.c, old(pool.view), pairs)
    ensures pairs == Greedy(pool.c, old(pool.view), Candidates(pool.c, old(pool.view)), {}, 0)
    ensures Reclaims(pool.c, old(pool.alias), pool.alias, reclaimed)
    ensures Unmoved(pool.c, old(pool.space.remap), old(pool.space.mem), old(pool.view), pool.space.remap,
                    pool.space.mem, pool.view, out)
    ensures Redrawn(pool.c, old(pool.space.remap), pool.space.remap, old(pool.alias), pool.alias)
  {
    Chosen(pool, out, hidden);
    reclaimed, hidden', pairs := MeshPairs(pool, out, hidden);
  }
}
