/** Meshed slabs: a retired donor's pages are its recipient's. What is known of
    the slots in use, the slots hidden by meshing and the slots that back them. */
module Aliasing {
  import opened Seqs
  import opened Geometry
  import opened PoolSpec
  import opened PoolProofs

  // A donor is retired, its recipient is not, and the slots of donors still in
  // use are backed by hidden slots, no two by the same one.
  ghost predicate AliasOk(p: Pool, out: set<Slot>, hidden: set<Slot>, alias: map<SlabId, SlabId>) {
    && (forall d :: d in alias ==>
          && d in p.slabs && p.slabs[d].retired
          && alias[d] in p.slabs && !p.slabs[alias[d]].retired && HasHidden(hidden, alias[d]))
    && Backed(out, hidden, alias)
    && (forall x, y :: x in out && y in out && x.slab in alias && y.slab in alias ==>
          Backing(alias, x) == Backing(alias, y) ==> x == y)
  }

  ghost predicate Backed(out: set<Slot>, hidden: set<Slot>, alias: map<SlabId, SlabId>) {
    forall x :: x in out && x.slab in alias ==> Backing(alias, x) in hidden
  }

  function Remapped(alias: map<SlabId, SlabId>, r: SlabId, d: SlabId, ok: bool): map<SlabId, SlabId> {
    if ok then alias[d := r] else alias
  }

  lemma OutSlotOk(c: SizeClass, p: Pool, out: set<Slot>, hidden: set<Slot>, x: Slot)
    requires Core(c, p, out, hidden) && (x in out || x in hidden)
    ensures SlotOk(c, x)
  {
    assert Carved(c.run, p.nextPage, x.slab);
  }

  lemma OutNotFree(c: SizeClass, p: Pool, out: set<Slot>, hidden: set<Slot>, x: Slot)
    requires Core(c, p, out, hidden) && (x in out || x in hidden)
    ensures x.slab in p.slabs && x.k < c.slots && x.k !in p.slabs[x.slab].free && !(x in out && x in hidden)
  {
    assert SlabParts(c.slots, x.slab, p.slabs[x.slab].free, out, hidden);
    assert OnePlace(p.slabs[x.slab].free, Slot(x.slab, x.k), out, hidden);
  }

  /** Two different slots in use never share backing bytes. */
  lemma BackingsApart(c: SizeClass, p: Pool, out: set<Slot>, hidden: set<Slot>, alias: map<SlabId, SlabId>, x: Slot,
                      y: Slot)
    requires PoolInv(c, p, out, hidden) && AliasOk(p, out, hidden, alias) && x in out && y in out && x != y
    ensures Backing(alias, x) != Backing(alias, y)
    ensures SlotOk(c, Backing(alias, x)) && SlotOk(c, Backing(alias, y))
    ensures var a, b := Addr(c, Backing(alias, x)), Addr(c, Backing(alias, y)); a + c.size <= b || b + c.size <= a
  {
    if x.slab in alias { OutNotFree(c, p, out, hidden, Backing(alias, x)); }
    if y.slab in alias { OutNotFree(c, p, out, hidden, Backing(alias, y)); }
    OutSlotOk(c, p, out, hidden, Backing(alias, x));
    OutSlotOk(c, p, out, hidden, Backing(alias, y));
    SlotsApart(c, Backing(alias, x), Backing(alias, y));
  }

  /** The slot that backs a slot in use is itself in use or hidden, so it is on
      no freelist. */
  lemma BackingHeld(c: SizeClass, p: Pool, out: set<Slot>, hidden: set<Slot>, alias: map<SlabId, SlabId>, x: Slot)
    requires Core(c, p, out, hidden) && Backed(out, hidden, alias) && x in out
    ensures var y := Backing(alias, x);
            && (y in out || y in hidden) && SlotOk(c, x) && SlotOk(c, y) && y.slab in p.slabs
            && y.k !in p.slabs[y.slab].free
  {
    OutSlotOk(c, p, out, hidden, x);
    OutSlotOk(c, p, out, hidden, Backing(alias, x));
    OutNotFree(c, p, out, hidden, Backing(alias, x));
  }

  // Recipients still exist, because some slot of theirs is hidden.
  lemma HiddenKnown(c: SizeClass, p: Pool, out: set<Slot>, hidden: set<Slot>, alias: map<SlabId, SlabId>)
    requires PoolInv(c, p, out, hidden) && forall d :: d in alias ==> HasHidden(hidden, alias[d])
    ensures forall d :: d in alias ==> alias[d] in p.slabs
  {
    forall d | d in alias ensures alias[d] in p.slabs {
      var x :| x in hidden && x.slab == alias[d];
    }
  }

  lemma AliasStable(c: SizeClass, p: Pool, q: Pool, out: set<Slot>, out': set<Slot>, hidden: set<Slot>,
                    alias: map<SlabId, SlabId>)
    requires AliasOk(p, out, hidden, alias) && RetiredKept(p, q) && PoolInv(c, q, out', hidden)
    requires forall x :: x in out' && x !in out ==> x.slab !in alias
    ensures AliasOk(q, out', hidden, alias)
  {
    HiddenKnown(c, q, out', hidden, alias);
  }

  lemma HandedUnaliased(c: SizeClass, p: Pool, t: Taken, out: set<Slot>, hidden: set<Slot>,
                        alias: map<SlabId, SlabId>, want: nat)
    requires AliasOk(p, out, hidden, alias) && RetiredKept(p, t.pool) && Handed(c, t, out, hidden, want)
    ensures AliasOk(t.pool, out + Elems(t.batch), hidden, alias)
  {
    forall x | x in Elems(t.batch) ensures x.slab !in alias {}
    AliasStable(c, p, t.pool, out, out + Elems(t.batch), hidden, alias);
  }

  lemma AliasRefill(c: SizeClass, p: Pool, out: set<Slot>, hidden: set<Slot>, alias: map<SlabId, SlabId>,
                    want: nat, got: Option<nat>, t: Taken)
    requires PoolInv(c, p, out, hidden) && AliasOk(p, out, hidden, alias) && FreshOk(p, got) && want >= 1
    requires Refills(c, p, want, got, t)
    ensures AliasOk(t.pool, out + Elems(t.batch), hidden, alias)
  {
    RefillInv(c, p, out, hidden, want, got);
    RefillRetiredKept(c, p, out, hidden, want, got);
    HandedUnaliased(c, p, t, out, hidden, alias, want);
  }

  lemma AliasFree(c: SizeClass, p: Pool, out: set<Slot>, hidden: set<Slot>, alias: map<SlabId, SlabId>, x: Slot,
                  r: Freed)
    requires PoolInv(c, p, out, hidden) && AliasOk(p, out, hidden, alias) && x in out && Frees(c, p, x, r)
    ensures AliasOk(r.pool, out - {x}, hidden, alias)
  {
    FreeSlotInv(c, p, out, hidden, x);
    FreeRetiredKept(c, p, out, hidden, x);
    AliasStable(c, p, r.pool, out, out - {x}, hidden, alias);
  }

  // ---- meshing ----

  // Slots of the donor and of a slab already backed by the recipient never collide.
  lemma MeshApart(c: SizeClass, p: Pool, out: set<Slot>, hidden: set<Slot>, alias: map<SlabId, SlabId>,
                  r: SlabId, d: SlabId, x: Slot)
    requires AliasOk(p, out, hidden, alias) && PoolInv(c, p, out, hidden)
    requires Meshable(c, p, r, d) && x in out && x.slab == d
    ensures Slot(r, x.k) in DonorHeld(c, p, r, d)
    ensures forall y :: y in out && y.slab in alias && alias[y.slab] == r ==> y.k != x.k
  {
    OutNotFree(c, p, out, hidden, x);
    forall y | y in out && y.slab in alias && alias[y.slab] == r ensures y.k != x.k {
      OutNotFree(c, p, out, hidden, Backing(alias, y));
    }
  }

  lemma AliasMeshSlabs(c: SizeClass, p: Pool, out: set<Slot>, hidden: set<Slot>, alias: map<SlabId, SlabId>,
                       r: SlabId, d: SlabId, ok: bool, e: SlabId)
    requires AliasOk(p, out, hidden, alias) && PoolInv(c, p, out, hidden)
    requires Meshable(c, p, r, d) && d !in alias.Values && e in Remapped(alias, r, d, ok)
    ensures var p', a', h' := Mesh(c, p, r, d), Remapped(alias, r, d, ok), hidden + DonorHeld(c, p, r, d);
            && e in p'.slabs && p'.slabs[e].retired
            && a'[e] in p'.slabs && !p'.slabs[a'[e]].retired && HasHidden(h', a'[e])
  {
    var h' := hidden + DonorHeld(c, p, r, d);
    assert Placed(c.slots, p, hidden, r) && Placed(c.slots, p, hidden, d);
    if e in alias {
      var x :| x in hidden && x.slab == alias[e];
      assert x in h';
      assert alias[e] in alias.Values;
    } else {
      MeshLoses(c, p, out, hidden, r, d);
      var x :| x in DonorHeld(c, p, r, d) && x.slab == r;
      assert x in h';
    }
  }

  lemma AliasMeshBacking(c: SizeClass, p: Pool, out: set<Slot>, hidden: set<Slot>, alias: map<SlabId, SlabId>,
                         r: SlabId, d: SlabId, x: Slot)
    requires AliasOk(p, out, hidden, alias) && PoolInv(c, p, out, hidden)
    requires Meshable(c, p, r, d) && d !in alias
    requires x in out && x.slab in alias[d := r]
    ensures Backing(alias[d := r], x) in hidden + DonorHeld(c, p, r, d)
    ensures forall y :: y in out && y.slab in alias[d := r] ==>
              Backing(alias[d := r], x) == Backing(alias[d := r], y) ==> x == y
  {
    if x.slab == d { MeshApart(c, p, out, hidden, alias, r, d, x); }
    forall y | y in out && y.slab == d ensures y.k == x.k && alias[d := r][x.slab] == r ==> x == y {
      MeshApart(c, p, out, hidden, alias, r, d, y);
    }
    forall y | y in out && y.slab in alias && x.slab in alias
      ensures Backing(alias, x) == Backing(alias, y) ==> x == y
    {}
  }

  /** Meshing keeps the alias invariant, provided the donor backs no other slab. */
  lemma AliasMesh(c: SizeClass, p: Pool, out: set<Slot>, hidden: set<Slot>, alias: map<SlabId, SlabId>,
                  r: SlabId, d: SlabId, ok: bool)
    requires AliasOk(p, out, hidden, alias) && PoolInv(c, p, out, hidden)
    requires Meshable(c, p, r, d) && d !in alias.Values
    ensures AliasOk(Mesh(c, p, r, d), out, hidden + DonorHeld(c, p, r, d), Remapped(alias, r, d, ok))
  {
    var p', a', h' := Mesh(c, p, r, d), Remapped(alias, r, d, ok), hidden + DonorHeld(c, p, r, d);
    forall e | e in a'
      ensures && e in p'.slabs && p'.slabs[e].retired && a'[e] in p'.slabs
              && !p'.slabs[a'[e]].retired && HasHidden(h', a'[e])
    { AliasMeshSlabs(c, p, out, hidden, alias, r, d, ok, e); }
    AliasMeshBacked(c, p, out, hidden, alias, r, d, ok);
  }

  lemma AliasMeshBacked(c: SizeClass, p: Pool, out: set<Slot>, hidden: set<Slot>, alias: map<SlabId, SlabId>,
                        r: SlabId, d: SlabId, ok: bool)
    requires AliasOk(p, out, hidden, alias) && PoolInv(c, p, out, hidden) && Meshable(c, p, r, d)
    ensures var a', h' := Remapped(alias, r, d, ok), hidden + DonorHeld(c, p, r, d);
            && Backed(out, h', a')
            && (forall x, y :: x in out && y in out && x.slab in a' && y.slab in a' ==>
                  Backing(a', x) == Backing(a', y) ==> x == y)
  {
    var a', h' := Remapped(alias, r, d, ok), hidden + DonorHeld(c, p, r, d);
    if ok {
      assert d !in alias by { assert Placed(c.slots, p, hidden, d); }
      forall x | x in out && x.slab in a'
        ensures Backing(a', x) in h'
        ensures forall y :: y in out && y.slab in a' ==> Backing(a', x) == Backing(a', y) ==> x == y
      { AliasMeshBacking(c, p, out, hidden, alias, r, d, x); }
    }
  }
}
