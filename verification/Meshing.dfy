/** Meshing on bytes: the donor's occupied slots are copied to the recipient, the
    recipient's freelist is threaded anew, and the donor's pages are remapped. */
module Meshing {
  import opened Bits
  import opened Seqs
  import opened Memory
  import opened Geometry
  import opened PoolSpec
  import opened SlotChains
  import opened Occupancy

  // ---- copying ----

  /** Slot x of m' holds what slot y of m held. */
  ghost predicate SlotCopied(c: SizeClass, m: Mem, m': Mem, x: Slot, y: Slot) {
    forall a: nat {:trigger Load(m', a)} :: InSlot(c, x, a) ==> Load(m', a) == Load(m, a - Addr(c, x) + Addr(c, y))
  }

  lemma CopiedSlot(c: SizeClass, m: Mem, m': Mem, x: Slot, y: Slot)
    requires Copied(m, m', Addr(c, x), Addr(c, y), c.size)
    ensures SlotCopied(c, m, m', x, y) && Only(c, m, m', {x})
  {
    forall a: nat | !Touched(c, {x}, a) ensures Load(m', a) == Load(m, a) {
      assert x in {x} && !InSlot(c, x, a);
    }
  }

  // memcpy of one slot, byte by byte through the page map
  method CopySlot(c: SizeClass, remap: map<nat, nat>, m: Mem, x: Slot, y: Slot, ghost alias: map<SlabId, SlabId>)
    returns (m': Mem)
    requires SlotOk(c, x) && SlotOk(c, y) && x != y && x.slab !in alias && y.slab !in alias
    requires SlotMapped(c, remap, alias, x) && SlotMapped(c, remap, alias, y)
    ensures SlotCopied(c, m, m', x, y) && Only(c, m, m', {x})
  {
    m' := m;
    var i, dst, src := 0, Addr(c, x), Addr(c, y);
    SlotsApart(c, x, y);
    while i < c.size
      invariant i <= c.size && Copied(m, m', dst, src, i)
    {
      CopiedStep(m, m', dst, src, c.size, i);
      m' := m'[Tr(remap, dst + i) := Load(m', Tr(remap, src + i))];
      i := i + 1;
    }
    CopiedSlot(c, m, m', x, y);
  }

  ghost predicate CopiedAt(c: SizeClass, m: Mem, m': Mem, r: SlabId, d: SlabId, k: nat) {
    SlotCopied(c, m, m', Slot(r, k), Slot(d, k))
  }

  // The slots of r at the indices below n that are not in `free`.
  function HeldAt(n: nat, free: seq<nat>, r: SlabId): set<Slot> {
    set k: nat | k < n && k !in free :: Slot(r, k)
  }

  /** The donor's occupied slots below n have been copied, and nothing else changed. */
  ghost predicate LiveCopied(c: SizeClass, m: Mem, m': Mem, r: SlabId, d: SlabId, free: seq<nat>, n: nat) {
    && (forall k: nat {:trigger CopiedAt(c, m, m', r, d, k)} :: k < n && k !in free ==> CopiedAt(c, m, m', r, d, k))
    && Only(c, m, m', HeldAt(n, free, r))
  }

  lemma CopyKept(c: SizeClass, m: Mem, m1: Mem, m2: Mem, x: Slot, y: Slot, ys: set<Slot>)
    requires SlotCopied(c, m, m1, x, y) && Only(c, m1, m2, ys)
    requires SlotOk(c, x) && x !in ys && forall z :: z in ys ==> SlotOk(c, z)
    ensures SlotCopied(c, m, m2, x, y)
  {
    OnlyElse(c, m1, m2, ys, x);
    forall a: nat | InSlot(c, x, a) ensures Load(m2, a) == Load(m, a - Addr(c, x) + Addr(c, y)) {
      assert Load(m1, a) == Load(m2, a);
    }
  }

  lemma CopyFresh(c: SizeClass, m: Mem, m1: Mem, m2: Mem, x: Slot, y: Slot, ys: set<Slot>)
    requires SlotCopied(c, m1, m2, x, y) && Only(c, m, m1, ys)
    requires SlotOk(c, y) && y !in ys && forall z :: z in ys ==> SlotOk(c, z)
    ensures SlotCopied(c, m, m2, x, y)
  {
    OnlyElse(c, m, m1, ys, y);
    forall a: nat | InSlot(c, x, a) ensures Load(m2, a) == Load(m, a - Addr(c, x) + Addr(c, y)) {
      var b := a - Addr(c, x) + Addr(c, y);
      assert Load(m, b) == Load(m1, b);
    }
  }

  lemma CopyStep(c: SizeClass, m: Mem, m1: Mem, m2: Mem, r: SlabId, d: SlabId, free: seq<nat>, k: nat)
    requires SlabOk(c, r) && SlabOk(c, d) && r != d && k < c.slots && k !in free
    requires LiveCopied(c, m, m1, r, d, free, k)
    requires SlotCopied(c, m1, m2, Slot(r, k), Slot(d, k)) && Only(c, m1, m2, {Slot(r, k)})
    ensures LiveCopied(c, m, m2, r, d, free, k + 1)
  {
    forall j: nat | j < k + 1 && j !in free ensures CopiedAt(c, m, m2, r, d, j) {
      if j < k {
        assert CopiedAt(c, m, m1, r, d, j);
        CopyKept(c, m, m1, m2, Slot(r, j), Slot(d, j), {Slot(r, k)});
      } else {
        CopyFresh(c, m, m1, m2, Slot(r, k), Slot(d, k), HeldAt(k, free, r));
      }
    }
    OnlyTrans(c, m, m1, m2, HeldAt(k, free, r), {Slot(r, k)});
    assert HeldAt(k, free, r) + {Slot(r, k)} == HeldAt(k + 1, free, r);
  }

  lemma CopySkip(c: SizeClass, m: Mem, m1: Mem, r: SlabId, d: SlabId, free: seq<nat>, k: nat)
    requires LiveCopied(c, m, m1, r, d, free, k) && k in free
    ensures LiveCopied(c, m, m1, r, d, free, k + 1)
  {
    assert HeldAt(k, free, r) == HeldAt(k + 1, free, r);
    forall j: nat | j < k + 1 && j !in free ensures CopiedAt(c, m, m1, r, d, j) {}
  }

  /** mesh_pair's copy loop. */
  method CopyLive(c: SizeClass, remap: map<nat, nat>, m: Mem, r: SlabId, d: SlabId, docc: seq<nat>,
                  ghost alias: map<SlabId, SlabId>, ghost free: seq<nat>)
    returns (m': Mem)
    requires SlabOk(c, r) && SlabOk(c, d) && r != d && r !in alias && d !in alias
    requires SlabMapped(c, remap, alias, r) && SlabMapped(c, remap, alias, d)
    requires OccOk(docc, c.slots, free)
    ensures LiveCopied(c, m, m', r, d, free, c.slots)
  {
    m' := m;
    var k := 0;
    while k < c.slots
      invariant k <= c.slots && LiveCopied(c, m, m', r, d, free, k)
    {
      if Used(docc, k) {
        var m1 := m';
        m' := CopySlot(c, remap, m1, Slot(r, k), Slot(d, k), alias);
        CopyStep(c, m, m1, m', r, d, free, k);
      } else {
        CopySkip(c, m, m', r, d, free, k);
      }
      k := k + 1;
    }
  }

  // ---- the recipient's freelist ----

  // The indices i, i + 1, ..., n - 1 that are free in both slabs, in order.
  ghost function FreeFrom(i: nat, n: nat, rf: seq<nat>, df: seq<nat>): seq<nat>
    requires i <= n
  {
    Without(Iota(n)[i..], Barred(n, rf, df))
  }

  ghost function Barred(n: nat, rf: seq<nat>, df: seq<nat>): set<nat> {
    set k | k in Iota(n) && !(k in rf && k in df)
  }

  lemma FreeFromStep(i: nat, n: nat, rf: seq<nat>, df: seq<nat>)
    requires i < n
    ensures FreeFrom(i, n, rf, df) == if i in rf && i in df then [i] + FreeFrom(i + 1, n, rf, df)
              else FreeFrom(i + 1, n, rf, df)
  {
    var s := Iota(n)[i..];
    assert s[0] == i && s[1..] == Iota(n)[i + 1..];
    assert Iota(n)[i] == i;
  }

  lemma FreeFromElems(i: nat, n: nat, rf: seq<nat>, df: seq<nat>, k: nat)
    requires i <= n
    ensures k in FreeFrom(i, n, rf, df) <==> i <= k < n && k in rf && k in df
  {
    WithoutElems(Iota(n)[i..], Barred(n, rf, df));
    if i <= k < n { assert Iota(n)[i..][k - i] == k && Iota(n)[k] == k; }
  }

  // The slots of r at indices free in both slabs.
  function SpareSlots(n: nat, rf: seq<nat>, df: seq<nat>, r: SlabId): set<Slot> {
    set k: nat | k < n && k in rf && k in df :: Slot(r, k)
  }

  ghost predicate Rebuilt(c: SizeClass, alias: map<SlabId, SlabId>, key: nat, m0: Mem, m: Mem, r: SlabId, head: nat,
                          count: nat, i: nat, rf: seq<nat>, df: seq<nat>) {
    && i <= c.slots && count == |FreeFrom(i, c.slots, rf, df)|
    && ChainOf(c, alias, m, key, head, SlotsAt(r, FreeFrom(i, c.slots, rf, df)))
    && Only(c, m0, m, SpareSlots(c.slots, rf, df, r))
  }

  lemma RebuildPush(c: SizeClass, alias: map<SlabId, SlabId>, key: nat, m0: Mem, m: Mem, r: SlabId, head: nat,
                    count: nat, i: nat, rf: seq<nat>, df: seq<nat>)
    requires SlabOk(c, r) && r !in alias && key < WORD && i < c.slots && i in rf && i in df
    requires Rebuilt(c, alias, key, m0, m, r, head, count, i + 1, rf, df)
    ensures var a := Addr(c, Slot(r, i));
            Rebuilt(c, alias, key, m0, SetLink(m, key, a, a, head), r, a, count + 1, i, rf, df)
  {
    var x, xs := Slot(r, i), SlotsAt(r, FreeFrom(i + 1, c.slots, rf, df));
    var m' := SetLink(m, key, Addr(c, x), Addr(c, x), head);
    FreeFromStep(i, c.slots, rf, df);
    forall j | 0 <= j < |xs| ensures Backing(alias, xs[j]) != x {
      FreeFromElems(i + 1, c.slots, rf, df, xs[j].k);
      assert xs[j].k in FreeFrom(i + 1, c.slots, rf, df);
    }
    PushSlot(c, alias, m, key, head, xs, x);
    assert [x] + xs == SlotsAt(r, [i] + FreeFrom(i + 1, c.slots, rf, df));
    SetLinkOnly(c, alias, m, key, x, head);
    OnlyTrans(c, m0, m, m', SpareSlots(c.slots, rf, df, r), {x});
    assert SpareSlots(c.slots, rf, df, r) + {x} == SpareSlots(c.slots, rf, df, r);
  }

  lemma RebuildSkip(c: SizeClass, alias: map<SlabId, SlabId>, key: nat, m0: Mem, m: Mem, r: SlabId, head: nat,
                    count: nat, i: nat, rf: seq<nat>, df: seq<nat>)
    requires i < c.slots && !(i in rf && i in df)
    requires Rebuilt(c, alias, key, m0, m, r, head, count, i + 1, rf, df)
    ensures Rebuilt(c, alias, key, m0, m, r, head, count, i, rf, df)
  {
    FreeFromStep(i, c.slots, rf, df);
  }

  method RebuildOne(c: SizeClass, key: nat, remap: map<nat, nat>, m: Mem, r: SlabId, rocc: seq<nat>, docc: seq<nat>,
                    head: nat, count: nat, i: nat, ghost alias: map<SlabId, SlabId>, ghost m0: Mem,
                    ghost rf: seq<nat>, ghost df: seq<nat>)
    returns (m': Mem, head': nat, count': nat)
    requires SlabOk(c, r) && r !in alias && key < WORD && SlabMapped(c, remap, alias, r) && i < c.slots
    requires OccOk(rocc, c.slots, rf) && OccOk(docc, c.slots, df)
    requires Rebuilt(c, alias, key, m0, m, r, head, count, i + 1, rf, df)
    ensures Rebuilt(c, alias, key, m0, m', r, head', count', i, rf, df)
  {
    if !Used(rocc, i) && !Used(docc, i) {
      RebuildPush(c, alias, key, m0, m, r, head, count, i, rf, df);
      TrSlot(c, remap, alias, Slot(r, i));
      head' := Addr(c, Slot(r, i));
      m', count' := SetLink(m, key, Tr(remap, head'), head', head), count + 1;
    } else {
      RebuildSkip(c, alias, key, m0, m, r, head, count, i, rf, df);
      m', head', count' := m, head, count;
    }
  }

  lemma RebuildStart(c: SizeClass, alias: map<SlabId, SlabId>, key: nat, m: Mem, r: SlabId, rf: seq<nat>, df: seq<nat>)
    ensures Rebuilt(c, alias, key, m, m, r, 0, 0, c.slots, rf, df)
  {
    assert Iota(c.slots)[c.slots..] == [];
  }

  /** mesh_pair's second loop: a freelist of the slots free in both slabs. */
  method Rebuild(c: SizeClass, key: nat, remap: map<nat, nat>, m: Mem, r: SlabId, rocc: seq<nat>, docc: seq<nat>,
                 ghost alias: map<SlabId, SlabId>, ghost rf: seq<nat>, ghost df: seq<nat>)
    returns (m': Mem, head: nat, count: nat)
    requires SlabOk(c, r) && r !in alias && key < WORD && SlabMapped(c, remap, alias, r)
    requires OccOk(rocc, c.slots, rf) && OccOk(docc, c.slots, df)
    ensures Rebuilt(c, alias, key, m, m', r, head, count, 0, rf, df)
  {
    m', head, count := m, 0, 0;
    var k := c.slots;
    RebuildStart(c, alias, key, m, r, rf, df);
    while k > 0
      invariant Rebuilt(c, alias, key, m, m', r, head, count, k, rf, df)
    {
      k := k - 1;
      m', head, count := RebuildOne(c, key, remap, m', r, rocc, docc, head, count, k, alias, m, rf, df);
    }
  }

  // ---- the page map ----

  // The run of d is sent to the run of r.
  ghost predicate Redirected(c: SizeClass, remap: map<nat, nat>, remap': map<nat, nat>, r: SlabId, d: SlabId, n: nat) {
    forall p: nat ::
      if Data(d) / PAGE <= p < Data(d) / PAGE + n then p in remap' && remap'[p] == p - Data(d) / PAGE + Data(r) / PAGE
      else (p in remap' <==> p in remap) && (p in remap ==> remap'[p] == remap[p])
  }

  // btm_mesh_remap's fixed mapping, page by page
  method RemapRun(c: SizeClass, remap: map<nat, nat>, r: SlabId, d: SlabId) returns (remap': map<nat, nat>)
    ensures Redirected(c, remap, remap', r, d, c.run)
  {
    remap' := remap;
    var i := 0;
    while i < c.run
      invariant i <= c.run && Redirected(c, remap, remap', r, d, i)
    {
      remap' := remap'[Data(d) / PAGE + i := Data(r) / PAGE + i];
      i := i + 1;
    }
  }

  lemma DataAligned(c: SizeClass, s: SlabId)
    requires SlabOk(c, s)
    ensures Data(s) % PAGE == 0
  {}

  lemma PageOf(base: nat, a: nat, n: nat)
    requires base % PAGE == 0
    ensures base / PAGE <= a / PAGE < base / PAGE + n <==> base <= a < base + n * PAGE
    ensures base <= a ==> a / PAGE - base / PAGE == (a - base) / PAGE && a % PAGE == (a - base) % PAGE
  {}

  lemma RedirectedTr(c: SizeClass, remap: map<nat, nat>, remap': map<nat, nat>, r: SlabId, d: SlabId, a: nat)
    requires SlabOk(c, r) && SlabOk(c, d) && Redirected(c, remap, remap', r, d, c.run)
    ensures Tr(remap', a) == if Data(d) <= a < Data(d) + c.run * PAGE then a - Data(d) + Data(r) else Tr(remap, a)
  {
    DataAligned(c, r);
    DataAligned(c, d);
    PageOf(Data(d), a, c.run);
    var p := a / PAGE;
    assert p in remap' || p !in remap';
  }

  lemma RemapSlot(c: SizeClass, remap: map<nat, nat>, remap': map<nat, nat>, alias: map<SlabId, SlabId>, r: SlabId,
                  d: SlabId, x: Slot)
    requires SlabOk(c, r) && SlabOk(c, d) && Redirected(c, remap, remap', r, d, c.run)
    requires SlotOk(c, x) && SlotMapped(c, remap, alias, x)
    ensures SlotMapped(c, remap', alias[d := r], x)
  {
    SlotBounds(c, x);
    if x.slab != d { RunsApart(c, x.slab, d); }
    forall a: nat | Addr(c, x) <= a < Addr(c, x) + c.size
      ensures Tr(remap', a) == a - Addr(c, x) + Addr(c, Backing(alias[d := r], x))
    { RedirectedTr(c, remap, remap', r, d, a); }
  }

  /** Remapping makes the donor's slots those of the recipient. */
  lemma RemapMapped(c: SizeClass, remap: map<nat, nat>, remap': map<nat, nat>, alias: map<SlabId, SlabId>, r: SlabId,
                    d: SlabId, live: map<nat, nat>)
    requires SlabOk(c, r) && SlabOk(c, d) && Mapped(c, remap, alias, live) && Redirected(c, remap, remap', r, d, c.run)
    ensures Mapped(c, remap', alias[d := r], live)
  {
    forall s | SlabOk(c, s) && s.chunk in live ensures SlabMapped(c, remap', alias[d := r], s) {
      assert SlabMapped(c, remap, alias, s);
      forall k: nat | k < c.slots ensures SlotMapped(c, remap', alias[d := r], Slot(s, k)) {
        RemapSlot(c, remap, remap', alias, r, d, Slot(s, k));
      }
    }
  }

  /** ... and leaves every address outside the donor's run where it was. */
  lemma RemapElse(c: SizeClass, remap: map<nat, nat>, remap': map<nat, nat>, r: SlabId, d: SlabId, a: nat)
    requires SlabOk(c, r) && SlabOk(c, d) && Redirected(c, remap, remap', r, d, c.run)
    requires !(Data(d) <= a < Data(d) + c.run * PAGE)
    ensures Tr(remap', a) == Tr(remap, a)
  {
    RedirectedTr(c, remap, remap', r, d, a);
  }

  // ---- the bytes after meshing ----

  /** What copying and rebuilding have done to memory: the donor's occupied slots
      are in the recipient, and only slots that were free there have changed. */
  ghost predicate Merged(c: SizeClass, m: Mem, m': Mem, r: SlabId, d: SlabId, rf: seq<nat>, df: seq<nat>) {
    && (forall k: nat {:trigger CopiedAt(c, m, m', r, d, k)} :: k < c.slots && k !in df ==> CopiedAt(c, m, m', r, d, k))
    && Only(c, m, m', Elems(SlotsAt(r, rf)))
  }

  lemma MergedAfter(c: SizeClass, m: Mem, m1: Mem, m2: Mem, r: SlabId, d: SlabId, rf: seq<nat>, df: seq<nat>)
    requires SlabOk(c, r) && SlabOk(c, d) && r != d
    requires forall k: nat :: k < c.slots ==> k in rf || k in df
    requires LiveCopied(c, m, m1, r, d, df, c.slots) && Only(c, m1, m2, SpareSlots(c.slots, rf, df, r))
    ensures Merged(c, m, m2, r, d, rf, df)
  {
    var spare, held := SpareSlots(c.slots, rf, df, r), HeldAt(c.slots, df, r);
    forall k: nat | k < c.slots && k !in df ensures CopiedAt(c, m, m2, r, d, k) {
      assert CopiedAt(c, m, m1, r, d, k);
      CopyKept(c, m, m1, m2, Slot(r, k), Slot(d, k), spare);
    }
    OnlyTrans(c, m, m1, m2, held, spare);
    forall x | x in held + spare ensures x in Elems(SlotsAt(r, rf)) {
      var i :| 0 <= i < |rf| && rf[i] == x.k;
      assert SlotsAt(r, rf)[i] == x;
    }
    OnlyMore(c, m, m2, held + spare, Elems(SlotsAt(r, rf)));
  }

  /** mesh_pair's work on bytes, for two slabs whose occupied slots do not overlap. */
  method Merge(c: SizeClass, key: nat, remap: map<nat, nat>, m: Mem, r: SlabId, d: SlabId, rocc: seq<nat>,
               docc: seq<nat>, ghost alias: map<SlabId, SlabId>, ghost rf: seq<nat>, ghost df: seq<nat>)
    returns (m': Mem, head: nat, count: nat)
    requires SlabOk(c, r) && SlabOk(c, d) && r != d && r !in alias && d !in alias && key < WORD
    requires SlabMapped(c, remap, alias, r) && SlabMapped(c, remap, alias, d)
    requires OccOk(rocc, c.slots, rf) && OccOk(docc, c.slots, df)
    requires forall k: nat :: k < c.slots ==> k in rf || k in df
    ensures Merged(c, m, m', r, d, rf, df)
    ensures count == |FreeFrom(0, c.slots, rf, df)|
    ensures ChainOf(c, alias, m', key, head, SlotsAt(r, FreeFrom(0, c.slots, rf, df)))
  {
    var m1 := CopyLive(c, remap, m, r, d, docc, alias, df);
    m', head, count := Rebuild(c, key, remap, m1, r, rocc, docc, alias, rf, df);
    MergedAfter(c, m, m1, m', r, d, rf, df);
  }
}
