/** Size classes, chunks, slab runs and slot addresses. */
module Geometry {
  import opened Bits
  import opened Memory
  import opened Seqs

  const CHUNK_BITS: nat := 21
  const CHUNK: nat := 0x20_0000
  const PAGES: nat := 512
  const DATA_START: nat := 7          // header page + 512 * 48 bytes of descriptors
  const PAGE_NONE: nat := 0xFFFF
  const SMALL_MAX: nat := 16384
  const NUM_CLASSES: nat := 36

  // A slab is named by its chunk base and its first data page.
  datatype SlabId = SlabId(chunk: nat, page: nat)
  datatype Slot = Slot(slab: SlabId, k: nat)

  // Slot size, pages per slab, and the slots that fit in them.
  datatype SizeClass = SizeClass(size: nat, run: nat, slots: nat) {
    predicate Valid() {
      && 16 <= size && size % 16 == 0
      && 1 <= run && DATA_START + run <= PAGES
      && 2 <= slots && slots * size <= run * PAGE < slots * size + size
    }
  }

  // btm_sc_to_size: steps of 16 up to 128, then four classes per doubling
  function SizeOf(sc: nat): nat
    requires sc < NUM_CLASSES
  {
    if sc < 8 then 16 * (sc + 1)
    else if sc < 12 then 32 * (sc - 3)
    else if sc < 16 then 64 * (sc - 7)
    else if sc < 20 then 128 * (sc - 11)
    else if sc < 24 then 256 * (sc - 15)
    else if sc < 28 then 512 * (sc - 19)
    else if sc < 32 then 1024 * (sc - 23)
    else 2048 * (sc - 27)
  }

  // btm_sc_run_pages
  function RunOf(sc: nat): nat
    requires sc < NUM_CLASSES
  {
    if sc < 12 then 1
    else if sc < 16 then 2
    else if sc < 20 then 4
    else if sc < 24 then 8
    else if sc < 28 then 16
    else if sc < 32 then 24
    else 32
  }

  function ClassOf(sc: nat): SizeClass
    requires sc < NUM_CLASSES
  {
    SizeClass(SizeOf(sc), RunOf(sc), RunOf(sc) * PAGE / SizeOf(sc))
  }

  // btm_cache_max_tbl: clamp(16384 / size, 8, 256)
  function CacheMax(sc: nat): nat
    requires sc < NUM_CLASSES
  {
    var n := 16384 / SizeOf(sc);
    if n < 8 then 8 else if n > 256 then 256 else n
  }

  // btm_size_to_sc: the table entry for (size - 1) >> 4 is the smallest class that fits
  function SizeToSc(size: nat): (r: Option<nat>)
  {
    if size == 0 || size > SMALL_MAX then None else Some(FitFrom(size, 0))
  }

  function FitFrom(size: nat, sc: nat): nat
    requires 1 <= size <= SMALL_MAX && sc < NUM_CLASSES
    decreases NUM_CLASSES - sc
  {
    if size <= SizeOf(sc) || sc + 1 == NUM_CLASSES then sc else FitFrom(size, sc + 1)
  }

  lemma {:induction false} FitFromFits(size: nat, sc: nat)
    requires 1 <= size <= SMALL_MAX && sc < NUM_CLASSES
    ensures var r := FitFrom(size, sc);
            sc <= r < NUM_CLASSES && size <= SizeOf(r) && forall j :: sc <= j < r ==> SizeOf(j) < size
    decreases NUM_CLASSES - sc
  {
    if size <= SizeOf(sc) || sc + 1 == NUM_CLASSES {
    } else {
      FitFromFits(size, sc + 1);
    }
  }

  /** The class chosen for a request holds it, and no smaller class does. */
  lemma SizeToScFits(size: nat)
    ensures SizeToSc(size).Some? <==> 1 <= size <= SMALL_MAX
    ensures SizeToSc(size).Some? ==>
              var sc := SizeToSc(size).value;
              sc < NUM_CLASSES && size <= SizeOf(sc) && forall j: nat :: j < sc ==> SizeOf(j) < size
  {
    if 1 <= size <= SMALL_MAX { FitFromFits(size, 0); }
  }

  /** What a request is rounded up to: less than 16 bytes, or less than a quarter of it,
      is lost. */
  lemma RoundingBound(size: nat)
    requires 1 <= size <= SMALL_MAX
    ensures SizeToSc(size).value < NUM_CLASSES
    ensures var n := SizeOf(SizeToSc(size).value); size <= n && (n < size + 16 || 4 * n < 5 * size)
  {
    SizeToScFits(size);
    var sc := SizeToSc(size).value;
    if sc > 0 { ClassStep(sc); }
  }

  lemma ClassStep(sc: nat)
    requires 0 < sc < NUM_CLASSES
    ensures SizeOf(sc) == SizeOf(sc - 1) + 16 || 4 * SizeOf(sc) <= 5 * SizeOf(sc - 1)
  {}

  /** Every class of the table has at least eight slots a slab and at most 256. (Two slots
      is what the unconditional unlink of a drained slab depends on.) A full bin holds as
      many slots as fit in 16 KiB, but at least 8 and at most 256. */
  lemma TableValid(sc: nat)
    requires sc < NUM_CLASSES
    ensures ClassOf(sc).Valid() && 8 <= ClassOf(sc).slots <= 256
    ensures 8 <= CacheMax(sc) <= 256
    ensures CacheMax(sc) > 8 ==> CacheMax(sc) * SizeOf(sc) <= 16384
    ensures CacheMax(sc) < 256 ==> (CacheMax(sc) + 1) * SizeOf(sc) > 16384
  {
    TableRow(sc);
    DivAtLeast(RunOf(sc) * PAGE, SizeOf(sc), 8);
    DivBounds(RunOf(sc) * PAGE, SizeOf(sc));
    SlotsBound(RunOf(sc) * PAGE, SizeOf(sc));
    DivBounds(16384, SizeOf(sc));
    CapBudget(16384 / SizeOf(sc), SizeOf(sc));
  }

  lemma TableRow(sc: nat)
    requires sc < NUM_CLASSES
    ensures 16 <= SizeOf(sc) <= SMALL_MAX && SizeOf(sc) % 16 == 0
    ensures SizeOf(sc) * 8 <= RunOf(sc) * PAGE <= SizeOf(sc) * 256 && 1 <= RunOf(sc) <= 32
  {}

  lemma SlotsBound(bytes: nat, size: nat)
    requires size > 0 && bytes <= size * 256
    ensures bytes / size <= 256
  {
    if bytes / size > 256 {
      DivBounds(bytes, size);
      MulMono(257, bytes / size, size);
    }
  }

  lemma CapBudget(n: nat, size: nat)
    requires n * size <= 16384 < n * size + size && size > 0
    ensures n > 8 ==> n * size <= 16384
    ensures n < 256 ==> (n + 1) * size > 16384
    ensures n < 8 ==> 9 * size > 16384
    ensures n > 256 ==> 256 * size <= 16384
  {
    assert (n + 1) * size == n * size + size;
    if n < 8 { MulMono(n + 1, 9, size); }
    if n > 256 { MulMono(256, n, size); }
  }

  lemma DivBounds(x: nat, d: nat)
    requires d > 0
    ensures x / d * d <= x < x / d * d + d
  {
    assert x == x / d * d + x % d;
  }

  lemma DivAtLeast(x: nat, d: nat, q: nat)
    requires d > 0 && d * q <= x
    ensures x / d >= q
  {
    assert x == (x / d) * d + x % d;
    assert (x / d - q) * d == (x / d) * d - q * d;
    MulAtLeast(x / d - q, d);
  }

  // ---- addresses ----

  // chunk_of: mask the address to its 2 MiB base
  function ChunkOf(a: nat): nat {
    And(a, HighMask(CHUNK_BITS, WORD_BITS))
  }

  // btm_slab_data
  function Data(s: SlabId): nat {
    s.chunk + s.page * PAGE
  }

  function Addr(c: SizeClass, x: Slot): nat {
    Data(x.slab) + x.k * c.size
  }

  predicate SlabOk(c: SizeClass, s: SlabId) {
    && c.Valid()
    && 0 < s.chunk && s.chunk % CHUNK == 0 && s.chunk + CHUNK <= WORD
    && DATA_START <= s.page && s.page + c.run <= PAGES
    && (s.page - DATA_START) % c.run == 0
  }

  predicate SlotOk(c: SizeClass, x: Slot) {
    SlabOk(c, x.slab) && x.k < c.slots
  }

  /** A slot lies inside its slab's run, which lies inside its chunk. */
  lemma SlotBounds(c: SizeClass, x: Slot)
    requires SlotOk(c, x)
    ensures Data(x.slab) <= Addr(c, x)
    ensures Addr(c, x) + c.size <= Data(x.slab) + c.run * PAGE <= x.slab.chunk + CHUNK
    ensures 0 < Addr(c, x) < WORD && Addr(c, x) % 16 == 0
  {
    MulStep(x.k, c.slots, c.size);
    SlotAligned(c, x);
  }

  lemma SlotAligned(c: SizeClass, x: Slot)
    requires SlotOk(c, x)
    ensures Addr(c, x) % 16 == 0
  {
    MulMod16(x.k, c.size);
    Aligned16(x.slab.chunk, x.slab.page * PAGE, x.k * c.size);
  }

  lemma Aligned16(a: nat, b: nat, d: nat)
    requires a % CHUNK == 0 && b % PAGE == 0 && d % 16 == 0
    ensures (a + b + d) % 16 == 0
  {
    assert a == CHUNK * (a / CHUNK) && b == PAGE * (b / PAGE) && d == 16 * (d / 16);
    ModUnique(a + b + d, 16, 0x2_0000 * (a / CHUNK) + 256 * (b / PAGE) + d / 16, 0);
  }

  lemma MulMono(a: nat, b: nat, d: nat)
    requires a <= b
    ensures a * d <= b * d
  {}

  lemma MulMod16(a: nat, d: nat)
    requires d % 16 == 0
    ensures (a * d) % 16 == 0
  {
    assert a * d == 16 * (a * (d / 16));
  }

  /** Two different slots of one class never overlap. */
  lemma SlotsApart(c: SizeClass, x: Slot, y: Slot)
    requires SlotOk(c, x) && SlotOk(c, y) && x != y
    ensures Addr(c, x) + c.size <= Addr(c, y) || Addr(c, y) + c.size <= Addr(c, x)
  {
    SlotBounds(c, x);
    SlotBounds(c, y);
    if x.slab == y.slab {
      if x.k < y.k { MulStep(x.k, y.k, c.size); } else { MulStep(y.k, x.k, c.size); }
    } else {
      RunsApart(c, x.slab, y.slab);
    }
  }

  lemma MulStep(a: nat, b: nat, d: nat)
    requires a < b
    ensures a * d + d <= b * d
  {
    MulMono(a + 1, b, d);
  }

  /** Two different slabs of one class have disjoint page runs. */
  lemma RunsApart(c: SizeClass, s: SlabId, t: SlabId)
    requires SlabOk(c, s) && SlabOk(c, t) && s != t
    ensures Data(s) + c.run * PAGE <= Data(t) || Data(t) + c.run * PAGE <= Data(s)
  {
    if s.chunk != t.chunk {
      MultiplesApart(s.chunk, t.chunk, CHUNK);
    } else {
      MultiplesApart(s.page - DATA_START, t.page - DATA_START, c.run);
    }
  }

  lemma MultiplesApart(a: nat, b: nat, d: nat)
    requires d > 0 && a % d == 0 && b % d == 0 && a != b
    ensures a + d <= b || b + d <= a
  {
    assert a == (a / d) * d && b == (b / d) * d;
    if a / d < b / d { MulStep(a / d, b / d, d); }
    else if b / d < a / d { MulStep(b / d, a / d, d); }
  }

  // The slots, of whatever classes, have no address in common.
  predicate NoShare(c: SizeClass, x: Slot, d: SizeClass, y: Slot) {
    Addr(c, x) + c.size <= Addr(d, y) || Addr(d, y) + d.size <= Addr(c, x)
  }

  // Slots of different chunks.
  lemma ChunksNoShare(c: SizeClass, x: Slot, d: SizeClass, y: Slot)
    requires SlotOk(c, x) && SlotOk(d, y) && x.slab.chunk != y.slab.chunk
    ensures NoShare(c, x, d, y)
  {
    SlotBounds(c, x);
    SlotBounds(d, y);
    MultiplesApart(x.slab.chunk, y.slab.chunk, CHUNK);
  }

  lemma ChunkIsPow2()
    ensures Pow2(CHUNK_BITS) == CHUNK
  {
    assert Pow2(7) == 128;
    Pow2Split(7, 7);
    Pow2Split(7, 14);
  }

  /** Masking any address of a chunk yields the chunk base. */
  lemma ChunkOfInside(base: nat, a: nat)
    requires base % CHUNK == 0 && base <= a < base + CHUNK <= WORD
    ensures ChunkOf(a) == base
  {
    WordIsPow2();
    ChunkIsPow2();
    MaskAlignsDown(a, CHUNK_BITS, WORD_BITS);
    assert a % CHUNK == a - base;
  }

  // ---- backing pages ----

  // The slot whose bytes back x: a meshed slab's pages are another slab's.
  function Backing(alias: map<SlabId, SlabId>, x: Slot): Slot {
    if x.slab in alias then Slot(alias[x.slab], x.k) else x
  }

  /** Through the page map, each byte of x is the same byte of its backing slot. */
  ghost predicate SlotMapped(c: SizeClass, remap: map<nat, nat>, alias: map<SlabId, SlabId>, x: Slot) {
    forall a: nat :: Addr(c, x) <= a < Addr(c, x) + c.size ==>
      Tr(remap, a) == a - Addr(c, x) + Addr(c, Backing(alias, x))
  }

  ghost predicate SlabMapped(c: SizeClass, remap: map<nat, nat>, alias: map<SlabId, SlabId>, s: SlabId) {
    forall k: nat {:trigger SlotMapped(c, remap, alias, Slot(s, k))} :: k < c.slots ==>
      SlotMapped(c, remap, alias, Slot(s, k))
  }

  ghost predicate SlotsMapped(c: SizeClass, remap: map<nat, nat>, alias: map<SlabId, SlabId>, xs: seq<Slot>) {
    forall i {:trigger xs[i]} :: 0 <= i < |xs| ==> SlotMapped(c, remap, alias, xs[i])
  }

  /** The page map is as `alias` says on every slab that could lie in one of the
      chunks of `live`; other chunks' pages are not constrained. */
  ghost predicate Mapped(c: SizeClass, remap: map<nat, nat>, alias: map<SlabId, SlabId>, live: map<nat, nat>) {
    forall s {:trigger SlabMapped(c, remap, alias, s)} :: SlabOk(c, s) && s.chunk in live ==>
      SlabMapped(c, remap, alias, s)
  }

  lemma MappedSlot(c: SizeClass, remap: map<nat, nat>, alias: map<SlabId, SlabId>, live: map<nat, nat>, x: Slot)
    requires Mapped(c, remap, alias, live) && SlotOk(c, x) && x.slab.chunk in live
    ensures SlotMapped(c, remap, alias, x)
  {
    assert SlabMapped(c, remap, alias, x.slab);
    assert x == Slot(x.slab, x.k);
  }

  lemma TrSlot(c: SizeClass, remap: map<nat, nat>, alias: map<SlabId, SlabId>, x: Slot)
    requires SlotMapped(c, remap, alias, x) && c.size > 0
    ensures Tr(remap, Addr(c, x)) == Addr(c, Backing(alias, x))
  {}

  predicate InRun(c: SizeClass, s: SlabId, a: nat) {
    Data(s) <= a < Data(s) + c.run * PAGE
  }

  // Address a is in the run of a slab that alias remaps.
  ghost predicate InDonor(c: SizeClass, alias: map<SlabId, SlabId>, a: nat) {
    exists d :: d in alias && InRun(c, d, a)
  }

  /** Between the two page maps only addresses in runs of remapped slabs moved. */
  ghost predicate Redrawn(c: SizeClass, remap: map<nat, nat>, remap': map<nat, nat>, alias: map<SlabId, SlabId>,
                          alias': map<SlabId, SlabId>) {
    && alias.Keys <= alias'.Keys
    && forall a: nat {:trigger Tr(remap', a)} :: Tr(remap', a) == Tr(remap, a) || InDonor(c, alias', a)
  }

  lemma RedrawnTrans(c: SizeClass, r0: map<nat, nat>, r1: map<nat, nat>, r2: map<nat, nat>, a0: map<SlabId, SlabId>,
                     a1: map<SlabId, SlabId>, a2: map<SlabId, SlabId>)
    requires Redrawn(c, r0, r1, a0, a1) && Redrawn(c, r1, r2, a1, a2)
    ensures Redrawn(c, r0, r2, a0, a2)
  {
    forall a: nat ensures Tr(r2, a) == Tr(r0, a) || InDonor(c, a2, a) {
      if Tr(r2, a) == Tr(r1, a) && Tr(r1, a) != Tr(r0, a) {
        var d :| d in a1 && InRun(c, d, a);
        assert d in a1.Keys && d in a2.Keys;
        assert d in a2;
      }
    }
  }

  // ---- what lies outside some chunks ----

  predicate InChunk(k: nat, a: nat) {
    k <= a < k + CHUNK
  }

  ghost predicate Outside(ks: set<nat>, a: nat) {
    forall k :: k in ks ==> !InChunk(k, a)
  }

  /** Every byte outside the chunks ks is unchanged. */
  ghost predicate BytesOut(m: Mem, m': Mem, ks: set<nat>) {
    forall a: nat {:trigger Load(m', a)} :: Outside(ks, a) ==> Load(m', a) == Load(m, a)
  }

  /** Every address outside the chunks ks is mapped where it was. */
  ghost predicate PagesOut(remap: map<nat, nat>, remap': map<nat, nat>, ks: set<nat>) {
    forall a: nat {:trigger Tr(remap', a)} :: Outside(ks, a) ==> Tr(remap', a) == Tr(remap, a)
  }

  lemma BytesOutTrans(m: Mem, m1: Mem, m2: Mem, ks: set<nat>, ls: set<nat>, js: set<nat>)
    requires BytesOut(m, m1, ks) && BytesOut(m1, m2, ls) && ks <= js && ls <= js
    ensures BytesOut(m, m2, js)
  {
    forall a: nat | Outside(js, a) ensures Load(m2, a) == Load(m, a) {
      assert Outside(ks, a) && Outside(ls, a);
      assert Load(m1, a) == Load(m, a);
    }
  }

  lemma PagesOutTrans(r: map<nat, nat>, r1: map<nat, nat>, r2: map<nat, nat>, ks: set<nat>, ls: set<nat>, js: set<nat>)
    requires PagesOut(r, r1, ks) && PagesOut(r1, r2, ls) && ks <= js && ls <= js
    ensures PagesOut(r, r2, js)
  {
    forall a: nat | Outside(js, a) ensures Tr(r2, a) == Tr(r, a) {
      assert Outside(ks, a) && Outside(ls, a);
      assert Tr(r1, a) == Tr(r, a);
    }
  }

  /** A slot of another chunk is outside. */
  lemma SlotOutside(c: SizeClass, x: Slot, ks: set<nat>, a: nat)
    requires SlotOk(c, x) && x.slab.chunk !in ks && Addr(c, x) <= a < Addr(c, x) + c.size
    requires forall k :: k in ks ==> k % CHUNK == 0
    ensures Outside(ks, a)
  {
    SlotBounds(c, x);
    forall k | k in ks ensures !InChunk(k, a) { MultiplesApart(k, x.slab.chunk, CHUNK); }
  }

  // ---- page ownership ----

  // The run start that owns data page p.
  function RunStart(c: SizeClass, p: nat): nat
    requires c.run > 0 && DATA_START <= p
  {
    DATA_START + (p - DATA_START) / c.run * c.run
  }

  /** Carved runs tile the chunk from the first data page up to `next`. */
  ghost predicate Tiled(c: SizeClass, owner: seq<nat>, next: nat) {
    && c.Valid() && |owner| == PAGES
    && DATA_START <= next <= PAGES && (next - DATA_START) % c.run == 0
    && forall p: nat :: DATA_START <= p < next ==> owner[p] == RunStart(c, p)
  }

  lemma RunStartInside(c: SizeClass, first: nat, p: nat)
    requires c.Valid() && DATA_START <= first && (first - DATA_START) % c.run == 0
    requires first <= p < first + c.run
    ensures RunStart(c, p) == first
  {
    var q := (first - DATA_START) / c.run;
    assert first - DATA_START == q * c.run;
    ModUnique(p - DATA_START, c.run, q, p - first);
  }

  // btm_slab_of: read the page's owner from the chunk header
  function SlabOf(owner: seq<nat>, chunk: nat, a: nat): SlabId
    requires |owner| == PAGES
  {
    if chunk <= a < chunk + CHUNK then SlabId(chunk, owner[(a - chunk) / PAGE]) else SlabId(chunk, PAGE_NONE)
  }

  /** Every byte of a slot in a carved run leads back to the slot's own slab:
      masking gives the chunk and the page table gives the first page. */
  lemma HomeOfSlot(c: SizeClass, owner: seq<nat>, next: nat, x: Slot, b: nat)
    requires SlotOk(c, x) && Tiled(c, owner, next) && b < c.size
    requires x.slab.page + c.run <= next
    ensures ChunkOf(Addr(c, x) + b) == x.slab.chunk
    ensures SlabOf(owner, x.slab.chunk, Addr(c, x) + b) == x.slab
  {
    SlotBounds(c, x);
    var a := Addr(c, x) + b;
    ChunkOfInside(x.slab.chunk, a);
    var p := (a - x.slab.chunk) / PAGE;
    assert x.slab.page <= p < x.slab.page + c.run;
    RunStartInside(c, x.slab.page, p);
  }

  /** The index computed from an address is the slot's own. */
  lemma IndexOfSlot(c: SizeClass, x: Slot)
    requires SlotOk(c, x)
    ensures (Addr(c, x) - Data(x.slab)) / c.size == x.k
  {
    ModUnique(x.k * c.size, c.size, x.k, 0);
  }

  /** Carving one more run keeps the tiling. */
  lemma CarveTiles(c: SizeClass, owner: seq<nat>, next: nat, owner': seq<nat>)
    requires Tiled(c, owner, next) && next + c.run <= PAGES
    requires |owner'| == PAGES
    requires forall p: nat :: p < PAGES ==>
               owner'[p] == if next <= p < next + c.run then next else owner[p]
    ensures Tiled(c, owner', next + c.run)
  {
    assert (next + c.run - DATA_START) % c.run == 0 by {
      var q := (next - DATA_START) / c.run;
      ModUnique(next + c.run - DATA_START, c.run, q + 1, 0);
    }
    forall p: nat | DATA_START <= p < next + c.run ensures owner'[p] == RunStart(c, p) {
      if next <= p { RunStartInside(c, next, p); }
    }
  }
}
