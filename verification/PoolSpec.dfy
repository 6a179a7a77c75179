/** One (partition, size class) pool as a value: which slots are free in which
    slab, which list each slab is on, and what each locked operation does. The
    slots handed out (`out`) and the slots lost to meshing (`hidden`) are not
    stored by the allocator; every invariant is stated relative to them. */
module PoolSpec {
  import opened Seqs
  import opened Geometry
  import opened Bits

  const KEEP_WARM: nat := 2

  datatype Slab = Slab(free: seq<nat>, retired: bool)

  datatype Pool = Pool(
    slabs: map<SlabId, Slab>,      // carved slabs of the chunks the pool owns
    partial: seq<SlabId>,
    warm: seq<SlabId>,             // empty slabs, pages kept
    cold: seq<SlabId>,             // empty slabs, pages released
    chunks: seq<nat>,
    active: Option<nat>,
    nextPage: map<nat, nat>,       // bump pointer of each chunk
    live: map<nat, nat>,           // live_slabs of each chunk
    nslabs: nat,
    outstanding: nat)

  const EMPTY := Pool(map[], [], [], [], [], None, map[], map[], 0, 0)

  // ---- operations ----

  predicate NeedsChunk(c: SizeClass, p: Pool)
    requires p.active.Some? ==> p.active.value in p.nextPage
  {
    && p.warm == [] && p.cold == []
    && (p.active.None? || p.nextPage[p.active.value] + c.run > PAGES)
  }

  function Format(c: SizeClass, p: Pool, s: SlabId): Pool
    requires c.Valid() && s.chunk in p.live
  {
    p.(slabs := p.slabs[s := Slab(Iota(c.slots), false)],
       live := p.live[s.chunk := p.live[s.chunk] + 1])
  }

  function AddChunk(p: Pool, k: nat): Pool {
    p.(chunks := [k] + p.chunks, active := Some(k),
       nextPage := p.nextPage[k := DATA_START], live := p.live[k := 0])
  }

  // The slab cut at the bump pointer of chunk k.
  function NextSlab(p: Pool, k: nat): SlabId
    requires k in p.nextPage
  {
    SlabId(k, p.nextPage[k])
  }

  function Carve(c: SizeClass, p: Pool, k: nat): Pool
    requires c.Valid() && k in p.nextPage && k in p.live
  {
    Format(c, p.(nextPage := p.nextPage[k := p.nextPage[k] + c.run], nslabs := p.nslabs + 1), NextSlab(p, k))
  }

  ghost predicate Indexed(p: Pool) {
    && p.nextPage.Keys == p.live.Keys
    && (p.active.Some? ==> p.active.value in p.live)
    && (forall s :: s in p.warm ==> s.chunk in p.live)
    && (forall s :: s in p.cold ==> s.chunk in p.live)
  }

  // btm_slab_new; `got` is the chunk obtained if one is needed
  function SlabNew(c: SizeClass, p: Pool, got: Option<nat>): (r: Option<(Pool, SlabId)>)
    requires c.Valid() && Indexed(p)
  {
    if p.warm != [] then Some((Format(c, p.(warm := p.warm[1..]), p.warm[0]), p.warm[0]))
    else if p.cold != [] then Some((Format(c, p.(cold := p.cold[1..]), p.cold[0]), p.cold[0]))
    else if !NeedsChunk(c, p) then
      Some((Carve(c, p, p.active.value), NextSlab(p, p.active.value)))
    else if got.None? then None
    else
      var q := AddChunk(p, got.value);
      Some((Carve(c, q, got.value), NextSlab(q, got.value)))
  }

  function SlotsAt(s: SlabId, ks: seq<nat>): (r: seq<Slot>)
    ensures |r| == |ks| && forall i :: 0 <= i < |ks| ==> r[i] == Slot(s, ks[i])
  {
    seq(|ks|, i requires 0 <= i < |ks| => Slot(s, ks[i]))
  }

  datatype Taken = Taken(pool: Pool, batch: seq<Slot>)

  // the locked half of btm_pool_refill, once a partial slab is at the head
  function Take(p: Pool, want: nat): Taken
    requires p.partial != [] && p.partial[0] in p.slabs
  {
    var s := p.partial[0];
    var f := p.slabs[s].free;
    var n := if want < |f| then want else |f|;
    Taken(p.(slabs := p.slabs[s := p.slabs[s].(free := f[n..])],
             partial := if n == |f| then p.partial[1..] else p.partial,
             outstanding := p.outstanding + n),
          Reverse(SlotsAt(s, f[..n])))
  }

  function Push(p: Pool, s: SlabId): Pool {
    p.(partial := [s] + p.partial)
  }

  // btm_pool_refill; an empty batch is the NULL return
  function Refill(c: SizeClass, p: Pool, want: nat, got: Option<nat>): Taken
    requires c.Valid() && Indexed(p) && (p.partial != [] ==> p.partial[0] in p.slabs)
  {
    if p.partial != [] then Take(p, want)
    else match SlabNew(c, p, got)
      case None => Taken(p, [])
      case Some((q, s)) => Take(Push(q, s), want)
  }

  datatype Freed = Freed(pool: Pool, disposed: Option<nat>, released: Option<SlabId>)

  function DropChunk(p: Pool, k: nat): Pool {
    p.(slabs := map s | s in p.slabs && s.chunk != k :: p.slabs[s],
       warm := Without(p.warm, set s | s in p.warm && s.chunk == k),
       cold := Without(p.cold, set s | s in p.cold && s.chunk == k),
       chunks := Without(p.chunks, {k}),
       active := if p.active == Some(k) then None else p.active,
       nextPage := p.nextPage - {k}, live := p.live - {k})
  }

  // slab_became_free
  function BecameFree(p: Pool, s: SlabId): Freed
    requires s.chunk in p.live && p.live[s.chunk] > 0
  {
    var q := p.(partial := Without(p.partial, {s}), live := p.live[s.chunk := p.live[s.chunk] - 1]);
    if q.live[s.chunk] == 0 then Freed(DropChunk(q, s.chunk), Some(s.chunk), None)
    else if |q.warm| < KEEP_WARM then Freed(q.(warm := [s] + q.warm), None, None)
    else Freed(q.(cold := [s] + q.cold), None, Some(s))
  }

  // put the slot back on its slab's freelist
  function Return(p: Pool, x: Slot): Pool
    requires x.slab in p.slabs
  {
    p.(slabs := p.slabs[x.slab := p.slabs[x.slab].(free := [x.k] + p.slabs[x.slab].free)],
       outstanding := if p.outstanding > 0 then p.outstanding - 1 else 0)
  }

  // What becomes of a slab to which a slot has been returned.
  function AfterReturn(c: SizeClass, q: Pool, s: SlabId): Freed
    requires s in q.slabs && s.chunk in q.live && q.live[s.chunk] > 0
  {
    if q.slabs[s].retired then Freed(q, None, None)
    else if |q.slabs[s].free| == c.slots then BecameFree(q, s)
    else if s !in q.partial then Freed(Push(q, s), None, None)
    else Freed(q, None, None)
  }

  // one iteration of btm_pool_flush, and btm_pool_free_one
  function FreeSlot(c: SizeClass, p: Pool, x: Slot): Freed
    requires c.Valid() && x.slab in p.slabs && x.slab.chunk in p.live && p.live[x.slab.chunk] > 0
  {
    AfterReturn(c, Return(p, x), x.slab)
  }

  // FreeSlot, for a slot of a carved slab.
  ghost predicate Frees(c: SizeClass, p: Pool, x: Slot, r: Freed) {
    && c.Valid() && x.slab in p.slabs && x.slab.chunk in p.live && p.live[x.slab.chunk] > 0
    && r == FreeSlot(c, p, x)
  }

  ghost predicate FreesTo(c: SizeClass, p: Pool, x: Slot, q: Pool) {
    && c.Valid() && x.slab in p.slabs && x.slab.chunk in p.live && p.live[x.slab.chunk] > 0
    && q == FreeSlot(c, p, x).pool
  }

  // Pool q is p after these slots have been freed, in order: ps are the pools in between.
  ghost predicate FreeRun(c: SizeClass, p: Pool, xs: seq<Slot>, q: Pool, ps: seq<Pool>) {
    && |ps| == |xs| + 1 && ps[0] == p && ps[|xs|] == q
    && forall i: nat {:trigger FreeStep(c, ps, xs, i)} :: i < |xs| ==> FreeStep(c, ps, xs, i)
  }

  ghost predicate FreeStep(c: SizeClass, ps: seq<Pool>, xs: seq<Slot>, i: nat)
    requires i < |xs| && |ps| == |xs| + 1
  {
    FreesTo(c, ps[i], xs[i], ps[i + 1])
  }

  ghost predicate FreesAll(c: SizeClass, p: Pool, xs: seq<Slot>, q: Pool) {
    exists ps :: FreeRun(c, p, xs, q, ps)
  }

  lemma FreesNone(c: SizeClass, p: Pool)
    ensures FreesAll(c, p, [], p)
  {
    assert FreeRun(c, p, [], p, [p]);
  }

  lemma FreesOneMore(c: SizeClass, p: Pool, xs: seq<Slot>, q: Pool, x: Slot, r: Pool)
    requires FreesAll(c, p, xs, q) && FreesTo(c, q, x, r)
    ensures FreesAll(c, p, xs + [x], r)
  {
    var ps :| FreeRun(c, p, xs, q, ps);
    var rs, ys := ps + [r], xs + [x];
    forall i: nat | i < |ys| ensures FreeStep(c, rs, ys, i) {
      if i < |xs| { assert FreeStep(c, ps, xs, i) && rs[i + 1] == ps[i + 1]; }
    }
    assert FreeRun(c, p, ys, r, rs);
  }

  ghost predicate Refills(c: SizeClass, p: Pool, want: nat, got: Option<nat>, r: Taken) {
    && c.Valid() && Indexed(p) && (p.partial != [] ==> p.partial[0] in p.slabs)
    && r == Refill(c, p, want, got)
  }

  // mesh_pair on the bookkeeping: donor d into recipient r
  function Mesh(c: SizeClass, p: Pool, r: SlabId, d: SlabId): Pool
    requires c.Valid() && r in p.slabs && d in p.slabs
  {
    p.(slabs := p.slabs[r := p.slabs[r].(free := BothFree(c, p, r, d))][d := p.slabs[d].(retired := true)],
       partial := Without(p.partial, {d}))
  }

  // R's rebuilt freelist, in ascending order
  function BothFree(c: SizeClass, p: Pool, r: SlabId, d: SlabId): seq<nat>
    requires c.Valid() && r in p.slabs && d in p.slabs
  {
    var all := Iota(c.slots);
    Without(all, set k | k in all && !(k in p.slabs[r].free && k in p.slabs[d].free))
  }

  function DonorHeld(c: SizeClass, p: Pool, r: SlabId, d: SlabId): set<Slot>
    requires c.Valid() && d in p.slabs
  {
    set k: nat | k < c.slots && k !in p.slabs[d].free :: Slot(r, k)
  }

  // ---- invariant ----

  ghost predicate ChunkBaseOk(k: nat) {
    0 < k && k % CHUNK == 0 && k + CHUNK <= WORD
  }

  ghost predicate BumpOk(run: nat, next: nat)
    requires run > 0
  {
    DATA_START <= next <= PAGES && (next - DATA_START) % run == 0
  }

  // Slab s has been cut from its chunk.
  ghost predicate Carved(run: nat, nextPage: map<nat, nat>, s: SlabId)
    requires run > 0
  {
    && s.chunk in nextPage && DATA_START <= s.page
    && s.page + run <= nextPage[s.chunk] && (s.page - DATA_START) % run == 0
  }

  ghost predicate Shape(c: SizeClass, p: Pool)
    requires c.Valid()
  {
    && NoDup(p.chunks)
    && (forall k :: k in p.chunks <==> k in p.live)
    && p.nextPage.Keys == p.live.Keys
    && (p.active.Some? ==> p.active.value in p.live)
    && (forall k :: k in p.nextPage ==> ChunkBaseOk(k) && BumpOk(c.run, p.nextPage[k]))
    && (forall s :: s in p.slabs <==> Carved(c.run, p.nextPage, s))
  }

  ghost predicate ListOk(list: seq<SlabId>, slabs: map<SlabId, Slab>) {
    NoDup(list) && forall s :: s in list ==> s in slabs
  }

  ghost predicate Lists(p: Pool) {
    ListOk(p.partial, p.slabs) && ListOk(p.warm, p.slabs) && ListOk(p.cold, p.slabs) && |p.warm| <= KEEP_WARM
  }

  ghost function LiveSlabs(p: Pool, k: nat): set<SlabId> {
    set s | s in p.slabs && s.chunk == k && s !in p.warm && s !in p.cold
  }

  ghost predicate Counted(p: Pool) {
    forall k :: k in p.live ==> p.live[k] == |LiveSlabs(p, k)| && p.live[k] > 0
  }

  // Slot k is in exactly one of the slab's freelist, `out` and `hidden`.
  ghost predicate OnePlace(free: seq<nat>, x: Slot, out: set<Slot>, hidden: set<Slot>) {
    && (x.k in free || x in out || x in hidden)
    && !(x.k in free && x in out)
    && !(x.k in free && x in hidden)
    && !(x in out && x in hidden)
  }

  ghost predicate SlabParts(n: nat, s: SlabId, free: seq<nat>, out: set<Slot>, hidden: set<Slot>) {
    && NoDup(free)
    && (forall i :: 0 <= i < |free| ==> free[i] < n)
    && (forall k: nat :: k < n ==> OnePlace(free, Slot(s, k), out, hidden))
  }

  ghost predicate Known(n: nat, slabs: map<SlabId, Slab>, xs: set<Slot>) {
    forall x :: x in xs ==> x.slab in slabs && x.k < n
  }

  ghost predicate Partitioned(n: nat, slabs: map<SlabId, Slab>, out: set<Slot>, hidden: set<Slot>) {
    && (forall s :: s in slabs ==> SlabParts(n, s, slabs[s].free, out, hidden))
    && Known(n, slabs, out) && Known(n, slabs, hidden)
  }

  ghost predicate HasHidden(hidden: set<Slot>, s: SlabId) {
    exists x :: x in hidden && x.slab == s
  }

  // A slab is on the list its freelist says it should be on.
  ghost predicate PlacedOn(n: nat, sl: Slab, inPartial: bool, inWarm: bool, inCold: bool, lost: bool) {
    && (inPartial ==> !sl.retired && |sl.free| < n && (sl.free == [] ==> lost))
    && (!sl.retired && 0 < |sl.free| < n ==> inPartial)
    && ((inWarm || inCold) <==> (!sl.retired && |sl.free| == n))
    && !(inWarm && inCold)
  }

  ghost predicate Placed(n: nat, p: Pool, hidden: set<Slot>, s: SlabId)
    requires s in p.slabs
  {
    PlacedOn(n, p.slabs[s], s in p.partial, s in p.warm, s in p.cold, HasHidden(hidden, s))
  }

  ghost predicate Core(c: SizeClass, p: Pool, out: set<Slot>, hidden: set<Slot>) {
    && c.Valid() && Shape(c, p) && Lists(p) && Counted(p)
    && Partitioned(c.slots, p.slabs, out, hidden) && p.outstanding == |out|
  }

  /** What holds of a pool whenever its lock is free. */
  ghost predicate PoolInv(c: SizeClass, p: Pool, out: set<Slot>, hidden: set<Slot>) {
    && Core(c, p, out, hidden)
    && forall s :: s in p.slabs ==> Placed(c.slots, p, hidden, s)
  }

  lemma EmptyInv(c: SizeClass)
    requires c.Valid()
    ensures PoolInv(c, EMPTY, {}, {})
  {}
}
