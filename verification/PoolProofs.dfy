/** Every locked operation keeps the pool invariant. */
module PoolProofs {
  import opened Seqs
  import opened Geometry
  import opened Bits
  import opened PoolSpec

  // ---- refill ----

  // Everything but the placement of s, which is on no list and entirely free.
  ghost predicate Unplaced(c: SizeClass, p: Pool, out: set<Slot>, hidden: set<Slot>, s: SlabId) {
    && Core(c, p, out, hidden)
    && s in p.slabs && p.slabs[s] == Slab(Iota(c.slots), false)
    && s !in p.partial && s !in p.warm && s !in p.cold
    && forall t :: t in p.slabs && t != s ==> Placed(c.slots, p, hidden, t)
  }

  ghost predicate FreshOk(p: Pool, got: Option<nat>) {
    got.Some? ==> ChunkBaseOk(got.value) && got.value !in p.live
  }

  lemma IndexedOk(c: SizeClass, p: Pool, out: set<Slot>, hidden: set<Slot>)
    requires Core(c, p, out, hidden)
    ensures Indexed(p)
    ensures forall s :: s in p.slabs ==> s.chunk in p.live
    ensures p.partial != [] ==> p.partial[0] in p.slabs
  {
    forall s | s in p.slabs ensures s.chunk in p.live { assert Carved(c.run, p.nextPage, s); }
  }

  // A slab entirely free has nothing out or hidden.
  lemma FreeSlabIdle(n: nat, slabs: map<SlabId, Slab>, out: set<Slot>, hidden: set<Slot>, s: SlabId)
    requires Partitioned(n, slabs, out, hidden) && s in slabs && |slabs[s].free| == n
    ensures forall k: nat :: k < n ==> k in slabs[s].free
    ensures forall x :: x in out || x in hidden ==> x.slab != s
  {
    assert SlabParts(n, s, slabs[s].free, out, hidden);
    Pigeonhole(slabs[s].free, n);
    var f := slabs[s].free;
    forall x | x in out || x in hidden ensures x.slab != s {
      assert x.slab == s ==> OnePlace(f, Slot(s, x.k), out, hidden);
    }
  }

  lemma FormattedParts(n: nat, s: SlabId, out: set<Slot>, hidden: set<Slot>)
    requires forall x :: x in out || x in hidden ==> x.slab != s
    ensures SlabParts(n, s, Iota(n), out, hidden)
  {
    forall k: nat | k < n ensures OnePlace(Iota(n), Slot(s, k), out, hidden) { assert Iota(n)[k] == k; }
  }

  lemma FormattedPartitioned(n: nat, slabs: map<SlabId, Slab>, out: set<Slot>, hidden: set<Slot>, s: SlabId)
    requires Partitioned(n, slabs, out, hidden)
    requires s in slabs ==> |slabs[s].free| == n
    ensures Partitioned(n, slabs[s := Slab(Iota(n), false)], out, hidden)
  {
    if s in slabs { FreeSlabIdle(n, slabs, out, hidden, s); }
    FormattedParts(n, s, out, hidden);
  }

  // Counters are exact, and positive except perhaps at chunk k.
  ghost predicate CountedBut(p: Pool, k: nat) {
    forall j :: j in p.live ==> p.live[j] == |LiveSlabs(p, j)| && (j == k || p.live[j] > 0)
  }

  lemma LiveWith(p: Pool, q: Pool, s: SlabId, k: nat)
    requires forall t :: t in q.slabs && t !in q.warm && t !in q.cold <==>
                         (t in p.slabs && t !in p.warm && t !in p.cold) || t == s
    requires !(s in p.slabs && s !in p.warm && s !in p.cold)
    ensures |LiveSlabs(q, k)| == |LiveSlabs(p, k)| + if k == s.chunk then 1 else 0
  {
    if k == s.chunk {
      assert LiveSlabs(q, k) == LiveSlabs(p, k) + {s};
    } else {
      assert LiveSlabs(q, k) == LiveSlabs(p, k);
    }
  }

  lemma CountUp(p: Pool, q: Pool, s: SlabId)
    requires CountedBut(p, s.chunk) && s.chunk in p.live
    requires q.live == p.live[s.chunk := p.live[s.chunk] + 1]
    requires forall t :: t in q.slabs && t !in q.warm && t !in q.cold <==>
                         (t in p.slabs && t !in p.warm && t !in p.cold) || t == s
    requires !(s in p.slabs && s !in p.warm && s !in p.cold)
    ensures Counted(q)
  {
    forall k | k in q.live ensures q.live[k] == |LiveSlabs(q, k)| && q.live[k] > 0 {
      LiveWith(p, q, s, k);
    }
  }

  lemma CountedSame(p: Pool, q: Pool)
    requires Counted(p) && q.live == p.live && q.warm == p.warm && q.cold == p.cold
    requires q.slabs.Keys == p.slabs.Keys
    ensures Counted(q)
  {
    forall k | k in q.live ensures q.live[k] == |LiveSlabs(q, k)| && q.live[k] > 0 {
      assert LiveSlabs(q, k) == LiveSlabs(p, k);
    }
  }

  lemma ShapeSame(c: SizeClass, p: Pool, q: Pool)
    requires c.Valid() && Shape(c, p)
    requires q.chunks == p.chunks && q.active == p.active && q.nextPage == p.nextPage
    requires q.live.Keys == p.live.Keys && q.slabs.Keys == p.slabs.Keys
    ensures Shape(c, q)
  {
    forall s ensures s in q.slabs <==> Carved(c.run, q.nextPage, s) {
      assert s in q.slabs <==> s in q.slabs.Keys;
      assert s in p.slabs <==> s in p.slabs.Keys;
    }
  }

  // q is p with the empty slab s off its empty list and formatted.
  ghost predicate Recycled(c: SizeClass, p: Pool, q: Pool, s: SlabId) {
    && c.Valid() && s in p.slabs && (s in p.warm || s in p.cold)
    && s.chunk in p.live && q == Format(c, p.(warm := q.warm, cold := q.cold), s)
    && NoDup(q.warm) && NoDup(q.cold) && |q.warm| <= |p.warm|
    && (forall t :: t in q.warm <==> t in p.warm && t != s)
    && (forall t :: t in q.cold <==> t in p.cold && t != s)
  }

  lemma RecycleCore(c: SizeClass, p: Pool, q: Pool, out: set<Slot>, hidden: set<Slot>, s: SlabId)
    requires PoolInv(c, p, out, hidden) && Recycled(c, p, q, s)
    ensures Core(c, q, out, hidden)
  {
    assert q.slabs.Keys == p.slabs.Keys && q.live.Keys == p.live.Keys;
    assert Placed(c.slots, p, hidden, s);
    FormattedPartitioned(c.slots, p.slabs, out, hidden, s);
    ShapeSame(c, p, q);
    CountUp(p, q, s);
  }

  lemma RecycleUnplaced(c: SizeClass, p: Pool, q: Pool, out: set<Slot>, hidden: set<Slot>, s: SlabId)
    requires PoolInv(c, p, out, hidden) && Recycled(c, p, q, s)
    ensures Unplaced(c, q, out, hidden, s)
  {
    RecycleCore(c, p, q, out, hidden, s);
    assert Placed(c.slots, p, hidden, s);
    forall t | t in q.slabs && t != s ensures Placed(c.slots, q, hidden, t) {
      assert Placed(c.slots, p, hidden, t);
    }
  }

  // Ready to carve from chunk k.
  ghost predicate CanCarve(c: SizeClass, p: Pool, out: set<Slot>, hidden: set<Slot>, k: nat) {
    && c.Valid() && Shape(c, p) && Lists(p) && CountedBut(p, k)
    && Partitioned(c.slots, p.slabs, out, hidden) && p.outstanding == |out|
    && k in p.live && p.nextPage[k] + c.run <= PAGES
    && (forall s :: s in p.slabs ==> Placed(c.slots, p, hidden, s))
  }

  lemma CarvedNext(c: SizeClass, nextPage: map<nat, nat>, k: nat, t: SlabId)
    requires c.Valid() && k in nextPage && BumpOk(c.run, nextPage[k])
    ensures Carved(c.run, nextPage[k := nextPage[k] + c.run], t) <==>
            Carved(c.run, nextPage, t) || t == SlabId(k, nextPage[k])
    ensures !Carved(c.run, nextPage, SlabId(k, nextPage[k]))
  {
    var next := nextPage[k];
    if t.chunk == k && DATA_START <= t.page && (t.page - DATA_START) % c.run == 0 && t.page != next {
      MultiplesApart(t.page - DATA_START, next - DATA_START, c.run);
    }
  }

  lemma BumpStep(run: nat, next: nat)
    requires run > 0 && BumpOk(run, next) && next + run <= PAGES
    ensures BumpOk(run, next + run)
  {
    var q := (next - DATA_START) / run;
    ModUnique(next + run - DATA_START, run, q + 1, 0);
  }

  lemma CarveShape(c: SizeClass, p: Pool, k: nat)
    requires c.Valid() && Shape(c, p) && k in p.live && p.nextPage[k] + c.run <= PAGES
    ensures Shape(c, Carve(c, p, k)) && NextSlab(p, k) !in p.slabs
  {
    var q := Carve(c, p, k);
    BumpStep(c.run, p.nextPage[k]);
    CarvedNext(c, p.nextPage, k, NextSlab(p, k));
    forall t ensures t in q.slabs <==> Carved(c.run, q.nextPage, t) {
      CarvedNext(c, p.nextPage, k, t);
    }
  }

  lemma CarveCore(c: SizeClass, p: Pool, out: set<Slot>, hidden: set<Slot>, k: nat)
    requires CanCarve(c, p, out, hidden, k)
    ensures Core(c, Carve(c, p, k), out, hidden)
  {
    CarveShape(c, p, k);
    FormattedPartitioned(c.slots, p.slabs, out, hidden, NextSlab(p, k));
    CountUp(p, Carve(c, p, k), NextSlab(p, k));
  }

  lemma CarveUnplaced(c: SizeClass, p: Pool, out: set<Slot>, hidden: set<Slot>, k: nat)
    requires CanCarve(c, p, out, hidden, k)
    ensures Unplaced(c, Carve(c, p, k), out, hidden, NextSlab(p, k))
  {
    CarveCore(c, p, out, hidden, k);
    CarveShape(c, p, k);
    var q := Carve(c, p, k);
    forall t | t in q.slabs && t != NextSlab(p, k) ensures Placed(c.slots, q, hidden, t) {
      assert Placed(c.slots, p, hidden, t);
    }
  }

  lemma CarvedAdd(run: nat, nextPage: map<nat, nat>, k: nat, t: SlabId)
    requires run > 0 && k !in nextPage
    ensures Carved(run, nextPage[k := DATA_START], t) <==> Carved(run, nextPage, t)
  {}

  lemma AddChunkShape(c: SizeClass, p: Pool, k: nat)
    requires c.Valid() && Shape(c, p) && ChunkBaseOk(k) && k !in p.live
    ensures Shape(c, AddChunk(p, k))
    ensures forall t :: t in p.slabs ==> t.chunk != k
  {
    var q := AddChunk(p, k);
    assert NoDup(q.chunks) by { NoDupPush(k, p.chunks); }
    forall t ensures t in q.slabs <==> Carved(c.run, q.nextPage, t) { CarvedAdd(c.run, p.nextPage, k, t); }
    forall t | t in p.slabs ensures t.chunk != k { assert Carved(c.run, p.nextPage, t); }
    assert BumpOk(c.run, DATA_START);
  }

  lemma AddChunkCounted(p: Pool, k: nat)
    requires Counted(p) && k !in p.live && forall t :: t in p.slabs ==> t.chunk != k
    ensures CountedBut(AddChunk(p, k), k)
  {
    var q := AddChunk(p, k);
    forall j | j in q.live ensures q.live[j] == |LiveSlabs(q, j)| && (j == k || q.live[j] > 0) {
      if j == k {
        assert LiveSlabs(q, k) == {};
      } else {
        assert LiveSlabs(q, j) == LiveSlabs(p, j);
      }
    }
  }

  lemma AddChunkCanCarve(c: SizeClass, p: Pool, out: set<Slot>, hidden: set<Slot>, k: nat)
    requires PoolInv(c, p, out, hidden) && FreshOk(p, Some(k))
    ensures CanCarve(c, AddChunk(p, k), out, hidden, k)
  {
    AddChunkShape(c, p, k);
    AddChunkCounted(p, k);
    forall t | t in p.slabs ensures Placed(c.slots, AddChunk(p, k), hidden, t) {
      assert Placed(c.slots, p, hidden, t);
    }
  }

  lemma RecycleFirst(c: SizeClass, p: Pool, out: set<Slot>, hidden: set<Slot>, s: SlabId)
    requires PoolInv(c, p, out, hidden) && Indexed(p)
    requires if p.warm != [] then s == p.warm[0] else p.cold != [] && s == p.cold[0]
    ensures var q := if p.warm != [] then p.(warm := p.warm[1..]) else p.(cold := p.cold[1..]);
            Recycled(c, p, Format(c, q, s), s)
  {
    assert Placed(c.slots, p, hidden, s);
    if p.warm != [] {
      TailOf(p.warm, s);
    } else {
      TailOf(p.cold, s);
    }
  }

  lemma TailOf(l: seq<SlabId>, s: SlabId)
    requires l != [] && l[0] == s && NoDup(l)
    ensures NoDup(l[1..]) && forall t :: t in l[1..] <==> t in l && t != s
  {
    NoDupTail(l);
    assert l == [s] + l[1..];
  }

  /** A new slab, recycled or carved, is entirely free and on no list yet. */
  lemma SlabNewUnplaced(c: SizeClass, p: Pool, got: Option<nat>, out: set<Slot>, hidden: set<Slot>)
    requires PoolInv(c, p, out, hidden) && FreshOk(p, got) && Indexed(p)
    requires SlabNew(c, p, got).Some?
    ensures var (q, s) := SlabNew(c, p, got).value; Unplaced(c, q, out, hidden, s)
  {
    var (q, s) := SlabNew(c, p, got).value;
    if p.warm != [] || p.cold != [] {
      RecycleFirst(c, p, out, hidden, s);
      RecycleUnplaced(c, p, q, out, hidden, s);
    } else if !NeedsChunk(c, p) {
      CarveUnplaced(c, p, out, hidden, p.active.value);
    } else {
      AddChunkCanCarve(c, p, out, hidden, got.value);
      CarveUnplaced(c, AddChunk(p, got.value), out, hidden, got.value);
    }
  }

  // The head of the partial list may be taken from.
  ghost predicate CanTake(c: SizeClass, p: Pool, out: set<Slot>, hidden: set<Slot>) {
    && Core(c, p, out, hidden) && p.partial != []
    && var s := p.partial[0];
    && !p.slabs[s].retired && s !in p.warm && s !in p.cold
    && (p.slabs[s].free == [] ==> HasHidden(hidden, s))
    && forall t :: t in p.slabs && t != s ==> Placed(c.slots, p, hidden, t)
  }

  // How many slots a refill takes from a freelist.
  function Grabbed(f: seq<nat>, want: nat): nat {
    if want < |f| then want else |f|
  }

  // A list of distinct indices cut in two.
  lemma CutElems(f: seq<nat>, n: nat)
    requires n <= |f| && NoDup(f)
    ensures forall k :: k in f[..n] || k in f[n..] <==> k in f
    ensures forall k :: !(k in f[..n] && k in f[n..])
    ensures NoDup(f[..n])
  {
    assert f == f[..n] + f[n..];
  }

  lemma ReversedSlots(s: SlabId, ks: seq<nat>)
    requires NoDup(ks)
    ensures var b := Reverse(SlotsAt(s, ks));
            |b| == |ks| && NoDup(b) && forall x :: x in b <==> x.slab == s && x.k in ks
  {
    var l := SlotsAt(s, ks);
    var b := Reverse(l);
    forall x ensures x in b <==> x.slab == s && x.k in ks {
      if x in b {
        var i :| 0 <= i < |b| && b[i] == x;
        assert b[i] == l[|l| - 1 - i];
      }
      if x.slab == s && x.k in ks {
        var i :| 0 <= i < |ks| && ks[i] == x.k;
        assert b[|l| - 1 - i] == l[i];
      }
    }
  }

  /** The batch is the first slots of the head slab's freelist, in reverse. */
  lemma BatchElems(p: Pool, want: nat)
    requires p.partial != [] && p.partial[0] in p.slabs && NoDup(p.slabs[p.partial[0]].free)
    ensures var s := p.partial[0]; var f := p.slabs[s].free; var n := Grabbed(f, want); var b := Take(p, want).batch;
            |b| == n && NoDup(b)
            && (forall x :: x in b <==> x.slab == s && x.k in f[..n])
            && (forall k :: k in f[..n] || k in f[n..] <==> k in f)
            && (forall k :: !(k in f[..n] && k in f[n..]))
  {
    var f := p.slabs[p.partial[0]].free;
    var n := Grabbed(f, want);
    CutElems(f, n);
    ReversedSlots(p.partial[0], f[..n]);
  }

  lemma TakeParts(n: nat, s: SlabId, f: seq<nat>, g: nat, out: set<Slot>, hidden: set<Slot>, b: set<Slot>)
    requires SlabParts(n, s, f, out, hidden) && g <= |f|
    requires forall x :: x in b <==> x.slab == s && x.k in f[..g]
    requires forall k :: k in f[..g] || k in f[g..] <==> k in f
    requires forall k :: !(k in f[..g] && k in f[g..])
    ensures SlabParts(n, s, f[g..], out + b, hidden)
  {
    forall k: nat | k < n ensures OnePlace(f[g..], Slot(s, k), out + b, hidden) {
      assert OnePlace(f, Slot(s, k), out, hidden);
    }
  }

  lemma TakePartitioned(c: SizeClass, p: Pool, out: set<Slot>, hidden: set<Slot>, want: nat)
    requires CanTake(c, p, out, hidden)
    ensures var t := Take(p, want); Partitioned(c.slots, t.pool.slabs, out + Elems(t.batch), hidden)
    ensures NoDup(Take(p, want).batch) && Elems(Take(p, want).batch) !! out
  {
    var t, s, n := Take(p, want), p.partial[0], c.slots;
    var b := Elems(t.batch);
    var f := p.slabs[s].free;
    assert SlabParts(n, s, f, out, hidden);
    BatchElems(p, want);
    TakeParts(n, s, f, Grabbed(f, want), out, hidden, b);
    forall u | u in t.pool.slabs && u != s ensures SlabParts(n, u, t.pool.slabs[u].free, out + b, hidden) {
      OtherParts(n, u, p.slabs[u].free, out, hidden, out + b);
    }
    forall x | x in b ensures x.k < n && x !in out { assert OnePlace(f, Slot(s, x.k), out, hidden); }
  }

  lemma OtherParts(n: nat, u: SlabId, f: seq<nat>, out: set<Slot>, hidden: set<Slot>, out': set<Slot>)
    requires SlabParts(n, u, f, out, hidden)
    requires forall x: Slot :: x.slab == u ==> (x in out' <==> x in out)
    ensures SlabParts(n, u, f, out', hidden)
  {
    forall k: nat | k < n ensures OnePlace(f, Slot(u, k), out', hidden) {
      assert OnePlace(f, Slot(u, k), out, hidden);
    }
  }

  lemma TakeCore(c: SizeClass, p: Pool, out: set<Slot>, hidden: set<Slot>, want: nat)
    requires CanTake(c, p, out, hidden)
    ensures var t := Take(p, want); Core(c, t.pool, out + Elems(t.batch), hidden)
  {
    var t := Take(p, want);
    var q := t.pool;
    assert q.slabs.Keys == p.slabs.Keys;
    TakePartitioned(c, p, out, hidden, want);
    NoDupCard(t.batch);
    ShapeSame(c, p, q);
    NoDupTail(p.partial);
    CountedSame(p, q);
  }

  lemma TakePlaced(c: SizeClass, p: Pool, out: set<Slot>, hidden: set<Slot>, want: nat, u: SlabId)
    requires CanTake(c, p, out, hidden) && want >= 1 && u in p.slabs
    ensures Placed(c.slots, Take(p, want).pool, hidden, u)
  {
    var s := p.partial[0];
    NoDupTail(p.partial);
    assert p.partial == [s] + p.partial[1..];
    if u == s {
      assert SlabParts(c.slots, s, p.slabs[s].free, out, hidden);
      Pigeonhole(p.slabs[s].free, c.slots);
    } else {
      assert Placed(c.slots, p, hidden, u);
    }
  }

  /** A pool and the slots it has just handed out: none of them was outstanding
      before, and none belongs to a retired slab. */
  ghost predicate Handed(c: SizeClass, t: Taken, out: set<Slot>, hidden: set<Slot>, want: nat) {
    && PoolInv(c, t.pool, out + Elems(t.batch), hidden)
    && NoDup(t.batch) && Elems(t.batch) !! out && |t.batch| <= want
    && forall x :: x in t.batch ==> x.slab in t.pool.slabs && !t.pool.slabs[x.slab].retired
  }

  lemma TakeHanded(c: SizeClass, p: Pool, out: set<Slot>, hidden: set<Slot>, want: nat)
    requires CanTake(c, p, out, hidden) && want >= 1
    ensures Handed(c, Take(p, want), out, hidden, want)
    ensures Take(p, want).batch == [] <==> p.slabs[p.partial[0]].free == []
  {
    TakeCore(c, p, out, hidden, want);
    TakePartitioned(c, p, out, hidden, want);
    assert SlabParts(c.slots, p.partial[0], p.slabs[p.partial[0]].free, out, hidden);
    BatchElems(p, want);
    forall u | u in Take(p, want).pool.slabs ensures Placed(c.slots, Take(p, want).pool, hidden, u) {
      TakePlaced(c, p, out, hidden, want, u);
    }
  }

  /** No slot of the pool is free, except in slabs meshed away, and no slab is left to
      cut from the active chunk. */
  ghost predicate Dry(c: SizeClass, p: Pool) {
    && (forall s :: s in p.slabs ==> p.slabs[s].retired || p.slabs[s].free == [])
    && (p.active.Some? ==> forall s: SlabId :: SlabOk(c, s) && s.chunk == p.active.value ==> s in p.slabs)
  }

  /** When refill returns NULL: the head partial slab has no free slot left, or there
      is no partial slab, the pool is dry and no chunk could be obtained. */
  ghost predicate RefillFails(c: SizeClass, p: Pool, got: Option<nat>) {
    if p.partial != [] then p.partial[0] in p.slabs && p.slabs[p.partial[0]].free == []
    else Dry(c, p) && got.None?
  }

  // With no slab on the lists, none has a free slot.
  lemma NothingFree(c: SizeClass, p: Pool, out: set<Slot>, hidden: set<Slot>, s: SlabId)
    requires PoolInv(c, p, out, hidden) && p.partial == [] && p.warm == [] && p.cold == [] && s in p.slabs
    ensures p.slabs[s].retired || p.slabs[s].free == []
  {
    assert Placed(c.slots, p, hidden, s) && SlabParts(c.slots, s, p.slabs[s].free, out, hidden);
    Pigeonhole(p.slabs[s].free, c.slots);
  }

  // A slab that fits behind no bump pointer has been cut already.
  lemma CutAlready(c: SizeClass, next: nat, page: nat)
    requires c.Valid() && BumpOk(c.run, next) && next + c.run > PAGES
    requires DATA_START <= page && page + c.run <= PAGES && (page - DATA_START) % c.run == 0
    ensures page + c.run <= next
  {
    if next < page + c.run && page != next { MultiplesApart(page - DATA_START, next - DATA_START, c.run); }
  }

  // An empty slab has free slots.
  lemma EmptyNotDry(c: SizeClass, p: Pool, out: set<Slot>, hidden: set<Slot>, s: SlabId)
    requires PoolInv(c, p, out, hidden) && (s in p.warm || s in p.cold)
    ensures !Dry(c, p)
  {
    assert s in p.slabs && Placed(c.slots, p, hidden, s);
  }

  /** A chunk is needed exactly when the pool is dry. */
  lemma NeedsChunkIffDry(c: SizeClass, p: Pool, out: set<Slot>, hidden: set<Slot>)
    requires PoolInv(c, p, out, hidden) && Indexed(p) && p.partial == []
    ensures NeedsChunk(c, p) <==> Dry(c, p)
  {
    if p.warm != [] {
      EmptyNotDry(c, p, out, hidden, p.warm[0]);
    } else if p.cold != [] {
      EmptyNotDry(c, p, out, hidden, p.cold[0]);
    } else {
      forall s | s in p.slabs ensures p.slabs[s].retired || p.slabs[s].free == [] { NothingFree(c, p, out, hidden, s); }
      if p.active.Some? { ActiveCut(c, p, p.active.value); }
    }
  }

  /** btm_slab_new finds no slab exactly when the pool is dry and no chunk could be
      obtained. */
  lemma NewUnlessDry(c: SizeClass, p: Pool, out: set<Slot>, hidden: set<Slot>, got: Option<nat>)
    requires PoolInv(c, p, out, hidden) && Indexed(p) && p.partial == []
    ensures SlabNew(c, p, got).None? <==> Dry(c, p) && got.None?
  {
    NeedsChunkIffDry(c, p, out, hidden);
  }

  // The active chunk has no room for one more slab exactly when all its slabs are cut.
  lemma ActiveCut(c: SizeClass, p: Pool, k: nat)
    requires c.Valid() && Shape(c, p) && k in p.nextPage
    ensures p.nextPage[k] + c.run > PAGES <==> forall s: SlabId :: SlabOk(c, s) && s.chunk == k ==> s in p.slabs
  {
    if p.nextPage[k] + c.run > PAGES {
      forall s: SlabId | SlabOk(c, s) && s.chunk == k ensures s in p.slabs {
        CutAlready(c, p.nextPage[k], s.page);
        assert Carved(c.run, p.nextPage, s);
      }
    } else {
      var s := SlabId(k, p.nextPage[k]);
      assert SlabOk(c, s) && !Carved(c.run, p.nextPage, s);
    }
  }

  lemma PushCanTake(c: SizeClass, p: Pool, out: set<Slot>, hidden: set<Slot>, s: SlabId)
    requires Unplaced(c, p, out, hidden, s)
    ensures CanTake(c, Push(p, s), out, hidden)
  {
    var q := Push(p, s);
    NoDupPush(s, p.partial);
    ShapeSame(c, p, q);
    CountedSame(p, q);
    forall t | t in q.slabs && t != s ensures Placed(c.slots, q, hidden, t) {
      assert Placed(c.slots, p, hidden, t);
    }
  }

  lemma InvCanTake(c: SizeClass, p: Pool, out: set<Slot>, hidden: set<Slot>)
    requires PoolInv(c, p, out, hidden) && p.partial != []
    ensures CanTake(c, p, out, hidden)
  {
    assert Placed(c.slots, p, hidden, p.partial[0]);
  }

  lemma RefillMade(c: SizeClass, p: Pool, q: Pool, s: SlabId, out: set<Slot>, hidden: set<Slot>, want: nat,
                   got: Option<nat>)
    requires PoolInv(c, p, out, hidden) && FreshOk(p, got) && want >= 1 && Indexed(p) && p.partial == []
    requires SlabNew(c, p, got) == Some((q, s))
    ensures s in q.slabs && Handed(c, Take(Push(q, s), want), out, hidden, want) && Take(Push(q, s), want).batch != []
  {
    SlabNewUnplaced(c, p, got, out, hidden);
    PushCanTake(c, q, out, hidden, s);
    TakeHanded(c, Push(q, s), out, hidden, want);
  }

  lemma RefillNone(c: SizeClass, p: Pool, out: set<Slot>, hidden: set<Slot>, want: nat)
    requires PoolInv(c, p, out, hidden)
    ensures Handed(c, Taken(p, []), out, hidden, want)
  {
    assert out + Elems<Slot>([]) == out;
  }

  // A refill that has to make a slab fails exactly when none can be made.
  lemma MadeOrFails(c: SizeClass, p: Pool, want: nat, got: Option<nat>, r: Option<(Pool, SlabId)>)
    requires c.Valid() && Indexed(p) && p.partial == [] && r == SlabNew(c, p, got)
    requires r.Some? ==> r.value.1 in r.value.0.slabs
    ensures r.None? <==> NeedsChunk(c, p) && got.None?
    ensures Refill(c, p, want, got) == match r case None => Taken(p, []) case Some((q, s)) => Take(Push(q, s), want)
  {}

  lemma RefillNew(c: SizeClass, p: Pool, out: set<Slot>, hidden: set<Slot>, want: nat, got: Option<nat>)
    requires PoolInv(c, p, out, hidden) && FreshOk(p, got) && want >= 1 && Indexed(p) && p.partial == []
    ensures Handed(c, Refill(c, p, want, got), out, hidden, want)
    ensures Refill(c, p, want, got).batch == [] <==> RefillFails(c, p, got)
  {
    NeedsChunkIffDry(c, p, out, hidden);
    var r := SlabNew(c, p, got);
    match r
    case None =>
      RefillNone(c, p, out, hidden, want);
      MadeOrFails(c, p, want, got, r);
    case Some((q, s)) =>
      RefillMade(c, p, q, s, out, hidden, want, got);
      MadeOrFails(c, p, want, got, r);
  }

  // A chunk is linked exactly when the pool has no partial slab and is dry.
  lemma RefillLinks(c: SizeClass, p: Pool, out: set<Slot>, hidden: set<Slot>, want: nat, k: nat)
    requires PoolInv(c, p, out, hidden) && FreshOk(p, Some(k)) && want >= 1
    requires Indexed(p) && (p.partial != [] ==> p.partial[0] in p.slabs)
    ensures k in Refill(c, p, want, Some(k)).pool.live <==> p.partial == [] && Dry(c, p)
  {
    if p.partial == [] {
      NeedsChunkIffDry(c, p, out, hidden);
      SlabNewUnplaced(c, p, Some(k), out, hidden);
    }
  }

  /** Refill keeps the invariant, fails exactly when `RefillFails` says, and links the
      chunk it is offered exactly when there is no partial slab and the pool is dry. */
  lemma RefillInv(c: SizeClass, p: Pool, out: set<Slot>, hidden: set<Slot>, want: nat, got: Option<nat>)
    requires PoolInv(c, p, out, hidden) && FreshOk(p, got) && want >= 1
    ensures Indexed(p) && (p.partial != [] ==> p.partial[0] in p.slabs)
    ensures Handed(c, Refill(c, p, want, got), out, hidden, want)
    ensures Refill(c, p, want, got).batch == [] <==> RefillFails(c, p, got)
    ensures got.Some? ==> (got.value in Refill(c, p, want, got).pool.live <==> p.partial == [] && Dry(c, p))
  {
    IndexedOk(c, p, out, hidden);
    if got.Some? { RefillLinks(c, p, out, hidden, want, got.value); }
    if p.partial != [] {
      InvCanTake(c, p, out, hidden);
      TakeHanded(c, p, out, hidden, want);
    } else {
      RefillNew(c, p, out, hidden, want, got);
    }
  }

  // ---- free ----

  lemma ReturnParts(n: nat, s: SlabId, f: seq<nat>, x: Slot, out: set<Slot>, hidden: set<Slot>)
    requires SlabParts(n, s, f, out, hidden) && x.slab == s && x.k < n && x in out
    ensures SlabParts(n, s, [x.k] + f, out - {x}, hidden)
    ensures |f| < n
  {
    assert OnePlace(f, Slot(s, x.k), out, hidden);
    Pigeonhole(f, n);
    forall k: nat | k < n ensures OnePlace([x.k] + f, Slot(s, k), out - {x}, hidden) {
      assert OnePlace(f, Slot(s, k), out, hidden);
    }
  }

  lemma ReturnCore(c: SizeClass, p: Pool, out: set<Slot>, hidden: set<Slot>, x: Slot)
    requires PoolInv(c, p, out, hidden) && x in out
    ensures x.slab in p.slabs && Core(c, Return(p, x), out - {x}, hidden)
    ensures |p.slabs[x.slab].free| < c.slots
  {
    assert SlabParts(c.slots, x.slab, p.slabs[x.slab].free, out, hidden);
    var q := Return(p, x);
    assert q.slabs.Keys == p.slabs.Keys;
    ReturnParts(c.slots, x.slab, p.slabs[x.slab].free, x, out, hidden);
    forall u | u in q.slabs && u != x.slab
      ensures SlabParts(c.slots, u, q.slabs[u].free, out - {x}, hidden)
    { OtherParts(c.slots, u, p.slabs[u].free, out, hidden, out - {x}); }
    ShapeSame(c, p, q);
    CountedSame(p, q);
  }

  // s is entirely free, still on the partial list; everything else is in place.
  ghost predicate Drained(c: SizeClass, p: Pool, out: set<Slot>, hidden: set<Slot>, s: SlabId) {
    && Core(c, p, out, hidden)
    && s in p.slabs && !p.slabs[s].retired && |p.slabs[s].free| == c.slots
    && s in p.partial && s !in p.warm && s !in p.cold
    && forall t :: t in p.slabs && t != s ==> Placed(c.slots, p, hidden, t)
  }

  lemma ReturnPlaced(c: SizeClass, p: Pool, out: set<Slot>, hidden: set<Slot>, x: Slot)
    requires PoolInv(c, p, out, hidden) && x in out && x.slab in p.slabs
    ensures forall t :: t in p.slabs && t != x.slab ==> Placed(c.slots, Return(p, x), hidden, t)
    ensures x.slab !in p.warm && x.slab !in p.cold
    ensures !p.slabs[x.slab].retired && |p.slabs[x.slab].free| + 1 == c.slots ==> x.slab in p.partial
  {
    ReturnCore(c, p, out, hidden, x);
    assert Placed(c.slots, p, hidden, x.slab);
    forall t | t in p.slabs && t != x.slab ensures Placed(c.slots, Return(p, x), hidden, t) {
      assert Placed(c.slots, p, hidden, t);
    }
  }

  // After the drained slab leaves the partial list and its chunk loses one live slab.
  lemma UnlinkCore(c: SizeClass, p: Pool, q: Pool, out: set<Slot>, hidden: set<Slot>, s: SlabId)
    requires Drained(c, p, out, hidden, s)
    requires s.chunk in p.live && p.live[s.chunk] > 1
    requires q == p.(partial := Without(p.partial, {s}), live := p.live[s.chunk := p.live[s.chunk] - 1],
                     warm := q.warm, cold := q.cold)
    requires (q.warm == [s] + p.warm && |p.warm| < KEEP_WARM && q.cold == p.cold)
             || (q.cold == [s] + p.cold && q.warm == p.warm)
    ensures PoolInv(c, q, out, hidden)
  {
    ShapeSame(c, p, q);
    UnlinkLists(p, q, s);
    UnlinkCounted(p, q, s);
    forall t | t in q.slabs ensures Placed(c.slots, q, hidden, t) { UnlinkPlaced(c, p, q, out, hidden, s, t); }
  }

  lemma UnlinkLists(p: Pool, q: Pool, s: SlabId)
    requires Lists(p) && s in p.slabs && s !in p.warm && s !in p.cold
    requires q.slabs == p.slabs && q.partial == Without(p.partial, {s})
    requires (q.warm == [s] + p.warm && |p.warm| < KEEP_WARM && q.cold == p.cold)
             || (q.cold == [s] + p.cold && q.warm == p.warm)
    ensures Lists(q)
  {
    WithoutNoDup(p.partial, {s});
    WithoutElems(p.partial, {s});
  }

  lemma UnlinkCounted(p: Pool, q: Pool, s: SlabId)
    requires Counted(p) && s.chunk in p.live && p.live[s.chunk] > 1
    requires q.slabs == p.slabs && q.live == p.live[s.chunk := p.live[s.chunk] - 1]
    requires s in p.slabs && s !in p.warm && s !in p.cold
    requires (q.warm == [s] + p.warm && q.cold == p.cold) || (q.cold == [s] + p.cold && q.warm == p.warm)
    ensures Counted(q)
  {
    CountDown(p, q, s);
  }

  lemma UnlinkPlaced(c: SizeClass, p: Pool, q: Pool, out: set<Slot>, hidden: set<Slot>, s: SlabId, t: SlabId)
    requires Drained(c, p, out, hidden, s) && t in p.slabs && q.slabs == p.slabs && q.partial == Without(p.partial, {s})
    requires (q.warm == [s] + p.warm && q.cold == p.cold) || (q.cold == [s] + p.cold && q.warm == p.warm)
    ensures Placed(c.slots, q, hidden, t)
  {
    WithoutElems(p.partial, {s});
    assert t != s ==> Placed(c.slots, p, hidden, t);
  }

  lemma CountDown(p: Pool, q: Pool, s: SlabId)
    requires Counted(p) && s.chunk in p.live && p.live[s.chunk] > 1
    requires q.slabs == p.slabs && q.live == p.live[s.chunk := p.live[s.chunk] - 1]
    requires s in p.slabs && s !in p.warm && s !in p.cold
    requires forall t :: t in q.warm || t in q.cold <==> t in p.warm || t in p.cold || t == s
    ensures Counted(q)
  {
    forall k | k in q.live ensures q.live[k] == |LiveSlabs(q, k)| && q.live[k] > 0 {
      if k == s.chunk {
        assert LiveSlabs(q, k) == LiveSlabs(p, k) - {s};
      } else {
        assert LiveSlabs(q, k) == LiveSlabs(p, k);
      }
    }
  }

  /** When the drained slab was its chunk's last live one, nothing of the chunk
      is outstanding or hidden: this follows from the counters alone. */
  lemma LastLiveIdle(c: SizeClass, p: Pool, out: set<Slot>, hidden: set<Slot>, s: SlabId)
    requires Drained(c, p, out, hidden, s) && s.chunk in p.live && p.live[s.chunk] == 1
    ensures forall t :: t in p.slabs && t.chunk == s.chunk ==> t == s || t in p.warm || t in p.cold
    ensures forall x :: x in out || x in hidden ==> x.slab.chunk != s.chunk
  {
    forall t | t in p.slabs && t.chunk == s.chunk ensures t == s || t in p.warm || t in p.cold {
      if t != s && t !in p.warm && t !in p.cold {
        assert {s, t} <= LiveSlabs(p, s.chunk);
        SubsetCard({s, t}, LiveSlabs(p, s.chunk));
      }
    }
    forall x | x in out || x in hidden ensures x.slab.chunk != s.chunk {
      if x.slab.chunk == s.chunk {
        if x.slab != s { assert Placed(c.slots, p, hidden, x.slab); }
        FreeSlabIdle(c.slots, p.slabs, out, hidden, x.slab);
      }
    }
  }

  lemma DropShape(c: SizeClass, p: Pool, k: nat)
    requires c.Valid() && Shape(c, p) && k in p.live
    ensures Shape(c, DropChunk(p, k))
  {
    var q := DropChunk(p, k);
    WithoutNoDup(p.chunks, {k});
    WithoutElems(p.chunks, {k});
    forall s ensures s in q.slabs <==> Carved(c.run, q.nextPage, s) {
      assert s in p.slabs <==> Carved(c.run, p.nextPage, s);
    }
  }

  lemma DropLists(p: Pool, k: nat)
    requires Lists(p) && forall s :: s in p.partial ==> s.chunk != k
    ensures Lists(DropChunk(p, k))
    ensures forall s :: s in DropChunk(p, k).warm <==> s in p.warm && s.chunk != k
    ensures forall s :: s in DropChunk(p, k).cold <==> s in p.cold && s.chunk != k
  {
    var w, d := set s | s in p.warm && s.chunk == k, set s | s in p.cold && s.chunk == k;
    WithoutNoDup(p.warm, w);
    WithoutElems(p.warm, w);
    WithoutNoDup(p.cold, d);
    WithoutElems(p.cold, d);
  }

  lemma DropCounted(p: Pool, k: nat)
    requires forall j :: j in p.live && j != k ==> p.live[j] == |LiveSlabs(p, j)| && p.live[j] > 0
    requires forall s :: s in DropChunk(p, k).warm <==> s in p.warm && s.chunk != k
    requires forall s :: s in DropChunk(p, k).cold <==> s in p.cold && s.chunk != k
    ensures Counted(DropChunk(p, k))
  {
    var q := DropChunk(p, k);
    forall j | j in q.live ensures q.live[j] == |LiveSlabs(q, j)| && q.live[j] > 0 {
      assert LiveSlabs(q, j) == LiveSlabs(p, j);
    }
  }

  // No slab on the partial list, but the drained one, is in its chunk.
  lemma DisposePartial(c: SizeClass, p: Pool, out: set<Slot>, hidden: set<Slot>, s: SlabId, t: SlabId)
    requires Drained(c, p, out, hidden, s) && s.chunk in p.live && p.live[s.chunk] == 1
    requires t in p.partial && t != s
    ensures t.chunk != s.chunk
  {
    LastLiveIdle(c, p, out, hidden, s);
    assert Placed(c.slots, p, hidden, t);
  }

  lemma DisposeCounted(p: Pool, q: Pool, k: nat)
    requires Counted(p) && q.live == p.live[k := 0] && q.slabs == p.slabs && q.warm == p.warm && q.cold == p.cold
    requires Lists(q) && forall s :: s in q.partial ==> s.chunk != k
    ensures Counted(DropChunk(q, k))
  {
    DropLists(q, k);
    forall j | j in q.live && j != k ensures q.live[j] == |LiveSlabs(q, j)| && q.live[j] > 0 {
      assert LiveSlabs(q, j) == LiveSlabs(p, j);
    }
    DropCounted(q, k);
  }

  lemma DropPartitioned(n: nat, p: Pool, k: nat, out: set<Slot>, hidden: set<Slot>)
    requires Partitioned(n, p.slabs, out, hidden) && forall x :: x in out || x in hidden ==> x.slab.chunk != k
    ensures Partitioned(n, DropChunk(p, k).slabs, out, hidden)
  {}

  lemma DisposeCore(c: SizeClass, p: Pool, q: Pool, out: set<Slot>, hidden: set<Slot>, s: SlabId)
    requires Drained(c, p, out, hidden, s) && s.chunk in p.live && p.live[s.chunk] == 1
    requires q == p.(partial := Without(p.partial, {s}), live := p.live[s.chunk := 0])
    ensures Core(c, DropChunk(q, s.chunk), out, hidden)
    ensures forall t :: t in q.partial ==> t in p.partial && t.chunk != s.chunk
  {
    LastLiveIdle(c, p, out, hidden, s);
    WithoutNoDup(p.partial, {s});
    WithoutElems(p.partial, {s});
    forall t | t in q.partial ensures t.chunk != s.chunk { DisposePartial(c, p, out, hidden, s, t); }
    ShapeSame(c, p, q);
    DropShape(c, q, s.chunk);
    DropLists(q, s.chunk);
    DisposeCounted(p, q, s.chunk);
    DropPartitioned(c.slots, q, s.chunk, out, hidden);
  }

  lemma DisposeInv(c: SizeClass, p: Pool, q: Pool, out: set<Slot>, hidden: set<Slot>, s: SlabId)
    requires Drained(c, p, out, hidden, s) && s.chunk in p.live && p.live[s.chunk] == 1
    requires q == p.(partial := Without(p.partial, {s}), live := p.live[s.chunk := 0])
    ensures PoolInv(c, DropChunk(q, s.chunk), out, hidden)
  {
    DisposeCore(c, p, q, out, hidden, s);
    WithoutElems(p.partial, {s});
    DropLists(q, s.chunk);
    forall t | t in DropChunk(q, s.chunk).slabs ensures Placed(c.slots, DropChunk(q, s.chunk), hidden, t) {
      assert Placed(c.slots, p, hidden, t);
    }
  }

  /** What a free leaves behind: the invariant without the slot among those
      outstanding; a disposed chunk and a released slab hold nothing that is
      outstanding or hidden, and the disposed chunk has left the pool. */
  ghost predicate FreedOk(c: SizeClass, r: Freed, out: set<Slot>, hidden: set<Slot>) {
    && PoolInv(c, r.pool, out, hidden)
    && (r.disposed.Some? ==> r.disposed.value !in r.pool.live && ChunkIdle(r.disposed.value, out, hidden))
    && (r.released.Some? ==> r.released.value in r.pool.cold && SlabIdle(r.released.value, out, hidden))
  }

  ghost predicate ChunkIdle(k: nat, out: set<Slot>, hidden: set<Slot>) {
    forall x :: x in out || x in hidden ==> x.slab.chunk != k
  }

  ghost predicate SlabIdle(s: SlabId, out: set<Slot>, hidden: set<Slot>) {
    forall x :: x in out || x in hidden ==> x.slab != s
  }

  lemma BecameFreeOk(c: SizeClass, p: Pool, out: set<Slot>, hidden: set<Slot>, s: SlabId)
    requires Drained(c, p, out, hidden, s)
    ensures s.chunk in p.live && p.live[s.chunk] > 0
    ensures FreedOk(c, BecameFree(p, s), out, hidden)
  {
    IndexedOk(c, p, out, hidden);
    var r := BecameFree(p, s);
    if p.live[s.chunk] == 1 {
      LastLiveIdle(c, p, out, hidden, s);
      DisposeInv(c, p, p.(partial := Without(p.partial, {s}), live := p.live[s.chunk := 0]), out, hidden, s);
    } else {
      FreeSlabIdle(c.slots, p.slabs, out, hidden, s);
      UnlinkCore(c, p, r.pool, out, hidden, s);
    }
  }

  lemma ReturnDrained(c: SizeClass, p: Pool, out: set<Slot>, hidden: set<Slot>, x: Slot)
    requires PoolInv(c, p, out, hidden) && x in out && x.slab in p.slabs
    requires !p.slabs[x.slab].retired && |p.slabs[x.slab].free| + 1 == c.slots
    ensures Drained(c, Return(p, x), out - {x}, hidden, x.slab)
  {
    ReturnCore(c, p, out, hidden, x);
    ReturnPlaced(c, p, out, hidden, x);
  }

  // The returned slot's slab is retired, or now partly free and on the partial list.
  lemma ReturnKept(c: SizeClass, p: Pool, q: Pool, out: set<Slot>, hidden: set<Slot>, x: Slot)
    requires PoolInv(c, p, out, hidden) && x in out && x.slab in p.slabs
    requires p.slabs[x.slab].retired || |p.slabs[x.slab].free| + 1 < c.slots
    requires q == if p.slabs[x.slab].retired || x.slab in p.partial then Return(p, x) else Push(Return(p, x), x.slab)
    ensures PoolInv(c, q, out - {x}, hidden)
  {
    var r := Return(p, x);
    ReturnCore(c, p, out, hidden, x);
    ReturnPlaced(c, p, out, hidden, x);
    assert Placed(c.slots, p, hidden, x.slab);
    ShapeSame(c, r, q);
    CountedSame(r, q);
    forall t | t in q.slabs ensures Placed(c.slots, q, hidden, t) {
      if t != x.slab { assert Placed(c.slots, r, hidden, t); }
    }
  }

  /** Returning an outstanding slot keeps the invariant; anything disposed or
      released by it is idle. */
  lemma FreeSlotInv(c: SizeClass, p: Pool, out: set<Slot>, hidden: set<Slot>, x: Slot)
    requires PoolInv(c, p, out, hidden) && x in out
    ensures x.slab in p.slabs && x.slab.chunk in p.live && p.live[x.slab.chunk] > 0
    ensures FreedOk(c, FreeSlot(c, p, x), out - {x}, hidden)
  {
    IndexedOk(c, p, out, hidden);
    ReturnCore(c, p, out, hidden, x);
    if !p.slabs[x.slab].retired && |p.slabs[x.slab].free| + 1 == c.slots {
      ReturnDrained(c, p, out, hidden, x);
      BecameFreeOk(c, Return(p, x), out - {x}, hidden, x.slab);
    } else {
      ReturnKept(c, p, FreeSlot(c, p, x).pool, out, hidden, x);
    }
  }

  // Every slab of chunk k other than s is entirely free.
  ghost predicate LastUsed(c: SizeClass, p: Pool, s: SlabId) {
    forall t :: t in p.slabs && t.chunk == s.chunk && t != s ==> !p.slabs[t].retired && |p.slabs[t].free| == c.slots
  }

  // Then s is the only live one.
  lemma LastUsedIff(c: SizeClass, p: Pool, out: set<Slot>, hidden: set<Slot>, s: SlabId)
    requires PoolInv(c, p, out, hidden) && s in LiveSlabs(p, s.chunk) && s.chunk in p.live
    ensures p.live[s.chunk] == 1 <==> LastUsed(c, p, s)
  {
    var all := LiveSlabs(p, s.chunk);
    forall t | t in p.slabs
      ensures (t in p.warm || t in p.cold) <==> (!p.slabs[t].retired && |p.slabs[t].free| == c.slots)
    {
      assert Placed(c.slots, p, hidden, t);
    }
    if LastUsed(c, p, s) {
      assert all == {s};
    } else {
      var t :| t in p.slabs && t.chunk == s.chunk && t != s && !(!p.slabs[t].retired && |p.slabs[t].free| == c.slots);
      assert {s, t} <= all;
      CardMono({s, t}, all);
    }
  }

  lemma CardMono(a: set<SlabId>, b: set<SlabId>)
    requires a <= b
    ensures |a| <= |b|
  {
    assert b == a + (b - a);
  }

  // What FreeSlot returns; `last` says whether the slab is its chunk's only live one.
  lemma FreeGoes(c: SizeClass, p: Pool, x: Slot, last: bool)
    requires c.Valid() && x.slab in p.slabs && x.slab.chunk in p.live && p.live[x.slab.chunk] > 0 && |p.warm| <= 2
    requires !p.slabs[x.slab].retired ==> (p.live[x.slab.chunk] == 1 <==> last)
    ensures FreedTo(c, p, x, FreeSlot(c, p, x), last)
  {}

  ghost predicate FreedTo(c: SizeClass, p: Pool, x: Slot, r: Freed, last: bool) {
    && x.slab in p.slabs
    && var s := x.slab;
    var drained := !p.slabs[s].retired && |p.slabs[s].free| + 1 == c.slots;
    && r.disposed == (if drained && last then Some(s.chunk) else None)
    && r.released == (if drained && !last && |p.warm| == 2 then Some(s) else None)
    && (drained && !last ==>
          && r.pool.warm == (if |p.warm| < 2 then [s] + p.warm else p.warm)
          && r.pool.cold == (if |p.warm| < 2 then p.cold else [s] + p.cold))
    && (!drained && !p.slabs[s].retired ==> s in r.pool.partial)
  }

  /** Where a freed slot's slab goes. A chunk is disposed of exactly when this was the
      last slot of it in use; else a drained slab is kept warm while fewer than two are,
      and its pages are released otherwise; any other slab is then partial. */
  lemma FreePlaces(c: SizeClass, p: Pool, out: set<Slot>, hidden: set<Slot>, x: Slot)
    requires PoolInv(c, p, out, hidden) && x in out
    ensures x.slab in p.slabs && x.slab.chunk in p.live && p.live[x.slab.chunk] > 0
    ensures FreedTo(c, p, x, FreeSlot(c, p, x), LastUsed(c, p, x.slab))
  {
    FreeSlotInv(c, p, out, hidden, x);
    if !p.slabs[x.slab].retired { SlabLive(c, p, out, hidden, x); }
    FreeGoes(c, p, x, LastUsed(c, p, x.slab));
  }

  lemma SlabLive(c: SizeClass, p: Pool, out: set<Slot>, hidden: set<Slot>, x: Slot)
    requires PoolInv(c, p, out, hidden) && x in out && x.slab in p.slabs && x.slab.chunk in p.live
    requires !p.slabs[x.slab].retired
    ensures p.live[x.slab.chunk] == 1 <==> LastUsed(c, p, x.slab)
  {
    ReturnCore(c, p, out, hidden, x);
    assert Placed(c.slots, p, hidden, x.slab);
    LastUsedIff(c, p, out, hidden, x.slab);
  }

  /** Freeing a slot of a full slab and refilling one slot gives that slot back and
      leaves the pool as it was. */
  lemma FreeThenRefill(c: SizeClass, p: Pool, out: set<Slot>, hidden: set<Slot>, x: Slot, got: Option<nat>)
    requires PoolInv(c, p, out, hidden) && x in out
    requires x.slab in p.slabs && p.slabs[x.slab].free == [] && !p.slabs[x.slab].retired && x.slab !in p.partial
    ensures x.slab.chunk in p.live && p.live[x.slab.chunk] > 0
    ensures var q := FreeSlot(c, p, x).pool;
            Indexed(q) && (q.partial != [] ==> q.partial[0] in q.slabs) && Refill(c, q, 1, got) == Taken(p, [x])
  {
    FreeSlotInv(c, p, out, hidden, x);
    IndexedOk(c, FreeSlot(c, p, x).pool, out - {x}, hidden);
    BackAndForth(c, p, x);
  }

  lemma BackAndForth(c: SizeClass, p: Pool, x: Slot)
    requires c.Valid() && x.slab in p.slabs && x.slab.chunk in p.live && p.live[x.slab.chunk] > 0 && p.outstanding > 0
    requires p.slabs[x.slab].free == [] && !p.slabs[x.slab].retired && x.slab !in p.partial
    ensures var q := FreeSlot(c, p, x).pool;
            q.partial != [] && q.partial[0] in q.slabs && Take(q, 1) == Taken(p, [x])
  {
    var q := FreeSlot(c, p, x).pool;
    assert q.partial == [x.slab] + p.partial && q.slabs[x.slab].free == [x.k];
    assert q.partial[1..] == p.partial && [x.k][1..] == [];
    assert q.slabs[x.slab := q.slabs[x.slab].(free := [])] == p.slabs;
    assert Reverse(SlotsAt(x.slab, [x.k][..1])) == [x];
  }

  // The slab a refill takes from: the first partial, warm or cold one, else a new one.
  ghost predicate FromSlab(p: Pool, q: Pool, s: SlabId) {
    && (if p.partial != [] then s == p.partial[0]
        else if p.warm != [] then s == p.warm[0]
        else if p.cold != [] then s == p.cold[0]
        else s !in p.slabs)
    && (s in p.slabs ==> q.nextPage == p.nextPage)
  }

  lemma MadeFrom(c: SizeClass, p: Pool, out: set<Slot>, hidden: set<Slot>, got: Option<nat>)
    requires PoolInv(c, p, out, hidden) && FreshOk(p, got) && Indexed(p) && p.partial == []
    requires SlabNew(c, p, got).Some?
    ensures var (q, s) := SlabNew(c, p, got).value; FromSlab(p, q, s) && s in q.slabs
  {
    if p.warm == [] && p.cold == [] { CutIsNew(c, p, out, hidden, got); }
  }

  // One slab gave the whole batch, which is as large as wanted unless the slab has no free slot left.
  ghost predicate Sourced(p: Pool, t: Taken, want: nat) {
    t.batch != [] ==>
      && var s := t.batch[0].slab;
      && (forall x :: x in t.batch ==> x.slab == s) && s in t.pool.slabs && FromSlab(p, t.pool, s)
      && (|t.batch| < want ==> t.pool.slabs[s].free == [])
  }

  lemma BatchFrom(p: Pool, want: nat)
    requires p.partial != [] && p.partial[0] in p.slabs
    ensures var t := Take(p, want);
            && (forall x :: x in t.batch ==> x.slab == p.partial[0]) && p.partial[0] in t.pool.slabs
            && (|t.batch| < want ==> t.pool.slabs[p.partial[0]].free == []) && t.pool.nextPage == p.nextPage
  {}

  lemma SourceFrom(p: Pool, q: Pool, want: nat)
    requires q.partial != [] && q.partial[0] in q.slabs && FromSlab(p, q, q.partial[0])
    ensures Sourced(p, Take(q, want), want)
  {
    BatchFrom(q, want);
  }

  /** Where a refill's batch comes from: one slab; the first partial one, else the first
      warm one, else the first cold one, else a new one, and only then is a slab cut.
      The batch is as large as wanted, or the slab has no free slot left. */
  lemma RefillSource(c: SizeClass, p: Pool, out: set<Slot>, hidden: set<Slot>, want: nat, got: Option<nat>)
    requires PoolInv(c, p, out, hidden) && FreshOk(p, got) && want >= 1
    ensures Indexed(p) && (p.partial != [] ==> p.partial[0] in p.slabs)
    ensures Sourced(p, Refill(c, p, want, got), want)
  {
    IndexedOk(c, p, out, hidden);
    if p.partial != [] {
      SourceFrom(p, p, want);
    } else {
      var r := SlabNew(c, p, got);
      if r.Some? {
        MadeFrom(c, p, out, hidden, got);
        SourceFrom(p, Push(r.value.0, r.value.1), want);
      }
      MadeOrFails(c, p, want, got, r);
    }
  }

  // A slab cut at a bump pointer is in no pool yet.
  lemma CutIsNew(c: SizeClass, p: Pool, out: set<Slot>, hidden: set<Slot>, got: Option<nat>)
    requires PoolInv(c, p, out, hidden) && FreshOk(p, got) && Indexed(p) && p.warm == [] && p.cold == []
    requires SlabNew(c, p, got).Some?
    ensures SlabNew(c, p, got).value.1 !in p.slabs
  {
    var s := SlabNew(c, p, got).value.1;
    assert !Carved(c.run, p.nextPage, s);
  }

  // ---- consequences ----

  /** Outside mesh mode a slab is on the partial list exactly when it is partly
      free, and on exactly one empty list exactly when it is entirely free. */
  lemma PartialIffPartlyFree(c: SizeClass, p: Pool, out: set<Slot>, s: SlabId)
    requires PoolInv(c, p, out, {}) && s in p.slabs && !p.slabs[s].retired
    ensures s in p.partial <==> 0 < |p.slabs[s].free| < c.slots
    ensures (s in p.warm || s in p.cold) <==> |p.slabs[s].free| == c.slots
    ensures !(s in p.warm && s in p.cold)
  {
    assert Placed(c.slots, p, {}, s);
  }

  /** Outside mesh mode a pool with nothing outstanding owns nothing at all. */
  lemma IdlePoolIsEmpty(c: SizeClass, p: Pool)
    requires PoolInv(c, p, {}, {}) && forall s :: s in p.slabs ==> !p.slabs[s].retired
    ensures p.chunks == [] && p.partial == [] && p.warm == [] && p.cold == []
    ensures p.slabs == map[] && p.outstanding == 0 && p.active == None
  {
    forall s | s in p.slabs ensures s in p.warm || s in p.cold {
      assert Placed(c.slots, p, {}, s);
      assert SlabParts(c.slots, s, p.slabs[s].free, {}, {});
      forall k: nat | k < c.slots ensures k in p.slabs[s].free {
        assert OnePlace(p.slabs[s].free, Slot(s, k), {}, {});
      }
      Pigeonhole(p.slabs[s].free, c.slots);
    }
    forall k ensures k !in p.live {
      assert LiveSlabs(p, k) == {};
    }
    NoLiveNoChunks(c, p);
  }

  lemma NoLiveNoChunks(c: SizeClass, p: Pool)
    requires c.Valid() && Shape(c, p) && Lists(p) && forall k :: k !in p.live
    ensures p.chunks == [] && p.partial == [] && p.warm == [] && p.cold == []
    ensures p.slabs == map[] && p.active == None
  {
    HasFirst(p.chunks);
    forall s ensures s !in p.slabs { assert s in p.slabs ==> Carved(c.run, p.nextPage, s); }
    HasFirst(p.partial);
    HasFirst(p.warm);
    HasFirst(p.cold);
  }

  // ---- meshing ----

  /** Two slabs whose occupied slots do not overlap. */
  ghost predicate Meshable(c: SizeClass, p: Pool, r: SlabId, d: SlabId) {
    && c.Valid() && r != d && r in p.partial && d in p.partial && r in p.slabs && d in p.slabs
    && forall k: nat :: k < c.slots ==> k in p.slabs[r].free || k in p.slabs[d].free
  }

  lemma BothFreeElems(c: SizeClass, p: Pool, r: SlabId, d: SlabId)
    requires c.Valid() && r in p.slabs && d in p.slabs
    ensures var b := BothFree(c, p, r, d);
            NoDup(b) && forall k: nat :: k in b <==> k < c.slots && k in p.slabs[r].free && k in p.slabs[d].free
  {
    var all := Iota(c.slots);
    var drop := set k | k in all && !(k in p.slabs[r].free && k in p.slabs[d].free);
    WithoutNoDup(all, drop);
    WithoutElems(all, drop);
    forall k: nat ensures k in all <==> k < c.slots { BelowIff(c.slots, k); }
  }

  lemma MeshParts(c: SizeClass, p: Pool, out: set<Slot>, hidden: set<Slot>, r: SlabId, d: SlabId)
    requires Meshable(c, p, r, d) && Partitioned(c.slots, p.slabs, out, hidden)
    ensures SlabParts(c.slots, r, BothFree(c, p, r, d), out, hidden + DonorHeld(c, p, r, d))
  {
    BothFreeElems(c, p, r, d);
    var b := BothFree(c, p, r, d);
    assert SlabParts(c.slots, r, p.slabs[r].free, out, hidden);
    forall i | 0 <= i < |b| ensures b[i] < c.slots { assert b[i] in b; }
    forall k: nat | k < c.slots
      ensures OnePlace(b, Slot(r, k), out, hidden + DonorHeld(c, p, r, d))
    {
      assert OnePlace(p.slabs[r].free, Slot(r, k), out, hidden);
    }
  }

  lemma OtherHidden(n: nat, u: SlabId, f: seq<nat>, out: set<Slot>, hidden: set<Slot>, hidden': set<Slot>)
    requires SlabParts(n, u, f, out, hidden)
    requires forall x: Slot :: x.slab == u ==> (x in hidden' <==> x in hidden)
    ensures SlabParts(n, u, f, out, hidden')
  {
    forall k: nat | k < n ensures OnePlace(f, Slot(u, k), out, hidden') {
      assert OnePlace(f, Slot(u, k), out, hidden);
    }
  }

  lemma MeshCore(c: SizeClass, p: Pool, out: set<Slot>, hidden: set<Slot>, r: SlabId, d: SlabId)
    requires PoolInv(c, p, out, hidden) && Meshable(c, p, r, d)
    ensures Core(c, Mesh(c, p, r, d), out, hidden + DonorHeld(c, p, r, d))
  {
    var q, h := Mesh(c, p, r, d), hidden + DonorHeld(c, p, r, d);
    assert q.slabs.Keys == p.slabs.Keys;
    MeshParts(c, p, out, hidden, r, d);
    forall u | u in q.slabs ensures SlabParts(c.slots, u, q.slabs[u].free, out, h) {
      if u != r { OtherHidden(c.slots, u, p.slabs[u].free, out, hidden, h); }
    }
    WithoutNoDup(p.partial, {d});
    WithoutElems(p.partial, {d});
    ShapeSame(c, p, q);
    CountedSame(p, q);
  }

  // The donor holds something, so the recipient loses something and cannot become entirely free.
  lemma MeshLoses(c: SizeClass, p: Pool, out: set<Slot>, hidden: set<Slot>, r: SlabId, d: SlabId)
    requires PoolInv(c, p, out, hidden) && Meshable(c, p, r, d)
    ensures HasHidden(DonorHeld(c, p, r, d), r)
    ensures |BothFree(c, p, r, d)| < c.slots
  {
    assert Placed(c.slots, p, hidden, d);
    assert SlabParts(c.slots, d, p.slabs[d].free, out, hidden);
    Pigeonhole(p.slabs[d].free, c.slots);
    var k: nat :| k < c.slots && k !in p.slabs[d].free;
    assert Slot(r, k) in DonorHeld(c, p, r, d);
    BothFreeElems(c, p, r, d);
    var b := BothFree(c, p, r, d);
    forall i | 0 <= i < |b| ensures b[i] < c.slots { assert b[i] in b; }
    Pigeonhole(b, c.slots);
  }

  /** Meshing keeps the invariant, with the recipient's slots that now hold donor
      objects added to those hidden. */
  lemma MeshInv(c: SizeClass, p: Pool, out: set<Slot>, hidden: set<Slot>, r: SlabId, d: SlabId)
    requires PoolInv(c, p, out, hidden) && Meshable(c, p, r, d)
    ensures PoolInv(c, Mesh(c, p, r, d), out, hidden + DonorHeld(c, p, r, d))
  {
    MeshCore(c, p, out, hidden, r, d);
    MeshLoses(c, p, out, hidden, r, d);
    WithoutElems(p.partial, {d});
    var q, h := Mesh(c, p, r, d), hidden + DonorHeld(c, p, r, d);
    assert HasHidden(h, r);
    forall t | t in q.slabs ensures Placed(c.slots, q, h, t) {
      assert Placed(c.slots, p, hidden, t);
      assert t != r ==> (HasHidden(h, t) <==> HasHidden(hidden, t));
    }
  }

  // ---- what happens to retired slabs ----

  /** Retired slabs stay, and no slab changes its retired flag. */
  ghost predicate RetiredKept(p: Pool, q: Pool) {
    && (forall t :: t in p.slabs && p.slabs[t].retired ==> t in q.slabs)
    && (forall t :: t in p.slabs && t in q.slabs ==> q.slabs[t].retired == p.slabs[t].retired)
  }

  lemma SlabNewRetiredKept(c: SizeClass, p: Pool, out: set<Slot>, hidden: set<Slot>, got: Option<nat>)
    requires PoolInv(c, p, out, hidden) && FreshOk(p, got) && Indexed(p) && SlabNew(c, p, got).Some?
    ensures RetiredKept(p, SlabNew(c, p, got).value.0)
  {
    var (q, s) := SlabNew(c, p, got).value;
    if p.warm != [] || p.cold != [] {
      assert Placed(c.slots, p, hidden, s);
    } else if !NeedsChunk(c, p) {
      CarveShape(c, p, p.active.value);
    } else {
      AddChunkShape(c, p, got.value);
    }
  }

  lemma TakeRetiredKept(p: Pool, q: Pool, want: nat)
    requires q.partial != [] && q.partial[0] in q.slabs && RetiredKept(p, q)
    ensures RetiredKept(p, Take(q, want).pool)
  {}

  lemma RefillRetiredKept(c: SizeClass, p: Pool, out: set<Slot>, hidden: set<Slot>, want: nat, got: Option<nat>)
    requires PoolInv(c, p, out, hidden) && FreshOk(p, got) && Indexed(p)
    requires p.partial != [] ==> p.partial[0] in p.slabs
    ensures RetiredKept(p, Refill(c, p, want, got).pool)
  {
    if p.partial != [] {
      TakeRetiredKept(p, p, want);
      return;
    }
    var r := SlabNew(c, p, got);
    match r
    case None => MadeOrFails(c, p, want, got, r);
    case Some((q, s)) =>
      MadeRetiredKept(c, p, q, s, out, hidden, got);
      TakeRetiredKept(p, Push(q, s), want);
      MadeOrFails(c, p, want, got, r);
  }

  lemma MadeRetiredKept(c: SizeClass, p: Pool, q: Pool, s: SlabId, out: set<Slot>, hidden: set<Slot>, got: Option<nat>)
    requires PoolInv(c, p, out, hidden) && FreshOk(p, got) && Indexed(p) && SlabNew(c, p, got) == Some((q, s))
    ensures RetiredKept(p, Push(q, s)) && s in q.slabs
  {
    SlabNewRetiredKept(c, p, out, hidden, got);
    SlabNewUnplaced(c, p, got, out, hidden);
  }

  lemma DrainedNoRetired(c: SizeClass, p: Pool, out: set<Slot>, hidden: set<Slot>, s: SlabId, t: SlabId)
    requires Drained(c, p, out, hidden, s) && s.chunk in p.live && p.live[s.chunk] == 1
    requires t in p.slabs && t.chunk == s.chunk
    ensures !p.slabs[t].retired
  {
    LastLiveIdle(c, p, out, hidden, s);
    assert t != s ==> Placed(c.slots, p, hidden, t);
  }

  lemma DropRetiredKept(p: Pool, s: SlabId)
    requires s.chunk in p.live && p.live[s.chunk] > 0
    requires p.live[s.chunk] == 1 ==> forall t :: t in p.slabs && t.chunk == s.chunk ==> !p.slabs[t].retired
    ensures RetiredKept(p, BecameFree(p, s).pool)
  {}

  lemma DisposeRetiredKept(c: SizeClass, p: Pool, out: set<Slot>, hidden: set<Slot>, s: SlabId)
    requires Drained(c, p, out, hidden, s) && s.chunk in p.live && p.live[s.chunk] > 0
    ensures RetiredKept(p, BecameFree(p, s).pool)
  {
    if p.live[s.chunk] == 1 {
      forall t | t in p.slabs && t.chunk == s.chunk ensures !p.slabs[t].retired {
        DrainedNoRetired(c, p, out, hidden, s, t);
      }
    }
    DropRetiredKept(p, s);
  }

  lemma FreeRetiredKept(c: SizeClass, p: Pool, out: set<Slot>, hidden: set<Slot>, x: Slot)
    requires PoolInv(c, p, out, hidden) && x in out
    requires x.slab in p.slabs && x.slab.chunk in p.live && p.live[x.slab.chunk] > 0
    ensures RetiredKept(p, FreeSlot(c, p, x).pool)
  {
    assert RetiredKept(p, Return(p, x));
    if !p.slabs[x.slab].retired && |p.slabs[x.slab].free| + 1 == c.slots {
      ReturnDrained(c, p, out, hidden, x);
      DisposeRetiredKept(c, Return(p, x), out - {x}, hidden, x.slab);
    }
  }
}
