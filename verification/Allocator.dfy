/** All pools and the chunk lifecycle together: any number of threads allocating
    from any number of (partition, size class) pools, with chunks travelling
    between them. */
module Allocator {
  import opened Seqs
  import opened Geometry
  import opened PoolSpec
  import opened PoolProofs
  import opened Aliasing
  import P = PoolThreads
  import C = Lifecycle

  datatype PoolId = PoolId(part: nat, sc: nat)

  // `owner` is what a chunk's header says: the partition and class it was last linked to.
  datatype State = State(pools: map<PoolId, P.State>, life: C.State, owner: map<nat, PoolId>)

  const INIT := State(map[], C.INIT, map[])

  function PoolOf(s: State, id: PoolId): P.State {
    if id in s.pools then s.pools[id] else P.INIT
  }

  function Live(s: State, id: PoolId): set<nat> {
    PoolOf(s, id).pool.live.Keys
  }

  datatype Step =
    | Chunk(move: C.Step)                           // a step of the chunk protocol alone
    | Slots(id: PoolId, act: P.Step, sync: Option<nat>)   // a step on one pool; `sync` picks the disposal route

  // The lifecycle thread that executes a pool step of thread t; 0 is the maintenance thread.
  function Actor(t: nat): nat { t + 1 }

  // A refill that links a chunk takes it from the thread's hand, and does so only when one is needed.
  ghost predicate Links(s: State, id: PoolId, a: P.Step, s': State)
    requires a.Refill? && a.got.Some? && id.sc < NUM_CLASSES
  {
    var p := PoolOf(s, id).pool;
    && p.partial == [] && (p.active.Some? ==> p.active.value in p.nextPage) && NeedsChunk(ClassOf(id.sc), p)
    && C.HandOf(s.life, Actor(a.t)) == C.Carrying(a.got.value)
    && s'.life == C.Next(s.life, C.Deliver(Actor(a.t))) && s'.owner == s.owner[a.got.value := id]
  }

  // A free that drains a chunk hands it on by one of the two routes.
  ghost predicate Disposes(s: State, k: nat, sync: Option<nat>, s': State) {
    var d := if sync.Some? then C.DisposeSync(sync.value, k) else C.DisposeAsync(k);
    C.Enabled(s.life, d) && s'.life == C.Next(s.life, d) && s'.owner == s.owner
  }

  ghost predicate Untouched(s: State, s': State) {
    s'.life == s.life && s'.owner == s.owner
  }

  ghost predicate Follows(s: State, id: PoolId, a: P.Step, sync: Option<nat>, q: P.State, s': State)
    requires id.sc < NUM_CLASSES
  {
    if a.Refill? && a.got.Some? then Links(s, id, a, s')
    else if (a.Flush? || a.FreeOne?) && q.pool.live.Keys != Live(s, id) then
      exists k :: k in Live(s, id) && q.pool.live.Keys == Live(s, id) - {k} && Disposes(s, k, sync, s')
    else Untouched(s, s')
  }

  // A step of the chunk protocol that involves no pool; map_fresh places chunks aligned.
  ghost predicate Alone(a: C.Step) {
    !a.Deliver? && !a.DisposeAsync? && !a.DisposeSync? && (a.Map? ==> ChunkBaseOk(a.c))
  }

  ghost predicate Next(s: State, a: Step, s': State) {
    match a
    case Chunk(b) => C.Enabled(s.life, b) && Alone(b) && s' == s.(life := C.Next(s.life, b))
    case Slots(id, b, sync) =>
      id.sc < NUM_CLASSES && exists q ::
        && P.Next(ClassOf(id.sc), CacheMax(id.sc), PoolOf(s, id), b, q)
        && s'.pools == s.pools[id := q] && Follows(s, id, b, sync, q, s')
  }

  ghost predicate StepAt(ss: seq<State>, acts: seq<Step>, i: nat)
    requires i < |acts| && |ss| == |acts| + 1
  {
    Next(ss[i], acts[i], ss[i + 1])
  }

  ghost predicate Run(ss: seq<State>, acts: seq<Step>) {
    && |ss| == |acts| + 1 && ss[0] == INIT
    && forall i: nat {:trigger StepAt(ss, acts, i)} :: i < |acts| ==> StepAt(ss, acts, i)
  }

  // ---- invariant ----

  ghost predicate PoolOk(s: State, id: PoolId) {
    id.sc < NUM_CLASSES ==> P.Inv(ClassOf(id.sc), CacheMax(id.sc), PoolOf(s, id))
  }

  ghost predicate PoolsOk(s: State) {
    forall id {:trigger PoolOk(s, id)} :: PoolOk(s, id)
  }

  ghost predicate OnlyClasses(s: State) {
    forall id :: id in s.pools ==> id.sc < NUM_CLASSES
  }

  /** A chunk is in a pool exactly if the lifecycle says it is pooled, and then its
      header names that pool. */
  ghost predicate Owned(s: State) {
    LiveOwned(s) && PooledKnown(s)
  }

  ghost predicate LiveOwned(s: State) {
    forall id, k :: k in Live(s, id) ==> k in s.life.pooled && k in s.owner && s.owner[k] == id
  }

  ghost predicate PooledKnown(s: State) {
    forall k :: k in s.life.pooled ==> k in s.owner && k in Live(s, s.owner[k])
  }

  ghost predicate BasesOk(s: State) {
    forall k :: k in s.life.mapped ==> ChunkBaseOk(k)
  }

  ghost predicate Inv(s: State) {
    PoolsOk(s) && OnlyClasses(s) && C.Inv(s.life) && Owned(s) && BasesOk(s)
  }

  lemma InitInv()
    ensures Inv(INIT)
  {
    C.InitInv();
    forall id ensures PoolOk(INIT, id) {
      if id.sc < NUM_CLASSES {
        TableValid(id.sc);
        P.InitInv(ClassOf(id.sc), CacheMax(id.sc));
      }
    }
  }

  lemma InHandOnly(l: C.State, t: nat, k: nat)
    requires C.Inv(l) && C.Holds(C.HandOf(l, t), k)
    ensures k !in l.pooled && k in l.mapped
  {
    assert C.At(l, k, C.InHand(t));
    assert C.At(l, k, C.InPool) || !C.At(l, k, C.InPool);
  }

  /** The chunk a thread has obtained is in no pool, so every refill may link it. */
  lemma CarriedIsFresh(s: State, id: PoolId, t: nat)
    requires C.Inv(s.life) && Owned(s) && BasesOk(s) && C.HandOf(s.life, t).Carrying?
    ensures FreshOk(PoolOf(s, id).pool, Some(C.HandOf(s.life, t).c))
  {
    var k := C.HandOf(s.life, t).c;
    InHandOnly(s.life, t, k);
    assert k in Live(s, id) || k !in Live(s, id);
  }

  // ---- what a pool step does to the pool's chunks ----

  lemma FreeLive(c: SizeClass, p: Pool, x: Slot, r: Freed)
    requires Frees(c, p, x, r)
    ensures r.pool.live.Keys == if r.disposed.Some? then p.live.Keys - {r.disposed.value} else p.live.Keys
    ensures r.disposed.Some? ==> r.disposed.value in p.live
  {}

  lemma NewLive(c: SizeClass, p: Pool, got: Option<nat>)
    requires c.Valid() && Indexed(p)
    ensures SlabNew(c, p, got).Some? ==>
              SlabNew(c, p, got).value.0.live.Keys ==
                if p.warm == [] && p.cold == [] && NeedsChunk(c, p) then p.live.Keys + {got.value} else p.live.Keys
  {
    if p.warm != [] {
      assert p.warm[0] in p.warm;
    } else if p.cold != [] {
      assert p.cold[0] in p.cold;
    }
  }

  lemma RefillLive(c: SizeClass, p: Pool, want: nat, got: Option<nat>, t: Taken)
    requires Refills(c, p, want, got, t)
    ensures got.None? ==> t.pool.live.Keys == p.live.Keys
    ensures got.Some? && p.partial == [] && NeedsChunk(c, p) ==> t.pool.live.Keys == p.live.Keys + {got.value}
  {
    NewLive(c, p, got);
  }

  // The chunks of the pool after a step that links or disposes none.
  lemma PlainLive(c: SizeClass, cap: nat, s: P.State, a: P.Step, s': P.State)
    requires P.Next(c, cap, s, a, s') && c.Valid() && !(a.Refill? && a.got.Some?) && !a.Flush? && !a.FreeOne?
    requires a.MeshPair? ==> a.r in s.pool.slabs && a.d in s.pool.slabs
    ensures s'.pool.live.Keys == s.pool.live.Keys
  {
    if a.Refill? {
      var r :| Refills(c, s.pool, P.Want(cap), a.got, r) && s' == P.DoRefill(s, a.t, r);
      RefillLive(c, s.pool, P.Want(cap), a.got, r);
    }
  }

  lemma LinkLive(c: SizeClass, cap: nat, s: P.State, a: P.Step, s': P.State)
    requires P.Next(c, cap, s, a, s') && a.Refill? && a.got.Some?
    requires s.pool.partial == [] && (s.pool.active.Some? ==> s.pool.active.value in s.pool.nextPage)
    requires NeedsChunk(c, s.pool)
    ensures s'.pool.live.Keys == s.pool.live.Keys + {a.got.value}
  {
    var r :| Refills(c, s.pool, P.Want(cap), a.got, r) && s' == P.DoRefill(s, a.t, r);
    RefillLive(c, s.pool, P.Want(cap), a.got, r);
  }

  /** A free changes the pool's chunks only by disposing one. */
  lemma FreesLive(c: SizeClass, cap: nat, s: P.State, a: P.Step, s': P.State)
    requires P.Next(c, cap, s, a, s') && (a.Flush? || a.FreeOne?)
    ensures s'.pool.live.Keys == s.pool.live.Keys ||
            exists k :: k in s.pool.live && s'.pool.live.Keys == s.pool.live.Keys - {k}
  {
    var x := if a.Flush? then P.Held(s, P.Bin(a.t))[0] else P.Held(s, P.User)[a.i];
    if a.Flush? {
      var r :| Frees(c, s.pool, x, r) && s' == P.DoFlush(s, a.t, P.PhaseOf(s, a.t).keep, r);
      FreeLive(c, s.pool, x, r);
    } else {
      var r :| Frees(c, s.pool, x, r) && s' == P.DoFreeOne(s, a.i, r);
      FreeLive(c, s.pool, x, r);
    }
  }

  // ---- every step keeps the invariant ----

  lemma PoolsKept(s: State, id: PoolId, a: P.Step, q: P.State, s': State)
    requires PoolsOk(s) && id.sc < NUM_CLASSES && P.Next(ClassOf(id.sc), CacheMax(id.sc), PoolOf(s, id), a, q)
    requires s'.pools == s.pools[id := q]
    ensures PoolsOk(s')
  {
    assert PoolOk(s, id);
    P.StepInv(ClassOf(id.sc), CacheMax(id.sc), PoolOf(s, id), a, q);
    forall j ensures PoolOk(s', j) {
      if j != id {
        assert PoolOk(s, j);
        PoolElsewhere(s, s', id, q, j);
      }
    }
  }

  lemma PoolElsewhere(s: State, s': State, id: PoolId, q: P.State, j: PoolId)
    requires s'.pools == s.pools[id := q] && j != id
    ensures PoolOf(s', j) == PoolOf(s, j)
  {}

  // Nothing moved between the pools and the lifecycle.
  lemma OwnedSame(s: State, s': State)
    requires Owned(s) && s'.life.pooled == s.life.pooled && s'.owner == s.owner
    requires forall id :: Live(s', id) == Live(s, id)
    ensures Owned(s')
  {}

  lemma OwnedLinked(s: State, id: PoolId, k: nat, s': State)
    requires Owned(s) && k !in s.life.pooled && s'.life.pooled == s.life.pooled + {k} && s'.owner == s.owner[k := id]
    requires forall j :: Live(s', j) == if j == id then Live(s, j) + {k} else Live(s, j)
    ensures Owned(s')
  {}

  lemma OwnedDisposed(s: State, id: PoolId, k: nat, s': State)
    requires Owned(s) && k in Live(s, id) && s'.life.pooled == s.life.pooled - {k} && s'.owner == s.owner
    requires forall j :: Live(s', j) == if j == id then Live(s, j) - {k} else Live(s, j)
    ensures Owned(s')
  {
    LiveDisposed(s, id, k, s');
    PooledDisposed(s, id, k, s');
  }

  lemma LiveDisposed(s: State, id: PoolId, k: nat, s': State)
    requires LiveOwned(s) && k in Live(s, id) && s'.life.pooled == s.life.pooled - {k} && s'.owner == s.owner
    requires forall j :: Live(s', j) == if j == id then Live(s, j) - {k} else Live(s, j)
    ensures LiveOwned(s')
  {
    assert s.owner[k] == id;
    forall j, i | i in Live(s', j) ensures i in s'.life.pooled && i in s'.owner && s'.owner[i] == j {
      assert i in Live(s, j);
    }
  }

  lemma PooledDisposed(s: State, id: PoolId, k: nat, s': State)
    requires PooledKnown(s) && s'.life.pooled == s.life.pooled - {k} && s'.owner == s.owner
    requires forall j :: Live(s', j) == if j == id then Live(s, j) - {k} else Live(s, j)
    ensures PooledKnown(s')
  {
    forall i | i in s'.life.pooled ensures i in s'.owner && i in Live(s', s'.owner[i]) {
      assert i in s.owner && i in Live(s, s.owner[i]);
    }
  }

  lemma ChunkStepInv(s: State, b: C.Step)
    requires Inv(s) && C.Enabled(s.life, b) && Alone(b)
    ensures Inv(s.(life := C.Next(s.life, b)))
  {
    var s' := s.(life := C.Next(s.life, b));
    C.StepInv(s.life, b);
    forall id ensures Live(s', id) == Live(s, id) {}
    forall id ensures PoolOk(s', id) { assert PoolOk(s, id) && PoolOf(s', id) == PoolOf(s, id); }
    OwnedSame(s, s');
  }

  lemma LiveAfter(s: State, id: PoolId, q: P.State, s': State, j: PoolId)
    requires s'.pools == s.pools[id := q]
    ensures Live(s', j) == if j == id then q.pool.live.Keys else Live(s, j)
  {}

  // The chunks after a pool step: one is linked, one is disposed, or none moves.

  lemma LinkOwned(s: State, id: PoolId, a: P.Step, q: P.State, s': State)
    requires C.Inv(s.life) && Owned(s) && id.sc < NUM_CLASSES && a.Refill? && a.got.Some?
    requires P.Next(ClassOf(id.sc), CacheMax(id.sc), PoolOf(s, id), a, q)
    requires s'.pools == s.pools[id := q] && Links(s, id, a, s')
    ensures Owned(s') && C.Inv(s'.life) && s'.life.mapped == s.life.mapped
  {
    var k, t := a.got.value, Actor(a.t);
    forall j ensures Live(s', j) == if j == id then q.pool.live.Keys else Live(s, j) { LiveAfter(s, id, q, s', j); }
    LinkLive(ClassOf(id.sc), CacheMax(id.sc), PoolOf(s, id), a, q);
    InHandOnly(s.life, t, k);
    C.StepInv(s.life, C.Deliver(t));
    OwnedLinked(s, id, k, s');
  }

  lemma DisposeOwned(s: State, id: PoolId, q: P.State, k: nat, sync: Option<nat>, s': State)
    requires C.Inv(s.life) && Owned(s) && s'.pools == s.pools[id := q]
    requires k in Live(s, id) && q.pool.live.Keys == Live(s, id) - {k} && Disposes(s, k, sync, s')
    ensures Owned(s') && C.Inv(s'.life) && s'.life.mapped == s.life.mapped
  {
    forall j ensures Live(s', j) == if j == id then q.pool.live.Keys else Live(s, j) { LiveAfter(s, id, q, s', j); }
    C.StepInv(s.life, if sync.Some? then C.DisposeSync(sync.value, k) else C.DisposeAsync(k));
    OwnedDisposed(s, id, k, s');
  }

  lemma PlainOwned(s: State, id: PoolId, q: P.State, s': State)
    requires C.Inv(s.life) && Owned(s) && s'.pools == s.pools[id := q] && q.pool.live.Keys == Live(s, id)
    requires Untouched(s, s')
    ensures Owned(s') && C.Inv(s'.life) && s'.life.mapped == s.life.mapped
  {
    forall j ensures Live(s', j) == Live(s, j) { LiveAfter(s, id, q, s', j); }
    OwnedSame(s, s');
  }

  lemma SlotsOwned(s: State, id: PoolId, a: P.Step, sync: Option<nat>, q: P.State, s': State)
    requires C.Inv(s.life) && Owned(s) && id.sc < NUM_CLASSES
    requires P.Next(ClassOf(id.sc), CacheMax(id.sc), PoolOf(s, id), a, q)
    requires s'.pools == s.pools[id := q] && Follows(s, id, a, sync, q, s')
    ensures Owned(s') && C.Inv(s'.life) && s'.life.mapped == s.life.mapped
  {
    if a.Refill? && a.got.Some? {
      LinkOwned(s, id, a, q, s');
    } else if (a.Flush? || a.FreeOne?) && q.pool.live.Keys != Live(s, id) {
      var k :| k in Live(s, id) && q.pool.live.Keys == Live(s, id) - {k} && Disposes(s, k, sync, s');
      DisposeOwned(s, id, q, k, sync, s');
    } else {
      if !a.Flush? && !a.FreeOne? { PlainStep(id, PoolOf(s, id), a, q); }
      PlainOwned(s, id, q, s');
    }
  }

  lemma PlainStep(id: PoolId, p: P.State, a: P.Step, q: P.State)
    requires id.sc < NUM_CLASSES && P.Next(ClassOf(id.sc), CacheMax(id.sc), p, a, q)
    requires !(a.Refill? && a.got.Some?) && !a.Flush? && !a.FreeOne?
    ensures q.pool.live.Keys == p.pool.live.Keys
  {
    TableValid(id.sc);
    PlainLive(ClassOf(id.sc), CacheMax(id.sc), p, a, q);
  }

  /** Every step of any thread on any pool, and of the chunk protocol, keeps the
      invariant of the whole allocator. */
  lemma StepInv(s: State, a: Step, s': State)
    requires Inv(s) && Next(s, a, s')
    ensures Inv(s')
  {
    match a
    case Chunk(b) => ChunkStepInv(s, b);
    case Slots(id, b, sync) =>
      var q :| P.Next(ClassOf(id.sc), CacheMax(id.sc), PoolOf(s, id), b, q)
               && s'.pools == s.pools[id := q] && Follows(s, id, b, sync, q, s');
      PoolsKept(s, id, b, q, s');
      SlotsOwned(s, id, b, sync, q, s');
  }

  lemma StepAtInv(ss: seq<State>, acts: seq<Step>, i: nat)
    requires i < |acts| && |ss| == |acts| + 1 && StepAt(ss, acts, i) && Inv(ss[i])
    ensures Inv(ss[i + 1])
  {
    StepInv(ss[i], acts[i], ss[i + 1]);
  }

  lemma {:induction false} RunInv(ss: seq<State>, acts: seq<Step>, n: nat)
    requires Run(ss, acts) && n < |ss|
    ensures Inv(ss[n])
  {
    if n == 0 {
      InitInv();
    } else {
      RunInv(ss, acts, n - 1);
      StepAtInv(ss, acts, n - 1);
    }
  }

  // A free whose pool half is possible, with the chunk it disposes if there is one.
  lemma FreeGoesOn(s: State, id: PoolId, a: P.Step, q: P.State, s': State)
    requires id.sc < NUM_CLASSES && P.Next(ClassOf(id.sc), CacheMax(id.sc), PoolOf(s, id), a, q)
    requires (a.Flush? || a.FreeOne?)
    requires s'.pools == s.pools[id := q] && Follows(s, id, a, None, q, s')
    ensures Next(s, Slots(id, a, None), s')
  {}

  /** The chunk protocol never blocks a free: whatever the pool half does, a chunk it
      drains can be handed to the maintenance thread. */
  lemma FreeNeverBlocked(s: State, id: PoolId, a: P.Step, q: P.State)
    requires Inv(s) && id.sc < NUM_CLASSES && P.Next(ClassOf(id.sc), CacheMax(id.sc), PoolOf(s, id), a, q)
    requires a.Flush? || a.FreeOne?
    ensures exists s' :: Next(s, Slots(id, a, None), s') && PoolOf(s', id) == q
  {
    FreesLive(ClassOf(id.sc), CacheMax(id.sc), PoolOf(s, id), a, q);
    var s' := FreeNext(s, id, q);
    FreeGoesOn(s, id, a, q, s');
    assert PoolOf(s', id) == q;
  }

  lemma FreeNext(s: State, id: PoolId, q: P.State) returns (s': State)
    requires Inv(s) && id.sc < NUM_CLASSES
    requires q.pool.live.Keys != Live(s, id) ==> exists k :: k in Live(s, id) && q.pool.live.Keys == Live(s, id) - {k}
    ensures s'.pools == s.pools[id := q]
    ensures if q.pool.live.Keys == Live(s, id) then Untouched(s, s')
            else exists k :: k in Live(s, id) && q.pool.live.Keys == Live(s, id) - {k} && Disposes(s, k, None, s')
  {
    s' := s.(pools := s.pools[id := q]);
    if q.pool.live.Keys != Live(s, id) {
      var k :| k in Live(s, id) && q.pool.live.Keys == Live(s, id) - {k};
      LiveDisposable(s, id, k);
      s' := s'.(life := C.Next(s.life, C.DisposeAsync(k)));
      assert Disposes(s, k, None, s');
    }
  }

  lemma LiveDisposable(s: State, id: PoolId, k: nat)
    requires Inv(s) && k in Live(s, id)
    ensures C.Enabled(s.life, C.DisposeAsync(k))
  {
    assert k in s.life.pooled;
  }

  // ---- what every run guarantees ----

  ghost predicate HeldIn(s: State, id: PoolId, x: Slot) {
    id.sc < NUM_CLASSES && x in P.Out(PoolOf(s, id))
  }

  lemma HeldChunk(s: State, id: PoolId, x: Slot)
    requires PoolsOk(s) && HeldIn(s, id, x)
    ensures SlotOk(ClassOf(id.sc), x) && x.slab.chunk in Live(s, id)
    ensures SlotOk(ClassOf(id.sc), Backing(PoolOf(s, id).alias, x))
    ensures Backing(PoolOf(s, id).alias, x).slab.chunk in Live(s, id)
  {
    var c, p := ClassOf(id.sc), PoolOf(s, id);
    var out := P.Out(p);
    assert PoolOk(s, id);
    OutSlotOk(c, p.pool, out, p.hidden, x);
    IndexedOk(c, p.pool, out, p.hidden);
    BackingHeld(c, p.pool, out, p.hidden, p.alias, x);
    OutNotFree(c, p.pool, out, p.hidden, x);
  }

  // The chunk of x is where its pool says, and its header leads back there.
  ghost predicate AtHome(s: State, id: PoolId, x: Slot, b: nat)
    requires id.sc < NUM_CLASSES
  {
    var k := x.slab.chunk;
    && k in s.life.pooled && k in s.life.mapped && k in s.life.registered
    && (forall p :: C.At(s.life, k, p) ==> p == C.InPool)
    && LeadsTo(ClassOf(id.sc), x, b, k) && k in s.owner && s.owner[k] == id
  }

  // Masking the address of byte b of x gives chunk k.
  predicate LeadsTo(c: SizeClass, x: Slot, b: nat, k: nat) {
    ChunkOf(Addr(c, x) + b) == k
  }

  lemma MaskLeads(c: SizeClass, x: Slot, b: nat)
    requires SlotOk(c, x) && b < c.size
    ensures LeadsTo(c, x, b, x.slab.chunk)
  {
    SlotBounds(c, x);
    ChunkOfInside(x.slab.chunk, Addr(c, x) + b);
  }

  lemma HeldAtHome(s: State, id: PoolId, x: Slot, b: nat)
    requires PoolsOk(s) && C.Inv(s.life) && Owned(s) && HeldIn(s, id, x) && b < SizeOf(id.sc)
    ensures AtHome(s, id, x, b)
  {
    HeldChunk(s, id, x);
    PooledSafe(s.life, x.slab.chunk);
    MaskLeads(ClassOf(id.sc), x, b);
  }

  /** In every run, the chunk of any slot in use or cached is mapped, registered
      and in no one's hands but its pool's; its header, found by masking any of
      the slot's addresses, names the pool the slot was taken from. So whichever
      thread frees the slot reads a header that is there, and returns it home. */
  lemma HeldSlotHome(ss: seq<State>, acts: seq<Step>, n: nat, id: PoolId, x: Slot, b: nat)
    requires Run(ss, acts) && n < |ss| && HeldIn(ss[n], id, x) && b < SizeOf(id.sc)
    ensures AtHome(ss[n], id, x, b)
  {
    RunInv(ss, acts, n);
    HeldAtHome(ss[n], id, x, b);
  }

  lemma PooledSafe(l: C.State, k: nat)
    requires C.Inv(l) && k in l.pooled
    ensures k in l.mapped && k in l.registered && forall p :: C.At(l, k, p) ==> p == C.InPool
  {
    assert C.At(l, k, C.InPool);
  }

  // A step never changes the header of a chunk that is and stays in a pool.
  lemma StepOwner(s: State, a: Step, s': State, k: nat)
    requires C.Inv(s.life) && Next(s, a, s') && k in s.life.pooled && k in s.owner
    ensures k in s'.owner && s'.owner[k] == s.owner[k]
  {
    if a.Slots? && a.act.Refill? && a.act.got.Some? {
      assert C.HandOf(s.life, Actor(a.act.t)) == C.Carrying(a.act.got.value);
      InHandOnly(s.life, Actor(a.act.t), a.act.got.value);
    }
  }

  /** From the moment a pool links a chunk until it disposes of it, the header
      names the same pool: every slot taken from the chunk in between was asked for
      with the chunk's partition and size class. */
  lemma {:induction false} HeaderStable(ss: seq<State>, acts: seq<Step>, m: nat, n: nat, k: nat)
    requires Run(ss, acts) && m <= n < |ss| && forall i :: m <= i <= n ==> k in ss[i].life.pooled
    ensures k in ss[m].owner && k in ss[n].owner && ss[n].owner[k] == ss[m].owner[k]
    decreases n - m
  {
    if m == n {
      PooledOwned(ss, acts, n, k);
    } else {
      HeaderStable(ss, acts, m, n - 1, k);
      PooledOwned(ss, acts, n - 1, k);
      assert StepAt(ss, acts, n - 1);
      StepOwner(ss[n - 1], acts[n - 1], ss[n], k);
    }
  }

  lemma PooledOwned(ss: seq<State>, acts: seq<Step>, n: nat, k: nat)
    requires Run(ss, acts) && n < |ss| && k in ss[n].life.pooled
    ensures k in ss[n].owner && C.Inv(ss[n].life)
  {
    RunInv(ss, acts, n);
  }

  /** A slot taken for a request of `size` bytes holds it and is 16-byte aligned. */
  lemma RequestFits(s: State, id: PoolId, x: Slot, size: nat)
    requires PoolsOk(s) && HeldIn(s, id, x) && SizeToSc(size) == Some(id.sc)
    ensures Addr(ClassOf(id.sc), x) % 16 == 0 && size <= ClassOf(id.sc).size
  {
    HeldChunk(s, id, x);
    SlotBounds(ClassOf(id.sc), x);
    SizeToScFits(size);
  }

  lemma PoolsDistinct(s: State, id: PoolId, k: nat, jd: PoolId, l: nat)
    requires Owned(s) && id != jd && k in Live(s, id) && l in Live(s, jd)
    ensures k != l
  {
    assert k in s.owner && s.owner[k] == id;
    assert l in s.owner && s.owner[l] == jd;
  }

  lemma PoolHeldApart(s: State, id: PoolId, x: Slot, y: Slot)
    requires PoolsOk(s) && HeldIn(s, id, x) && HeldIn(s, id, y) && x != y
    ensures var c, a := ClassOf(id.sc), PoolOf(s, id).alias; NoShare(c, Backing(a, x), c, Backing(a, y))
  {
    assert PoolOk(s, id);
    P.NoSharing(ClassOf(id.sc), CacheMax(id.sc), PoolOf(s, id), x, y);
  }

  /** Over the whole allocator, two different slots in use or cached never overlap ... */
  lemma HeldApart(s: State, id: PoolId, x: Slot, jd: PoolId, y: Slot)
    requires PoolsOk(s) && Owned(s) && HeldIn(s, id, x) && HeldIn(s, jd, y) && (id != jd || x != y)
    ensures NoShare(ClassOf(id.sc), x, ClassOf(jd.sc), y)
  {
    HeldChunk(s, id, x);
    HeldChunk(s, jd, y);
    if id == jd {
      SlotsApart(ClassOf(id.sc), x, y);
    } else {
      PoolsDistinct(s, id, x.slab.chunk, jd, y.slab.chunk);
      ChunksNoShare(ClassOf(id.sc), x, ClassOf(jd.sc), y);
    }
  }

  /** ... and neither do the bytes that back them. */
  lemma HeldBytesApart(s: State, id: PoolId, x: Slot, jd: PoolId, y: Slot)
    requires PoolsOk(s) && Owned(s) && HeldIn(s, id, x) && HeldIn(s, jd, y) && (id != jd || x != y)
    ensures NoShare(ClassOf(id.sc), Backing(PoolOf(s, id).alias, x), ClassOf(jd.sc), Backing(PoolOf(s, jd).alias, y))
  {
    HeldChunk(s, id, x);
    HeldChunk(s, jd, y);
    if id == jd {
      PoolHeldApart(s, id, x, y);
    } else {
      PoolsDistinct(s, id, Backing(PoolOf(s, id).alias, x).slab.chunk, jd, Backing(PoolOf(s, jd).alias, y).slab.chunk);
      ChunksNoShare(ClassOf(id.sc), Backing(PoolOf(s, id).alias, x), ClassOf(jd.sc), Backing(PoolOf(s, jd).alias, y));
    }
  }
}
