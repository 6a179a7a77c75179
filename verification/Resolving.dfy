/** Pointer resolution next to everything else: the allocator, the owner table and
    the threads' region caches step together. Registering a chunk stores its base
    in the table if its leaf is there or can be mapped, unregistering clears it, and
    a chunk is unmapped only after the generation has been bumped. */
module Resolving {
  import opened Seqs
  import opened Geometry
  import opened Registry
  import P = PoolThreads
  import A = Allocator
  import C = Lifecycle
  import R = RegionCache

  // `lost` are the registered chunks whose leaf could not be mapped.
  datatype State = State(heap: A.State, owners: R.State, lost: set<nat>)

  const INIT := State(A.INIT, R.INIT, {})

  // `leaf` is whether a registration finds or maps the leaf it needs.
  datatype Step = Heap(act: A.Step, leaf: bool) | Owners(probe: R.Step)

  // What an allocator step does to the owner table.
  function TableStep(s: State, a: A.Step, leaf: bool): R.Step {
    match a
    case Chunk(Register(t)) =>
      var h := C.HandOf(s.heap.life, t);
      if h.Fresh? && leaf then R.Insert(Region(h.c), h.c) else R.Other
    case Chunk(Unregister(t)) =>
      var h := C.HandOf(s.heap.life, t);
      if h.Trimming? && Get(s.owners.table, Region(h.c)) != 0 then R.Clear(t, Region(h.c)) else R.Other
    case _ => R.Other
  }

  function LostAfter(s: State, a: Step): set<nat> {
    match a
    case Heap(Chunk(Register(t)), leaf) =>
      var h := C.HandOf(s.heap.life, t);
      if h.Fresh? && !leaf then s.lost + {h.c} else s.lost
    case Heap(Chunk(Unregister(t)), _) =>
      var h := C.HandOf(s.heap.life, t);
      if h.Trimming? then s.lost - {h.c} else s.lost
    case _ => s.lost
  }

  // btm_registry_remove has returned before its chunk is unmapped.
  ghost predicate Bumped(s: State, a: A.Step) {
    a.Chunk? && a.move.Unmap? && C.HandOf(s.heap.life, a.move.t).Unregistered? ==>
      Region(C.HandOf(s.heap.life, a.move.t).c) !in s.owners.closing
  }

  // The step as the table and the caches see it.
  function CacheStep(s: State, a: Step): R.Step {
    match a
    case Heap(b, leaf) => TableStep(s, b, leaf)
    case Owners(b) => b
  }

  ghost predicate Next(s: State, a: Step, s': State) {
    && R.Enabled(s.owners, CacheStep(s, a)) && s'.owners == R.Next(s.owners, CacheStep(s, a))
    && s'.lost == LostAfter(s, a)
    && match a
       case Heap(b, _) => A.Next(s.heap, b, s'.heap) && Bumped(s, b)
       case Owners(b) => s'.heap == s.heap && (b.Start? || b.Look? || b.Fill? || b.Bump?)
  }

  ghost predicate StepAt(ss: seq<State>, acts: seq<Step>, i: nat)
    requires i < |acts| && |ss| == |acts| + 1
  {
    Next(ss[i], acts[i], ss[i + 1])
  }

  ghost predicate Run(ss: seq<State>, acts: seq<Step>) {
    && |ss| == |acts| + 1 && ss[0] == INIT
    && forall i: nat {:trigger StepAt(ss, acts, i)} :: i < |acts| ==> StepAt(ss, acts, i)
  }

  // ---- the table follows the registrations ----

  // What the table says of a registered chunk.
  function Word(k: nat, lost: set<nat>): nat {
    if k in lost then 0 else k
  }

  ghost predicate Tied(l: C.State, o: R.State, lost: set<nat>) {
    && (forall k :: k in l.registered ==> k % CHUNK == 0 && Get(o.table, Region(k)) == Word(k, lost))
    && (forall r: nat :: Get(o.table, r) != 0 ==> r * CHUNK in l.registered)
    && (forall r :: r in o.closing ==> C.HandOf(l, o.closing[r].remover) == C.Unregistered(r * CHUNK))
    && lost <= l.registered
  }

  ghost predicate Inv(s: State) {
    A.Inv(s.heap) && Tied(s.heap.life, s.owners, s.lost)
  }

  // A thread about to unmap a chunk does nothing else first, and only registering
  // and unregistering change what is registered.
  ghost predicate Stays(l: C.State, l': C.State, t: nat) {
    && l'.registered == l.registered
    && (C.HandOf(l, t).Unregistered? ==> C.HandOf(l', t) == C.HandOf(l, t))
  }

  lemma LifeStays(l: C.State, b: C.Step, t: nat)
    requires C.Enabled(l, b) && !b.Register? && !b.Unregister? && b != C.Unmap(t)
    ensures Stays(l, C.Next(l, b), t)
  {}

  lemma SlotsStay(s: A.State, id: A.PoolId, b: P.Step, sync: Option<nat>, q: P.State, s': A.State, t: nat)
    requires id.sc < NUM_CLASSES && A.Follows(s, id, b, sync, q, s')
    ensures Stays(s.life, s'.life, t)
  {
    if b.Refill? && b.got.Some? {
      LifeStays(s.life, C.Deliver(A.Actor(b.t)), t);
    } else if (b.Flush? || b.FreeOne?) && q.pool.live.Keys != A.Live(s, id) {
      var k :| k in A.Live(s, id) && q.pool.live.Keys == A.Live(s, id) - {k} && A.Disposes(s, k, sync, s');
      LifeStays(s.life, if sync.Some? then C.DisposeSync(sync.value, k) else C.DisposeAsync(k), t);
    }
  }

  lemma HandsStay(s: A.State, a: A.Step, s': A.State, t: nat)
    requires A.Next(s, a, s') && (a.Chunk? ==> !a.move.Register? && !a.move.Unregister? && a.move != C.Unmap(t))
    ensures Stays(s.life, s'.life, t)
  {
    match a
    case Chunk(b) => LifeStays(s.life, b, t);
    case Slots(id, b, sync) =>
      var q :| P.Next(ClassOf(id.sc), CacheMax(id.sc), A.PoolOf(s, id), b, q)
               && s'.pools == s.pools[id := q] && A.Follows(s, id, b, sync, q, s');
      SlotsStay(s, id, b, sync, q, s', t);
  }

  lemma HandKnown(s: A.State, t: nat, k: nat)
    requires A.Inv(s) && C.Holds(C.HandOf(s.life, t), k)
    ensures k % CHUNK == 0 && k > 0 && Region(k) * CHUNK == k
    ensures k in s.life.registered <==> !C.HandOf(s.life, t).Fresh? && !C.HandOf(s.life, t).Unregistered?
    ensures forall u :: C.Holds(C.HandOf(s.life, u), k) ==> u == t
  {
    A.InHandOnly(s.life, t, k);
    assert C.At(s.life, k, C.InHand(t));
    forall u | C.Holds(C.HandOf(s.life, u), k) ensures u == t { assert C.At(s.life, k, C.InHand(u)); }
  }

  lemma RegionOf(k: nat)
    requires k % CHUNK == 0
    ensures Region(k) * CHUNK == k
  {}

  /** Whenever a chunk may be registered, its region has no owner, and no removal of
      it is under way. */
  lemma RegisterEnabled(s: State, t: nat)
    requires Inv(s) && C.HandOf(s.heap.life, t).Fresh?
    ensures forall leaf :: R.Enabled(s.owners, TableStep(s, A.Chunk(C.Register(t)), leaf))
  {
    HandKnown(s.heap, t, C.HandOf(s.heap.life, t).c);
  }

  lemma RegisterTied(l: C.State, o: R.State, lost: set<nat>, t: nat, k: nat)
    requires Tied(l, o, lost) && C.HandOf(l, t) == C.Fresh(k) && k % CHUNK == 0 && k !in l.registered
    requires R.Enabled(o, R.Insert(Region(k), k))
    ensures Tied(C.Next(l, C.Register(t)), R.Next(o, R.Insert(Region(k), k)), lost)
  {
    RegionOf(k);
    var l', o' := C.Next(l, C.Register(t)), R.Next(o, R.Insert(Region(k), k));
    forall j | j in l'.registered ensures j % CHUNK == 0 && Get(o'.table, Region(j)) == Word(j, lost) {
      if j != k { RegionOf(j); }
    }
  }

  // A registration without a leaf.
  lemma LoseTied(l: C.State, o: R.State, lost: set<nat>, t: nat, k: nat)
    requires Tied(l, o, lost) && C.HandOf(l, t) == C.Fresh(k) && k % CHUNK == 0 && k !in l.registered
    requires Get(o.table, Region(k)) == 0
    ensures Tied(C.Next(l, C.Register(t)), o, lost + {k})
  {
    RegionOf(k);
  }

  lemma UnregisterTied(l: C.State, o: R.State, lost: set<nat>, t: nat, k: nat)
    requires Tied(l, o, lost) && C.HandOf(l, t) == C.Trimming(k) && k % CHUNK == 0
    requires R.Enabled(o, R.Clear(t, Region(k)))
    ensures Tied(C.Next(l, C.Unregister(t)), R.Next(o, R.Clear(t, Region(k))), lost - {k})
  {
    RegionOf(k);
    var l', o' := C.Next(l, C.Unregister(t)), R.Next(o, R.Clear(t, Region(k)));
    forall j | j in l'.registered ensures j % CHUNK == 0 && Get(o'.table, Region(j)) == Word(j, lost - {k}) {
      RegionOf(j);
    }
    forall r | r in o'.closing ensures C.HandOf(l', o'.closing[r].remover) == C.Unregistered(r * CHUNK) {
      if r != Region(k) { assert r in o.closing; }
    }
  }

  // The removal of a chunk that never got into the table.
  lemma ForgetTied(l: C.State, o: R.State, lost: set<nat>, t: nat, k: nat)
    requires Tied(l, o, lost) && C.HandOf(l, t) == C.Trimming(k) && k % CHUNK == 0 && Get(o.table, Region(k)) == 0
    ensures Tied(C.Next(l, C.Unregister(t)), o, lost - {k})
  {
    var l' := C.Next(l, C.Unregister(t));
    forall r: nat | Get(o.table, r) != 0 ensures r * CHUNK in l'.registered { RegionOf(r * CHUNK); }
  }

  lemma OtherTied(l: C.State, o: R.State, lost: set<nat>, l': C.State, o': R.State)
    requires Tied(l, o, lost) && l'.registered == l.registered && o'.table == o.table
    requires forall r :: r in o'.closing ==>
               r in o.closing && o'.closing[r] == o.closing[r] && Stays(l, l', o.closing[r].remover)
    ensures Tied(l', o', lost)
  {}

  // A removal under way, next to an allocator step that is not a registration.
  lemma ClosingStays(s: State, a: A.Step, leaf: bool, s': State, r: nat)
    requires Inv(s) && Next(s, Heap(a, leaf), s') && (a.Chunk? ==> !a.move.Register? && !a.move.Unregister?)
    requires r in s.owners.closing
    ensures Stays(s.heap.life, s'.heap.life, s.owners.closing[r].remover)
  {
    var t := s.owners.closing[r].remover;
    if a == A.Chunk(C.Unmap(t)) {
      assert C.HandOf(s.heap.life, t) == C.Unregistered(r * CHUNK);
      HandKnown(s.heap, t, r * CHUNK);
    }
    HandsStay(s.heap, a, s'.heap, t);
  }

  // A registration, taken apart.
  lemma RegisterParts(s: State, t: nat, leaf: bool, s': State, k: nat)
    requires Next(s, Heap(A.Chunk(C.Register(t)), leaf), s') && C.HandOf(s.heap.life, t) == C.Fresh(k)
    ensures C.Enabled(s.heap.life, C.Register(t)) && s'.heap.life == C.Next(s.heap.life, C.Register(t))
    ensures leaf ==> R.Enabled(s.owners, R.Insert(Region(k), k))
    ensures leaf ==> s'.owners == R.Next(s.owners, R.Insert(Region(k), k)) && s'.lost == s.lost
    ensures !leaf ==> s'.owners == s.owners && s'.lost == s.lost + {k}
  {}

  lemma RegisterStep(s: State, t: nat, leaf: bool, s': State)
    requires Inv(s) && Next(s, Heap(A.Chunk(C.Register(t)), leaf), s')
    ensures Tied(s'.heap.life, s'.owners, s'.lost)
  {
    var k := C.HandOf(s.heap.life, t).c;
    HandKnown(s.heap, t, k);
    RegisterParts(s, t, leaf, s', k);
    if leaf {
      RegisterTied(s.heap.life, s.owners, s.lost, t, k);
    } else {
      LoseTied(s.heap.life, s.owners, s.lost, t, k);
    }
  }

  lemma UnregisterParts(s: State, t: nat, leaf: bool, s': State, k: nat)
    requires Next(s, Heap(A.Chunk(C.Unregister(t)), leaf), s') && C.HandOf(s.heap.life, t) == C.Trimming(k)
    ensures C.Enabled(s.heap.life, C.Unregister(t)) && s'.heap.life == C.Next(s.heap.life, C.Unregister(t))
    ensures s'.lost == s.lost - {k}
    ensures if Get(s.owners.table, Region(k)) == 0 then s'.owners == s.owners
            else s'.owners == R.Next(s.owners, R.Clear(t, Region(k)))
  {}

  lemma UnregisterStep(s: State, t: nat, leaf: bool, s': State)
    requires Inv(s) && Next(s, Heap(A.Chunk(C.Unregister(t)), leaf), s')
    ensures Tied(s'.heap.life, s'.owners, s'.lost)
  {
    var k := C.HandOf(s.heap.life, t).c;
    HandKnown(s.heap, t, k);
    UnregisterParts(s, t, leaf, s', k);
    if Get(s.owners.table, Region(k)) == 0 {
      ForgetTied(s.heap.life, s.owners, s.lost, t, k);
    } else {
      UnregisterTied(s.heap.life, s.owners, s.lost, t, k);
    }
  }

  lemma OtherStep(s: State, a: A.Step, leaf: bool, s': State)
    requires Inv(s) && Next(s, Heap(a, leaf), s') && (a.Chunk? ==> !a.move.Register? && !a.move.Unregister?)
    ensures Tied(s'.heap.life, s'.owners, s'.lost)
  {
    assert TableStep(s, a, leaf) == R.Other;
    forall r | r in s'.owners.closing ensures Stays(s.heap.life, s'.heap.life, s.owners.closing[r].remover) {
      ClosingStays(s, a, leaf, s', r);
    }
    SameRegistered(s.heap, a, s'.heap);
    OtherTied(s.heap.life, s.owners, s.lost, s'.heap.life, s'.owners);
  }

  lemma HeapTied(s: State, a: A.Step, leaf: bool, s': State)
    requires Inv(s) && Next(s, Heap(a, leaf), s')
    ensures Tied(s'.heap.life, s'.owners, s'.lost)
  {
    if a.Chunk? && a.move.Register? {
      RegisterStep(s, a.move.t, leaf, s');
    } else if a.Chunk? && a.move.Unregister? {
      UnregisterStep(s, a.move.t, leaf, s');
    } else {
      OtherStep(s, a, leaf, s');
    }
  }

  lemma SameRegistered(s: A.State, a: A.Step, s': A.State)
    requires A.Next(s, a, s') && (a.Chunk? ==> !a.move.Register? && !a.move.Unregister?)
    ensures s'.life.registered == s.life.registered
  {
    var t := if a.Chunk? && a.move.Unmap? then a.move.t + 1 else 0;
    HandsStay(s, a, s', t);
  }

  lemma OwnersTied(s: State, b: R.Step, s': State)
    requires Inv(s) && Next(s, Owners(b), s')
    ensures Tied(s'.heap.life, s'.owners, s'.lost)
  {
    OtherTied(s.heap.life, s.owners, s.lost, s'.heap.life, s'.owners);
  }

  lemma StepInv(s: State, a: Step, s': State)
    requires Inv(s) && Next(s, a, s')
    ensures Inv(s')
  {
    match a
    case Heap(b, leaf) =>
      A.StepInv(s.heap, b, s'.heap);
      HeapTied(s, b, leaf, s');
    case Owners(b) => OwnersTied(s, b, s');
  }

  lemma InitInv()
    ensures Inv(INIT)
  {
    A.InitInv();
  }

  lemma {:induction false} RunInv(ss: seq<State>, acts: seq<Step>, n: nat)
    requires Run(ss, acts) && n < |ss|
    ensures Inv(ss[n])
  {
    if n == 0 {
      InitInv();
    } else {
      RunInv(ss, acts, n - 1);
      assert StepAt(ss, acts, n - 1);
      StepInv(ss[n - 1], acts[n - 1], ss[n]);
    }
  }

  // ---- what a resolve returns ----

  function Views(ss: seq<State>): (cs: seq<R.State>)
    ensures |cs| == |ss| && forall i :: 0 <= i < |ss| ==> cs[i] == ss[i].owners
  {
    seq(|ss|, i requires 0 <= i < |ss| => ss[i].owners)
  }

  function Moves(ss: seq<State>, acts: seq<Step>): (bs: seq<R.Step>)
    requires |ss| == |acts| + 1
    ensures |bs| == |acts| && forall i :: 0 <= i < |acts| ==> bs[i] == CacheStep(ss[i], acts[i])
  {
    seq(|acts|, i requires 0 <= i < |acts| => CacheStep(ss[i], acts[i]))
  }

  // Byte b of slot x is in the region of x's chunk.
  lemma RegionOfSlot(c: SizeClass, x: Slot, b: nat)
    requires SlotOk(c, x) && b < c.size
    ensures Region(Addr(c, x) + b) == Region(x.slab.chunk)
  {
    SlotBounds(c, x);
    var k, a := x.slab.chunk, Addr(c, x) + b;
    assert k == Region(k) * CHUNK && k <= a < k + CHUNK;
  }

  lemma HeldHome(s: A.State, id: A.PoolId, x: Slot)
    requires A.Inv(s) && A.HeldIn(s, id, x)
    ensures SlotOk(ClassOf(id.sc), x) && x.slab.chunk in s.life.registered
    ensures forall t :: !C.Holds(C.HandOf(s.life, t), x.slab.chunk)
    ensures x.slab.chunk in s.owner && s.owner[x.slab.chunk] == id
  {
    A.HeldChunk(s, id, x);
    A.PooledSafe(s.life, x.slab.chunk);
    forall t ensures !C.Holds(C.HandOf(s.life, t), x.slab.chunk) {
      assert C.At(s.life, x.slab.chunk, C.InHand(t)) || !C.At(s.life, x.slab.chunk, C.InHand(t));
    }
  }

  lemma PooledTied(l: C.State, o: R.State, lost: set<nat>, k: nat)
    requires Tied(l, o, lost) && k in l.registered && forall t :: !C.Holds(C.HandOf(l, t), k)
    ensures Get(o.table, Region(k)) == Word(k, lost) && Region(k) !in o.closing
  {
    RegionOf(k);
    if Region(k) in o.closing {
      assert C.Holds(C.HandOf(l, o.closing[Region(k)].remover), k);
    }
  }

  lemma HeldRegistered(s: State, id: A.PoolId, x: Slot)
    requires Inv(s) && A.HeldIn(s.heap, id, x)
    ensures Get(s.owners.table, Region(x.slab.chunk)) == Word(x.slab.chunk, s.lost)
    ensures Region(x.slab.chunk) !in s.owners.closing
    ensures x.slab.chunk in s.heap.owner && s.heap.owner[x.slab.chunk] == id
  {
    HeldHome(s.heap, id, x);
    PooledTied(s.heap.life, s.owners, s.lost, x.slab.chunk);
  }

  // Whether a chunk is in the table does not change while a slot of it is held.
  lemma LostStays(s: State, a: Step, s': State, id: A.PoolId, x: Slot)
    requires Inv(s) && Next(s, a, s') && A.HeldIn(s.heap, id, x)
    ensures x.slab.chunk in s'.lost <==> x.slab.chunk in s.lost
  {
    HeldHome(s.heap, id, x);
    assert forall t :: C.HandOf(s.heap.life, t).Fresh? || C.HandOf(s.heap.life, t).Trimming? ==>
             C.Holds(C.HandOf(s.heap.life, t), C.HandOf(s.heap.life, t).c);
  }

  // Thread t's resolve of region r returns with step n.
  ghost predicate Resolves(ss: seq<State>, acts: seq<Step>, n: nat, t: nat, r: nat)
    requires n < |acts| && |ss| == |acts| + 1
  {
    || (acts[n] == Owners(R.Start(t, r)) && R.Hit(ss[n].owners, t, r))
    || (acts[n] == Owners(R.Fill(t)) && R.PhaseOf(ss[n].owners, t).Found? && R.PhaseOf(ss[n].owners, t).region == r)
  }

  lemma ViewsRun(ss: seq<State>, acts: seq<Step>)
    requires Run(ss, acts)
    ensures R.Run(Views(ss), Moves(ss, acts))
  {
    var cs, bs := Views(ss), Moves(ss, acts);
    forall i | 0 <= i < |bs| ensures R.Enabled(cs[i], bs[i]) && cs[i + 1] == R.Next(cs[i], bs[i]) {
      assert StepAt(ss, acts, i);
    }
  }

  ghost predicate HeldThrough(ss: seq<State>, i: nat, j: nat, id: A.PoolId, x: Slot) {
    forall m :: i <= m <= j && m < |ss| ==> A.HeldIn(ss[m].heap, id, x)
  }

  lemma {:induction false} LostThrough(ss: seq<State>, acts: seq<Step>, i: nat, j: nat, id: A.PoolId, x: Slot)
    requires Run(ss, acts) && i <= j < |ss| && HeldThrough(ss, i, j, id, x)
    ensures Word(x.slab.chunk, ss[i].lost) == Word(x.slab.chunk, ss[j].lost)
    decreases j - i
  {
    if i == j {
    } else {
      RunInv(ss, acts, i);
      assert StepAt(ss, acts, i);
      LostStays(ss[i], acts[i], ss[i + 1], id, x);
      LostThrough(ss, acts, i + 1, j, id, x);
    }
  }

  lemma HeldStable(ss: seq<State>, acts: seq<Step>, i: nat, j: nat, id: A.PoolId, x: Slot)
    requires Run(ss, acts) && i <= j < |ss| && HeldThrough(ss, i, j, id, x)
    ensures R.Stable(Views(ss), i, j, Region(x.slab.chunk), Word(x.slab.chunk, ss[j].lost))
    ensures x.slab.chunk in ss[j].heap.owner && ss[j].heap.owner[x.slab.chunk] == id
  {
    forall m | i <= m <= j && m < |ss|
      ensures Get(ss[m].owners.table, Region(x.slab.chunk)) == Word(x.slab.chunk, ss[j].lost)
      ensures Region(x.slab.chunk) !in ss[m].owners.closing
      ensures x.slab.chunk in ss[m].heap.owner && ss[m].heap.owner[x.slab.chunk] == id
    {
      RunInv(ss, acts, m);
      HeldRegistered(ss[m], id, x);
      LostThrough(ss, acts, m, j, id, x);
    }
  }

  /** In every interleaving, resolving any address of a slot that is held throughout
      the call returns the slot's chunk, whose header names the pool the slot came
      from; or 0, exactly if no leaf could be mapped when the chunk was registered.
      So a free, by whichever thread, reaches the slot's own pool, or does nothing. */
  lemma FreeFindsHome(ss: seq<State>, acts: seq<Step>, n: nat, t: nat, id: A.PoolId, x: Slot, b: nat)
    returns (start: nat)
    requires Run(ss, acts) && n < |acts| && id.sc < NUM_CLASSES && SlotOk(ClassOf(id.sc), x) && b < SizeOf(id.sc)
    requires Resolves(ss, acts, n, t, Region(Addr(ClassOf(id.sc), x) + b))
    ensures start <= n && acts[start] == Owners(R.Start(t, Region(Addr(ClassOf(id.sc), x) + b)))
    ensures HeldThrough(ss, start, n, id, x) ==>
              && R.Enabled(ss[n].owners, acts[n].probe)
              && R.Returns(ss[n].owners, acts[n].probe) == (true, Word(x.slab.chunk, ss[n].lost))
              && x.slab.chunk in ss[n].heap.owner && ss[n].heap.owner[x.slab.chunk] == id
  {
    var r := Region(Addr(ClassOf(id.sc), x) + b);
    RegionOfSlot(ClassOf(id.sc), x, b);
    ViewsRun(ss, acts);
    assert Moves(ss, acts)[n] == acts[n].probe;
    start := R.ResolveStable(Views(ss), Moves(ss, acts), n, t, r, Word(x.slab.chunk, ss[n].lost));
    StartsThere(ss, acts, start, t, r);
    if HeldThrough(ss, start, n, id, x) { HeldStable(ss, acts, start, n, id, x); }
  }

  lemma StartsThere(ss: seq<State>, acts: seq<Step>, n: nat, t: nat, r: nat)
    requires |ss| == |acts| + 1 && n < |acts| && CacheStep(ss[n], acts[n]) == R.Start(t, r)
    ensures acts[n] == Owners(R.Start(t, r))
  {}
}
