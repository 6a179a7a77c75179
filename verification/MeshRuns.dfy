/** Runs of one pool that fill slabs, free chosen slots and mesh: a second pass of
    compaction that loses data, and a mesh after which a refill fails. */
module MeshRuns {
  import opened Seqs
  import opened Memory
  import opened Geometry
  import opened PoolSpec
  import opened PoolProofs
  import opened Aliasing
  import opened SlotChains
  import opened PoolThreads
  import opened Reaching
  import opened Compaction

  // The largest small class: eight slots in a slab of 32 pages, at most eight cached.
  const C := SizeClass(16384, 32, 8)
  const CAP: nat := 8
  const BASE: nat := 0x20_0000
  const E := SlabId(BASE, 7)
  const D := SlabId(BASE, 39)
  const R := SlabId(BASE, 71)
  const TAKEN := Slab([], false)

  lemma TheClass()
    ensures C == ClassOf(35) && CAP == CacheMax(35) && C.Valid()
  {}

  // ---- filling slabs ----

  function Emptied(q: Pool, s: SlabId): Pool {
    q.(slabs := q.slabs[s := TAKEN], outstanding := q.outstanding + 8)
  }

  lemma HalfTaken(q: Pool, s: SlabId)
    requires s in q.slabs && q.slabs[s] == Slab(Iota(8), false) && q.partial == []
    ensures var r := Take(Push(q, s), 4);
            && r.batch != [] && r.pool.partial == [s] && s in r.pool.slabs
            && r.pool.slabs[s] == Slab(Iota(8)[4..], false)
            && Take(r.pool, 4).batch != [] && Take(r.pool, 4).pool == Emptied(q, s)
            && Elems(r.batch) + Elems(Take(r.pool, 4).batch) == SlotSet(s, 8)
  {
    var r := Take(Push(q, s), 4);
    var f := Iota(8);
    assert f[4..][4..] == [];
    var r2 := Take(r.pool, 4);
    assert r2.pool.slabs == q.slabs[s := TAKEN];
    HalvesCover(s);
    assert f[4..][..4] == f[4..];
  }

  lemma HalvesCover(s: SlabId)
    ensures Elems(Reverse(SlotsAt(s, Iota(8)[..4]))) + Elems(Reverse(SlotsAt(s, Iota(8)[4..]))) == SlotSet(s, 8)
  {
    ReverseSet(SlotsAt(s, Iota(8)[..4]));
    ReverseSet(SlotsAt(s, Iota(8)[4..]));
    var a, b := SlotsAt(s, Iota(8)[..4]), SlotsAt(s, Iota(8)[4..]);
    forall x | x in SlotSet(s, 8) ensures x in Elems(a) + Elems(b) {
      if x.k < 4 { assert a[x.k] == x; } else { assert b[x.k - 4] == x; }
    }
    forall x | x in Elems(a) + Elems(b) ensures x in SlotSet(s, 8) {}
  }

  /** Eight mallocs take every slot of a new slab. */
  lemma TakeSlab(p: Pool, used: set<Slot>, hidden: set<Slot>, alias: map<SlabId, SlabId>, got: Option<nat>, q: Pool,
                 s: SlabId)
    requires Reach(C, CAP, p, used, hidden, alias) && FreshOk(p, got) && p.partial == [] && Indexed(p) && C.Valid()
    requires SlabNew(C, p, got) == Some((q, s)) && s in q.slabs && q.slabs[s] == Slab(Iota(8), false) && q.partial == []
    ensures Reach(C, CAP, Emptied(q, s), used + SlotSet(s, 8), hidden, alias)
  {
    HalfTaken(q, s);
    var r := Take(Push(q, s), 4);
    assert Refills(C, p, Want(CAP), got, r);
    TakeAll(C, CAP, p, used, hidden, alias, got, r);
    TakeRest(r.pool, used + Elems(r.batch), hidden, alias);
    assert used + Elems(r.batch) + Elems(Take(r.pool, 4).batch) == used + SlotSet(s, 8);
  }

  // ... the second four of them, from the head of the partial list
  lemma TakeRest(p: Pool, used: set<Slot>, hidden: set<Slot>, alias: map<SlabId, SlabId>)
    requires C.Valid() && Reach(C, CAP, p, used, hidden, alias) && p.partial != [] && p.partial[0] in p.slabs
    requires Take(p, 4).batch != []
    ensures Reach(C, CAP, Take(p, 4).pool, used + Elems(Take(p, 4).batch), hidden, alias)
  {
    Reached(C, CAP, p, used, hidden, alias);
    IndexedOk(C, p, used, hidden);
    TakeAll(C, CAP, p, used, hidden, alias, None, Take(p, 4));
  }

  const P1 := Pool(map[E := TAKEN], [], [], [], [BASE], Some(BASE), map[BASE := 39], map[BASE := 1], 1, 8)
  const P2 := Pool(map[E := TAKEN, D := TAKEN], [], [], [], [BASE], Some(BASE), map[BASE := 71], map[BASE := 2], 2, 16)
  const P3 := Pool(map[E := TAKEN, D := TAKEN, R := TAKEN], [], [], [], [BASE], Some(BASE), map[BASE := 103],
                   map[BASE := 3], 3, 24)

  lemma OneSlab()
    ensures Reach(C, CAP, P1, SlotSet(E, 8), {}, map[])
  {
    TheClass();
    ReachEmpty(C, CAP);
    var q := SlabNew(C, EMPTY, Some(BASE)).value.0;
    TakeSlab(EMPTY, {}, {}, map[], Some(BASE), q, E);
    assert Emptied(q, E) == P1;
    assert {} + SlotSet(E, 8) == SlotSet(E, 8);
  }

  lemma TwoSlabs()
    ensures Reach(C, CAP, P2, SlotSet(E, 8) + SlotSet(D, 8), {}, map[])
  {
    TheClass();
    OneSlab();
    var q := SlabNew(C, P1, None).value.0;
    TakeSlab(P1, SlotSet(E, 8), {}, map[], None, q, D);
    assert Emptied(q, D) == P2;
  }

  lemma ThreeSlabs()
    ensures Reach(C, CAP, P3, SlotSet(E, 8) + SlotSet(D, 8) + SlotSet(R, 8), {}, map[])
  {
    TheClass();
    TwoSlabs();
    var q := SlabNew(C, P2, None).value.0;
    TakeSlab(P2, SlotSet(E, 8) + SlotSet(D, 8), {}, map[], None, q, R);
    assert Emptied(q, R) == P3;
  }

  // ---- freeing all slots of a full slab but some ----

  // Slab s of p, full before, has the freelist f.
  function WithFree(p: Pool, s: SlabId, f: seq<nat>): Pool
    requires |f| <= p.outstanding
  {
    if f == [] then p
    else p.(slabs := p.slabs[s := Slab(f, false)], partial := [s] + p.partial, outstanding := p.outstanding - |f|)
  }

  ghost predicate Full(p: Pool, s: SlabId) {
    s in p.slabs && p.slabs[s] == TAKEN && s !in p.partial && s.chunk in p.live && p.live[s.chunk] > 0
  }

  lemma FreeOneMore(p: Pool, s: SlabId, f: seq<nat>, k: nat)
    requires Full(p, s) && |f| + 1 < 8 && |f| + 1 <= p.outstanding && C.Valid()
    ensures Frees(C, WithFree(p, s, f), Slot(s, k), Freed(WithFree(p, s, [k] + f), None, None))
  {
    var q := WithFree(p, s, f);
    var w := Return(q, Slot(s, k));
    assert w.slabs[s] == Slab([k] + f, false);
    assert w.slabs == p.slabs[s := Slab([k] + f, false)];
    assert [k] + [] == [k];
  }

  // Slots 0 to n - 1 of s, without those to keep.
  function Gone(s: SlabId, keep: set<nat>, n: nat): set<Slot> {
    set k: nat | k < n && k !in keep :: Slot(s, k)
  }

  lemma {:induction false} FreeUpTo(p: Pool, used: set<Slot>, hidden: set<Slot>, alias: map<SlabId, SlabId>, s: SlabId,
                                    keep: set<nat>, some: nat, n: nat)
    returns (f: seq<nat>)
    requires C.Valid() && Reach(C, CAP, p, used, hidden, alias) && Full(p, s) && SlotSet(s, 8) <= used
    requires p.outstanding >= 8
    requires n <= 8 && some in keep && some < 8
    ensures NoDup(f) && |f| < 8 && forall k: nat :: k in f <==> k < n && k !in keep
    ensures Reach(C, CAP, WithFree(p, s, f), used - Gone(s, keep, n), hidden, alias)
    decreases n
  {
    if n == 0 {
      f := [];
      assert Gone(s, keep, 0) == {};
      assert used - {} == used;
      return;
    }
    f := FreeUpTo(p, used, hidden, alias, s, keep, some, n - 1);
    if n - 1 in keep {
      assert Gone(s, keep, n) == Gone(s, keep, n - 1);
      return;
    }
    var x := Slot(s, n - 1);
    FewFree(f, n - 1, some, keep);
    FreeOneMore(p, s, f, n - 1);
    assert x in used - Gone(s, keep, n - 1);
    FreeReached(C, CAP, WithFree(p, s, f), used - Gone(s, keep, n - 1), hidden, alias, x,
                Freed(WithFree(p, s, [n - 1] + f), None, None));
    assert Gone(s, keep, n) == Gone(s, keep, n - 1) + {x};
    assert used - Gone(s, keep, n - 1) - {x} == used - Gone(s, keep, n);
    NoDupPush(n - 1, f);
    f := [n - 1] + f;
  }

  lemma FewFree(f: seq<nat>, n: nat, some: nat, keep: set<nat>)
    requires NoDup(f) && n < 8 && some in keep && some < 8 && n !in keep
    requires forall k: nat :: k in f <==> k < n && k !in keep
    ensures |f| + 1 < 8
  {
    NoDupCard(f);
    NoDupCard(Iota(8));
    forall k: nat ensures k in Below(8) <==> k < 8 { BelowIff(8, k); }
    SubsetCard(Elems(f), Below(8) - {n} - {some});
  }

  // ---- what a pass picks ----

  // Two sparse slabs without a common occupied slot are all there is to mesh.
  ghost predicate Couple(v: Pool, s: SlabId, t: SlabId) {
    v.partial == [s, t] && s != t && Wanted(C, v, s) && Wanted(C, v, t) && Unmixed(C, v, s, t)
  }

  /** The first of the two becomes the recipient, the second the donor. */
  lemma CouplePicked(v: Pool, s: SlabId, t: SlabId)
    requires Couple(v, s, t)
    ensures Candidates(C, v) == [s, t] && Greedy(C, v, Candidates(C, v), {}, 0) == [(s, t)]
  {
    assert [s, t][1..] == [t] && [t][1..] == [];
    assert Sieve(C, v, [t]) == [t];
    assert Sieve(C, v, [s, t]) == [s] + [t];
    var ss := [s, t];
    assert Partner(C, v, ss, {}, 0, 1) == 1;
    assert Greedy(C, v, ss, {s, t}, 2) == [];
    assert Greedy(C, v, ss, {s, t}, 1) == [];
    assert {} + {s, t} == {s, t};
  }

  lemma Cards(f: seq<nat>, n: nat, all: set<nat>)
    requires NoDup(f) && Elems(f) == all && |all| == n
    ensures |f| == n
  {
    NoDupCard(f);
  }

  lemma SevenFree(f: seq<nat>, a: nat)
    requires NoDup(f) && a < 8 && forall k: nat :: k in f <==> k < 8 && k !in {a}
    ensures |f| == 7
  {
    NoDupCard(Iota(8));
    forall k: nat ensures k in Below(8) <==> k < 8 { BelowIff(8, k); }
    assert Elems(f) == Below(8) - {a};
    Cards(f, 7, Below(8) - {a});
  }

  // ---- a second pass ----

  lemma FreeInE() returns (f: seq<nat>, used: set<Slot>)
    ensures NoDup(f) && |f| == 7 && forall k: nat :: k in f <==> k < 8 && k !in {0}
    ensures Reach(C, CAP, WithFree(P3, E, f), used, {}, map[])
    ensures used == SlotSet(E, 8) + SlotSet(D, 8) + SlotSet(R, 8) - Gone(E, {0}, 8)
  {
    TheClass();
    ThreeSlabs();
    used := SlotSet(E, 8) + SlotSet(D, 8) + SlotSet(R, 8);
    f := FreeUpTo(P3, used, {}, map[], E, {0}, 0, 8);
    used := used - Gone(E, {0}, 8);
    SevenFree(f, 0);
  }

  lemma FreeInD() returns (e: seq<nat>, f: seq<nat>, used: set<Slot>)
    ensures NoDup(e) && |e| == 7 && forall k: nat :: k in e <==> k < 8 && k !in {0}
    ensures NoDup(f) && |f| == 7 && forall k: nat :: k in f <==> k < 8 && k !in {1}
    ensures Reach(C, CAP, WithFree(WithFree(P3, E, e), D, f), used, {}, map[])
    ensures SlotSet(R, 8) <= used && Slot(E, 0) in used
  {
    TheClass();
    e, used := FreeInE();
    f := FreeUpTo(WithFree(P3, E, e), used, {}, map[], D, {1}, 1, 8);
    used := used - Gone(D, {1}, 8);
    SevenFree(f, 1);
  }

  // What D and E have in common, once they are meshed.
  lemma SixBoth(q: Pool, e: seq<nat>, f: seq<nat>)
    requires C.Valid() && q.slabs == P3.slabs[E := Slab(e, false)][D := Slab(f, false)]
    requires forall k: nat :: k in e <==> k < 8 && k !in {0}
    requires forall k: nat :: k in f <==> k < 8 && k !in {1}
    ensures D in q.slabs && E in q.slabs
    ensures var b := BothFree(C, q, D, E); |b| == 6 && forall k: nat :: k in b <==> 2 <= k < 8
  {
    BothFreeElems(C, q, D, E);
    var b := BothFree(C, q, D, E);
    assert Elems(b) == {2, 3, 4, 5, 6, 7};
    Cards(b, 6, {2, 3, 4, 5, 6, 7});
  }

  /** The first pass meshes E into D: D comes before E on the partial list. */
  lemma FirstPass() returns (q: Pool, used: set<Slot>)
    ensures Reach(C, CAP, q, used, {}, map[]) && Couple(q, D, E) && Meshable(C, q, D, E)
    ensures SlotSet(R, 8) <= used && Slot(E, 0) in used
    ensures Full(Mesh(C, q, D, E), R) && Mesh(C, q, D, E).outstanding >= 8 && Mesh(C, q, D, E).partial == [D]
    ensures var w := Mesh(C, q, D, E).slabs[D];
            !w.retired && |w.free| == 6 && forall k: nat :: k in w.free <==> 2 <= k < 8
    ensures DonorHeld(C, q, D, E) == {Slot(D, 0)}
  {
    TheClass();
    var e, f;
    e, f, used := FreeInD();
    q := WithFree(WithFree(P3, E, e), D, f);
    SixBoth(q, e, f);
    WithoutElems(q.partial, {E});
    WithoutOne(q.partial, 1);
    assert q.partial == [D, E] && q.partial[..1] + q.partial[2..] == [D];
    assert DonorHeld(C, q, D, E) == {Slot(D, 0)};
  }

  // D, which backs E, is the second of two slabs to be meshed.
  ghost predicate Stacked(v: Pool, used: set<Slot>, hidden: set<Slot>, alias: map<SlabId, SlabId>) {
    && Couple(v, R, D) && Meshable(C, v, R, D)
    && alias == map[E := D] && hidden == {Slot(D, 0)} && Slot(E, 0) in used
  }

  /** A run whose second pass picks D, the recipient of the first, as its donor: at q a
      first pass meshes the greedy pair (D, E), then slots of R are freed. */
  lemma SecondPassReached()
    returns (q: Pool, u: set<Slot>, f: seq<nat>, v: Pool, used: set<Slot>, hidden: set<Slot>,
             alias: map<SlabId, SlabId>)
    ensures C.Valid() && Reach(C, CAP, q, u, {}, map[]) && Greedy(C, q, Candidates(C, q), {}, 0) == [(D, E)]
    ensures D in q.slabs && E in q.slabs && Reach(C, CAP, Mesh(C, q, D, E), u, hidden, alias)
    ensures |f| <= Mesh(C, q, D, E).outstanding && v == WithFree(Mesh(C, q, D, E), R, f)
    ensures Reach(C, CAP, v, used, hidden, alias) && Stacked(v, used, hidden, alias)
    ensures Greedy(C, v, Candidates(C, v), {}, 0) == [(R, D)]
  {
    TheClass();
    q, u := FirstPass();
    CouplePicked(q, D, E);
    MeshReached(C, CAP, q, u, {}, map[], D, E, true);
    hidden, alias := {Slot(D, 0)}, map[E := D];
    assert {} + DonorHeld(C, q, D, E) == hidden && Remapped(map[], D, E, true) == alias;
    var w := Mesh(C, q, D, E);
    f := FreeUpTo(w, u, hidden, alias, R, {2}, 2, 8);
    SevenFree(f, 2);
    v, used := WithFree(w, R, f), u - Gone(R, {2}, 8);
    assert v.partial == [R, D];
    CouplePicked(v, R, D);
  }

  /** Meshing that pair loses what E's slot 0, stored in D, held. */
  lemma SecondPassLoses(v: Pool, used: set<Slot>, hidden: set<Slot>, alias: map<SlabId, SlabId>, remap: map<nat, nat>,
                        m: Mem, remap': map<nat, nat>, m': Mem)
    requires Reach(C, CAP, v, used, hidden, alias) && Stacked(v, used, hidden, alias)
    requires Mapped(C, remap, alias, v.live) && Load(m, Addr(C, Slot(D, 0))) != 0
    requires Meshed(C, remap, m, remap', m', v, R, D, true)
    ensures !SameReads(C, remap, m, remap', m', used)
  {
    TheClass();
    Reached(C, CAP, v, used, hidden, alias);
    MeshKeepsIff(C, remap, m, remap', m', v, used, hidden, alias, R, D, true);
    var x := Slot(E, 0);
    assert x in used && StoredIn(alias, D, x) && Backing(alias, x) == Slot(D, 0);
    assert InSlot(C, Slot(D, 0), Addr(C, Slot(D, 0)));
  }

  // ---- a mesh that uses up both slabs ----

  lemma FourFree(f: seq<nat>, keep: set<nat>, left: set<nat>)
    requires NoDup(f) && forall k: nat :: k in f <==> k < 8 && k !in keep
    requires |left| == 4 && forall k: nat :: k in left <==> k < 8 && k !in keep
    ensures |f| == 4
  {
    assert Elems(f) == left;
    Cards(f, 4, left);
  }

  const LOW: set<nat> := {0, 1, 2, 3}
  const HIGH: set<nat> := {4, 5, 6, 7}

  lemma HalfOfE() returns (e: seq<nat>, used: set<Slot>)
    ensures NoDup(e) && |e| == 4 && forall k: nat :: k in e <==> k < 8 && k !in HIGH
    ensures Reach(C, CAP, WithFree(P2, E, e), used, {}, map[]) && SlotSet(D, 8) <= used
  {
    TheClass();
    TwoSlabs();
    used := SlotSet(E, 8) + SlotSet(D, 8);
    e := FreeUpTo(P2, used, {}, map[], E, HIGH, 4, 8);
    FourFree(e, HIGH, LOW);
    used := used - Gone(E, HIGH, 8);
  }

  lemma HalfTakenSlabs() returns (q: Pool, used: set<Slot>)
    ensures Reach(C, CAP, q, used, {}, map[]) && Couple(q, D, E)
    ensures forall k: nat :: !(k in q.slabs[D].free && k in q.slabs[E].free)
  {
    TheClass();
    var e, u := HalfOfE();
    var f := FreeUpTo(WithFree(P2, E, e), u, {}, map[], D, LOW, 0, 8);
    FourFree(f, LOW, HIGH);
    q, used := WithFree(WithFree(P2, E, e), D, f), u - Gone(D, LOW, 8);
  }

  /** A run that ends with a compaction pass, after which every refill fails,
      whatever memory could be had. */
  lemma HalfAndHalfReached()
    returns (q: Pool, p: Pool, used: set<Slot>, hidden: set<Slot>, alias: map<SlabId, SlabId>)
    ensures C.Valid() && Greedy(C, q, Candidates(C, q), {}, 0) == [(D, E)] && D in q.slabs && E in q.slabs
    ensures p == Mesh(C, q, D, E)
    ensures Reach(C, CAP, q, used, {}, map[]) && Reach(C, CAP, p, used, hidden, alias)
    ensures forall want: nat, got, r :: Refills(C, p, want, got, r) ==> r.batch == []
  {
    TheClass();
    q, used := HalfTakenSlabs();
    CouplePicked(q, D, E);
    MeshReached(C, CAP, q, used, {}, map[], D, E, true);
    p, hidden, alias := Mesh(C, q, D, E), {} + DonorHeld(C, q, D, E), Remapped(map[], D, E, true);
    Reached(C, CAP, q, used, {}, map[]);
    HalfAndHalfMesh(C, q, used, {}, D, E);
    WithoutOne(q.partial, 1);
    assert q.partial[..1] + q.partial[2..] == [D];
  }
}
