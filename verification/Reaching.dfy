/** Reachable states of one pool, built from single steps of one thread: whole
    batches taken by malloc, frees without a cache, and meshes. */
module Reaching {
  import opened Seqs
  import opened Geometry
  import opened PoolSpec
  import opened PoolProofs
  import opened Aliasing
  import opened PoolThreads

  ghost predicate Reachable(c: SizeClass, cap: nat, s: State) {
    exists ss, acts :: Run(c, cap, ss, acts) && ss[|ss| - 1] == s
  }

  lemma ReachInit(c: SizeClass, cap: nat)
    ensures Reachable(c, cap, INIT)
  {
    assert Run(c, cap, [INIT], []);
  }

  lemma ReachNext(c: SizeClass, cap: nat, s: State, a: Step, s': State)
    requires Reachable(c, cap, s) && Next(c, cap, s, a, s')
    ensures Reachable(c, cap, s')
  {
    var ss, acts :| Run(c, cap, ss, acts) && ss[|ss| - 1] == s;
    forall i: nat | i < |acts + [a]| ensures StepAt(c, cap, ss + [s'], acts + [a], i) {
      if i < |acts| { assert StepAt(c, cap, ss, acts, i); }
    }
    assert Run(c, cap, ss + [s'], acts + [a]);
  }

  lemma ReachInv(c: SizeClass, cap: nat, s: State)
    requires c.Valid() && cap >= 2 && Reachable(c, cap, s)
    ensures Inv(c, cap, s)
  {
    var ss, acts :| Run(c, cap, ss, acts) && ss[|ss| - 1] == s;
    RunInv(c, cap, ss, acts, |ss| - 1);
  }

  // The slots `used` are in user hands and thread 0 caches exactly `bin`; nothing else is held.
  ghost predicate Quiet(s: State, p: Pool, used: set<Slot>, bin: seq<Slot>, hidden: set<Slot>,
                        alias: map<SlabId, SlabId>) {
    && s.pool == p && s.hidden == hidden && s.alias == alias && PhaseOf(s, 0) == Ready
    && Elems(Held(s, User)) == used && Held(s, Bin(0)) == bin
    && forall h :: h in s.held && h != User && h != Bin(0) ==> s.held[h] == []
  }

  // Some run ends with this pool, the slots `used` in user hands and nothing cached.
  ghost predicate Reach(c: SizeClass, cap: nat, p: Pool, used: set<Slot>, hidden: set<Slot>,
                        alias: map<SlabId, SlabId>) {
    exists s :: Reachable(c, cap, s) && Quiet(s, p, used, [], hidden, alias)
  }

  lemma ReachEmpty(c: SizeClass, cap: nat)
    ensures Reach(c, cap, EMPTY, {}, {}, map[])
  {
    ReachInit(c, cap);
    assert Quiet(INIT, EMPTY, {}, [], {}, map[]);
  }

  lemma QuietOut(s: State, p: Pool, used: set<Slot>, hidden: set<Slot>, alias: map<SlabId, SlabId>)
    requires Quiet(s, p, used, [], hidden, alias)
    ensures Out(s) == used
  {
    forall x | x in used ensures x in Out(s) { assert User in s.held && x in s.held[User]; }
    forall x | x in Out(s) ensures x in used {
      var h :| h in s.held && x in s.held[h];
      assert h == User;
    }
  }

  lemma Reached(c: SizeClass, cap: nat, p: Pool, used: set<Slot>, hidden: set<Slot>, alias: map<SlabId, SlabId>)
    requires c.Valid() && cap >= 2 && Reach(c, cap, p, used, hidden, alias)
    ensures PoolInv(c, p, used, hidden) && AliasOk(p, used, hidden, alias)
  {
    var s :| Reachable(c, cap, s) && Quiet(s, p, used, [], hidden, alias);
    ReachInv(c, cap, s);
    QuietOut(s, p, used, hidden, alias);
  }

  lemma HeadFirst(b: seq<Slot>, used: set<Slot>)
    requires b != []
    ensures used + {b[0]} + Elems(b[1..]) == used + Elems(b)
  {
    assert b == [b[0]] + b[1..];
  }

  lemma {:induction false} PopAll(c: SizeClass, cap: nat, s: State, p: Pool, used: set<Slot>, bin: seq<Slot>,
                                  hidden: set<Slot>, alias: map<SlabId, SlabId>)
    requires Reachable(c, cap, s) && Quiet(s, p, used, bin, hidden, alias)
    ensures Reach(c, cap, p, used + Elems(bin), hidden, alias)
    decreases |bin|
  {
    if bin == [] {
      assert used + Elems(bin) == used;
    } else {
      var s' := DoPop(s, 0);
      assert Held(s, Batch(0)) == [];
      ReachNext(c, cap, s, Pop(0), s');
      assert Held(s', User) == [bin[0]] + Held(s, User);
      assert Elems([bin[0]] + Held(s, User)) == used + {bin[0]};
      HeadFirst(bin, used);
      PopAll(c, cap, s', p, used + {bin[0]}, bin[1..], hidden, alias);
    }
  }

  lemma SpliceQuiet(s: State, p: Pool, used: set<Slot>, hidden: set<Slot>, alias: map<SlabId, SlabId>, r: Taken)
    requires Quiet(s, p, used, [], hidden, alias) && r.batch != []
    ensures Held(DoRefill(s, 0, r), Batch(0)) == r.batch
    ensures Quiet(DoSplice(DoRefill(s, 0, r), 0), r.pool, used + {r.batch[0]}, r.batch[1..], hidden, alias)
  {
    var b, s1 := r.batch, DoRefill(s, 0, r);
    var s2 := DoSplice(s1, 0);
    assert Held(s2, User) == [b[0]] + Held(s, User);
    assert Elems([b[0]] + Held(s, User)) == used + {b[0]};
    assert Held(s2, Bin(0)) == b[1..];
  }

  lemma RefillThenSplice(c: SizeClass, cap: nat, s: State, got: Option<nat>, r: Taken)
    requires Reachable(c, cap, s) && PhaseOf(s, 0) == Ready && Held(s, Batch(0)) == [] && Held(s, Bin(0)) == []
    requires FreshOk(s.pool, got) && Refills(c, s.pool, Want(cap), got, r) && r.batch != []
    ensures Held(DoRefill(s, 0, r), Batch(0)) == r.batch
    ensures Reachable(c, cap, DoSplice(DoRefill(s, 0, r), 0))
  {
    var s1 := DoRefill(s, 0, r);
    assert Next(c, cap, s, Step.Refill(0, got), s1);
    ReachNext(c, cap, s, Step.Refill(0, got), s1);
    ReachNext(c, cap, s1, Splice(0), DoSplice(s1, 0));
  }

  /** A refill, its splice, and mallocs until the bin is empty. */
  lemma TakeAll(c: SizeClass, cap: nat, p: Pool, used: set<Slot>, hidden: set<Slot>, alias: map<SlabId, SlabId>,
                got: Option<nat>, r: Taken)
    requires Reach(c, cap, p, used, hidden, alias) && FreshOk(p, got) && Refills(c, p, Want(cap), got, r)
    requires r.batch != []
    ensures Reach(c, cap, r.pool, used + Elems(r.batch), hidden, alias)
  {
    var s :| Reachable(c, cap, s) && Quiet(s, p, used, [], hidden, alias);
    var b := r.batch;
    assert Held(s, Batch(0)) == [];
    RefillThenSplice(c, cap, s, got, r);
    SpliceQuiet(s, p, used, hidden, alias, r);
    PopAll(c, cap, DoSplice(DoRefill(s, 0, r), 0), r.pool, used + {b[0]}, b[1..], hidden, alias);
    HeadFirst(b, used);
  }

  lemma FreeQuiet(s: State, p: Pool, used: set<Slot>, hidden: set<Slot>, alias: map<SlabId, SlabId>, i: nat, r: Freed)
    requires Quiet(s, p, used, [], hidden, alias) && i < |Held(s, User)| && NoDup(Held(s, User))
    ensures Quiet(DoFreeOne(s, i, r), r.pool, used - {Held(s, User)[i]}, [], hidden, alias)
  {
    var u := Held(s, User);
    RemoveAtElems(u, i);
    assert Elems(RemoveAt(u, i)) == used - {u[i]};
    assert Held(DoFreeOne(s, i, r), User) == RemoveAt(u, i);
  }

  lemma FreeStep(c: SizeClass, cap: nat, s: State, i: nat, r: Freed)
    requires Reachable(c, cap, s) && i < |Held(s, User)| && Frees(c, s.pool, Held(s, User)[i], r)
    ensures Reachable(c, cap, DoFreeOne(s, i, r))
  {
    assert Next(c, cap, s, FreeOne(i), DoFreeOne(s, i, r));
    ReachNext(c, cap, s, FreeOne(i), DoFreeOne(s, i, r));
  }

  /** A free without a cache. */
  lemma FreeReached(c: SizeClass, cap: nat, p: Pool, used: set<Slot>, hidden: set<Slot>, alias: map<SlabId, SlabId>,
                    x: Slot, r: Freed)
    requires c.Valid() && cap >= 2
    requires Reach(c, cap, p, used, hidden, alias) && x in used && Frees(c, p, x, r)
    ensures Reach(c, cap, r.pool, used - {x}, hidden, alias)
  {
    var s :| Reachable(c, cap, s) && Quiet(s, p, used, [], hidden, alias);
    ReachInv(c, cap, s);
    assert x in Elems(Held(s, User));
    var i :| 0 <= i < |Held(s, User)| && Held(s, User)[i] == x;
    FreeStep(c, cap, s, i, r);
    FreeQuiet(s, p, used, hidden, alias, i, r);
  }

  /** A mesh whose donor backs no other slab. */
  lemma MeshReached(c: SizeClass, cap: nat, p: Pool, used: set<Slot>, hidden: set<Slot>, alias: map<SlabId, SlabId>,
                    r: SlabId, d: SlabId, ok: bool)
    requires Reach(c, cap, p, used, hidden, alias) && Meshable(c, p, r, d) && d !in alias.Values
    ensures Reach(c, cap, Mesh(c, p, r, d), used, hidden + DonorHeld(c, p, r, d), Remapped(alias, r, d, ok))
  {
    var s :| Reachable(c, cap, s) && Quiet(s, p, used, [], hidden, alias);
    var s' := DoMesh(c, s, r, d, ok);
    ReachNext(c, cap, s, MeshPair(r, d, ok), s');
    assert Quiet(s', Mesh(c, p, r, d), used, [], hidden + DonorHeld(c, p, r, d), Remapped(alias, r, d, ok));
  }
}
