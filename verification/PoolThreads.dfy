/** One pool shared by any number of threads. Locked sections are single steps;
    the splice after the lock is dropped is a private step; a flush is one step
    per slot. Slots in flight belong to exactly one holder. */
module PoolThreads {
  import opened Seqs
  import opened Geometry
  import opened PoolSpec
  import opened PoolProofs
  import opened Aliasing

  datatype Holder = Bin(t: nat) | Batch(t: nat) | User

  datatype Phase = Ready | Flushing(keep: nat)

  datatype State = State(
    pool: Pool,
    held: map<Holder, seq<Slot>>,
    phase: map<nat, Phase>,
    hidden: set<Slot>,             // recipient slots lost to donor objects
    alias: map<SlabId, SlabId>)    // retired donor -> slab whose pages back it

  const INIT := State(EMPTY, map[], map[], {}, map[])

  function Held(s: State, h: Holder): seq<Slot> {
    if h in s.held then s.held[h] else []
  }

  function PhaseOf(s: State, t: nat): Phase {
    if t in s.phase then s.phase[t] else Ready
  }

  ghost function Out(s: State): set<Slot> {
    set h, x | h in s.held && x in s.held[h] :: x
  }

  datatype Step =
    | Pop(t: nat)                                   // malloc, bin hit
    | Refill(t: nat, got: Option<nat>)              // malloc, bin miss: locked section
    | Splice(t: nat)                                // malloc, bin miss: after unlock
    | Give(t: nat, i: nat)                          // free of the i-th user slot into the bin
    | Flush(t: nat)                                 // one iteration of a flush
    | Exit(t: nat)                                  // thread exit starts draining the bin
    | FreeOne(i: nat)                               // free without a thread cache
    | MeshPair(r: SlabId, d: SlabId, remapped: bool)

  function Want(cap: nat): nat {
    if cap / 2 < 1 then 1 else cap / 2
  }

  function RemoveAt<T>(s: seq<T>, i: nat): seq<T>
    requires i < |s|
  {
    s[..i] + s[i + 1..]
  }

  ghost predicate Enabled(c: SizeClass, cap: nat, s: State, a: Step) {
    match a
    case Pop(t) => PhaseOf(s, t) == Ready && Held(s, Batch(t)) == [] && Held(s, Bin(t)) != []
    case Refill(t, got) =>
      PhaseOf(s, t) == Ready && Held(s, Batch(t)) == [] && Held(s, Bin(t)) == [] && FreshOk(s.pool, got)
    case Splice(t) => PhaseOf(s, t) == Ready && Held(s, Batch(t)) != []
    case Give(t, i) => PhaseOf(s, t) == Ready && Held(s, Batch(t)) == [] && i < |Held(s, User)|
    case Flush(t) => PhaseOf(s, t).Flushing? && PhaseOf(s, t).keep < |Held(s, Bin(t))|
    case Exit(t) => PhaseOf(s, t) == Ready && Held(s, Batch(t)) == [] && Held(s, Bin(t)) != []
    case FreeOne(i) => i < |Held(s, User)|
    case MeshPair(r, d, _) => Meshable(c, s.pool, r, d) && d !in s.alias.Values
  }

  function Settle(cap: nat, n: nat): Phase {
    if n > cap then Flushing(cap / 2) else Ready
  }

  function FlushPhase(keep: nat, n: nat): Phase {
    if n > keep then Flushing(keep) else Ready
  }

  function DoPop(s: State, t: nat): State
    requires Held(s, Bin(t)) != []
  {
    var b := Held(s, Bin(t));
    s.(held := s.held[Bin(t) := b[1..]][User := [b[0]] + Held(s, User)])
  }

  function DoRefill(s: State, t: nat, r: Taken): State {
    s.(pool := r.pool, held := s.held[Batch(t) := r.batch])
  }

  function DoSplice(s: State, t: nat): State
    requires Held(s, Batch(t)) != []
  {
    var b := Held(s, Batch(t));
    s.(held := s.held[Batch(t) := []][User := [b[0]] + Held(s, User)][Bin(t) := b[1..] + Held(s, Bin(t))])
  }

  function DoGive(cap: nat, s: State, t: nat, i: nat): State
    requires i < |Held(s, User)|
  {
    var u := Held(s, User);
    s.(held := s.held[User := RemoveAt(u, i)][Bin(t) := [u[i]] + Held(s, Bin(t))],
       phase := s.phase[t := Settle(cap, |Held(s, Bin(t))| + 1)])
  }

  function DoFlush(s: State, t: nat, keep: nat, r: Freed): State
    requires Held(s, Bin(t)) != []
  {
    var b := Held(s, Bin(t));
    s.(pool := r.pool, held := s.held[Bin(t) := b[1..]], phase := s.phase[t := FlushPhase(keep, |b| - 1)])
  }

  function DoFreeOne(s: State, i: nat, r: Freed): State
    requires i < |Held(s, User)|
  {
    s.(pool := r.pool, held := s.held[User := RemoveAt(Held(s, User), i)])
  }

  function DoMesh(c: SizeClass, s: State, r: SlabId, d: SlabId, remapped: bool): State
    requires c.Valid() && r in s.pool.slabs && d in s.pool.slabs
  {
    s.(pool := Mesh(c, s.pool, r, d), hidden := s.hidden + DonorHeld(c, s.pool, r, d),
       alias := Remapped(s.alias, r, d, remapped))
  }

  ghost predicate Next(c: SizeClass, cap: nat, s: State, a: Step, s': State) {
    Enabled(c, cap, s, a) &&
    match a
    case Pop(t) => s' == DoPop(s, t)
    case Refill(t, got) => exists r :: Refills(c, s.pool, Want(cap), got, r) && s' == DoRefill(s, t, r)
    case Splice(t) => s' == DoSplice(s, t)
    case Give(t, i) => s' == DoGive(cap, s, t, i)
    case Flush(t) =>
      exists r :: Frees(c, s.pool, Held(s, Bin(t))[0], r) && s' == DoFlush(s, t, PhaseOf(s, t).keep, r)
    case Exit(t) => s' == s.(phase := s.phase[t := Flushing(0)])
    case FreeOne(i) => exists r :: Frees(c, s.pool, Held(s, User)[i], r) && s' == DoFreeOne(s, i, r)
    case MeshPair(r, d, remapped) => s' == DoMesh(c, s, r, d, remapped)
  }

  // ---- invariant ----

  // No slot appears twice, within a holder or across holders.
  ghost predicate Exclusive(held: map<Holder, seq<Slot>>) {
    && (forall h :: h in held ==> NoDup(held[h]))
    && (forall g, h, x :: g in held && h in held && x in held[g] && x in held[h] ==> g == h)
  }

  // A thread's bin is within its cap between calls, and one over while a flush is due.
  predicate CapAt(cap: nat, bin: nat, batch: nat, ph: Phase) {
    && bin <= cap + 1 && (ph == Ready ==> bin <= cap) && (ph.Flushing? ==> batch == 0 && ph.keep <= cap)
    && batch <= Want(cap) && (batch > 0 ==> bin == 0)
  }

  ghost predicate CapOk(cap: nat, s: State) {
    cap >= 2 && forall t :: CapOf(cap, s, t)
  }

  ghost predicate SlotsOk(c: SizeClass, s: State) {
    && PoolInv(c, s.pool, Out(s), s.hidden)
    && Exclusive(s.held)
    && AliasOk(s.pool, Out(s), s.hidden, s.alias)
  }

  ghost predicate Inv(c: SizeClass, cap: nat, s: State) {
    SlotsOk(c, s) && CapOk(cap, s)
  }

  // ---- moving slots between holders ----

  lemma OutIff(s: State, x: Slot)
    ensures x in Out(s) <==> exists h :: h in s.held && x in s.held[h]
  {}

  lemma RemoveAtElems<T(!new)>(s: seq<T>, i: nat)
    requires NoDup(s) && i < |s|
    ensures NoDup(RemoveAt(s, i)) && |RemoveAt(s, i)| == |s| - 1
    ensures forall x :: x in RemoveAt(s, i) <==> x in s && x != s[i]
  {
    assert s == s[..i] + [s[i]] + s[i + 1..];
  }

  // Slot x goes from holder g to holder h, nothing else changes.
  ghost predicate Moved(held: map<Holder, seq<Slot>>, held': map<Holder, seq<Slot>>, g: Holder, h: Holder,
                        xs: set<Slot>) {
    && g != h && g in held && held'.Keys == held.Keys + {h}
    && NoDup(held'[g]) && NoDup(held'[h])
    && xs <= Elems(held[g])
    && (forall x :: x in held'[g] <==> x in held[g] && x !in xs)
    && (forall x :: x in held'[h] <==> (h in held && x in held[h]) || x in xs)
    && (forall k :: k in held && k != g && k != h ==> held'[k] == held[k])
  }

  lemma MovedExclusive(held: map<Holder, seq<Slot>>, held': map<Holder, seq<Slot>>, g: Holder, h: Holder, xs: set<Slot>)
    requires Exclusive(held) && Moved(held, held', g, h, xs)
    ensures Exclusive(held')
  {
    forall a, b, x | a in held' && b in held' && x in held'[a] && x in held'[b] ensures a == b {
      MovedTogether(held, held', g, h, xs, a, b, x);
    }
  }

  lemma MovedTogether(held: map<Holder, seq<Slot>>, held': map<Holder, seq<Slot>>, g: Holder, h: Holder, xs: set<Slot>,
                      a: Holder, b: Holder, x: Slot)
    requires Exclusive(held) && Moved(held, held', g, h, xs)
    requires a in held' && b in held' && x in held'[a] && x in held'[b]
    ensures a == b
  {
    assert x in xs ==> x in held[g];
  }

  lemma MovedOut(s: State, s': State, g: Holder, h: Holder, xs: set<Slot>)
    requires Moved(s.held, s'.held, g, h, xs)
    ensures Out(s') == Out(s)
  {
    forall x ensures x in Out(s') <==> x in Out(s) {
      if x in Out(s) {
        var k :| k in s.held && x in s.held[k];
        if k == g && x in xs { assert h in s'.held && x in s'.held[h]; }
          else { assert k in s'.held && x in s'.held[k]; }
      }
      if x in Out(s') {
        var k :| k in s'.held && x in s'.held[k];
        if x in xs { assert g in s.held && x in s.held[g]; } else { assert k in s.held && x in s.held[k]; }
      }
    }
  }

  lemma PopMoves(s: State, t: nat)
    requires Exclusive(s.held) && Held(s, Bin(t)) != []
    ensures Moved(s.held, DoPop(s, t).held, Bin(t), User, {Held(s, Bin(t))[0]})
  {
    var b := Held(s, Bin(t));
    NoDupTail(b);
    assert b == [b[0]] + b[1..];
    assert User in s.held ==> b[0] !in s.held[User];
    NoDupPush(b[0], Held(s, User));
  }

  lemma GiveMoves(cap: nat, s: State, t: nat, i: nat)
    requires Exclusive(s.held) && i < |Held(s, User)|
    ensures Moved(s.held, DoGive(cap, s, t, i).held, User, Bin(t), {Held(s, User)[i]})
  {
    var u := Held(s, User);
    RemoveAtElems(u, i);
    assert Bin(t) in s.held ==> u[i] !in s.held[Bin(t)];
    NoDupPush(u[i], Held(s, Bin(t)));
  }

  // The splice as two moves: the head to the user, then the rest to the bin.
  function HalfSplice(s: State, t: nat): State
    requires Held(s, Batch(t)) != []
  {
    var b := Held(s, Batch(t));
    s.(held := s.held[Batch(t) := b[1..]][User := [b[0]] + Held(s, User)])
  }

  lemma SpliceMovesHead(s: State, t: nat)
    requires Exclusive(s.held) && Held(s, Batch(t)) != []
    ensures Moved(s.held, HalfSplice(s, t).held, Batch(t), User, {Held(s, Batch(t))[0]})
  {
    var b := Held(s, Batch(t));
    NoDupTail(b);
    assert b == [b[0]] + b[1..];
    assert User in s.held ==> b[0] !in s.held[User];
    NoDupPush(b[0], Held(s, User));
  }

  lemma SpliceMovesRest(s: State, t: nat)
    requires Exclusive(s.held) && Held(s, Batch(t)) != []
    requires Exclusive(HalfSplice(s, t).held)
    ensures Moved(HalfSplice(s, t).held, DoSplice(s, t).held, Batch(t), Bin(t), Elems(Held(s, Batch(t))[1..]))
  {
    var b, m := Held(s, Batch(t)), HalfSplice(s, t);
    assert Held(m, Batch(t)) == b[1..] && Held(m, Bin(t)) == Held(s, Bin(t));
    NoDupTail(b);
    NoDupConcat(b[1..], Held(s, Bin(t)));
    assert DoSplice(s, t).held.Keys == m.held.Keys + {Bin(t)};
  }

  lemma SpliceKeeps(s: State, t: nat)
    requires Exclusive(s.held) && Held(s, Batch(t)) != []
    ensures Exclusive(DoSplice(s, t).held) && Out(DoSplice(s, t)) == Out(s)
  {
    var m := HalfSplice(s, t);
    var b := Held(s, Batch(t));
    SpliceMovesHead(s, t);
    MovedExclusive(s.held, m.held, Batch(t), User, {b[0]});
    MovedOut(s, m, Batch(t), User, {b[0]});
    SpliceMovesRest(s, t);
    MovedExclusive(m.held, DoSplice(s, t).held, Batch(t), Bin(t), Elems(b[1..]));
    MovedOut(m, DoSplice(s, t), Batch(t), Bin(t), Elems(b[1..]));
  }

  lemma RefillKeeps(s: State, t: nat, r: Taken)
    requires Exclusive(s.held) && Held(s, Batch(t)) == [] && NoDup(r.batch) && Elems(r.batch) !! Out(s)
    ensures Exclusive(DoRefill(s, t, r).held) && Out(DoRefill(s, t, r)) == Out(s) + Elems(r.batch)
  {
    var s' := DoRefill(s, t, r);
    forall h, x | h in s.held && x in s.held[h] ensures x in Out(s) { OutIff(s, x); }
    forall g, h, x | g in s'.held && h in s'.held && x in s'.held[g] && x in s'.held[h] ensures g == h {
      assert x in r.batch ==> x in Elems(r.batch);
    }
    forall x ensures x in Out(s') <==> x in Out(s) || x in r.batch {
      OutIff(s, x);
      OutIff(s', x);
      if x in r.batch { assert x in s'.held[Batch(t)]; }
      if x in Out(s) {
        var h :| h in s.held && x in s.held[h];
        assert h in s'.held && x in s'.held[h];
      }
    }
  }

  // Holder g loses x and nothing else changes.
  ghost predicate Dropped(held: map<Holder, seq<Slot>>, held': map<Holder, seq<Slot>>, g: Holder, x: Slot) {
    && g in held && x in held[g] && held'.Keys == held.Keys && NoDup(held'[g])
    && (forall y :: y in held'[g] <==> y in held[g] && y != x)
    && (forall k :: k in held && k != g ==> held'[k] == held[k])
  }

  lemma DroppedKeeps(s: State, s': State, g: Holder, x: Slot)
    requires Exclusive(s.held) && Dropped(s.held, s'.held, g, x)
    ensures Exclusive(s'.held) && Out(s') == Out(s) - {x} && x in Out(s)
  {
    OutIff(s, x);
    forall y ensures y in Out(s') <==> y in Out(s) && y != x {
      OutIff(s, y);
      OutIff(s', y);
      if y in Out(s) && y != x {
        var h :| h in s.held && y in s.held[h];
        assert h in s'.held && y in s'.held[h];
      }
    }
  }

  lemma FlushDrops(s: State, t: nat, keep: nat, r: Freed)
    requires Exclusive(s.held) && Held(s, Bin(t)) != []
    ensures Dropped(s.held, DoFlush(s, t, keep, r).held, Bin(t), Held(s, Bin(t))[0])
  {
    var b := Held(s, Bin(t));
    NoDupTail(b);
    assert b == [b[0]] + b[1..];
  }

  lemma FreeOneDrops(s: State, i: nat, r: Freed)
    requires Exclusive(s.held) && i < |Held(s, User)|
    ensures Dropped(s.held, DoFreeOne(s, i, r).held, User, Held(s, User)[i])
  {
    RemoveAtElems(Held(s, User), i);
  }

  // ---- every step keeps the invariant ----

  lemma PopInv(c: SizeClass, s: State, t: nat)
    requires SlotsOk(c, s) && Held(s, Bin(t)) != []
    ensures SlotsOk(c, DoPop(s, t))
  {
    var s', x := DoPop(s, t), Held(s, Bin(t))[0];
    PopMoves(s, t);
    MovedExclusive(s.held, s'.held, Bin(t), User, {x});
    MovedOut(s, s', Bin(t), User, {x});
  }

  lemma GiveInv(c: SizeClass, cap: nat, s: State, t: nat, i: nat)
    requires SlotsOk(c, s) && i < |Held(s, User)|
    ensures SlotsOk(c, DoGive(cap, s, t, i))
  {
    var s', x := DoGive(cap, s, t, i), Held(s, User)[i];
    GiveMoves(cap, s, t, i);
    MovedExclusive(s.held, s'.held, User, Bin(t), {x});
    MovedOut(s, s', User, Bin(t), {x});
  }

  lemma RefillStepInv(c: SizeClass, s: State, t: nat, want: nat, got: Option<nat>, r: Taken)
    requires SlotsOk(c, s) && Held(s, Batch(t)) == [] && FreshOk(s.pool, got)
    requires want >= 1 && Refills(c, s.pool, want, got, r)
    ensures SlotsOk(c, DoRefill(s, t, r)) && |r.batch| <= want
  {
    RefillInv(c, s.pool, Out(s), s.hidden, want, got);
    RefillKeeps(s, t, r);
    AliasRefill(c, s.pool, Out(s), s.hidden, s.alias, want, got, r);
  }

  // Slot x leaves holder g for its slab's freelist.
  lemma ReturnInv(c: SizeClass, s: State, s': State, g: Holder, x: Slot, r: Freed)
    requires SlotsOk(c, s) && Dropped(s.held, s'.held, g, x) && Frees(c, s.pool, x, r)
    requires s'.pool == r.pool && s'.hidden == s.hidden && s'.alias == s.alias
    ensures SlotsOk(c, s')
  {
    DroppedKeeps(s, s', g, x);
    FreeSlotInv(c, s.pool, Out(s), s.hidden, x);
    AliasFree(c, s.pool, Out(s), s.hidden, s.alias, x, r);
  }

  lemma MeshPairInv(c: SizeClass, s: State, r: SlabId, d: SlabId, remapped: bool)
    requires SlotsOk(c, s) && Meshable(c, s.pool, r, d) && d !in s.alias.Values
    ensures SlotsOk(c, DoMesh(c, s, r, d, remapped))
  {
    var s' := DoMesh(c, s, r, d, remapped);
    assert Out(s') == Out(s);
    MeshInv(c, s.pool, Out(s), s.hidden, r, d);
    AliasMesh(c, s.pool, Out(s), s.hidden, s.alias, r, d, remapped);
  }

  lemma StepSlots(c: SizeClass, cap: nat, s: State, a: Step, s': State)
    requires SlotsOk(c, s) && Next(c, cap, s, a, s')
    ensures SlotsOk(c, s')
  {
    match a
    case Pop(t) => PopInv(c, s, t);
    case Refill(t, got) =>
      var r :| Refills(c, s.pool, Want(cap), got, r) && s' == DoRefill(s, t, r);
      RefillStepInv(c, s, t, Want(cap), got, r);
    case Splice(t) => SpliceKeeps(s, t);
    case Give(t, i) => GiveInv(c, cap, s, t, i);
    case Flush(t) =>
      var r :| Frees(c, s.pool, Held(s, Bin(t))[0], r) && s' == DoFlush(s, t, PhaseOf(s, t).keep, r);
      FlushDrops(s, t, PhaseOf(s, t).keep, r);
      ReturnInv(c, s, s', Bin(t), Held(s, Bin(t))[0], r);
    case Exit(t) => assert Out(s') == Out(s);
    case FreeOne(i) =>
      var r :| Frees(c, s.pool, Held(s, User)[i], r) && s' == DoFreeOne(s, i, r);
      FreeOneDrops(s, i, r);
      ReturnInv(c, s, s', User, Held(s, User)[i], r);
    case MeshPair(r, d, remapped) => MeshPairInv(c, s, r, d, remapped);
  }

  ghost predicate CapOf(cap: nat, s: State, u: nat) {
    CapAt(cap, |Held(s, Bin(u))|, |Held(s, Batch(u))|, PhaseOf(s, u))
  }

  lemma CapMalloc(c: SizeClass, cap: nat, s: State, t: nat, u: nat)
    requires cap >= 2 && CapOf(cap, s, u) && PhaseOf(s, t) == Ready
    ensures Held(s, Bin(t)) != [] ==> CapOf(cap, DoPop(s, t), u)
    ensures Held(s, Batch(t)) != [] ==> CapOf(cap, DoSplice(s, t), u)
  {}

  lemma CapRefill(cap: nat, s: State, t: nat, r: Taken, u: nat)
    requires cap >= 2 && CapOf(cap, s, u) && PhaseOf(s, t) == Ready
    requires Held(s, Bin(t)) == [] && |r.batch| <= Want(cap)
    ensures CapOf(cap, DoRefill(s, t, r), u)
  {}

  lemma CapGive(cap: nat, s: State, t: nat, i: nat, u: nat)
    requires cap >= 2 && CapOf(cap, s, u) && i < |Held(s, User)|
    requires PhaseOf(s, t) == Ready && Held(s, Batch(t)) == []
    ensures CapOf(cap, DoGive(cap, s, t, i), u)
  {}

  lemma CapFlush(cap: nat, s: State, t: nat, keep: nat, r: Freed, u: nat)
    requires cap >= 2 && CapOf(cap, s, u) && PhaseOf(s, t) == Flushing(keep) && keep < |Held(s, Bin(t))|
    requires keep <= cap
    ensures CapOf(cap, DoFlush(s, t, keep, r), u)
  {}

  lemma StepCap(c: SizeClass, cap: nat, s: State, a: Step, s': State, u: nat)
    requires SlotsOk(c, s) && CapOk(cap, s) && Next(c, cap, s, a, s')
    ensures CapOf(cap, s', u)
  {
    assert CapOf(cap, s, u);
    match a
    case Pop(t) => CapMalloc(c, cap, s, t, u);
    case Refill(t, got) =>
      var r :| Refills(c, s.pool, Want(cap), got, r) && s' == DoRefill(s, t, r);
      RefillInv(c, s.pool, Out(s), s.hidden, Want(cap), got);
      CapRefill(cap, s, t, r, u);
    case Splice(t) => CapMalloc(c, cap, s, t, u);
    case Give(t, i) => CapGive(cap, s, t, i, u);
    case Flush(t) =>
      var r :| Frees(c, s.pool, Held(s, Bin(t))[0], r) && s' == DoFlush(s, t, PhaseOf(s, t).keep, r);
      assert CapOf(cap, s, t);
      CapFlush(cap, s, t, PhaseOf(s, t).keep, r, u);
    case _ =>
  }

  lemma StepInv(c: SizeClass, cap: nat, s: State, a: Step, s': State)
    requires Inv(c, cap, s) && Next(c, cap, s, a, s')
    ensures Inv(c, cap, s')
  {
    StepSlots(c, cap, s, a, s');
    forall u ensures CapOf(cap, s', u) {
      StepCap(c, cap, s, a, s', u);
    }
  }

  lemma InitInv(c: SizeClass, cap: nat)
    requires c.Valid() && cap >= 2
    ensures Inv(c, cap, INIT)
  {
    EmptyInv(c);
    assert Out(INIT) == {};
  }

  // ---- runs ----

  ghost predicate StepAt(c: SizeClass, cap: nat, ss: seq<State>, acts: seq<Step>, i: nat)
    requires i < |acts| && |ss| == |acts| + 1
  {
    Next(c, cap, ss[i], acts[i], ss[i + 1])
  }

  /** A run: any interleaving of the steps of any number of threads. */
  ghost predicate Run(c: SizeClass, cap: nat, ss: seq<State>, acts: seq<Step>) {
    && |ss| == |acts| + 1 && ss[0] == INIT
    && forall i: nat {:trigger StepAt(c, cap, ss, acts, i)} :: i < |acts| ==> StepAt(c, cap, ss, acts, i)
  }

  /** The invariant holds in every state of every run. */
  lemma {:induction false} RunInv(c: SizeClass, cap: nat, ss: seq<State>, acts: seq<Step>, n: nat)
    requires c.Valid() && cap >= 2 && Run(c, cap, ss, acts) && n < |ss|
    ensures Inv(c, cap, ss[n])
  {
    if n == 0 {
      InitInv(c, cap);
    } else {
      RunInv(c, cap, ss, acts, n - 1);
      assert StepAt(c, cap, ss, acts, n - 1);
      StepInv(c, cap, ss[n - 1], acts[n - 1], ss[n]);
    }
  }

  ghost predicate Cached(s: State, x: Slot) {
    exists t :: x in Held(s, Bin(t)) || x in Held(s, Batch(t))
  }

  lemma MallocUserGrows(c: SizeClass, cap: nat, s: State, a: Step, s': State)
    requires Next(c, cap, s, a, s') && (a.Pop? || a.Splice?)
    ensures User in s'.held && s'.held[User] != [] && s'.held[User][1..] == Held(s, User)
  {}

  // The newest user slot is with the user alone.
  lemma UserSlotAlone(c: SizeClass, s: State)
    requires SlotsOk(c, s) && Held(s, User) != []
    ensures var x := Held(s, User)[0];
            && x !in Held(s, User)[1..] && !Cached(s, x)
            && x.slab in s.pool.slabs && x.k !in s.pool.slabs[x.slab].free
  {
    var x := Held(s, User)[0];
    assert x in s.held[User];
    OutIff(s, x);
    OutNotFree(c, s.pool, Out(s), s.hidden, x);
    NoDupTail(s.held[User]);
    assert forall t :: Bin(t) in s.held ==> x !in s.held[Bin(t)];
    assert forall t :: Batch(t) in s.held ==> x !in s.held[Batch(t)];
  }

  /** malloc hands out a slot that no one holds: not the user, not any thread's
      cache, not any freelist. */
  lemma MallocReturnsUnheld(c: SizeClass, cap: nat, s: State, a: Step, s': State)
    requires Inv(c, cap, s) && Next(c, cap, s, a, s') && (a.Pop? || a.Splice?)
    ensures Held(s', User) != [] && Held(s', User)[1..] == Held(s, User)
    ensures var x := Held(s', User)[0];
            && x !in Held(s, User) && !Cached(s', x)
            && x.slab in s'.pool.slabs && x.k !in s'.pool.slabs[x.slab].free
  {
    StepSlots(c, cap, s, a, s');
    MallocUserGrows(c, cap, s, a, s');
    UserSlotAlone(c, s');
  }

  /** Outside mesh mode every slot of every carved slab is either on its slab's
      freelist or with exactly one holder. */
  lemma OnePlaceEach(c: SizeClass, cap: nat, s: State, x: Slot)
    requires Inv(c, cap, s) && s.hidden == {} && x.slab in s.pool.slabs && x.k < c.slots
    ensures x.k in s.pool.slabs[x.slab].free <==> !exists h :: x in Held(s, h)
    ensures forall g, h :: x in Held(s, g) && x in Held(s, h) ==> g == h
  {
    assert SlabParts(c.slots, x.slab, s.pool.slabs[x.slab].free, Out(s), s.hidden);
    assert OnePlace(s.pool.slabs[x.slab].free, Slot(x.slab, x.k), Out(s), s.hidden);
    OutIff(s, x);
    if x in Out(s) {
      var h :| h in s.held && x in s.held[h];
      assert x in Held(s, h);
    }
    assert forall h :: x in Held(s, h) ==> h in s.held && x in s.held[h];
  }

  // No slot of the chunk or slab given back is held, and none backs a meshed slab.
  ghost predicate Idle(s': State, r: Freed) {
    && (r.disposed.Some? ==> forall h, y :: y in Held(s', h) ==> y.slab.chunk != r.disposed.value)
    && (r.disposed.Some? ==> forall d :: d in s'.alias ==>
          d.chunk != r.disposed.value && s'.alias[d].chunk != r.disposed.value)
    && (r.released.Some? ==> forall h, y :: y in Held(s', h) ==> y.slab != r.released.value)
    && (r.released.Some? ==> forall d :: d in s'.alias ==> d != r.released.value && s'.alias[d] != r.released.value)
  }

  lemma DropIdle(c: SizeClass, cap: nat, s: State, s': State, x: Slot, g: Holder, r: Freed)
    requires Inv(c, cap, s) && Dropped(s.held, s'.held, g, x) && Frees(c, s.pool, x, r)
    requires s'.pool == r.pool && s'.hidden == s.hidden && s'.alias == s.alias
    ensures Idle(s', r)
  {
    DroppedKeeps(s, s', g, x);
    FreeSlotInv(c, s.pool, Out(s), s.hidden, x);
    AliasFree(c, s.pool, Out(s), s.hidden, s.alias, x, r);
    forall h, y | y in Held(s', h) ensures y in Out(s') {
      assert h in s'.held && y in s'.held[h];
    }
    IndexedOk(c, r.pool, Out(s'), s.hidden);
    if r.released.Some? {
      assert Placed(c.slots, r.pool, s.hidden, r.released.value);
      forall d | d in s.alias ensures d != r.released.value && s.alias[d] != r.released.value {
        assert HasHidden(s.hidden, s.alias[d]);
      }
    }
  }

  // The free of x, if it was one, gave back only what is idle.
  ghost predicate FreedIdle(c: SizeClass, s: State, x: Slot, s': State) {
    exists r :: Frees(c, s.pool, x, r) && s'.pool == r.pool && Idle(s', r)
  }

  lemma FlushIdle(c: SizeClass, cap: nat, s: State, t: nat, s': State)
    requires Inv(c, cap, s) && Next(c, cap, s, Flush(t), s')
    ensures FreedIdle(c, s, Held(s, Bin(t))[0], s')
  {
    var r :| Frees(c, s.pool, Held(s, Bin(t))[0], r) && s' == DoFlush(s, t, PhaseOf(s, t).keep, r);
    FlushDrops(s, t, PhaseOf(s, t).keep, r);
    DropIdle(c, cap, s, s', Held(s, Bin(t))[0], Bin(t), r);
  }

  lemma FreeOneIdle(c: SizeClass, cap: nat, s: State, i: nat, s': State)
    requires Inv(c, cap, s) && Next(c, cap, s, FreeOne(i), s')
    ensures FreedIdle(c, s, Held(s, User)[i], s')
  {
    var r :| Frees(c, s.pool, Held(s, User)[i], r) && s' == DoFreeOne(s, i, r);
    FreeOneDrops(s, i, r);
    DropIdle(c, cap, s, s', Held(s, User)[i], User, r);
  }

  lemma RefillKeepsChunks(c: SizeClass, p: Pool, want: nat, got: Option<nat>, r: Taken)
    requires Refills(c, p, want, got, r)
    ensures p.live.Keys <= r.pool.live.Keys
  {}

  /** A step gives a chunk back, or releases a slab's pages, only when no slot of it
      is in user hands or in any thread's cache, and none backs a meshed slab. */
  lemma ReclaimedIsIdle(c: SizeClass, cap: nat, s: State, a: Step, s': State)
    requires Inv(c, cap, s) && Next(c, cap, s, a, s')
    ensures match a
            case Flush(t) => FreedIdle(c, s, Held(s, Bin(t))[0], s')
            case FreeOne(i) => FreedIdle(c, s, Held(s, User)[i], s')
            case _ => s.pool.live.Keys <= s'.pool.live.Keys
  {
    match a
    case Flush(t) => FlushIdle(c, cap, s, t, s');
    case FreeOne(i) => FreeOneIdle(c, cap, s, i, s');
    case Refill(t, got) =>
      var r :| Refills(c, s.pool, Want(cap), got, r) && s' == DoRefill(s, t, r);
      RefillKeepsChunks(c, s.pool, Want(cap), got, r);
    case _ =>
  }

  /** After meshing, two different slots in use never share backing bytes. */
  lemma NoSharing(c: SizeClass, cap: nat, s: State, x: Slot, y: Slot)
    requires Inv(c, cap, s) && x in Out(s) && y in Out(s) && x != y
    ensures Backing(s.alias, x) != Backing(s.alias, y)
    ensures var a, b := Addr(c, Backing(s.alias, x)), Addr(c, Backing(s.alias, y));
            a + c.size <= b || b + c.size <= a
  {
    BackingsApart(c, s.pool, Out(s), s.hidden, s.alias, x, y);
  }

  lemma HiddenGrows(c: SizeClass, cap: nat, s: State, a: Step, s': State)
    requires Next(c, cap, s, a, s')
    ensures s.hidden <= s'.hidden
  {}

  lemma {:induction false} HiddenMono(c: SizeClass, cap: nat, ss: seq<State>, acts: seq<Step>, m: nat, n: nat)
    requires Run(c, cap, ss, acts) && m <= n < |ss|
    ensures ss[m].hidden <= ss[n].hidden
    decreases n - m
  {
    if m == n {
    } else {
      HiddenMono(c, cap, ss, acts, m, n - 1);
      assert StepAt(c, cap, ss, acts, n - 1);
      HiddenGrows(c, cap, ss[n - 1], acts[n - 1], ss[n]);
    }
  }

  /** Slots lost to donor objects stay lost: they never return to a freelist and
      are never handed out again. */
  lemma HiddenForever(c: SizeClass, cap: nat, ss: seq<State>, acts: seq<Step>, m: nat, n: nat, x: Slot)
    requires c.Valid() && cap >= 2 && Run(c, cap, ss, acts) && m <= n < |ss| && x in ss[m].hidden
    ensures x.slab in ss[n].pool.slabs && x.k !in ss[n].pool.slabs[x.slab].free && x !in Out(ss[n])
  {
    HiddenMono(c, cap, ss, acts, m, n);
    RunInv(c, cap, ss, acts, n);
    OutNotFree(c, ss[n].pool, Out(ss[n]), ss[n].hidden, x);
  }

  // ---- runs without meshing ----

  ghost predicate NoRetired(p: Pool) {
    forall s :: s in p.slabs ==> !p.slabs[s].retired
  }

  lemma FreeNoRetired(c: SizeClass, p: Pool, x: Slot, r: Freed)
    requires NoRetired(p) && Frees(c, p, x, r)
    ensures NoRetired(r.pool)
  {}

  lemma SlabNewNoRetired(c: SizeClass, p: Pool, got: Option<nat>)
    requires c.Valid() && Indexed(p) && NoRetired(p) && SlabNew(c, p, got).Some?
    ensures var (q, s) := SlabNew(c, p, got).value; NoRetired(Push(q, s)) && s in q.slabs
  {}

  lemma RefillNoRetired(c: SizeClass, p: Pool, want: nat, got: Option<nat>, r: Taken)
    requires NoRetired(p) && Refills(c, p, want, got, r)
    ensures NoRetired(r.pool)
  {
    if p.partial == [] && SlabNew(c, p, got).Some? { SlabNewNoRetired(c, p, got); }
  }

  lemma {:induction false} UnmeshedRun(c: SizeClass, cap: nat, ss: seq<State>, acts: seq<Step>, n: nat)
    requires c.Valid() && cap >= 2 && Run(c, cap, ss, acts) && n < |ss|
    requires forall i :: 0 <= i < n ==> !acts[i].MeshPair?
    ensures ss[n].hidden == {} && NoRetired(ss[n].pool)
  {
    if n == 0 {
    } else {
      UnmeshedRun(c, cap, ss, acts, n - 1);
      var s, a, s' := ss[n - 1], acts[n - 1], ss[n];
      assert StepAt(c, cap, ss, acts, n - 1);
      match a
      case Refill(t, got) =>
        var r :| Refills(c, s.pool, Want(cap), got, r) && s' == DoRefill(s, t, r);
        RefillNoRetired(c, s.pool, Want(cap), got, r);
      case Flush(t) =>
        var r :| Frees(c, s.pool, Held(s, Bin(t))[0], r) && s' == DoFlush(s, t, PhaseOf(s, t).keep, r);
        FreeNoRetired(c, s.pool, Held(s, Bin(t))[0], r);
      case FreeOne(i) =>
        var r :| Frees(c, s.pool, Held(s, User)[i], r) && s' == DoFreeOne(s, i, r);
        FreeNoRetired(c, s.pool, Held(s, User)[i], r);
      case _ =>
    }
  }

  /** When every slot has been freed and every cache flushed, the pool owns no
      chunk, its lists are empty and nothing is outstanding. */
  lemma DrainedRunOwnsNothing(c: SizeClass, cap: nat, ss: seq<State>, acts: seq<Step>, n: nat)
    requires c.Valid() && cap >= 2 && Run(c, cap, ss, acts) && n < |ss|
    requires forall i :: 0 <= i < n ==> !acts[i].MeshPair?
    requires forall h :: Held(ss[n], h) == []
    ensures var p := ss[n].pool;
            && p.chunks == [] && p.partial == [] && p.warm == [] && p.cold == []
            && p.slabs == map[] && p.outstanding == 0
  {
    RunInv(c, cap, ss, acts, n);
    UnmeshedRun(c, cap, ss, acts, n);
    forall x ensures x !in Out(ss[n]) {
      OutIff(ss[n], x);
      assert forall h :: h in ss[n].held ==> ss[n].held[h] == Held(ss[n], h);
    }
    assert Out(ss[n]) == {};
    IdlePoolIsEmpty(c, ss[n].pool);
  }

  /** Outside mesh mode refill fails exactly when no slot of the pool is free, no slab is
      left to cut from the active chunk, and no chunk can be obtained. */
  lemma UnmeshedRefillFails(c: SizeClass, cap: nat, ss: seq<State>, acts: seq<Step>, n: nat, want: nat,
                            got: Option<nat>)
    requires c.Valid() && cap >= 2 && Run(c, cap, ss, acts) && n < |ss| && want >= 1 && FreshOk(ss[n].pool, got)
    requires forall i :: 0 <= i < n ==> !acts[i].MeshPair?
    ensures var p := ss[n].pool;
            && Indexed(p) && (p.partial != [] ==> p.partial[0] in p.slabs)
            && (PoolSpec.Refill(c, p, want, got).batch == [] <==> Dry(c, p) && got.None?)
  {
    RunInv(c, cap, ss, acts, n);
    UnmeshedRun(c, cap, ss, acts, n);
    var s := ss[n];
    RefillInv(c, s.pool, Out(s), {}, want, got);
    if s.pool.partial != [] { PartialIffPartlyFree(c, s.pool, Out(s), s.pool.partial[0]); }
  }

  /** A mesh leaves the recipient on the partial list with nothing free exactly
      when each slot was free in just one of the two slabs; the next refill from
      it then returns NULL although memory is available. */
  lemma HalfAndHalfMesh(c: SizeClass, p: Pool, out: set<Slot>, hidden: set<Slot>, r: SlabId, d: SlabId)
    requires PoolInv(c, p, out, hidden) && Meshable(c, p, r, d)
    ensures var q := Mesh(c, p, r, d);
            && r in q.partial
            && (q.slabs[r].free == [] <==>
                 forall k: nat :: k < c.slots ==> !(k in p.slabs[r].free && k in p.slabs[d].free))
            && (q.slabs[r].free == [] && q.partial[0] == r ==> forall want: nat :: Take(q, want).batch == [])
  {
    WithoutElems(p.partial, {d});
    BothFreeElems(c, p, r, d);
    var b := BothFree(c, p, r, d);
    HasFirst(b);
  }
}
