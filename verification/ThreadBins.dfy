/** One thread's bin for one size class, over the pool it is served by: the
    paths of malloc and free for small objects, as the thread executes them. */
module ThreadBins {
  import opened Bits
  import opened Seqs
  import opened Memory
  import opened Geometry
  import opened PoolSpec
  import opened PoolProofs
  import opened SlotChains
  import opened PoolRep
  import opened PoolSteps
  import SlabPool

  // btm_tls_bin
  datatype Bin = Bin(head: nat, count: nat)

  // The bin's chain, none of whose slots is in other hands: `users` are the slots
  // in user hands and in other threads' bins.
  ghost predicate BinOk(c: SizeClass, alias: map<SlabId, SlabId>, m: Mem, key: nat, bin: Bin,
                        slots: seq<Slot>, users: set<Slot>) {
    ChainOf(c, alias, m, key, bin.head, slots) && bin.count == |slots| && NoDup(slots) && Elems(slots) !! users
  }

  lemma BinKept(c: SizeClass, alias: map<SlabId, SlabId>, m: Mem, m': Mem, key: nat, bin: Bin,
                slots: seq<Slot>, users: set<Slot>, ys: set<Slot>)
    requires BinOk(c, alias, m, key, bin, slots, users) && Kept(c, alias, m, m', ys) && Elems(slots) <= ys
    ensures BinOk(c, alias, m', key, bin, slots, users)
  {
    forall i | 0 <= i < |slots| ensures slots[i] in ys { assert slots[i] in Elems(slots); }
    ChainKept(c, alias, m, m', key, bin.head, slots, ys);
  }

  lemma BinFirst(slots: seq<Slot>, users: set<Slot>)
    requires slots != [] && NoDup(slots) && Elems(slots) !! users
    ensures (users + {slots[0]}) + Elems(slots[1..]) == users + Elems(slots)
    ensures users + Elems(slots) - {slots[0]} == users + Elems(slots[1..])
    ensures slots[0] in Elems(slots) && slots[0] !in users && slots[0] !in slots[1..] && NoDup(slots[1..])
    ensures Elems(slots[1..]) !! users + {slots[0]}
  {
    NoDupTail(slots);
    assert slots == [slots[0]] + slots[1..];
    assert slots[0] in Elems(slots);
  }

  /** malloc, bin hit: the head of the chain is the result. */
  method Pop(c: SizeClass, key: nat, remap: map<nat, nat>, m: Mem, bin: Bin,
             ghost alias: map<SlabId, SlabId>, ghost slots: seq<Slot>, ghost users: set<Slot>)
    returns (bin': Bin, p: nat, ghost x: Slot)
    requires BinOk(c, alias, m, key, bin, slots, users) && bin.head != 0
    requires slots != [] ==> SlotMapped(c, remap, alias, slots[0])
    ensures slots != [] && x == slots[0] && p == Addr(c, x) && SlotOk(c, x) && x !in users
    ensures BinOk(c, alias, m, key, bin', slots[1..], users + {x})
  {
    HeadBound(c, alias, m, key, bin.head, slots);
    PopSlot(c, alias, m, key, bin.head, slots);
    BinFirst(slots, users);
    assert PlacedOk(c, alias, slots[0]);
    TrSlot(c, remap, alias, slots[0]);
    p, x := bin.head, slots[0];
    bin' := Bin(GetLink(m, key, Tr(remap, p), p), bin.count - 1);
  }

  // the slot's bytes take the link that puts it in front of the bin's chain
  lemma PushBin(c: SizeClass, alias: map<SlabId, SlabId>, m: Mem, key: nat, bin: Bin, slots: seq<Slot>,
                users: set<Slot>, x: Slot)
    requires BinOk(c, alias, m, key, bin, slots, users) && x in users && key < WORD && PlacedOk(c, alias, x)
    requires Elsewhere(alias, x, slots)
    ensures var m' := SetLink(m, key, Place(c, alias, x), Addr(c, x), bin.head);
            && BinOk(c, alias, m', key, Bin(Addr(c, x), bin.count + 1), [x] + slots, users - {x})
            && Only(c, m, m', {Backing(alias, x)})
    ensures (users - {x}) + Elems([x] + slots) == users + Elems(slots)
  {
    PushSlot(c, alias, m, key, bin.head, slots, x);
    SetLinkOnly(c, alias, m, key, x, bin.head);
    assert x !in slots;
    NoDupPush(x, slots);
  }

  // Slots went back to the pool: no byte outside its chunks changed, and it has no new chunk.
  ghost predicate FreedOut(m: Mem, m': Mem, v: PoolSpec.Pool, v': PoolSpec.Pool) {
    BytesOut(m, m', v.live.Keys) && v'.live.Keys <= v.live.Keys
  }

  lemma FreedOutTrans(m: Mem, m1: Mem, m2: Mem, v: PoolSpec.Pool, v1: PoolSpec.Pool, v2: PoolSpec.Pool)
    requires FreedOut(m, m1, v, v1) && FreedOut(m1, m2, v1, v2)
    ensures FreedOut(m, m2, v, v2)
  {
    BytesOutTrans(m, m1, m2, v.live.Keys, v1.live.Keys, v.live.Keys);
  }

  // Slots left the pool, which may have taken the chunk it was offered.
  ghost predicate DrawnOut(m: Mem, m': Mem, v: PoolSpec.Pool, v': PoolSpec.Pool, got: Option<nat>) {
    && BytesOut(m, m', v'.live.Keys)
    && v'.live.Keys <= v.live.Keys + (if got.Some? then {got.value} else {})
  }

  // The pool went from v to v' by taking back the slots in front of those left, in order.
  ghost predicate Given(c: SizeClass, v: PoolSpec.Pool, slots: seq<Slot>, left: seq<Slot>, v': PoolSpec.Pool) {
    forall u: nat {:trigger Traced(u, slots, left)} :: Traced(u, slots, left) ==>
      |left| <= |slots| && slots[|slots| - |left|..] == left && FreesAll(c, v, slots[..|slots| - |left|], v')
  }

  // Mentioning Traced(u, slots, left) opens the definition above; proofs that only pass it on do without.
  ghost predicate Traced(u: nat, slots: seq<Slot>, left: seq<Slot>) { true }

  lemma NothingGiven(c: SizeClass, v: PoolSpec.Pool, slots: seq<Slot>)
    ensures Given(c, v, slots, slots, v)
  {
    assert slots[..0] == [] && slots[0..] == slots;
    FreesNone(c, v);
  }

  lemma GivenMore(c: SizeClass, v: PoolSpec.Pool, slots: seq<Slot>, left: seq<Slot>, v1: PoolSpec.Pool,
                  v2: PoolSpec.Pool)
    requires Given(c, v, slots, left, v1) && left != [] && FreesTo(c, v1, left[0], v2)
    ensures Given(c, v, slots, left[1..], v2)
  {
    assert Traced(0, slots, left);
    var n := |slots| - |left|;
    FreesOneMore(c, v, slots[..n], v1, left[0], v2);
    assert slots[..n] + [left[0]] == slots[..n + 1];
  }

  // one iteration of btm_pool_flush
  method FlushOne(pool: SlabPool.Pool, bin: Bin, ghost slots: seq<Slot>, ghost users: set<Slot>, ghost out: set<Slot>,
                  ghost hidden: set<Slot>, ghost all: seq<Slot>, ghost v0: PoolSpec.Pool)
    returns (bin': Bin)
    requires pool.Valid(out, hidden) && slots != [] && out == users + Elems(slots)
    requires Given(pool.c, v0, all, slots, pool.view)
    requires BinOk(pool.c, pool.alias, pool.space.mem, pool.key, bin, slots, users)
    modifies pool.space`mem, pool`head, pool`descs, pool`hdrs, pool`view, pool`history
    ensures pool.Valid(out - {slots[0]}, hidden) && Given(pool.c, v0, all, slots[1..], pool.view)
    ensures BinOk(pool.c, pool.alias, pool.space.mem, pool.key, bin', slots[1..], users)
    ensures Kept(pool.c, pool.alias, old(pool.space.mem), pool.space.mem, users)
    ensures FreedOut(old(pool.space.mem), pool.space.mem, old(pool.view), pool.view)
  {
    HeadBound(pool.c, pool.alias, pool.space.mem, pool.key, bin.head, slots);
    BinFirst(slots, users);
    pool.UsedMapped(out, hidden, slots[0]);
    var p; ghost var x;
    ghost var alias, m := pool.alias, pool.space.mem;
    bin', p, x := Pop(pool.c, pool.key, pool.space.remap, pool.space.mem, bin, alias, slots, users);
    ghost var v := pool.view;
    pool.FreeQuiet(p, x, out, hidden);
    GivenMore(pool.c, v0, all, slots, v, pool.view);
    FlushKept(pool.c, alias, m, pool.space.mem, pool.key, bin', slots, users, out, x);
  }

  lemma FlushKept(c: SizeClass, alias: map<SlabId, SlabId>, m: Mem, m': Mem, key: nat, bin: Bin,
                  slots: seq<Slot>, users: set<Slot>, out: set<Slot>, x: Slot)
    requires slots != [] && x == slots[0] && Elems(slots) !! users && NoDup(slots) && out == users + Elems(slots)
    requires BinOk(c, alias, m, key, bin, slots[1..], users + {x}) && Kept(c, alias, m, m', out - {x})
    ensures BinOk(c, alias, m', key, bin, slots[1..], users) && Kept(c, alias, m, m', users)
  {
    BinFirst(slots, users);
    BinKept(c, alias, m, m', key, bin, slots[1..], users + {x}, out - {x});
    KeptLess(c, alias, m, m', out - {x}, users);
  }

  /** btm_pool_flush: the first slots of the bin go back to their slabs until
      `keep` are left. No byte of a slot in other hands changes. */
  method Flush(pool: SlabPool.Pool, bin: Bin, keep: nat, ghost slots: seq<Slot>, ghost users: set<Slot>,
               ghost out: set<Slot>, ghost hidden: set<Slot>)
    returns (bin': Bin, ghost left: seq<Slot>, ghost out': set<Slot>)
    requires pool.Valid(out, hidden) && out == users + Elems(slots)
    requires BinOk(pool.c, pool.alias, pool.space.mem, pool.key, bin, slots, users)
    modifies pool.space`mem, pool`head, pool`descs, pool`hdrs, pool`view, pool`history
    ensures left == LastOf(slots, keep) && Given(pool.c, old(pool.view), slots, left, pool.view)
    ensures pool.Valid(out', hidden) && out' == users + Elems(left)
    ensures BinOk(pool.c, pool.alias, pool.space.mem, pool.key, bin', left, users)
    ensures Kept(pool.c, pool.alias, old(pool.space.mem), pool.space.mem, users)
    ensures FreedOut(old(pool.space.mem), pool.space.mem, old(pool.view), pool.view)
  {
    bin', out', left := bin, out, slots;
    ghost var i := 0;
    NothingGiven(pool.c, pool.view, slots);
    while bin'.count > keep
      invariant i <= |slots| && left == slots[i..] && (i > 0 ==> |left| >= keep)
      invariant Given(pool.c, old(pool.view), slots, left, pool.view)
      invariant pool.Valid(out', hidden) && out' == users + Elems(left)
      invariant BinOk(pool.c, pool.alias, pool.space.mem, pool.key, bin', left, users)
      invariant Kept(pool.c, pool.alias, old(pool.space.mem), pool.space.mem, users)
      invariant FreedOut(old(pool.space.mem), pool.space.mem, old(pool.view), pool.view)
      decreases bin'.count
    {
      ghost var m, v := pool.space.mem, pool.view;
      BinFirst(left, users);
      bin' := FlushOne(pool, bin', left, users, out', hidden, slots, old(pool.view));
      KeptTrans(pool.c, pool.alias, old(pool.space.mem), m, pool.space.mem, users);
      FreedOutTrans(old(pool.space.mem), m, pool.space.mem, old(pool.view), v, pool.view);
      out', left, i := out' - {left[0]}, left[1..], i + 1;
    }
    LastOnes(slots, i, keep);
  }

  // The last `keep` slots, or all of them if there are no more.
  ghost function LastOf(slots: seq<Slot>, keep: nat): seq<Slot> {
    if |slots| <= keep then slots else slots[|slots| - keep..]
  }

  lemma LastOnes(slots: seq<Slot>, i: nat, keep: nat)
    requires i <= |slots| <= i + keep && (i > 0 ==> |slots| - i >= keep)
    ensures slots[i..] == LastOf(slots, keep)
  {}

  // ---- malloc, bin miss ----

  // The bin after a splice: the batch's first slot is the user's.
  lemma Spliced(c: SizeClass, alias: map<SlabId, SlabId>, m: Mem, key: nat, bin: Bin, slots: seq<Slot>, b: seq<Slot>,
                users: set<Slot>)
    requires b != [] && NoDup(b) && NoDup(slots) && Elems(b) !! users + Elems(slots) && Elems(slots) !! users
    requires ChainOf(c, alias, m, key, bin.head, b[1..] + slots) && bin.count == |b| - 1 + |slots|
    ensures BinOk(c, alias, m, key, bin, b[1..] + slots, users + {b[0]})
    ensures users + {b[0]} + Elems(b[1..] + slots) == users + Elems(slots) + Elems(b)
    ensures b[0] !in users + Elems(slots)
  {
    NoDupTail(b);
    SplicedSets(slots, b, users);
    NoDupConcat(b[1..], slots);
  }

  lemma SplicedSets(slots: seq<Slot>, b: seq<Slot>, users: set<Slot>)
    requires b != [] && NoDup(b) && Elems(b) !! users + Elems(slots) && Elems(slots) !! users
    ensures users + {b[0]} + Elems(b[1..] + slots) == users + Elems(slots) + Elems(b)
    ensures b[0] !in users + Elems(slots) && Elems(b[1..] + slots) !! users + {b[0]}
    ensures forall x :: x in b[1..] ==> x !in slots
  {
    NoDupTail(b);
    assert b == [b[0]] + b[1..];
    assert forall x :: x in b[1..] ==> x in Elems(b);
    assert b[0] in Elems(b);
    assert forall x :: x in slots ==> x in Elems(slots);
  }

  // after the lock is dropped
  method SpliceBin(pool: SlabPool.Pool, bin: Bin, local: nat, n: nat, ghost b: seq<Slot>, ghost slots: seq<Slot>,
                   ghost users: set<Slot>, ghost out: set<Slot>, ghost hidden: set<Slot>)
    returns (bin': Bin, p: nat)
    requires pool.Valid(out, hidden) && out == users + Elems(slots) + Elems(b)
    requires n == |b| > 0 && NoDup(b) && Elems(b) !! users + Elems(slots)
    requires BinOk(pool.c, pool.alias, pool.space.mem, pool.key, bin, slots, users)
    requires ChainOf(pool.c, pool.alias, pool.space.mem, pool.key, local, b)
    modifies pool.space`mem
    ensures pool.Valid(out, hidden) && p == Addr(pool.c, b[0]) && SlotOk(pool.c, b[0])
    ensures BinOk(pool.c, pool.alias, pool.space.mem, pool.key, bin', b[1..] + slots, users + {b[0]})
    ensures users + {b[0]} + Elems(b[1..] + slots) == out && b[0] !in users + Elems(slots)
    ensures Kept(pool.c, pool.alias, old(pool.space.mem), pool.space.mem, users)
    ensures BytesOut(old(pool.space.mem), pool.space.mem, pool.view.live.Keys)
  {
    assert forall x :: x in b ==> x in Elems(b);
    pool.UsedMapped(out, hidden, b[0]);
    ghost var m := pool.space.mem;
    var h;
    p, h := pool.Splice(local, n, bin.head, b, slots, out, hidden);
    bin' := Bin(h, bin.count + n - 1);
    Spliced(pool.c, pool.alias, pool.space.mem, pool.key, bin', slots, b, users);
    pool.Wrote(m, b, users, out, hidden);
  }

  // The state a malloc or free leaves: the pool, the bin and the slots in other hands.
  ghost predicate Served(c: SizeClass, alias: map<SlabId, SlabId>, m: Mem, key: nat, bin: Bin, slots: seq<Slot>,
                         users: set<Slot>, out: set<Slot>) {
    BinOk(c, alias, m, key, bin, slots, users) && out == users + Elems(slots)
  }

  ghost function One(x: Option<Slot>): set<Slot> {
    if x.Some? then {x.value} else {}
  }

  // NULL, or the address of a slot that was in no hands.
  ghost predicate Returned(c: SizeClass, p: nat, x: Option<Slot>, out: set<Slot>) {
    if x.None? then p == 0 else p == Addr(c, x.value) && SlotOk(c, x.value) && x.value !in out
  }

  // the locked section
  method Draw(pool: SlabPool.Pool, bin: Bin, want: nat, got: Option<nat>, inc: Incoming, ghost slots: seq<Slot>,
              ghost users: set<Slot>, ghost out: set<Slot>, ghost hidden: set<Slot>)
    returns (local: nat, n: nat, ghost b: seq<Slot>)
    requires pool.Valid(out, hidden) && pool.Offered(got, inc) && want >= 1
    requires Served(pool.c, pool.alias, pool.space.mem, pool.key, bin, slots, users, out)
    modifies pool.space`mem, pool`head, pool`descs, pool`hdrs, pool`view, pool`history
    ensures pool.Valid(out + Elems(b), hidden) && BinOk(pool.c, pool.alias, pool.space.mem, pool.key, bin, slots, users)
    ensures ChainOf(pool.c, pool.alias, pool.space.mem, pool.key, local, b) && n == |b| <= want
    ensures NoDup(b) && Elems(b) !! out && (n == 0 <==> RefillFails(pool.c, old(pool.view), got))
    ensures Refills(pool.c, old(pool.view), want, got, Taken(pool.view, b))
    ensures Kept(pool.c, pool.alias, old(pool.space.mem), pool.space.mem, users)
    ensures DrawnOut(old(pool.space.mem), pool.space.mem, old(pool.view), pool.view, got)
  {
    ghost var m, v := pool.space.mem, pool.view;
    local, n, b := pool.Refill(want, got, inc, out, hidden);
    BinKept(pool.c, pool.alias, m, pool.space.mem, pool.key, bin, slots, users, out);
    KeptLess(pool.c, pool.alias, m, pool.space.mem, out, users);
    RefillGrows(pool.c, v, want, got, Taken(pool.view, b));
  }

  lemma RefillGrows(c: SizeClass, v: PoolSpec.Pool, want: nat, got: Option<nat>, t: Taken)
    requires Refills(c, v, want, got, t)
    ensures v.live.Keys <= t.pool.live.Keys <= v.live.Keys + (if got.Some? then {got.value} else {})
  {}

  // A refill took the pool from v to v'. Of its batch the first slot is the caller's and the others
  // precede the bin's.
  ghost predicate Drawn(c: SizeClass, v: PoolSpec.Pool, v': PoolSpec.Pool, want: nat, got: Option<nat>, x: Option<Slot>,
                        slots: seq<Slot>, slots': seq<Slot>) {
    if x.None? then slots' == slots && Refills(c, v, want, got, Taken(v', []))
    else
      && |slots| <= |slots'| && slots'[|slots'| - |slots|..] == slots
      && Refills(c, v, want, got, Taken(v', [x.value] + slots'[..|slots'| - |slots|]))
  }

  lemma DrawnBatch(c: SizeClass, v: PoolSpec.Pool, v': PoolSpec.Pool, want: nat, got: Option<nat>, b: seq<Slot>,
                   slots: seq<Slot>)
    requires b != [] && Refills(c, v, want, got, Taken(v', b))
    ensures Drawn(c, v, v', want, got, Some(b[0]), slots, b[1..] + slots)
  {
    assert (b[1..] + slots)[..|b| - 1] == b[1..] && (b[1..] + slots)[|b| - 1..] == slots;
    assert [b[0]] + b[1..] == b;
  }

  /** btm_pool_refill: NULL exactly when `RefillFails`; otherwise a slot that was
      in no hands, with the rest of the batch in front of the bin. */
  method RefillBin(pool: SlabPool.Pool, bin: Bin, want: nat, got: Option<nat>, inc: Incoming, ghost slots: seq<Slot>,
                   ghost users: set<Slot>, ghost out: set<Slot>, ghost hidden: set<Slot>)
    returns (bin': Bin, p: nat, ghost x: Option<Slot>, ghost slots': seq<Slot>, ghost out': set<Slot>)
    requires pool.Valid(out, hidden) && pool.Offered(got, inc) && want >= 1
    requires Served(pool.c, pool.alias, pool.space.mem, pool.key, bin, slots, users, out)
    modifies pool.space`mem, pool`head, pool`descs, pool`hdrs, pool`view, pool`history
    ensures pool.Valid(out', hidden) && bin'.count < bin.count + want
    ensures x.None? <==> RefillFails(pool.c, old(pool.view), got)
    ensures Drawn(pool.c, old(pool.view), pool.view, want, got, x, slots, slots')
    ensures Returned(pool.c, p, x, out)
    ensures Served(pool.c, pool.alias, pool.space.mem, pool.key, bin', slots', users + One(x), out')
    ensures Kept(pool.c, pool.alias, old(pool.space.mem), pool.space.mem, users)
    ensures DrawnOut(old(pool.space.mem), pool.space.mem, old(pool.view), pool.view, got)
  {
    ghost var m0, v0 := pool.space.mem, pool.view;
    var local, n; ghost var b;
    local, n, b := Draw(pool, bin, want, got, inc, slots, users, out, hidden);
    ghost var m1 := pool.space.mem;
    out' := out + Elems(b);
    if n == 0 {
      NothingDrawn(users, out, b);
      return bin, 0, None, slots, out';
    }
    bin', p := SpliceBin(pool, bin, local, n, b, slots, users, out', hidden);
    KeptTrans(pool.c, pool.alias, m0, m1, pool.space.mem, users);
    BytesOutTrans(m0, m1, pool.space.mem, pool.view.live.Keys, pool.view.live.Keys, pool.view.live.Keys);
    x, slots' := Some(b[0]), b[1..] + slots;
    DrawnBatch(pool.c, v0, pool.view, want, got, b, slots);
  }

  lemma NothingDrawn(users: set<Slot>, out: set<Slot>, b: seq<Slot>)
    requires b == []
    ensures users + One(None) == users && out + Elems(b) == out
  {}

  // ---- malloc and free of a small object ----

  /** The small path of btm_malloc_at: the bin's first slot, or a refill. The slot
      returned was in no hands, no byte of a slot in other hands changes, and NULL
      is returned only when the bin is empty and the refill fails. */
  method Malloc(pool: SlabPool.Pool, bin: Bin, cap: nat, got: Option<nat>, inc: Incoming, ghost slots: seq<Slot>,
                ghost users: set<Slot>, ghost out: set<Slot>, ghost hidden: set<Slot>)
    returns (bin': Bin, p: nat, ghost x: Option<Slot>, ghost slots': seq<Slot>, ghost out': set<Slot>)
    requires pool.Valid(out, hidden) && pool.Offered(got, inc) && bin.count <= cap
    requires Served(pool.c, pool.alias, pool.space.mem, pool.key, bin, slots, users, out)
    modifies pool.space`mem, pool`head, pool`descs, pool`hdrs, pool`view, pool`history
    ensures pool.Valid(out', hidden) && (cap > 0 ==> bin'.count <= cap)
    ensures x.None? <==> slots == [] && RefillFails(pool.c, old(pool.view), got)
    ensures slots != [] ==> x == Some(slots[0]) && slots' == slots[1..] && pool.view == old(pool.view)
    ensures slots == [] ==> Drawn(pool.c, old(pool.view), pool.view, if cap < 2 then 1 else cap / 2, got, x, [], slots')
    ensures Returned(pool.c, p, x, users)
    ensures Served(pool.c, pool.alias, pool.space.mem, pool.key, bin', slots', users + One(x), out')
    ensures Kept(pool.c, pool.alias, old(pool.space.mem), pool.space.mem, users)
    ensures DrawnOut(old(pool.space.mem), pool.space.mem, old(pool.view), pool.view, got)
  {
    HeadBound(pool.c, pool.alias, pool.space.mem, pool.key, bin.head, slots);
    if bin.head != 0 {
      ghost var s;
      BinFirst(slots, users);
      pool.UsedMapped(out, hidden, slots[0]);
      bin', p, s := Pop(pool.c, pool.key, pool.space.remap, pool.space.mem, bin, pool.alias, slots, users);
      return bin', p, Some(s), slots[1..], out;
    }
    var want := if cap / 2 < 1 then 1 else cap / 2;
    bin', p, x, slots', out' := RefillBin(pool, bin, want, got, inc, slots, users, out, hidden);
  }

  // btm_free's push, before any flush
  method PushFree(pool: SlabPool.Pool, bin: Bin, p: nat, ghost x: Slot, ghost slots: seq<Slot>,
                  ghost users: set<Slot>, ghost out: set<Slot>, ghost hidden: set<Slot>)
    returns (bin': Bin)
    requires pool.Valid(out, hidden) && x in users && p == Addr(pool.c, x)
    requires Served(pool.c, pool.alias, pool.space.mem, pool.key, bin, slots, users, out)
    modifies pool.space`mem
    ensures pool.Valid(out, hidden) && bin'.count == bin.count + 1
    ensures Served(pool.c, pool.alias, pool.space.mem, pool.key, bin', [x] + slots, users - {x}, out)
    ensures Kept(pool.c, pool.alias, old(pool.space.mem), pool.space.mem, users - {x})
    ensures BytesOut(old(pool.space.mem), pool.space.mem, pool.view.live.Keys)
  {
    ghost var m := pool.space.mem;
    Single(pool.alias, x, slots, users, out);
    pool.UsedMapped(out, hidden, x);
    pool.UsedApart(out, hidden, x, slots);
    PushBin(pool.c, pool.alias, m, pool.key, bin, slots, users, x);
    pool.StoreLink(p, bin.head, x, out, hidden);
    bin' := Bin(p, bin.count + 1);
    pool.Wrote(m, [x], users - {x}, out, hidden);
  }

  lemma Single(alias: map<SlabId, SlabId>, x: Slot, slots: seq<Slot>, users: set<Slot>, out: set<Slot>)
    requires x in users && out == users + Elems(slots) && Elems(slots) !! users
    ensures Backings(alias, [x]) == {Backing(alias, x)}
    ensures x in out && x !in slots && Elems(slots) <= out && Elems([x]) <= out && users - {x} <= out - Elems([x])
  {
    assert x in [x];
    assert forall y :: y in slots ==> y in Elems(slots);
  }

  // a bin over its cap is flushed to half of it
  method Settle(pool: SlabPool.Pool, bin: Bin, cap: nat, ghost slots: seq<Slot>, ghost users: set<Slot>,
                ghost out: set<Slot>, ghost hidden: set<Slot>)
    returns (bin': Bin, ghost left: seq<Slot>, ghost out': set<Slot>)
    requires pool.Valid(out, hidden) && Served(pool.c, pool.alias, pool.space.mem, pool.key, bin, slots, users, out)
    modifies pool.space`mem, pool`head, pool`descs, pool`hdrs, pool`view, pool`history
    ensures Given(pool.c, old(pool.view), slots, left, pool.view)
    ensures |left| == if |slots| <= cap then |slots| else cap / 2
    ensures pool.Valid(out', hidden) && Served(pool.c, pool.alias, pool.space.mem, pool.key, bin', left, users, out')
    ensures Kept(pool.c, pool.alias, old(pool.space.mem), pool.space.mem, users)
    ensures FreedOut(old(pool.space.mem), pool.space.mem, old(pool.view), pool.view)
  {
    if bin.count <= cap {
      NothingGiven(pool.c, pool.view, slots);
      return bin, slots, out;
    }
    bin', left, out' := Flush(pool, bin, cap / 2, slots, users, out, hidden);
  }

  /** The small path of btm_free: the slot goes on the bin, and a bin over its cap
      is flushed to half of it. No byte of a slot in other hands changes. */
  method Free(pool: SlabPool.Pool, bin: Bin, cap: nat, p: nat, ghost x: Slot, ghost slots: seq<Slot>,
              ghost users: set<Slot>, ghost out: set<Slot>, ghost hidden: set<Slot>)
    returns (bin': Bin, ghost slots': seq<Slot>, ghost out': set<Slot>)
    requires pool.Valid(out, hidden) && x in users && p == Addr(pool.c, x) && bin.count <= cap
    requires Served(pool.c, pool.alias, pool.space.mem, pool.key, bin, slots, users, out)
    modifies pool.space`mem, pool`head, pool`descs, pool`hdrs, pool`view, pool`history
    ensures pool.Valid(out', hidden) && bin'.count <= cap
    ensures Given(pool.c, old(pool.view), [x] + slots, slots', pool.view)
    ensures |slots'| == if |slots| < cap then |slots| + 1 else cap / 2
    ensures Served(pool.c, pool.alias, pool.space.mem, pool.key, bin', slots', users - {x}, out')
    ensures Kept(pool.c, pool.alias, old(pool.space.mem), pool.space.mem, users - {x})
    ensures FreedOut(old(pool.space.mem), pool.space.mem, old(pool.view), pool.view)
  {
    ghost var m0, v := pool.space.mem, pool.view;
    bin' := PushFree(pool, bin, p, x, slots, users, out, hidden);
    ghost var m1 := pool.space.mem;
    bin', slots', out' := Settle(pool, bin', cap, [x] + slots, users - {x}, out, hidden);
    KeptTrans(pool.c, pool.alias, m0, m1, pool.space.mem, users - {x});
    FreedOutTrans(m0, m1, pool.space.mem, v, v, pool.view);
  }

  /** btm_tls_destroy, for one bin: every cached slot goes back to the pool. */
  method Drain(pool: SlabPool.Pool, bin: Bin, ghost slots: seq<Slot>, ghost users: set<Slot>, ghost out: set<Slot>,
               ghost hidden: set<Slot>)
    returns (bin': Bin)
    requires pool.Valid(out, hidden) && Served(pool.c, pool.alias, pool.space.mem, pool.key, bin, slots, users, out)
    modifies pool.space`mem, pool`head, pool`descs, pool`hdrs, pool`view, pool`history
    ensures pool.Valid(users, hidden) && bin'.count == 0
    ensures Kept(pool.c, pool.alias, old(pool.space.mem), pool.space.mem, users)
    ensures FreedOut(old(pool.space.mem), pool.space.mem, old(pool.view), pool.view)
  {
    ghost var left, o;
    bin', left, o := Flush(pool, bin, 0, slots, users, out, hidden);
    DrainedAll(slots, users, left, o);
  }

  lemma DrainedAll(slots: seq<Slot>, users: set<Slot>, left: seq<Slot>, o: set<Slot>)
    requires left == LastOf(slots, 0) && o == users + Elems(left)
    ensures left == [] && o == users
  {}
}
