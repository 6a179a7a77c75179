/** The heap as one thread has it in hand - the pools with its bins over them, and the
    large objects - and how one object is taken, given back, filled or moved in it,
    with what that leaves alone. */
module Moves {
  import opened Bits
  import opened Seqs
  import opened Memory
  import opened Geometry
  import opened Registry
  import opened Large
  import opened Placement
  import opened PoolProofs
  import opened PoolSteps
  import opened ThreadBins
  import opened Arena
  import opened SlotCopies
  import opened LargePaths
  import SlabPool

  // Where an object is: a slot of a pool, or a large object.
  datatype Where = Nowhere | Small(i: nat, x: Slot) | Big(b: nat)

  // Per pool: the slots in one thread's bin, all others that have left the pool, and
  // both together; and the slots that hold meshed objects.
  datatype Hands = Hands(slots: seq<seq<Slot>>, users: seq<set<Slot>>, outs: seq<set<Slot>>, hids: seq<set<Slot>>)

  ghost function UsersLess(users: seq<set<Slot>>, w: Where): (r: seq<set<Slot>>)
    ensures |r| == |users|
  {
    if w.Small? && w.i < |users| then users[w.i := users[w.i] - {w.x}] else users
  }

  ghost function UsersMore(users: seq<set<Slot>>, w: Where): (r: seq<set<Slot>>)
    ensures |r| == |users|
  {
    if w.Small? && w.i < |users| then users[w.i := users[w.i] + {w.x}] else users
  }

  ghost function ObjsLess(objs: map<nat, Obj>, w: Where): map<nat, Obj> {
    if w.Big? then objs - {w.b} else objs
  }

  // ---- the bins of one thread ----

  ghost predicate BinIn(p: SlabPool.Pool, cap: nat, m: Mem, bin: Bin, slots: seq<Slot>, users: set<Slot>,
                        out: set<Slot>)
    reads p`alias
  {
    0 < cap && bin.count <= cap && Served(p.c, p.alias, m, p.key, bin, slots, users, out)
  }

  // Its bin over every pool, in the memory m.
  ghost predicate BinsIn(pools: seq<SlabPool.Pool>, caps: seq<nat>, m: Mem, bins: seq<Bin>, h: Hands)
    reads pools`alias
  {
    && |caps| == |bins| == |h.slots| == |h.users| == |h.outs| == |pools|
    && forall k {:trigger pools[k]} :: 0 <= k < |pools| ==>
         BinIn(pools[k], caps[k], m, bins[k], h.slots[k], h.users[k], h.outs[k])
  }

  // Mentioning InHand(u, bins, h) opens the invariant below; proofs that only pass it
  // on do without its clauses.
  ghost predicate InHand(u: nat, bins: seq<Bin>, h: Hands) { true }

  // The heap, as one thread has it in hand.
  ghost predicate Ready(space: SlabPool.Space, pools: seq<SlabPool.Pool>, addr: AddressSpace, caps: seq<nat>,
                        bins: seq<Bin>, h: Hands)
    reads space, pools, addr, addr.radix, addr.radix.l1
  {
    && |caps| == |bins| == |h.slots| == |h.users| == |pools|
    && forall u: nat {:trigger InHand(u, bins, h)} :: InHand(u, bins, h) ==>
         HeapOk(space, pools, addr, h.outs, h.hids) && BinsIn(pools, caps, space.mem, bins, h)
  }

  // Everything in use but what was at w reads the same.
  ghost predicate Quiet(pools: seq<SlabPool.Pool>, remap: map<nat, nat>, m: Mem, m': Mem, users: seq<set<Slot>>,
                        objs: map<nat, Obj>, w: Where) {
    AllRead(pools, remap, m, remap, m', UsersLess(users, w)) && LargeSame(m, m', objs, if w.Big? then {w.b} else {})
  }

  // What has left the pools, other than `held`, may change: no bin does.
  lemma BinsSame(space: SlabPool.Space, pools: seq<SlabPool.Pool>, caps: seq<nat>, m: Mem, bins: seq<Bin>, h: Hands,
                 held: seq<set<Slot>>)
    requires BinsIn(pools, caps, m, bins, h) && ArenaOk(space, pools, h.outs, h.hids)
    requires AllRead(pools, space.remap, m, space.remap, space.mem, held)
    requires forall k :: 0 <= k < |pools| ==> Elems(h.slots[k]) <= held[k] <= h.outs[k]
    ensures BinsIn(pools, caps, space.mem, bins, h)
  {
    forall k | 0 <= k < |pools|
      ensures BinIn(pools[k], caps[k], space.mem, bins[k], h.slots[k], h.users[k], h.outs[k])
    {
      assert BinIn(pools[k], caps[k], m, bins[k], h.slots[k], h.users[k], h.outs[k]);
      BinElsewhere(pools[k], m, bins[k], h.slots[k], h.users[k], held[k], h.outs[k], h.hids[k]);
    }
  }

  // Pool j and its bin have changed.
  function Turned(h: Hands, j: nat, ss: seq<Slot>, us: set<Slot>, outs: seq<set<Slot>>): Hands
    requires j < |h.slots| && j < |h.users|
  {
    Hands(h.slots[j := ss], h.users[j := us], outs, h.hids)
  }

  lemma BinsTurned(space: SlabPool.Space, pools: seq<SlabPool.Pool>, caps: seq<nat>, m: Mem, bins: seq<Bin>, h: Hands,
                   j: nat, bin: Bin, ss: seq<Slot>, us: set<Slot>, outs: seq<set<Slot>>, held: set<Slot>)
    requires BinsIn(pools, caps, m, bins, h) && ArenaOk(space, pools, outs, h.hids)
    requires j < |pools| && outs == h.outs[j := outs[j]]
    requires BinIn(pools[j], caps[j], space.mem, bin, ss, us, outs[j])
    requires AllRead(pools, space.remap, m, space.remap, space.mem, h.outs[j := held])
    ensures BinsIn(pools, caps, space.mem, bins[j := bin], Turned(h, j, ss, us, outs))
  {
    var held' := h.outs[j := held];
    forall k | 0 <= k < |pools| && k != j
      ensures BinIn(pools[k], caps[k], space.mem, bins[k], h.slots[k], h.users[k], h.outs[k])
    {
      assert BinIn(pools[k], caps[k], m, bins[k], h.slots[k], h.users[k], h.outs[k]) && held'[k] == h.outs[k];
      BinElsewhere(pools[k], m, bins[k], h.slots[k], h.users[k], h.outs[k], h.outs[k], h.hids[k]);
    }
  }

  // ---- one slot ----

  // What pool j may be offered: a registered chunk that is no pool's.
  ghost predicate Offered(space: SlabPool.Space, pools: seq<SlabPool.Pool>, addr: AddressSpace, j: nat,
                          got: Option<nat>, inc: Incoming)
    requires j < |pools|
    reads space, pools, addr
  {
    && FreshOk(pools[j].view, got) && Brings(space.mem, pools[j].descs, got, inc) && Unclaimed(pools, got)
    && (got.Some? ==> got.value in Chunks(addr.objs))
  }

  // Pool j has taken a step inside the chunks, and its bin with it.
  ghost predicate Stepped(space: SlabPool.Space, pools: seq<SlabPool.Pool>, addr: AddressSpace, caps: seq<nat>, m: Mem,
                          bins: seq<Bin>, h: Hands, j: nat, bin: Bin, ss: seq<Slot>, us: set<Slot>,
                          outs: seq<set<Slot>>, held: set<Slot>)
    reads space, pools, addr, addr.radix, addr.radix.l1
  {
    && |caps| == |bins| == |h.slots| == |h.users| == |pools| && j < |pools|
    && forall u: nat {:trigger InHand(u, bins, h)} :: InHand(u, bins, h) ==>
         && BinsIn(pools, caps, m, bins, h) && ArenaOk(space, pools, outs, h.hids)
         && outs == h.outs[j := outs[j]] && held <= h.users[j]
         && BinIn(pools[j], caps[j], space.mem, bin, ss, us, outs[j])
         && AllRead(pools, space.remap, m, space.remap, space.mem, h.outs[j := held])
         && addr.Valid() && Kinds(m, addr.objs) && Within(pools, Chunks(addr.objs))
         && BytesOut(m, space.mem, Chunks(addr.objs))
  }

  /** Then every other bin, everything that has left the other pools, and every large
      object is as it was. */
  lemma SmallStep(space: SlabPool.Space, pools: seq<SlabPool.Pool>, addr: AddressSpace, caps: seq<nat>, m: Mem,
                  bins: seq<Bin>, h: Hands, j: nat, bin: Bin, ss: seq<Slot>, us: set<Slot>, outs: seq<set<Slot>>,
                  held: set<Slot>)
    requires Stepped(space, pools, addr, caps, m, bins, h, j, bin, ss, us, outs, held)
    ensures Ready(space, pools, addr, caps, bins[j := bin], Turned(h, j, ss, us, outs))
    ensures AllRead(pools, space.remap, m, space.remap, space.mem, h.users[j := held])
    ensures LargeSame(m, space.mem, addr.objs, {})
  {
    assert InHand(0, bins, h);
    LargeUntouched(m, space.mem, addr.objs);
    BinsTurned(space, pools, caps, m, bins, h, j, bin, ss, us, outs, held);
    UsersOut(pools, caps, m, bins, h);
    AllReadLess(pools, space.remap, m, space.mem, h.outs[j := held], h.users[j := held]);
  }

  lemma UsersOut(pools: seq<SlabPool.Pool>, caps: seq<nat>, m: Mem, bins: seq<Bin>, h: Hands)
    requires BinsIn(pools, caps, m, bins, h)
    ensures forall k :: 0 <= k < |pools| ==> h.users[k] <= h.outs[k] && Elems(h.slots[k]) <= h.outs[k]
  {
    forall k | 0 <= k < |pools| ensures h.users[k] <= h.outs[k] && Elems(h.slots[k]) <= h.outs[k] {
      assert BinIn(pools[k], caps[k], m, bins[k], h.slots[k], h.users[k], h.outs[k]);
    }
  }

  method TakeOne(space: SlabPool.Space, pools: seq<SlabPool.Pool>, addr: AddressSpace, caps: seq<nat>, bins: seq<Bin>,
                 j: nat, got: Option<nat>, inc: Incoming, ghost h: Hands)
    returns (bin: Bin, p: nat, ghost y: Option<Slot>, ghost ss: seq<Slot>, ghost outs: seq<set<Slot>>)
    requires Ready(space, pools, addr, caps, bins, h) && j < |pools| && Offered(space, pools, addr, j, got, inc)
    modifies space`mem, pools[j]
    ensures y.None? <==> h.slots[j] == [] && RefillFails(pools[j].c, old(pools[j].view), got)
    ensures Returned(pools[j].c, p, y, h.users[j]) && (p == 0 <==> y.None?)
    ensures space.remap == old(space.remap)
    ensures Stepped(space, pools, addr, caps, old(space.mem), bins, h, j, bin, ss, h.users[j] + One(y), outs,
                    h.users[j])
  {
    assert InHand(0, bins, h);
    assert BinIn(pools[j], caps[j], space.mem, bins[j], h.slots[j], h.users[j], h.outs[j]);
    bin, p, y, ss, outs := TakeIn(space, pools, j, bins[j], caps[j], got, inc, Chunks(addr.objs), h.slots[j],
                                  h.users[j], h.outs, h.hids);
  }

  // the small path of btm_malloc_at
  method TakeSmall(space: SlabPool.Space, pools: seq<SlabPool.Pool>, addr: AddressSpace, caps: seq<nat>, bins: seq<Bin>,
                   j: nat, got: Option<nat>, inc: Incoming, ghost h: Hands)
    returns (bins': seq<Bin>, p: nat, ghost y: Option<Slot>, ghost h': Hands)
    requires Ready(space, pools, addr, caps, bins, h) && j < |pools| && Offered(space, pools, addr, j, got, inc)
    modifies space`mem, pools[j]
    ensures Ready(space, pools, addr, caps, bins', h')
    ensures h'.users == if y.None? then h.users else UsersMore(h.users, Small(j, y.value))
    ensures y.None? <==> h.slots[j] == [] && RefillFails(pools[j].c, old(pools[j].view), got)
    ensures Returned(pools[j].c, p, y, h.users[j]) && (p == 0 <==> y.None?)
    ensures space.remap == old(space.remap)
    ensures Quiet(pools, space.remap, old(space.mem), space.mem, h.users, addr.objs, Nowhere)
  {
    var bin; ghost var ss, outs;
    bin, p, y, ss, outs := TakeOne(space, pools, addr, caps, bins, j, got, inc, h);
    bins', h' := bins[j := bin], Turned(h, j, ss, h.users[j] + One(y), outs);
    SmallStep(space, pools, addr, caps, old(space.mem), bins, h, j, bin, ss, h.users[j] + One(y), outs, h.users[j]);
    assert h.users[j := h.users[j]] == h.users && h.users[j] + {} == h.users[j];
  }

  method GiveOne(space: SlabPool.Space, pools: seq<SlabPool.Pool>, addr: AddressSpace, caps: seq<nat>, bins: seq<Bin>,
                 i: nat, p: nat, ghost x: Slot, ghost h: Hands)
    returns (bin: Bin, ghost ss: seq<Slot>, ghost outs: seq<set<Slot>>)
    requires Ready(space, pools, addr, caps, bins, h) && i < |pools| && x in h.users[i] && p == Addr(pools[i].c, x)
    modifies space`mem, pools[i]
    ensures space.remap == old(space.remap)
    ensures Stepped(space, pools, addr, caps, old(space.mem), bins, h, i, bin, ss, h.users[i] - {x}, outs,
                    h.users[i] - {x})
  {
    assert InHand(0, bins, h);
    assert BinIn(pools[i], caps[i], space.mem, bins[i], h.slots[i], h.users[i], h.outs[i]);
    bin, ss, outs := GiveIn(space, pools, i, bins[i], caps[i], p, Chunks(addr.objs), x, h.slots[i], h.users[i], h.outs,
                            h.hids);
  }

  // the small path of btm_free
  method GiveSmall(space: SlabPool.Space, pools: seq<SlabPool.Pool>, addr: AddressSpace, caps: seq<nat>, bins: seq<Bin>,
                   i: nat, p: nat, ghost x: Slot, ghost h: Hands)
    returns (bins': seq<Bin>, ghost h': Hands)
    requires Ready(space, pools, addr, caps, bins, h) && i < |pools| && x in h.users[i] && p == Addr(pools[i].c, x)
    modifies space`mem, pools[i]
    ensures Ready(space, pools, addr, caps, bins', h') && h'.users == UsersLess(h.users, Small(i, x))
    ensures space.remap == old(space.remap)
    ensures Quiet(pools, space.remap, old(space.mem), space.mem, h.users, addr.objs, Small(i, x))
  {
    var bin; ghost var ss, outs;
    bin, ss, outs := GiveOne(space, pools, addr, caps, bins, i, p, x, h);
    bins', h' := bins[i := bin], Turned(h, i, ss, h.users[i] - {x}, outs);
    SmallStep(space, pools, addr, caps, old(space.mem), bins, h, i, bin, ss, h.users[i] - {x}, outs, h.users[i] - {x});
  }

  // ---- one large object ----

  // A step that leaves all that has left the pools alone.
  lemma AllQuiet(space: SlabPool.Space, pools: seq<SlabPool.Pool>, caps: seq<nat>, m: Mem, bins: seq<Bin>, h: Hands)
    requires BinsIn(pools, caps, m, bins, h) && ArenaOk(space, pools, h.outs, h.hids)
    requires AllRead(pools, space.remap, m, space.remap, space.mem, h.outs)
    ensures BinsIn(pools, caps, space.mem, bins, h)
    ensures AllRead(pools, space.remap, m, space.remap, space.mem, h.users)
  {
    UsersOut(pools, caps, m, bins, h);
    BinsSame(space, pools, caps, m, bins, h, h.outs);
    AllReadLess(pools, space.remap, m, space.mem, h.outs, h.users);
  }

  // btm_large_alloc with the default alignment
  method TakeLarge(space: SlabPool.Space, pools: seq<SlabPool.Pool>, addr: AddressSpace, caps: seq<nat>, bins: seq<Bin>,
                   size: nat, raw: Option<nat>, leaf: bool, ghost h: Hands)
    returns (p: nat, ghost b: nat, ghost o: Obj)
    requires Ready(space, pools, addr, caps, bins, h) && 0 < size && CanMap(addr.objs, size, 4, raw)
    modifies space`mem, addr, addr.radix, addr.radix.l1
    ensures Ready(space, pools, addr, caps, bins, h) && (p == 0 <==> raw.None?)
    ensures p == 0 ==> addr.objs == old(addr.objs) && addr.dark == old(addr.dark)
    ensures p != 0 ==> NewLarge(old(addr.objs), addr.objs, b, o, p, size)
    ensures p != 0 ==> forall a: nat :: p <= a < b + o.len ==> Load(space.mem, a) == 0
    ensures Quiet(pools, space.remap, old(space.mem), space.mem, h.users, old(addr.objs), Nowhere)
  {
    assert InHand(0, bins, h);
    ghost var m0 := space.mem;
    p, b, o := AllocLarge(space, pools, addr, size, 4, raw, leaf, h.outs, h.hids);
    AllQuiet(space, pools, caps, m0, bins, h);
  }

  // btm_large_free
  method GiveLarge(space: SlabPool.Space, pools: seq<SlabPool.Pool>, addr: AddressSpace, caps: seq<nat>, bins: seq<Bin>,
                   b: nat, maps: bool, ghost h: Hands)
    requires Ready(space, pools, addr, caps, bins, h) && b in addr.objs && addr.objs[b].large
    modifies space`mem, addr, addr.radix, addr.radix.l1
    ensures Ready(space, pools, addr, caps, bins, h) && addr.objs == old(addr.objs) - {b}
    ensures Quiet(pools, space.remap, old(space.mem), space.mem, h.users, old(addr.objs), Big(b))
  {
    assert InHand(0, bins, h);
    ghost var m0 := space.mem;
    FreeLarge(space, pools, addr, b, maps, h.outs, h.hids);
    AllQuiet(space, pools, caps, m0, bins, h);
  }

  // ---- from small to large and back ----

  lemma QuietTrans(pools: seq<SlabPool.Pool>, remap: map<nat, nat>, m0: Mem, m1: Mem, m2: Mem, users: seq<set<Slot>>,
                   objs: map<nat, Obj>, w: Where)
    requires Quiet(pools, remap, m0, m1, users, objs, w) && Quiet(pools, remap, m1, m2, users, objs, w)
    ensures Quiet(pools, remap, m0, m2, users, objs, w)
  {
    AllReadTrans(pools, remap, m0, remap, m1, remap, m2, UsersLess(users, w));
  }

  // The copy of realloc, to a new large object: all that was in use before is as it was.
  method FillLarge(space: SlabPool.Space, pools: seq<SlabPool.Pool>, addr: AddressSpace, caps: seq<nat>, bins: seq<Bin>,
                   i: nat, p: nat, q: nat, n: nat, ghost b: nat, ghost x: Slot, ghost h: Hands)
    requires Ready(space, pools, addr, caps, bins, h) && b in addr.objs && addr.objs[b].large
    requires i < |pools| && x in h.users[i] && p == Addr(pools[i].c, x) && n <= pools[i].c.size
    requires q == b + addr.objs[b].userOff && q + n <= b + addr.objs[b].len
    modifies space`mem
    ensures Ready(space, pools, addr, caps, bins, h) && Carried(space.remap, old(space.mem), space.mem, p, q, n)
    ensures Quiet(pools, space.remap, old(space.mem), space.mem, h.users, addr.objs, Big(b))
  {
    assert InHand(0, bins, h);
    ghost var m0 := space.mem;
    UsersOut(pools, caps, m0, bins, h);
    CopyToLarge(space, pools, addr, i, p, q, n, b, x, h.outs, h.hids);
    AllQuiet(space, pools, caps, m0, bins, h);
  }

  // The copy of realloc, to a slot that has just been taken.
  method FillSmall(space: SlabPool.Space, pools: seq<SlabPool.Pool>, addr: AddressSpace, caps: seq<nat>, bins: seq<Bin>,
                   j: nat, p: nat, q: nat, n: nat, ghost b: nat, ghost y: Slot, ghost h: Hands)
    requires Ready(space, pools, addr, caps, bins, h) && b in addr.objs && addr.objs[b].large
    requires j < |pools| && y in h.users[j] && q == Addr(pools[j].c, y) && n <= pools[j].c.size
    requires b <= p && p + n <= b + addr.objs[b].len
    modifies space`mem
    ensures Ready(space, pools, addr, caps, bins, h) && Carried(space.remap, old(space.mem), space.mem, p, q, n)
    ensures Quiet(pools, space.remap, old(space.mem), space.mem, h.users, addr.objs, Small(j, y))
  {
    assert InHand(0, bins, h);
    ghost var m0 := space.mem;
    UsersOut(pools, caps, m0, bins, h);
    CopyFromLarge(space, pools, addr, j, p, q, n, b, y, h.outs, h.hids);
    WrittenQuiet(space, pools, caps, m0, bins, h, j, y);
  }

  // A write to a slot in use disturbs no bin.
  lemma WrittenQuiet(space: SlabPool.Space, pools: seq<SlabPool.Pool>, caps: seq<nat>, m: Mem, bins: seq<Bin>, h: Hands,
                     j: nat, y: Slot)
    requires BinsIn(pools, caps, m, bins, h) && ArenaOk(space, pools, h.outs, h.hids)
    requires j < |pools| && y in h.users[j]
    requires AllRead(pools, space.remap, m, space.remap, space.mem, h.outs[j := h.outs[j] - {y}])
    ensures BinsIn(pools, caps, space.mem, bins, h)
    ensures AllRead(pools, space.remap, m, space.remap, space.mem, UsersLess(h.users, Small(j, y)))
  {
    var held := h.outs[j := h.outs[j] - {y}];
    UsersOut(pools, caps, m, bins, h);
    assert BinIn(pools[j], caps[j], m, bins[j], h.slots[j], h.users[j], h.outs[j]);
    BinsSame(space, pools, caps, m, bins, h, held);
    AllReadLess(pools, space.remap, m, space.mem, held, UsersLess(h.users, Small(j, y)));
  }

  // Quiet about more is quiet about less.
  lemma QuietLess(pools: seq<SlabPool.Pool>, remap: map<nat, nat>, m: Mem, m': Mem, users: seq<set<Slot>>,
                  objs: map<nat, Obj>, w: Where, users0: seq<set<Slot>>, objs0: map<nat, Obj>, w0: Where)
    requires Quiet(pools, remap, m, m', users, objs, w) && |users0| == |users|
    requires forall k :: 0 <= k < |users| ==> UsersLess(users0, w0)[k] <= UsersLess(users, w)[k]
    requires forall c :: c in objs0 && objs0[c].large && w0 != Big(c) ==>
               c in objs && objs[c] == objs0[c] && w != Big(c)
    ensures Quiet(pools, remap, m, m', users0, objs0, w0)
  {
    AllReadLess(pools, remap, m, m', UsersLess(users, w), UsersLess(users0, w0));
  }

  // A large object is taken and filled, then x is freed: nothing else in use is disturbed.
  lemma EnlargeQuiet(pools: seq<SlabPool.Pool>, remap: map<nat, nat>, m0: Mem, m1: Mem, m2: Mem, m3: Mem,
                     users: seq<set<Slot>>, objs: map<nat, Obj>, objs': map<nat, Obj>, b: nat, o: Obj, w: Where)
    requires w.Small? && b !in objs && objs' == objs[b := o]
    requires Quiet(pools, remap, m0, m1, users, objs, Nowhere) && Quiet(pools, remap, m1, m2, users, objs', Big(b))
    requires Quiet(pools, remap, m2, m3, users, objs', w)
    ensures Quiet(pools, remap, m0, m3, users, objs, w)
  {
    forall c | c in objs ensures c in objs' && objs'[c] == objs[c] && c != b {}
    QuietLess(pools, remap, m0, m1, users, objs, Nowhere, users, objs, w);
    QuietLess(pools, remap, m1, m2, users, objs', Big(b), users, objs, w);
    QuietLess(pools, remap, m2, m3, users, objs', w, users, objs, w);
    QuietTrans(pools, remap, m0, m1, m2, users, objs, w);
    QuietTrans(pools, remap, m0, m2, m3, users, objs, w);
  }

  // What was carried to large object b stays when x is freed.
  lemma EnlargeCarried(space: SlabPool.Space, pools: seq<SlabPool.Pool>, addr: AddressSpace, caps: seq<nat>,
                       bins: seq<Bin>, h: Hands, m1: Mem, m2: Mem, p: nat, q: nat, n: nat, b: nat)
    requires Ready(space, pools, addr, caps, bins, h) && b in addr.objs && addr.objs[b].large
    requires b <= q && q + n <= b + addr.objs[b].len && Carried(space.remap, m1, m2, p, q, n)
    requires LargeSame(m2, space.mem, addr.objs, {})
    ensures Carried(space.remap, m1, space.mem, p, q, n)
  {
    assert InHand(0, bins, h);
    DirectBacks(space, pools, addr, h.outs, h.hids, b, q, n);
    assert SameOn(m2, space.mem, b, addr.objs[b].len);
    CarriedStays(space.remap, m1, m2, space.mem, p, q, n);
  }

  /** btm_realloc_at, small to large: the old object's bytes are at the start of the new
      one, or NULL is returned; nothing else in use changes. */
  method Enlarge(space: SlabPool.Space, pools: seq<SlabPool.Pool>, addr: AddressSpace, caps: seq<nat>, bins: seq<Bin>,
                 i: nat, p: nat, size: nat, raw: Option<nat>, leaf: bool, ghost x: Slot, ghost h: Hands)
    returns (q: nat, bins': seq<Bin>, ghost b: nat, ghost o: Obj, ghost h': Hands)
    requires Ready(space, pools, addr, caps, bins, h) && i < |pools| && x in h.users[i] && p == Addr(pools[i].c, x)
    requires 0 < size && pools[i].c.size <= size && CanMap(addr.objs, size, 4, raw)
    modifies space`mem, pools[i], addr, addr.radix, addr.radix.l1
    ensures Ready(space, pools, addr, caps, bins', h') && space.remap == old(space.remap) && (q == 0 <==> raw.None?)
    ensures q == 0 ==> h' == h && addr.objs == old(addr.objs)
    ensures q == 0 ==> Quiet(pools, space.remap, old(space.mem), space.mem, h.users, old(addr.objs), Nowhere)
    ensures q != 0 ==> h'.users == UsersLess(h.users, Small(i, x))
    ensures q != 0 ==> NewLarge(old(addr.objs), addr.objs, b, o, q, size)
    ensures q != 0 ==> Carried(space.remap, old(space.mem), space.mem, p, q, pools[i].c.size)
    ensures q != 0 ==> Quiet(pools, space.remap, old(space.mem), space.mem, h.users, old(addr.objs), Small(i, x))
  {
    ghost var m0, objs, c := space.mem, addr.objs, pools[i].c;
    bins', h' := bins, h;
    q, b, o := TakeLarge(space, pools, addr, caps, bins, size, raw, leaf, h);
    if q == 0 { return; }
    ghost var m1 := space.mem;
    FillLarge(space, pools, addr, caps, bins, i, p, q, pools[i].c.size, b, x, h);
    ghost var m2 := space.mem;
    bins', h' := GiveSmall(space, pools, addr, caps, bins, i, p, x, h);
    EnlargeQuiet(pools, space.remap, m0, m1, m2, space.mem, h.users, objs, addr.objs, b, o, Small(i, x));
    CarriedFrom(space.remap, m0, m1, m2, c, x, q, c.size);
    EnlargeCarried(space, pools, addr, caps, bins', h', m0, m2, p, q, c.size, b);
  }

  // The usable size of a large object.
  ghost function Usable(objs: map<nat, Obj>, b: nat): nat {
    if b in objs && objs[b].userOff <= objs[b].len then objs[b].len - objs[b].userOff else 0
  }

  // btm_large_usable_size
  method UsableSize(space: SlabPool.Space, pools: seq<SlabPool.Pool>, addr: AddressSpace, caps: seq<nat>,
                    bins: seq<Bin>, b: nat, p: nat, ghost h: Hands)
    returns (usable: nat)
    requires Ready(space, pools, addr, caps, bins, h) && b in addr.objs && addr.objs[b].large
    requires p == b + addr.objs[b].userOff
    ensures usable == Usable(addr.objs, b) && p + usable == b + addr.objs[b].len
  {
    assert InHand(0, bins, h) && LargeOk(space.mem, b, addr.objs[b]);
    usable := LoadLE(space.mem, b + 8, 8) - (p - b);
  }

  // Slot y is filled, then b is freed.
  lemma DrainQuiet(pools: seq<SlabPool.Pool>, remap: map<nat, nat>, m1: Mem, m2: Mem, m3: Mem, users: seq<set<Slot>>,
                   objs: map<nat, Obj>, b: nat, w: Where)
    requires Quiet(pools, remap, m1, m2, users, objs, w) && Quiet(pools, remap, m2, m3, users, objs, Big(b)) && w.Small?
    ensures Quiet(pools, remap, m1, m3, UsersLess(users, w), objs, Big(b))
  {
    QuietLess(pools, remap, m1, m2, users, objs, w, UsersLess(users, w), objs, Big(b));
    QuietLess(pools, remap, m2, m3, users, objs, Big(b), UsersLess(users, w), objs, Big(b));
    QuietTrans(pools, remap, m1, m2, m3, UsersLess(users, w), objs, Big(b));
  }

  // memcpy to a slot and btm_large_free: the second half of the move
  method Drain(space: SlabPool.Space, pools: seq<SlabPool.Pool>, addr: AddressSpace, caps: seq<nat>, bins: seq<Bin>,
               b: nat, j: nat, p: nat, q: nat, n: nat, maps: bool, ghost y: Slot, ghost h: Hands)
    requires Ready(space, pools, addr, caps, bins, h) && b in addr.objs && addr.objs[b].large
    requires j < |pools| && y in h.users[j] && q == Addr(pools[j].c, y) && n <= pools[j].c.size
    requires b <= p && p + n <= b + addr.objs[b].len
    modifies space`mem, addr, addr.radix, addr.radix.l1
    ensures Ready(space, pools, addr, caps, bins, h) && addr.objs == old(addr.objs) - {b}
    ensures Carried(space.remap, old(space.mem), space.mem, p, q, n)
    ensures Quiet(pools, space.remap, old(space.mem), space.mem, UsersLess(h.users, Small(j, y)), old(addr.objs),
                  Big(b))
  {
    ghost var m1, objs := space.mem, addr.objs;
    FillSmall(space, pools, addr, caps, bins, j, p, q, n, b, y, h);
    ghost var m2 := space.mem;
    GiveLarge(space, pools, addr, caps, bins, b, maps, h);
    DrainQuiet(pools, space.remap, m1, m2, space.mem, h.users, objs, b, Small(j, y));
    CarriedTo(space.remap, m1, m2, space.mem, p, pools[j].c, y, n);
  }

  // Before that, slot y was taken.
  lemma ShrinkQuiet(pools: seq<SlabPool.Pool>, remap: map<nat, nat>, m0: Mem, m1: Mem, m2: Mem, users: seq<set<Slot>>,
                    objs: map<nat, Obj>, b: nat, j: nat, y: Slot)
    requires j < |users| && y !in users[j] && Quiet(pools, remap, m0, m1, users, objs, Nowhere)
    requires Quiet(pools, remap, m1, m2, UsersLess(UsersMore(users, Small(j, y)), Small(j, y)), objs, Big(b))
    ensures Quiet(pools, remap, m0, m2, users, objs, Big(b))
  {
    assert UsersMore(users, Small(j, y))[j] - {y} == users[j];
    assert UsersLess(UsersMore(users, Small(j, y)), Small(j, y)) == users;
    QuietLess(pools, remap, m0, m1, users, objs, Nowhere, users, objs, Big(b));
    QuietTrans(pools, remap, m0, m1, m2, users, objs, Big(b));
  }

  // What large object b holds is still there, and read where it is.
  lemma StillThere(space: SlabPool.Space, pools: seq<SlabPool.Pool>, addr: AddressSpace, caps: seq<nat>,
                   bins: seq<Bin>, h: Hands, m0: Mem, p: nat, n: nat, b: nat)
    requires Ready(space, pools, addr, caps, bins, h) && b in addr.objs && addr.objs[b].large
    requires b <= p && p + n <= b + addr.objs[b].len && LargeSame(m0, space.mem, addr.objs, {})
    ensures Backs(space.remap, p, p, n) && SameOn(m0, space.mem, p, n)
  {
    assert InHand(0, bins, h);
    DirectBacks(space, pools, addr, h.outs, h.hids, b, p, n);
    assert SameOn(m0, space.mem, b, addr.objs[b].len);
  }

  /** btm_realloc_at, large to small: the first min(old, new) bytes are in the new slot,
      or NULL is returned; nothing else in use changes. */
  method Shrink(space: SlabPool.Space, pools: seq<SlabPool.Pool>, addr: AddressSpace, caps: seq<nat>, bins: seq<Bin>,
                b: nat, j: nat, p: nat, size: nat, got: Option<nat>, inc: Incoming, maps: bool, ghost h: Hands)
    returns (q: nat, bins': seq<Bin>, ghost y: Option<Slot>, ghost h': Hands)
    requires Ready(space, pools, addr, caps, bins, h) && b in addr.objs && addr.objs[b].large
    requires p == b + addr.objs[b].userOff && j < |pools| && size <= pools[j].c.size
    requires Offered(space, pools, addr, j, got, inc)
    modifies space`mem, pools[j], addr, addr.radix, addr.radix.l1
    ensures Ready(space, pools, addr, caps, bins', h') && space.remap == old(space.remap)
    ensures q == 0 <==> h.slots[j] == [] && RefillFails(pools[j].c, old(pools[j].view), got)
    ensures q == 0 ==> h'.users == h.users && addr.objs == old(addr.objs)
    ensures q == 0 ==> Quiet(pools, space.remap, old(space.mem), space.mem, h.users, old(addr.objs), Nowhere)
    ensures q != 0 ==> y.Some? && q == Addr(pools[j].c, y.value) && y.value !in h.users[j]
    ensures q != 0 ==> h'.users == UsersMore(h.users, Small(j, y.value)) && addr.objs == old(addr.objs) - {b}
    ensures q != 0 ==> Carried(space.remap, old(space.mem), space.mem, p, q, Min(old(Usable(addr.objs, b)), size))
    ensures q != 0 ==> Quiet(pools, space.remap, old(space.mem), space.mem, h.users, old(addr.objs), Big(b))
  {
    ghost var m0, objs := space.mem, addr.objs;
    var usable := UsableSize(space, pools, addr, caps, bins, b, p, h);
    bins', q, y, h' := TakeSmall(space, pools, addr, caps, bins, j, got, inc, h);
    if q == 0 { return; }
    var n := Min(usable, size);
    ghost var m1 := space.mem;
    StillThere(space, pools, addr, caps, bins', h', m0, p, n, b);
    Drain(space, pools, addr, caps, bins', b, j, p, q, n, maps, y.value, h');
    ShrinkQuiet(pools, space.remap, m0, m1, space.mem, h.users, objs, b, j, y.value);
    CarriedSince(space.remap, m0, m1, space.mem, p, q, n);
  }

  // ---- from large to large ----

  // Bytes that are read where they are, before and after.
  lemma DirectCarried(remap: map<nat, nat>, m: Mem, m': Mem, p: nat, q: nat, n: nat)
    requires Backs(remap, p, p, n) && Backs(remap, q, q, n)
    requires forall a: nat :: q <= a < q + n ==> Load(m', a) == Load(m, a - q + p)
    ensures Carried(remap, m, m', p, q, n)
  {
    forall a: nat | q <= a < q + n ensures Load(m', Tr(remap, a)) == Load(m, Tr(remap, a - q + p)) {
      assert Tr(remap, a) == a && Tr(remap, a - q + p) == a - q + p;
    }
  }

  lemma ReadInPlace(space: SlabPool.Space, pools: seq<SlabPool.Pool>, addr: AddressSpace, caps: seq<nat>,
                    bins: seq<Bin>, h: Hands, b: nat, p: nat, n: nat)
    requires Ready(space, pools, addr, caps, bins, h) && b in addr.objs && addr.objs[b].large
    requires p == b + addr.objs[b].userOff && n <= Usable(addr.objs, b)
    ensures Backs(space.remap, p, p, n) && HEADER <= addr.objs[b].userOff < addr.objs[b].len
  {
    assert InHand(0, bins, h) && LargeOk(space.mem, b, addr.objs[b]);
    DirectBacks(space, pools, addr, h.outs, h.hids, b, p, n);
  }

  method KeepInPlace(space: SlabPool.Space, pools: seq<SlabPool.Pool>, addr: AddressSpace, caps: seq<nat>,
                     bins: seq<Bin>, b: nat, size: nat, ghost h: Hands)
    requires Ready(space, pools, addr, caps, bins, h) && b in addr.objs && addr.objs[b].large
    modifies space`mem
    ensures Ready(space, pools, addr, caps, bins, h)
    ensures OnlyIn(old(space.mem), space.mem, b, HEADER)
    ensures Quiet(pools, space.remap, old(space.mem), space.mem, h.users, addr.objs, Big(b))
  {
    assert InHand(0, bins, h);
    ghost var m0 := space.mem;
    KeepLarge(space, pools, addr, b, size, h.outs, h.hids);
    AllQuiet(space, pools, caps, m0, bins, h);
  }

  method MoveAway(space: SlabPool.Space, pools: seq<SlabPool.Pool>, addr: AddressSpace, caps: seq<nat>, bins: seq<Bin>,
                  b: nat, size: nat, nb: Option<nat>, after: Mem, maps: bool, leaf: bool, ghost h: Hands)
    returns (q: nat, ghost o: Obj)
    requires Ready(space, pools, addr, caps, bins, h) && b in addr.objs && addr.objs[b].large
    requires 0 < size && addr.objs[b].userOff + size + PAGE - 1 < WORD
    requires nb.Some? ==> CanMove(space.mem, addr.objs, b, nb.value, Resized(addr.objs[b], size).len, after)
    modifies space`mem, addr, addr.radix, addr.radix.l1
    ensures Ready(space, pools, addr, caps, bins, h) && (q == 0 <==> nb.None?)
    ensures nb.None? ==> addr.objs == old(addr.objs)
    ensures nb.None? ==> Quiet(pools, space.remap, old(space.mem), space.mem, h.users, old(addr.objs), Nowhere)
    ensures o == Resized(old(addr.objs)[b], size) && LeastPages(o.len, o.userOff + size)
    ensures nb.Some? ==> q == nb.value + o.userOff
    ensures nb.Some? ==> Moved(old(space.mem), space.mem, old(addr.objs), addr.objs, b, nb.value, o)
    ensures Quiet(pools, space.remap, old(space.mem), space.mem, h.users, old(addr.objs), Big(b))
  {
    assert InHand(0, bins, h);
    ghost var m0 := space.mem;
    q, o := MoveLarge(space, pools, addr, b, size, nb, after, maps, leaf, h.outs, h.hids);
    AllQuiet(space, pools, caps, m0, bins, h);
  }

  method KeepOver(space: SlabPool.Space, pools: seq<SlabPool.Pool>, addr: AddressSpace, caps: seq<nat>, bins: seq<Bin>,
                  b: nat, p: nat, size: nat, ghost n: nat, ghost h: Hands)
    requires Ready(space, pools, addr, caps, bins, h) && b in addr.objs && addr.objs[b].large
    requires p == b + addr.objs[b].userOff && n <= Usable(addr.objs, b)
    modifies space`mem
    ensures Ready(space, pools, addr, caps, bins, h) && addr.objs == (addr.objs - {b})[b := addr.objs[b]]
    ensures Carried(space.remap, old(space.mem), space.mem, p, p, n)
    ensures Quiet(pools, space.remap, old(space.mem), space.mem, h.users, addr.objs, Big(b))
  {
    ghost var m0 := space.mem;
    ReadInPlace(space, pools, addr, caps, bins, h, b, p, n);
    KeepInPlace(space, pools, addr, caps, bins, b, size, h);
    DirectCarried(space.remap, m0, space.mem, p, p, n);
  }

  method MoveOver(space: SlabPool.Space, pools: seq<SlabPool.Pool>, addr: AddressSpace, caps: seq<nat>, bins: seq<Bin>,
                  b: nat, p: nat, size: nat, nb: Option<nat>, after: Mem, maps: bool, leaf: bool, ghost n: nat,
                  ghost h: Hands)
    returns (q: nat, ghost o: Obj)
    requires Ready(space, pools, addr, caps, bins, h) && b in addr.objs && addr.objs[b].large
    requires p == b + addr.objs[b].userOff && n == Min(Usable(addr.objs, b), size)
    requires 0 < size && addr.objs[b].userOff + size + PAGE - 1 < WORD
    requires nb.Some? ==> CanMove(space.mem, addr.objs, b, nb.value, Resized(addr.objs[b], size).len, after)
    modifies space`mem, addr, addr.radix, addr.radix.l1
    ensures Ready(space, pools, addr, caps, bins, h) && (q == 0 <==> nb.None?)
    ensures nb.None? ==> addr.objs == old(addr.objs)
    ensures nb.None? ==> Quiet(pools, space.remap, old(space.mem), space.mem, h.users, old(addr.objs), Nowhere)
    ensures o == Resized(old(addr.objs)[b], size) && LeastPages(o.len, o.userOff + size)
    ensures nb.Some? ==> q == nb.value + o.userOff && nb.value !in old(addr.objs) - {b}
    ensures nb.Some? ==> addr.objs == (old(addr.objs) - {b})[nb.value := o]
    ensures nb.Some? ==> Carried(space.remap, old(space.mem), space.mem, p, q, n)
    ensures Quiet(pools, space.remap, old(space.mem), space.mem, h.users, old(addr.objs), Big(b))
  {
    ghost var m0, objs := space.mem, addr.objs;
    ReadInPlace(space, pools, addr, caps, bins, h, b, p, n);
    q, o := MoveAway(space, pools, addr, caps, bins, b, size, nb, after, maps, leaf, h);
    if nb.Some? {
      ReadInPlace(space, pools, addr, caps, bins, h, nb.value, q, n);
      MovedCarried(m0, space.mem, objs, addr.objs, b, nb.value, o, p, q, n);
      DirectCarried(space.remap, m0, space.mem, p, q, n);
    }
  }

  /** btm_large_realloc: the object keeps its mapping if its length need not change;
      otherwise the kernel resizes or moves it, or NULL is returned and it is as it was.
      The bytes that still fit are carried; nothing else in use changes. */
  method ResizeLarge(space: SlabPool.Space, pools: seq<SlabPool.Pool>, addr: AddressSpace, caps: seq<nat>,
                     bins: seq<Bin>, b: nat, p: nat, size: nat, nb: Option<nat>, after: Mem, maps: bool, leaf: bool,
                     ghost h: Hands)
    returns (q: nat, ghost b': nat, ghost o: Obj)
    requires Ready(space, pools, addr, caps, bins, h) && b in addr.objs && addr.objs[b].large
    requires p == b + addr.objs[b].userOff && 0 < size && addr.objs[b].userOff + size + PAGE - 1 < WORD
    requires !InPages(addr.objs[b], size) && nb.Some? ==>
               CanMove(space.mem, addr.objs, b, nb.value, Resized(addr.objs[b], size).len, after)
    modifies space`mem, addr, addr.radix, addr.radix.l1
    ensures Ready(space, pools, addr, caps, bins, h)
    ensures q == 0 <==> !InPages(old(addr.objs)[b], size) && nb.None?
    ensures InPages(old(addr.objs)[b], size) ==> q == p && b' == b && addr.objs == old(addr.objs)
    ensures q == 0 ==> addr.objs == old(addr.objs)
    ensures q == 0 ==> Quiet(pools, space.remap, old(space.mem), space.mem, h.users, old(addr.objs), Nowhere)
    ensures q != 0 ==> o.large && o.userOff == old(addr.objs)[b].userOff && q == b' + o.userOff
    ensures q != 0 ==> LeastPages(o.len, o.userOff + size)
    ensures q != 0 ==> b' !in old(addr.objs) - {b} && addr.objs == (old(addr.objs) - {b})[b' := o]
    ensures q != 0 ==> Carried(space.remap, old(space.mem), space.mem, p, q, Min(old(Usable(addr.objs, b)), size))
    ensures q != 0 ==> Quiet(pools, space.remap, old(space.mem), space.mem, h.users, old(addr.objs), Big(b))
  {
    ghost var n := Min(Usable(addr.objs, b), size);
    var total, off := HeaderWords(space, pools, addr, caps, bins, b, h);
    NewTotalFits(off, size);
    SameTotalIff(addr.objs[b], size);
    if NewTotal(off, size) == total {
      b', o := b, addr.objs[b];
      KeepOver(space, pools, addr, caps, bins, b, p, size, n, h);
      return p, b', o;
    }
    b' := if nb.Some? then nb.value else 0;
    q, o := MoveOver(space, pools, addr, caps, bins, b, p, size, nb, after, maps, leaf, n, h);
  }

  lemma MovedCarried(m: Mem, m': Mem, objs: map<nat, Obj>, objs': map<nat, Obj>, b: nat, nb: nat, o: Obj, p: nat,
                     q: nat, n: nat)
    requires Moved(m, m', objs, objs', b, nb, o) && p == b + o.userOff && q == nb + o.userOff
    requires p + n <= b + objs[b].len && q + n <= nb + o.len
    ensures forall a: nat :: q <= a < q + n ==> Load(m', a) == Load(m, a - q + p)
  {}

  method HeaderWords(space: SlabPool.Space, pools: seq<SlabPool.Pool>, addr: AddressSpace, caps: seq<nat>,
                     bins: seq<Bin>, b: nat, ghost h: Hands)
    returns (total: nat, off: nat)
    requires Ready(space, pools, addr, caps, bins, h) && b in addr.objs && addr.objs[b].large
    ensures total == addr.objs[b].len && off == addr.objs[b].userOff && Sized(addr.objs[b])
  {
    assert InHand(0, bins, h) && LargeOk(space.mem, b, addr.objs[b]);
    total, off := LoadLE(space.mem, b + 8, 8), LoadLE(space.mem, b + 16, 8);
  }

  // ---- from small to small ----

  // The copy of realloc, from slot to slot.
  method FillSlot(space: SlabPool.Space, pools: seq<SlabPool.Pool>, addr: AddressSpace, caps: seq<nat>, bins: seq<Bin>,
                  i: nat, j: nat, p: nat, q: nat, n: nat, ghost x: Slot, ghost y: Slot, ghost h: Hands)
    requires Ready(space, pools, addr, caps, bins, h) && i < |pools| && j < |pools| && i != j
    requires x in h.users[i] && p == Addr(pools[i].c, x) && y in h.users[j] && q == Addr(pools[j].c, y)
    requires n <= pools[i].c.size && n <= pools[j].c.size
    modifies space`mem
    ensures Ready(space, pools, addr, caps, bins, h) && Carried(space.remap, old(space.mem), space.mem, p, q, n)
    ensures Quiet(pools, space.remap, old(space.mem), space.mem, h.users, addr.objs, Small(j, y))
  {
    assert InHand(0, bins, h);
    ghost var m0 := space.mem;
    UsersOut(pools, caps, m0, bins, h);
    CopyBetween(space, pools, i, j, p, q, n, x, y, h.outs, h.hids);
    BytesOutTrans(m0, m0, space.mem, {}, pools[j].view.live.Keys, Chunks(addr.objs));
    LargeUntouched(m0, space.mem, addr.objs);
    WrittenQuiet(space, pools, caps, m0, bins, h, j, y);
  }

  // Slot y is taken and filled, then x is freed: nothing else in use is disturbed.
  lemma MoveQuiet(pools: seq<SlabPool.Pool>, remap: map<nat, nat>, m0: Mem, m1: Mem, m2: Mem, m3: Mem,
                  users: seq<set<Slot>>, objs: map<nat, Obj>, i: nat, x: Slot, j: nat, y: Slot)
    requires i < |users| && j < |users| && i != j && y !in users[j]
    requires Quiet(pools, remap, m0, m1, users, objs, Nowhere)
    requires Quiet(pools, remap, m1, m2, UsersMore(users, Small(j, y)), objs, Small(j, y))
    requires Quiet(pools, remap, m2, m3, UsersMore(users, Small(j, y)), objs, Small(i, x))
    ensures Quiet(pools, remap, m0, m3, users, objs, Small(i, x))
  {
    var us := UsersMore(users, Small(j, y));
    QuietLess(pools, remap, m0, m1, users, objs, Nowhere, users, objs, Small(i, x));
    QuietLess(pools, remap, m1, m2, us, objs, Small(j, y), users, objs, Small(i, x));
    QuietLess(pools, remap, m2, m3, us, objs, Small(i, x), users, objs, Small(i, x));
    QuietTrans(pools, remap, m0, m1, m2, users, objs, Small(i, x));
    QuietTrans(pools, remap, m0, m2, m3, users, objs, Small(i, x));
  }

  /** btm_realloc_at, from one small class to another: the first n bytes are in the new
      slot, wherever meshing has put either, or NULL is returned; nothing else in use
      changes. */
  method MoveSmall(space: SlabPool.Space, pools: seq<SlabPool.Pool>, addr: AddressSpace, caps: seq<nat>,
                   bins: seq<Bin>, i: nat, j: nat, p: nat, n: nat, got: Option<nat>, inc: Incoming, ghost x: Slot,
                   ghost h: Hands)
    returns (q: nat, bins': seq<Bin>, ghost y: Option<Slot>, ghost h': Hands)
    requires Ready(space, pools, addr, caps, bins, h) && i < |pools| && j < |pools| && i != j
    requires x in h.users[i] && p == Addr(pools[i].c, x) && n <= pools[i].c.size && n <= pools[j].c.size
    requires Offered(space, pools, addr, j, got, inc)
    modifies space`mem, pools[i], pools[j]
    ensures Ready(space, pools, addr, caps, bins', h') && space.remap == old(space.remap)
    ensures q == 0 <==> h.slots[j] == [] && RefillFails(pools[j].c, old(pools[j].view), got)
    ensures q == 0 ==> h'.users == h.users
    ensures q == 0 ==> Quiet(pools, space.remap, old(space.mem), space.mem, h.users, addr.objs, Nowhere)
    ensures q != 0 ==> y.Some? && q == Addr(pools[j].c, y.value) && y.value !in h.users[j]
    ensures q != 0 ==> h'.users == UsersLess(UsersMore(h.users, Small(j, y.value)), Small(i, x))
    ensures q != 0 ==> Carried(space.remap, old(space.mem), space.mem, p, q, n)
    ensures q != 0 ==> Quiet(pools, space.remap, old(space.mem), space.mem, h.users, addr.objs, Small(i, x))
  {
    ghost var m0, c, d := space.mem, pools[i].c, pools[j].c;
    bins', q, y, h' := TakeSmall(space, pools, addr, caps, bins, j, got, inc, h);
    if q == 0 { return; }
    ghost var m1 := space.mem;
    FillSlot(space, pools, addr, caps, bins', i, j, p, q, n, x, y.value, h');
    ghost var m2, us := space.mem, h'.users;
    bins', h' := GiveSmall(space, pools, addr, caps, bins', i, p, x, h');
    MoveQuiet(pools, space.remap, m0, m1, m2, space.mem, h.users, addr.objs, i, x, j, y.value);
    CarriedFrom(space.remap, m0, m1, m2, c, x, q, n);
    assert y.value in UsersLess(us, Small(i, x))[j];
    CarriedTo(space.remap, m0, m2, space.mem, p, d, y.value, n);
  }
}
