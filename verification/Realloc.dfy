/** The public operations over the whole heap: the pools, one thread's bins, the
    large objects and the owner table. Where the kernel puts a mapping, and which
    chunk a pool is offered, are arguments. */
module Realloc {
  import opened Bits
  import opened Seqs
  import opened Memory
  import opened Geometry
  import opened Registry
  import opened Placement
  import opened PoolProofs
  import opened PoolSteps
  import opened ThreadBins
  import opened Arena
  import opened SlotCopies
  import opened Large
  import opened LargePaths
  import opened Moves
  import SlabPool

  // ---- pointers ----

  // Sizes grow with the class, so pools of different classes are different.
  lemma {:induction false} SizesIncrease(a: nat, b: nat)
    requires a < b < NUM_CLASSES
    ensures SizeOf(a) < SizeOf(b)
    decreases b - a
  {
    assert SizeOf(b - 1) < SizeOf(b);
    if a == b - 1 {
    } else {
      SizesIncrease(a, b - 1);
    }
  }

  lemma ClassesDiffer(a: nat, b: nat)
    requires a < NUM_CLASSES && b < NUM_CLASSES && a != b
    ensures ClassOf(a) != ClassOf(b)
  {
    if a < b { SizesIncrease(a, b); } else { SizesIncrease(b, a); }
  }

  // n bytes is the least class size that holds `size` bytes.
  ghost predicate SnugSize(n: nat, size: nat) {
    size <= n && forall sc: nat :: sc < NUM_CLASSES && size <= SizeOf(sc) ==> n <= SizeOf(sc)
  }

  /** A request belongs to a class exactly if that is the least class that holds it. */
  lemma SameClassIff(sc: nat, size: nat)
    requires sc < NUM_CLASSES && size > 0
    ensures SizeToSc(size) == Some(sc) <==> SnugSize(SizeOf(sc), size)
  {
    SizeToScFits(size);
    if 1 <= size <= SMALL_MAX {
      var r := SizeToSc(size).value;
      if r < sc {
        SizesIncrease(r, sc);
      } else if sc < r {
        SizesIncrease(sc, r);
      } else {
        forall j: nat | j < NUM_CLASSES && size <= SizeOf(j) ensures SizeOf(sc) <= SizeOf(j) {
          if sc < j { SizesIncrease(sc, j); }
        }
      }
    }
  }

  // The object at w is of the size a request of `size` bytes gets: a slot of the least class
  // that holds it, or beyond those a mapping of the least number of pages.
  ghost predicate Snug(pools: seq<SlabPool.Pool>, objs: map<nat, Obj>, w: Where, size: nat) {
    match w
    case Nowhere => false
    case Small(i, x) => size <= SMALL_MAX && i < |pools| && SnugSize(pools[i].c.size, size)
    case Big(b) => size > SMALL_MAX && b in objs && LeastPages(objs[b].len, objs[b].userOff + size)
  }

  // The class of every pool, and the capacity of a bin over it.
  ghost predicate Classes(pools: seq<SlabPool.Pool>, scs: seq<nat>, caps: seq<nat>) {
    && |scs| == |caps| == |pools|
    && forall k {:trigger pools[k]} :: 0 <= k < |pools| ==>
         scs[k] < NUM_CLASSES && pools[k].c == ClassOf(scs[k]) && caps[k] == CacheMax(scs[k])
  }

  // Pointer p is to the object at w.
  ghost predicate Points(pools: seq<SlabPool.Pool>, objs: map<nat, Obj>, users: seq<set<Slot>>, w: Where, p: nat) {
    match w
    case Nowhere => p < USER_TOP && forall b :: b in objs ==> objs[b].len > 0 && !InRange(Region(p), b, objs[b].len)
    case Small(i, x) => i < |pools| && i < |users| && x in users[i] && p == Addr(pools[i].c, x)
    case Big(b) => b in objs && objs[b].large && p == b + objs[b].userOff
  }

  // The bytes the object at w has room for.
  ghost function Room(pools: seq<SlabPool.Pool>, objs: map<nat, Obj>, w: Where): nat {
    match w
    case Nowhere => 0
    case Small(i, x) => if i < |pools| then pools[i].c.size else 0
    case Big(b) => Usable(objs, b)
  }

  lemma SmallResolves(space: SlabPool.Space, pools: seq<SlabPool.Pool>, addr: AddressSpace, outs: seq<set<Slot>>,
                      hids: seq<set<Slot>>, i: nat, x: Slot)
    requires HeapOk(space, pools, addr, outs, hids) && i < |pools| && x in outs[i]
    ensures var k, p := x.slab.chunk, Addr(pools[i].c, x);
            k in addr.objs && addr.objs[k] == CHUNK_OBJ && k <= p < k + CHUNK && 0 < k && k % CHUNK == 0 && p < USER_TOP
  {
    pools[i].UsedMapped(outs[i], hids[i], x);
    SlotBounds(pools[i].c, x);
    assert x.slab.chunk in pools[i].view.live.Keys && x.slab.chunk in Chunks(addr.objs);
    assert ObjOk(x.slab.chunk, addr.objs[x.slab.chunk]);
  }

  /** btm_resolve_owner on a pointer to an object: 0 exactly if there is none, or no leaf
      could be mapped for its region; otherwise bit 0 tells a large object from a slot,
      and the rest is the object's base, or the slot's chunk. */
  method Resolve(space: SlabPool.Space, pools: seq<SlabPool.Pool>, addr: AddressSpace, caps: seq<nat>, bins: seq<Bin>,
                 p: nat, ghost w: Where, ghost h: Hands)
    returns (owner: nat, large: bool, base: nat)
    requires Ready(space, pools, addr, caps, bins, h) && Points(pools, addr.objs, h.users, w, p)
    ensures owner == 0 <==> w.Nowhere? || Region(p) in addr.dark
    ensures owner != 0 ==> large == w.Big? && base == if w.Big? then w.b else w.x.slab.chunk
  {
    assert InHand(0, bins, h);
    if {
      case w.Nowhere? =>
      case w.Small? =>
        UsersOut(pools, caps, space.mem, bins, h);
        SmallResolves(space, pools, addr, h.outs, h.hids, w.i, w.x);
        TagRoundTrip(w.x.slab.chunk, CHUNK_OBJ);
      case w.Big? =>
        assert ObjOk(w.b, addr.objs[w.b]) && LargeOk(space.mem, w.b, addr.objs[w.b]);
        TagRoundTrip(w.b, addr.objs[w.b]);
        TagAdds(w.b, addr.objs[w.b]);
    }
    owner := addr.Resolve(p);
    large, base := And(owner, 1) == 1, And(owner, HighMask(1, WORD_BITS));
  }

  // ---- btm_init ----

  lemma NoBins(pools: seq<SlabPool.Pool>, caps: seq<nat>, m: Mem, bins: seq<Bin>, h: Hands)
    requires |caps| == |bins| == |h.slots| == |h.users| == |h.outs| == |pools|
    requires forall k :: 0 <= k < |pools| ==> caps[k] > 0 && bins[k] == Bin(0, 0)
    requires forall k :: 0 <= k < |pools| ==> h.slots[k] == [] && h.users[k] == {} && h.outs[k] == {}
    ensures BinsIn(pools, caps, m, bins, h)
  {
    forall k | 0 <= k < |pools| ensures BinIn(pools[k], caps[k], m, bins[k], h.slots[k], h.users[k], h.outs[k]) {}
  }

  lemma NoObjects(space: SlabPool.Space, pools: seq<SlabPool.Pool>, addr: AddressSpace, outs: seq<set<Slot>>,
                  hids: seq<set<Slot>>)
    requires ArenaOk(space, pools, outs, hids) && addr.Valid() && addr.objs == map[]
    requires forall k :: 0 <= k < |pools| ==> pools[k].view.live == map[]
    ensures HeapOk(space, pools, addr, outs, hids)
  {}

  /** btm_init: one pool for every entry of `scs`, nothing in any bin and no object. */
  method NewHeap(scs: seq<nat>, key: nat)
    returns (space: SlabPool.Space, pools: seq<SlabPool.Pool>, addr: AddressSpace, caps: seq<nat>, bins: seq<Bin>,
             ghost h: Hands)
    requires key < WORD && forall k :: 0 <= k < |scs| ==> scs[k] < NUM_CLASSES
    ensures Ready(space, pools, addr, caps, bins, h) && Classes(pools, scs, caps)
    ensures addr.objs == map[] && forall k :: 0 <= k < |pools| ==> h.users[k] == {}
  {
    forall k | 0 <= k < |scs| ensures ClassOf(scs[k]).Valid() && CacheMax(scs[k]) > 0 { TableValid(scs[k]); }
    var cs := seq(|scs|, k requires 0 <= k < |scs| && scs[k] < NUM_CLASSES => ClassOf(scs[k]));
    caps := seq(|scs|, k requires 0 <= k < |scs| && scs[k] < NUM_CLASSES => CacheMax(scs[k]));
    bins := seq(|scs|, _ => Bin(0, 0));
    space, pools := NewPools(cs, key);
    addr := new AddressSpace();
    h := Hands(seq(|scs|, _ => []), Nothing(|scs|), Nothing(|scs|), Nothing(|scs|));
    NoBins(pools, caps, space.mem, bins, h);
    NoObjects(space, pools, addr, h.outs, h.hids);
  }

  // ---- malloc and free ----

  // Pool j serves the class of a small request, and the kernel can place a large one.
  ghost predicate CanServe(space: SlabPool.Space, pools: seq<SlabPool.Pool>, addr: AddressSpace, j: nat, size: nat,
                           got: Option<nat>, inc: Incoming, raw: Option<nat>)
    reads space, pools, addr
  {
    forall u: nat {:trigger Asked(u, size)} :: Asked(u, size) ==>
      if size == 0 then true
      else if size <= SMALL_MAX then
        && j < |pools| && SizeToSc(size).value < NUM_CLASSES && pools[j].c == ClassOf(SizeToSc(size).value)
        && Offered(space, pools, addr, j, got, inc)
      else CanMap(addr.objs, size, 4, raw)
  }

  // Neither the bin nor the pool has a slot, or the kernel refuses the mapping.
  ghost predicate NoMemory(pools: seq<SlabPool.Pool>, slots: seq<seq<Slot>>, j: nat, size: nat, got: Option<nat>,
                           raw: Option<nat>)
    reads pools
  {
    if size <= SMALL_MAX then
      j < |pools| && j < |slots| && slots[j] == [] && RefillFails(pools[j].c, pools[j].view, got)
    else raw.None?
  }

  // A new object for `size` bytes is at w.
  ghost predicate Placed(pools: seq<SlabPool.Pool>, objs: map<nat, Obj>, objs': map<nat, Obj>, users: seq<set<Slot>>,
                         users': seq<set<Slot>>, w: Where, p: nat, size: nat) {
    && users' == UsersMore(users, w) && ObjsLess(objs', w) == objs && (w.Nowhere? || Snug(pools, objs', w, size))
    && match w
       case Nowhere => p == 0
       case Small(i, x) => i < |pools| && i < |users| && x !in users[i] && p == Addr(pools[i].c, x)
       case Big(b) => b !in objs && b in objs' && NewLarge(objs, objs', b, objs'[b], p, size)
  }

  lemma PlacedLarge(pools: seq<SlabPool.Pool>, objs: map<nat, Obj>, objs': map<nat, Obj>, users: seq<set<Slot>>,
                    b: nat, o: Obj, p: nat, size: nat)
    requires NewLarge(objs, objs', b, o, p, size) && size > SMALL_MAX
    ensures Placed(pools, objs, objs', users, users, Big(b), p, size)
  {
    assert objs' - {b} == objs;
  }

  lemma DirectZero(remap: map<nat, nat>, m: Mem, p: nat, n: nat)
    requires Backs(remap, p, p, n) && forall a: nat :: p <= a < p + n ==> Load(m, a) == 0
    ensures ReadsZero(remap, m, p, n)
  {
    forall a: nat | p <= a < p + n ensures Load(m, Tr(remap, a)) == 0 { assert Tr(remap, a) == a; }
  }

  /** btm_malloc_at: NULL exactly for size 0 or if there is no memory; otherwise an object
      that was in no hands, with room for the request. Everything in use is as it was. */
  method Malloc(space: SlabPool.Space, pools: seq<SlabPool.Pool>, addr: AddressSpace, caps: seq<nat>, bins: seq<Bin>,
                j: nat, size: nat, got: Option<nat>, inc: Incoming, raw: Option<nat>, leaf: bool, ghost h: Hands)
    returns (p: nat, bins': seq<Bin>, ghost w: Where, ghost h': Hands)
    requires Ready(space, pools, addr, caps, bins, h) && CanServe(space, pools, addr, j, size, got, inc, raw)
    modifies space`mem, pools, addr, addr.radix, addr.radix.l1
    ensures Ready(space, pools, addr, caps, bins', h') && space.remap == old(space.remap)
    ensures p == 0 <==> size == 0 || old(NoMemory(pools, h.slots, j, size, got, raw))
    ensures p == 0 <==> w.Nowhere?
    ensures p != 0 ==> (w.Big? <==> size > SMALL_MAX) && (w.Small? ==> w.i == j)
    ensures Placed(pools, old(addr.objs), addr.objs, h.users, h'.users, w, p, size)
    ensures p != 0 && size > SMALL_MAX ==> ReadsZero(space.remap, space.mem, p, size)
    ensures Quiet(pools, space.remap, old(space.mem), space.mem, h.users, old(addr.objs), Nowhere)
  {
    bins', w, h' := bins, Nowhere, h;
    if size == 0 {
      return 0, bins', w, h';
    }
    SizeToScFits(size);
    assert Asked(0, size);
    if size <= SMALL_MAX {
      ghost var y;
      SameClassIff(SizeToSc(size).value, size);
      bins', p, y, h' := TakeSmall(space, pools, addr, caps, bins, j, got, inc, h);
      w := if y.Some? then Small(j, y.value) else Nowhere;
    } else {
      ghost var objs := addr.objs;
      ghost var b, o;
      p, b, o := TakeLarge(space, pools, addr, caps, bins, size, raw, leaf, h);
      if p != 0 {
        w := Big(b);
        PlacedLarge(pools, objs, addr.objs, h.users, b, o, p, size);
        ReadInPlace(space, pools, addr, caps, bins, h, b, p, size);
        DirectZero(space.remap, space.mem, p, size);
      }
    }
  }

  // The object that a pointer leads to: none, if its region has no entry in the owner table.
  ghost function Found(dark: set<nat>, w: Where, p: nat): Where {
    if p == 0 || Region(p) in dark then Nowhere else w
  }

  /** btm_free: the object the pointer leads to is given back, and nothing else changes;
      a pointer that leads nowhere is ignored. */
  method Free(space: SlabPool.Space, pools: seq<SlabPool.Pool>, addr: AddressSpace, caps: seq<nat>, bins: seq<Bin>,
              p: nat, i: nat, maps: bool, ghost w: Where, ghost h: Hands)
    returns (bins': seq<Bin>, ghost h': Hands)
    requires Ready(space, pools, addr, caps, bins, h)
    requires p != 0 ==> Points(pools, addr.objs, h.users, w, p) && (w.Small? ==> w.i == i)
    modifies space`mem, pools, addr, addr.radix, addr.radix.l1
    ensures Ready(space, pools, addr, caps, bins', h') && space.remap == old(space.remap)
    ensures var f := old(Found(addr.dark, w, p));
            && h'.users == UsersLess(h.users, f) && addr.objs == ObjsLess(old(addr.objs), f)
            && Quiet(pools, space.remap, old(space.mem), space.mem, h.users, old(addr.objs), f)
  {
    bins', h' := bins, h;
    if p == 0 { return; }
    var owner, large, base := Resolve(space, pools, addr, caps, bins, p, w, h);
    if owner == 0 { return; }
    if large {
      GiveLarge(space, pools, addr, caps, bins, base, maps, h);
    } else {
      bins', h' := GiveSmall(space, pools, addr, caps, bins, i, p, w.x, h);
    }
  }

  // ---- calloc ----

  method ClearSlot(space: SlabPool.Space, pools: seq<SlabPool.Pool>, addr: AddressSpace, caps: seq<nat>,
                   bins: seq<Bin>, j: nat, p: nat, n: nat, ghost y: Slot, ghost h: Hands)
    requires Ready(space, pools, addr, caps, bins, h) && j < |pools| && y in h.users[j] && p == Addr(pools[j].c, y)
    requires n <= pools[j].c.size
    modifies space`mem
    ensures Ready(space, pools, addr, caps, bins, h) && ReadsZero(space.remap, space.mem, p, n)
    ensures Quiet(pools, space.remap, old(space.mem), space.mem, h.users, addr.objs, Small(j, y))
  {
    assert InHand(0, bins, h);
    ghost var m0 := space.mem;
    UsersOut(pools, caps, m0, bins, h);
    ClearIn(space, pools, j, p, n, y, h.outs, h.hids);
    BytesOutTrans(m0, m0, space.mem, {}, pools[j].view.live.Keys, Chunks(addr.objs));
    LargeUntouched(m0, space.mem, addr.objs);
    WrittenQuiet(space, pools, caps, m0, bins, h, j, y);
  }

  // A new slot is written: nothing that was in use before is disturbed.
  lemma ClearQuiet(pools: seq<SlabPool.Pool>, remap: map<nat, nat>, m0: Mem, m1: Mem, m2: Mem, users: seq<set<Slot>>,
                   objs: map<nat, Obj>, j: nat, y: Slot)
    requires j < |users| && y !in users[j] && Quiet(pools, remap, m0, m1, users, objs, Nowhere)
    requires Quiet(pools, remap, m1, m2, UsersMore(users, Small(j, y)), objs, Small(j, y))
    ensures Quiet(pools, remap, m0, m2, users, objs, Nowhere)
  {
    QuietLess(pools, remap, m1, m2, UsersMore(users, Small(j, y)), objs, Small(j, y), users, objs, Nowhere);
    QuietTrans(pools, remap, m0, m1, m2, users, objs, Nowhere);
  }

  method MallocZero(space: SlabPool.Space, pools: seq<SlabPool.Pool>, addr: AddressSpace, caps: seq<nat>,
                    bins: seq<Bin>, j: nat, size: nat, got: Option<nat>, inc: Incoming, raw: Option<nat>, leaf: bool,
                    ghost h: Hands)
    returns (p: nat, bins': seq<Bin>, ghost w: Where, ghost h': Hands)
    requires Ready(space, pools, addr, caps, bins, h) && CanServe(space, pools, addr, j, size, got, inc, raw)
    modifies space`mem, pools, addr, addr.radix, addr.radix.l1
    ensures Ready(space, pools, addr, caps, bins', h') && space.remap == old(space.remap)
    ensures p == 0 <==> size == 0 || old(NoMemory(pools, h.slots, j, size, got, raw))
    ensures p == 0 <==> w.Nowhere?
    ensures Placed(pools, old(addr.objs), addr.objs, h.users, h'.users, w, p, size)
    ensures p != 0 ==> ReadsZero(space.remap, space.mem, p, size)
    ensures Quiet(pools, space.remap, old(space.mem), space.mem, h.users, old(addr.objs), Nowhere)
  {
    ghost var m0 := space.mem;
    p, bins', w, h' := Malloc(space, pools, addr, caps, bins, j, size, got, inc, raw, leaf, h);
    if p != 0 && size <= SMALL_MAX {
      ghost var m1 := space.mem;
      ClearSlot(space, pools, addr, caps, bins', j, p, size, w.x, h');
      ClearQuiet(pools, space.remap, m0, m1, space.mem, h.users, addr.objs, j, w.x);
    }
  }

  /** btm_calloc_at: NULL exactly on overflow, for zero bytes or if there is no memory;
      otherwise an object that was in no hands and whose requested bytes read zero: a slot
      because it is cleared through the page map, a large object because its mapping is
      new. Everything in use is as it was. */
  method Calloc(space: SlabPool.Space, pools: seq<SlabPool.Pool>, addr: AddressSpace, caps: seq<nat>, bins: seq<Bin>,
                j: nat, n: nat, size: nat, got: Option<nat>, inc: Incoming, raw: Option<nat>, leaf: bool,
                ghost h: Hands)
    returns (p: nat, bins': seq<Bin>, ghost w: Where, ghost h': Hands)
    requires Ready(space, pools, addr, caps, bins, h)
    requires n * size < WORD ==> CanServe(space, pools, addr, j, n * size, got, inc, raw)
    modifies space`mem, pools, addr, addr.radix, addr.radix.l1
    ensures Ready(space, pools, addr, caps, bins', h') && space.remap == old(space.remap)
    ensures p == 0 <==> n * size >= WORD || n * size == 0 || old(NoMemory(pools, h.slots, j, n * size, got, raw))
    ensures p == 0 <==> w.Nowhere?
    ensures Placed(pools, old(addr.objs), addr.objs, h.users, h'.users, w, p, n * size)
    ensures p != 0 ==> ReadsZero(space.remap, space.mem, p, n * size)
    ensures Quiet(pools, space.remap, old(space.mem), space.mem, h.users, old(addr.objs), Nowhere)
  {
    var bytes := n * size;
    bins', w, h' := bins, Nowhere, h;
    if bytes >= WORD || bytes == 0 {
      return 0, bins', w, h';
    }
    p, bins', w, h' := MallocZero(space, pools, addr, caps, bins, j, bytes, got, inc, raw, leaf, h);
  }

  // ---- realloc ----

  // Nothing was at w.
  ghost predicate Vacant(objs: map<nat, Obj>, users: seq<set<Slot>>, w: Where) {
    && (w.Small? ==> w.i < |users| && w.x !in users[w.i])
    && (w.Big? ==> w.b !in objs)
  }

  // What realloc promises of a live object: it is at w', of the size the request gets and
  // with as many of its bytes as fit, or NULL is returned and it is still at w, untouched.
  // If it is of that size already it stays.
  ghost predicate Outcome(pools: seq<SlabPool.Pool>, remap: map<nat, nat>, m: Mem, m': Mem, users: seq<set<Slot>>,
                          users': seq<set<Slot>>, objs: map<nat, Obj>, objs': map<nat, Obj>, w: Where, w': Where,
                          p: nat, q: nat, size: nat) {
    if q == 0 then
      && w' == w && users' == users && objs' == objs && Quiet(pools, remap, m, m', users, objs, Nowhere)
      && !Snug(pools, objs, w, size)
    else
      && Points(pools, objs', users', w', q) && Snug(pools, objs', w', size) && (w' == w || Vacant(objs, users, w'))
      && (Snug(pools, objs, w, size) ==> q == p && w' == w && objs' == objs)
      && users' == UsersMore(UsersLess(users, w), w') && ObjsLess(objs', w') == ObjsLess(objs, w)
      && Carried(remap, m, m', p, q, Min(Room(pools, objs, w), size))
      && Quiet(pools, remap, m, m', users, objs, w)
  }

  lemma StaysPut(pools: seq<SlabPool.Pool>, remap: map<nat, nat>, m: Mem, users: seq<set<Slot>>, objs: map<nat, Obj>,
                 i: nat, x: Slot, p: nat, size: nat)
    requires Points(pools, objs, users, Small(i, x), p) && |users| == |pools| && p != 0
    requires size <= SMALL_MAX && SnugSize(pools[i].c.size, size)
    ensures Outcome(pools, remap, m, m, users, users, objs, objs, Small(i, x), Small(i, x), p, p, size)
  {
    assert UsersMore(UsersLess(users, Small(i, x)), Small(i, x)) == users by {
      assert users[i] - {x} + {x} == users[i];
    }
  }

  lemma MovesSlot(pools: seq<SlabPool.Pool>, remap: map<nat, nat>, m: Mem, m': Mem, users: seq<set<Slot>>,
                  objs: map<nat, Obj>, i: nat, x: Slot, j: nat, y: Slot, p: nat, q: nat, size: nat)
    requires i < |pools| && j < |pools| && i != j && |users| == |pools| && x in users[i] && p == Addr(pools[i].c, x)
    requires q == Addr(pools[j].c, y) && q != 0 && y !in users[j]
    requires size <= SMALL_MAX && SnugSize(pools[j].c.size, size) && !SnugSize(pools[i].c.size, size)
    requires Carried(remap, m, m', p, q, Min(pools[i].c.size, size))
    requires Quiet(pools, remap, m, m', users, objs, Small(i, x))
    ensures Outcome(pools, remap, m, m', users, UsersLess(UsersMore(users, Small(j, y)), Small(i, x)), objs, objs,
                    Small(i, x), Small(j, y), p, q, size)
  {
    var w, w' := Small(i, x), Small(j, y);
    assert UsersMore(UsersLess(users, w), w') == UsersLess(UsersMore(users, w'), w);
  }

  lemma MovesOut(pools: seq<SlabPool.Pool>, remap: map<nat, nat>, m: Mem, m': Mem, users: seq<set<Slot>>,
                 objs: map<nat, Obj>, objs': map<nat, Obj>, i: nat, x: Slot, b: nat, o: Obj, p: nat, q: nat, size: nat)
    requires i < |pools| && |users| == |pools| && x in users[i] && p == Addr(pools[i].c, x)
    requires NewLarge(objs, objs', b, o, q, size) && q != 0 && pools[i].c.size <= size && size > SMALL_MAX
    requires Carried(remap, m, m', p, q, pools[i].c.size) && Quiet(pools, remap, m, m', users, objs, Small(i, x))
    ensures Outcome(pools, remap, m, m', users, UsersLess(users, Small(i, x)), objs, objs', Small(i, x), Big(b), p, q,
                    size)
  {
    assert objs' - {b} == objs;
  }

  lemma MovesIn(pools: seq<SlabPool.Pool>, remap: map<nat, nat>, m: Mem, m': Mem, users: seq<set<Slot>>,
                objs: map<nat, Obj>, b: nat, j: nat, y: Slot, p: nat, q: nat, size: nat)
    requires j < |pools| && |users| == |pools| && q == Addr(pools[j].c, y) && q != 0 && y !in users[j]
    requires size <= SMALL_MAX && SnugSize(pools[j].c.size, size)
    requires Carried(remap, m, m', p, q, Min(Usable(objs, b), size))
    requires Quiet(pools, remap, m, m', users, objs, Big(b))
    ensures Outcome(pools, remap, m, m', users, UsersMore(users, Small(j, y)), objs, objs - {b}, Big(b), Small(j, y),
                    p, q, size)
  {}

  lemma MovesLarge(pools: seq<SlabPool.Pool>, remap: map<nat, nat>, m: Mem, m': Mem, users: seq<set<Slot>>,
                   objs: map<nat, Obj>, b: nat, b': nat, o: Obj, p: nat, q: nat, size: nat)
    requires b in objs && b' !in objs - {b} && o.large && q == b' + o.userOff && q != 0
    requires size > SMALL_MAX && LeastPages(o.len, o.userOff + size)
    requires LeastPages(objs[b].len, objs[b].userOff + size) ==> q == p && b' == b && (objs - {b})[b' := o] == objs
    requires Carried(remap, m, m', p, q, Min(Usable(objs, b), size)) && Quiet(pools, remap, m, m', users, objs, Big(b))
    ensures Outcome(pools, remap, m, m', users, users, objs, (objs - {b})[b' := o], Big(b), Big(b'), p, q, size)
  {
    assert (objs - {b})[b' := o] - {b'} == objs - {b};
  }

  lemma SlotAddress(space: SlabPool.Space, pools: seq<SlabPool.Pool>, addr: AddressSpace, caps: seq<nat>,
                    bins: seq<Bin>, h: Hands, i: nat, x: Slot)
    requires Ready(space, pools, addr, caps, bins, h) && i < |pools| && x in h.users[i]
    ensures Addr(pools[i].c, x) != 0
  {
    assert InHand(0, bins, h);
    UsersOut(pools, caps, space.mem, bins, h);
    SmallResolves(space, pools, addr, h.outs, h.hids, i, x);
  }

  // realloc of a slot of class sc fails exactly then.
  ghost predicate SlotRefused(pools: seq<SlabPool.Pool>, sc: nat, slots: seq<seq<Slot>>, j: nat, size: nat,
                              got: Option<nat>, raw: Option<nat>)
    reads pools
  {
    sc < NUM_CLASSES && !SnugSize(SizeOf(sc), size) && NoMemory(pools, slots, j, size, got, raw)
  }

  // realloc of a large object fails exactly then.
  ghost predicate BigRefused(pools: seq<SlabPool.Pool>, o: Obj, slots: seq<seq<Slot>>, j: nat, size: nat,
                             got: Option<nat>, raw: Option<nat>, nb: Option<nat>)
    reads pools
  {
    if size <= SMALL_MAX then NoMemory(pools, slots, j, size, got, raw) else !InPages(o, size) && nb.None?
  }

  // to a slot of another class
  method SlotToSlot(space: SlabPool.Space, pools: seq<SlabPool.Pool>, addr: AddressSpace, caps: seq<nat>,
                    bins: seq<Bin>, p: nat, size: nat, i: nat, j: nat, got: Option<nat>, inc: Incoming, ghost w: Where,
                    ghost h: Hands)
    returns (q: nat, bins': seq<Bin>, ghost w': Where, ghost h': Hands)
    requires Ready(space, pools, addr, caps, bins, h) && i < |pools| && j < |pools| && i != j
    requires Points(pools, addr.objs, h.users, w, p) && w.Small? && w.i == i && size <= SMALL_MAX
    requires SnugSize(pools[j].c.size, size) && !SnugSize(pools[i].c.size, size)
    requires Offered(space, pools, addr, j, got, inc)
    modifies space`mem, pools[i], pools[j]
    ensures Ready(space, pools, addr, caps, bins', h') && space.remap == old(space.remap)
    ensures q == 0 <==> h.slots[j] == [] && RefillFails(pools[j].c, old(pools[j].view), got)
    ensures Outcome(pools, space.remap, old(space.mem), space.mem, h.users, h'.users, addr.objs, addr.objs, w, w', p, q,
                    size)
  {
    ghost var m0, y := space.mem, None;
    w' := w;
    q, bins', y, h' := MoveSmall(space, pools, addr, caps, bins, i, j, p, Min(pools[i].c.size, size), got, inc, w.x, h);
    if q != 0 {
      w' := Small(j, y.value);
      MovesSlot(pools, space.remap, m0, space.mem, h.users, addr.objs, i, w.x, j, y.value, p, q, size);
    }
  }

  // to a large object
  method SlotToLarge(space: SlabPool.Space, pools: seq<SlabPool.Pool>, addr: AddressSpace, caps: seq<nat>,
                     bins: seq<Bin>, p: nat, size: nat, i: nat, raw: Option<nat>, leaf: bool, ghost w: Where,
                     ghost h: Hands)
    returns (q: nat, bins': seq<Bin>, ghost w': Where, ghost h': Hands)
    requires Ready(space, pools, addr, caps, bins, h) && i < |pools|
    requires Points(pools, addr.objs, h.users, w, p) && w.Small? && w.i == i && size > SMALL_MAX
    requires pools[i].c.size <= size
    requires CanMap(addr.objs, size, 4, raw)
    modifies space`mem, pools[i], addr, addr.radix, addr.radix.l1
    ensures Ready(space, pools, addr, caps, bins', h') && space.remap == old(space.remap) && (q == 0 <==> raw.None?)
    ensures Outcome(pools, space.remap, old(space.mem), space.mem, h.users, h'.users, old(addr.objs), addr.objs, w, w',
                    p, q, size)
  {
    ghost var m0, objs := space.mem, addr.objs;
    ghost var b, o;
    w' := w;
    q, bins', b, o, h' := Enlarge(space, pools, addr, caps, bins, i, p, size, raw, leaf, w.x, h);
    if q != 0 {
      w' := Big(b);
      MovesOut(pools, space.remap, m0, space.mem, h.users, objs, addr.objs, i, w.x, b, o, p, q, size);
    }
  }

  // of another class, or to a large object
  method SlotMoves(space: SlabPool.Space, pools: seq<SlabPool.Pool>, addr: AddressSpace, scs: seq<nat>, caps: seq<nat>,
                   bins: seq<Bin>, p: nat, size: nat, i: nat, j: nat, got: Option<nat>, inc: Incoming,
                   raw: Option<nat>, leaf: bool, ghost w: Where, ghost h: Hands)
    returns (q: nat, bins': seq<Bin>, ghost w': Where, ghost h': Hands)
    requires Ready(space, pools, addr, caps, bins, h) && Classes(pools, scs, caps) && i < |pools|
    requires Points(pools, addr.objs, h.users, w, p) && w.Small? && w.i == i && 0 < size
    requires SizeToSc(size) != Some(scs[i]) && CanServe(space, pools, addr, j, size, got, inc, raw)
    modifies space`mem, pools, addr, addr.radix, addr.radix.l1
    ensures Ready(space, pools, addr, caps, bins', h') && space.remap == old(space.remap)
    ensures q == 0 <==> old(NoMemory(pools, h.slots, j, size, got, raw))
    ensures Outcome(pools, space.remap, old(space.mem), space.mem, h.users, h'.users, old(addr.objs), addr.objs,
                    w, w', p, q, size)
  {
    SizeToScFits(size);
    assert Asked(0, size);
    assert scs[i] < NUM_CLASSES && pools[i].c == ClassOf(scs[i]);
    if size <= SMALL_MAX {
      ClassesDiffer(scs[i], SizeToSc(size).value);
      SameClassIff(SizeToSc(size).value, size);
      SameClassIff(scs[i], size);
      q, bins', w', h' := SlotToSlot(space, pools, addr, caps, bins, p, size, i, j, got, inc, w, h);
    } else {
      q, bins', w', h' := SlotToLarge(space, pools, addr, caps, bins, p, size, i, raw, leaf, w, h);
    }
  }

  // realloc of a slot
  method ReallocSlot(space: SlabPool.Space, pools: seq<SlabPool.Pool>, addr: AddressSpace, scs: seq<nat>,
                     caps: seq<nat>, bins: seq<Bin>, p: nat, size: nat, i: nat, j: nat, got: Option<nat>, inc: Incoming,
                     raw: Option<nat>, leaf: bool, ghost w: Where, ghost h: Hands)
    returns (q: nat, bins': seq<Bin>, ghost w': Where, ghost h': Hands)
    requires Ready(space, pools, addr, caps, bins, h) && Classes(pools, scs, caps) && i < |pools|
    requires Points(pools, addr.objs, h.users, w, p) && w.Small? && w.i == i && 0 < size
    requires CanServe(space, pools, addr, j, size, got, inc, raw)
    modifies space`mem, pools, addr, addr.radix, addr.radix.l1
    ensures Ready(space, pools, addr, caps, bins', h') && space.remap == old(space.remap)
    ensures q == 0 <==> old(SlotRefused(pools, scs[i], h.slots, j, size, got, raw))
    ensures Outcome(pools, space.remap, old(space.mem), space.mem, h.users, h'.users, old(addr.objs), addr.objs,
                    w, w', p, q, size)
  {
    assert scs[i] < NUM_CLASSES && pools[i].c == ClassOf(scs[i]);
    SameClassIff(scs[i], size);
    if SizeToSc(size) == Some(scs[i]) {
      assert pools[i].c == ClassOf(scs[i]);
      SizeToScFits(size);
      SlotAddress(space, pools, addr, caps, bins, h, i, w.x);
      StaysPut(pools, space.remap, space.mem, h.users, addr.objs, i, w.x, p, size);
      return p, bins, w, h;
    }
    q, bins', w', h' := SlotMoves(space, pools, addr, scs, caps, bins, p, size, i, j, got, inc, raw, leaf, w, h);
  }

  // Where mremap may put the object at w.
  ghost predicate CanResize(m: Mem, objs: map<nat, Obj>, b: nat, size: nat, nb: Option<nat>, after: Mem) {
    b in objs && size > SMALL_MAX ==>
      && objs[b].userOff + size + PAGE - 1 < WORD
      && (!InPages(objs[b], size) && nb.Some? ==>
          CanMove(m, objs, b, nb.value, Resized(objs[b], size).len, after))
  }

  // realloc of a large object
  method ReallocBig(space: SlabPool.Space, pools: seq<SlabPool.Pool>, addr: AddressSpace, caps: seq<nat>,
                    bins: seq<Bin>, p: nat, size: nat, b: nat, j: nat, got: Option<nat>, inc: Incoming,
                    raw: Option<nat>, nb: Option<nat>, after: Mem, maps: bool, leaf: bool, ghost w: Where,
                    ghost h: Hands)
    returns (q: nat, bins': seq<Bin>, ghost w': Where, ghost h': Hands)
    requires Ready(space, pools, addr, caps, bins, h) && Points(pools, addr.objs, h.users, w, p) && w == Big(b)
    requires 0 < size
    requires size <= SMALL_MAX ==> CanServe(space, pools, addr, j, size, got, inc, raw)
    requires CanResize(space.mem, addr.objs, b, size, nb, after)
    modifies space`mem, pools, addr, addr.radix, addr.radix.l1
    ensures Ready(space, pools, addr, caps, bins', h') && space.remap == old(space.remap)
    ensures q == 0 <==> old(BigRefused(pools, addr.objs[w.b], h.slots, j, size, got, raw, nb))
    ensures Outcome(pools, space.remap, old(space.mem), space.mem, h.users, h'.users, old(addr.objs), addr.objs, w, w',
                    p, q, size)
  {
    ghost var m0, objs, us := space.mem, addr.objs, h.users;
    SizeToScFits(size);
    assert Asked(0, size);
    bins', w', h' := bins, w, h;
    if size <= SMALL_MAX {
      ghost var y;
      SameClassIff(SizeToSc(size).value, size);
      q, bins', y, h' := Shrink(space, pools, addr, caps, bins, b, j, p, size, got, inc, maps, h);
      if q != 0 {
        w' := Small(j, y.value);
        MovesIn(pools, space.remap, m0, space.mem, us, objs, b, j, y.value, p, q, size);
      }
    } else {
      ghost var b', o;
      q, b', o := ResizeLarge(space, pools, addr, caps, bins, b, p, size, nb, after, maps, leaf, h);
      if q != 0 {
        w' := Big(b');
        MovesLarge(pools, space.remap, m0, space.mem, us, objs, b, b', o, p, q, size);
      }
    }
  }

  // a pointer and a size that are not 0
  method ReallocFound(space: SlabPool.Space, pools: seq<SlabPool.Pool>, addr: AddressSpace, scs: seq<nat>,
                      caps: seq<nat>, bins: seq<Bin>, p: nat, size: nat, i: nat, j: nat, got: Option<nat>,
                      inc: Incoming, raw: Option<nat>, nb: Option<nat>, after: Mem, maps: bool, leaf: bool,
                      ghost w: Where, ghost h: Hands)
    returns (q: nat, bins': seq<Bin>, ghost w': Where, ghost h': Hands)
    requires Ready(space, pools, addr, caps, bins, h) && Classes(pools, scs, caps) && 0 < p && 0 < size
    requires Points(pools, addr.objs, h.users, w, p) && (w.Small? ==> w.i == i)
    requires (w.Big? && size > SMALL_MAX) || CanServe(space, pools, addr, j, size, got, inc, raw)
    requires w.Big? ==> CanResize(space.mem, addr.objs, w.b, size, nb, after)
    modifies space`mem, pools, addr, addr.radix, addr.radix.l1
    ensures Ready(space, pools, addr, caps, bins', h') && space.remap == old(space.remap)
    ensures old(Found(addr.dark, w, p)).Nowhere? ==>
              && q == 0 && h' == h && addr.objs == old(addr.objs)
              && Quiet(pools, space.remap, old(space.mem), space.mem, h.users, old(addr.objs), Nowhere)
    ensures !old(Found(addr.dark, w, p)).Nowhere? ==>
              && (w.Small? ==> (q == 0 <==> old(SlotRefused(pools, scs[i], h.slots, j, size, got, raw))))
              && (w.Big? ==> (q == 0 <==> old(BigRefused(pools, addr.objs[w.b], h.slots, j, size, got, raw, nb))))
              && Outcome(pools, space.remap, old(space.mem), space.mem, h.users, h'.users, old(addr.objs), addr.objs,
                         w, w', p, q, size)
  {
    bins', w', h' := bins, w, h;
    var owner, large, base := Resolve(space, pools, addr, caps, bins, p, w, h);
    if owner == 0 {
      return 0, bins', w', h';
    }
    if large {
      q, bins', w', h' := ReallocBig(space, pools, addr, caps, bins, p, size, base, j, got, inc, raw, nb, after, maps,
                                     leaf, w, h);
    } else {
      q, bins', w', h' := ReallocSlot(space, pools, addr, scs, caps, bins, p, size, i, j, got, inc, raw, leaf, w, h);
    }
  }

  /** btm_realloc_at, on every path. A null pointer is malloc and size 0 is free; a pointer
      that leads nowhere gives NULL. Otherwise the object ends up, at w', with room for
      `size` bytes and its first min(old, new) bytes, or NULL is returned and it is
      untouched; nothing else in use, small or large, changes. */
  method Reallocate(space: SlabPool.Space, pools: seq<SlabPool.Pool>, addr: AddressSpace, scs: seq<nat>, caps: seq<nat>,
                    bins: seq<Bin>, p: nat, size: nat, i: nat, j: nat, got: Option<nat>, inc: Incoming,
                    raw: Option<nat>, nb: Option<nat>, after: Mem, maps: bool, leaf: bool, ghost w: Where,
                    ghost h: Hands)
    returns (q: nat, bins': seq<Bin>, ghost w': Where, ghost h': Hands)
    requires Ready(space, pools, addr, caps, bins, h) && Classes(pools, scs, caps)
    requires p != 0 ==> Points(pools, addr.objs, h.users, w, p) && (w.Small? ==> w.i == i)
    requires (p != 0 && w.Big? && size > SMALL_MAX) || CanServe(space, pools, addr, j, size, got, inc, raw)
    requires w.Big? ==> CanResize(space.mem, addr.objs, w.b, size, nb, after)
    modifies space`mem, pools, addr, addr.radix, addr.radix.l1
    ensures Ready(space, pools, addr, caps, bins', h') && space.remap == old(space.remap)
    ensures p == 0 ==> (q == 0 <==> size == 0 || old(NoMemory(pools, h.slots, j, size, got, raw)))
    ensures p == 0 ==>
              && Placed(pools, old(addr.objs), addr.objs, h.users, h'.users, w', q, size)
              && Quiet(pools, space.remap, old(space.mem), space.mem, h.users, old(addr.objs), Nowhere)
    ensures p != 0 && (size == 0 || old(Found(addr.dark, w, p)).Nowhere?) ==>
              && var f := if size == 0 then old(Found(addr.dark, w, p)) else Nowhere;
              && q == 0 && h'.users == UsersLess(h.users, f) && addr.objs == ObjsLess(old(addr.objs), f)
              && Quiet(pools, space.remap, old(space.mem), space.mem, h.users, old(addr.objs), f)
    ensures p != 0 && size != 0 && !old(Found(addr.dark, w, p)).Nowhere? ==>
              && (w.Small? ==> (q == 0 <==> old(SlotRefused(pools, scs[i], h.slots, j, size, got, raw))))
              && (w.Big? ==> (q == 0 <==> old(BigRefused(pools, addr.objs[w.b], h.slots, j, size, got, raw, nb))))
              && Outcome(pools, space.remap, old(space.mem), space.mem, h.users, h'.users, old(addr.objs), addr.objs,
                         w, w', p, q, size)
  {
    bins', w', h' := bins, w, h;
    if p == 0 {
      q, bins', w', h' := Malloc(space, pools, addr, caps, bins, j, size, got, inc, raw, leaf, h);
      return;
    }
    if size == 0 {
      bins', h' := Free(space, pools, addr, caps, bins, p, i, maps, w, h);
      return 0, bins', w', h';
    }
    q, bins', w', h' := ReallocFound(space, pools, addr, scs, caps, bins, p, size, i, j, got, inc, raw, nb, after, maps,
                                     leaf, w, h);
  }
}
