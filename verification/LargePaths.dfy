/** Large objects beside the pools: their headers and bytes lie in regions no pool
    uses and are never remapped, so neither disturbs the other. */
module LargePaths {
  import opened Bits
  import opened Seqs
  import opened Memory
  import opened Geometry
  import opened Registry
  import opened Large
  import opened Placement
  import opened PoolSteps
  import opened Arena
  import opened SlotCopies
  import SlabPool

  const LARGE_MAGIC: nat := 0xB7A1_10CC_1A56_A110
  const CHUNK_OBJ: Obj := Obj(CHUNK, 0, false)

  // The header words that free and realloc read: the mapped length and the offset of the user's bytes.
  ghost predicate Headed(m: Mem, b: nat, o: Obj) {
    LoadLE(m, b + 8, 8) == o.len && LoadLE(m, b + 16, 8) == o.userOff
  }

  // The user's bytes follow the header, and the mapping is made of whole pages.
  predicate Sized(o: Obj) {
    HEADER <= o.userOff < o.len && o.len % PAGE == 0
  }

  ghost predicate LargeOk(m: Mem, b: nat, o: Obj) {
    Sized(o) && Headed(m, b, o)
  }

  // Objects are chunks, or large ones with their headers in place.
  ghost predicate Kinds(m: Mem, objs: map<nat, Obj>) {
    forall b :: b in objs ==> if objs[b].large then LargeOk(m, b, objs[b]) else objs[b] == CHUNK_OBJ
  }

  ghost function Chunks(objs: map<nat, Obj>): set<nat> {
    set b | b in objs && !objs[b].large
  }

  // The pools, the large objects and the owner table over one memory.
  ghost predicate HeapOk(space: SlabPool.Space, pools: seq<SlabPool.Pool>, addr: AddressSpace, outs: seq<set<Slot>>,
                         hids: seq<set<Slot>>)
    reads space, pools, addr, addr.radix, addr.radix.l1
  {
    && ArenaOk(space, pools, outs, hids) && addr.Valid()
    && Within(pools, Chunks(addr.objs)) && Kinds(space.mem, addr.objs)
  }

  // The large objects other than those in `except` are there, byte for byte.
  ghost predicate LargeSame(m: Mem, m': Mem, objs: map<nat, Obj>, except: set<nat>) {
    forall b :: b in objs && objs[b].large && b !in except ==> SameOn(m, m', b, objs[b].len)
  }

  // ---- pools and large objects keep apart ----

  lemma LargeOutside(m: Mem, objs: map<nat, Obj>, b: nat, a: nat)
    requires Laid(objs) && Kinds(m, objs) && b in objs && objs[b].large && b <= a < b + objs[b].len
    ensures Outside(Chunks(objs), a)
  {
    forall k | k in Chunks(objs) ensures !InChunk(k, a) {
      assert Disjoint(b, objs[b].len, k, objs[k].len);
    }
  }

  /** Whatever happens inside chunks, no byte of a large object changes. */
  lemma LargeUntouched(m: Mem, m': Mem, objs: map<nat, Obj>)
    requires Laid(objs) && Kinds(m, objs) && BytesOut(m, m', Chunks(objs))
    ensures LargeSame(m, m', objs, {}) && Kinds(m', objs)
  {
    forall b | b in objs && objs[b].large ensures SameOn(m, m', b, objs[b].len) {
      forall a | b <= a < b + objs[b].len ensures Load(m, a) == Load(m', a) { LargeOutside(m, objs, b, a); }
    }
    KindsKept(m, m', objs, {});
    assert objs - {} == objs;
  }

  lemma KindsKept(m: Mem, m': Mem, objs: map<nat, Obj>, except: set<nat>)
    requires Kinds(m, objs) && LargeSame(m, m', objs, except)
    ensures Kinds(m', objs - except)
  {
    forall b | b in objs - except && objs[b].large ensures LargeOk(m', b, objs[b]) {
      assert LargeOk(m, b, objs[b]);
      HeaderSame(m, m', b, objs[b]);
    }
  }

  lemma HeaderSame(m: Mem, m': Mem, b: nat, o: Obj)
    requires SameOn(m, m', b, o.len) && LargeOk(m, b, o)
    ensures LargeOk(m', b, o)
  {
    LoadSame(m, m', b + 8, 8);
    LoadSame(m, m', b + 16, 8);
  }

  // The 2 MiB frames that [b, b + len) touches.
  ghost function Cover(b: nat, len: nat): set<nat> {
    set k | b <= k < b + len && k % CHUNK == 0
  }

  // Only bytes of [b, b + len) change.
  ghost predicate OnlyIn(m: Mem, m': Mem, b: nat, len: nat) {
    forall a: nat {:trigger Load(m', a)} :: !(b <= a < b + len) ==> Load(m', a) == Load(m, a)
  }

  lemma FrameOf(b: nat, len: nat, a: nat)
    requires b % CHUNK == 0 && b <= a < b + len
    ensures a - a % CHUNK in Cover(b, len) && InChunk(a - a % CHUNK, a)
  {}

  lemma OnlyInOut(m: Mem, m': Mem, b: nat, len: nat)
    requires b % CHUNK == 0 && OnlyIn(m, m', b, len)
    ensures BytesOut(m, m', Cover(b, len))
  {
    forall a: nat | Outside(Cover(b, len), a) ensures Load(m', a) == Load(m, a) {
      if b <= a < b + len { FrameOf(b, len, a); }
    }
  }

  // No chunk reaches into [b, b + len).
  ghost predicate OffChunks(objs: map<nat, Obj>, b: nat, len: nat) {
    forall k :: k in Chunks(objs) ==> Disjoint(b, len, k, CHUNK)
  }

  lemma CoverFree(pools: seq<SlabPool.Pool>, objs: map<nat, Obj>, b: nat, len: nat)
    requires Within(pools, Chunks(objs)) && OffChunks(objs, b, len)
    ensures NoPools(pools, Cover(b, len))
  {
    forall j | 0 <= j < |pools| ensures Cover(b, len) !! pools[j].view.live.Keys {
      forall k | k in pools[j].view.live.Keys ensures k !in Cover(b, len) {
        assert k in Chunks(objs);
      }
    }
  }

  /** No address of a large object is remapped: it is read where it is. */
  lemma LargeDirect(space: SlabPool.Space, pools: seq<SlabPool.Pool>, addr: AddressSpace, outs: seq<set<Slot>>,
                    hids: seq<set<Slot>>, b: nat, a: nat)
    requires HeapOk(space, pools, addr, outs, hids) && b in addr.objs && addr.objs[b].large
    requires b <= a < b + addr.objs[b].len
    ensures Tr(space.remap, a) == a
  {
    var k := a - a % CHUNK;
    FrameOf(b, addr.objs[b].len, a);
    LargeOutside(space.mem, addr.objs, b, a);
    assert k !in Chunks(addr.objs);
    UnclaimedUnmapped(space, pools, outs, hids, k);
  }

  // ---- writing a large object ----

  // a write, a mapping or an unmapping where no chunk is
  method SetRange(space: SlabPool.Space, pools: seq<SlabPool.Pool>, m: Mem, ghost objs: map<nat, Obj>, ghost b: nat,
                  ghost len: nat, ghost outs: seq<set<Slot>>, ghost hids: seq<set<Slot>>)
    requires ArenaOk(space, pools, outs, hids) && Within(pools, Chunks(objs)) && OffChunks(objs, b, len)
    requires b % CHUNK == 0 && OnlyIn(space.mem, m, b, len)
    modifies space`mem
    ensures ArenaOk(space, pools, outs, hids) && space.mem == m
    ensures AllRead(pools, space.remap, old(space.mem), space.remap, space.mem, outs)
  {
    OnlyInOut(space.mem, m, b, len);
    CoverFree(pools, objs, b, len);
    LoseChunks(space, pools, m, Cover(b, len), outs, hids);
  }

  // A fresh mapping reads as zero, and nothing is left of one that is gone.
  function Wiped(m: Mem, b: nat, len: nat): Mem {
    map a | a in m && !(b <= a < b + len) :: m[a]
  }

  // the four header stores
  function WithHeader(m: Mem, b: nat, total: nat, off: nat, size: nat): Mem {
    StoreLE(StoreLE(StoreLE(StoreLE(m, b, 8, LARGE_MAGIC), b + 8, 8, total), b + 16, 8, off), b + 24, 8, size)
  }

  lemma HeaderBytes(m: Mem, b: nat, total: nat, off: nat, size: nat, a: nat)
    requires !(b <= a < b + HEADER)
    ensures Load(WithHeader(m, b, total, off, size), a) == Load(m, a)
  {
    var m1 := StoreLE(m, b, 8, LARGE_MAGIC);
    var m2 := StoreLE(m1, b + 8, 8, total);
    StoreFrame(m, b, 8, LARGE_MAGIC, a);
    StoreFrame(m1, b + 8, 8, total, a);
    StoreFrame(m2, b + 16, 8, off, a);
    StoreFrame(StoreLE(m2, b + 16, 8, off), b + 24, 8, size, a);
  }

  // A later store elsewhere does not change a word.
  lemma WordKept(m: Mem, a: nat, at: nat, w: nat)
    requires at + 8 <= a || a + 8 <= at
    ensures LoadLE(StoreLE(m, at, 8, w), a, 8) == LoadLE(m, a, 8)
  {
    forall i | a <= i < a + 8 ensures Load(m, i) == Load(StoreLE(m, at, 8, w), i) { StoreFrame(m, at, 8, w, i); }
    LoadSame(m, StoreLE(m, at, 8, w), a, 8);
  }

  lemma HeaderReads(m: Mem, b: nat, total: nat, off: nat, size: nat, o: Obj)
    requires o.len == total < WORD && o.userOff == off < WORD
    ensures Headed(WithHeader(m, b, total, off, size), b, o)
  {
    var m1 := StoreLE(m, b, 8, LARGE_MAGIC);
    var m2 := StoreLE(m1, b + 8, 8, total);
    var m3 := StoreLE(m2, b + 16, 8, off);
    WordIsPow2();
    LoadAfterStore(m1, b + 8, 8, total);
    LoadAfterStore(m2, b + 16, 8, off);
    WordKept(m2, b + 8, b + 16, off);
    WordKept(m3, b + 8, b + 24, size);
    WordKept(m3, b + 16, b + 24, size);
  }

  // ---- btm_large_alloc ----

  lemma ClearOff(m: Mem, objs: map<nat, Obj>, b: nat, len: nat)
    requires Kinds(m, objs) && Clear(objs, b, len)
    ensures OffChunks(objs, b, len)
  {}

  lemma OwnOff(m: Mem, objs: map<nat, Obj>, b: nat)
    requires Laid(objs) && Kinds(m, objs) && b in objs && objs[b].large
    ensures OffChunks(objs, b, objs[b].len)
  {}

  lemma OnlyInSame(m: Mem, m': Mem, objs: map<nat, Obj>, b: nat, len: nat)
    requires OnlyIn(m, m', b, len) && forall c :: c in objs && c != b ==> Disjoint(b, len, c, objs[c].len)
    ensures LargeSame(m, m', objs, {b})
  {
    forall c | c in objs && objs[c].large && c != b ensures SameOn(m, m', c, objs[c].len) {
      forall a | c <= a < c + objs[c].len ensures Load(m, a) == Load(m', a) {}
    }
  }

  // What the new object's bytes are: its header, then zeros.
  lemma FreshBytes(m: Mem, b: nat, o: Obj, size: nat)
    requires Sized(o) && o.len < WORD
    ensures var m' := WithHeader(Wiped(m, b, o.len), b, o.len, o.userOff, size);
            && OnlyIn(m, m', b, o.len) && LargeOk(m', b, o)
            && forall a: nat {:trigger Load(m', a)} :: b + o.userOff <= a < b + o.len ==> Load(m', a) == 0
  {
    var w := Wiped(m, b, o.len);
    var m' := WithHeader(w, b, o.len, o.userOff, size);
    HeaderReads(w, b, o.len, o.userOff, size, o);
    forall a: nat | !(b <= a < b + HEADER) ensures Load(m', a) == Load(w, a) {
      HeaderBytes(w, b, o.len, o.userOff, size, a);
    }
  }

  lemma KindsAdded(m: Mem, m': Mem, objs: map<nat, Obj>, b: nat, o: Obj)
    requires Kinds(m, objs) && b !in objs && LargeSame(m, m', objs, {b}) && o.large && LargeOk(m', b, o)
    ensures Kinds(m', objs[b := o]) && Chunks(objs[b := o]) == Chunks(objs)
  {
    KindsKept(m, m', objs, {b});
    assert objs - {b} == objs;
  }

  // Mentioning Asked(u, size) opens what is known of a request; proofs that only pass it
  // on do without.
  ghost predicate Asked(u: nat, size: nat) { true }

  // The lengths of the request do not wrap, and the kernel puts the mapping where nothing is.
  ghost predicate CanMap(objs: map<nat, Obj>, size: nat, n: nat, raw: Option<nat>)
    requires n < WORD_BITS
  {
    forall u: nat {:trigger Asked(u, size)} :: Asked(u, size) ==>
      && NoWrap(size, n)
      && var want := MakePlan(size, n).want;
         raw.Some? ==> 0 < raw.value && raw.value + want <= USER_TOP && Clear(objs, raw.value, want)
  }

  // where the object goes
  method Locate(ghost objs: map<nat, Obj>, size: nat, n: nat, raw: nat) returns (b: nat, o: Obj)
    requires n < WORD_BITS && 0 < size && CanMap(objs, size, n, Some(raw))
    ensures ObjOk(b, o) && Clear(objs, b, o.len) && o.large && Sized(o)
    ensures (b + o.userOff) % Pow2(n) == 0 && LeastPlace(size, n, raw, b, o.len, o.userOff)
  {
    assert Asked(0, size) && Gauged(0, n);
    b, o := TrimLarge(objs, size, n, raw);
  }

  // the new mapping and its header
  method MapLarge(space: SlabPool.Space, pools: seq<SlabPool.Pool>, b: nat, o: Obj, size: nat,
                  ghost objs: map<nat, Obj>, ghost outs: seq<set<Slot>>, ghost hids: seq<set<Slot>>)
    requires ArenaOk(space, pools, outs, hids) && Within(pools, Chunks(objs)) && Kinds(space.mem, objs)
    requires b % CHUNK == 0 && b !in objs && Clear(objs, b, o.len) && o.large && Sized(o) && o.len < WORD
    modifies space`mem
    ensures ArenaOk(space, pools, outs, hids) && Within(pools, Chunks(objs[b := o])) && Kinds(space.mem, objs[b := o])
    ensures forall a: nat :: b + o.userOff <= a < b + o.len ==> Load(space.mem, a) == 0
    ensures LargeSame(old(space.mem), space.mem, objs, {})
    ensures AllRead(pools, space.remap, old(space.mem), space.remap, space.mem, outs)
  {
    ghost var m0 := space.mem;
    FreshBytes(m0, b, o, size);
    var m := WithHeader(Wiped(space.mem, b, o.len), b, o.len, o.userOff, size);
    OnlyInSame(m0, m, objs, b, o.len);
    KindsAdded(m0, m, objs, b, o);
    ClearOff(m0, objs, b, o.len);
    SetRange(space, pools, m, objs, b, o.len, outs, hids);
  }

  // registration, and the new mapping
  method AddLarge(space: SlabPool.Space, pools: seq<SlabPool.Pool>, addr: AddressSpace, b: nat, o: Obj, size: nat,
                  leaf: bool, ghost outs: seq<set<Slot>>, ghost hids: seq<set<Slot>>)
    requires HeapOk(space, pools, addr, outs, hids) && ObjOk(b, o) && Clear(addr.objs, b, o.len)
    requires o.large && Sized(o)
    modifies space`mem, addr, addr.radix, addr.radix.l1
    ensures HeapOk(space, pools, addr, outs, hids) && b !in old(addr.objs) && addr.objs == old(addr.objs)[b := o]
    ensures forall a: nat :: b + o.userOff <= a < b + o.len ==> Load(space.mem, a) == 0
    ensures LargeSame(old(space.mem), space.mem, old(addr.objs), {})
    ensures AllRead(pools, space.remap, old(space.mem), space.remap, space.mem, outs)
  {
    ghost var objs := addr.objs;
    AddLaid(objs, b, o);
    addr.Place(b, o, leaf);
    MapLarge(space, pools, b, o, size, objs, outs, hids);
  }

  // Object o at b is new: its user bytes start at p and hold the request.
  ghost predicate NewLarge(objs: map<nat, Obj>, objs': map<nat, Obj>, b: nat, o: Obj, p: nat, size: nat) {
    b !in objs && objs' == objs[b := o] && o.large && p == b + o.userOff && LeastPages(o.len, o.userOff + size)
  }

  /** btm_large_alloc with alignment 2^n: a new object whose user bytes read zero;
      nothing in use, small or large, changes. */
  method AllocLarge(space: SlabPool.Space, pools: seq<SlabPool.Pool>, addr: AddressSpace, size: nat, n: nat,
                    raw: Option<nat>, leaf: bool, ghost outs: seq<set<Slot>>, ghost hids: seq<set<Slot>>)
    returns (p: nat, b: nat, o: Obj)
    requires HeapOk(space, pools, addr, outs, hids) && n < WORD_BITS && 0 < size && CanMap(addr.objs, size, n, raw)
    modifies space`mem, addr, addr.radix, addr.radix.l1
    ensures HeapOk(space, pools, addr, outs, hids) && (p == 0 <==> raw.None?)
    ensures p == 0 ==> addr.objs == old(addr.objs) && addr.dark == old(addr.dark) && space.mem == old(space.mem)
    ensures p != 0 ==> NewLarge(old(addr.objs), addr.objs, b, o, p, size) && p % Pow2(n) == 0
    ensures p != 0 ==> LeastPlace(size, n, raw.value, b, o.len, o.userOff)
    ensures p != 0 ==> forall a: nat :: p <= a < b + o.len ==> Load(space.mem, a) == 0
    ensures LargeSame(old(space.mem), space.mem, old(addr.objs), {})
    ensures AllRead(pools, space.remap, old(space.mem), space.remap, space.mem, outs)
  {
    if raw.None? { return 0, 0, CHUNK_OBJ; }
    b, o := Locate(addr.objs, size, n, raw.value);
    assert Gauged(0, n);
    AddLarge(space, pools, addr, b, o, size, leaf, outs, hids);
    p := b + o.userOff;
  }

  // ---- btm_large_free ----

  lemma KindsDropped(m: Mem, m': Mem, objs: map<nat, Obj>, b: nat)
    requires Kinds(m, objs) && b in objs && objs[b].large && LargeSame(m, m', objs, {b})
    ensures Kinds(m', objs - {b}) && Chunks(objs - {b}) == Chunks(objs)
  {
    KindsKept(m, m', objs, {b});
  }

  /** btm_large_free: the object's length is read from its header; nothing else in
      use, small or large, changes. */
  method FreeLarge(space: SlabPool.Space, pools: seq<SlabPool.Pool>, addr: AddressSpace, b: nat, maps: bool,
                   ghost outs: seq<set<Slot>>, ghost hids: seq<set<Slot>>)
    requires HeapOk(space, pools, addr, outs, hids) && b in addr.objs && addr.objs[b].large
    modifies space`mem, addr, addr.radix, addr.radix.l1
    ensures HeapOk(space, pools, addr, outs, hids) && addr.objs == old(addr.objs) - {b}
    ensures LargeSame(old(space.mem), space.mem, old(addr.objs), {b})
    ensures AllRead(pools, space.remap, old(space.mem), space.remap, space.mem, outs)
  {
    ghost var m0, objs := space.mem, addr.objs;
    var total := LoadLE(space.mem, b + 8, 8);
    OwnOff(m0, objs, b);
    addr.Remove(b, maps, objs[b], total);
    var m := Wiped(space.mem, b, total);
    OnlyInSame(m0, m, objs, b, total);
    KindsDropped(m0, m, objs, b);
    SetRange(space, pools, m, objs, b, total, outs, hids);
  }

  // ---- copies to and from a large object ----

  lemma DirectBacks(space: SlabPool.Space, pools: seq<SlabPool.Pool>, addr: AddressSpace, outs: seq<set<Slot>>,
                    hids: seq<set<Slot>>, b: nat, q: nat, n: nat)
    requires HeapOk(space, pools, addr, outs, hids) && b in addr.objs && addr.objs[b].large
    requires b <= q && q + n <= b + addr.objs[b].len
    ensures Backs(space.remap, q, q, n)
  {
    forall a: nat | q <= a < q + n ensures Tr(space.remap, a) == a - q + q {
      LargeDirect(space, pools, addr, outs, hids, b, a);
    }
  }

  // The bytes that hold a slot in use are in a chunk.
  lemma StoredOff(space: SlabPool.Space, pools: seq<SlabPool.Pool>, addr: AddressSpace, outs: seq<set<Slot>>,
                  hids: seq<set<Slot>>, i: nat, x: Slot, b: nat)
    requires HeapOk(space, pools, addr, outs, hids) && i < |pools| && x in outs[i] && b in addr.objs
    requires addr.objs[b].large
    ensures Disjoint(b, addr.objs[b].len, Addr(pools[i].c, Backing(pools[i].alias, x)), pools[i].c.size)
  {
    var y := Backing(pools[i].alias, x);
    StoredHere(pools[i], outs[i], hids[i], x);
    SlotBounds(pools[i].c, y);
    OwnOff(space.mem, addr.objs, b);
    assert y.slab.chunk in pools[i].view.live.Keys && y.slab.chunk in Chunks(addr.objs);
  }

  // Only the user's bytes of b change.
  ghost predicate UserOnly(m: Mem, m': Mem, b: nat, o: Obj) {
    o.userOff <= o.len && OnlyIn(m, m', b + o.userOff, o.len - o.userOff)
  }

  lemma KindsWritten(m: Mem, m': Mem, objs: map<nat, Obj>, b: nat)
    requires Laid(objs) && Kinds(m, objs) && b in objs && objs[b].large && UserOnly(m, m', b, objs[b])
    ensures OnlyIn(m, m', b, objs[b].len) && LargeSame(m, m', objs, {b}) && Kinds(m', objs)
  {
    var o := objs[b];
    assert LargeOk(m, b, o);
    assert OnlyIn(m, m', b, o.len);
    OnlyInSame(m, m', objs, b, o.len);
    KindsKept(m, m', objs, {b});
    LoadSame(m, m', b + 8, 8);
    LoadSame(m, m', b + 16, 8);
    forall c | c in objs ensures if objs[c].large then LargeOk(m', c, objs[c]) else objs[c] == CHUNK_OBJ {
      if c != b { assert c in objs - {b}; }
    }
  }

  // a write to the user's bytes of a large object
  method WriteLarge(space: SlabPool.Space, pools: seq<SlabPool.Pool>, addr: AddressSpace, m: Mem, ghost b: nat,
                    ghost outs: seq<set<Slot>>, ghost hids: seq<set<Slot>>)
    requires HeapOk(space, pools, addr, outs, hids) && b in addr.objs && addr.objs[b].large
    requires UserOnly(space.mem, m, b, addr.objs[b])
    modifies space`mem
    ensures HeapOk(space, pools, addr, outs, hids) && space.mem == m
    ensures LargeSame(old(space.mem), space.mem, addr.objs, {b})
    ensures AllRead(pools, space.remap, old(space.mem), space.remap, space.mem, outs)
  {
    KindsWritten(space.mem, m, addr.objs, b);
    OwnOff(space.mem, addr.objs, b);
    SetRange(space, pools, m, addr.objs, b, addr.objs[b].len, outs, hids);
  }

  // memcpy from a slot in use to a large object
  method CopyToLarge(space: SlabPool.Space, pools: seq<SlabPool.Pool>, addr: AddressSpace, i: nat, p: nat, q: nat,
                     n: nat, ghost b: nat, ghost x: Slot, ghost outs: seq<set<Slot>>, ghost hids: seq<set<Slot>>)
    requires HeapOk(space, pools, addr, outs, hids) && b in addr.objs && addr.objs[b].large
    requires i < |pools| && x in outs[i] && p == Addr(pools[i].c, x) && n <= pools[i].c.size
    requires q == b + addr.objs[b].userOff && q + n <= b + addr.objs[b].len
    modifies space`mem
    ensures HeapOk(space, pools, addr, outs, hids) && Carried(space.remap, old(space.mem), space.mem, p, q, n)
    ensures LargeSame(old(space.mem), space.mem, addr.objs, {b})
    ensures AllRead(pools, space.remap, old(space.mem), space.remap, space.mem, outs)
  {
    ghost var at := Addr(pools[i].c, Backing(pools[i].alias, x));
    pools[i].UsedMapped(outs[i], hids[i], x);
    SlotBacks(pools[i].c, space.remap, pools[i].alias, x, n);
    DirectBacks(space, pools, addr, outs, hids, b, q, n);
    StoredOff(space, pools, addr, outs, hids, i, x, b);
    var m := CopyBytes(space.remap, space.mem, q, p, n, q, at);
    WriteLarge(space, pools, addr, m, b, outs, hids);
  }

  // memcpy from a large object to a slot in use
  method CopyFromLarge(space: SlabPool.Space, pools: seq<SlabPool.Pool>, addr: AddressSpace, j: nat, p: nat, q: nat,
                       n: nat, ghost b: nat, ghost y: Slot, ghost outs: seq<set<Slot>>, ghost hids: seq<set<Slot>>)
    requires HeapOk(space, pools, addr, outs, hids) && b in addr.objs && addr.objs[b].large
    requires j < |pools| && y in outs[j] && q == Addr(pools[j].c, y) && n <= pools[j].c.size
    requires b <= p && p + n <= b + addr.objs[b].len
    modifies space`mem
    ensures HeapOk(space, pools, addr, outs, hids) && Carried(space.remap, old(space.mem), space.mem, p, q, n)
    ensures LargeSame(old(space.mem), space.mem, addr.objs, {})
    ensures AllRead(pools, space.remap, old(space.mem), space.remap, space.mem, outs[j := outs[j] - {y}])
  {
    ghost var m0, d, z := space.mem, pools[j].c, Backing(pools[j].alias, y);
    pools[j].UsedMapped(outs[j], hids[j], y);
    SlotBacks(d, space.remap, pools[j].alias, y, n);
    DirectBacks(space, pools, addr, outs, hids, b, p, n);
    StoredOff(space, pools, addr, outs, hids, j, y, b);
    var m := CopyBytes(space.remap, space.mem, q, p, n, Addr(d, z), p);
    CopiedOnly(d, m0, m, z, p, n);
    WriteIn(space, pools, j, m, y, outs, hids);
    BytesOutTrans(m0, m0, m, {}, pools[j].view.live.Keys, Chunks(addr.objs));
    LargeUntouched(m0, m, addr.objs);
  }

  // What is carried to a large object stays there.
  lemma CarriedStays(remap: map<nat, nat>, m1: Mem, m2: Mem, m3: Mem, p: nat, q: nat, n: nat)
    requires Carried(remap, m1, m2, p, q, n) && Backs(remap, q, q, n) && SameOn(m2, m3, q, n)
    ensures Carried(remap, m1, m3, p, q, n)
  {
    forall a: nat | q <= a < q + n ensures Load(m3, Tr(remap, a)) == Load(m1, Tr(remap, a - q + p)) {
      assert Tr(remap, a) == a - q + q;
    }
  }

  // What a step leaves alone in a large object is carried in the next.
  lemma CarriedSince(remap: map<nat, nat>, m0: Mem, m1: Mem, m2: Mem, p: nat, q: nat, n: nat)
    requires Carried(remap, m1, m2, p, q, n) && Backs(remap, p, p, n) && SameOn(m0, m1, p, n)
    ensures Carried(remap, m0, m2, p, q, n)
  {
    forall a: nat | q <= a < q + n ensures Load(m2, Tr(remap, a)) == Load(m0, Tr(remap, a - q + p)) {
      assert Tr(remap, a - q + p) == a - q + p;
    }
  }

  // ---- btm_large_realloc ----

  // The mapped length that a request of `size` bytes needs in an object with this header.
  function NewTotal(off: nat, size: nat): nat {
    RoundUp((off + size) % WORD, PAGE_BITS)
  }

  /** Without wrap-around, the least number of whole pages that holds the request. */
  lemma NewTotalFits(off: nat, size: nat)
    requires off + size + PAGE - 1 < WORD
    ensures LeastPages(NewTotal(off, size), off + size) && NewTotal(off, size) < WORD
    ensures NewTotal(off, size) == Pages(off + size)
  {
    TotalExact(off + size);
    RoundUpValue(off + size, PAGE_BITS);
    PageIsPow2();
    ModUnique(off + size, WORD, 0, off + size);
    PagesLeast(off + size, NewTotal(off, size));
  }

  // n bytes, in whole pages
  function Pages(n: nat): nat {
    (n + PAGE - 1) / PAGE * PAGE
  }

  lemma PagesLeast(n: nat, len: nat)
    requires LeastPages(len, n)
    ensures len == Pages(n)
  {}

  // The pages object o has are those a request of `size` bytes needs.
  predicate InPages(o: Obj, size: nat) {
    o.len - PAGE < o.userOff + size <= o.len
  }

  /** The code sees no change of length exactly when the request needs the pages the
      object has. */
  lemma SameTotalIff(o: Obj, size: nat)
    requires o.len % PAGE == 0 && o.userOff + size + PAGE - 1 < WORD
    ensures NewTotal(o.userOff, size) == o.len <==> InPages(o, size)
  {
    NewTotalFits(o.userOff, size);
    if InPages(o, size) { PagesLeast(o.userOff + size, o.len); }
  }

  lemma SizeStored(m: Mem, b: nat, o: Obj, size: nat)
    requires LargeOk(m, b, o)
    ensures var m' := StoreLE(m, b + 24, 8, size);
            OnlyIn(m, m', b, HEADER) && LargeOk(m', b, o)
  {
    var m' := StoreLE(m, b + 24, 8, size);
    forall a: nat | !(b <= a < b + HEADER) ensures Load(m', a) == Load(m, a) { StoreFrame(m, b + 24, 8, size, a); }
    WordKept(m, b + 8, b + 24, size);
    WordKept(m, b + 16, b + 24, size);
  }

  lemma KindsReplaced(m: Mem, m': Mem, objs: map<nat, Obj>, b: nat)
    requires Kinds(m, objs) && b in objs && objs[b].large && LargeSame(m, m', objs, {b}) && LargeOk(m', b, objs[b])
    ensures Kinds(m', objs)
  {
    KindsKept(m, m', objs, {b});
    forall c | c in objs ensures if objs[c].large then LargeOk(m', c, objs[c]) else objs[c] == CHUNK_OBJ {
      if c != b { assert c in objs - {b}; }
    }
  }

  // the mapping's length does not change: only the recorded size does
  method KeepLarge(space: SlabPool.Space, pools: seq<SlabPool.Pool>, addr: AddressSpace, b: nat, size: nat,
                   ghost outs: seq<set<Slot>>, ghost hids: seq<set<Slot>>)
    requires HeapOk(space, pools, addr, outs, hids) && b in addr.objs && addr.objs[b].large
    modifies space`mem
    ensures HeapOk(space, pools, addr, outs, hids)
    ensures OnlyIn(old(space.mem), space.mem, b, HEADER)
    ensures LargeSame(old(space.mem), space.mem, addr.objs, {b})
    ensures AllRead(pools, space.remap, old(space.mem), space.remap, space.mem, outs)
  {
    ghost var m0, objs := space.mem, addr.objs;
    assert LargeOk(m0, b, objs[b]);
    var m := StoreLE(space.mem, b + 24, 8, size);
    SizeStored(m0, b, objs[b], size);
    assert OnlyIn(m0, m, b, objs[b].len);
    OnlyInSame(m0, m, objs, b, objs[b].len);
    KindsReplaced(m0, m, objs, b);
    OwnOff(m0, objs, b);
    SetRange(space, pools, m, objs, b, objs[b].len, outs, hids);
  }

  // mremap has moved or resized the mapping [b, b + len) to [nb, nb + n).
  ghost predicate Remapped(m: Mem, m': Mem, b: nat, len: nat, nb: nat, n: nat) {
    forall a: nat {:trigger Load(m', a)} :: Load(m', a) ==
      if nb <= a < nb + n then (if a - nb < len then Load(m, a - nb + b) else 0)
      else if b <= a < b + len then 0 else Load(m, a)
  }

  // The moved object under its new header.
  lemma MovedBytes(m: Mem, m1: Mem, b: nat, len: nat, nb: nat, o: Obj, size: nat)
    requires Remapped(m, m1, b, len, nb, o.len) && Sized(o) && o.len < WORD
    ensures var m' := WithHeader(m1, nb, o.len, o.userOff, size);
            && LargeOk(m', nb, o)
            && (forall a: nat {:trigger Load(m', a)} :: nb + o.userOff <= a < nb + o.len && a - nb < len ==>
                Load(m', a) == Load(m, a - nb + b))
            && (forall a: nat {:trigger Load(m', a)} :: !(nb <= a < nb + o.len) && !(b <= a < b + len) ==>
                Load(m', a) == Load(m, a))
  {
    var m' := WithHeader(m1, nb, o.len, o.userOff, size);
    HeaderReads(m1, nb, o.len, o.userOff, size, o);
    forall a: nat | !(nb <= a < nb + HEADER) ensures Load(m', a) == Load(m1, a) {
      HeaderBytes(m1, nb, o.len, o.userOff, size, a);
    }
  }

  // Only bytes of the two ranges change.
  ghost predicate OnlyInBoth(m: Mem, m': Mem, b: nat, len: nat, nb: nat, n: nat) {
    forall a: nat {:trigger Load(m', a)} :: !(nb <= a < nb + n) && !(b <= a < b + len) ==> Load(m', a) == Load(m, a)
  }

  lemma OnlyInBothOut(m: Mem, m': Mem, b: nat, len: nat, nb: nat, n: nat)
    requires b % CHUNK == 0 && nb % CHUNK == 0 && OnlyInBoth(m, m', b, len, nb, n)
    ensures BytesOut(m, m', Cover(b, len) + Cover(nb, n))
  {
    var ks := Cover(b, len) + Cover(nb, n);
    forall a: nat | Outside(ks, a) ensures Load(m', a) == Load(m, a) {
      if b <= a < b + len { FrameOf(b, len, a); }
      if nb <= a < nb + n { FrameOf(nb, n, a); }
    }
  }

  lemma MovedSame(m: Mem, m': Mem, objs: map<nat, Obj>, b: nat, nb: nat, n: nat)
    requires Laid(objs) && b in objs && OnlyInBoth(m, m', b, objs[b].len, nb, n) && Clear(objs - {b}, nb, n)
    ensures LargeSame(m, m', objs, {b})
  {
    forall c | c in objs && objs[c].large && c != b ensures SameOn(m, m', c, objs[c].len) {
      assert c in objs - {b} && Disjoint(b, objs[b].len, c, objs[c].len);
      forall a | c <= a < c + objs[c].len ensures Load(m, a) == Load(m', a) {}
    }
  }

  lemma KindsMoved(m: Mem, m': Mem, objs: map<nat, Obj>, b: nat, nb: nat, o: Obj)
    requires Kinds(m, objs) && b in objs && objs[b].large && nb !in objs - {b}
    requires LargeSame(m, m', objs, {b}) && o.large && LargeOk(m', nb, o)
    ensures Kinds(m', (objs - {b})[nb := o]) && Chunks((objs - {b})[nb := o]) == Chunks(objs)
  {
    KindsKept(m, m', objs, {b});
  }

  // Where the kernel may move a mapping to, and what memory is then. Of an address that is
  // not a multiple of 2 MiB only Placement.MoveKeepsOwnersIff speaks.
  ghost predicate CanMove(m: Mem, objs: map<nat, Obj>, b: nat, nb: nat, n: nat, after: Mem) {
    && b in objs && 0 < nb && nb % CHUNK == 0 && nb + n <= USER_TOP && Clear(objs - {b}, nb, n)
    && Remapped(m, after, b, objs[b].len, nb, n)
  }

  // the moved mapping and its header
  method MoveBytes(space: SlabPool.Space, pools: seq<SlabPool.Pool>, b: nat, nb: nat, o: Obj, size: nat, after: Mem,
                   ghost objs: map<nat, Obj>, ghost outs: seq<set<Slot>>, ghost hids: seq<set<Slot>>)
    requires ArenaOk(space, pools, outs, hids) && Within(pools, Chunks(objs)) && Kinds(space.mem, objs) && Laid(objs)
    requires CanMove(space.mem, objs, b, nb, o.len, after) && objs[b].large && nb !in objs - {b}
    requires o.large && Sized(o) && o.len < WORD
    modifies space`mem
    ensures ArenaOk(space, pools, outs, hids) && Kinds(space.mem, (objs - {b})[nb := o])
    ensures Within(pools, Chunks((objs - {b})[nb := o]))
    ensures forall a: nat :: nb + o.userOff <= a < nb + o.len && a - nb < objs[b].len ==>
              Load(space.mem, a) == Load(old(space.mem), a - nb + b)
    ensures LargeSame(old(space.mem), space.mem, objs, {b})
    ensures AllRead(pools, space.remap, old(space.mem), space.remap, space.mem, outs)
  {
    ghost var m0, len := space.mem, objs[b].len;
    var m := WithHeader(after, nb, o.len, o.userOff, size);
    MovedBytes(m0, after, b, len, nb, o, size);
    MovedSame(m0, m, objs, b, nb, o.len);
    KindsMoved(m0, m, objs, b, nb, o);
    OnlyInBothOut(m0, m, b, len, nb, o.len);
    MovedFree(pools, m0, objs, b, nb, o.len);
    LoseChunks(space, pools, m, Cover(b, len) + Cover(nb, o.len), outs, hids);
  }

  lemma MovedFree(pools: seq<SlabPool.Pool>, m: Mem, objs: map<nat, Obj>, b: nat, nb: nat, n: nat)
    requires Within(pools, Chunks(objs)) && Kinds(m, objs) && Laid(objs) && b in objs && objs[b].large
    requires Clear(objs - {b}, nb, n)
    ensures NoPools(pools, Cover(b, objs[b].len) + Cover(nb, n))
  {
    OwnOff(m, objs, b);
    CoverFree(pools, objs, b, objs[b].len);
    forall k | k in Chunks(objs) ensures Disjoint(nb, n, k, CHUNK) { assert k in objs - {b}; }
    CoverFree(pools, objs, nb, n);
  }

  lemma MovedLaid(objs: map<nat, Obj>, b: nat, nb: nat, n: nat)
    requires Laid(objs) && b in objs && n > 0 && Clear(objs - {b}, nb, n)
    ensures nb !in objs - {b}
  {
    forall c | c in objs - {b} ensures c != nb { assert Disjoint(nb, n, c, objs[c].len) && ObjOk(c, objs[c]); }
  }

  // putting an object back where it was
  lemma SamePlace(objs: map<nat, Obj>, b: nat)
    requires Laid(objs) && b in objs
    ensures ObjOk(b, objs[b]) && Clear(objs - {b}, b, objs[b].len) && (objs - {b})[b := objs[b]] == objs
  {
    forall c | c in objs - {b} ensures Disjoint(b, objs[b].len, c, objs[c].len) {}
  }

  // The object, with the mapping a request of `size` bytes needs.
  function Resized(o: Obj, size: nat): Obj {
    Obj(Pages(o.userOff + size), o.userOff, o.large)
  }

  // Object b has become o at nb; of its user bytes those that still fit are carried.
  ghost predicate Moved(m: Mem, m': Mem, objs: map<nat, Obj>, objs': map<nat, Obj>, b: nat, nb: nat, o: Obj) {
    && b in objs && nb !in objs - {b} && objs' == (objs - {b})[nb := o] && o.large && o.userOff == objs[b].userOff
    && forall a: nat :: nb + o.userOff <= a < nb + o.len && a - nb < objs[b].len ==> Load(m', a) == Load(m, a - nb + b)
  }

  method MoveTo(space: SlabPool.Space, pools: seq<SlabPool.Pool>, addr: AddressSpace, b: nat, total: nat, nb: nat,
                o: Obj, size: nat, after: Mem, maps: bool, leaf: bool, ghost outs: seq<set<Slot>>,
                ghost hids: seq<set<Slot>>)
    requires HeapOk(space, pools, addr, outs, hids) && CanMove(space.mem, addr.objs, b, nb, o.len, after)
    requires addr.objs[b].large && total == addr.objs[b].len && o.userOff == addr.objs[b].userOff
    requires o.large && Sized(o) && o.len < WORD
    modifies space`mem, addr, addr.radix, addr.radix.l1
    ensures HeapOk(space, pools, addr, outs, hids)
    ensures Moved(old(space.mem), space.mem, old(addr.objs), addr.objs, b, nb, o)
    ensures LargeSame(old(space.mem), space.mem, old(addr.objs), {b})
    ensures AllRead(pools, space.remap, old(space.mem), space.remap, space.mem, outs)
  {
    ghost var objs := addr.objs;
    MovedLaid(objs, b, nb, o.len);
    addr.Replace(b, total, nb, o, maps, leaf);
    MoveBytes(space, pools, b, nb, o, size, after, objs, outs, hids);
  }

  // mremap failed: the object is registered again, where it was
  method Restore(space: SlabPool.Space, pools: seq<SlabPool.Pool>, addr: AddressSpace, b: nat, o: Obj, maps: bool,
                 leaf: bool, ghost outs: seq<set<Slot>>, ghost hids: seq<set<Slot>>)
    requires HeapOk(space, pools, addr, outs, hids) && b in addr.objs && o == addr.objs[b]
    modifies addr, addr.radix, addr.radix.l1
    ensures HeapOk(space, pools, addr, outs, hids) && addr.objs == old(addr.objs)
  {
    SamePlace(addr.objs, b);
    addr.Replace(b, o.len, b, o, maps, leaf);
  }

  // the object's length, and what it is to become
  method ReadResized(m: Mem, b: nat, size: nat, ghost was: Obj) returns (total: nat, o: Obj)
    requires LargeOk(m, b, was) && was.large && was.userOff + size + PAGE - 1 < WORD
    ensures total == was.len && o == Resized(was, size) && LeastPages(o.len, o.userOff + size)
  {
    var off := LoadLE(m, b + 16, 8);
    NewTotalFits(off, size);
    total, o := LoadLE(m, b + 8, 8), Obj(NewTotal(off, size), off, true);
  }

  /** btm_large_realloc when the mapping's length changes: the registration is dropped, the
      mapping resized or moved and registered again, with the user's bytes and the offset as
      they were; if the kernel refuses, the old registration is restored. */
  method MoveLarge(space: SlabPool.Space, pools: seq<SlabPool.Pool>, addr: AddressSpace, b: nat, size: nat,
                   nb: Option<nat>, after: Mem, maps: bool, leaf: bool, ghost outs: seq<set<Slot>>,
                   ghost hids: seq<set<Slot>>)
    returns (q: nat, o: Obj)
    requires HeapOk(space, pools, addr, outs, hids) && b in addr.objs && addr.objs[b].large
    requires 0 < size && addr.objs[b].userOff + size + PAGE - 1 < WORD
    requires nb.Some? ==> CanMove(space.mem, addr.objs, b, nb.value, Resized(addr.objs[b], size).len, after)
    modifies space`mem, addr, addr.radix, addr.radix.l1
    ensures HeapOk(space, pools, addr, outs, hids) && (q == 0 <==> nb.None?)
    ensures nb.None? ==> addr.objs == old(addr.objs) && space.mem == old(space.mem)
    ensures o == Resized(old(addr.objs)[b], size) && LeastPages(o.len, o.userOff + size)
    ensures nb.Some? ==> q == nb.value + o.userOff
    ensures nb.Some? ==> Moved(old(space.mem), space.mem, old(addr.objs), addr.objs, b, nb.value, o)
    ensures LargeSame(old(space.mem), space.mem, old(addr.objs), {b})
    ensures AllRead(pools, space.remap, old(space.mem), space.remap, space.mem, outs)
  {
    assert LargeOk(space.mem, b, addr.objs[b]);
    var total;
    total, o := ReadResized(space.mem, b, size, addr.objs[b]);
    if nb.None? {
      Restore(space, pools, addr, b, Obj(total, o.userOff, true), maps, leaf, outs, hids);
      return 0, o;
    }
    MoveTo(space, pools, addr, b, total, nb.value, o, size, after, maps, leaf, outs, hids);
    q := nb.value + o.userOff;
  }
}
