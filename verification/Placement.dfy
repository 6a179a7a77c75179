/** Where chunks and large objects sit in the address space, and how any of
    their addresses finds its owner through the radix table. */
module Placement {
  import opened Bits
  import opened Seqs
  import opened Memory
  import opened Geometry
  import opened Registry
  import opened Large
  import opened Memfd

  datatype Obj = Obj(len: nat, userOff: nat, large: bool)

  // The word stored for every region of an object: bit 0 marks large objects.
  function OwnerWord(b: nat, o: Obj): nat {
    if o.large then Or(b, 1) else b
  }

  /** The tag can be read and removed without touching the object. */
  lemma TagRoundTrip(b: nat, o: Obj)
    requires b % CHUNK == 0 && b < WORD
    ensures And(OwnerWord(b, o), 1) == (if o.large then 1 else 0)
    ensures And(OwnerWord(b, o), HighMask(1, WORD_BITS)) == b
  {
    TagAdds(b, o);
    LowTag(OwnerWord(b, o));
    HighTag(OwnerWord(b, o));
  }

  lemma LowTag(w: nat)
    ensures And(w, 1) == w % 2
  {
    MaskIsMod(w, 1);
    assert Pow2(1) == 2;
  }

  lemma HighTag(w: nat)
    requires w < WORD
    ensures And(w, HighMask(1, WORD_BITS)) == w - w % 2
  {
    WordIsPow2();
    MaskAlignsDown(w, 1, WORD_BITS);
    assert Pow2(1) == 2;
  }

  lemma TagAdds(b: nat, o: Obj)
    requires b % CHUNK == 0 && b < WORD
    ensures OwnerWord(b, o) == b + (if o.large then 1 else 0) && b % 2 == 0 && OwnerWord(b, o) < WORD
  {
    assert b == 2 * (0x10_0000 * (b / CHUNK));
    if o.large {
      OrZero(b / 2);
      assert Or(b, 1) == 1 + 2 * Or(b / 2, 0);
    }
  }

  lemma {:induction false} OrZero(x: nat)
    ensures Or(x, 0) == x
  {
    if x == 0 {
    } else {
      OrZero(x / 2);
    }
  }

  predicate ObjOk(b: nat, o: Obj) {
    0 < b && b % CHUNK == 0 && 0 < o.len && b + o.len <= USER_TOP
  }

  predicate Disjoint(a: nat, la: nat, b: nat, lb: nat) {
    a + la <= b || b + lb <= a
  }

  // Objects start on 2 MiB boundaries and do not overlap.
  ghost predicate Laid(objs: map<nat, Obj>) {
    && (forall b :: b in objs ==> ObjOk(b, objs[b]))
    && (forall b, c :: b in objs && c in objs && b != c ==> Disjoint(b, objs[b].len, c, objs[c].len))
  }

  /** Two objects never share a 2 MiB region, though their last regions may be
      only partly mapped. */
  lemma RegionsExclusive(b: nat, o: Obj, c: nat, q: Obj, k: nat)
    requires ObjOk(b, o) && ObjOk(c, q) && Disjoint(b, o.len, c, q.len)
    ensures !(InRange(k, b, o.len) && InRange(k, c, q.len))
  {
    BeforeRegion(b + o.len - 1, c);
    BeforeRegion(c + q.len - 1, b);
  }

  lemma BeforeRegion(a: nat, c: nat)
    requires c % CHUNK == 0
    ensures a < c ==> a / CHUNK < c / CHUNK
  {}

  lemma AddressInRange(a: nat, b: nat, len: nat)
    requires len > 0 && b <= a < b + len
    ensures InRange(Region(a), b, len)
  {}

  // The table holds each object's word on all its regions, and 0 elsewhere and on the
  // regions `dark`, whose registration found no leaf.
  ghost predicate Agrees(m: map<nat, nat>, objs: map<nat, Obj>, dark: set<nat>) {
    && (forall b, k :: b in objs && objs[b].len > 0 && InRange(k, b, objs[b].len) ==>
        Get(m, k) == if k in dark then 0 else OwnerWord(b, objs[b]))
    && (forall k: nat :: (forall b :: b in objs ==> objs[b].len > 0 && !InRange(k, b, objs[b].len)) ==> Get(m, k) == 0)
  }

  lemma ResolveAt(m: map<nat, nat>, objs: map<nat, Obj>, dark: set<nat>, a: nat)
    requires Agrees(m, objs, dark) && a < USER_TOP
    ensures Region(a) % KEYS == Region(a)
    ensures forall b :: b in objs && b <= a < b + objs[b].len ==>
              Get(m, Region(a)) == if Region(a) in dark then 0 else OwnerWord(b, objs[b])
  {
    forall b | b in objs && b <= a < b + objs[b].len
      ensures Get(m, Region(a)) == if Region(a) in dark then 0 else OwnerWord(b, objs[b])
    {
      AddressInRange(a, b, objs[b].len);
    }
  }

  ghost predicate Clear(objs: map<nat, Obj>, a: nat, len: nat) {
    forall b :: b in objs ==> Disjoint(a, len, b, objs[b].len)
  }

  lemma AddLaid(objs: map<nat, Obj>, b: nat, o: Obj)
    requires Laid(objs) && ObjOk(b, o) && Clear(objs, b, o.len)
    ensures b !in objs && Laid(objs[b := o])
  {}

  // An object is placed; of its regions those in `missed` could not be stored.
  lemma AddAgrees(m: map<nat, nat>, m': map<nat, nat>, objs: map<nat, Obj>, dark: set<nat>, b: nat, o: Obj,
                  missed: set<nat>)
    requires Laid(objs) && Agrees(m, objs, dark) && ObjOk(b, o) && Clear(objs, b, o.len)
    requires forall k: nat :: Get(m', k) ==
               if !InRange(k, b, o.len) then Get(m, k) else if k in missed then 0 else OwnerWord(b, o)
    requires forall k :: k in missed ==> InRange(k, b, o.len)
    requires forall k :: k in dark ==> !InRange(k, b, o.len)
    ensures Agrees(m', objs[b := o], dark + missed)
  {
    var objs' := objs[b := o];
    AddLaid(objs, b, o);
    forall c, k | c in objs' && InRange(k, c, objs'[c].len)
      ensures Get(m', k) == if k in dark + missed then 0 else OwnerWord(c, objs'[c])
    {
      if c != b { RegionsExclusive(b, o, c, objs[c], k); }
    }
    forall k: nat | forall c :: c in objs' ==> objs'[c].len > 0 && !InRange(k, c, objs'[c].len)
      ensures Get(m', k) == 0
    {
      assert objs'[b] == o && !InRange(k, b, o.len);
      forall c | c in objs ensures objs[c].len > 0 && !InRange(k, c, objs[c].len) { assert objs'[c] == objs[c]; }
    }
  }

  // Every dark region is some object's.
  ghost predicate DarkOk(objs: map<nat, Obj>, dark: set<nat>) {
    forall k :: k in dark ==> exists b :: b in objs && objs[b].len > 0 && InRange(k, b, objs[b].len)
  }

  lemma DarkElsewhere(objs: map<nat, Obj>, dark: set<nat>, b: nat, o: Obj, k: nat)
    requires Laid(objs) && DarkOk(objs, dark) && ObjOk(b, o) && Clear(objs, b, o.len) && k in dark
    ensures !InRange(k, b, o.len)
  {
    var c :| c in objs && objs[c].len > 0 && InRange(k, c, objs[c].len);
    RegionsExclusive(b, o, c, objs[c], k);
  }

  lemma DarkAdded(objs: map<nat, Obj>, dark: set<nat>, b: nat, o: Obj, missed: set<nat>)
    requires DarkOk(objs, dark) && b !in objs && o.len > 0 && forall k :: k in missed ==> InRange(k, b, o.len)
    ensures DarkOk(objs[b := o], dark + missed)
  {
    var objs' := objs[b := o];
    forall k | k in dark + missed ensures exists c :: c in objs' && objs'[c].len > 0 && InRange(k, c, objs'[c].len) {
      if k in missed {
        assert b in objs' && InRange(k, b, objs'[b].len);
      } else {
        var c :| c in objs && objs[c].len > 0 && InRange(k, c, objs[c].len);
        assert c in objs' && InRange(k, c, objs'[c].len);
      }
    }
  }

  // The dark regions that are left when object b is gone.
  ghost function StillDark(dark: set<nat>, b: nat, len: nat): set<nat>
    requires len > 0
  {
    set k | k in dark && !InRange(k, b, len)
  }

  lemma DropAgrees(m: map<nat, nat>, m': map<nat, nat>, objs: map<nat, Obj>, dark: set<nat>, b: nat)
    requires Laid(objs) && Agrees(m, objs, dark) && b in objs && objs[b].len > 0
    requires forall k: nat :: Get(m', k) == if InRange(k, b, objs[b].len) then 0 else Get(m, k)
    ensures Agrees(m', objs - {b}, StillDark(dark, b, objs[b].len))
  {
    var objs' := objs - {b};
    forall c, k | c in objs' && InRange(k, c, objs'[c].len)
      ensures Get(m', k) == if k in StillDark(dark, b, objs[b].len) then 0 else OwnerWord(c, objs'[c])
    {
      RegionsExclusive(b, objs[b], c, objs[c], k);
    }
    forall k: nat | forall c :: c in objs' ==> objs'[c].len > 0 && !InRange(k, c, objs'[c].len)
      ensures Get(m', k) == 0
    {
      if !InRange(k, b, objs[b].len) {
        forall c | c in objs ensures objs[c].len > 0 && !InRange(k, c, objs[c].len) {
          if c != b { assert c in objs' && objs'[c] == objs[c]; }
        }
      }
    }
  }

  lemma DropDark(objs: map<nat, Obj>, dark: set<nat>, b: nat)
    requires DarkOk(objs, dark) && b in objs && objs[b].len > 0
    ensures DarkOk(objs - {b}, StillDark(dark, b, objs[b].len))
  {
    var objs' := objs - {b};
    forall k | k in StillDark(dark, b, objs[b].len)
      ensures exists c :: c in objs' && objs'[c].len > 0 && InRange(k, c, objs'[c].len)
    {
      var c :| c in objs && objs[c].len > 0 && InRange(k, c, objs[c].len);
      assert c != b && c in objs' && InRange(k, c, objs'[c].len);
    }
  }

  // ---- where mremap may put an object ----

  // Some object has bytes in a region of [nb, nb + len).
  ghost predicate Shares(objs: map<nat, Obj>, nb: nat, len: nat)
    requires len > 0
  {
    exists c, k :: c in objs && objs[c].len > 0 && InRange(k, c, objs[c].len) && InRange(k, nb, len)
  }

  // Words of different objects differ, wherever on a page boundary they are.
  lemma WordsDiffer(b: nat, o: Obj, c: nat, q: Obj)
    requires b % 2 == 0 && c % 2 == 0 && b != c && o.large
    ensures OwnerWord(b, o) != OwnerWord(c, q) && OwnerWord(b, o) != 0
  {
    OrZero(b / 2);
    OrZero(c / 2);
    assert Or(b, 1) == 1 + 2 * Or(b / 2, 0) && Or(c, 1) == 1 + 2 * Or(c / 2, 0);
  }

  /** btm_large_realloc registers the moved object wherever mremap put it, on a 2 MiB
      boundary or not. Every address still resolves to its own object exactly if no other
      object has bytes in one of the regions of the new mapping. */
  lemma MoveKeepsOwnersIff(m: map<nat, nat>, m': map<nat, nat>, objs: map<nat, Obj>, dark: set<nat>, nb: nat, o: Obj)
    requires Laid(objs) && Agrees(m, objs, dark) && DarkOk(objs, dark)
    requires nb % PAGE == 0 && o.len > 0 && o.large && Clear(objs, nb, o.len)
    requires forall k: nat :: Get(m', k) == if InRange(k, nb, o.len) then OwnerWord(nb, o) else Get(m, k)
    ensures Agrees(m', objs[nb := o], dark) <==> !Shares(objs, nb, o.len)
  {
    NewKey(objs, nb, o.len);
    if Shares(objs, nb, o.len) {
      var c: nat, k: nat :| c in objs && objs[c].len > 0 && InRange(k, c, objs[c].len) && InRange(k, nb, o.len);
      PageEven(nb);
      ChunkEven(objs, c);
      WordsDiffer(nb, o, c, objs[c]);
      SharedDisagrees(m', objs[nb := o], dark, c, k, OwnerWord(nb, o));
    } else {
      UnsharedAgrees(m, m', objs, dark, nb, o);
    }
  }

  lemma NewKey(objs: map<nat, Obj>, nb: nat, len: nat)
    requires Laid(objs) && len > 0 && Clear(objs, nb, len)
    ensures nb !in objs
  {
    forall c | c in objs ensures c != nb { assert Disjoint(nb, len, c, objs[c].len) && ObjOk(c, objs[c]); }
  }

  lemma PageEven(a: nat)
    requires a % PAGE == 0
    ensures a % 2 == 0
  {
    MultipleOfProduct(a, 2, 2048);
  }

  lemma ChunkEven(objs: map<nat, Obj>, c: nat)
    requires Laid(objs) && c in objs
    ensures c % 2 == 0
  {
    assert ObjOk(c, objs[c]);
    MultipleOfProduct(c, 2, 0x10_0000);
  }

  lemma SharedDisagrees(m: map<nat, nat>, objs: map<nat, Obj>, dark: set<nat>, c: nat, k: nat, word: nat)
    requires c in objs && objs[c].len > 0 && InRange(k, c, objs[c].len) && Get(m, k) == word
    requires word != 0 && word != OwnerWord(c, objs[c])
    ensures !Agrees(m, objs, dark)
  {}

  lemma UnsharedAgrees(m: map<nat, nat>, m': map<nat, nat>, objs: map<nat, Obj>, dark: set<nat>, nb: nat, o: Obj)
    requires Laid(objs) && Agrees(m, objs, dark) && DarkOk(objs, dark) && nb !in objs && o.len > 0
    requires forall k: nat :: Get(m', k) == if InRange(k, nb, o.len) then OwnerWord(nb, o) else Get(m, k)
    requires !Shares(objs, nb, o.len)
    ensures Agrees(m', objs[nb := o], dark)
  {
    var objs' := objs[nb := o];
    forall k | k in dark ensures !InRange(k, nb, o.len) {
      var c :| c in objs && objs[c].len > 0 && InRange(k, c, objs[c].len);
    }
    forall k: nat | forall c :: c in objs' ==> objs'[c].len > 0 && !InRange(k, c, objs'[c].len)
      ensures Get(m', k) == 0
    {
      assert objs'[nb] == o && !InRange(k, nb, o.len);
      forall c | c in objs ensures objs[c].len > 0 && !InRange(k, c, objs[c].len) { assert objs'[c] == objs[c]; }
    }
  }

  /** On a 2 MiB boundary no region is shared. */
  lemma AlignedSharesNone(objs: map<nat, Obj>, nb: nat, o: Obj)
    requires Laid(objs) && ObjOk(nb, o) && Clear(objs, nb, o.len)
    ensures !Shares(objs, nb, o.len)
  {
    forall c, k | c in objs && objs[c].len > 0 && InRange(k, c, objs[c].len) ensures !InRange(k, nb, o.len) {
      RegionsExclusive(nb, o, c, objs[c], k);
    }
  }

  /** A move to a free page beside a small mapping takes over that object's region: its
      own addresses then resolve to the moved object. */
  lemma MoveTakesOver()
    returns (m: map<nat, nat>, m': map<nat, nat>, objs: map<nat, Obj>, b: nat, nb: nat, o: Obj)
    ensures Laid(objs) && Agrees(m, objs, {}) && b in objs
    ensures nb % PAGE == 0 && o.large && o.len > 0 && Clear(objs, nb, o.len)
    ensures forall k: nat :: Get(m', k) == if InRange(k, nb, o.len) then OwnerWord(nb, o) else Get(m, k)
    ensures Get(m', Region(b)) == OwnerWord(nb, o) != OwnerWord(b, objs[b])
  {
    b, nb, o := CHUNK, CHUNK + 16 * PAGE, Obj(5 * PAGE, HEADER, true);
    var q := Obj(8 * PAGE, HEADER, true);
    objs := map[b := q];
    m, m' := map[1 := OwnerWord(b, q)], map[1 := OwnerWord(nb, o)];
    PageEven(nb);
    WordsDiffer(nb, o, b, q);
    assert forall k :: InRange(k, b, q.len) <==> k == 1;
    assert forall k :: InRange(k, nb, o.len) <==> k == 1;
    OneAgrees(m, b, q, OwnerWord(b, q));
  }

  lemma OneAgrees(m: map<nat, nat>, b: nat, q: Obj, word: nat)
    requires q.len > 0 && word == OwnerWord(b, q) && m == map[1 := word]
    requires forall k :: InRange(k, b, q.len) <==> k == 1
    ensures Agrees(m, map[b := q], {})
  {
    var objs := map[b := q];
    forall k: nat | forall c :: c in objs ==> objs[c].len > 0 && !InRange(k, c, objs[c].len) ensures Get(m, k) == 0 {
      assert b in objs;
    }
  }

  // Where in its mapping at `raw` a large object goes, once the ends are trimmed.
  method TrimLarge(ghost objs: map<nat, Obj>, size: nat, n: nat, raw: nat) returns (b: nat, o: Obj)
    requires n < WORD_BITS && NoWrap(size, n)
    requires var want := MakePlan(size, n).want; 0 < raw && raw + want <= USER_TOP && Clear(objs, raw, want)
    ensures o.large && b + o.len <= raw + MakePlan(size, n).want
    ensures ObjOk(b, o) && Clear(objs, b, o.len) && LeastPlace(size, n, raw, b, o.len, o.userOff)
  {
    var plan := MakePlan(size, n);
    PlanExact(size, n);
    TrimConserves(size, n, raw);
    var t := MakeTrim(plan, raw);
    ChunkIsPow2();
    assert Gauged(0, n);
    Pow2Divides(CHUNK_BITS, plan.balign, t.base);
    b, o := t.base, Obj(plan.total, plan.hdr, true);
  }

  class AddressSpace {
    const radix: Radix
    ghost var objs: map<nat, Obj>
    ghost var dark: set<nat>       // regions of objects whose leaf could not be mapped

    ghost predicate Valid()
      reads this, radix, radix.l1
    {
      radix.Valid() && Laid(objs) && Agrees(radix.model, objs, dark) && DarkOk(objs, dark)
    }

    constructor ()
      ensures Valid() && objs == map[] && dark == {} && fresh(radix) && fresh(radix.l1)
    {
      radix := new Radix();
      objs, dark := map[], {};
    }

    // The regions of [b, b + len) that have no leaf, if none can be mapped.
    ghost function Missed(b: nat, len: nat, leaf: bool): (r: set<nat>)
      requires radix.Valid() && len > 0
      reads this, radix, radix.l1
    {
      set k: nat | Region(b) <= k < Region(b) + Regions(b, len) && !leaf && radix.l1[I1(k)] == []
    }

    // Registration of a fresh object; `leaf` is whether missing leaves can be mapped.
    method Place(b: nat, o: Obj, leaf: bool)
      requires Valid() && ObjOk(b, o) && Clear(objs, b, o.len)
      modifies this, radix, radix.l1
      ensures Valid() && objs == old(objs)[b := o] && dark == old(dark) + old(Missed(b, o.len, leaf))
    {
      ghost var missed := Missed(b, o.len, leaf);
      AddLaid(objs, b, o);
      forall k | k in dark ensures !InRange(k, b, o.len) { DarkElsewhere(objs, dark, b, o, k); }
      DarkAdded(objs, dark, b, o, missed);
      radix.Insert(b, o.len, OwnerWord(b, o), leaf);
      AddAgrees(old(radix.model), radix.model, objs, dark, b, o, missed);
      objs, dark := objs[b := o], dark + missed;
    }

    /** btm_large_alloc with alignment 2^n; `raw` is where the kernel put the
        mapping, if it succeeded. */
    method LargeAlloc(size: nat, n: nat, raw: Option<nat>, leaf: bool)
      returns (p: Option<nat>, ghost b: nat, ghost o: Obj)
      requires Valid() && n < WORD_BITS && NoWrap(size, n)
      requires var want := MakePlan(size, n).want;
               raw.Some? ==> 0 < raw.value && raw.value + want <= USER_TOP && Clear(objs, raw.value, want)
      modifies this, radix, radix.l1
      ensures Valid()
      ensures raw.None? ==> p.None? && objs == old(objs) && dark == old(dark)
      ensures raw.Some? ==>
                && p == Some(b + o.userOff) && b !in old(objs) && objs == old(objs)[b := o] && o.large
                && LeastPlace(size, n, raw.value, b, o.len, o.userOff)
                && b + o.len <= raw.value + MakePlan(size, n).want
                && o.len > 0 && dark == old(dark) + old(Missed(b, o.len, leaf))
    {
      if raw.None? { return None, 0, Obj(CHUNK, 0, false); }
      var base, obj := TrimLarge(objs, size, n, raw.value);
      p, b, o := Some(base + obj.userOff), base, obj;
      Place(base, obj, leaf);
    }

    // The aligned chunk inside a reservation of twice its size.
    method PlaceChunk(raw: nat, leaf: bool) returns (b: nat)
      requires Valid() && 0 < raw && raw + 2 * CHUNK <= USER_TOP && Clear(objs, raw, 2 * CHUNK)
      modifies this, radix, radix.l1
      ensures Valid() && b !in old(objs) && objs == old(objs)[b := Obj(CHUNK, 0, false)]
      ensures raw <= b < raw + CHUNK && b % CHUNK == 0
      ensures dark == old(dark) + old(Missed(b, CHUNK, leaf))
    {
      ChunkIsPow2();
      RoundUpExact(raw, CHUNK_BITS);
      b := RoundUp(raw, CHUNK_BITS);
      Place(b, Obj(CHUNK, 0, false), leaf);
    }

    /** map_fresh: in mesh mode an offset of the memfd is taken first; twice the chunk
        size is reserved at `raw` and trimmed to one aligned chunk, which is then
        mapped if the kernel allows it. Whichever of these fails, no object is
        registered and no offset stays taken; a chunk whose leaf cannot be mapped is
        handed out all the same. */
    method MapChunk(mesh: bool, offs: Offsets, truncates: bool, raw: Option<nat>, fixed: bool, maps: bool, leaf: bool)
      returns (b: Option<nat>, off: Option<nat>)
      requires Valid() && offs.Valid()
      requires raw.Some? ==> 0 < raw.value && raw.value + 2 * CHUNK <= USER_TOP && Clear(objs, raw.value, 2 * CHUNK)
      modifies this, radix, radix.l1, offs, offs.stack
      ensures Valid() && offs.Valid()
      ensures b.None? <==> raw.None? || !fixed
                           || (mesh && old(offs.count) == 0 && old(offs.bump) + CHUNK > old(offs.size) && !truncates)
      ensures b.None? ==> objs == old(objs) && dark == old(dark) && offs.held == old(offs.held)
      ensures b.Some? ==>
                && b.value !in old(objs) && objs == old(objs)[b.value := Obj(CHUNK, 0, false)]
                && raw.value <= b.value < raw.value + CHUNK && b.value % CHUNK == 0
                && dark == old(dark) + old(Missed(b.value, CHUNK, leaf)) && (off.Some? <==> mesh)
                && (if mesh then off.value !in old(offs.held) && offs.held == old(offs.held) + {off.value}
                    else offs.held == old(offs.held))
    {
      off := None;
      if mesh {
        off := offs.Alloc(truncates);
        if off.None? { return None, None; }
      }
      if raw.None? || !fixed {
        if mesh { offs.Free(off.value, maps); }
        return None, None;
      }
      var base := PlaceChunk(raw.value, leaf);
      b := Some(base);
    }

    /** btm_large_free and the unmapping of a trimmed chunk. */
    method Remove(b: nat, maps: bool, ghost o: Obj, len: nat)
      requires Valid() && b in objs && objs[b] == o && len == o.len
      modifies this, radix, radix.l1
      ensures Valid() && objs == old(objs) - {b} && len > 0 && dark == StillDark(old(dark), b, len)
    {
      radix.Remove(b, len, maps);
      DropAgrees(old(radix.model), radix.model, objs, dark, b);
      DropDark(objs, dark, b);
      objs, dark := objs - {b}, StillDark(dark, b, len);
    }

    /** The registration of btm_large_realloc: object b is dropped and o placed at nb, which
        may be b again. */
    method Replace(b: nat, len: nat, nb: nat, o: Obj, maps: bool, leaf: bool)
      requires Valid() && b in objs && len == objs[b].len && ObjOk(nb, o) && Clear(objs - {b}, nb, o.len)
      modifies this, radix, radix.l1
      ensures Valid() && objs == (old(objs) - {b})[nb := o]
    {
      Remove(b, maps, objs[b], len);
      Place(nb, o, leaf);
    }

    /** Every address of an object, interior ones included, resolves to that object,
        or to 0 exactly if the leaf of its region could not be mapped when the object
        was placed; an address in no object's regions resolves to 0. */
    method Resolve(a: nat) returns (owner: nat)
      requires Valid() && a < USER_TOP
      ensures forall b :: b in objs && b <= a < b + objs[b].len ==>
                owner == if Region(a) in dark then 0 else OwnerWord(b, objs[b])
      ensures (forall b :: b in objs ==> objs[b].len > 0 && !InRange(Region(a), b, objs[b].len)) ==> owner == 0
    {
      owner := radix.Lookup(a);
      ResolveAt(radix.model, objs, dark, a);
    }
  }
}
