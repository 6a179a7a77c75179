/** The occupancy bitmaps of compaction: one bit a slot, set if the slot is not
    on its slab's freelist. */
module Occupancy {
  import opened Bits
  import opened Memory
  import opened Geometry
  import opened PoolSpec
  import opened SlotChains

  function Words(n: nat): nat { (n + 63) / WORD_BITS }

  predicate Used(bm: seq<nat>, k: nat) {
    k / WORD_BITS < |bm| && Bit(bm[k / WORD_BITS], k % WORD_BITS)
  }

  // No bit lies beyond the width of a word.
  ghost predicate Tidy(bm: seq<nat>) {
    forall w, i: nat :: 0 <= w < |bm| && i >= WORD_BITS ==> !Bit(bm[w], i)
  }

  function SetBit(bm: seq<nat>, k: nat): seq<nat>
    requires k / WORD_BITS < |bm|
  {
    bm[k / WORD_BITS := Or(bm[k / WORD_BITS], Pow2(k % WORD_BITS))]
  }

  function ClearBit(bm: seq<nat>, k: nat): seq<nat>
    requires k / WORD_BITS < |bm|
  {
    bm[k / WORD_BITS := AndNot(bm[k / WORD_BITS], Pow2(k % WORD_BITS))]
  }

  lemma SetBitUsed(bm: seq<nat>, k: nat, j: nat)
    requires k / WORD_BITS < |bm|
    ensures Used(SetBit(bm, k), j) <==> Used(bm, j) || j == k
  {
    var w, i := k / WORD_BITS, j % WORD_BITS;
    BitOfOr(bm[w], Pow2(k % WORD_BITS), i);
    BitOfPow2(k % WORD_BITS, i);
  }

  lemma ClearBitUsed(bm: seq<nat>, k: nat, j: nat)
    requires k / WORD_BITS < |bm|
    ensures Used(ClearBit(bm, k), j) <==> Used(bm, j) && j != k
  {
    var w, i := k / WORD_BITS, j % WORD_BITS;
    BitOfAndNot(bm[w], Pow2(k % WORD_BITS), i);
    BitOfPow2(k % WORD_BITS, i);
  }

  lemma BitsTidy(bm: seq<nat>, k: nat)
    requires k / WORD_BITS < |bm| && Tidy(bm)
    ensures Tidy(SetBit(bm, k)) && Tidy(ClearBit(bm, k))
  {
    forall i: nat | i >= WORD_BITS
      ensures !Bit(Or(bm[k / WORD_BITS], Pow2(k % WORD_BITS)), i)
      ensures !Bit(AndNot(bm[k / WORD_BITS], Pow2(k % WORD_BITS)), i)
    {
      BitOfOr(bm[k / WORD_BITS], Pow2(k % WORD_BITS), i);
      BitOfAndNot(bm[k / WORD_BITS], Pow2(k % WORD_BITS), i);
      BitOfPow2(k % WORD_BITS, i);
    }
  }

  // Bits are set for exactly the slots below n that are not in `free`.
  ghost predicate OccOk(bm: seq<nat>, n: nat, free: seq<nat>) {
    |bm| == Words(n) && Tidy(bm) && forall k: nat :: Used(bm, k) <==> k < n && k !in free
  }

  // ... counting only the first i entries of `free` as free
  ghost predicate Clearing(bm: seq<nat>, n: nat, free: seq<nat>, i: nat) {
    i <= |free| && OccOk(bm, n, free[..i])
  }

  method AllUsed(n: nat) returns (bm: seq<nat>)
    ensures OccOk(bm, n, [])
  {
    bm := seq(Words(n), _ => 0);
    forall i: nat ensures !Bit(0, i) { BitOfZero(i); }
    var k := 0;
    while k < n
      invariant k <= n && |bm| == Words(n) && Tidy(bm)
      invariant forall j: nat :: Used(bm, j) <==> j < k
    {
      BitsTidy(bm, k);
      forall j: nat ensures Used(SetBit(bm, k), j) <==> Used(bm, j) || j == k { SetBitUsed(bm, k, j); }
      bm := SetBit(bm, k);
      k := k + 1;
    }
  }

  lemma ClearStep(bm: seq<nat>, n: nat, free: seq<nat>, i: nat)
    requires Clearing(bm, n, free, i) && i < |free| && free[i] < n
    ensures free[i] / WORD_BITS < |bm| && Clearing(ClearBit(bm, free[i]), n, free, i + 1)
  {
    BitsTidy(bm, free[i]);
    assert free[..i + 1] == free[..i] + [free[i]];
    forall j: nat ensures Used(ClearBit(bm, free[i]), j) <==> j < n && j !in free[..i + 1] {
      ClearBitUsed(bm, free[i], j);
    }
  }

  // a freelist position, as build_occ's walk sees it
  ghost predicate WalkAt(c: SizeClass, s: SlabId, f: nat, free: seq<nat>, i: nat) {
    i <= |free| && f == if i < |free| then Addr(c, Slot(s, free[i])) else 0
  }

  lemma WalkNext(c: SizeClass, alias: map<SlabId, SlabId>, remap: map<nat, nat>, m: Mem, key: nat, head: nat,
                 s: SlabId, free: seq<nat>, f: nat, i: nat)
    requires ChainOf(c, alias, m, key, head, SlotsAt(s, free)) && SlotsMapped(c, remap, alias, SlotsAt(s, free))
    requires WalkAt(c, s, f, free, i)
    ensures f == 0 <==> i == |free|
    ensures i < |free| ==>
              && SlotOk(c, Slot(s, free[i])) && f >= Data(s) && (f - Data(s)) / c.size == free[i]
              && WalkAt(c, s, GetLink(m, key, Tr(remap, f), f), free, i + 1)
  {
    if i < |free| {
      var x := SlotsAt(s, free)[i];
      assert PlacedOk(c, alias, x);
      WalkIndex(c, x);
      TrSlot(c, remap, alias, x);
      LinkAt(c, alias, m, key, head, SlotsAt(s, free), i);
    }
  }

  lemma WalkIndex(c: SizeClass, x: Slot)
    requires SlotOk(c, x)
    ensures Addr(c, x) > 0 && Addr(c, x) >= Data(x.slab) && (Addr(c, x) - Data(x.slab)) / c.size == x.k
  {
    SlotBounds(c, x);
    IndexOfSlot(c, x);
  }

  // one step of the walk
  method ClearOne(c: SizeClass, key: nat, remap: map<nat, nat>, m: Mem, s: SlabId, bm: seq<nat>, f: nat,
                  ghost alias: map<SlabId, SlabId>, ghost head: nat, ghost free: seq<nat>, ghost i: nat)
    returns (bm': seq<nat>, f': nat)
    requires SlotsMapped(c, remap, alias, SlotsAt(s, free)) && ChainOf(c, alias, m, key, head, SlotsAt(s, free))
    requires f != 0 && WalkAt(c, s, f, free, i) && Clearing(bm, c.slots, free, i)
    ensures WalkAt(c, s, f', free, i + 1) && Clearing(bm', c.slots, free, i + 1)
  {
    WalkNext(c, alias, remap, m, key, head, s, free, f, i);
    ClearStep(bm, c.slots, free, i);
    bm' := ClearBit(bm, (f - Data(s)) / c.size);
    f' := GetLink(m, key, Tr(remap, f), f);
  }

  lemma WalkStart(c: SizeClass, alias: map<SlabId, SlabId>, m: Mem, key: nat, head: nat, s: SlabId, free: seq<nat>,
                  bm: seq<nat>)
    requires ChainOf(c, alias, m, key, head, SlotsAt(s, free)) && OccOk(bm, c.slots, [])
    ensures WalkAt(c, s, head, free, 0) && Clearing(bm, c.slots, free, 0)
  {
    assert free[..0] == [];
  }

  /** build_occ: set every slot's bit, then clear those the freelist leads to. */
  method BuildOcc(c: SizeClass, key: nat, remap: map<nat, nat>, m: Mem, s: SlabId, head: nat,
                  ghost alias: map<SlabId, SlabId>, ghost free: seq<nat>)
    returns (bm: seq<nat>)
    requires SlotsMapped(c, remap, alias, SlotsAt(s, free)) && ChainOf(c, alias, m, key, head, SlotsAt(s, free))
    ensures OccOk(bm, c.slots, free)
  {
    bm := AllUsed(c.slots);
    var f := head;
    ghost var i := 0;
    WalkStart(c, alias, m, key, head, s, free, bm);
    while f != 0
      invariant WalkAt(c, s, f, free, i) && Clearing(bm, c.slots, free, i)
      decreases |free| - i
    {
      WalkNext(c, alias, remap, m, key, head, s, free, f, i);
      bm, f := ClearOne(c, key, remap, m, s, bm, f, alias, head, free, i);
      i := i + 1;
    }
    WalkNext(c, alias, remap, m, key, head, s, free, f, i);
    assert free[..i] == free;
  }

  ghost predicate Clash(a: seq<nat>, b: seq<nat>, k: nat) { Used(a, k) && Used(b, k) }

  lemma WordDisjoint(a: seq<nat>, b: seq<nat>, w: nat)
    requires w < |a| == |b| && Tidy(a)
    ensures And(a[w], b[w]) == 0 <==> forall k: nat :: k / WORD_BITS == w ==> !Clash(a, b, k)
  {
    AndZeroIffDisjoint(a[w], b[w]);
    if And(a[w], b[w]) == 0 {
      forall k: nat | k / WORD_BITS == w ensures !Clash(a, b, k) {
        assert !BothSet(a[w], b[w], k % WORD_BITS);
      }
    } else {
      var i: nat :| BothSet(a[w], b[w], i);
      assert i < WORD_BITS;
      var k := w * WORD_BITS + i;
      assert k / WORD_BITS == w && k % WORD_BITS == i;
      assert Clash(a, b, k);
    }
  }

  /** The word-by-word test finds two bitmaps disjoint exactly when no slot is
      occupied in both. */
  method NoOverlap(a: seq<nat>, b: seq<nat>) returns (yes: bool)
    requires |a| == |b| && Tidy(a)
    ensures yes <==> forall k: nat :: !Clash(a, b, k)
  {
    var w := 0;
    while w < |a|
      invariant w <= |a|
      invariant forall k: nat :: k / WORD_BITS < w ==> !Clash(a, b, k)
    {
      WordDisjoint(a, b, w);
      if And(a[w], b[w]) != 0 { return false; }
      w := w + 1;
    }
    return true;
  }
}
