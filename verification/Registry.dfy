/** The owner table: a two-level radix with lazily mapped leaves, and a flat
    array. Both refine a plain map from 2 MiB region to owner word. */
module Registry {
  import opened Bits
  import opened Geometry

  const L1_BITS: nat := 14
  const L2_BITS: nat := 13
  const L1: nat := 16384
  const L2: nat := 8192
  const KEYS: nat := 0x800_0000       // 2^27 radix cells
  const FLAT: nat := 0x400_0000       // 2^26 flat entries
  const USER_TOP: nat := 0x8000_0000_0000   // 2^47

  // ---- the plain map ----

  function Get(m: map<nat, nat>, region: nat): nat {
    if region in m then m[region] else 0
  }

  // n regions from `first` on get this owner; owner 0 clears them
  function SetRange(m: map<nat, nat>, first: nat, n: nat, owner: nat): map<nat, nat> {
    if n == 0 then m else SetRange(m, first, n - 1, owner)[first + n - 1 := owner]
  }

  lemma {:induction false} SetRangeAt(m: map<nat, nat>, first: nat, n: nat, owner: nat, k: nat)
    ensures Get(SetRange(m, first, n, owner), k) == if first <= k < first + n then owner else Get(m, k)
    ensures k in SetRange(m, first, n, owner) <==> k in m || first <= k < first + n
  {
    if n == 0 {
    } else {
      SetRangeAt(m, first, n - 1, owner, k);
    }
  }

  function Region(a: nat): nat {
    a / CHUNK
  }

  // The number of regions [base, base + len) touches.
  function Regions(base: nat, len: nat): nat
    requires len > 0
  {
    (base + len - 1) / CHUNK + 1 - base / CHUNK
  }

  predicate InRange(k: nat, base: nat, len: nat)
    requires len > 0
  {
    Region(base) <= k < Region(base) + Regions(base, len)
  }

  // ---- radix indices ----

  function I1(key: nat): (i: nat)
    ensures i < L1
  {
    IndexBits();
    MaskIsMod(key / L2, L1_BITS);
    And(key / L2, L1 - 1)
  }

  function I2(key: nat): (i: nat)
    ensures i < L2
  {
    IndexBits();
    MaskIsMod(key, L2_BITS);
    And(key, L2 - 1)
  }

  lemma IndexBits()
    ensures Pow2(L1_BITS) == L1 && Pow2(L2_BITS) == L2
  {
    assert Pow2(7) == 128;
    Pow2Split(7, 7);
    Pow2Split(6, 7);
  }

  lemma IndexIsMod(key: nat)
    ensures I1(key) == key / L2 % L1 && I2(key) == key % L2
  {
    IndexBits();
    MaskIsMod(key / L2, L1_BITS);
    MaskIsMod(key, L2_BITS);
  }

  /** Two keys share a cell exactly when they agree modulo 2^27. */
  lemma CellIsMod(j: nat, k: nat)
    ensures I1(j) == I1(k) && I2(j) == I2(k) <==> j % KEYS == k % KEYS
  {
    IndexIsMod(j);
    IndexIsMod(k);
    SplitMod(j);
    SplitMod(k);
  }

  lemma SplitMod(k: nat)
    ensures k % KEYS == (k / L2 % L1) * L2 + k % L2
  {
    var q, r := k / L2 / L1, (k / L2 % L1) * L2 + k % L2;
    assert k == q * KEYS + r;
    ModUnique(k, KEYS, q, r);
  }

  class Radix {
    const l1: array<seq<nat>>           // an empty sequence is an unmapped leaf
    ghost var model: map<nat, nat>

    ghost predicate Valid()
      reads this, l1
    {
      && l1.Length == L1
      && (forall i :: 0 <= i < L1 ==> l1[i] == [] || |l1[i]| == L2)
      && (forall k :: k in model ==> k < KEYS)
      && (forall k: nat :: k < KEYS ==> Cell(k) == Get(model, k))
    }

    ghost function Cell(k: nat): nat
      requires l1.Length == L1 && (forall i :: 0 <= i < L1 ==> l1[i] == [] || |l1[i]| == L2)
      reads this, l1
    {
      if l1[I1(k)] == [] then 0 else l1[I1(k)][I2(k)]
    }

    constructor ()
      ensures Valid() && model == map[] && fresh(l1)
    {
      l1 := new seq<nat>[L1](_ => []);
      model := map[];
    }

    /** Any address resolves to its region's owner, read modulo 2^27. */
    method Lookup(a: nat) returns (owner: nat)
      requires Valid()
      ensures owner == Get(model, Region(a) % KEYS)
    {
      var key := a / CHUNK;
      CellIsMod(key, key % KEYS);
      var leaf := l1[I1(key)];
      if leaf == [] { return 0; }
      owner := leaf[I2(key)];
    }

    // registry_set_locked; `maps` is whether a missing leaf can be mapped now
    method SetLocked(key: nat, owner: nat, maps: bool)
      requires Valid() && key < KEYS
      modifies this, l1
      ensures Valid()
      ensures maps || old(l1[I1(key)]) != [] ==> model == old(model)[key := owner] && l1[I1(key)] != []
      ensures !(maps || old(l1[I1(key)]) != []) ==>
                model == old(model) && l1[..] == old(l1[..]) && Get(model, key) == 0
      ensures forall i :: 0 <= i < L1 && i != I1(key) ==> l1[i] == old(l1[i])
    {
      var i1 := I1(key);
      if l1[i1] == [] {
        if !maps {
          assert Cell(key) == Get(model, key);
          return;
        }
        l1[i1] := seq(L2, _ => 0);
      }
      l1[i1] := l1[i1][I2(key) := owner];
      model := model[key := owner];
      forall k: nat | k < KEYS ensures Cell(k) == Get(model, k) {
        CellIsMod(k, key);
        assert old(Cell(k)) == Get(old(model), k);
      }
    }

    // The leaves that hold regions first .. first + n - 1, or can be mapped to.
    ghost predicate CanStore(first: nat, n: nat, maps: bool)
      requires l1.Length == L1
      reads l1
    {
      maps || forall k: nat :: first <= k < first + n ==> l1[I1(k)] != []
    }

    // The shared loop of btm_registry_insert and btm_registry_remove.
    method SetAll(first: nat, n: nat, owner: nat, maps: bool)
      requires Valid() && first + n <= KEYS
      modifies this, l1
      ensures Valid()
      ensures old(CanStore(first, n, maps)) ==> model == SetRange(old(model), first, n, owner)
      ensures forall k: nat :: !(first <= k < first + n) ==> Get(model, k) == Get(old(model), k)
      ensures forall k: nat :: first <= k < first + n ==>
                Get(model, k) == if maps || old(l1[I1(k)]) != [] then owner else 0
    {
      for i := 0 to n
        invariant Valid()
        invariant forall j :: 0 <= j < L1 && (old(l1[j]) != [] || !maps) ==> (l1[j] == [] <==> old(l1[j]) == [])
        invariant old(CanStore(first, n, maps)) ==> model == SetRange(old(model), first, i, owner)
        invariant forall k: nat :: !(first <= k < first + i) ==> Get(model, k) == Get(old(model), k)
        invariant forall k: nat :: first <= k < first + i ==>
                    Get(model, k) == if maps || old(l1[I1(k)]) != [] then owner else 0
      {
        ghost var before := model;
        SetLocked(first + i, owner, maps);
        assert forall k: nat :: k != first + i ==> Get(model, k) == Get(before, k);
      }
    }

    /** Registers every region of [base, base + len); exactly a region whose leaf is
        missing and cannot be mapped resolves to 0 instead, as if foreign. */
    method Insert(base: nat, len: nat, owner: nat, maps: bool)
      requires Valid() && len > 0 && base + len <= USER_TOP
      modifies this, l1
      ensures Valid()
      ensures maps ==> model == SetRange(old(model), Region(base), Regions(base, len), owner)
      ensures forall k: nat :: Get(model, k) ==
                if !InRange(k, base, len) then Get(old(model), k)
                else if maps || old(l1[I1(k)]) != [] then owner else 0
    {
      var first, last := base / CHUNK, (base + len - 1) / CHUNK;
      SetAll(first, last + 1 - first, owner, maps);
    }

    /** Clears every region of [base, base + len), whether or not a missing leaf
        could be mapped: a region without a leaf has no owner. */
    method Remove(base: nat, len: nat, maps: bool)
      requires Valid() && len > 0 && base + len <= USER_TOP
      modifies this, l1
      ensures Valid()
      ensures forall k: nat :: Get(model, k) == if InRange(k, base, len) then 0 else Get(old(model), k)
      ensures maps ==> model == SetRange(old(model), Region(base), Regions(base, len), 0)
    {
      var first, last := base / CHUNK, (base + len - 1) / CHUNK;
      SetAll(first, last + 1 - first, 0, maps);
    }
  }

  class Flat {
    const table: array<nat>
    const present: bool                 // whether the reservation succeeded
    ghost var model: map<nat, nat>

    ghost predicate Valid()
      reads this, table
    {
      && table.Length == FLAT
      && (forall k: nat :: k < FLAT ==> table[k] == Get(model, k))
      && (forall k: nat :: FLAT <= k ==> Get(model, k) == 0)
      && (!present ==> forall k: nat :: Get(model, k) == 0)
    }

    constructor (reserved: bool)
      ensures Valid() && model == map[] && fresh(table) && present == reserved
    {
      table := new nat[FLAT](_ => 0);
      present := reserved;
      model := map[];
    }

    method Lookup(a: nat) returns (owner: nat)
      requires Valid()
      ensures owner == Get(model, Region(a))
    {
      var region := a / CHUNK;
      if region >= FLAT || !present { return 0; }
      owner := table[region];
    }

    // flat_set
    method Set(region: nat, owner: nat)
      requires Valid()
      modifies this`model, table
      ensures Valid()
      ensures region < FLAT && present ==> model == old(model)[region := owner]
      ensures !(region < FLAT && present) ==> model == old(model)
    {
      if region >= FLAT || !present { return; }
      table[region] := owner;
      model := model[region := owner];
      assert forall k: nat :: k != region ==> Get(model, k) == Get(old(model), k);
    }

    /** btm_registry_insert, and btm_registry_remove with owner 0: without the
        reservation nothing is stored. */
    method SetAll(base: nat, len: nat, owner: nat)
      requires Valid() && len > 0 && base + len <= USER_TOP
      modifies this`model, table
      ensures Valid()
      ensures model == if present then SetRange(old(model), Region(base), Regions(base, len), owner) else old(model)
    {
      var first, last := base / CHUNK, (base + len - 1) / CHUNK;
      for i := 0 to last + 1 - first
        invariant Valid() && model == if present then SetRange(old(model), first, i, owner) else old(model)
      {
        Set(first + i, owner);
      }
    }
  }

  // ---- whole histories ----

  datatype Op = Op(base: nat, len: nat, owner: nat)     // owner 0 is a removal

  predicate OpOk(o: Op) {
    o.len > 0 && o.base + o.len <= USER_TOP
  }

  function Plain(ops: seq<Op>): map<nat, nat>
    requires forall i :: 0 <= i < |ops| ==> OpOk(ops[i])
  {
    if ops == [] then map[]
    else
      var o := ops[|ops| - 1];
      assert OpOk(o);
      SetRange(Plain(ops[..|ops| - 1]), Region(o.base), Regions(o.base, o.len), o.owner)
  }

  /** After any sequence of range insertions and removals, the radix and the flat
      table hold the owners of the plain map; a flat table that could not be
      reserved holds none. */
  method Replay(ops: seq<Op>, reserved: bool) returns (radix: Radix, flat: Flat)
    requires forall i :: 0 <= i < |ops| ==> OpOk(ops[i])
    ensures radix.Valid() && flat.Valid() && radix.model == Plain(ops)
    ensures flat.model == if reserved then Plain(ops) else map[]
  {
    radix := new Radix();
    flat := new Flat(reserved);
    for i := 0 to |ops|
      invariant fresh(radix) && fresh(flat) && fresh(radix.l1) && fresh(flat.table) && flat.present == reserved
      invariant radix.Valid() && flat.Valid()
      invariant radix.model == Plain(ops[..i]) && flat.model == if reserved then Plain(ops[..i]) else map[]
    {
      var o := ops[i];
      assert ops[..i + 1][..i] == ops[..i];
      if o.owner == 0 {
        radix.Remove(o.base, o.len, true);
      } else {
        radix.Insert(o.base, o.len, o.owner, true);
      }
      flat.SetAll(o.base, o.len, o.owner);
    }
    assert ops[..|ops|] == ops;
  }

  // Only regions of user addresses ever get an owner.
  lemma {:induction false} PlainBelow(ops: seq<Op>, k: nat)
    requires forall i :: 0 <= i < |ops| ==> OpOk(ops[i])
    ensures k >= FLAT ==> Get(Plain(ops), k) == 0
  {
    if ops == [] {
    } else {
      var o := ops[|ops| - 1];
      assert OpOk(o);
      PlainBelow(ops[..|ops| - 1], k);
      SetRangeAt(Plain(ops[..|ops| - 1]), Region(o.base), Regions(o.base, o.len), o.owner, k);
    }
  }

  /** The two engines, after the same insertions and removals, asked for the same
      address: both name the owner of its region if it is a user address, and for
      any address they differ exactly when it lies beyond 2^48 and the cell the
      radix reads instead has an owner. */
  method LookupBoth(ops: seq<Op>, a: nat) returns (r: nat, f: nat)
    requires forall i :: 0 <= i < |ops| ==> OpOk(ops[i])
    ensures f == Get(Plain(ops), Region(a))
    ensures a < USER_TOP ==> r == f
    ensures r != f <==> Region(a) >= KEYS && Get(Plain(ops), Region(a) % KEYS) != 0
  {
    var radix, flat := Replay(ops, true);
    r := radix.Lookup(a);
    f := flat.Lookup(a);
    PlainBelow(ops, Region(a));
    if Region(a) < KEYS { assert Region(a) % KEYS == Region(a); }
  }
}
