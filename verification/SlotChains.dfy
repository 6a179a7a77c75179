/** Freelists threaded through slots by encoded links: formatting a slab,
    popping a batch, splicing a batch onto a bin. Each loop is related to the
    sequence of slots its chain visits, and touches no slot but its own. */
module SlotChains {
  import opened Bits
  import opened Seqs
  import opened Memory
  import opened Geometry
  import opened PoolSpec

  function SlotAddrs(c: SizeClass, xs: seq<Slot>): (r: seq<nat>)
    ensures |r| == |xs| && forall i :: 0 <= i < |xs| ==> r[i] == Addr(c, xs[i])
  {
    seq(|xs|, i requires 0 <= i < |xs| => Addr(c, xs[i]))
  }

  // Where slot x is stored.
  function Place(c: SizeClass, alias: map<SlabId, SlabId>, x: Slot): nat {
    Addr(c, Backing(alias, x))
  }

  function Places(c: SizeClass, alias: map<SlabId, SlabId>, xs: seq<Slot>): (r: seq<nat>)
    ensures |r| == |xs| && forall i :: 0 <= i < |xs| ==> r[i] == Place(c, alias, xs[i])
  {
    seq(|xs|, i requires 0 <= i < |xs| => Place(c, alias, xs[i]))
  }

  lemma AddrsConcat(c: SizeClass, alias: map<SlabId, SlabId>, xs: seq<Slot>, ys: seq<Slot>)
    ensures SlotAddrs(c, xs + ys) == SlotAddrs(c, xs) + SlotAddrs(c, ys)
    ensures Places(c, alias, xs + ys) == Places(c, alias, xs) + Places(c, alias, ys)
  {}

  lemma AddrsSnoc(c: SizeClass, alias: map<SlabId, SlabId>, xs: seq<Slot>, x: Slot)
    ensures SlotAddrs(c, xs + [x]) == SlotAddrs(c, xs) + [Addr(c, x)]
    ensures Places(c, alias, xs + [x]) == Places(c, alias, xs) + [Place(c, alias, x)]
  {}

  lemma AddrsCons(c: SizeClass, alias: map<SlabId, SlabId>, x: Slot, xs: seq<Slot>)
    ensures SlotAddrs(c, [x] + xs) == [Addr(c, x)] + SlotAddrs(c, xs)
    ensures Places(c, alias, [x] + xs) == [Place(c, alias, x)] + Places(c, alias, xs)
  {}

  ghost predicate PlacedOk(c: SizeClass, alias: map<SlabId, SlabId>, x: Slot) {
    SlotOk(c, x) && SlotOk(c, Backing(alias, x))
  }

  // Slots with pairwise different backing slots.
  ghost predicate OkSlots(c: SizeClass, alias: map<SlabId, SlabId>, xs: seq<Slot>) {
    && (forall i :: 0 <= i < |xs| ==> PlacedOk(c, alias, xs[i]))
    && (forall i, j :: 0 <= i < j < |xs| ==> Backing(alias, xs[i]) != Backing(alias, xs[j]))
  }

  // No slot of xs is stored where x is.
  ghost predicate Elsewhere(alias: map<SlabId, SlabId>, x: Slot, xs: seq<Slot>) {
    forall i :: 0 <= i < |xs| ==> Backing(alias, xs[i]) != Backing(alias, x)
  }

  /** Following links from `head` visits the slots xs. */
  ghost predicate ChainOf(c: SizeClass, alias: map<SlabId, SlabId>, m: Mem, key: nat, head: nat, xs: seq<Slot>) {
    OkSlots(c, alias, xs) && Chain(m, key, head, SlotAddrs(c, xs), Places(c, alias, xs))
  }

  // ---- which bytes change ----

  predicate InSlot(c: SizeClass, x: Slot, a: nat) {
    Addr(c, x) <= a < Addr(c, x) + c.size
  }

  ghost predicate Touched(c: SizeClass, xs: set<Slot>, a: nat) {
    exists x :: x in xs && InSlot(c, x, a)
  }

  /** Every byte outside the slots xs reads as before. */
  ghost predicate Only(c: SizeClass, m: Mem, m': Mem, xs: set<Slot>) {
    forall a: nat {:trigger Load(m', a)} :: !Touched(c, xs, a) ==> Load(m', a) == Load(m, a)
  }

  ghost predicate SlotSame(c: SizeClass, m: Mem, m': Mem, x: Slot) {
    SameOn(m, m', Addr(c, x), c.size)
  }

  lemma OnlyElse(c: SizeClass, m: Mem, m': Mem, xs: set<Slot>, y: Slot)
    requires Only(c, m, m', xs) && SlotOk(c, y) && y !in xs && forall x :: x in xs ==> SlotOk(c, x)
    ensures SlotSame(c, m, m', y)
  {
    forall a | Addr(c, y) <= a < Addr(c, y) + c.size ensures !Touched(c, xs, a) {
      if Touched(c, xs, a) {
        var x :| x in xs && InSlot(c, x, a);
        SlotsApart(c, x, y);
      }
    }
  }

  lemma OnlyTrans(c: SizeClass, m: Mem, m1: Mem, m2: Mem, xs: set<Slot>, ys: set<Slot>)
    requires Only(c, m, m1, xs) && Only(c, m1, m2, ys)
    ensures Only(c, m, m2, xs + ys)
  {
    forall a: nat | !Touched(c, xs + ys, a) ensures Load(m2, a) == Load(m, a) {
      assert Load(m1, a) == Load(m, a);
    }
  }

  lemma OnlyMore(c: SizeClass, m: Mem, m': Mem, xs: set<Slot>, ys: set<Slot>)
    requires Only(c, m, m', xs) && xs <= ys
    ensures Only(c, m, m', ys)
  {
    forall a: nat | !Touched(c, ys, a) ensures Load(m', a) == Load(m, a) {
    }
  }

  lemma SetLinkOnly(c: SizeClass, alias: map<SlabId, SlabId>, m: Mem, key: nat, x: Slot, v: nat)
    requires PlacedOk(c, alias, x)
    ensures Only(c, m, SetLink(m, key, Place(c, alias, x), Addr(c, x), v), {Backing(alias, x)})
  {
    var m', y := SetLink(m, key, Place(c, alias, x), Addr(c, x), v), Backing(alias, x);
    forall a: nat | !Touched(c, {y}, a) ensures Load(m', a) == Load(m, a) {
      assert y in {y} && !InSlot(c, y, a);
      SetLinkFrame(m, key, Place(c, alias, x), Addr(c, x), v, a);
    }
  }

  /** A chain survives changes outside the slots it is stored in. */
  lemma ChainOfSame(c: SizeClass, alias: map<SlabId, SlabId>, m: Mem, m': Mem, key: nat, head: nat, xs: seq<Slot>)
    requires ChainOf(c, alias, m, key, head, xs)
    requires forall i :: 0 <= i < |xs| ==> SlotSame(c, m, m', Backing(alias, xs[i]))
    ensures ChainOf(c, alias, m', key, head, xs)
  {
    var r, p := SlotAddrs(c, xs), Places(c, alias, xs);
    forall i: nat | i < |r| ensures r[i] != 0 && GetLink(m', key, p[i], r[i]) == At(r, i + 1) {
      assert PlacedOk(c, alias, xs[i]) && SlotSame(c, m, m', Backing(alias, xs[i]));
      LoadSame(m, m', p[i], LINK);
    }
  }

  lemma ChainOfOnly(c: SizeClass, alias: map<SlabId, SlabId>, m: Mem, m': Mem, key: nat, head: nat,
                    xs: seq<Slot>, ys: set<Slot>)
    requires ChainOf(c, alias, m, key, head, xs) && Only(c, m, m', ys)
    requires forall y :: y in ys ==> SlotOk(c, y)
    requires forall i :: 0 <= i < |xs| ==> Backing(alias, xs[i]) !in ys
    ensures ChainOf(c, alias, m', key, head, xs)
  {
    forall i | 0 <= i < |xs| ensures SlotSame(c, m, m', Backing(alias, xs[i])) {
      assert PlacedOk(c, alias, xs[i]);
      OnlyElse(c, m, m', ys, Backing(alias, xs[i]));
    }
    ChainOfSame(c, alias, m, m', key, head, xs);
  }

  lemma HeadBound(c: SizeClass, alias: map<SlabId, SlabId>, m: Mem, key: nat, head: nat, xs: seq<Slot>)
    requires ChainOf(c, alias, m, key, head, xs)
    ensures head < WORD && (head == 0 <==> xs == [])
  {
    if xs != [] {
      assert PlacedOk(c, alias, xs[0]);
      SlotBounds(c, xs[0]);
    }
  }

  lemma PlaceApart(c: SizeClass, alias: map<SlabId, SlabId>, xs: seq<Slot>, x: Slot)
    requires OkSlots(c, alias, xs) && PlacedOk(c, alias, x) && Elsewhere(alias, x, xs)
    ensures Apart(Place(c, alias, x), Places(c, alias, xs))
  {
    var r := Places(c, alias, xs);
    forall i | 0 <= i < |r| ensures Sep(r[i], Place(c, alias, x)) {
      assert PlacedOk(c, alias, xs[i]);
      SlotsApart(c, Backing(alias, xs[i]), Backing(alias, x));
    }
  }

  lemma PushOk(c: SizeClass, alias: map<SlabId, SlabId>, x: Slot, xs: seq<Slot>)
    requires OkSlots(c, alias, xs) && PlacedOk(c, alias, x) && Elsewhere(alias, x, xs)
    ensures OkSlots(c, alias, [x] + xs)
  {
    var a := [x] + xs;
    forall i | 0 <= i < |a| ensures PlacedOk(c, alias, a[i]) { if i > 0 { assert a[i] == xs[i - 1]; } }
    forall i, j | 0 <= i < j < |a| ensures Backing(alias, a[i]) != Backing(alias, a[j]) {
      assert a[j] == xs[j - 1];
      if i > 0 { assert a[i] == xs[i - 1]; }
    }
  }

  lemma PushSlot(c: SizeClass, alias: map<SlabId, SlabId>, m: Mem, key: nat, head: nat, xs: seq<Slot>, x: Slot)
    requires ChainOf(c, alias, m, key, head, xs) && PlacedOk(c, alias, x) && Elsewhere(alias, x, xs) && key < WORD
    ensures ChainOf(c, alias, SetLink(m, key, Place(c, alias, x), Addr(c, x), head), key, Addr(c, x), [x] + xs)
  {
    PlaceApart(c, alias, xs, x);
    HeadBound(c, alias, m, key, head, xs);
    SlotBounds(c, x);
    ChainPush(m, key, Place(c, alias, x), Addr(c, x), head, SlotAddrs(c, xs), Places(c, alias, xs));
    AddrsCons(c, alias, x, xs);
    PushOk(c, alias, x, xs);
  }

  lemma TailOk(c: SizeClass, alias: map<SlabId, SlabId>, xs: seq<Slot>)
    requires OkSlots(c, alias, xs) && xs != []
    ensures OkSlots(c, alias, xs[1..]) && PlacedOk(c, alias, xs[0]) && Elsewhere(alias, xs[0], xs[1..])
  {
    var t := xs[1..];
    forall i | 0 <= i < |t| ensures PlacedOk(c, alias, t[i]) { assert t[i] == xs[i + 1]; }
  }

  lemma PopSlot(c: SizeClass, alias: map<SlabId, SlabId>, m: Mem, key: nat, head: nat, xs: seq<Slot>)
    requires ChainOf(c, alias, m, key, head, xs) && xs != []
    ensures head == Addr(c, xs[0])
    ensures ChainOf(c, alias, m, key, GetLink(m, key, Place(c, alias, xs[0]), head), xs[1..])
  {
    ChainPop(m, key, head, SlotAddrs(c, xs), Places(c, alias, xs));
    assert SlotAddrs(c, xs)[1..] == SlotAddrs(c, xs[1..]);
    assert Places(c, alias, xs)[1..] == Places(c, alias, xs[1..]);
    TailOk(c, alias, xs);
  }

  /** A list of slots is determined by where its chain starts. */
  lemma LinkAt(c: SizeClass, alias: map<SlabId, SlabId>, m: Mem, key: nat, head: nat, b: seq<Slot>, i: nat)
    requires ChainOf(c, alias, m, key, head, b) && i < |b|
    ensures GetLink(m, key, Place(c, alias, b[i]), Addr(c, b[i])) == if i + 1 < |b| then Addr(c, b[i + 1]) else 0
  {
    assert SlotAddrs(c, b)[i] == Addr(c, b[i]);
  }

  // ---- formatting ----

  // Slots i, i + 1, ..., n - 1 of s.
  function SlotsFrom(s: SlabId, i: nat, n: nat): (r: seq<Slot>)
    requires i <= n
    ensures |r| == n - i && forall j :: 0 <= j < n - i ==> r[j] == Slot(s, i + j)
  {
    seq(n - i, j requires 0 <= j < n - i => Slot(s, i + j))
  }

  lemma SlotsFromCons(s: SlabId, i: nat, n: nat)
    requires i < n
    ensures [Slot(s, i)] + SlotsFrom(s, i + 1, n) == SlotsFrom(s, i, n)
  {
    var a, b := [Slot(s, i)] + SlotsFrom(s, i + 1, n), SlotsFrom(s, i, n);
    assert |a| == |b|;
    forall j | 0 <= j < |a| ensures a[j] == b[j] {
      if j > 0 { assert a[j] == SlotsFrom(s, i + 1, n)[j - 1]; }
    }
  }

  lemma SlotsFromAll(s: SlabId, n: nat)
    ensures SlotsFrom(s, 0, n) == SlotsAt(s, Iota(n))
  {}

  function SlotSet(s: SlabId, n: nat): set<Slot> {
    set k: nat | k < n :: Slot(s, k)
  }

  // What a formatting loop has done once slots i, ..., n - 1 are threaded.
  ghost predicate Formatted(c: SizeClass, alias: map<SlabId, SlabId>, key: nat, m0: Mem, m: Mem,
                            s: SlabId, head: nat, i: nat) {
    i <= c.slots && ChainOf(c, alias, m, key, head, SlotsFrom(s, i, c.slots)) && Only(c, m0, m, SlotSet(s, c.slots))
  }

  lemma FormatStep(c: SizeClass, alias: map<SlabId, SlabId>, key: nat, m0: Mem, m: Mem, s: SlabId, head: nat, i: nat)
    requires SlabOk(c, s) && s !in alias && key < WORD && i < c.slots
    requires Formatted(c, alias, key, m0, m, s, head, i + 1)
    ensures var a := Addr(c, Slot(s, i)); Formatted(c, alias, key, m0, SetLink(m, key, a, a, head), s, a, i)
  {
    var x := Slot(s, i);
    var m' := SetLink(m, key, Addr(c, x), Addr(c, x), head);
    PushSlot(c, alias, m, key, head, SlotsFrom(s, i + 1, c.slots), x);
    SlotsFromCons(s, i, c.slots);
    SetLinkOnly(c, alias, m, key, x, head);
    OnlyTrans(c, m0, m, m', SlotSet(s, c.slots), {x});
    assert SlotSet(s, c.slots) + {x} == SlotSet(s, c.slots);
  }

  method ThreadSlot(c: SizeClass, key: nat, remap: map<nat, nat>, m: Mem, s: SlabId, head: nat, i: nat,
                    ghost alias: map<SlabId, SlabId>, ghost m0: Mem)
    returns (m': Mem, head': nat)
    requires SlabOk(c, s) && s !in alias && key < WORD && i < c.slots && SlabMapped(c, remap, alias, s)
    requires Formatted(c, alias, key, m0, m, s, head, i + 1)
    ensures Formatted(c, alias, key, m0, m', s, head', i)
  {
    FormatStep(c, alias, key, m0, m, s, head, i);
    TrSlot(c, remap, alias, Slot(s, i));
    head' := Addr(c, Slot(s, i));
    m' := SetLink(m, key, Tr(remap, head'), head', head);
  }

  /** slab_format's loop: all slots of the slab on one chain, in order. */
  method FormatSlots(c: SizeClass, key: nat, remap: map<nat, nat>, m: Mem, s: SlabId, ghost alias: map<SlabId, SlabId>)
    returns (m': Mem, head: nat)
    requires SlabOk(c, s) && key < WORD && SlabMapped(c, remap, alias, s) && s !in alias
    ensures ChainOf(c, alias, m', key, head, SlotsAt(s, Iota(c.slots)))
    ensures Only(c, m, m', SlotSet(s, c.slots))
  {
    m', head := m, 0;
    var i := c.slots;
    assert SlotsFrom(s, i, i) == [];
    while i > 0
      invariant Formatted(c, alias, key, m, m', s, head, i)
    {
      i := i - 1;
      m', head := ThreadSlot(c, key, remap, m', s, head, i, alias, m);
    }
    SlotsFromAll(s, c.slots);
  }

  // ---- refill's loops ----

  ghost function Backings(alias: map<SlabId, SlabId>, xs: seq<Slot>): set<Slot> {
    set x | x in xs :: Backing(alias, x)
  }

  // The first n slots of a chain have been moved, reversed, to a second chain.
  ghost predicate Split(c: SizeClass, alias: map<SlabId, SlabId>, m0: Mem, m: Mem, key: nat, head: nat, local: nat,
                        xs: seq<Slot>, n: nat) {
    && n <= |xs|
    && ChainOf(c, alias, m, key, head, xs[n..]) && ChainOf(c, alias, m, key, local, Reverse(xs[..n]))
    && Only(c, m0, m, Backings(alias, xs[..n]))
  }

  lemma TakeNext<T(!new)>(xs: seq<T>, n: nat)
    requires n < |xs|
    ensures [xs[n]] + Reverse(xs[..n]) == Reverse(xs[..n + 1])
    ensures xs[n..][1..] == xs[n + 1..] && xs[..n + 1] == xs[..n] + [xs[n]]
  {
    assert xs[..n + 1] == xs[..n] + [xs[n]];
  }

  lemma ReverseSet<T(!new)>(xs: seq<T>)
    ensures Elems(Reverse(xs)) == Elems(xs)
  {
    var r := Reverse(xs);
    assert forall i :: 0 <= i < |xs| ==> r[|xs| - 1 - i] == xs[i];
    assert forall x :: x in xs ==> x in r;
  }

  lemma BackingsSnoc(alias: map<SlabId, SlabId>, xs: seq<Slot>, x: Slot)
    ensures Backings(alias, xs + [x]) == Backings(alias, xs) + {Backing(alias, x)}
  {
    assert forall y :: y in xs + [x] <==> y in xs || y == x;
  }

  lemma ElsewhereSplit(c: SizeClass, alias: map<SlabId, SlabId>, xs: seq<Slot>, n: nat)
    requires OkSlots(c, alias, xs) && n < |xs|
    ensures Elsewhere(alias, xs[n], Reverse(xs[..n])) && Elsewhere(alias, xs[n], xs[n + 1..])
    ensures PlacedOk(c, alias, xs[n])
  {
    var r := Reverse(xs[..n]);
    forall i | 0 <= i < |r| ensures Backing(alias, r[i]) != Backing(alias, xs[n]) {
      assert r[i] == xs[n - 1 - i];
    }
  }

  lemma SplitStep(c: SizeClass, alias: map<SlabId, SlabId>, m0: Mem, m: Mem, key: nat, head: nat, local: nat,
                  xs: seq<Slot>, n: nat)
    requires Split(c, alias, m0, m, key, head, local, xs, n) && n < |xs| && OkSlots(c, alias, xs) && key < WORD
    ensures head == Addr(c, xs[n])
    ensures var p := Place(c, alias, xs[n]);
            Split(c, alias, m0, SetLink(m, key, p, head, local), key, GetLink(m, key, p, head), head, xs, n + 1)
  {
    var x := xs[n];
    var p := Place(c, alias, x);
    var m' := SetLink(m, key, p, head, local);
    PopSlot(c, alias, m, key, head, xs[n..]);
    TakeNext(xs, n);
    ElsewhereSplit(c, alias, xs, n);
    PushSlot(c, alias, m, key, local, Reverse(xs[..n]), x);
    SetLinkOnly(c, alias, m, key, x, local);
    ChainOfOnly(c, alias, m, m', key, GetLink(m, key, p, head), xs[n + 1..], {Backing(alias, x)});
    OnlyTrans(c, m0, m, m', Backings(alias, xs[..n]), {Backing(alias, x)});
    BackingsSnoc(alias, xs[..n], x);
  }

  /** The locked loop of refill: up to `want` slots move from the slab's chain to
      a private one, which ends up in reverse order. */
  method PopBatch(c: SizeClass, key: nat, remap: map<nat, nat>, m: Mem, head: nat, want: nat,
                  ghost alias: map<SlabId, SlabId>, ghost xs: seq<Slot>)
    returns (m': Mem, head': nat, local: nat, n: nat)
    requires key < WORD && SlotsMapped(c, remap, alias, xs) && ChainOf(c, alias, m, key, head, xs)
    ensures n == (if want < |xs| then want else |xs|)
    ensures Split(c, alias, m, m', key, head', local, xs, n)
  {
    m', head', local, n := m, head, 0, 0;
    SplitStart(c, alias, m, key, head, xs);
    while n < want && head' != 0
      invariant n <= want && Split(c, alias, m, m', key, head', local, xs, n)
      decreases |xs| - n
    {
      m', head', local := PopOne(c, key, remap, m', head', local, alias, m, xs, n);
      n := n + 1;
    }
    SplitEnd(c, alias, m, m', key, head', local, xs, n);
  }

  method PopOne(c: SizeClass, key: nat, remap: map<nat, nat>, m: Mem, head: nat, local: nat,
                ghost alias: map<SlabId, SlabId>, ghost m0: Mem, ghost xs: seq<Slot>, ghost n: nat)
    returns (m': Mem, head': nat, local': nat)
    requires key < WORD && SlotsMapped(c, remap, alias, xs) && head != 0 && OkSlots(c, alias, xs)
    requires Split(c, alias, m0, m, key, head, local, xs, n)
    ensures n < |xs| && Split(c, alias, m0, m', key, head', local', xs, n + 1)
  {
    SplitEnd(c, alias, m0, m, key, head, local, xs, n);
    SplitStep(c, alias, m0, m, key, head, local, xs, n);
    ElsewhereSplit(c, alias, xs, n);
    TrSlot(c, remap, alias, xs[n]);
    head' := GetLink(m, key, Tr(remap, head), head);
    m' := SetLink(m, key, Tr(remap, head), head, local);
    local' := head;
  }

  lemma SplitStart(c: SizeClass, alias: map<SlabId, SlabId>, m: Mem, key: nat, head: nat, xs: seq<Slot>)
    requires ChainOf(c, alias, m, key, head, xs)
    ensures Split(c, alias, m, m, key, head, 0, xs, 0)
  {
    assert xs[0..] == xs;
  }

  lemma SplitEnd(c: SizeClass, alias: map<SlabId, SlabId>, m0: Mem, m: Mem, key: nat, head: nat, local: nat,
                 xs: seq<Slot>, n: nat)
    requires Split(c, alias, m0, m, key, head, local, xs, n)
    ensures head == 0 <==> n == |xs|
  {
    HeadBound(c, alias, m, key, head, xs[n..]);
  }

  /** After the lock is dropped: the batch's first slot is the result and the rest
      is put in front of the bin's chain by relinking its last slot. */
  method SpliceBatch(c: SizeClass, key: nat, remap: map<nat, nat>, m: Mem, local: nat, n: nat, bin: nat,
                     ghost alias: map<SlabId, SlabId>, ghost b: seq<Slot>, ghost xs: seq<Slot>)
    returns (m': Mem, p: nat, bin': nat)
    requires key < WORD && SlotsMapped(c, remap, alias, b) && n == |b| > 0
    requires ChainOf(c, alias, m, key, local, b) && ChainOf(c, alias, m, key, bin, xs) && Disjoint(alias, b, xs)
    ensures p == Addr(c, b[0]) && ChainOf(c, alias, m', key, bin', b[1..] + xs)
    ensures Only(c, m, m', Backings(alias, b))
  {
    PopSlot(c, alias, m, key, local, b);
    assert PlacedOk(c, alias, b[0]);
    TrSlot(c, remap, alias, b[0]);
    p := local;
    var rest := GetLink(m, key, Tr(remap, local), local);
    if n == 1 {
      assert b[1..] + xs == xs;
      return m, p, bin;
    }
    var tail := rest;
    var i := 1;
    assert tail == Addr(c, b[1..][0]);
    while i < n - 1
      invariant 1 <= i <= n - 1 && tail == Addr(c, b[i])
    {
      LinkAt(c, alias, m, key, local, b, i);
      assert PlacedOk(c, alias, b[i]);
      TrSlot(c, remap, alias, b[i]);
      tail := GetLink(m, key, Tr(remap, tail), tail);
      i := i + 1;
    }
    assert PlacedOk(c, alias, b[i]);
    TrSlot(c, remap, alias, b[i]);
    SpliceRest(c, alias, key, m, rest, bin, b, xs);
    m' := SetLink(m, key, Tr(remap, tail), tail, bin);
    bin' := rest;
  }

  ghost predicate Disjoint(alias: map<SlabId, SlabId>, b: seq<Slot>, xs: seq<Slot>) {
    forall i :: 0 <= i < |b| ==> Elsewhere(alias, b[i], xs)
  }

  lemma SpliceRest(c: SizeClass, alias: map<SlabId, SlabId>, key: nat, m: Mem, head: nat, bin: nat,
                   b: seq<Slot>, xs: seq<Slot>)
    requires key < WORD && |b| > 1 && OkSlots(c, alias, b) && ChainOf(c, alias, m, key, head, b[1..])
    requires ChainOf(c, alias, m, key, bin, xs) && Disjoint(alias, b, xs)
    ensures var x := b[|b| - 1]; var m' := SetLink(m, key, Place(c, alias, x), Addr(c, x), bin);
            ChainOf(c, alias, m', key, head, b[1..] + xs) && Only(c, m, m', Backings(alias, b))
  {
    var k := |b| - 1;
    assert PlacedOk(c, alias, b[k]);
    SetLinkOnly(c, alias, m, key, b[k], bin);
    assert b[k] in b;
    OnlyMore(c, m, SetLink(m, key, Place(c, alias, b[k]), Addr(c, b[k]), bin), {Backing(alias, b[k])},
             Backings(alias, b));
    TailDisjoint(alias, b, xs);
    JoinOk(c, alias, b[1..], xs);
    JoinChain(c, alias, key, m, head, bin, b[1..k], b[k], xs);
  }

  lemma TailDisjoint(alias: map<SlabId, SlabId>, b: seq<Slot>, xs: seq<Slot>)
    requires |b| > 1 && Disjoint(alias, b, xs)
    ensures Disjoint(alias, b[1..], xs) && b[1..] == b[1..|b| - 1] + [b[|b| - 1]]
  {
    forall i | 0 <= i < |b[1..]| ensures Elsewhere(alias, b[1..][i], xs) { assert b[1..][i] == b[i + 1]; }
  }

  lemma JoinChain(c: SizeClass, alias: map<SlabId, SlabId>, key: nat, m: Mem, head: nat, bin: nat,
                  front: seq<Slot>, last: Slot, xs: seq<Slot>)
    requires key < WORD && ChainOf(c, alias, m, key, head, front + [last]) && ChainOf(c, alias, m, key, bin, xs)
    requires Elsewhere(alias, last, xs)
    ensures Chain(SetLink(m, key, Place(c, alias, last), Addr(c, last), bin), key, head,
                  SlotAddrs(c, front + [last] + xs), Places(c, alias, front + [last] + xs))
  {
    FrontOk(c, alias, front, last);
    PlaceApart(c, alias, front, last);
    PlaceApart(c, alias, xs, last);
    HeadBound(c, alias, m, key, bin, xs);
    SlotBounds(c, last);
    AddrsSnoc(c, alias, front, last);
    ChainAppend(m, key, head, SlotAddrs(c, front), Places(c, alias, front), Addr(c, last), Place(c, alias, last),
                bin, SlotAddrs(c, xs), Places(c, alias, xs));
    AddrsConcat(c, alias, front + [last], xs);
  }

  lemma FrontOk(c: SizeClass, alias: map<SlabId, SlabId>, front: seq<Slot>, last: Slot)
    requires OkSlots(c, alias, front + [last])
    ensures OkSlots(c, alias, front) && Elsewhere(alias, last, front) && PlacedOk(c, alias, last)
  {
    var b := front + [last];
    assert forall i :: 0 <= i < |front| ==> front[i] == b[i];
    assert b[|front|] == last;
    assert forall i :: 0 <= i < |front| ==> PlacedOk(c, alias, b[i]);
  }

  lemma JoinOk(c: SizeClass, alias: map<SlabId, SlabId>, b: seq<Slot>, xs: seq<Slot>)
    requires OkSlots(c, alias, b) && OkSlots(c, alias, xs) && Disjoint(alias, b, xs)
    ensures OkSlots(c, alias, b + xs)
  {
    var a := b + xs;
    forall i, j | 0 <= i < j < |a| ensures Backing(alias, a[i]) != Backing(alias, a[j]) {
      if i < |b| <= j { assert Elsewhere(alias, b[i], xs) && a[j] == xs[j - |b|]; }
    }
    forall i | 0 <= i < |a| ensures PlacedOk(c, alias, a[i]) {}
  }
}
