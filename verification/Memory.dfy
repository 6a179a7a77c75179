/** Byte-addressed memory, little-endian words, and the encoded links that
    thread free slots together. A byte with no entry reads as zero, the way a
    fresh or discarded anonymous page does. */
module Memory {
  import opened Bits

  type Byte = b: nat | b < 256
  type Mem = map<nat, Byte>

  const LINK: nat := 8          // bytes of one link word
  const PAGE_BITS: nat := 12
  const PAGE: nat := 4096

  function Load(m: Mem, a: nat): Byte {
    if a in m then m[a] else 0
  }

  predicate SameOn(m: Mem, n: Mem, a: nat, len: nat) {
    forall i :: a <= i < a + len ==> Load(m, i) == Load(n, i)
  }

  // m' is m with n bytes at `src` copied to `dst`.
  ghost predicate Copied(m: Mem, m': Mem, dst: nat, src: nat, n: nat) {
    forall a: nat {:trigger Load(m', a)} :: Load(m', a) == if dst <= a < dst + n then Load(m, a - dst + src)
      else Load(m, a)
  }

  lemma CopiedStep(m: Mem, m1: Mem, dst: nat, src: nat, n: nat, i: nat)
    requires i < n && (dst + n <= src || src + n <= dst) && Copied(m, m1, dst, src, i)
    ensures Copied(m, m1[dst + i := Load(m1, src + i)], dst, src, i + 1)
  {
    var m2 := m1[dst + i := Load(m1, src + i)];
    forall a: nat ensures Load(m2, a) == if dst <= a < dst + i + 1 then Load(m, a - dst + src) else Load(m, a) {
      assert Load(m1, a) == if dst <= a < dst + i then Load(m, a - dst + src) else Load(m, a);
    }
  }

  // m' is m with n bytes at p zeroed.
  ghost predicate Zeroed(m: Mem, m': Mem, p: nat, n: nat) {
    forall a: nat {:trigger Load(m', a)} :: Load(m', a) == if p <= a < p + n then 0 else Load(m, a)
  }

  lemma ZeroedStep(m: Mem, m1: Mem, p: nat, i: nat)
    requires Zeroed(m, m1, p, i)
    ensures Zeroed(m, m1[p + i := 0], p, i + 1)
  {
    var m2 := m1[p + i := 0];
    forall a: nat ensures Load(m2, a) == if p <= a < p + i + 1 then 0 else Load(m, a) {
      assert Load(m1, a) == if p <= a < p + i then 0 else Load(m, a);
    }
  }

  function LoadLE(m: Mem, a: nat, n: nat): nat
    decreases n, m
  {
    if n == 0 then 0 else Load(m, a) + 256 * LoadLE(m, a + 1, n - 1)
  }

  function StoreLE(m: Mem, a: nat, n: nat, w: nat): Mem
    decreases n, m
  {
    if n == 0 then m else StoreLE(m[a := w % 256], a + 1, n - 1, w / 256)
  }

  lemma {:induction false} StoreFrame(m: Mem, a: nat, n: nat, w: nat, i: nat)
    requires !(a <= i < a + n)
    ensures Load(StoreLE(m, a, n, w), i) == Load(m, i)
    decreases n
  {
    if n == 0 {
    } else {
      StoreFrame(m[a := w % 256], a + 1, n - 1, w / 256, i);
    }
  }

  lemma {:induction false} LoadSame(m: Mem, m': Mem, a: nat, n: nat)
    requires SameOn(m, m', a, n)
    ensures LoadLE(m, a, n) == LoadLE(m', a, n)
    decreases n
  {
    if n == 0 {
    } else {
      LoadSame(m, m', a + 1, n - 1);
    }
  }

  lemma {:induction false} LoadAfterStore(m: Mem, a: nat, n: nat, w: nat)
    requires w < Pow2(8 * n)
    ensures LoadLE(StoreLE(m, a, n, w), a, n) == w
    decreases n
  {
    if n == 0 {
    } else {
      var m1 := m[a := w % 256];
      Pow2Split(8, 8 * (n - 1));
      assert w / 256 < Pow2(8 * (n - 1)) by { assert Pow2(8) == 256; }
      LoadAfterStore(m1, a + 1, n - 1, w / 256);
      StoreFrame(m1, a + 1, n - 1, w / 256, a);
    }
  }

  // ---- encoded links ----

  function Encode(key: nat, slot: nat, next: nat): nat {
    Xor(Xor(next, key), slot / PAGE)
  }

  // The link word of a slot is stored at `at`: the slot itself, unless the page
  // it lies on has been remapped.

  // btm_fl_get
  function GetLink(m: Mem, key: nat, at: nat, slot: nat): nat {
    Xor(Xor(LoadLE(m, at, LINK), key), slot / PAGE)
  }

  // btm_fl_set
  function SetLink(m: Mem, key: nat, at: nat, slot: nat, next: nat): Mem {
    StoreLE(m, at, LINK, Encode(key, slot, next))
  }

  /** A link reads back as it was written, whatever the key. */
  lemma LinkRoundTrip(m: Mem, key: nat, at: nat, slot: nat, next: nat)
    requires key < WORD && slot < WORD && next < WORD
    ensures GetLink(SetLink(m, key, at, slot, next), key, at, slot) == next
  {
    WordIsPow2();
    XorBound(next, key, 64);
    XorBound(Xor(next, key), slot / PAGE, 64);
    LoadAfterStore(m, at, LINK, Encode(key, slot, next));
    XorTwiceCancels(next, key, slot / PAGE);
  }

  lemma SetLinkFrame(m: Mem, key: nat, at: nat, slot: nat, next: nat, i: nat)
    requires !(at <= i < at + LINK)
    ensures Load(SetLink(m, key, at, slot, next), i) == Load(m, i)
  {
    StoreFrame(m, at, LINK, Encode(key, slot, next), i);
  }

  /** A link other than the written one is untouched. */
  lemma LinkFrame(m: Mem, key: nat, at: nat, slot: nat, next: nat, at2: nat, slot2: nat)
    requires Sep(at2, at)
    ensures GetLink(SetLink(m, key, at, slot, next), key, at2, slot2) == GetLink(m, key, at2, slot2)
  {
    forall i | at2 <= i < at2 + LINK
      ensures Load(SetLink(m, key, at, slot, next), i) == Load(m, i)
    { SetLinkFrame(m, key, at, slot, next, i); }
    LoadSame(SetLink(m, key, at, slot, next), m, at2, LINK);
  }

  // ---- chains of free slots ----

  function At(slots: seq<nat>, i: nat): nat {
    if i < |slots| then slots[i] else 0
  }

  /** Following decoded links from `head` visits exactly `slots`, whose link words
      are stored at `ats`, then ends. */
  ghost predicate Chain(m: Mem, key: nat, head: nat, slots: seq<nat>, ats: seq<nat>) {
    && |ats| == |slots| && head == At(slots, 0)
    && forall i: nat :: i < |slots| ==> slots[i] != 0 && GetLink(m, key, ats[i], slots[i]) == At(slots, i + 1)
  }

  // The link words at a and b do not overlap.
  predicate Sep(a: nat, b: nat) {
    a + LINK <= b || b + LINK <= a
  }

  ghost predicate Apart(at: nat, ats: seq<nat>) {
    forall i :: 0 <= i < |ats| ==> Sep(ats[i], at)
  }

  ghost predicate SameLinks(m: Mem, m': Mem, key: nat, slots: seq<nat>, ats: seq<nat>) {
    |ats| == |slots| && forall i :: 0 <= i < |slots| ==>
      GetLink(m', key, ats[i], slots[i]) == GetLink(m, key, ats[i], slots[i])
  }

  lemma LinksKept(m: Mem, key: nat, at: nat, slot: nat, next: nat, slots: seq<nat>, ats: seq<nat>)
    requires Apart(at, ats) && |ats| == |slots|
    ensures SameLinks(m, SetLink(m, key, at, slot, next), key, slots, ats)
  {
    forall i | 0 <= i < |slots|
      ensures GetLink(SetLink(m, key, at, slot, next), key, ats[i], slots[i]) == GetLink(m, key, ats[i], slots[i])
    { LinkFrame(m, key, at, slot, next, ats[i], slots[i]); }
  }

  /** Pushing a slot in front of a chain. */
  lemma ChainPush(m: Mem, key: nat, at: nat, slot: nat, head: nat, slots: seq<nat>, ats: seq<nat>)
    requires Chain(m, key, head, slots, ats) && Apart(at, ats)
    requires key < WORD && 0 < slot < WORD && head < WORD
    ensures Chain(SetLink(m, key, at, slot, head), key, slot, [slot] + slots, [at] + ats)
  {
    LinksKept(m, key, at, slot, head, slots, ats);
    LinkRoundTrip(m, key, at, slot, head);
    var all, as' := [slot] + slots, [at] + ats;
    forall i: nat | i < |all|
      ensures all[i] != 0 && GetLink(SetLink(m, key, at, slot, head), key, as'[i], all[i]) == At(all, i + 1)
    {
      if i > 0 { assert all[i] == slots[i - 1] && as'[i] == ats[i - 1]; }
    }
  }

  /** Popping the first slot of a chain. */
  lemma ChainPop(m: Mem, key: nat, head: nat, slots: seq<nat>, ats: seq<nat>)
    requires Chain(m, key, head, slots, ats) && slots != []
    ensures head == slots[0] && Chain(m, key, GetLink(m, key, ats[0], head), slots[1..], ats[1..])
  {
    forall i: nat | i < |slots[1..]|
      ensures slots[1..][i] != 0 && GetLink(m, key, ats[1..][i], slots[1..][i]) == At(slots[1..], i + 1)
    { assert slots[1..][i] == slots[i + 1] && ats[1..][i] == ats[i + 1]; }
  }

  /** Redirecting the last link of one chain to the head of another joins them. */
  lemma ChainAppend(m: Mem, key: nat, head: nat, s: seq<nat>, sa: seq<nat>, last: nat, at: nat,
                    head2: nat, t: seq<nat>, ta: seq<nat>)
    requires |sa| == |s| && Chain(m, key, head, s + [last], sa + [at]) && Chain(m, key, head2, t, ta)
    requires Apart(at, sa) && Apart(at, ta)
    requires key < WORD && last < WORD && head2 < WORD
    ensures Chain(SetLink(m, key, at, last, head2), key, head, s + [last] + t, sa + [at] + ta)
  {
    var m', all, as' := SetLink(m, key, at, last, head2), s + [last] + t, sa + [at] + ta;
    LinksKept(m, key, at, last, head2, s, sa);
    LinksKept(m, key, at, last, head2, t, ta);
    LinkRoundTrip(m, key, at, last, head2);
    forall i: nat | i < |all| ensures all[i] != 0 && GetLink(m', key, as'[i], all[i]) == At(all, i + 1) {
      if i < |s| {
        AppendBefore(m, m', key, head, s, sa, last, at, t, ta, i);
      } else if i == |s| {
        AppendAt(m, m', key, head, s, sa, last, at, head2, t, ta);
      } else {
        AppendAfter(m, m', key, s + [last], sa + [at], head2, t, ta, i);
      }
    }
  }

  lemma AppendBefore(m: Mem, m': Mem, key: nat, head: nat, s: seq<nat>, sa: seq<nat>, last: nat, at: nat,
                     t: seq<nat>, ta: seq<nat>, i: nat)
    requires |sa| == |s| && Chain(m, key, head, s + [last], sa + [at]) && |ta| == |t|
    requires SameLinks(m, m', key, s, sa) && i < |s|
    ensures var all, as' := s + [last] + t, sa + [at] + ta;
            all[i] != 0 && GetLink(m', key, as'[i], all[i]) == At(all, i + 1)
  {
    var all, as' := s + [last] + t, sa + [at] + ta;
    assert all[i] == s[i] == (s + [last])[i] && as'[i] == sa[i] == (sa + [at])[i];
    assert all[i + 1] == (s + [last])[i + 1];
  }

  lemma AppendAt(m: Mem, m': Mem, key: nat, head: nat, s: seq<nat>, sa: seq<nat>, last: nat, at: nat, head2: nat,
                 t: seq<nat>, ta: seq<nat>)
    requires |sa| == |s| && Chain(m, key, head, s + [last], sa + [at]) && Chain(m, key, head2, t, ta)
    requires GetLink(m', key, at, last) == head2
    ensures var all, as' := s + [last] + t, sa + [at] + ta;
            all[|s|] != 0 && GetLink(m', key, as'[|s|], all[|s|]) == At(all, |s| + 1)
  {
    assert (s + [last])[|s|] == last;
  }

  lemma AppendAfter(m: Mem, m': Mem, key: nat, p: seq<nat>, pa: seq<nat>, head2: nat, t: seq<nat>, ta: seq<nat>, i: nat)
    requires |pa| == |p| && Chain(m, key, head2, t, ta) && SameLinks(m, m', key, t, ta) && |p| <= i < |p| + |t|
    ensures (p + t)[i] != 0 && GetLink(m', key, (pa + ta)[i], (p + t)[i]) == At(p + t, i + 1)
  {
    assert (p + t)[i] == t[i - |p|] && (pa + ta)[i] == ta[i - |p|];
    AtAfter(p, t, i - |p| + 1);
  }

  lemma AtAfter(a: seq<nat>, t: seq<nat>, i: nat)
    ensures At(a + t, |a| + i) == At(t, i)
  {}

  // ---- page remapping ----

  // Where the page map sends a virtual address; a page with no entry is backed by itself.
  function Tr(remap: map<nat, nat>, a: nat): nat {
    if a / PAGE in remap then remap[a / PAGE] * PAGE + a % PAGE else a
  }
}
