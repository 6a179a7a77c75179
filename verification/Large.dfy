/** Large allocations: power-of-two rounding in 64-bit arithmetic, map-and-trim
    placement, and the owner-table entries that let any interior address find
    its object. */
module Large {
  import opened Bits
  import opened Memory
  import opened Geometry

  const HEADER: nat := 32

  // round_up for a = 2^n, as the machine computes it
  function RoundUp(v: nat, n: nat): nat
    requires n <= WORD_BITS
  {
    And((v + Pow2(n) - 1) % WORD, HighMask(n, WORD_BITS))
  }

  lemma RoundUpValue(v: nat, n: nat)
    requires n < WORD_BITS
    ensures var x := (v + Pow2(n) - 1) % WORD; RoundUp(v, n) == x - x % Pow2(n)
  {
    WordIsPow2();
    var x := (v + Pow2(n) - 1) % WORD;
    assert x < WORD;
    MaskAlignsDown(x, n, WORD_BITS);
  }

  lemma AlignDown(x: nat, a: nat)
    requires a > 0
    ensures (x - x % a) % a == 0 && x - a < x - x % a <= x
  {
    var q := x / a;
    assert x - x % a == q * a;
    ModUnique(q * a, a, q, 0);
  }

  /** Without wrap-around, rounding up gives the least multiple not below v. */
  lemma RoundUpExact(v: nat, n: nat)
    requires n < WORD_BITS && v + Pow2(n) - 1 < WORD
    ensures RoundUp(v, n) % Pow2(n) == 0 && v <= RoundUp(v, n) < v + Pow2(n)
  {
    RoundUpValue(v, n);
    var x := v + Pow2(n) - 1;
    ModUnique(x, WORD, 0, x);
    AlignDown(x, Pow2(n));
  }

  // ---- the allocation plan ----

  datatype Plan = Plan(hdr: nat, total: nat, balign: nat, want: nat)

  // alignment = 2^n, raised to at least 16
  function MakePlan(size: nat, n: nat): Plan
    requires n < WORD_BITS
  {
    var k := if n < 4 then 4 else n;
    var hdr := RoundUp(HEADER, k);
    var total := RoundUp((hdr + size) % WORD, PAGE_BITS);
    var balign := if k > CHUNK_BITS then k else CHUNK_BITS;
    Plan(hdr, total, balign, (total + Pow2(balign)) % WORD)
  }

  lemma PageIsPow2()
    ensures Pow2(PAGE_BITS) == PAGE
  {
    assert Pow2(6) == 64;
    Pow2Split(6, 6);
  }

  lemma MultipleOfProduct(x: nat, a: nat, b: nat)
    requires a > 0 && b > 0 && x % (a * b) == 0
    ensures x % a == 0
  {
    var q := x / (a * b);
    assert x == q * (a * b) == (q * b) * a;
    ModUnique(x, a, q * b, 0);
  }

  lemma Pow2Divides(m: nat, n: nat, x: nat)
    requires m <= n && x % Pow2(n) == 0
    ensures x % Pow2(m) == 0
  {
    Pow2Split(m, n - m);
    MultipleOfProduct(x, Pow2(m), Pow2(n - m));
  }

  // The header area is a multiple of the alignment and holds the header.
  lemma HeaderOk(n: nat)
    requires n < WORD_BITS
    ensures var k := if n < 4 then 4 else n;
            var h := RoundUp(HEADER, k);
            HEADER <= h < HEADER + Pow2(k) && h < WORD && h % Pow2(k) == 0 && h % Pow2(n) == 0
  {
    var k := if n < 4 then 4 else n;
    WordIsPow2();
    Pow2Mono(k, 63);
    Pow2Split(1, 63);
    RoundUpExact(HEADER, k);
    Pow2Divides(n, k, RoundUp(HEADER, k));
  }

  /** The object holds the request exactly when computing its mapped length does
      not wrap around 2^64. */
  lemma HoldsRequestIffNoWrap(size: nat, n: nat)
    requires n < WORD_BITS && size < WORD
    ensures var p := MakePlan(size, n); p.total >= p.hdr + size <==> p.hdr + size + PAGE - 1 < WORD
  {
    HeaderOk(n);
    var v := MakePlan(size, n).hdr + size;
    if v + PAGE - 1 < WORD { TotalExact(v); } else { TotalWraps(v); }
  }

  // Neither length wraps.
  predicate NoWrap(size: nat, n: nat)
    requires n < WORD_BITS
  {
    var p := MakePlan(size, n);
    p.hdr + size + PAGE - 1 < WORD && p.total + Pow2(p.balign) < WORD
  }

  // ---- map and trim ----

  datatype Trim = Trim(base: nat, front: nat, back: nat)

  function MakeTrim(p: Plan, raw: nat): Trim
    requires p.balign < WORD_BITS
  {
    var base := RoundUp(raw, p.balign);
    var front := if base >= raw then base - raw else 0;
    Trim(base, front, if p.want >= front + p.total then p.want - front - p.total else 0)
  }

  lemma PlanHeader(size: nat, n: nat)
    requires n < WORD_BITS
    ensures var p := MakePlan(size, n); var k := if n < 4 then 4 else n;
            HEADER <= p.hdr < HEADER + Pow2(k) && p.hdr % Pow2(k) == 0 && p.hdr % Pow2(n) == 0
  {
    HeaderOk(n);
  }

  lemma PlanLengths(size: nat, n: nat)
    requires n < WORD_BITS && NoWrap(size, n)
    ensures var p := MakePlan(size, n);
            && p.want == p.total + Pow2(p.balign)
            && p.hdr + size <= p.total < p.hdr + size + PAGE && p.total % PAGE == 0
  {
    var p := MakePlan(size, n);
    var w := p.total + Pow2(p.balign);
    ModUnique(w, WORD, 0, w);
    TotalExact(p.hdr + size);
  }

  lemma PlanExact(size: nat, n: nat)
    requires n < WORD_BITS && NoWrap(size, n)
    ensures var p := MakePlan(size, n);
            && p.balign == (if n < CHUNK_BITS then CHUNK_BITS else n) && p.balign < WORD_BITS
            && p.want == p.total + Pow2(p.balign) && HEADER <= p.hdr && p.hdr % Pow2(n) == 0
            && p.hdr + size <= p.total < p.hdr + size + PAGE && p.total % PAGE == 0
  {
    PlanHeader(size, n);
    PlanLengths(size, n);
  }

  // The mapped length of an unwrapped request.
  lemma TotalExact(v: nat)
    requires v + PAGE - 1 < WORD
    ensures var t := RoundUp(v % WORD, PAGE_BITS); v <= t < v + PAGE && t % PAGE == 0
  {
    ModUnique(v, WORD, 0, v);
    PageIsPow2();
    RoundUpExact(v, PAGE_BITS);
  }

  // The mapped length of a request whose rounding, or whose sum, wraps.
  lemma TotalWraps(v: nat)
    requires v < 2 * WORD && v + PAGE - 1 >= WORD
    ensures RoundUp(v % WORD, PAGE_BITS) < v
  {
    PageIsPow2();
    var w := v % WORD;
    RoundUpValue(w, PAGE_BITS);
    if v < WORD {
      ModUnique(v, WORD, 0, v);
      ModUnique(v + PAGE - 1, WORD, 1, v + PAGE - 1 - WORD);
    } else {
      ModUnique(v, WORD, 1, v - WORD);
    }
  }

  // r is the least multiple of a that is not below v.
  predicate LeastMultiple(r: nat, v: nat, a: nat) {
    a > 0 && v <= r < v + a && r % a == 0
  }

  // len is the least number of bytes in whole pages that holds `need`.
  predicate LeastPages(len: nat, need: nat) {
    LeastMultiple(len, need, PAGE)
  }

  // Mentioning Gauged(u, n) opens what is known of a place; proofs that only pass it on do without.
  ghost predicate Gauged(u: nat, n: nat) { true }

  // An object of `len` bytes at b, its user pointer `off` bytes on, in a mapping at raw: the first
  // aligned base, the first aligned offset after the header, the least number of pages.
  ghost predicate LeastPlace(size: nat, n: nat, raw: nat, b: nat, len: nat, off: nat) {
    forall u: nat {:trigger Gauged(u, n)} :: Gauged(u, n) ==>
      && LeastMultiple(b, raw, Pow2(if n < CHUNK_BITS then CHUNK_BITS else n))
      && LeastMultiple(off, HEADER, Pow2(if n < 4 then 4 else n))
      && LeastPages(len, off + size) && (b + off) % Pow2(n) == 0
  }

  lemma PointerAligned(base: nat, off: nat, n: nat, k: nat)
    requires n <= k && base % Pow2(k) == 0 && off % Pow2(n) == 0
    ensures (base + off) % Pow2(n) == 0
  {
    Pow2Divides(n, k, base);
    ModAdd(base, off, Pow2(n));
  }

  lemma Gauges(size: nat, n: nat, raw: nat, b: nat, len: nat, off: nat, k: nat)
    requires k == (if n < CHUNK_BITS then CHUNK_BITS else n) && LeastMultiple(b, raw, Pow2(k))
    requires LeastMultiple(off, HEADER, Pow2(if n < 4 then 4 else n)) && off % Pow2(n) == 0
    requires LeastPages(len, off + size)
    ensures LeastPlace(size, n, raw, b, len, off)
  {
    PointerAligned(b, off, n, k);
  }

  lemma PlanPlace(size: nat, n: nat, raw: nat)
    requires n < WORD_BITS && NoWrap(size, n)
    requires raw + MakePlan(size, n).want <= WORD
    ensures var p := MakePlan(size, n); p.balign < WORD_BITS
    ensures var p := MakePlan(size, n); var b := RoundUp(raw, p.balign);
            raw <= b < raw + Pow2(p.balign) && LeastPlace(size, n, raw, b, p.total, p.hdr)
  {
    var p := MakePlan(size, n);
    PlanExact(size, n);
    PlanHeader(size, n);
    RoundUpExact(raw, p.balign);
    Gauges(size, n, raw, RoundUp(raw, p.balign), p.total, p.hdr, p.balign);
  }

  /** The trim keeps exactly the object: front, object and back make up the whole
      mapping, base, offset and length are the least possible, and the user pointer
      has the requested alignment. */
  lemma TrimConserves(size: nat, n: nat, raw: nat)
    requires n < WORD_BITS && NoWrap(size, n)
    requires raw + MakePlan(size, n).want <= WORD
    ensures var p := MakePlan(size, n); p.balign < WORD_BITS
    ensures var p := MakePlan(size, n); var t := MakeTrim(p, raw);
            && t.front + p.total + t.back == p.want
            && t.base == raw + t.front && LeastPlace(size, n, raw, t.base, p.total, p.hdr)
  {
    PlanExact(size, n);
    PlanPlace(size, n, raw);
  }

  lemma ModAdd(a: nat, b: nat, d: nat)
    requires d > 0 && a % d == 0 && b % d == 0
    ensures (a + b) % d == 0
  {
    assert a + b == (a / d + b / d) * d;
    ModUnique(a + b, d, a / d + b / d, 0);
  }
}
