/** Unsigned machine words as naturals, with the bitwise operators of the
    allocator (`&`, `|`, `^`, `& ~`) defined bit by bit. */
module Bits {

  const WORD_BITS: nat := 64
  const WORD: nat := 0x1_0000_0000_0000_0000

  function Min(a: nat, b: nat): nat {
    if a < b then a else b
  }

  function Pow2(n: nat): (p: nat)
    ensures p > 0
  {
    if n == 0 then 1 else 2 * Pow2(n - 1)
  }

  predicate Bit(x: nat, i: nat) {
    if i == 0 then x % 2 == 1 else Bit(x / 2, i - 1)
  }

  function And(x: nat, y: nat): nat {
    if x == 0 then 0 else (x % 2) * (y % 2) + 2 * And(x / 2, y / 2)
  }

  function Or(x: nat, y: nat): nat
    decreases x + y
  {
    if x == 0 && y == 0 then 0
    else (if x % 2 == 1 || y % 2 == 1 then 1 else 0) + 2 * Or(x / 2, y / 2)
  }

  function Xor(x: nat, y: nat): nat
    decreases x + y
  {
    if x == 0 && y == 0 then 0
    else (x + y) % 2 + 2 * Xor(x / 2, y / 2)
  }

  // x & ~y
  function AndNot(x: nat, y: nat): nat {
    if x == 0 then 0
    else (if x % 2 == 1 && y % 2 == 0 then 1 else 0) + 2 * AndNot(x / 2, y / 2)
  }

  lemma {:induction false} BitOfZero(i: nat)
    ensures !Bit(0, i)
  {
    if i == 0 {
    } else {
      BitOfZero(i - 1);
    }
  }

  lemma {:induction false} BitOfAnd(x: nat, y: nat, i: nat)
    ensures Bit(And(x, y), i) == (Bit(x, i) && Bit(y, i))
  {
    if x == 0 { BitOfZero(i); }
    else if i > 0 { BitOfAnd(x / 2, y / 2, i - 1); }
  }

  lemma {:induction false} BitOfOr(x: nat, y: nat, i: nat)
    ensures Bit(Or(x, y), i) == (Bit(x, i) || Bit(y, i))
  {
    if x == 0 && y == 0 { BitOfZero(i); }
    else if i > 0 { BitOfOr(x / 2, y / 2, i - 1); }
  }

  lemma {:induction false} BitOfAndNot(x: nat, y: nat, i: nat)
    ensures Bit(AndNot(x, y), i) == (Bit(x, i) && !Bit(y, i))
  {
    if x == 0 { BitOfZero(i); }
    else if i > 0 { BitOfAndNot(x / 2, y / 2, i - 1); }
  }

  lemma {:induction false} BitOfPow2(n: nat, i: nat)
    ensures Bit(Pow2(n), i) == (i == n)
  {
    if n == 0 {
      if i > 0 { BitOfZero(i - 1); }
    } else if i > 0 {
      BitOfPow2(n - 1, i - 1);
    }
  }

  lemma {:induction false} NonzeroHasBit(x: nat) returns (i: nat)
    requires x != 0
    ensures Bit(x, i)
  {
    if x % 2 == 1 {
      i := 0;
    } else {
      var j := NonzeroHasBit(x / 2);
      i := j + 1;
    }
  }

  ghost predicate BothSet(x: nat, y: nat, i: nat) {
    Bit(x, i) && Bit(y, i)
  }

  /** Two words have a zero conjunction exactly when no bit is set in both. */
  lemma AndZeroIffDisjoint(x: nat, y: nat)
    ensures And(x, y) == 0 <==> forall i: nat :: !BothSet(x, y, i)
  {
    forall i: nat ensures BothSet(x, y, i) == Bit(And(x, y), i) { BitOfAnd(x, y, i); }
    if And(x, y) == 0 {
      forall i: nat ensures !Bit(0, i) { BitOfZero(i); }
    } else {
      var i := NonzeroHasBit(And(x, y));
      assert BothSet(x, y, i);
    }
  }

  /** Encoding with a key and a second mask, then decoding in the same order,
      is the identity. */
  lemma {:induction false} XorTwiceCancels(n: nat, k: nat, p: nat)
    ensures Xor(Xor(Xor(Xor(n, k), p), k), p) == n
    decreases n + k + p
  {
    if n == 0 && k == 0 && p == 0 {
    } else {
      XorTwiceCancels(n / 2, k / 2, p / 2);
      var a := Xor(n, k);
      var b := Xor(a, p);
      var c := Xor(b, k);
      XorHalves(n, k, p, a, b, c, Xor(c, p));
    }
  }

  lemma XorHalves(n: nat, k: nat, p: nat, a: nat, b: nat, c: nat, d: nat)
    requires a == Xor(n, k) && b == Xor(a, p) && c == Xor(b, k) && d == Xor(c, p)
    ensures d / 2 == Xor(Xor(Xor(Xor(n / 2, k / 2), p / 2), k / 2), p / 2) && d % 2 == n % 2
  {
    XorStep(n, k);
    XorStep(a, p);
    XorStep(b, k);
    XorStep(c, p);
    ParityCancels(n, k, p, a, b, c);
  }

  lemma ParityCancels(n: nat, k: nat, p: nat, a: nat, b: nat, c: nat)
    requires a % 2 == (n + k) % 2 && b % 2 == (a + p) % 2 && c % 2 == (b + k) % 2
    ensures (c + p) % 2 == n % 2
  {}

  lemma {:induction false} XorStep(x: nat, y: nat)
    ensures Xor(x, y) % 2 == (x + y) % 2
    ensures Xor(x, y) / 2 == Xor(x / 2, y / 2)
  {
    var h := Xor(x / 2, y / 2);
    if x == 0 && y == 0 {
      assert Xor(0, 0) == 0;
    } else {
      assert Xor(x, y) == (x + y) % 2 + 2 * h;
      LowBit((x + y) % 2, h);
    }
  }

  lemma LowBit(r: nat, h: nat)
    requires r < 2
    ensures (r + 2 * h) % 2 == r && (r + 2 * h) / 2 == h
  {}

  lemma {:induction false} XorBound(x: nat, y: nat, n: nat)
    requires x < Pow2(n) && y < Pow2(n)
    ensures Xor(x, y) < Pow2(n)
  {
    if n == 0 {
    } else {
      XorBound(x / 2, y / 2, n - 1);
    }
  }

  lemma {:induction false} Pow2Mono(m: nat, n: nat)
    requires m <= n
    ensures Pow2(m) <= Pow2(n)
  {
    if m == n {
    } else {
      Pow2Mono(m, n - 1);
    }
  }

  lemma {:induction false} Pow2Split(m: nat, n: nat)
    ensures Pow2(m + n) == Pow2(m) * Pow2(n)
  {
    if m == 0 {
    } else {
      Pow2Split(m - 1, n);
    }
  }

  lemma {:induction false} DivModTwice(x: nat, a: nat)
    requires a > 0
    ensures x % (2 * a) == x % 2 + 2 * ((x / 2) % a)
  {
    var q, r := (x / 2) / a, (x / 2) % a;
    assert x == q * (2 * a) + (x % 2 + 2 * r);
    ModUnique(x, 2 * a, q, x % 2 + 2 * r);
  }

  lemma MulAtLeast(a: int, d: nat)
    ensures a >= 1 ==> a * d >= d
    ensures a <= -1 ==> a * d + d <= 0
  {}

  /** Quotient and remainder are unique. */
  lemma ModUnique(x: nat, d: nat, q: nat, r: nat)
    requires d > 0 && r < d && x == q * d + r
    ensures x % d == r && x / d == q
  {
    var e := x / d - q;
    assert e * d == r - x % d by {
      assert x == (x / d) * d + x % d;
      assert (x / d) * d == (e + q) * d == e * d + q * d;
    }
    MulAtLeast(e, d);
  }

  /** Masking with 2^n - 1 keeps the remainder modulo 2^n. */
  lemma {:induction false} MaskIsMod(x: nat, n: nat)
    ensures And(x, Pow2(n) - 1) == x % Pow2(n)
  {
    if x != 0 && n > 0 {
      MaskIsMod(x / 2, n - 1);
      DivModTwice(x, Pow2(n - 1));
      assert (Pow2(n) - 1) / 2 == Pow2(n - 1) - 1;
      assert (Pow2(n) - 1) % 2 == 1;
    } else if x != 0 {
      AndWithZero(x);
    }
  }

  lemma {:induction false} AndWithZero(x: nat)
    ensures And(x, 0) == 0
  {
    if x == 0 {
    } else {
      AndWithZero(x / 2);
    }
  }

  // The w-bit mask ~(2^n - 1).
  function HighMask(n: nat, w: nat): (m: nat)
    requires n <= w
    ensures m == Pow2(w) - Pow2(n)
  {
    Pow2Mono(n, w);
    Pow2(w) - Pow2(n)
  }

  lemma {:induction false} AndDoubled(x: nat, h: nat)
    ensures And(x, 2 * h) == 2 * And(x / 2, h)
  {
    assert (2 * h) % 2 == 0 && (2 * h) / 2 == h;
  }

  /** In w-bit arithmetic, `x & ~(2^n - 1)` rounds down to a multiple of 2^n. */
  lemma {:induction false} MaskAlignsDown(x: nat, n: nat, w: nat)
    requires n <= w && x < Pow2(w)
    ensures And(x, HighMask(n, w)) == x - x % Pow2(n)
  {
    if n == 0 {
      MaskIsMod(x, w);
      ModUnique(x, Pow2(w), 0, x);
    } else if x != 0 {
      var a := Pow2(n - 1);
      assert HighMask(n, w) == 2 * HighMask(n - 1, w - 1);
      MaskAlignsDown(x / 2, n - 1, w - 1);
      AndDoubled(x, HighMask(n - 1, w - 1));
      AlignDownStep(x, a);
    }
  }

  lemma AlignDownStep(x: nat, a: nat)
    requires a > 0
    ensures x - x % (2 * a) == 2 * (x / 2 - (x / 2) % a)
  {
    DivModTwice(x, a);
  }

  lemma WordIsPow2()
    ensures Pow2(WORD_BITS) == WORD
  {
    assert Pow2(8) == 256;
    Pow2Split(8, 8);
    assert Pow2(16) == 0x1_0000;
    Pow2Split(16, 16);
    assert Pow2(32) == 0x1_0000_0000;
    Pow2Split(32, 32);
  }
}
