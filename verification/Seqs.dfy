/** Duplicate-free sequences, filtering and the counting argument that
    "all N slots are in this list" rests on. */
module Seqs {

  datatype Option<+T> = None | Some(value: T)

  ghost predicate NoDup<T>(s: seq<T>) {
    forall i, j :: 0 <= i < j < |s| ==> s[i] != s[j]
  }

  function Elems<T>(s: seq<T>): set<T> {
    set x | x in s
  }

  lemma {:induction false} NoDupCard<T>(s: seq<T>)
    requires NoDup(s)
    ensures |Elems(s)| == |s|
  {
    if s == [] {
    } else {
      var t := s[..|s| - 1];
      NoDupCard(t);
      assert Elems(s) == Elems(t) + {s[|s| - 1]};
      assert s[|s| - 1] !in Elems(t);
    }
  }

  // 0, 1, ..., n - 1
  function Iota(n: nat): (s: seq<nat>)
    ensures |s| == n && forall i :: 0 <= i < n ==> s[i] == i
  {
    seq(n, i => i)
  }

  function Below(n: nat): set<nat> {
    Elems(Iota(n))
  }

  lemma BelowIff(n: nat, k: nat)
    ensures k in Below(n) <==> k < n
  {
    if k < n { assert Iota(n)[k] == k; }
  }

  lemma SubsetCard<T>(a: set<T>, b: set<T>)
    requires a <= b
    ensures |a| <= |b|
    ensures |a| == |b| ==> a == b
  {
    assert b == a + (b - a);
  }

  /** A duplicate-free list of numbers below n has at most n entries, and n
      entries only when it lists all of them. */
  lemma Pigeonhole(s: seq<nat>, n: nat)
    requires NoDup(s) && forall i :: 0 <= i < |s| ==> s[i] < n
    ensures |s| <= n
    ensures |s| == n ==> forall k: nat :: k < n ==> k in s
    ensures |s| < n ==> exists k: nat :: k < n && k !in s
  {
    NoDupCard(s);
    NoDupCard(Iota(n));
    forall k: nat ensures k in Below(n) <==> k < n { BelowIff(n, k); }
    SubsetCard(Elems(s), Below(n));
    if |s| == n {
      forall k: nat | k < n ensures k in s { assert k in Below(n); }
    } else {
      assert !(Below(n) <= Elems(s)) by {
        if Below(n) <= Elems(s) { SubsetCard(Below(n), Elems(s)); }
      }
      var k :| k in Below(n) && k !in Elems(s);
    }
  }

  function Total(s: seq<nat>): nat {
    if s == [] then 0 else Total(s[..|s| - 1]) + s[|s| - 1]
  }

  lemma TotalSnoc(s: seq<nat>, n: nat)
    ensures Total(s + [n]) == Total(s) + n
  {
    assert (s + [n])[..|s|] == s;
  }

  function Reverse<T>(s: seq<T>): (r: seq<T>)
    ensures |r| == |s| && forall i :: 0 <= i < |s| ==> r[i] == s[|s| - 1 - i]
  {
    if s == [] then [] else Reverse(s[1..]) + [s[0]]
  }

  // s without the elements of `drop`, in order
  function Without<T(==)>(s: seq<T>, drop: set<T>): (r: seq<T>)
    ensures |r| <= |s|
  {
    if s == [] then []
    else if s[0] in drop then Without(s[1..], drop)
    else [s[0]] + Without(s[1..], drop)
  }

  lemma {:induction false} WithoutElems<T(!new)>(s: seq<T>, drop: set<T>)
    ensures forall x :: x in Without(s, drop) <==> x in s && x !in drop
  {
    if s == [] {
    } else {
      WithoutElems(s[1..], drop);
      assert forall x :: x in s <==> x == s[0] || x in s[1..];
    }
  }

  lemma {:induction false} WithoutNoDup<T(!new)>(s: seq<T>, drop: set<T>)
    requires NoDup(s)
    ensures NoDup(Without(s, drop))
  {
    if s == [] {
    } else {
      WithoutNoDup(s[1..], drop);
      WithoutElems(s[1..], drop);
      assert s[0] !in s[1..];
    }
  }

  lemma {:induction false} WithoutNone<T>(s: seq<T>, drop: set<T>)
    requires forall i :: 0 <= i < |s| ==> s[i] !in drop
    ensures Without(s, drop) == s
  {
    if s == [] {
    } else {
      WithoutNone(s[1..], drop);
      assert s == [s[0]] + s[1..];
    }
  }

  lemma {:induction false} WithoutConcat<T>(s: seq<T>, t: seq<T>, drop: set<T>)
    ensures Without(s + t, drop) == Without(s, drop) + Without(t, drop)
  {
    if s == [] {
      assert s + t == t;
    } else {
      var u := s + t;
      assert u[1..] == s[1..] + t && u[0] == s[0];
      WithoutConcat(s[1..], t, drop);
      if s[0] !in drop {
        assert [s[0]] + (Without(s[1..], drop) + Without(t, drop)) == [s[0]] + Without(s[1..], drop) + Without(t, drop);
      }
    }
  }

  /** Removing one listed element splits the list around it. */
  lemma WithoutOne<T>(s: seq<T>, i: nat)
    requires NoDup(s) && i < |s|
    ensures Without(s, {s[i]}) == s[..i] + s[i + 1..]
  {
    var l, r := s[..i], s[i..];
    assert s == l + r;
    WithoutConcat(l, r, {s[i]});
    WithoutNone(l, {s[i]});
    assert r[0] == s[i] && r[1..] == s[i + 1..];
    WithoutNone(r[1..], {s[i]});
  }

  lemma NoDupPush<T>(x: T, s: seq<T>)
    requires NoDup(s) && x !in s
    ensures NoDup([x] + s)
  {}

  lemma NoDupTail<T>(s: seq<T>)
    requires NoDup(s) && s != []
    ensures NoDup(s[1..]) && s[0] !in s[1..]
  {}

  lemma HasFirst<T(!new)>(s: seq<T>)
    ensures s == [] || exists x :: x in s
  {
    if s != [] { assert s[0] in s; }
  }

  lemma NoDupConcat<T(!new)>(a: seq<T>, b: seq<T>)
    requires NoDup(a) && NoDup(b) && forall x :: !(x in a && x in b)
    ensures NoDup(a + b)
  {
    var c := a + b;
    forall i, j | 0 <= i < j < |c| ensures c[i] != c[j] {
      if i < |a| <= j { assert c[i] in a && c[j] in b; }
    }
  }
}
