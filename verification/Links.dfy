/** Intrusive linked lists: nodes hold next and prev references, heads are held
    by the pool. A list is related to the sequence of nodes it visits. */
module Links {
  import opened Seqs

  datatype Link<T> = Link(next: Option<T>, prev: Option<T>)

  function At<T>(s: seq<T>, i: int): Option<T> {
    if 0 <= i < |s| then Some(s[i]) else None
  }

  /** Following `next` from the head visits exactly s. */
  ghost predicate SList<T(!new)>(l: map<T, Link<T>>, head: Option<T>, s: seq<T>) {
    && NoDup(s) && head == At(s, 0)
    && forall i :: 0 <= i < |s| ==> s[i] in l && l[s[i]].next == At(s, i + 1)
  }

  /** ... and `prev` leads back. */
  ghost predicate DList<T(!new)>(l: map<T, Link<T>>, head: Option<T>, s: seq<T>) {
    && SList(l, head, s)
    && forall i :: 0 <= i < |s| ==> l[s[i]].prev == At(s, i - 1)
  }

  ghost predicate SameOff<T(!new)>(l: map<T, Link<T>>, l': map<T, Link<T>>, s: seq<T>) {
    forall x :: x in l && x !in s ==> x in l' && l'[x] == l[x]
  }

  // Lists over nodes that did not change are still lists.
  lemma SListFrame<T(!new)>(l: map<T, Link<T>>, l': map<T, Link<T>>, head: Option<T>, s: seq<T>)
    requires SList(l, head, s) && forall x :: x in s ==> x in l' && l'[x] == l[x]
    ensures SList(l', head, s)
    ensures DList(l, head, s) ==> DList(l', head, s)
  {}

  // partial_push, and the chunk list's push
  function PushD<T>(l: map<T, Link<T>>, head: Option<T>, x: T): map<T, Link<T>>
    requires head.Some? ==> head.value in l
  {
    var l1 := l[x := Link(head, None)];
    if head.Some? then l1[head.value := l1[head.value].(prev := Some(x))] else l1
  }

  lemma PushDList<T(!new)>(l: map<T, Link<T>>, head: Option<T>, s: seq<T>, x: T)
    requires DList(l, head, s) && x !in s
    ensures DList(PushD(l, head, x), Some(x), [x] + s)
    ensures SameOff(l, PushD(l, head, x), [x] + s) && PushD(l, head, x).Keys == l.Keys + {x}
  {
    var l', s' := PushD(l, head, x), [x] + s;
    forall i | 0 <= i < |s'|
      ensures s'[i] in l' && l'[s'[i]].next == At(s', i + 1) && l'[s'[i]].prev == At(s', i - 1)
    {
      if i > 0 { assert s'[i] == s[i - 1]; }
    }
  }

  // partial_remove, and chunk_unlink
  function RemoveD<T>(l: map<T, Link<T>>, x: T): map<T, Link<T>>
    requires x in l && (l[x].prev.Some? ==> l[x].prev.value in l) && (l[x].next.Some? ==> l[x].next.value in l)
  {
    var e := l[x];
    var l1 := if e.prev.Some? then l[e.prev.value := l[e.prev.value].(next := e.next)] else l;
    var l2 := if e.next.Some? then l1[e.next.value := l1[e.next.value].(prev := e.prev)] else l1;
    l2[x := Link(None, None)]
  }

  function HeadAfter<T>(l: map<T, Link<T>>, head: Option<T>, x: T): Option<T>
    requires x in l
  {
    if l[x].prev.Some? then head else l[x].next
  }

  lemma Neighbours<T(!new)>(l: map<T, Link<T>>, head: Option<T>, s: seq<T>, i: nat)
    requires DList(l, head, s) && i < |s|
    ensures var x := s[i];
            && x in l && l[x].prev == At(s, i - 1) && l[x].next == At(s, i + 1)
            && (l[x].prev.Some? ==> l[x].prev.value in l && l[x].prev.value != x)
            && (l[x].next.Some? ==> l[x].next.value in l && l[x].next.value != x)
  {}

  lemma RemoveDAt<T(!new)>(l: map<T, Link<T>>, head: Option<T>, s: seq<T>, i: nat, k: nat)
    requires DList(l, head, s) && i < |s| && k < |s| && k != i
    ensures var x := s[i]; (l[x].prev.Some? ==> l[x].prev.value in l) && (l[x].next.Some? ==> l[x].next.value in l)
    ensures var l' := RemoveD(l, s[i]);
            && s[k] in l'
            && l'[s[k]].next == (if k + 1 == i then At(s, i + 1) else At(s, k + 1))
            && l'[s[k]].prev == (if k == i + 1 then At(s, i - 1) else At(s, k - 1))
  {
    Neighbours(l, head, s, i);
    Neighbours(l, head, s, k);
  }

  lemma RemoveDFrame<T(!new)>(l: map<T, Link<T>>, head: Option<T>, s: seq<T>, i: nat)
    requires DList(l, head, s) && i < |s|
    ensures var x := s[i];
            && (l[x].prev.Some? ==> l[x].prev.value in l) && (l[x].next.Some? ==> l[x].next.value in l)
    ensures SameOff(l, RemoveD(l, s[i]), s) && RemoveD(l, s[i]).Keys == l.Keys
  {
    Neighbours(l, head, s, i);
  }

  lemma CutNoDup<T(!new)>(s: seq<T>, i: nat)
    requires NoDup(s) && i < |s|
    ensures NoDup(s[..i] + s[i + 1..])
  {
    var t := s[..i] + s[i + 1..];
    forall j, k | 0 <= j < k < |t| ensures t[j] != t[k] {
      assert t[j] == s[if j < i then j else j + 1] && t[k] == s[if k < i then k else k + 1];
    }
  }

  lemma CutAt<T(!new)>(s: seq<T>, i: nat, j: int)
    requires i < |s|
    ensures At(s[..i] + s[i + 1..], j) == if j < i then At(s, j) else At(s, j + 1)
  {}

  lemma RemoveDList<T(!new)>(l: map<T, Link<T>>, head: Option<T>, s: seq<T>, i: nat)
    requires DList(l, head, s) && i < |s|
    ensures var x := s[i];
            && (l[x].prev.Some? ==> l[x].prev.value in l) && (l[x].next.Some? ==> l[x].next.value in l)
    ensures var x := s[i]; DList(RemoveD(l, x), HeadAfter(l, head, x), s[..i] + s[i + 1..])
  {
    Neighbours(l, head, s, i);
    CutNoDup(s, i);
    var l', s' := RemoveD(l, s[i]), s[..i] + s[i + 1..];
    forall j | 0 <= j < |s'|
      ensures s'[j] in l' && l'[s'[j]].next == At(s', j + 1) && l'[s'[j]].prev == At(s', j - 1)
    {
      var k := if j < i then j else j + 1;
      RemoveDAt(l, head, s, i, k);
      CutAt(s, i, j - 1);
      CutAt(s, i, j);
      CutAt(s, i, j + 1);
    }
    CutAt(s, i, 0);
  }

  /** Unlinking a node that is on no list clobbers the head: the list is lost. */
  lemma RemoveUnlisted<T(!new)>(l: map<T, Link<T>>, head: Option<T>, s: seq<T>, x: T)
    requires DList(l, head, s) && x in l && x !in s && l[x] == Link(None, None)
    ensures DList(RemoveD(l, x), HeadAfter(l, head, x), s) <==> s == []
  {
    if s != [] { assert head == Some(s[0]); }
  }

  // pushing on an empty list sets only `next`
  function PushS<T>(l: map<T, Link<T>>, head: Option<T>, x: T): map<T, Link<T>>
    requires x in l
  {
    l[x := l[x].(next := head)]
  }

  lemma PushSList<T(!new)>(l: map<T, Link<T>>, head: Option<T>, s: seq<T>, x: T)
    requires SList(l, head, s) && x in l && x !in s
    ensures SList(PushS(l, head, x), Some(x), [x] + s)
  {
    var l', s' := PushS(l, head, x), [x] + s;
    forall i | 0 <= i < |s'| ensures s'[i] in l' && l'[s'[i]].next == At(s', i + 1) {
      if i > 0 { assert s'[i] == s[i - 1]; }
    }
  }

  lemma PopSList<T(!new)>(l: map<T, Link<T>>, head: Option<T>, s: seq<T>)
    requires SList(l, head, s) && s != []
    ensures head == Some(s[0]) && s[0] in l && SList(l, l[s[0]].next, s[1..])
  {
    var t := s[1..];
    forall i | 0 <= i < |t| ensures t[i] in l && l[t[i]].next == At(t, i + 1) {
      assert t[i] == s[i + 1] && l[s[i + 1]].next == At(s, i + 2);
    }
  }

  // ---- removing while walking ----

  // The cell that leads to the rest of the list now leads past its first node.
  function Bypass<T>(l: map<T, Link<T>>, prev: Option<T>, next: Option<T>): map<T, Link<T>>
    requires prev.Some? ==> prev.value in l
  {
    if prev.Some? then l[prev.value := l[prev.value].(next := next)] else l
  }

  lemma BypassList<T(!new)>(l: map<T, Link<T>>, head: Option<T>, done: seq<T>, x: T, rest: seq<T>)
    requires SList(l, head, done + [x] + rest)
    ensures At(done, |done| - 1).Some? ==> At(done, |done| - 1).value in l
    ensures x in l && l[x].next == At(rest, 0)
    ensures SList(Bypass(l, At(done, |done| - 1), l[x].next), if done == [] then l[x].next else head, done + rest)
  {
    var s, t := done + [x] + rest, done + rest;
    assert s[|done|] == x;
    if done != [] { assert s[|done| - 1] == done[|done| - 1]; }
    var l' := Bypass(l, At(done, |done| - 1), l[x].next);
    forall i | 0 <= i < |t| ensures t[i] in l' && l'[t[i]].next == At(t, i + 1) {
      BypassAt(l, head, done, x, rest, i);
    }
    forall i, j | 0 <= i < j < |t| ensures t[i] != t[j] {
      assert t[i] == s[if i < |done| then i else i + 1] && t[j] == s[if j < |done| then j else j + 1];
    }
  }

  lemma BypassAt<T(!new)>(l: map<T, Link<T>>, head: Option<T>, done: seq<T>, x: T, rest: seq<T>, i: nat)
    requires SList(l, head, done + [x] + rest) && i < |done + rest|
    requires x in l && l[x].next == At(rest, 0)
    requires At(done, |done| - 1).Some? ==> At(done, |done| - 1).value in l
    ensures var l', t := Bypass(l, At(done, |done| - 1), l[x].next), done + rest;
            t[i] in l' && l'[t[i]].next == At(t, i + 1)
  {
    var s, t := done + [x] + rest, done + rest;
    var k := if i < |done| then i else i + 1;
    assert t[i] == s[k] && s[k] in l && l[s[k]].next == At(s, k + 1);
    if done != [] { assert s[|done| - 1] == done[|done| - 1]; }
    if i + 1 < |done| { assert t[i + 1] == s[k + 1]; }
  }
}
