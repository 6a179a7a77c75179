/** Epochs and histories: which pageouts and which touches of slabs have happened,
    and what the recorded epochs say about them. */
module Epochs {
  import opened Seqs
  import opened Geometry

  // What happens to slabs, as far as tiering is concerned: refill, flush, free and
  // format touch one; a pageout evicts and then advances the epoch.
  datatype Event = Touch(s: SlabId) | Advance

  function EpochAfter(es: seq<Event>): nat {
    if es == [] then 0 else EpochAfter(es[..|es| - 1]) + (if es[|es| - 1].Advance? then 1 else 0)
  }

  // The epoch recorded in the descriptor of s; a slab never touched has none.
  function RecordedAfter(es: seq<Event>, s: SlabId): Option<nat> {
    if es == [] then None
    else if es[|es| - 1] == Touch(s) then Some(EpochAfter(es[..|es| - 1]))
    else RecordedAfter(es[..|es| - 1], s)
  }

  // An advance that no touch of s follows.
  ghost predicate IdleSince(es: seq<Event>, s: SlabId, i: nat) {
    i < |es| && es[i].Advance? && forall j: nat :: i < j < |es| ==> es[j] != Touch(s)
  }

  ghost predicate IdleAcross(es: seq<Event>, s: SlabId) {
    exists i: nat :: IdleSince(es, s, i)
  }

  lemma IdleStep(es: seq<Event>, s: SlabId)
    requires es != []
    ensures IdleAcross(es, s) <==>
            es[|es| - 1].Advance? || (es[|es| - 1] != Touch(s) && IdleAcross(es[..|es| - 1], s))
  {
    var n := |es| - 1;
    var f := es[..n];
    if es[n].Advance? { assert IdleSince(es, s, n); }
    if es[n] != Touch(s) && IdleAcross(f, s) {
      var i: nat :| IdleSince(f, s, i);
      assert IdleSince(es, s, i);
    }
    if IdleAcross(es, s) && !es[n].Advance? {
      var i: nat :| IdleSince(es, s, i);
      assert IdleSince(f, s, i);
    }
  }

  lemma {:induction false} RecordedBound(es: seq<Event>, s: SlabId)
    ensures RecordedAfter(es, s).Some? ==> RecordedAfter(es, s).value <= EpochAfter(es)
  {
    if es == [] {
    } else {
      RecordedBound(es[..|es| - 1], s);
    }
  }

  /** A slab's recorded epoch is behind the current one exactly when a pageout has
      advanced the epoch since the slab was last touched. */
  lemma {:induction false} BehindIffIdle(es: seq<Event>, s: SlabId)
    requires RecordedAfter(es, s).Some?
    ensures RecordedAfter(es, s).value < EpochAfter(es) <==> IdleAcross(es, s)
  {
    var f := es[..|es| - 1];
    IdleStep(es, s);
    if es[|es| - 1] == Touch(s) {
    } else {
      BehindIffIdle(f, s);
      RecordedBound(f, s);
    }
  }

  lemma EpochSnoc(es: seq<Event>, e: Event)
    ensures EpochAfter(es + [e]) == EpochAfter(es) + (if e.Advance? then 1 else 0)
  {
    assert (es + [e])[..|es|] == es;
  }

  lemma RecordedSnoc(es: seq<Event>, e: Event, s: SlabId)
    ensures RecordedAfter(es + [e], s) == if e == Touch(s) then Some(EpochAfter(es)) else RecordedAfter(es, s)
  {
    assert (es + [e])[..|es|] == es;
  }
}
