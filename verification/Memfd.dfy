/** The memfd offset allocator of mesh mode: a bump pointer with a growable
    stack of recycled offsets. Ghost sets name the offsets held by chunks and
    those dropped when the stack could not grow. */
module Memfd {
  import opened Seqs
  import opened Geometry

  // The memfd grows by 256 chunks at a time, or by what is needed.
  function GrowTo(size: nat, need: nat): nat {
    if size + 256 * CHUNK < need then need else size + 256 * CHUNK
  }

  class Offsets {
    var bump: nat                // next never-used offset
    var size: nat                // current size of the memfd
    var stack: array<nat>        // recycled offsets
    var count: nat               // entries in use
    ghost var held: set<nat>
    ghost var dropped: set<nat>

    ghost function Stacked(): seq<nat>
      requires count <= stack.Length
      reads this, stack
    {
      stack[..count]
    }

    // Every offset below the bump pointer is held, stacked or dropped, once.
    ghost predicate Valid()
      reads this, stack
    {
      && count <= stack.Length
      && bump % CHUNK == 0 && bump <= size
      && NoDup(Stacked())
      && held !! dropped && held !! Elems(Stacked()) && dropped !! Elems(Stacked())
      && forall o: nat :: o in held || o in dropped || o in Stacked() <==> o % CHUNK == 0 && o < bump
    }

    constructor ()
      ensures Valid() && held == {} && dropped == {} && bump == 0 && size == 0 && count == 0
    {
      bump, size, count := 0, 0, 0;
      stack := new nat[0];
      held, dropped := {}, {};
    }

    /** Hands out an offset no one holds, or fails leaving everything as it was;
        it fails exactly when nothing is stacked and a needed growth fails. The offset is
        the one stacked last, or a new one, for which the file grows only if it must; a
        growth by 256 chunks is always enough. */
    method Alloc(truncates: bool) returns (off: Option<nat>)
      requires Valid()
      modifies this
      ensures Valid() && dropped == old(dropped) && stack == old(stack)
      ensures off.None? <==> old(count) == 0 && old(bump) + CHUNK > old(size) && !truncates
      ensures off.None? ==> held == old(held) && bump == old(bump) && size == old(size) && count == old(count)
      ensures old(count) > 0 ==>
                && off == Some(old(stack[count - 1])) && Stacked() == old(Stacked())[..old(count) - 1]
                && bump == old(bump) && size == old(size)
      ensures old(count) == 0 && off.Some? ==>
                && off.value == old(bump) && bump == old(bump) + CHUNK && count == 0
                && size == if bump <= old(size) then old(size) else old(size) + 256 * CHUNK
      ensures off.Some? ==>
                && off.value !in old(held) && off.value !in dropped && held == old(held) + {off.value}
                && off.value % CHUNK == 0 && off.value + CHUNK <= bump <= size
    {
      if count > 0 {
        count := count - 1;
        var o := stack[count];
        off := Some(o);
        held := held + {o};
        assert old(Stacked()) == Stacked() + [o];
        assert forall x: nat :: x in old(Stacked()) <==> x in Stacked() || x == o;
        MultipleBelow(o, bump);
        return;
      }
      var o := bump;
      if o + CHUNK > size {
        if !truncates { return None; }
        size := GrowTo(size, o + CHUNK);
      }
      bump := o + CHUNK;
      held := held + {o};
      off := Some(o);
      forall x: nat ensures x % CHUNK == 0 && x < bump <==> (x % CHUNK == 0 && x < o) || x == o {
        if x % CHUNK == 0 && o < x { MultiplesApart(x, o, CHUNK); }
      }
    }

    lemma MultipleBelow(o: nat, b: nat)
      requires o % CHUNK == 0 && b % CHUNK == 0 && o < b
      ensures o + CHUNK <= b
    {
      MultiplesApart(o, b, CHUNK);
    }

    /** Takes an offset back; it is stacked unless the full stack cannot grow, in
        which case it is dropped and never handed out again. */
    method Free(off: nat, maps: bool)
      requires Valid() && off in held
      modifies this, stack
      ensures Valid() && held == old(held) - {off} && bump == old(bump) && size == old(size)
      ensures old(count) < old(stack.Length) || maps ==>
                dropped == old(dropped) && Stacked() == old(Stacked()) + [off]
      ensures !(old(count) < old(stack.Length) || maps) ==>
                dropped == old(dropped) + {off} && Stacked() == old(Stacked())
      ensures stack == old(stack) || fresh(stack)
    {
      if count == stack.Length && maps {
        Grow();
      }
      held := held - {off};
      if count < stack.Length {
        stack[count] := off;
        count := count + 1;
        assert Stacked() == old(Stacked()) + [off];
      } else {
        dropped := dropped + {off};
      }
    }

    // Doubles the full stack, or gives it its first 64 entries.
    method Grow()
      requires Valid() && count == stack.Length
      modifies this`stack
      ensures Valid() && fresh(stack) && count < stack.Length && Stacked() == old(Stacked())
      ensures stack.Length == if old(stack.Length) > 0 then 2 * old(stack.Length) else 64
    {
      var from := stack;
      var n := new nat[if from.Length > 0 then from.Length * 2 else 64];
      for i := 0 to count
        invariant count == from.Length <= n.Length && stack == from
        invariant forall j :: 0 <= j < i ==> n[j] == from[j]
        invariant from[..] == old(from[..]) && unchanged(this)
      {
        n[i] := from[i];
      }
      assert n[..count] == from[..count];
      stack := n;
    }
  }
}
