/** The per-thread region cache in front of the owner table, validated by a
    generation counter. Resolves, range insertions and range removals of any
    number of threads interleave one memory access at a time; a removal clears
    its regions one by one and bumps the generation afterwards. */
module RegionCache {
  import opened Registry
  import opened Bits

  const RCACHE: nat := 16

  datatype Entry = Entry(region: nat, owner: nat, gen: nat)

  datatype Phase =
    | Idle
    | Missed(region: nat, gen: nat)               // generation loaded, cache missed
    | Found(region: nat, gen: nat, owner: nat)    // table read, entry not yet filled

  // A region whose removal has cleared the table but not yet bumped the generation.
  datatype Closing = Closing(owner: nat, remover: nat)

  datatype State = State(
    table: map<nat, nat>, gen: nat,
    cache: map<(nat, nat), Entry>,
    phase: map<nat, Phase>,
    closing: map<nat, Closing>)

  const INIT := State(map[], 0, map[], map[], map[])

  function EntryOf(s: State, t: nat, region: nat): Entry {
    var key := (t, And(region, RCACHE - 1));
    if key in s.cache then s.cache[key] else Entry(0, 0, 0)
  }

  function PhaseOf(s: State, t: nat): Phase {
    if t in s.phase then s.phase[t] else Idle
  }

  predicate Hit(s: State, t: nat, region: nat) {
    var e := EntryOf(s, t, region);
    e.region == region && e.gen == s.gen && e.owner != 0
  }

  datatype Step =
    | Start(t: nat, region: nat)                  // load the generation and probe the cache
    | Look(t: nat)                                // read the table
    | Fill(t: nat)                                // fill the entry if owned, and return
    | Insert(region: nat, owner: nat)             // one region of a registration
    | Clear(t: nat, region: nat)                  // one region of a removal
    | Bump(t: nat)                                // the removal's generation increment
    | Other                                       // anything that touches neither table nor cache

  predicate Enabled(s: State, a: Step) {
    match a
    case Start(t, _) => PhaseOf(s, t) == Idle
    case Look(t) => PhaseOf(s, t).Missed?
    case Fill(t) => PhaseOf(s, t).Found?
    case Insert(k, o) => o != 0 && Get(s.table, k) == 0 && k !in s.closing
    case Clear(_, k) => Get(s.table, k) != 0
    case Bump(_) => true
    case Other => true
  }

  function Next(s: State, a: Step): State
    requires Enabled(s, a)
  {
    match a
    case Start(t, r) => if Hit(s, t, r) then s else s.(phase := s.phase[t := Missed(r, s.gen)])
    case Look(t) =>
      var p := PhaseOf(s, t);
      s.(phase := s.phase[t := Found(p.region, p.gen, Get(s.table, p.region))])
    case Fill(t) =>
      var p := PhaseOf(s, t);
      s.(phase := s.phase[t := Idle],
         cache := if p.owner == 0 then s.cache
                  else s.cache[(t, And(p.region, RCACHE - 1)) := Entry(p.region, p.owner, p.gen)])
    case Insert(k, o) => s.(table := s.table[k := o])
    case Clear(t, k) =>
      s.(closing := s.closing[k := Closing(Get(s.table, k), t)], table := s.table[k := 0])
    case Bump(t) =>
      s.(gen := s.gen + 1,
         closing := map k | k in s.closing && s.closing[k].remover != t :: s.closing[k])
    case Other => s
  }

  // What a step returns to btm_resolve_owner's caller.
  function Returns(s: State, a: Step): (bool, nat)
    requires Enabled(s, a)
  {
    match a
    case Start(t, r) => (Hit(s, t, r), EntryOf(s, t, r).owner)
    case Fill(t) => (true, PhaseOf(s, t).owner)
    case _ => (false, 0)
  }

  // ---- invariant ----

  // The table's owner of region k, or the one whose removal is still in progress.
  ghost predicate Current(s: State, k: nat, owner: nat) {
    Get(s.table, k) == owner || (k in s.closing && s.closing[k].owner == owner)
  }

  // A remembered answer carrying generation g is right unless g has passed.
  ghost predicate Fresh(s: State, k: nat, owner: nat, g: nat) {
    g <= s.gen && (owner != 0 && g == s.gen ==> Current(s, k, owner))
  }

  ghost predicate Inv(s: State) {
    && (forall c :: c in s.cache ==> Fresh(s, s.cache[c].region, s.cache[c].owner, s.cache[c].gen))
    && (forall t :: PhaseOf(s, t).Missed? ==> PhaseOf(s, t).gen <= s.gen)
    && (forall t :: PhaseOf(s, t).Found? ==>
          Fresh(s, PhaseOf(s, t).region, PhaseOf(s, t).owner, PhaseOf(s, t).gen))
    && (forall k :: k in s.closing ==> Get(s.table, k) == 0)
  }

  lemma FreshKept(s: State, a: Step, k: nat, owner: nat, g: nat)
    requires Inv(s) && Enabled(s, a) && Fresh(s, k, owner, g)
    ensures Fresh(Next(s, a), k, owner, g)
  {}

  /** Every access of every thread keeps the cache honest. */
  lemma StepInv(s: State, a: Step)
    requires Inv(s) && Enabled(s, a)
    ensures Inv(Next(s, a))
  {
    var s' := Next(s, a);
    forall c | c in s'.cache ensures Fresh(s', s'.cache[c].region, s'.cache[c].owner, s'.cache[c].gen) {
      if c in s.cache { FreshKept(s, a, s.cache[c].region, s.cache[c].owner, s.cache[c].gen); }
    }
    forall t | PhaseOf(s', t).Missed? ensures PhaseOf(s', t).gen <= s'.gen {
      assert PhaseOf(s, t).Missed? ==> PhaseOf(s, t).gen <= s.gen;
    }
    forall t | PhaseOf(s', t).Found?
      ensures Fresh(s', PhaseOf(s', t).region, PhaseOf(s', t).owner, PhaseOf(s', t).gen)
    {
      if PhaseOf(s, t) == PhaseOf(s', t) {
        FreshKept(s, a, PhaseOf(s, t).region, PhaseOf(s, t).owner, PhaseOf(s, t).gen);
      }
    }
  }

  ghost predicate Run(ss: seq<State>, acts: seq<Step>) {
    && |ss| == |acts| + 1 && ss[0] == INIT
    && forall i :: 0 <= i < |acts| ==> Enabled(ss[i], acts[i]) && ss[i + 1] == Next(ss[i], acts[i])
  }

  lemma {:induction false} RunInv(ss: seq<State>, acts: seq<Step>, n: nat)
    requires Run(ss, acts) && n < |ss|
    ensures Inv(ss[n])
  {
    if n == 0 {
    } else {
      RunInv(ss, acts, n - 1);
      StepInv(ss[n - 1], acts[n - 1]);
    }
  }

  /** A validated hit is the table's answer, or the owner of a region whose
      removal is between its clear and its generation bump. */
  lemma HitIsCurrent(ss: seq<State>, acts: seq<Step>, n: nat, t: nat, region: nat)
    requires Run(ss, acts) && n < |ss| && Hit(ss[n], t, region)
    ensures Current(ss[n], region, EntryOf(ss[n], t, region).owner)
    ensures region !in ss[n].closing ==> EntryOf(ss[n], t, region).owner == Get(ss[n].table, region)
  {
    RunInv(ss, acts, n);
  }

  // The step that returns from thread t's resolve was preceded by its table read.
  lemma {:induction false} FoundAt(ss: seq<State>, acts: seq<Step>, n: nat, t: nat) returns (m: nat)
    requires Run(ss, acts) && n < |ss| && PhaseOf(ss[n], t).Found?
    ensures m < n && acts[m] == Look(t)
    ensures PhaseOf(ss[m], t) == Missed(PhaseOf(ss[n], t).region, PhaseOf(ss[n], t).gen)
    ensures PhaseOf(ss[n], t).owner == Get(ss[m].table, PhaseOf(ss[n], t).region)
    ensures forall i :: m < i <= n ==> PhaseOf(ss[i], t) == PhaseOf(ss[n], t)
  {
    assert Enabled(ss[n - 1], acts[n - 1]) && ss[n] == Next(ss[n - 1], acts[n - 1]);
    if acts[n - 1] == Look(t) {
      m := n - 1;
    } else {
      m := FoundAt(ss, acts, n - 1, t);
    }
  }

  lemma {:induction false} MissedAt(ss: seq<State>, acts: seq<Step>, n: nat, t: nat) returns (m: nat)
    requires Run(ss, acts) && n < |ss| && PhaseOf(ss[n], t).Missed?
    ensures m < n && acts[m] == Start(t, PhaseOf(ss[n], t).region)
    ensures forall i :: m < i <= n ==> PhaseOf(ss[i], t) == PhaseOf(ss[n], t)
  {
    assert Enabled(ss[n - 1], acts[n - 1]) && ss[n] == Next(ss[n - 1], acts[n - 1]);
    if acts[n - 1] == Start(t, PhaseOf(ss[n], t).region) && PhaseOf(ss[n - 1], t) == Idle {
      m := n - 1;
    } else {
      m := MissedAt(ss, acts, n - 1, t);
    }
  }

  // Region r has owner o, with no removal under way, in states i .. j.
  ghost predicate Stable(ss: seq<State>, i: nat, j: nat, r: nat, o: nat) {
    forall k :: i <= k <= j && k < |ss| ==> Get(ss[k].table, r) == o && r !in ss[k].closing
  }

  /** Resolving a pointer whose region keeps one owner throughout the call returns
      that owner, hit or miss, whatever the other threads do meanwhile. */
  lemma ResolveStable(ss: seq<State>, acts: seq<Step>, n: nat, t: nat, r: nat, o: nat) returns (start: nat)
    requires Run(ss, acts) && n < |acts|
    requires (acts[n] == Start(t, r) && Hit(ss[n], t, r)) || (acts[n] == Fill(t) && PhaseOf(ss[n], t).region == r)
    ensures start <= n && acts[start] == Start(t, r)
    ensures Stable(ss, start, n, r, o) ==> Returns(ss[n], acts[n]) == (true, o)
  {
    assert Enabled(ss[n], acts[n]);
    if acts[n].Start? {
      start := n;
      HitIsCurrent(ss, acts, n, t, r);
    } else {
      var m := FoundAt(ss, acts, n, t);
      start := MissedAt(ss, acts, m, t);
    }
  }
}
