/** The chunk lifecycle protocol: allocating threads and one maintenance thread
    pass chunks between pools, the dispose list, the warm list and their own
    hands. Each locked section and each kernel or registry call is one step. */
module Lifecycle {
  import opened Seqs

  const WARM_LOW: nat := 8
  const WARM_HIGH: nat := 64
  const BG: nat := 0              // the maintenance thread; other threads are positive

  // What a thread holds privately between two steps.
  datatype Hand =
    | Empty
    | Mapping                     // about to map a fresh chunk
    | Fresh(c: nat)               // mapped, not yet registered
    | Carrying(c: nat)            // registered and ready
    | Draining(c: nat)            // synchronous disposal, pages being released
    | Trimming(c: nat)            // to be unregistered
    | Unregistered(c: nat)        // to be unmapped

  datatype Phase = Waiting | Taken | Clean | Trim(deficit: int)

  datatype State = State(
    warm: seq<nat>, warmCount: nat, dispose: seq<nat>,
    phase: Phase, list: seq<nat>,          // the maintenance thread's private list
    hand: map<nat, Hand>,
    pooled: set<nat>, mapped: set<nat>, registered: set<nat>)

  const INIT := State([], 0, [], Waiting, [], map[], {}, {}, {})

  function HandOf(s: State, t: nat): Hand {
    if t in s.hand then s.hand[t] else Empty
  }

  // The locked loop of bg_main: recycle while below the high mark, trim the rest.
  function Merge(warm: seq<nat>, count: nat, list: seq<nat>, trim: seq<nat>): (seq<nat>, nat, seq<nat>)
    decreases |list|
  {
    if list == [] then (warm, count, trim)
    else if count < WARM_HIGH then Merge([list[0]] + warm, count + 1, list[1..], trim)
    else Merge(warm, count, list[1..], [list[0]] + trim)
  }

  datatype Step =
    | ObtainWarm(t: nat)
    | ObtainMiss(t: nat)
    | Map(t: nat, c: nat)
    | MapFail(t: nat)
    | Register(t: nat)
    | Deliver(t: nat)
    | DisposeAsync(c: nat)
    | DisposeSync(t: nat, c: nat)
    | Recycle(t: nat)
    | Unregister(t: nat)
    | Unmap(t: nat)
    | BgTake
    | BgClean
    | BgMerge
    | BgTrim
    | BgPremap
    | BgPush
    | BgDone

  ghost predicate Enabled(s: State, a: Step) {
    match a
    case ObtainWarm(t) => t != BG && HandOf(s, t) == Empty && s.warm != [] && s.warmCount > 0
    case ObtainMiss(t) => t != BG && HandOf(s, t) == Empty && s.warm == []
    case Map(t, c) => HandOf(s, t) == Mapping && c !in s.mapped
    case MapFail(t) => HandOf(s, t) == Mapping
    case Register(t) => HandOf(s, t).Fresh?
    case Deliver(t) => t != BG && HandOf(s, t).Carrying?
    case DisposeAsync(c) => c in s.pooled
    case DisposeSync(t, c) => t != BG && HandOf(s, t) == Empty && c in s.pooled
    case Recycle(t) => t != BG && HandOf(s, t).Draining?
    case Unregister(t) => HandOf(s, t).Trimming?
    case Unmap(t) => HandOf(s, t).Unregistered?
    case BgTake => s.phase == Waiting && (s.dispose != [] || s.warmCount < WARM_LOW)
    case BgClean => s.phase == Taken
    case BgMerge => s.phase == Clean
    case BgTrim => s.phase.Trim? && HandOf(s, BG) == Empty && s.list != []
    case BgPremap => s.phase.Trim? && HandOf(s, BG) == Empty && s.list == [] && s.phase.deficit > 0
    case BgPush => s.phase.Trim? && HandOf(s, BG).Carrying?
    case BgDone => s.phase.Trim? && HandOf(s, BG) == Empty && s.list == [] && s.phase.deficit <= 0
  }

  function SetHand(s: State, t: nat, h: Hand): State {
    s.(hand := s.hand[t := h])
  }

  function Next(s: State, a: Step): State
    requires Enabled(s, a)
  {
    match a
    case ObtainWarm(t) => SetHand(s, t, Carrying(s.warm[0])).(warm := s.warm[1..], warmCount := s.warmCount - 1)
    case ObtainMiss(t) => SetHand(s, t, Mapping)
    case Map(t, c) => SetHand(s, t, Fresh(c)).(mapped := s.mapped + {c})
    case MapFail(t) => SetHand(s, t, Empty).(phase := if t == BG then Waiting else s.phase)
    case Register(t) => SetHand(s, t, Carrying(HandOf(s, t).c)).(registered := s.registered + {HandOf(s, t).c})
    case Deliver(t) => SetHand(s, t, Empty).(pooled := s.pooled + {HandOf(s, t).c})
    case DisposeAsync(c) => s.(pooled := s.pooled - {c}, dispose := [c] + s.dispose)
    case DisposeSync(t, c) => SetHand(s, t, Draining(c)).(pooled := s.pooled - {c})
    case Recycle(t) =>
      var c := HandOf(s, t).c;
      if s.warmCount < WARM_HIGH
      then SetHand(s, t, Empty).(warm := [c] + s.warm, warmCount := s.warmCount + 1)
      else SetHand(s, t, Trimming(c))
    case Unregister(t) =>
      SetHand(s, t, Unregistered(HandOf(s, t).c)).(registered := s.registered - {HandOf(s, t).c})
    case Unmap(t) => SetHand(s, t, Empty).(mapped := s.mapped - {HandOf(s, t).c})
    case BgTake => s.(phase := Taken, list := s.dispose, dispose := [])
    case BgClean => s.(phase := Clean)
    case BgMerge =>
      var (w, n, trim) := Merge(s.warm, s.warmCount, s.list, []);
      s.(phase := Trim(WARM_LOW - n), warm := w, warmCount := n, list := trim)
    case BgTrim => SetHand(s, BG, Trimming(s.list[0])).(list := s.list[1..])
    case BgPremap => SetHand(s, BG, Mapping)
    case BgPush =>
      SetHand(s, BG, Empty).(warm := [HandOf(s, BG).c] + s.warm, warmCount := s.warmCount + 1,
                             phase := Trim(s.phase.deficit - 1))
    case BgDone => s.(phase := Waiting)
  }

  // ---- places ----

  datatype Place = InWarm | InDispose | InList | InHand(t: nat) | InPool

  predicate Holds(h: Hand, c: nat) {
    match h
    case Empty => false
    case Mapping => false
    case Fresh(d) => d == c
    case Carrying(d) => d == c
    case Draining(d) => d == c
    case Trimming(d) => d == c
    case Unregistered(d) => d == c
  }

  predicate At(s: State, c: nat, p: Place) {
    match p
    case InWarm => c in s.warm
    case InDispose => c in s.dispose
    case InList => c in s.list
    case InHand(t) => Holds(HandOf(s, t), c)
    case InPool => c in s.pooled
  }

  // A mapped chunk is registered except right after mapping and right before unmapping.
  predicate RegisteredIn(s: State, p: Place) {
    p.InHand? ==> !HandOf(s, p.t).Fresh? && !HandOf(s, p.t).Unregistered?
  }

  ghost predicate OnePlace(s: State) {
    forall c, p, q :: At(s, c, p) && At(s, c, q) ==> p == q
  }

  ghost predicate Listed(s: State) {
    NoDup(s.warm) && NoDup(s.dispose) && NoDup(s.list) && s.warmCount == |s.warm|
  }

  ghost predicate Mapped(s: State) {
    && (forall c :: c in s.mapped <==> exists p :: At(s, c, p))
    && (forall c, p :: At(s, c, p) ==> (c in s.registered <==> RegisteredIn(s, p)))
    && (forall c :: c in s.registered ==> c in s.mapped)
  }

  // The maintenance thread's hand agrees with its phase.
  ghost predicate BgOk(s: State) {
    && (s.phase == Waiting ==> s.list == [])
    && (HandOf(s, BG) != Empty ==> s.phase.Trim?)
    && (HandOf(s, BG).Mapping? || HandOf(s, BG).Fresh? || HandOf(s, BG).Carrying? ==>
          s.phase.Trim? && s.phase.deficit > 0 && s.list == [])
    && !HandOf(s, BG).Draining?
  }

  ghost predicate Inv(s: State) {
    OnePlace(s) && Listed(s) && Mapped(s) && BgOk(s)
  }

  lemma InitInv()
    ensures Inv(INIT)
  {
    forall c, p ensures !At(INIT, c, p) {}
  }

  // ---- one chunk moves per step, except when the maintenance thread takes or merges a list ----

  // Chunk c ends up at q (or nowhere); every other chunk stays where it was.
  ghost predicate Moved(s: State, s': State, c: nat, q: Option<Place>) {
    forall d, r :: At(s', d, r) <==> if d == c then q == Some(r) else At(s, d, r)
  }

  ghost predicate Still(s: State, s': State) {
    forall d, r :: At(s', d, r) <==> At(s, d, r)
  }

  // The place a step moves its chunk to.
  function Target(s: State, a: Step): (nat, Option<Place>)
    requires Enabled(s, a)
  {
    match a
    case ObtainWarm(t) => (s.warm[0], Some(InHand(t)))
    case Map(t, c) => (c, Some(InHand(t)))
    case Deliver(t) => (HandOf(s, t).c, Some(InPool))
    case DisposeAsync(c) => (c, Some(InDispose))
    case DisposeSync(t, c) => (c, Some(InHand(t)))
    case Recycle(t) => (HandOf(s, t).c, Some(if s.warmCount < WARM_HIGH then InWarm else InHand(t)))
    case Unmap(t) => (HandOf(s, t).c, None)
    case BgTrim => (s.list[0], Some(InHand(BG)))
    case BgPush => (HandOf(s, BG).c, Some(InWarm))
    case _ => (0, None)
  }

  predicate MovesOne(a: Step) {
    a.ObtainWarm? || a.Map? || a.Deliver? || a.DisposeAsync? || a.DisposeSync? || a.Recycle? || a.Unmap? ||
    a.BgTrim? || a.BgPush?
  }

  // Where a chunk can be when everyone else's hands are excluded.
  lemma PlaceKnown(s: State, c: nat, p: Place)
    requires OnePlace(s) && At(s, c, p)
    ensures forall r :: At(s, c, r) ==> r == p
  {}

  lemma MoveFromList(s: State, a: Step)
    requires Inv(s) && Enabled(s, a) && (a.ObtainWarm? || a.BgTrim?)
    ensures Moved(s, Next(s, a), Target(s, a).0, Target(s, a).1)
  {
    var (c, q) := Target(s, a);
    var p := if a.ObtainWarm? then InWarm else InList;
    var l := if a.ObtainWarm? then s.warm else s.list;
    NoDupTail(l);
    assert l == [c] + l[1..];
    assert At(s, c, p);
    PlaceKnown(s, c, p);
    var s' := Next(s, a);
    forall d, r ensures At(s', d, r) <==> if d == c then q == Some(r) else At(s, d, r) {
      assert At(s, d, r) || !At(s, d, r);
    }
  }

  lemma MoveFromPool(s: State, a: Step)
    requires Inv(s) && Enabled(s, a) && (a.DisposeAsync? || a.DisposeSync?)
    ensures Moved(s, Next(s, a), Target(s, a).0, Target(s, a).1)
  {
    var (c, q) := Target(s, a);
    assert At(s, c, InPool);
    PlaceKnown(s, c, InPool);
    var s' := Next(s, a);
    forall d, r ensures At(s', d, r) <==> if d == c then q == Some(r) else At(s, d, r) {
      assert At(s, d, r) || !At(s, d, r);
    }
  }

  lemma MoveFromHand(s: State, a: Step, t: nat)
    requires Inv(s) && Enabled(s, a)
    requires (a.Deliver? && a.t == t) || (a.Recycle? && a.t == t) || (a.Unmap? && a.t == t) || (a.BgPush? && t == BG)
    ensures Moved(s, Next(s, a), Target(s, a).0, Target(s, a).1)
  {
    var (c, q) := Target(s, a);
    assert At(s, c, InHand(t));
    PlaceKnown(s, c, InHand(t));
    var s' := Next(s, a);
    forall d, r ensures At(s', d, r) <==> if d == c then q == Some(r) else At(s, d, r) {
      assert At(s, d, r) || !At(s, d, r);
    }
  }

  lemma MoveFromKernel(s: State, a: Step)
    requires Inv(s) && Enabled(s, a) && a.Map?
    ensures Moved(s, Next(s, a), Target(s, a).0, Target(s, a).1)
  {
    var (c, q) := Target(s, a);
    forall p ensures !At(s, c, p) { assert At(s, c, p) ==> c in s.mapped; }
    var s' := Next(s, a);
    forall d, r ensures At(s', d, r) <==> if d == c then q == Some(r) else At(s, d, r) {
      assert At(s, d, r) || !At(s, d, r);
    }
  }

  lemma MovesToTarget(s: State, a: Step)
    requires Inv(s) && Enabled(s, a) && MovesOne(a)
    ensures Moved(s, Next(s, a), Target(s, a).0, Target(s, a).1)
  {
    match a
    case Map(_, _) => MoveFromKernel(s, a);
    case DisposeAsync(_) => MoveFromPool(s, a);
    case DisposeSync(_, _) => MoveFromPool(s, a);
    case ObtainWarm(_) => MoveFromList(s, a);
    case BgTrim => MoveFromList(s, a);
    case Deliver(t) => MoveFromHand(s, a, t);
    case Recycle(t) => MoveFromHand(s, a, t);
    case Unmap(t) => MoveFromHand(s, a, t);
    case BgPush => MoveFromHand(s, a, BG);
  }

  lemma MovedOnePlace(s: State, s': State, c: nat, q: Option<Place>)
    requires OnePlace(s) && Moved(s, s', c, q)
    ensures OnePlace(s')
  {}

  // Hands other than t's are unchanged, and t's holds c if anything.
  ghost predicate OnlyHand(s: State, s': State, t: nat, c: nat) {
    && (forall u :: u != t ==> HandOf(s', u) == HandOf(s, u))
    && (HandOf(s', t) == HandOf(s, t) || forall d :: Holds(HandOf(s', t), d) ==> d == c)
  }

  lemma MovedMapped(s: State, s': State, t: nat, c: nat, q: Option<Place>)
    requires OnePlace(s) && Mapped(s) && Moved(s, s', c, q) && OnlyHand(s, s', t, c)
    requires forall d :: d in s'.mapped <==> if d == c then q.Some? else d in s.mapped
    requires forall d :: d in s'.registered <==>
               if d == c then q.Some? && RegisteredIn(s', q.value) else d in s.registered
    ensures Mapped(s')
  {
    forall d ensures d in s'.mapped <==> exists p :: At(s', d, p) {
      if d == c && q.Some? { assert At(s', d, q.value); }
      if d != c && d in s.mapped {
        var p :| At(s, d, p);
        assert At(s', d, p);
      }
    }
    forall d, p | At(s', d, p) ensures d in s'.registered <==> RegisteredIn(s', p) {
      if d != c { assert At(s, d, p); }
    }
  }

  function Actor(a: Step): nat {
    match a
    case ObtainWarm(t) => t
    case Map(t, _) => t
    case Deliver(t) => t
    case DisposeSync(t, _) => t
    case Recycle(t) => t
    case Unmap(t) => t
    case _ => BG
  }

  lemma MoveMapped(s: State, a: Step)
    requires Inv(s) && Enabled(s, a) && MovesOne(a)
    ensures Mapped(Next(s, a))
  {
    var (c, q) := Target(s, a);
    var s' := Next(s, a);
    MovesToTarget(s, a);
    SourceKnown(s, a);
    assert OnlyHand(s, s', Actor(a), c);
    MovedMapped(s, s', Actor(a), c, q);
  }

  // The chunk a step moves was mapped, and registered unless it is being mapped or unmapped.
  lemma SourceKnown(s: State, a: Step)
    requires Inv(s) && Enabled(s, a) && MovesOne(a)
    ensures a.Map? ==> Target(s, a).0 !in s.mapped && Target(s, a).0 !in s.registered
    ensures !a.Map? ==> Target(s, a).0 in s.mapped && (Target(s, a).0 in s.registered <==> !a.Unmap?)
  {
    var c := Target(s, a).0;
    if !a.Map? {
      var p := match a
        case ObtainWarm(_) => InWarm
        case BgTrim => InList
        case DisposeAsync(_) => InPool
        case DisposeSync(_, _) => InPool
        case _ => InHand(Actor(a));
      assert At(s, c, p);
    }
  }

  lemma MoveListed(s: State, a: Step)
    requires Inv(s) && Enabled(s, a) && MovesOne(a)
    ensures Listed(Next(s, a)) && BgOk(Next(s, a))
  {
    var c := Target(s, a).0;
    match a
    case ObtainWarm(_) => NoDupTail(s.warm);
    case BgTrim => NoDupTail(s.list);
    case DisposeAsync(_) =>
      assert At(s, c, InPool);
      assert !At(s, c, InDispose);
    case Recycle(t) =>
      assert At(s, c, InHand(t));
      assert !At(s, c, InWarm);
    case BgPush =>
      assert At(s, c, InHand(BG));
      assert !At(s, c, InWarm);
    case _ =>
  }

  lemma MoveInv(s: State, a: Step)
    requires Inv(s) && Enabled(s, a) && MovesOne(a)
    ensures Inv(Next(s, a))
  {
    MovesToTarget(s, a);
    MovedOnePlace(s, Next(s, a), Target(s, a).0, Target(s, a).1);
    MoveMapped(s, a);
    MoveListed(s, a);
  }

  // ---- steps that change only what a thread is doing with its chunk ----

  predicate StaysPut(a: Step) {
    a.ObtainMiss? || a.MapFail? || a.Register? || a.Unregister? || a.BgClean? || a.BgPremap? || a.BgDone?
  }

  lemma StayStill(s: State, a: Step)
    requires Inv(s) && Enabled(s, a) && StaysPut(a)
    ensures Still(s, Next(s, a))
  {
    var s' := Next(s, a);
    forall d, r ensures At(s', d, r) <==> At(s, d, r) {
      if r.InHand? { assert Holds(HandOf(s', r.t), d) == Holds(HandOf(s, r.t), d); }
    }
  }

  lemma StayInv(s: State, a: Step)
    requires Inv(s) && Enabled(s, a) && StaysPut(a)
    ensures Inv(Next(s, a))
  {
    var s' := Next(s, a);
    StayStill(s, a);
    forall c ensures c in s'.mapped <==> exists p :: At(s', c, p) {
      if c in s.mapped {
        var p :| At(s, c, p);
        assert At(s', c, p);
      }
    }
    forall c, p | At(s', c, p) ensures c in s'.registered <==> RegisteredIn(s', p) {
      assert At(s, c, p);
      StayRegistered(s, a, c, p);
    }
    forall c | c in s'.registered ensures c in s'.mapped {
      if a.Register? { assert At(s, HandOf(s, a.t).c, InHand(a.t)); }
    }
  }

  lemma StayRegistered(s: State, a: Step, c: nat, p: Place)
    requires Inv(s) && Enabled(s, a) && StaysPut(a) && At(s, c, p)
    ensures c in Next(s, a).registered <==> RegisteredIn(Next(s, a), p)
  {
    if a.Register? || a.Unregister? {
      assert At(s, HandOf(s, a.t).c, InHand(a.t));
    }
  }

  // ---- taking and merging lists ----

  lemma TakeInv(s: State)
    requires Inv(s) && Enabled(s, BgTake)
    ensures Inv(Next(s, BgTake))
  {
    var s' := Next(s, BgTake);
    forall d, r ensures At(s', d, r) <==> (r == InList && At(s, d, InDispose)) || (r != InDispose && At(s, d, r)) {}
    forall c ensures c in s'.mapped <==> exists p :: At(s', c, p) {
      if c in s.mapped {
        var p :| At(s, c, p);
        assert At(s', c, if p == InDispose then InList else p);
      }
    }
  }

  /** The merge loses no chunk, duplicates none and keeps the count exact. It recycles
      until the high mark is reached, goes over it only if it started there, and trims
      only once it is reached. */
  lemma {:induction false} MergeElems(warm: seq<nat>, count: nat, list: seq<nat>, trim: seq<nat>)
    requires NoDup(warm) && NoDup(list) && NoDup(trim)
    requires forall c :: c in list ==> c !in warm && c !in trim
    requires forall c :: c in warm ==> c !in trim
    ensures var (w, n, t) := Merge(warm, count, list, trim);
            && NoDup(w) && NoDup(t) && n - count == |w| - |warm| && n >= count
            && (forall c :: c in w || c in t <==> c in warm || c in list || c in trim)
            && (forall c :: c in w ==> c !in t)
            && (count <= WARM_HIGH ==> n == if count + |list| < WARM_HIGH then count + |list| else WARM_HIGH)
            && (count >= WARM_HIGH ==> n == count) && (|t| > |trim| ==> n >= WARM_HIGH)
    decreases |list|
  {
    if list != [] {
      NoDupTail(list);
      assert list == [list[0]] + list[1..];
      if count < WARM_HIGH {
        NoDupPush(list[0], warm);
        MergeElems([list[0]] + warm, count + 1, list[1..], trim);
      } else {
        NoDupPush(list[0], trim);
        MergeElems(warm, count, list[1..], [list[0]] + trim);
      }
    }
  }

  // The chunks recycled: as many as fit below the high mark.
  function Fitting(count: nat, n: nat): (k: nat)
    ensures k <= n
  {
    if count >= WARM_HIGH then 0 else if count + n <= WARM_HIGH then n else WARM_HIGH - count
  }

  /** The first of the cleaned chunks, as many as fit below the high mark, end up on the
      warm list, the rest on the list to trim, each list with the latest in front. */
  lemma {:induction false} MergeSplits(warm: seq<nat>, count: nat, list: seq<nat>, trim: seq<nat>)
    ensures var k := Fitting(count, |list|);
            Merge(warm, count, list, trim) == (Reverse(list[..k]) + warm, count + k, Reverse(list[k..]) + trim)
    decreases |list|
  {
    var k := Fitting(count, |list|);
    if list == [] {
      assert list[..k] == [] && list[k..] == [] && Reverse<nat>([]) + warm == warm && Reverse<nat>([]) + trim == trim;
    } else if count < WARM_HIGH {
      MergeSplits([list[0]] + warm, count + 1, list[1..], trim);
      assert list[..k][1..] == list[1..][..k - 1] && list[k..] == list[1..][k - 1..];
      assert Reverse(list[..k]) + warm == Reverse(list[1..][..k - 1]) + ([list[0]] + warm);
    } else {
      MergeSplits(warm, count, list[1..], [list[0]] + trim);
      assert list[..k] == [] && list[1..][..0] == [] && list[k..] == list && list[1..][0..] == list[1..];
      assert Reverse(list) + trim == Reverse(list[1..]) + ([list[0]] + trim);
    }
  }

  /** The locked loop itself: each cleaned chunk is pushed on the warm list, or on
      the list to trim once the high mark is reached. */
  method MergeLoop(warm: seq<nat>, count: nat, list: seq<nat>) returns (warm': seq<nat>, count': nat, trim: seq<nat>)
    ensures (warm', count', trim) == Merge(warm, count, list, [])
    ensures var k := Fitting(count, |list|);
            warm' == Reverse(list[..k]) + warm && count' == count + k && trim == Reverse(list[k..])
  {
    MergeSplits(warm, count, list, []);
    warm', count', trim := warm, count, [];
    var disp := list;
    while disp != []
      invariant Merge(warm', count', disp, trim) == Merge(warm, count, list, [])
      decreases |disp|
    {
      if count' < WARM_HIGH {
        warm', count' := [disp[0]] + warm', count' + 1;
      } else {
        trim := [disp[0]] + trim;
      }
      disp := disp[1..];
    }
  }

  lemma MergePre(s: State)
    requires OnePlace(s)
    ensures forall c :: c in s.list ==> c !in s.warm
  {
    forall c | c in s.list ensures c !in s.warm { assert At(s, c, InList) && (At(s, c, InWarm) <==> c in s.warm); }
  }

  lemma MergeInv(s: State)
    requires Inv(s) && Enabled(s, BgMerge)
    ensures Inv(Next(s, BgMerge))
  {
    var s' := Next(s, BgMerge);
    MergePre(s);
    MergeElems(s.warm, s.warmCount, s.list, []);
    forall d, r
      ensures At(s', d, r) ==> At(s, d, r) || ((r == InWarm || r == InList)
                                               && (At(s, d, InWarm) || At(s, d, InList))) {}
    forall c ensures c in s'.mapped <==> exists p :: At(s', c, p) {
      if c in s.mapped {
        var p :| At(s, c, p);
        assert p != InWarm && p != InList ==> At(s', c, p);
        assert At(s', c, InWarm) || At(s', c, InList) || (p != InWarm && p != InList);
      }
    }
    forall c, p | At(s', c, p) ensures c in s'.registered <==> RegisteredIn(s', p) {
      assert At(s, c, p) || At(s, c, InWarm) || At(s, c, InList);
    }
  }

  /** Every step keeps: one place per chunk, an exact warm count, registered
      chunks mapped. */
  lemma StepInv(s: State, a: Step)
    requires Inv(s) && Enabled(s, a)
    ensures Inv(Next(s, a))
  {
    if MovesOne(a) { MoveInv(s, a); }
    else if StaysPut(a) { StayInv(s, a); }
    else if a.BgTake? { TakeInv(s); }
    else { MergeInv(s); }
  }

  ghost predicate Run(ss: seq<State>, acts: seq<Step>) {
    && |ss| == |acts| + 1 && ss[0] == INIT
    && forall i :: 0 <= i < |acts| ==> Enabled(ss[i], acts[i]) && ss[i + 1] == Next(ss[i], acts[i])
  }

  lemma {:induction false} RunInv(ss: seq<State>, acts: seq<Step>, n: nat)
    requires Run(ss, acts) && n < |ss|
    ensures Inv(ss[n])
  {
    if n == 0 {
      InitInv();
    } else {
      RunInv(ss, acts, n - 1);
      StepInv(ss[n - 1], acts[n - 1]);
    }
  }

  /** In every run, a chunk a pool owns is mapped and registered, is not on any
      list, is in nobody's hands, and its pages are therefore never released. */
  lemma PooledChunkSafe(ss: seq<State>, acts: seq<Step>, n: nat, c: nat)
    requires Run(ss, acts) && n < |ss| && c in ss[n].pooled
    ensures c in ss[n].mapped && c in ss[n].registered
    ensures c !in ss[n].warm && c !in ss[n].dispose && c !in ss[n].list
    ensures forall t :: !Holds(HandOf(ss[n], t), c)
  {
    var s := ss[n];
    RunInv(ss, acts, n);
    assert At(s, c, InPool);
    assert At(s, c, InWarm) <==> c in s.warm;
    assert At(s, c, InDispose) <==> c in s.dispose;
    assert At(s, c, InList) <==> c in s.list;
    forall t ensures !Holds(HandOf(s, t), c) { assert At(s, c, InHand(t)) <==> Holds(HandOf(s, t), c); }
  }

  // ---- when chunks are asked of the system ----

  lemma SetsOutToMap(s: State, a: Step, t: nat)
    requires Enabled(s, a) && HandOf(s, t) != Mapping && HandOf(Next(s, a), t) == Mapping
    ensures if t == BG then s.phase.Trim? && s.phase.deficit > 0 else s.warm == []
  {}

  lemma MappingSoFar(ss: seq<State>, acts: seq<Step>, n: nat, t: nat)
    requires Run(ss, acts) && n < |ss| && HandOf(ss[n], t) == Mapping
    ensures n > 0
    ensures HandOf(ss[n - 1], t) == Mapping
            || if t == BG then ss[n - 1].phase.Trim? && ss[n - 1].phase.deficit > 0 else ss[n - 1].warm == []
  {
    if n > 0 && HandOf(ss[n - 1], t) != Mapping {
      assert Enabled(ss[n - 1], acts[n - 1]) && ss[n] == Next(ss[n - 1], acts[n - 1]);
      SetsOutToMap(ss[n - 1], acts[n - 1], t);
    }
  }

  /** A chunk is asked of the system only by a thread that found the warm list empty, or
      by the maintenance thread while it owes chunks to the low mark. */
  lemma {:induction false} MapsOnlyWhenNeeded(ss: seq<State>, acts: seq<Step>, n: nat, t: nat) returns (m: nat)
    requires Run(ss, acts) && n < |ss| && HandOf(ss[n], t) == Mapping
    ensures m < n && forall i {:trigger ss[i]} :: m < i <= n ==> HandOf(ss[i], t) == Mapping
    ensures if t == BG then ss[m].phase.Trim? && ss[m].phase.deficit > 0 else ss[m].warm == []
  {
    MappingSoFar(ss, acts, n, t);
    if HandOf(ss[n - 1], t) == Mapping {
      m := MapsOnlyWhenNeeded(ss, acts, n - 1, t);
    } else {
      m := n - 1;
    }
  }

  // ---- when chunks are given back to the system ----

  // Chunk c is on its way to be unmapped.
  ghost predicate Doomed(s: State, c: nat) {
    || (s.phase.Trim? && c in s.list)
    || exists t :: HandOf(s, t) == Trimming(c) || HandOf(s, t) == Unregistered(c)
  }

  /** A chunk is given up only when the warm list has reached its high mark: until then
      every drained chunk is recycled. */
  lemma DoomedOnlyWhenFull(s: State, a: Step, c: nat)
    requires Inv(s) && Enabled(s, a) && !Doomed(s, c) && Doomed(Next(s, a), c)
    ensures Next(s, a).warmCount >= WARM_HIGH
  {
    var s' := Next(s, a);
    if a.BgMerge? {
      MergePre(s);
      MergeElems(s.warm, s.warmCount, s.list, []);
      MergeHands(s, c);
    } else if !(s'.phase.Trim? && c in s'.list) {
      var t :| HandOf(s', t) == Trimming(c) || HandOf(s', t) == Unregistered(c);
      assert HandOf(s, t) != Trimming(c) && HandOf(s, t) != Unregistered(c);
    }
  }

  lemma MergeHands(s: State, c: nat)
    requires Enabled(s, BgMerge) && !Doomed(s, c)
    ensures Doomed(Next(s, BgMerge), c) ==> c in Next(s, BgMerge).list
  {
    forall t ensures HandOf(Next(s, BgMerge), t) == HandOf(s, t) {}
  }

  lemma PhaseKept(s: State, a: Step)
    requires Enabled(s, a) && s.phase.Trim? && !a.BgDone? && a != MapFail(BG)
    ensures Next(s, a).phase == Trim(s.phase.deficit - if a.BgPush? then 1 else 0)
  {}

  lemma PhaseMerged(s: State)
    requires Enabled(s, BgMerge)
    ensures Next(s, BgMerge).phase == Trim(WARM_LOW - Next(s, BgMerge).warmCount)
  {}

  // The pushes among these steps.
  function Pushes(acts: seq<Step>): nat {
    if acts == [] then 0 else Pushes(acts[..|acts| - 1]) + if acts[|acts| - 1].BgPush? then 1 else 0
  }

  // The phase while the maintenance thread trims and pre-maps: each push lowers the deficit.
  ghost predicate GoesOn(p: Phase, a: Step, p': Phase) {
    p.Trim? ==> p' == Trim(p.deficit - if a.BgPush? then 1 else 0)
  }

  // From step m on, the maintenance thread has pushed what its deficit has lost.
  lemma {:induction false} DeficitFalls(ps: seq<Phase>, acts: seq<Step>, m: nat, n: nat)
    requires m <= n <= |acts| && |ps| == |acts| + 1 && ps[m].Trim?
    requires forall i {:trigger acts[i]} :: m <= i < n ==> GoesOn(ps[i], acts[i], ps[i + 1])
    ensures ps[n] == Trim(ps[m].deficit - Pushes(acts[m..n]))
    decreases n
  {
    if n == m {
      assert acts[m..n] == [];
    } else {
      DeficitFalls(ps, acts, m, n - 1);
      assert GoesOn(ps[n - 1], acts[n - 1], ps[n]);
      PushesSnoc(acts, m, n - 1);
    }
  }

  lemma PhaseStep(ss: seq<State>, acts: seq<Step>, i: nat)
    requires Run(ss, acts) && i < |acts|
    ensures acts[i].BgMerge? ==> ss[i + 1].phase == Trim(WARM_LOW - ss[i + 1].warmCount)
    ensures !acts[i].BgDone? && acts[i] != MapFail(BG) ==> GoesOn(ss[i].phase, acts[i], ss[i + 1].phase)
    ensures acts[i].BgDone? ==> ss[i].phase.Trim? && ss[i].phase.deficit <= 0
  {
    assert Enabled(ss[i], acts[i]) && ss[i + 1] == Next(ss[i], acts[i]);
    if acts[i].BgMerge? {
      PhaseMerged(ss[i]);
    } else if ss[i].phase.Trim? && !acts[i].BgDone? && acts[i] != MapFail(BG) {
      PhaseKept(ss[i], acts[i]);
    }
  }

  lemma PushesSnoc(acts: seq<Step>, m: nat, n: nat)
    requires m <= n < |acts|
    ensures Pushes(acts[m..n + 1]) == Pushes(acts[m..n]) + if acts[n].BgPush? then 1 else 0
  {
    var seen := acts[m..n + 1];
    assert seen[..|seen| - 1] == acts[m..n] && seen[|seen| - 1] == acts[n];
  }

  /** A round of the maintenance thread that ends without a failed mapping has put at
      least as many fresh chunks on the warm list as were missing to the low mark. */
  lemma PremapReplenishes(ss: seq<State>, acts: seq<Step>, m: nat, n: nat)
    requires Run(ss, acts) && m < n < |acts| && acts[m].BgMerge? && acts[n].BgDone?
    requires forall i :: m < i < n ==> !acts[i].BgDone? && acts[i] != MapFail(BG)
    ensures ss[m + 1].warmCount + Pushes(acts[m + 1..n]) >= WARM_LOW
  {
    var ps := seq(|ss|, i requires 0 <= i < |ss| => ss[i].phase);
    forall i | m < i < n ensures GoesOn(ps[i], acts[i], ps[i + 1]) { PhaseStep(ss, acts, i); }
    PhaseStep(ss, acts, m);
    DeficitFalls(ps, acts, m + 1, n);
    PhaseStep(ss, acts, n);
  }

  // ---- how long the warm list can get ----

  // Pushes the maintenance thread may still make without looking at the count.
  function Owed(s: State): nat {
    if s.phase.Trim? && s.phase.deficit > 0 then s.phase.deficit else 0
  }

  ghost predicate WarmBound(s: State) {
    |s.warm| + Owed(s) <= WARM_HIGH + WARM_LOW && Owed(s) <= WARM_LOW
  }

  lemma StepWarmBound(s: State, a: Step)
    requires Inv(s) && WarmBound(s) && Enabled(s, a)
    ensures WarmBound(Next(s, a))
  {
    if a.BgMerge? {
      MergePre(s);
      MergeElems(s.warm, s.warmCount, s.list, []);
    }
  }

  /** In every run the warm list stays within 72 chunks: the high mark plus the
      pre-mapping the maintenance thread committed to. */
  lemma {:induction false} RunWarmBound(ss: seq<State>, acts: seq<Step>, n: nat)
    requires Run(ss, acts) && n < |ss|
    ensures |ss[n].warm| <= WARM_HIGH + WARM_LOW && ss[n].warmCount == |ss[n].warm|
    ensures WarmBound(ss[n])
  {
    RunInv(ss, acts, n);
    if n == 0 {
    } else {
      RunWarmBound(ss, acts, n - 1);
      RunInv(ss, acts, n - 1);
      assert Enabled(ss[n - 1], acts[n - 1]) && ss[n] == Next(ss[n - 1], acts[n - 1]);
      StepWarmBound(ss[n - 1], acts[n - 1]);
    }
  }

  predicate IsBg(a: Step) {
    a.BgTake? || a.BgClean? || a.BgMerge? || a.BgTrim? || a.BgPremap? || a.BgPush? || a.BgDone?
  }

  // All disposals go to the maintenance thread, or it never runs.
  ghost predicate OneRoute(acts: seq<Step>) {
    (forall i :: 0 <= i < |acts| ==> !acts[i].DisposeSync?) || (forall i :: 0 <= i < |acts| ==> !IsBg(acts[i]))
  }

  ghost predicate NoDraining(s: State) {
    forall t :: !HandOf(s, t).Draining?
  }

  // Warm chunks and those still owed stay within the marks.
  ghost predicate WithinMarks(s: State) {
    NoDraining(s) && |s.warm| <= WARM_HIGH && (Owed(s) > 0 ==> |s.warm| + Owed(s) <= WARM_LOW)
  }

  lemma AsyncStep(s: State, a: Step)
    requires Inv(s) && Enabled(s, a) && !a.DisposeSync? && WithinMarks(s)
    ensures WithinMarks(Next(s, a))
  {
    forall t ensures !HandOf(Next(s, a), t).Draining? { assert !HandOf(s, t).Draining?; }
    if a.BgMerge? {
      MergePre(s);
      MergeElems(s.warm, s.warmCount, s.list, []);
    }
  }

  lemma {:induction false} AsyncWarmHigh(ss: seq<State>, acts: seq<Step>, n: nat)
    requires Run(ss, acts) && n < |ss| && forall i :: 0 <= i < |acts| ==> !acts[i].DisposeSync?
    ensures WithinMarks(ss[n])
  {
    if n == 0 {
    } else {
      AsyncWarmHigh(ss, acts, n - 1);
      RunInv(ss, acts, n - 1);
      assert Enabled(ss[n - 1], acts[n - 1]) && ss[n] == Next(ss[n - 1], acts[n - 1]);
      AsyncStep(ss[n - 1], acts[n - 1]);
    }
  }

  lemma {:induction false} SyncWarmHigh(ss: seq<State>, acts: seq<Step>, n: nat)
    requires Run(ss, acts) && n < |ss| && forall i :: 0 <= i < |acts| ==> !IsBg(acts[i])
    ensures |ss[n].warm| <= WARM_HIGH && ss[n].phase == Waiting
  {
    if n == 0 {
    } else {
      SyncWarmHigh(ss, acts, n - 1);
      RunInv(ss, acts, n - 1);
      assert Enabled(ss[n - 1], acts[n - 1]) && ss[n] == Next(ss[n - 1], acts[n - 1]);
    }
  }

  /** When all disposals take one route the warm list stays within its high mark. */
  lemma OneRouteWarmHigh(ss: seq<State>, acts: seq<Step>, n: nat)
    requires Run(ss, acts) && n < |ss| && OneRoute(acts)
    ensures |ss[n].warm| <= WARM_HIGH
  {
    if forall i :: 0 <= i < |acts| ==> !acts[i].DisposeSync? {
      AsyncWarmHigh(ss, acts, n);
    } else {
      SyncWarmHigh(ss, acts, n);
    }
  }

  // ---- with both routes in use the high mark can be passed ----

  ghost predicate Reachable(s: State) {
    exists ss, acts :: Run(ss, acts) && ss[|ss| - 1] == s
  }

  lemma ReachNext(s: State, a: Step)
    requires Reachable(s) && Enabled(s, a)
    ensures Reachable(Next(s, a))
  {
    var ss, acts :| Run(ss, acts) && ss[|ss| - 1] == s;
    var ss', acts' := ss + [Next(s, a)], acts + [a];
    assert Run(ss', acts') && ss'[|ss'| - 1] == Next(s, a);
  }

  // The maintenance thread owes d pushes; thread 1 is idle; n chunks are pooled and w are warm.
  ghost predicate Stage(s: State, d: int, n: nat, w: nat) {
    && Reachable(s) && s.phase == Trim(d) && s.list == [] && s.warmCount == |s.warm| == w
    && HandOf(s, 1) == Empty && HandOf(s, BG) == Empty
    && |s.pooled| == n && (forall c :: c in s.pooled ==> c in s.mapped)
    && (forall c :: c in s.mapped ==> c <= n + w)
  }

  lemma StageStart() returns (s: State)
    ensures Stage(s, WARM_LOW, 0, 0)
  {
    assert Run([INIT], []);
    assert Reachable(INIT) by { assert [INIT][|[INIT]| - 1] == INIT; }
    ReachNext(INIT, BgTake);
    var s1 := Next(INIT, BgTake);
    ReachNext(s1, BgClean);
    var s2 := Next(s1, BgClean);
    ReachNext(s2, BgMerge);
    s := Next(s2, BgMerge);
  }

  // Thread t maps and registers the fresh chunk c.
  lemma StageMap(s: State, t: nat, c: nat) returns (s': State)
    requires Reachable(s) && HandOf(s, t) == Mapping && c !in s.mapped
    ensures Reachable(s')
    ensures s' == SetHand(s, t, Carrying(c)).(mapped := s.mapped + {c}, registered := s.registered + {c})
  {
    ReachNext(s, Map(t, c));
    var s1 := Next(s, Map(t, c));
    ReachNext(s1, Register(t));
    s' := Next(s1, Register(t));
    assert s.hand[t := Fresh(c)][t := Carrying(c)] == s.hand[t := Carrying(c)];
  }

  // One more chunk is mapped for a pool while the warm list is empty.
  lemma StageObtain(s: State, n: nat) returns (s': State)
    requires Stage(s, WARM_LOW, n, 0)
    ensures Stage(s', WARM_LOW, n + 1, 0)
  {
    ReachNext(s, ObtainMiss(1));
    var s1 := Next(s, ObtainMiss(1));
    var s2 := StageMap(s1, 1, n + 1);
    ReachNext(s2, Deliver(1));
    s' := Next(s2, Deliver(1));
    assert n + 1 !in s.pooled;
  }

  // One pooled chunk is disposed of synchronously.
  lemma StageDispose(s: State, n: nat, w: nat) returns (s': State)
    requires Stage(s, WARM_LOW, n, w) && n > 0 && w < WARM_HIGH
    ensures Stage(s', WARM_LOW, n - 1, w + 1)
  {
    var c :| c in s.pooled;
    ReachNext(s, DisposeSync(1, c));
    var s1 := Next(s, DisposeSync(1, c));
    ReachNext(s1, Recycle(1));
    s' := Next(s1, Recycle(1));
  }

  // The maintenance thread pushes one of the chunks it owes.
  lemma StagePush(s: State, d: int, w: nat) returns (s': State)
    requires Stage(s, d, 0, w) && d > 0
    ensures Stage(s', d - 1, 0, w + 1)
  {
    ReachNext(s, BgPremap);
    var s1 := Next(s, BgPremap);
    var s2 := StageMap(s1, BG, w + 1);
    ReachNext(s2, BgPush);
    s' := Next(s2, BgPush);
  }

  lemma {:induction false} StageFull(n: nat) returns (s: State)
    ensures Stage(s, WARM_LOW, n, 0)
  {
    if n == 0 {
      s := StageStart();
    } else {
      s := StageFull(n - 1);
      s := StageObtain(s, n - 1);
    }
  }

  lemma {:induction false} StageWarm(w: nat) returns (s: State)
    requires w <= WARM_HIGH
    ensures Stage(s, WARM_LOW, WARM_HIGH - w, w)
  {
    if w == 0 {
      s := StageFull(WARM_HIGH);
    } else {
      s := StageWarm(w - 1);
      s := StageDispose(s, WARM_HIGH - (w - 1), w - 1);
    }
  }

  lemma {:induction false} StagePushed(k: nat) returns (s: State)
    requires k <= WARM_LOW
    ensures Stage(s, WARM_LOW - k, 0, WARM_HIGH + k)
  {
    if k == 0 {
      s := StageWarm(WARM_HIGH);
    } else {
      s := StagePushed(k - 1);
      s := StagePush(s, WARM_LOW - (k - 1), WARM_HIGH + (k - 1));
    }
  }

  /** Mixing the two disposal routes can take the warm list past its high mark,
      up to and never beyond 72 chunks. */
  lemma WarmBoundIsTight()
    ensures exists s :: Reachable(s) && |s.warm| == WARM_HIGH + WARM_LOW
  {
    var s := StagePushed(WARM_LOW);
  }
}
