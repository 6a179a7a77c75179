/** Call-site interning: an open-addressing table from return address to a
    dense id, read without a lock and extended under one, with a one-entry
    cache per thread in front of it. */
module Intern {
  import opened Bits
  import opened Seqs

  const SHIFT_40: nat := 0x100_0000_0000
  const MULTIPLIER: nat := 0x9E37_79B9_7F4A_7C15

  // Table geometry: capacity 2^bits, partition count 2^pbits, at least 8 entries per partition.
  datatype Config = Config(bits: nat, pbits: nat) {
    function Cap(): nat { Pow2(bits) }
    function Parts(): nat { Pow2(pbits) }
    predicate Valid() { 10 <= bits && pbits + 3 <= bits && pbits <= 12 }
  }

  function Hash(key: nat): nat {
    key / 16 * MULTIPLIER % WORD / SHIFT_40
  }

  function Home(c: Config, key: nat): (i: nat)
    ensures i == key / 16 * MULTIPLIER % WORD / SHIFT_40 % c.Cap()
  {
    MaskIsMod(Hash(key), c.bits);
    And(Hash(key), c.Cap() - 1)
  }

  // The n-th slot probed for a key.
  function Slot(c: Config, key: nat, n: nat): (i: nat)
    ensures i < c.Cap()
  {
    (Home(c, key) + n) % c.Cap()
  }

  function Part(c: Config, id: nat): (p: nat)
    ensures p == id % c.Parts()
  {
    MaskIsMod(id, c.pbits);
    And(id, c.Parts() - 1)
  }

  function Fallback(c: Config, key: nat): (p: nat)
    ensures p == key / 16 * MULTIPLIER % WORD / SHIFT_40 % c.Parts()
  {
    Part(c, Hash(key))
  }

  datatype Table = Table(ra: seq<nat>, id: seq<nat>, next: nat)

  function Used(ra: seq<nat>): set<nat> {
    set j | j in Below(|ra|) && ra[j] != 0
  }

  // The first n slots probed for the key hold other keys.
  ghost predicate Passed(c: Config, ra: seq<nat>, key: nat, n: nat)
    requires |ra| == c.Cap()
  {
    forall m: nat :: m < n ==> ra[Slot(c, key, m)] != 0 && ra[Slot(c, key, m)] != key
  }

  lemma PassedAt(c: Config, ra: seq<nat>, key: nat, n: nat, m: nat)
    requires |ra| == c.Cap() && Passed(c, ra, key, n) && m < n
    ensures ra[Slot(c, key, m)] != 0 && ra[Slot(c, key, m)] != key
  {}

  // Probing for the key stored at j reaches j before any empty slot.
  ghost predicate Reached(c: Config, ra: seq<nat>, j: nat)
    requires |ra| == c.Cap() && j < |ra|
  {
    exists d: nat :: d < c.Cap() && Slot(c, ra[j], d) == j && Passed(c, ra, ra[j], d)
  }

  ghost predicate TableInv(c: Config, t: Table) {
    && c.Valid() && |t.ra| == c.Cap() && |t.id| == c.Cap()
    && (forall j: nat :: j < c.Cap() && t.ra[j] != 0 ==> Reached(c, t.ra, j) && t.id[j] < t.next)
    && (forall i, j :: 0 <= i < j < c.Cap() && t.ra[i] != 0 && t.ra[j] != 0 ==> t.id[i] != t.id[j])
    && t.next == |Used(t.ra)|
  }

  function Insert(t: Table, i: nat, key: nat): Table
    requires i < |t.ra| && i < |t.id|
  {
    Table(t.ra[i := key], t.id[i := t.next], t.next + 1)
  }

  // ---- probing visits every slot ----

  lemma WrapAdd(h: nat, m: nat, k: nat)
    requires h < k && m < k
    ensures (h + m) % k == if h + m < k then h + m else h + m - k
  {
    if h + m < k { ModUnique(h + m, k, 0, h + m); } else { ModUnique(h + m, k, 1, h + m - k); }
  }

  /** Probing capacity many slots meets every slot of the table. */
  lemma ProbeCovers(c: Config, key: nat, j: nat) returns (m: nat)
    requires j < c.Cap()
    ensures m < c.Cap() && Slot(c, key, m) == j
  {
    var h, k := Home(c, key), c.Cap();
    m := if h <= j then j - h else j + k - h;
    WrapAdd(h, m, k);
  }

  // ---- a key's place ----

  /** If the probe for a key stops at an empty slot, the key is nowhere in the table. */
  lemma AbsentAtEmpty(c: Config, t: Table, key: nat, n: nat)
    requires TableInv(c, t) && key != 0 && n < c.Cap() && Passed(c, t.ra, key, n) && t.ra[Slot(c, key, n)] == 0
    ensures key !in t.ra
  {
    forall j | 0 <= j < |t.ra| && t.ra[j] != 0 ensures t.ra[j] != key {
      var d: nat :| d < c.Cap() && Slot(c, t.ra[j], d) == j && Passed(c, t.ra, t.ra[j], d);
      if n < d { PassedAt(c, t.ra, t.ra[j], d, n); } else if d < n { PassedAt(c, t.ra, key, n, d); }
    }
  }

  /** Each call site occurs at most once. */
  lemma KeyUnique(c: Config, t: Table, i: nat, j: nat)
    requires TableInv(c, t) && i < c.Cap() && j < c.Cap() && t.ra[i] == t.ra[j] != 0
    ensures i == j
  {
    var key := t.ra[i];
    var d: nat :| d < c.Cap() && Slot(c, t.ra[i], d) == i && Passed(c, t.ra, t.ra[i], d);
    var e: nat :| e < c.Cap() && Slot(c, t.ra[j], e) == j && Passed(c, t.ra, t.ra[j], e);
    if d < e { PassedAt(c, t.ra, key, e, d); } else if e < d { PassedAt(c, t.ra, key, d, e); }
  }

  lemma PassedKept(c: Config, t: Table, i: nat, key: nat, k: nat, n: nat)
    requires |t.ra| == c.Cap() && |t.id| == c.Cap() && i < c.Cap() && key != 0 && t.ra[i] == 0
    requires Passed(c, t.ra, k, n)
    ensures Passed(c, Insert(t, i, key).ra, k, n)
  {}

  lemma UsedInsert(ra: seq<nat>, i: nat, key: nat)
    requires i < |ra| && ra[i] == 0 && key != 0
    ensures |Used(ra[i := key])| == |Used(ra)| + 1
  {
    BelowIff(|ra|, i);
    assert Used(ra[i := key]) == Used(ra) + {i};
  }

  /** Claiming the empty slot where a probe stopped keeps the table invariant. */
  lemma InsertInv(c: Config, t: Table, key: nat, n: nat)
    requires TableInv(c, t) && key != 0 && n < c.Cap() && Passed(c, t.ra, key, n) && t.ra[Slot(c, key, n)] == 0
    ensures TableInv(c, Insert(t, Slot(c, key, n), key))
  {
    var i := Slot(c, key, n);
    var t' := Insert(t, i, key);
    UsedInsert(t.ra, i, key);
    PassedKept(c, t, i, key, key, n);
    forall j: nat | j < c.Cap() && t'.ra[j] != 0 ensures Reached(c, t'.ra, j) && t'.id[j] < t'.next {
      if j != i {
        var d: nat :| d < c.Cap() && Slot(c, t.ra[j], d) == j && Passed(c, t.ra, t.ra[j], d);
        PassedKept(c, t, i, key, t.ra[j], d);
      }
    }
  }

  // ---- the partition of a call site ----

  // Every slot holds some other key.
  ghost predicate FullWithout(t: Table, key: nat) {
    0 !in t.ra && key !in t.ra
  }

  /** Call site `key` has been given partition p: its id in the table modulo the number
      of partitions, or its hash modulo that number if the table is full of others. */
  ghost predicate Assigned(c: Config, t: Table, key: nat, p: nat) {
    || (exists j: nat :: j < |t.ra| && j < |t.id| && t.ra[j] == key && p == t.id[j] % c.Parts())
    || (FullWithout(t, key) && p == key / 16 * MULTIPLIER % WORD / SHIFT_40 % c.Parts())
  }

  lemma AssignedInRange(c: Config, t: Table, key: nat, p: nat)
    requires Assigned(c, t, key, p)
    ensures p < c.Parts()
  {}

  lemma AssignedUnique(c: Config, t: Table, key: nat, p: nat, q: nat)
    requires TableInv(c, t) && key != 0 && Assigned(c, t, key, p) && Assigned(c, t, key, q)
    ensures p == q
  {
    if key in t.ra {
      var i: nat :| i < |t.ra| && t.ra[i] == key && p == t.id[i] % c.Parts();
      var j: nat :| j < |t.ra| && t.ra[j] == key && q == t.id[j] % c.Parts();
      KeyUnique(c, t, i, j);
    }
  }

  lemma AssignedKept(c: Config, t: Table, i: nat, key: nat, k: nat, p: nat)
    requires i < |t.ra| == |t.id| && t.ra[i] == 0 && key != 0 && k != 0 && Assigned(c, t, k, p)
    ensures Assigned(c, Insert(t, i, key), k, p)
  {
    assert t.ra[i] in t.ra;
    var j: nat :| j < |t.ra| && t.ra[j] == k && p == t.id[j] % c.Parts();
    assert Insert(t, i, key).ra[j] == k && Insert(t, i, key).id[j] == t.id[j];
  }

  // The whole table probed in vain: it is full of other keys.
  lemma ProbedAll(c: Config, t: Table, key: nat)
    requires |t.ra| == c.Cap() && Passed(c, t.ra, key, c.Cap())
    ensures FullWithout(t, key)
  {
    forall j | 0 <= j < |t.ra| ensures t.ra[j] != 0 && t.ra[j] != key {
      var m := ProbeCovers(c, key, j);
    }
  }

  /** A full table holds capacity many ids, so the fallback needs more call sites
      than there are partitions. */
  lemma FullTableCount(c: Config, t: Table, key: nat)
    requires TableInv(c, t) && FullWithout(t, key)
    ensures t.next >= c.Cap() > c.Parts()
  {
    forall j ensures j in Used(t.ra) <==> j in Below(|t.ra|) {
      if j in Below(|t.ra|) {
        BelowIff(|t.ra|, j);
        assert t.ra[j] in t.ra;
      }
    }
    assert Used(t.ra) == Below(|t.ra|);
    NoDupCard(Iota(|t.ra|));
    MorePartsBits(c);
  }

  lemma MorePartsBits(c: Config)
    requires c.Valid()
    ensures c.Cap() > c.Parts()
  {
    Pow2Mono(c.pbits + 1, c.bits);
  }

  /** As long as no more call sites than partitions have been seen, distinct call
      sites have distinct partitions. */
  lemma FirstSitesDistinct(c: Config, t: Table, k: nat, l: nat, p: nat, q: nat)
    requires TableInv(c, t) && k != 0 && l != 0 && k != l
    requires Assigned(c, t, k, p) && Assigned(c, t, l, q) && t.next <= c.Parts()
    ensures p != q
  {
    if FullWithout(t, k) { FullTableCount(c, t, k); }
    if FullWithout(t, l) { FullTableCount(c, t, l); }
    var i: nat :| i < |t.ra| && t.ra[i] == k && p == t.id[i] % c.Parts();
    var j: nat :| j < |t.ra| && t.ra[j] == l && q == t.id[j] % c.Parts();
    ModUnique(t.id[i], c.Parts(), 0, t.id[i]);
    ModUnique(t.id[j], c.Parts(), 0, t.id[j]);
  }

  // ---- any number of threads ----

  datatype Phase =
    | Idle
    | Probing(key: nat, n: nat)      // about to read the n-th slot
    | Claiming(key: nat, n: nat)     // saw the n-th slot empty, about to take the lock

  datatype Cached = Cached(key: nat, part: nat)

  datatype State = State(table: Table, phase: map<nat, Phase>, tls: map<nat, Cached>)

  function PhaseOf(s: State, t: nat): Phase {
    if t in s.phase then s.phase[t] else Idle
  }

  function TlsOf(s: State, t: nat): Cached {
    if t in s.tls then s.tls[t] else Cached(0, 0)
  }

  datatype Step =
    | Call(t: nat, key: nat)
    | Probe(t: nat)
    | Claim(t: nat)

  predicate Enabled(c: Config, s: State, a: Step) {
    match a
    case Call(t, key) => PhaseOf(s, t) == Idle && key != 0
    case Probe(t) => PhaseOf(s, t).Probing?
    case Claim(t) => PhaseOf(s, t).Claiming?
  }

  // What a step returns, if it completes the call.
  ghost function Returns(c: Config, s: State, a: Step): Option<Cached>
    requires |s.table.ra| == |s.table.id| == c.Cap() && Enabled(c, s, a)
  {
    match a
    case Call(t, key) => if TlsOf(s, t).key == key then Some(TlsOf(s, t)) else None
    case Probe(t) =>
      var p := PhaseOf(s, t);
      var i := Slot(c, p.key, p.n);
      if p.n >= c.Cap() then Some(Cached(p.key, Fallback(c, p.key)))
      else if s.table.ra[i] == p.key then Some(Cached(p.key, Part(c, s.table.id[i])))
      else None
    case Claim(t) =>
      var p := PhaseOf(s, t);
      var i := Slot(c, p.key, p.n);
      if s.table.ra[i] == 0 then Some(Cached(p.key, Part(c, s.table.next)))
      else if s.table.ra[i] == p.key then Some(Cached(p.key, Part(c, s.table.id[i])))
      else None
  }

  ghost function Next(c: Config, s: State, a: Step): State
    requires |s.table.ra| == |s.table.id| == c.Cap() && Enabled(c, s, a)
  {
    var t := a.t;
    var r := Returns(c, s, a);
    var table := if a.Claim? && s.table.ra[Slot(c, PhaseOf(s, t).key, PhaseOf(s, t).n)] == 0
                 then Insert(s.table, Slot(c, PhaseOf(s, t).key, PhaseOf(s, t).n), PhaseOf(s, t).key) else s.table;
    if r.Some? then State(table, s.phase[t := Idle], s.tls[t := r.value])
    else
      var p := match a
        case Call(_, key) => Probing(key, 0)
        case Probe(_) =>
          if s.table.ra[Slot(c, PhaseOf(s, t).key, PhaseOf(s, t).n)] == 0
          then Claiming(PhaseOf(s, t).key, PhaseOf(s, t).n) else Probing(PhaseOf(s, t).key, PhaseOf(s, t).n + 1)
        case Claim(_) => Probing(PhaseOf(s, t).key, PhaseOf(s, t).n + 1);
      s.(phase := s.phase[t := p])
  }

  function InitTable(c: Config): Table {
    Table(seq(c.Cap(), _ => 0), seq(c.Cap(), _ => 0), 0)
  }

  ghost predicate PhaseOk(c: Config, t: Table, p: Phase) {
    |t.ra| == c.Cap() &&
    match p
    case Idle => true
    case Probing(key, n) => key != 0 && n <= c.Cap() && Passed(c, t.ra, key, n)
    case Claiming(key, n) => key != 0 && n < c.Cap() && Passed(c, t.ra, key, n)
  }

  ghost predicate TlsOk(c: Config, t: Table, e: Cached) {
    e.key != 0 ==> Assigned(c, t, e.key, e.part)
  }

  ghost predicate Inv(c: Config, s: State) {
    && TableInv(c, s.table)
    && (forall t :: PhaseOk(c, s.table, PhaseOf(s, t)))
    && (forall t :: TlsOk(c, s.table, TlsOf(s, t)))
  }

  // The table only grows, and only at an empty slot.
  ghost predicate Grows(t: Table, t': Table) {
    t' == t || exists i: nat, key ::
                 i < |t.ra| && i < |t.id| && t.ra[i] == 0 && key != 0 && t' == Insert(t, i, key)
  }

  lemma GrowsKeeps(c: Config, t: Table, t': Table, p: Phase, e: Cached)
    requires TableInv(c, t) && Grows(t, t') && PhaseOk(c, t, p) && TlsOk(c, t, e)
    ensures PhaseOk(c, t', p) && TlsOk(c, t', e)
  {
    if t' != t {
      var i: nat, key :| i < |t.ra| && t.ra[i] == 0 && key != 0 && t' == Insert(t, i, key);
      if e.key != 0 { AssignedKept(c, t, i, key, e.key, e.part); }
      if !p.Idle? { PassedKept(c, t, i, key, p.key, p.n); }
    }
  }

  lemma StepTable(c: Config, s: State, a: Step)
    requires Inv(c, s) && Enabled(c, s, a)
    ensures TableInv(c, Next(c, s, a).table) && Grows(s.table, Next(c, s, a).table)
    ensures var r := Returns(c, s, a); r.Some? ==> r.value.key != 0 && TlsOk(c, Next(c, s, a).table, r.value)
  {
    var p := PhaseOf(s, a.t);
    assert PhaseOk(c, s.table, p) && TlsOk(c, s.table, TlsOf(s, a.t));
    if a.Claim? && s.table.ra[Slot(c, p.key, p.n)] == 0 {
      var i := Slot(c, p.key, p.n);
      InsertInv(c, s.table, p.key, p.n);
      assert Insert(s.table, i, p.key).ra[i] == p.key && Insert(s.table, i, p.key).id[i] == s.table.next;
    } else if a.Probe? && p.n == c.Cap() {
      ProbedAll(c, s.table, p.key);
    }
  }

  lemma StepPhase(c: Config, s: State, a: Step)
    requires Inv(c, s) && Enabled(c, s, a) && Returns(c, s, a).None?
    ensures PhaseOk(c, s.table, PhaseOf(Next(c, s, a), a.t))
  {
    assert PhaseOk(c, s.table, PhaseOf(s, a.t));
  }

  lemma StepInv(c: Config, s: State, a: Step)
    requires Inv(c, s) && Enabled(c, s, a)
    ensures Inv(c, Next(c, s, a))
  {
    var s' := Next(c, s, a);
    StepTable(c, s, a);
    forall t ensures PhaseOk(c, s'.table, PhaseOf(s', t)) && TlsOk(c, s'.table, TlsOf(s', t)) {
      GrowsKeeps(c, s.table, s'.table, PhaseOf(s, t), TlsOf(s, t));
      if t == a.t && Returns(c, s, a).None? { StepPhase(c, s, a); }
    }
  }

  ghost predicate Run(c: Config, ss: seq<State>, acts: seq<Step>) {
    && |ss| == |acts| + 1 && ss[0] == State(InitTable(c), map[], map[])
    && (forall i :: 0 <= i < |ss| ==> |ss[i].table.ra| == |ss[i].table.id| == c.Cap())
    && forall i :: 0 <= i < |acts| ==> Enabled(c, ss[i], acts[i]) && ss[i + 1] == Next(c, ss[i], acts[i])
  }

  lemma InitInv(c: Config)
    requires c.Valid()
    ensures Inv(c, State(InitTable(c), map[], map[]))
  {
    assert Used(InitTable(c).ra) == {};
  }

  lemma {:induction false} RunInv(c: Config, ss: seq<State>, acts: seq<Step>, n: nat)
    requires c.Valid() && Run(c, ss, acts) && n < |ss|
    ensures Inv(c, ss[n])
  {
    if n == 0 {
      InitInv(c);
    } else {
      RunInv(c, ss, acts, n - 1);
      StepInv(c, ss[n - 1], acts[n - 1]);
    }
  }

  lemma {:induction false} AssignedStays(c: Config, ss: seq<State>, acts: seq<Step>, m: nat, n: nat, key: nat, p: nat)
    requires c.Valid() && Run(c, ss, acts) && m <= n < |ss| && key != 0 && Assigned(c, ss[m].table, key, p)
    ensures Assigned(c, ss[n].table, key, p)
    decreases n - m
  {
    if m == n {
    } else {
      AssignedStays(c, ss, acts, m, n - 1, key, p);
      RunInv(c, ss, acts, n - 1);
      StepTable(c, ss[n - 1], acts[n - 1]);
      GrowsKeeps(c, ss[n - 1].table, ss[n].table, Idle, Cached(key, p));
    }
  }

  lemma ReturnAssigned(c: Config, ss: seq<State>, acts: seq<Step>, m: nat)
    requires c.Valid() && Run(c, ss, acts) && m < |acts| && Returns(c, ss[m], acts[m]).Some?
    ensures var r := Returns(c, ss[m], acts[m]).value; r.key != 0 && Assigned(c, ss[m + 1].table, r.key, r.part)
  {
    RunInv(c, ss, acts, m);
    StepTable(c, ss[m], acts[m]);
  }

  /** In every run, every call returns one of the partitions; on a table full of other
      call sites it is the call site's hash. */
  lemma PartitionInRange(c: Config, ss: seq<State>, acts: seq<Step>, m: nat)
    requires c.Valid() && Run(c, ss, acts) && m < |acts| && Returns(c, ss[m], acts[m]).Some?
    ensures var r := Returns(c, ss[m], acts[m]).value;
            && r.part < c.Parts()
            && (0 !in ss[m + 1].table.ra && r.key !in ss[m + 1].table.ra ==>
                  r.part == r.key / 16 * MULTIPLIER % WORD / SHIFT_40 % c.Parts())
  {
    var r := Returns(c, ss[m], acts[m]).value;
    ReturnAssigned(c, ss, acts, m);
    AssignedInRange(c, ss[m + 1].table, r.key, r.part);
  }

  /** In every interleaving, all calls for one call site return one partition,
      whether through a thread's cache, the table or the full-table fallback. */
  lemma PartitionStable(c: Config, ss: seq<State>, acts: seq<Step>, m: nat, n: nat)
    requires c.Valid() && Run(c, ss, acts) && m <= n < |acts|
    requires Returns(c, ss[m], acts[m]).Some? && Returns(c, ss[n], acts[n]).Some?
    requires Returns(c, ss[m], acts[m]).value.key == Returns(c, ss[n], acts[n]).value.key
    ensures Returns(c, ss[m], acts[m]).value.part == Returns(c, ss[n], acts[n]).value.part
  {
    var r, q := Returns(c, ss[m], acts[m]).value, Returns(c, ss[n], acts[n]).value;
    ReturnAssigned(c, ss, acts, m);
    ReturnAssigned(c, ss, acts, n);
    AssignedStays(c, ss, acts, m + 1, n + 1, r.key, r.part);
    RunInv(c, ss, acts, n + 1);
    AssignedUnique(c, ss[n + 1].table, r.key, r.part, q.part);
  }

  /** While at most as many call sites as partitions have been interned, calls for
      different call sites return different partitions. */
  lemma PartitionsDistinct(c: Config, ss: seq<State>, acts: seq<Step>, m: nat, n: nat)
    requires c.Valid() && Run(c, ss, acts) && m <= n < |acts| && ss[n + 1].table.next <= c.Parts()
    requires Returns(c, ss[m], acts[m]).Some? && Returns(c, ss[n], acts[n]).Some?
    requires Returns(c, ss[m], acts[m]).value.key != Returns(c, ss[n], acts[n]).value.key
    ensures Returns(c, ss[m], acts[m]).value.part != Returns(c, ss[n], acts[n]).value.part
  {
    var r, q := Returns(c, ss[m], acts[m]).value, Returns(c, ss[n], acts[n]).value;
    ReturnAssigned(c, ss, acts, m);
    ReturnAssigned(c, ss, acts, n);
    AssignedStays(c, ss, acts, m + 1, n + 1, r.key, r.part);
    RunInv(c, ss, acts, n + 1);
    FirstSitesDistinct(c, ss[n + 1].table, r.key, q.key, r.part, q.part);
  }

  // ---- the slow path on arrays ----

  class InternTable {
    const c: Config
    const ra: array<nat>
    const id: array<nat>
    var next: nat
    var cachedKey: nat
    var cachedPart: nat

    ghost function View(): Table
      reads this, ra, id
    {
      Table(ra[..], id[..], next)
    }

    ghost predicate Valid()
      reads this, ra, id
    {
      ra != id && TableInv(c, View())
    }

    constructor (c: Config)
      requires c.Valid()
      ensures Valid() && this.c == c && next == 0 && fresh(ra) && fresh(id)
    {
      this.c := c;
      ra := new nat[c.Cap()](_ => 0);
      id := new nat[c.Cap()](_ => 0);
      next, cachedKey, cachedPart := 0, 0, 0;
      new;
      assert Used(ra[..]) == {};
    }

    // The locked insertion at the empty slot i.
    method Claim(i: nat, key: nat) returns (part: nat)
      requires |View().ra| == |View().id| == c.Cap() && ra != id && i < c.Cap()
      modifies this`next, ra, id
      ensures View() == Insert(old(View()), i, key) && part == Part(c, old(next))
    {
      part := Part(c, next);
      id[i] := next;
      ra[i] := key;
      next := next + 1;
    }

    // Finds the key or the end of its probe sequence.
    method Search(key: nat) returns (i: nat, n: nat)
      requires Valid() && key != 0
      ensures n <= c.Cap() && i == Slot(c, key, n) && Passed(c, ra[..], key, n)
      ensures n < c.Cap() ==> ra[i] == key || ra[i] == 0
    {
      n := 0;
      i := Home(c, key);
      ModUnique(i, c.Cap(), 0, i);
      while n < c.Cap() && ra[i] != key && ra[i] != 0
        invariant n <= c.Cap() && i == Slot(c, key, n)
        invariant Passed(c, ra[..], key, n)
      {
        NextSlot(c, key, n);
        i := And(i + 1, c.Cap() - 1);
        n := n + 1;
      }
    }

    /** One thread's slow path: finds the call site, claims the first empty slot of
        its probe sequence, or falls back when the table is full of others. */
    method Slow(key: nat) returns (part: nat)
      requires Valid() && key != 0
      modifies this, ra, id
      ensures Valid() && Assigned(c, View(), key, part) && part < c.Parts()
      ensures 0 !in View().ra && key !in View().ra ==>
                part == key / 16 * MULTIPLIER % WORD / SHIFT_40 % c.Parts()
      ensures View() != old(View()) ==>
                && key !in old(View()).ra
                && exists n: nat :: n < c.Cap() && View() == Insert(old(View()), Slot(c, key, n), key)
      ensures cachedKey == key && cachedPart == part
    {
      var i, n := Search(key);
      if n == c.Cap() {
        ProbedAll(c, View(), key);
        part := Fallback(c, key);
      } else if ra[i] == key {
        part := Part(c, id[i]);
        assert View().ra[i] == key && View().id[i] == id[i];
      } else {
        AbsentAtEmpty(c, View(), key, n);
        InsertInv(c, View(), key, n);
        part := Claim(i, key);
        assert View().ra[i] == key && View().id[i] == old(next);
      }
      AssignedInRange(c, View(), key, part);
      cachedKey, cachedPart := key, part;
    }
  }

  lemma NextSlot(c: Config, key: nat, n: nat)
    ensures And(Slot(c, key, n) + 1, c.Cap() - 1) == Slot(c, key, n + 1)
  {
    MaskSucc(Home(c, key) + n, c.bits);
  }

  lemma MaskSucc(x: nat, bits: nat)
    ensures And(x % Pow2(bits) + 1, Pow2(bits) - 1) == (x + 1) % Pow2(bits)
  {
    MaskIsMod(x % Pow2(bits) + 1, bits);
    ModSucc(x, Pow2(bits));
  }

  lemma ModSucc(x: nat, k: nat)
    requires k > 0
    ensures (x % k + 1) % k == (x + 1) % k
  {
    var q, r := x / k, x % k;
    if r + 1 < k {
      ModUnique(r + 1, k, 0, r + 1);
      ModUnique(x + 1, k, q, r + 1);
    } else {
      ModUnique(r + 1, k, 1, 0);
      ModUnique(x + 1, k, q + 1, 0);
    }
  }
}
